/** The message composer (`MessageComposer`): a draft, a `sending` flag
    while the send is awaited, and a `throttled` flag set when a send is
    refused, cleared by a timer. */
module Composer {
  import opened Types
  import opened Text

  const BODY_MAX := 500

  /** `valid`: the trimmed draft has 1 to 500 characters. */
  predicate IsValidDraft(body: string) {
    0 < |Trim(body)| <= BODY_MAX
  }

  /** A draft that fits the input is valid exactly when it is not blank; in
      particular one of exactly 500 characters with a visible one is valid. */
  lemma ValidIffNotBlank(body: string)
    requires |body| <= BODY_MAX
    ensures IsValidDraft(body) <==> !AllWhitespace(body)
  {
    TrimSpec(body);
  }

  class MessageComposer {
    var body: string
    var sending: bool
    var throttled: bool
    /** `text`: the trimmed draft handed to `onSend` by the submit in flight */
    var pending: string
    /** timers set by refused sends that have not fired yet */
    var armedTimers: nat
    const throttleMs: int

    ghost predicate Valid()
      reads this
    {
      && |body| <= BODY_MAX
      && (sending ==> body == "" && 0 < |pending| <= BODY_MAX && IsTrimmed(pending))
      && (throttled ==> armedTimers > 0)
    }

    constructor (throttleMs: int)
      ensures Valid() && this.throttleMs == throttleMs
      ensures body == "" && !sending && !throttled && armedTimers == 0
    {
      this.throttleMs := throttleMs;
      body, sending, throttled, pending, armedTimers := "", false, false, "", 0;
    }

    /** The guard of `handleSubmit`. */
    predicate Accepts()
      reads this
    {
      IsValidDraft(body) && !sending && !throttled
    }

    /** The send button's `disabled`: an invalid draft or a send in flight.
        A throttled composer keeps the button enabled, and its submit does nothing. */
    predicate SendDisabled(): (disabled: bool)
      reads this
      ensures Accepts() ==> !disabled
      ensures !disabled ==> Accepts() || throttled
    {
      !IsValidDraft(body) || sending
    }

    /** `onChange`: the edit, cut to 500 characters. The input is disabled
        while sending, so edits only happen then. */
    method Edit(value: string)
      requires Valid() && !sending
      modifies this`body
      ensures Valid()
      ensures body == Take(value, BODY_MAX)
    {
      body := Take(value, BODY_MAX);
    }

    /** `handleSubmit` up to the await: refused drafts change nothing;
        otherwise `sending` is set, the draft is cleared and exactly the
        trimmed text goes to `onSend`. */
    method Submit() returns (sent: Option<string>)
      requires Valid()
      modifies this`sending, this`pending, this`body
      ensures Valid()
      ensures !old(Accepts()) ==> sent.None? && unchanged(this)
      ensures old(Accepts()) ==>
                && sent == Some(Trim(old(body)))
                && sending && body == "" && pending == Trim(old(body))
    {
      if !Accepts() {
        return None;
      }
      var text := Trim(body);
      TrimSpec(body);
      sending, pending, body := true, text, "";
      sent := Some(text);
    }

    /** `handleSubmit` after `onSend` returns `ok`: `sending` ends either
        way; a refused send restores the draft and throttles the composer,
        arming the timer that will clear it. */
    method SendReturned(ok: bool)
      requires Valid() && sending
      modifies this
      ensures Valid() && !sending && pending == old(pending)
      ensures ok ==> body == "" && throttled == old(throttled) && armedTimers == old(armedTimers)
      ensures !ok ==> body == old(pending) && throttled && armedTimers == old(armedTimers) + 1
    {
      sending := false;
      if !ok {
        body := pending;
        throttled := true;
        armedTimers := armedTimers + 1;
      }
    }

    /** A timer set by a refused send fires, `throttleMs` after it was set:
        the only way `throttled` is cleared. */
    method ThrottleTimerFires()
      requires Valid() && armedTimers > 0
      modifies this
      ensures Valid() && !throttled && armedTimers == old(armedTimers) - 1
      ensures body == old(body) && sending == old(sending) && pending == old(pending)
    {
      throttled := false;
      armedTimers := armedTimers - 1;
    }
  }
}
