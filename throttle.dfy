/** The send-rate throttle shared by the public chat and direct messages:
    a send is refused locally when it comes less than 1500 ms after the
    last accepted one. */
module Throttle {

  const THROTTLE_MS := 1500

  /** The guard of `handleSend`: `now - lastSentAt < THROTTLE_MS` refuses. */
  predicate Admits(lastSentAt: int, now: int) {
    now - lastSentAt >= THROTTLE_MS
  }

  /** A history of accepted send times in which each is at least the
      throttle window after the one before it. */
  ghost predicate Spaced(times: seq<int>)
    decreases |times|
  {
    |times| <= 1
    || (Spaced(times[..|times| - 1]) && times[|times| - 1] - times[|times| - 2] >= THROTTLE_MS)
  }

  /** In a spaced history, any two accepted sends are at least one window
      apart per send between them, so at least 1500 ms apart. */
  lemma {:induction false} SpacedApart(times: seq<int>, i: nat, j: nat)
    requires Spaced(times) && i < j < |times|
    ensures times[j] - times[i] >= THROTTLE_MS * (j - i)
    decreases |times|
  {
    var prefix := times[..|times| - 1];
    if j < |times| - 1 {
      SpacedApart(prefix, i, j);
      assert prefix[i] == times[i] && prefix[j] == times[j];
    } else if i < j - 1 {
      SpacedApart(prefix, i, j - 1);
      assert prefix[i] == times[i] && prefix[j - 1] == times[j - 1];
    }
  }

  /** The time of the last accepted send, or 0 before any: the initial
      `lastSentAt`. */
  function LastSent(times: seq<int>): (last: int) {
    if times == [] then 0 else times[|times| - 1]
  }

  /** An admitted send extends a spaced history to a spaced history, and
      becomes its last send. */
  lemma AdmittedKeepsSpaced(times: seq<int>, now: int)
    requires Spaced(times) && Admits(LastSent(times), now)
    ensures Spaced(times + [now]) && LastSent(times + [now]) == now
  {
    var next := times + [now];
    assert next[..|next| - 1] == times;
    if times != [] {
      assert next[|next| - 2] == LastSent(times);
    }
  }
}
