/** The sign-in screen (`AuthScreen`): a magic-link request for an email
    address, and what the screen shows around it. */
module Auth {
  import opened Types
  import opened Text
  import Config

  datatype Status = Idle | Sending | Sent | Error

  /** The three mutually exclusive panels of the card. */
  datatype View = SentPanel | ConfigPrompt | Form

  /** Which panel is shown: the confirmation once a link was sent, even
      with a broken configuration; otherwise the configuration prompt when
      the configuration is not valid; otherwise the form. */
  function ViewFor(status: Status, configValid: bool): (v: View)
    ensures v == SentPanel <==> status == Sent
    ensures v == ConfigPrompt <==> status != Sent && !configValid
    ensures v == Form <==> status != Sent && configValid
  {
    if status == Sent then SentPanel else if !configValid then ConfigPrompt else Form
  }

  class AuthScreen {
    /** `isConfigValid` of the build environment */
    const configValid: bool
    var email: string
    var status: Status
    var errorMsg: string

    /** Only a failure leaves a message; a request in flight or sent was
        for a non-blank address. */
    ghost predicate Valid()
      reads this
    {
      && (status != Error ==> errorMsg == "")
      && (status == Sending || status == Sent ==> !AllWhitespace(email))
    }

    constructor (env: Config.Env)
      ensures Valid() && configValid == Config.IsConfigValid(env)
      ensures email == "" && status == Idle && errorMsg == ""
    {
      configValid := Config.IsConfigValid(env);
      email, status, errorMsg := "", Idle, "";
    }

    function View(): (v: View)
      reads this
      ensures v == ViewFor(status, configValid)
    {
      ViewFor(status, configValid)
    }

    /** The email input and the submit button are disabled while sending. */
    predicate InputsDisabled()
      reads this
    {
      status == Sending
    }

    /** Typing into the email field, which exists and is enabled only in the
        form outside a send. */
    method EditEmail(value: string)
      requires Valid() && View() == Form && !InputsDisabled()
      modifies this`email
      ensures Valid()
      ensures email == value
    {
      email := value;
    }

    /** `handleSubmit` up to the request: a blank address changes nothing
        and sends nothing; otherwise the message is cleared, the status is
        sending, and the trimmed address is requested. */
    method Submit() returns (request: Option<string>)
      requires Valid() && View() == Form && !InputsDisabled()
      modifies this`status, this`errorMsg
      ensures Valid()
      ensures AllWhitespace(email) ==> request.None? && status == old(status) && errorMsg == old(errorMsg)
      ensures !AllWhitespace(email) ==> request == Some(Trim(email)) && status == Sending && errorMsg == ""
    {
      var text := Trim(email);
      TrimSpec(email);
      if text == [] {
        return None;
      }
      status := Sending;
      errorMsg := "";
      request := Some(text);
    }

    /** The answer to the request: an error shows its message, otherwise
        the link was sent. */
    method OnSignInResult(signInError: Option<string>)
      requires Valid() && status == Sending
      modifies this`status, this`errorMsg
      ensures Valid()
      ensures signInError.Some? ==> status == Error && errorMsg == signInError.value
      ensures signInError.None? ==> status == Sent && errorMsg == ""
    {
      if signInError.Some? {
        status := Error;
        errorMsg := signInError.value;
        return;
      }
      status := Sent;
    }

    /** "Use a different email": back to an empty form. */
    method UseDifferentEmail()
      requires Valid() && status == Sent
      modifies this`status, this`email
      ensures Valid()
      ensures status == Idle && email == "" && errorMsg == ""
    {
      status := Idle;
      email := "";
    }
  }
}
