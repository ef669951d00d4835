/** Location onboarding (`LocationSetup`): asks the browser for a position,
    stores the rounded coordinates on the profile, and reports denial and
    failures. */
module LocationSetup {
  import opened Types

  datatype Status = Idle | Requesting | Denied | Updating | Error

  const NOT_SUPPORTED_MSG := "Geolocation is not supported by your browser."
  const DENIED_MSG := "Location access was denied. NearNest needs your location to show nearby messages."
  const FALLBACK_MSG := "Failed to get location."
  /** The position error code for a refused permission. */
  const PERMISSION_DENIED := 1

  /** The profile update sent once a position is known. */
  datatype ProfileUpdate = ProfileUpdate(id: UserId, latRounded: int, lonRounded: int)

  /** The state and message a position error leaves: denial has its own
      fixed text; any other failure shows the browser's message, or a
      fallback when that is empty. */
  function PositionErrorState(code: int, message: string): (r: (Status, string))
    ensures r.0 == Denied <==> code == PERMISSION_DENIED
    ensures r.0 != Denied ==> r.0 == Error
    ensures r.0 == Denied ==> r.1 == DENIED_MSG
    ensures r.0 == Error && message != "" ==> r.1 == message
    ensures r.0 == Error && message == "" ==> r.1 == FALLBACK_MSG
    ensures r.1 != ""
  {
    if code == PERMISSION_DENIED then (Denied, DENIED_MSG)
    else (Error, if message != "" then message else FALLBACK_MSG)
  }

  class LocationSetup {
    const profile: Profile
    var status: Status
    var errorMsg: string

    /** The message is empty except after a failure, and denial always
        shows the fixed text. */
    ghost predicate Valid()
      reads this
    {
      && (status == Idle || status == Requesting || status == Updating ==> errorMsg == "")
      && (status == Denied ==> errorMsg == DENIED_MSG)
    }

    constructor (profile: Profile)
      ensures Valid() && this.profile == profile
      ensures status == Idle && errorMsg == ""
    {
      this.profile := profile;
      status, errorMsg := Idle, "";
    }

    /** The error panel (with "Try again") replaces the request button
        after a denial or a failure. */
    predicate ErrorPanelShown()
      reads this
    {
      status == Denied || status == Error
    }

    /** The request button is disabled while a position or the update is awaited. */
    predicate RequestDisabled(): (disabled: bool)
      reads this
      ensures disabled ==> !ErrorPanelShown()
    {
      status == Requesting || status == Updating
    }

    /** `requestLocation`, up to the position request: without a
        geolocation API it fails at once with the fixed message. */
    method RequestLocation(geolocationAvailable: bool)
      requires Valid()
      modifies this`status, this`errorMsg
      ensures Valid()
      ensures geolocationAvailable ==> status == Requesting && errorMsg == ""
      ensures !geolocationAvailable ==> status == Error && errorMsg == NOT_SUPPORTED_MSG
    {
      status := Requesting;
      errorMsg := "";
      if !geolocationAvailable {
        status := Error;
        errorMsg := NOT_SUPPORTED_MSG;
        return;
      }
    }

    /** The position callback, with the coordinates already rounded to
        thousandths: the update of this profile is sent. */
    method OnPosition(latRounded: int, lonRounded: int) returns (update: ProfileUpdate)
      requires Valid() && status == Requesting
      modifies this`status
      ensures Valid()
      ensures status == Updating && errorMsg == old(errorMsg)
      ensures update == ProfileUpdate(profile.id, latRounded, lonRounded)
    {
      status := Updating;
      update := ProfileUpdate(profile.id, latRounded, lonRounded);
    }

    /** The update's answer: an error shows its message and `onComplete`
        is not called; otherwise `onComplete` is called. */
    method OnUpdateResult(updateError: Option<string>) returns (completed: bool)
      requires Valid() && status == Updating
      modifies this`status, this`errorMsg
      ensures Valid()
      ensures completed <==> updateError.None?
      ensures updateError.Some? ==> status == Error && errorMsg == updateError.value
      ensures updateError.None? ==> status == old(status) && errorMsg == old(errorMsg)
    {
      if updateError.Some? {
        status := Error;
        errorMsg := updateError.value;
        return false;
      }
      completed := true;
    }

    /** The position error callback. */
    method OnPositionError(code: int, message: string)
      requires Valid() && status == Requesting
      modifies this`status, this`errorMsg
      ensures Valid()
      ensures (status, errorMsg) == PositionErrorState(code, message)
    {
      var next := PositionErrorState(code, message);
      status := next.0;
      errorMsg := next.1;
    }

    /** "Try again": back to the start. */
    method TryAgain()
      requires Valid()
      modifies this`status, this`errorMsg
      ensures Valid()
      ensures status == Idle && errorMsg == ""
    {
      status := Idle;
      errorMsg := "";
    }
  }
}
