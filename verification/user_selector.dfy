/** The sign-in screen: pick a profile from the roster, type its four-digit
    PIN, unlock or see an error. */
module UserSelector {
  import opened Base
  import opened Strings
  import opened Types
  import opened PinInput

  /** "Wrong PIN entered!", in Bengali as the screen shows it. */
  const WrongPinMessage: string := "ভুল পিন দিয়েছেন!"

  /** The screen's state: the picked profile (none on the roster view), the typed PIN and the
      error line. */
  datatype LoginForm = LoginForm(selected: Option<User>, pin: string, error: string)

  const InitialForm: LoginForm := LoginForm(None, "", "")

  /** A profile button: shows the PIN pad for that profile; the typed PIN and the error line are
      left as they are. */
  function PickProfile(f: LoginForm, user: User): (g: LoginForm)
    ensures g.selected == Some(user) && g.pin == f.pin && g.error == f.error
  {
    f.(selected := Some(user))
  }

  /** The PIN field's `onChange`. */
  function TypePin(f: LoginForm, raw: string): (g: LoginForm)
    ensures WellFormedPin(g.pin)
    ensures g.selected == f.selected && g.error == f.error
    ensures AllDigits(Take(raw, PinLength)) ==> g.pin == Take(raw, PinLength)
  {
    f.(pin := FilterPin(raw))
  }

  /** The outcome of submitting: the screen afterwards and the profile handed to `onSelect`. */
  datatype LoginStep = LoginStep(form: LoginForm, signedIn: Option<User>)

  /** `handleLogin`: without a picked profile nothing happens; the exact stored PIN signs the
      profile in; anything else shows the error and clears the field. */
  function HandleLogin(f: LoginForm): (r: LoginStep)
    ensures r.signedIn.Some? <==> f.selected.Some? && f.pin == f.selected.value.pin
    ensures r.signedIn.Some? ==> r.signedIn == f.selected && r.form == f
    ensures f.selected.None? ==> r == LoginStep(f, None)
    ensures f.selected.Some? && f.pin != f.selected.value.pin ==>
      r.form == LoginForm(f.selected, "", WrongPinMessage) && r.signedIn.None?
  {
    match f.selected
    case None => LoginStep(f, None)
    case Some(user) =>
      if f.pin == user.pin then LoginStep(f, Some(user))
      else LoginStep(f.(pin := "", error := WrongPinMessage), None)
  }

  /** Cancel: back to the roster and the error cleared; the typed PIN stays in state and is
      still there when another profile is picked. */
  function Cancel(f: LoginForm): (g: LoginForm)
    ensures g.selected.None? && g.error == "" && g.pin == f.pin
  {
    f.(selected := None, error := "")
  }

  /** A profile whose stored PIN is not a well-formed PIN (a non-digit, or more than four
      characters) can never be unlocked through the PIN field, whatever is typed. */
  lemma MalformedPinLocksProfile(f: LoginForm, user: User, raw: string)
    requires !WellFormedPin(user.pin)
    ensures HandleLogin(TypePin(PickProfile(f, user), raw)).signedIn.None?
  {
  }

  /** A typed PIN left over from an earlier attempt is carried to the next profile picked: after
      Cancel, a profile whose PIN equals the left-over text opens on submit without typing. */
  lemma LeftoverPinCarriesOver(f: LoginForm, user: User)
    requires f.pin == user.pin
    ensures HandleLogin(PickProfile(Cancel(f), user)).signedIn == Some(user)
  {
  }

  /** After a wrong PIN the field is empty, so submitting again signs in only a profile whose
      stored PIN is empty. */
  lemma RetryAfterWrongPin(f: LoginForm)
    requires f.selected.Some? && f.pin != f.selected.value.pin
    ensures var again := HandleLogin(HandleLogin(f).form);
      again.signedIn.Some? <==> f.selected.value.pin == ""
  {
  }
}
