/** The profile settings form: name and email, and a password change checked for a matching
    confirmation and a minimum length. Both submissions complete after a one-second timer; timers
    with the same delay fire in the order they were set, so the pending ones form a queue. */
module ProfileSettings {

  import opened Wrappers

  const MinPasswordLength: nat := 8
  const MismatchMessage: string := "New passwords don't match!"
  const TooShortMessage: string := "Password must be at least 8 characters long!"
  const PasswordChangedMessage: string := "Password changed successfully!"
  const ProfileUpdatedMessage: string := "Profile updated successfully!"

  datatype ProfileForm = ProfileForm(name: string, email: string, currentPassword: string,
                                     newPassword: string, confirmPassword: string)

  const InitialForm: ProfileForm := ProfileForm("John Smith", "john.smith@adminverify.com", "", "", "")

  datatype FormField = Name | Email | CurrentPassword | NewPassword | ConfirmPassword

  function Field(f: ProfileForm, key: FormField): string {
    match key
    case Name => f.name
    case Email => f.email
    case CurrentPassword => f.currentPassword
    case NewPassword => f.newPassword
    case ConfirmPassword => f.confirmPassword
  }

  /** An input's change handler: `{ ...prev, [key]: value }`. */
  function SetField(f: ProfileForm, key: FormField, value: string): (r: ProfileForm)
    ensures Field(r, key) == value
    ensures forall k :: k != key ==> Field(r, k) == Field(f, k)
  {
    match key
    case Name => f.(name := value)
    case Email => f.(email := value)
    case CurrentPassword => f.(currentPassword := value)
    case NewPassword => f.(newPassword := value)
    case ConfirmPassword => f.(confirmPassword := value)
  }

  datatype PasswordVerdict = Mismatch | TooShort | Accepted

  /** The checks of `handlePasswordChange`, in their order: the confirmation first, then the length. */
  function CheckPassword(newPassword: string, confirmPassword: string): (v: PasswordVerdict)
    ensures v == Accepted <==> newPassword == confirmPassword && |newPassword| >= MinPasswordLength
    ensures v == Mismatch <==> newPassword != confirmPassword
  {
    if newPassword != confirmPassword then Mismatch
    else if |newPassword| < MinPasswordLength then TooShort
    else Accepted
  }

  /** The mismatch check runs first: a short password whose confirmation differs is reported as a
      mismatch, not as too short. */
  lemma MismatchReportedFirst(newPassword: string, confirmPassword: string)
    requires |newPassword| < MinPasswordLength && newPassword != confirmPassword
    ensures CheckPassword(newPassword, confirmPassword) == Mismatch
  {
  }

  /** The three password fields emptied; name and email kept. */
  function ClearPasswords(f: ProfileForm): (r: ProfileForm)
    ensures r.name == f.name && r.email == f.email
    ensures r.currentPassword == "" && r.newPassword == "" && r.confirmPassword == ""
  {
    f.(currentPassword := "", newPassword := "", confirmPassword := "")
  }

  /** The "Update Password" button is enabled when nothing is loading and no password field is empty. */
  predicate PasswordSubmitEnabled(f: ProfileForm, isLoading: bool) {
    !isLoading && f.currentPassword != "" && f.newPassword != "" && f.confirmPassword != ""
  }

  /** After a completed change the password button is disabled again, until all three fields are refilled. */
  lemma ClearedFormDisablesSubmit(f: ProfileForm, isLoading: bool)
    ensures !PasswordSubmitEnabled(ClearPasswords(f), isLoading)
    ensures forall k :: k != CurrentPassword ==> !PasswordSubmitEnabled(SetField(ClearPasswords(f), k, "x"), isLoading)
  {
    forall k | k != CurrentPassword ensures !PasswordSubmitEnabled(SetField(ClearPasswords(f), k, "x"), isLoading) {
      assert Field(SetField(ClearPasswords(f), k, "x"), CurrentPassword) == "";
    }
  }

  /** A pending one-second timer. */
  datatype Timer = ProfileTimer | PasswordTimer

  /** The settings page's state. */
  class Settings {
    var form: ProfileForm
    var isLoading: bool
    var pending: seq<Timer>

    constructor ()
      ensures form == InitialForm && !isLoading && pending == []
    {
      form := InitialForm;
      isLoading := false;
      pending := [];
    }

    function SubmitEnabled(): bool
      reads this
    {
      PasswordSubmitEnabled(form, isLoading)
    }

    /** One input's change handler. */
    method SetInput(key: FormField, value: string)
      modifies this
      ensures form == SetField(old(form), key, value)
      ensures isLoading == old(isLoading) && pending == old(pending)
    {
      form := SetField(form, key, value);
    }

    /** `handleProfileUpdate`: start loading and set the timer. */
    method HandleProfileUpdate()
      modifies this
      ensures isLoading && pending == old(pending) + [ProfileTimer] && form == old(form)
    {
      isLoading := true;
      pending := pending + [ProfileTimer];
    }

    /** `handlePasswordChange`: a rejected change only raises its toast; an accepted one starts
        loading and sets the timer. */
    method HandlePasswordChange() returns (toast: Option<string>)
      modifies this
      ensures form == old(form)
      ensures CheckPassword(form.newPassword, form.confirmPassword) == Mismatch ==>
        toast == Some(MismatchMessage) && isLoading == old(isLoading) && pending == old(pending)
      ensures CheckPassword(form.newPassword, form.confirmPassword) == TooShort ==>
        toast == Some(TooShortMessage) && isLoading == old(isLoading) && pending == old(pending)
      ensures CheckPassword(form.newPassword, form.confirmPassword) == Accepted ==>
        toast == None && isLoading && pending == old(pending) + [PasswordTimer]
    {
      if form.newPassword != form.confirmPassword {
        return Some(MismatchMessage);
      }
      if |form.newPassword| < MinPasswordLength {
        return Some(TooShortMessage);
      }
      isLoading := true;
      pending := pending + [PasswordTimer];
      return None;
    }

    /** The oldest pending timer fires; loading ends, and a password timer clears the password fields. */
    method FireTimer() returns (toast: Option<string>)
      modifies this
      ensures old(pending) == [] ==> form == old(form) && isLoading == old(isLoading) && pending == [] && toast == None
      ensures old(pending) != [] ==> pending == old(pending)[1..] && !isLoading
      ensures old(pending) != [] && old(pending)[0] == ProfileTimer ==>
        form == old(form) && toast == Some(ProfileUpdatedMessage)
      ensures old(pending) != [] && old(pending)[0] == PasswordTimer ==>
        form == ClearPasswords(old(form)) && toast == Some(PasswordChangedMessage)
    {
      if pending == [] {
        return None;
      }
      var timer := pending[0];
      pending := pending[1..];
      match timer {
        case ProfileTimer =>
          toast := Some(ProfileUpdatedMessage);
        case PasswordTimer =>
          toast := Some(PasswordChangedMessage);
          form := ClearPasswords(form);
      }
      isLoading := false;
    }
  }
}
