/**
 * The client-side logic of the settings page: the form check, the field
 * update of `handleInputChange`, and the order of requests in `handleSubmit`.
 *
 * The two requests `handleSubmit` awaits (`updateProfile` and
 * `changePassword`) are inputs: whether each one throws.
 */
module SettingsPage {
  import opened Text

  /** `formData`. */
  datatype SettingsForm = SettingsForm(
    username: string, email: string, bio: string,
    currentPassword: string, newPassword: string, confirmPassword: string,
    emailNotifications: bool, pushNotifications: bool, allowAnonymous: bool)

  /** The field names of the form, which also key the error record. */
  datatype Field =
    | Username | Email | Bio | CurrentPassword | NewPassword | ConfirmPassword
    | EmailNotifications | PushNotifications | AllowAnonymous

  /** The `string | boolean` value an input reports. */
  datatype FieldValue = Text(s: string) | Flag(b: bool)

  const UsernameRequired := "Username is required"
  const UsernameTooShort := "Username must be at least 3 characters"
  const CurrentPasswordMissing := "Current password is required to change password"
  const NewPasswordTooShort := "New password must be at least 6 characters"
  const PasswordsDiffer := "Passwords do not match"

  /** The form `validateForm` accepts: a username that is not blank and (untrimmed)
      at least 3 long, and, when a new password is typed, the current password,
      a new one of at least 6 characters, and a matching confirmation. */
  predicate ValidSettings(f: SettingsForm)
  {
    && !IsBlank(f.username) && |f.username| >= 3
    && (f.newPassword != "" ==>
          f.currentPassword != "" && |f.newPassword| >= 6 && f.newPassword == f.confirmPassword)
  }

  /** `validateForm`. The username is reported as missing when blank and as
      too short otherwise; the three password checks run only when a new
      password is typed, and each is recorded on its own, so any of them may
      occur together. The form passes exactly when no key was recorded. */
  method ValidateSettings(f: SettingsForm) returns (errors: map<Field, string>, ok: bool)
    ensures Username in errors <==> IsBlank(f.username) || |f.username| < 3
    ensures IsBlank(f.username) ==> errors[Username] == UsernameRequired
    ensures !IsBlank(f.username) && |f.username| < 3 ==> errors[Username] == UsernameTooShort
    ensures CurrentPassword in errors <==> f.newPassword != "" && f.currentPassword == ""
    ensures NewPassword in errors <==> f.newPassword != "" && |f.newPassword| < 6
    ensures ConfirmPassword in errors <==> f.newPassword != "" && f.newPassword != f.confirmPassword
    ensures CurrentPassword in errors ==> errors[CurrentPassword] == CurrentPasswordMissing
    ensures NewPassword in errors ==> errors[NewPassword] == NewPasswordTooShort
    ensures ConfirmPassword in errors ==> errors[ConfirmPassword] == PasswordsDiffer
    ensures errors.Keys <= {Username, CurrentPassword, NewPassword, ConfirmPassword}
    ensures ok <==> errors == map[]
    ensures ok <==> ValidSettings(f)
  {
    TrimEmptyIff(f.username);
    errors := map[];
    if Trim(f.username) == [] {
      errors := errors[Username := UsernameRequired];
    } else if |f.username| < 3 {
      errors := errors[Username := UsernameTooShort];
    }
    if f.newPassword != "" {
      if f.currentPassword == "" {
        errors := errors[CurrentPassword := CurrentPasswordMissing];
      }
      if |f.newPassword| < 6 {
        errors := errors[NewPassword := NewPasswordTooShort];
      }
      if f.newPassword != f.confirmPassword {
        errors := errors[ConfirmPassword := PasswordsDiffer];
      }
    }
    ok := |errors.Keys| == 0;
  }

  /** The value a field holds. */
  function Get(f: SettingsForm, field: Field): FieldValue
  {
    match field
    case Username => Text(f.username)
    case Email => Text(f.email)
    case Bio => Text(f.bio)
    case CurrentPassword => Text(f.currentPassword)
    case NewPassword => Text(f.newPassword)
    case ConfirmPassword => Text(f.confirmPassword)
    case EmailNotifications => Flag(f.emailNotifications)
    case PushNotifications => Flag(f.pushNotifications)
    case AllowAnonymous => Flag(f.allowAnonymous)
  }

  /** The fields entered with a checkbox. */
  predicate IsCheckbox(field: Field)
  {
    field.EmailNotifications? || field.PushNotifications? || field.AllowAnonymous?
  }

  /** The inputs report text for the text fields and a flag for the checkboxes. */
  predicate KindMatches(field: Field, v: FieldValue)
  {
    v.Flag? == IsCheckbox(field)
  }

  /** `handleInputChange`: the named field takes the value; the field's
      error is blanked when one is shown, and the error record is otherwise
      left alone. */
  function HandleInputChange(f: SettingsForm, errors: map<Field, string>, field: Field, v: FieldValue)
    : (r: (SettingsForm, map<Field, string>))
    requires KindMatches(field, v)
    ensures Get(r.0, field) == v
    ensures field in errors && errors[field] != "" ==> r.1 == errors[field := ""]
    ensures !(field in errors && errors[field] != "") ==> r.1 == errors
  {
    var form := match field
      case Username => f.(username := v.s)
      case Email => f.(email := v.s)
      case Bio => f.(bio := v.s)
      case CurrentPassword => f.(currentPassword := v.s)
      case NewPassword => f.(newPassword := v.s)
      case ConfirmPassword => f.(confirmPassword := v.s)
      case EmailNotifications => f.(emailNotifications := v.b)
      case PushNotifications => f.(pushNotifications := v.b)
      case AllowAnonymous => f.(allowAnonymous := v.b);
    var shown := field in errors && errors[field] != "";
    (form, if shown then errors[field := ""] else errors)
  }

  /** `handleInputChange` leaves every other field as it was. */
  lemma HandleInputChangeKeepsOthers(f: SettingsForm, errors: map<Field, string>, field: Field, v: FieldValue, other: Field)
    requires KindMatches(field, v) && other != field
    ensures Get(HandleInputChange(f, errors, field, v).0, other) == Get(f, other)
  {
  }

  /** Changing a field and changing it back restores the form. */
  lemma ChangeBack(f: SettingsForm, errors: map<Field, string>, field: Field, v: FieldValue)
    requires KindMatches(field, v)
    ensures var once := HandleInputChange(f, errors, field, v).0;
      KindMatches(field, Get(f, field)) && HandleInputChange(once, errors, field, Get(f, field)).0 == f
  {
  }

  /** The requests `handleSubmit` sends. */
  datatype Request =
    | UpdateProfile(username: string, bio: string, emailNotifications: bool, pushNotifications: bool, allowAnonymous: bool)
    | ChangePassword(current: string, proposed: string)

  /** The toast a submission ends with. */
  datatype Toast = NoToast | SuccessToast | ErrorToast

  /** The profile update built from the form. */
  function ProfileUpdate(f: SettingsForm): (r: Request)
    ensures r.UpdateProfile? && r.username == f.username && r.bio == f.bio
    ensures r.allowAnonymous == f.allowAnonymous
  {
    UpdateProfile(f.username, f.bio, f.emailNotifications, f.pushNotifications, f.allowAnonymous)
  }

  /** `handleSubmit`. A form that fails validation sends nothing. Otherwise
      the profile is updated; when that succeeds and a new password is typed,
      the password change follows, and the three password fields are cleared
      only when it succeeds. A request that throws ends the submission with
      an error toast and the form as it was. */
  method SubmitSettings(f: SettingsForm, profileFails: bool, passwordFails: bool)
    returns (errors: map<Field, string>, form: SettingsForm, requests: seq<Request>, toast: Toast)
    ensures errors == map[] <==> ValidSettings(f)
    ensures !ValidSettings(f) ==> requests == [] && form == f && toast == NoToast
    ensures ValidSettings(f) ==> |requests| >= 1 && requests[0] == ProfileUpdate(f)
    ensures ValidSettings(f) && profileFails ==> requests == [ProfileUpdate(f)] && form == f && toast == ErrorToast
    ensures ValidSettings(f) && !profileFails && f.newPassword == "" ==>
      requests == [ProfileUpdate(f)] && form == f && toast == SuccessToast
    ensures ValidSettings(f) && !profileFails && f.newPassword != "" ==>
      && requests == [ProfileUpdate(f), ChangePassword(f.currentPassword, f.newPassword)]
      && (passwordFails ==> form == f && toast == ErrorToast)
      && (!passwordFails ==> form == f.(currentPassword := "", newPassword := "", confirmPassword := "") && toast == SuccessToast)
    ensures form != f ==> ChangePassword(f.currentPassword, f.newPassword) in requests && !passwordFails
    ensures forall i :: 0 <= i < |requests| && requests[i].ChangePassword? ==>
      requests[i].current != "" && |requests[i].proposed| >= 6 && requests[i].proposed == f.confirmPassword
  {
    var ok;
    errors, ok := ValidateSettings(f);
    form, requests, toast := f, [], NoToast;
    if !ok {
      return;
    }
    requests := requests + [ProfileUpdate(f)];
    if profileFails {
      toast := ErrorToast;
      return;
    }
    if f.newPassword != "" {
      requests := requests + [ChangePassword(f.currentPassword, f.newPassword)];
      if passwordFails {
        toast := ErrorToast;
        return;
      }
      form := form.(currentPassword := "", newPassword := "", confirmPassword := "");
    }
    toast := SuccessToast;
  }
}
