/** The form logic of frontend/src/pages/Register.js: the default role, the
    clearing of messages on every edit, the e-mail check before the request,
    and the reading of the server's answer when registration fails. */
module RegisterPage {
  import opened Collections
  import opened Text
  import opened EmailFormat

  datatype RegisterForm = RegisterForm(username: string, email: string, password: string, role: string)

  datatype RegisterState = RegisterState(form: RegisterForm, error: string, success: string)

  /** The page as first rendered: empty fields, role `Tenant`, no messages. */
  const InitialState := RegisterState(RegisterForm("", "", "", "Tenant"), "", "")

  datatype FormField = UsernameField | EmailField | PasswordField | RoleField

  /** `form[name]` after `setForm({ ...form, [name]: value })`. */
  function FieldValue(f: RegisterForm, name: FormField): string {
    match name
    case UsernameField => f.username
    case EmailField => f.email
    case PasswordField => f.password
    case RoleField => f.role
  }

  /** `handleChange`: both pending messages are cleared, the edited field
      takes the new value and every other field is kept. */
  function OnChange(st: RegisterState, name: FormField, value: string): (r: RegisterState)
    ensures r.error == "" && r.success == ""
    ensures FieldValue(r.form, name) == value
    ensures forall other :: other != name ==> FieldValue(r.form, other) == FieldValue(st.form, other)
  {
    var f := st.form;
    var form := match name
      case UsernameField => f.(username := value)
      case EmailField => f.(email := value)
      case PasswordField => f.(password := value)
      case RoleField => f.(role := value);
    RegisterState(form, "", "")
  }

  /** Editing anything but the role keeps the default role. */
  lemma DefaultRoleKept(name: FormField, value: string)
    requires name != RoleField
    ensures OnChange(InitialState, name, value).form.role == "Tenant"
  {
    assert FieldValue(OnChange(InitialState, name, value).form, RoleField) == FieldValue(InitialState.form, RoleField);
  }

  datatype SubmitStep = RejectEmail(error: string) | PostRegister(form: RegisterForm)

  const InvalidEmailError := "Please enter a valid email address."

  /** `handleSubmit` up to the request: only an address matching the
      pattern is sent. */
  function Submit(form: RegisterForm): (r: SubmitStep)
    ensures r.RejectEmail? <==> !MatchesEmailPattern(form.email)
    ensures r.RejectEmail? ==> r.error == InvalidEmailError
    ensures r.PostRegister? ==> r.form == form
  {
    EmailCheckMatchesPattern(form.email);
    if !IsValidEmail(form.email) then RejectEmail(InvalidEmailError) else PostRegister(form)
  }

  const SuccessMessage := "Registered successfully! Now, login."

  datatype Failure = ShowError(error: string) | AlertRetry(alert: string)

  /** A failed request: a server message mentioning, in any case, that the
      e-mail is already registered is shown on the page; anything else,
      including a missing message, raises the generic alert. */
  function RegisterFailure(message: Option<string>): (r: Failure)
    ensures r.ShowError? <==> message.Some? && Contains(ToLower(message.value), "email is already registered")
    ensures r.ShowError? ==> r.error == "Email is already registered."
    ensures r.AlertRetry? ==> r.alert == "Error registering. Please try again."
  {
    if message.Some? && message.value != [] && Contains(ToLower(message.value), "email is already registered")
    then ShowError("Email is already registered.")
    else AlertRetry("Error registering. Please try again.")
  }

  /** The classification reads the lower-cased message. */
  lemma RegisterFailureIgnoresCase(message: string)
    ensures RegisterFailure(Some(ToLower(message))) == RegisterFailure(Some(message))
  {
    ToLowerIdempotent(message);
  }
}
