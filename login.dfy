/** The submit logic of frontend/src/pages/Login.js: the hard-coded
    administrator shortcut, the e-mail format check, the redirect by role
    after a successful login and the classification of the server's error
    message. Timers, navigation and the HTTP request are effects outside the
    model; each function returns what the page would show or where it would go. */
module LoginPage {
  import opened Collections
  import opened Text
  import opened EmailFormat

  datatype LoginForm = LoginForm(email: string, password: string)

  /** What a submit does before any answer from the server. */
  datatype SubmitStep =
    | AdminShortcut(welcome: string, destination: string)
    | RejectEmail(error: string)
    | PostLogin(form: LoginForm)

  const InvalidEmailError := "The email address is not valid"

  /** `handleSubmit` up to the request: `admin`/`admin` goes straight to the
      admin dashboard, an address the pattern rejects gets an error, and only
      a well-formed address is sent. */
  function Submit(form: LoginForm): (r: SubmitStep)
    ensures r.AdminShortcut? <==> form.email == "admin" && form.password == "admin"
    ensures r.AdminShortcut? ==> r == AdminShortcut("Welcome, Admin", "/admin/dashboard")
    ensures r.RejectEmail? ==> r.error == InvalidEmailError && !MatchesEmailPattern(form.email)
    ensures r.PostLogin? ==> r.form == form && MatchesEmailPattern(form.email)
    ensures !r.AdminShortcut? ==> (r.PostLogin? <==> MatchesEmailPattern(form.email))
  {
    EmailCheckMatchesPattern(form.email);
    if form.email == "admin" && form.password == "admin" then AdminShortcut("Welcome, Admin", "/admin/dashboard")
    else if !IsValidEmail(form.email) then RejectEmail(InvalidEmailError)
    else PostLogin(form)
  }

  /** The shortcut is taken although `admin` is not an e-mail address. */
  lemma AdminIsNoEmail(name: string)
    requires name == "admin"
    ensures Submit(LoginForm(name, name)).AdminShortcut?
    ensures !MatchesEmailPattern(name)
  {
    assert forall k | 0 <= k < |name| :: name[k] != '@';
  }

  /** The page for the role of the user the server returned. */
  function RoleDestination(role: string): (d: string)
    ensures d == "/owner-dashboard" <==> role == "Owner"
    ensures d == "/" <==> role == "Tenant"
    ensures d == "/admin" <==> role != "Owner" && role != "Tenant"
  {
    if role == "Owner" then "/owner-dashboard" else if role == "Tenant" then "/" else "/admin"
  }

  const WrongPassword := "Give the correct password"
  const NotRegistered := "This email is not registered"
  const BadCredentials := "Invalid credentials. Please try again."

  /** The error shown for a failed login, from the server's `message`
      (lower-cased; a missing message reads as `""`). */
  function LoginErrorMessage(message: Option<string>): (m: string)
    ensures var e := if message.Some? then ToLower(message.value) else "";
      && (m == WrongPassword <==> Contains(e, "password"))
      && (m == NotRegistered <==> !Contains(e, "password") && (Contains(e, "not registered") || Contains(e, "no user")))
      && (m == BadCredentials <==> !Contains(e, "password") && !Contains(e, "not registered") && !Contains(e, "no user"))
  {
    var e := if message.Some? && message.value != [] then ToLower(message.value) else "";
    if Contains(e, "password") then WrongPassword
    else if Contains(e, "not registered") || Contains(e, "no user") then NotRegistered
    else BadCredentials
  }

  /** The classification does not depend on the case of the message, and
      without a message the generic text is shown. */
  lemma LoginErrorIgnoresCase(message: string)
    ensures LoginErrorMessage(Some(ToLower(message))) == LoginErrorMessage(Some(message))
    ensures LoginErrorMessage(None) == BadCredentials
  {
    ToLowerIdempotent(message);
    NothingInEmpty("password");
    NothingInEmpty("not registered");
    NothingInEmpty("no user");
  }

  lemma NothingInEmpty(t: string)
    requires t != []
    ensures !Contains("", t)
  {
  }

  /** The page's state: the form and the two floating messages. */
  datatype LoginState = LoginState(form: LoginForm, error: string, welcome: string)

  datatype LoginField = EmailField | PasswordField

  /** `handleChange`: the edited field takes the new value and a pending
      error is cleared; the other field and the welcome text are kept. */
  function OnChange(st: LoginState, field: LoginField, value: string): (r: LoginState)
    ensures r.error == "" && r.welcome == st.welcome
    ensures field == EmailField ==> r.form == LoginForm(value, st.form.password)
    ensures field == PasswordField ==> r.form == LoginForm(st.form.email, value)
  {
    var form := match field
      case EmailField => st.form.(email := value)
      case PasswordField => st.form.(password := value);
    LoginState(form, "", st.welcome)
  }
}
