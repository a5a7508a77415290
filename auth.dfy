/** The sign-in and sign-up screen: both forms are validated field by field
    into a map of error messages that replaces the previous one, and the
    authentication call is made only when that map is empty. The email
    syntax check of the validation library is a parameter `isEmail`; the
    authentication calls themselves are outside the model. */
module Auth {
  import opened JsText

  const MinPasswordLength: int := 6

  /** The keys of the errors record: the form fields. */
  datatype Field = LoginEmail | LoginPassword | SignupEmail | SignupPassword | DisplayName

  const InvalidEmail := "Invalid email address"
  const ShortPassword := "Password must be at least 6 characters"
  const NameRequired := "Display name is required"

  /** The password schema: at least six characters. */
  predicate PasswordValid(password: string) {
    |password| >= MinPasswordLength
  }

  /** `!displayName.trim()`: the name trims to the empty string. */
  predicate NameBlank(name: string) {
    Trim(name) == ""
  }

  /** The errors `validateLogin` collects. */
  function LoginErrors(email: string, password: string, isEmail: string -> bool): (errors: map<Field, string>)
    ensures LoginEmail in errors <==> !isEmail(email)
    ensures LoginPassword in errors <==> !PasswordValid(password)
    ensures forall k :: k in errors ==> k == LoginEmail || k == LoginPassword
    ensures LoginEmail in errors ==> errors[LoginEmail] == InvalidEmail
    ensures LoginPassword in errors ==> errors[LoginPassword] == ShortPassword
  {
    var withEmail: map<Field, string> := if isEmail(email) then map[] else map[LoginEmail := InvalidEmail];
    if PasswordValid(password) then withEmail else withEmail[LoginPassword := ShortPassword]
  }

  /** The errors `validateSignup` collects: the login checks on the sign-up
      fields, and a display name that trims to nothing. */
  function SignupErrors(email: string, password: string, displayName: string, isEmail: string -> bool): (errors: map<Field, string>)
    ensures SignupEmail in errors <==> !isEmail(email)
    ensures SignupPassword in errors <==> !PasswordValid(password)
    ensures DisplayName in errors <==> NameBlank(displayName)
    ensures forall k :: k in errors ==> k == SignupEmail || k == SignupPassword || k == DisplayName
    ensures SignupEmail in errors ==> errors[SignupEmail] == InvalidEmail
    ensures SignupPassword in errors ==> errors[SignupPassword] == ShortPassword
    ensures DisplayName in errors ==> errors[DisplayName] == NameRequired
  {
    var withEmail: map<Field, string> := if isEmail(email) then map[] else map[SignupEmail := InvalidEmail];
    var withPassword := if PasswordValid(password) then withEmail else withEmail[SignupPassword := ShortPassword];
    if !NameBlank(displayName) then withPassword else withPassword[DisplayName := NameRequired]
  }

  /** A login form passes exactly when the email is well formed and the
      password has at least six characters. */
  lemma LoginPassesIffValid(email: string, password: string, isEmail: string -> bool)
    ensures LoginErrors(email, password, isEmail) == map[] <==> isEmail(email) && |password| >= MinPasswordLength
  {
    if !isEmail(email) {
      assert LoginEmail in LoginErrors(email, password, isEmail);
    }
    if !PasswordValid(password) {
      assert LoginPassword in LoginErrors(email, password, isEmail);
    }
  }

  /** A sign-up form passes exactly when, in addition, the display name has
      a character that is not white space; a name of spaces alone is
      rejected. */
  lemma SignupPassesIffValid(email: string, password: string, displayName: string, isEmail: string -> bool)
    ensures SignupErrors(email, password, displayName, isEmail) == map[] <==>
      isEmail(email) && |password| >= MinPasswordLength && !AllSpaces(displayName)
  {
    var errors := SignupErrors(email, password, displayName, isEmail);
    TrimEmptyIffBlank(displayName);
    if !isEmail(email) {
      assert SignupEmail in errors;
    }
    if !PasswordValid(password) {
      assert SignupPassword in errors;
    }
    if AllSpaces(displayName) {
      assert DisplayName in errors;
    }
  }

  class AuthForm {
    var loading: bool
    var errors: map<Field, string>
    var loginEmail: string
    var loginPassword: string
    var signupEmail: string
    var signupPassword: string
    var displayName: string

    constructor ()
      ensures !loading && errors == map[]
      ensures loginEmail == "" && loginPassword == "" && signupEmail == "" && signupPassword == "" && displayName == ""
    {
      loading := false;
      errors := map[];
      loginEmail := "";
      loginPassword := "";
      signupEmail := "";
      signupPassword := "";
      displayName := "";
    }

    /** Typing into the login form. */
    method EditLogin(email: string, password: string)
      modifies this
      ensures loginEmail == email && loginPassword == password
      ensures signupEmail == old(signupEmail) && signupPassword == old(signupPassword) && displayName == old(displayName)
      ensures loading == old(loading) && errors == old(errors)
    {
      loginEmail := email;
      loginPassword := password;
    }

    /** Typing into the sign-up form. */
    method EditSignup(email: string, password: string, name: string)
      modifies this
      ensures signupEmail == email && signupPassword == password && displayName == name
      ensures loginEmail == old(loginEmail) && loginPassword == old(loginPassword)
      ensures loading == old(loading) && errors == old(errors)
    {
      signupEmail := email;
      signupPassword := password;
      displayName := name;
    }

    /** `validateLogin`: builds the new map key by key and replaces the old
        one, so no earlier error survives; passes iff the map is empty. */
    method ValidateLogin(isEmail: string -> bool) returns (ok: bool)
      modifies this
      ensures errors == LoginErrors(loginEmail, loginPassword, isEmail)
      ensures ok <==> errors == map[]
      ensures loginEmail == old(loginEmail) && loginPassword == old(loginPassword)
      ensures signupEmail == old(signupEmail) && signupPassword == old(signupPassword) && displayName == old(displayName)
      ensures loading == old(loading)
    {
      var newErrors: map<Field, string> := map[];
      if !isEmail(loginEmail) {
        newErrors := newErrors[LoginEmail := InvalidEmail];
      }
      if !PasswordValid(loginPassword) {
        newErrors := newErrors[LoginPassword := ShortPassword];
      }
      errors := newErrors;
      ok := |newErrors| == 0;
    }

    /** `validateSignup`, in the same way. */
    method ValidateSignup(isEmail: string -> bool) returns (ok: bool)
      modifies this
      ensures errors == SignupErrors(signupEmail, signupPassword, displayName, isEmail)
      ensures ok <==> errors == map[]
      ensures loginEmail == old(loginEmail) && loginPassword == old(loginPassword)
      ensures signupEmail == old(signupEmail) && signupPassword == old(signupPassword) && displayName == old(displayName)
      ensures loading == old(loading)
    {
      var newErrors: map<Field, string> := map[];
      if !isEmail(signupEmail) {
        newErrors := newErrors[SignupEmail := InvalidEmail];
      }
      ghost var withEmail := newErrors;
      if !PasswordValid(signupPassword) {
        newErrors := newErrors[SignupPassword := ShortPassword];
      }
      ghost var withPassword := newErrors;
      if NameBlank(displayName) {
        newErrors := newErrors[DisplayName := NameRequired];
      }
      assert withEmail == if isEmail(signupEmail) then map[] else map[SignupEmail := InvalidEmail];
      assert withPassword == if PasswordValid(signupPassword) then withEmail else withEmail[SignupPassword := ShortPassword];
      assert newErrors == if !NameBlank(displayName) then withPassword else withPassword[DisplayName := NameRequired];
      errors := newErrors;
      ok := |newErrors| == 0;
    }

    /** `handleLogin`: `signedIn` says whether `signIn` was called, which
        happens only after a passing validation; once it returns or throws,
        `loading` is false again. */
    method HandleLogin(isEmail: string -> bool) returns (signedIn: bool)
      modifies this
      ensures errors == LoginErrors(loginEmail, loginPassword, isEmail)
      ensures signedIn <==> isEmail(loginEmail) && PasswordValid(loginPassword)
      ensures signedIn ==> !loading
      ensures !signedIn ==> loading == old(loading)
      ensures loginEmail == old(loginEmail) && loginPassword == old(loginPassword)
      ensures signupEmail == old(signupEmail) && signupPassword == old(signupPassword) && displayName == old(displayName)
    {
      var ok := ValidateLogin(isEmail);
      LoginPassesIffValid(loginEmail, loginPassword, isEmail);
      if !ok {
        return false;
      }
      loading := true;
      signedIn := true;
      loading := false;
    }

    /** `handleSignup`, in the same way with `signUp`. */
    method HandleSignup(isEmail: string -> bool) returns (signedUp: bool)
      modifies this
      ensures errors == SignupErrors(signupEmail, signupPassword, displayName, isEmail)
      ensures signedUp <==> isEmail(signupEmail) && PasswordValid(signupPassword) && !AllSpaces(displayName)
      ensures signedUp ==> !loading
      ensures !signedUp ==> loading == old(loading)
      ensures loginEmail == old(loginEmail) && loginPassword == old(loginPassword)
      ensures signupEmail == old(signupEmail) && signupPassword == old(signupPassword) && displayName == old(displayName)
    {
      var ok := ValidateSignup(isEmail);
      SignupPassesIffValid(signupEmail, signupPassword, displayName, isEmail);
      if !ok {
        return false;
      }
      ghost var validated := errors;
      ghost var name := displayName;
      loading := true;
      signedUp := true;
      loading := false;
      assert errors == validated && displayName == name;
    }

    /** `handleGoogleSignIn`: no validation; `loading` is false afterwards. */
    method HandleGoogleSignIn()
      modifies this
      ensures !loading && errors == old(errors)
      ensures loginEmail == old(loginEmail) && loginPassword == old(loginPassword)
      ensures signupEmail == old(signupEmail) && signupPassword == old(signupPassword) && displayName == old(displayName)
    {
      loading := true;
      loading := false;
    }
  }
}
