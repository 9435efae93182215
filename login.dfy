/** The demo login form: both fields must be filled; after a one-second wait the credentials the
    submit captured are compared with the one accepted pair, and a match calls `onLogin`. */
module Login {

  import opened Wrappers

  const AcceptedEmail: string := "admin@adminverify.com"
  const AcceptedPassword: string := "password"
  const FillAllFieldsMessage: string := "Please fill in all fields"
  const LoginSuccessMessage: string := "Login successful!"
  const InvalidCredentialsMessage: string := "Invalid email or password"
  const DemoFilledMessage: string := "Demo credentials filled in"

  datatype Credentials = Credentials(email: string, password: string)

  /** The pair the demo button fills in. */
  const DemoCredentials: Credentials := Credentials(AcceptedEmail, AcceptedPassword)

  /** The credential check of the timer callback. */
  predicate Accepted(c: Credentials) {
    c.email == AcceptedEmail && c.password == AcceptedPassword
  }

  /** The check that runs before the wait: both fields non-empty. */
  predicate Filled(c: Credentials) {
    c.email != "" && c.password != ""
  }

  /** Exactly one pair is accepted, and every accepted pair passes the fill check. */
  lemma AcceptedIsDemo(c: Credentials)
    ensures Accepted(c) <==> c == DemoCredentials
    ensures Accepted(c) ==> Filled(c)
  {
  }

  /** The login form's state. `pending` holds the credentials each unfinished submit captured,
      oldest first; `loginCalls` counts the calls of `onLogin`. */
  class LoginForm {
    var credentials: Credentials
    var showPassword: bool
    var isLoading: bool
    var pending: seq<Credentials>
    var loginCalls: nat

    constructor ()
      ensures credentials == Credentials("", "") && !showPassword && !isLoading
      ensures pending == [] && loginCalls == 0
    {
      credentials := Credentials("", "");
      showPassword := false;
      isLoading := false;
      pending := [];
      loginCalls := 0;
    }

    /** `handleSubmit`: an empty field only raises the toast, without loading; otherwise loading
        starts and the credentials are captured for the timer. */
    method HandleSubmit() returns (toast: Option<string>)
      modifies this
      ensures credentials == old(credentials) && showPassword == old(showPassword) && loginCalls == old(loginCalls)
      ensures !Filled(credentials) ==> toast == Some(FillAllFieldsMessage) && isLoading == old(isLoading) && pending == old(pending)
      ensures Filled(credentials) ==> toast == None && isLoading && pending == old(pending) + [credentials]
    {
      if credentials.email == "" || credentials.password == "" {
        return Some(FillAllFieldsMessage);
      }
      isLoading := true;
      pending := pending + [credentials];
      return None;
    }

    /** The oldest submit's timer fires: `onLogin` is called exactly for the accepted pair, and
        loading ends either way. */
    method FireTimer() returns (toast: Option<string>)
      modifies this
      ensures credentials == old(credentials) && showPassword == old(showPassword)
      ensures old(pending) == [] ==> pending == [] && isLoading == old(isLoading) && loginCalls == old(loginCalls) && toast == None
      ensures old(pending) != [] ==> pending == old(pending)[1..] && !isLoading
      ensures old(pending) != [] ==>
        loginCalls == old(loginCalls) + (if Accepted(old(pending)[0]) then 1 else 0)
        && toast == Some(if Accepted(old(pending)[0]) then LoginSuccessMessage else InvalidCredentialsMessage)
    {
      if pending == [] {
        return None;
      }
      var captured := pending[0];
      pending := pending[1..];
      if captured.email == AcceptedEmail && captured.password == AcceptedPassword {
        toast := Some(LoginSuccessMessage);
        loginCalls := loginCalls + 1;
      } else {
        toast := Some(InvalidCredentialsMessage);
      }
      isLoading := false;
    }

    /** `handleDemoLogin`: fill in the accepted pair, so that the next submit is accepted. */
    method HandleDemoLogin() returns (toast: string)
      modifies this
      ensures credentials == DemoCredentials && Filled(credentials) && Accepted(credentials)
      ensures showPassword == old(showPassword) && isLoading == old(isLoading)
      ensures pending == old(pending) && loginCalls == old(loginCalls)
      ensures toast == DemoFilledMessage
    {
      credentials := DemoCredentials;
      toast := DemoFilledMessage;
    }

    method SetEmail(email: string)
      modifies this
      ensures credentials == old(credentials).(email := email)
      ensures showPassword == old(showPassword) && isLoading == old(isLoading)
      ensures pending == old(pending) && loginCalls == old(loginCalls)
    {
      credentials := credentials.(email := email);
    }

    method SetPassword(password: string)
      modifies this
      ensures credentials == old(credentials).(password := password)
      ensures showPassword == old(showPassword) && isLoading == old(isLoading)
      ensures pending == old(pending) && loginCalls == old(loginCalls)
    {
      credentials := credentials.(password := password);
    }

    /** The eye icon: show or hide the password. */
    method ToggleShowPassword()
      modifies this
      ensures showPassword == !old(showPassword)
      ensures credentials == old(credentials) && isLoading == old(isLoading)
      ensures pending == old(pending) && loginCalls == old(loginCalls)
    {
      showPassword := !showPassword;
    }
  }
}
