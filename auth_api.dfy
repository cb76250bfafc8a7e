/**
 * The demo authentication call. The original waits 700 ms and then
 * either returns or throws an error carrying a message and an HTTP
 * status; here it is the decision alone, from the credentials to a
 * `Result`. The credentials are a value, so the call cannot change them.
 */
module AuthApi {
  import opened Wrappers
  import opened AuthTypes
  import opened Validators

  const DemoEmail := "demo@example.com"
  const DemoPassword := "password123"
  const InvalidCredentials := "Invalid email or password"
  const Unauthorized := 401

  /** The error object the call throws: an `Error` with a `status` added. */
  datatype AuthError = AuthError(message: string, status: int)

  /** `fakeLoginRequest`: success exactly for the one demo pair. */
  function FakeLoginRequest(body: LoginState): (r: Result<(), AuthError>)
    ensures r.Success? <==> body.email == DemoEmail && body.password == DemoPassword
    ensures r.Failure? ==> r.error == AuthError(InvalidCredentials, Unauthorized)
  {
    if body.email == DemoEmail && body.password == DemoPassword then Success(())
    else Failure(AuthError(InvalidCredentials, Unauthorized))
  }

  /** The "remember me" box never changes the outcome. */
  lemma RememberIgnored(body: LoginState, remember: bool)
    ensures FakeLoginRequest(body.(remember := remember)) == FakeLoginRequest(body)
  {
  }

  /** Matching is exact: the demo address with a capital letter is refused. */
  lemma MatchIsCaseSensitive(remember: bool)
    ensures FakeLoginRequest(LoginState("Demo@example.com", DemoPassword, remember))
         == Failure(AuthError(InvalidCredentials, Unauthorized))
  {
  }

  /**
   * The accepted pair passes both field validators, so a form that
   * validates before calling can reach the successful outcome.
   */
  lemma AcceptedCredentialsPassValidation(body: LoginState)
    requires FakeLoginRequest(body).Success?
    ensures ValidateEmail(body.email) == None
    ensures ValidatePassword(body.password) == None
  {
    assert DemoEmail == "demo" + "@" + "example" + "." + "com";
    EmailAddressAccepted("demo", "example", "com");
  }
}
