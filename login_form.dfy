/**
 * The login form's state machine. The component keeps three state cells,
 * the credentials, the error record and the `submitting` flag, and its
 * handlers update them; here they are the fields of `LoginForm` and the
 * handlers are its methods. The asynchronous submit handler, which awaits
 * the login call, is split at its `await` into `SubmitBegin` and
 * `SubmitSettle`; `OnSubmit` runs the two back to back around the demo
 * login call.
 */
module Form {
  import opened Wrappers
  import opened AuthTypes
  import opened Validators
  import AuthApi

  /** The argument of `handleChange`: which credential changes and its new value. */
  datatype Edit = EmailEdit(email: string) | PasswordEdit(password: string) | RememberEdit(remember: bool)

  /** The argument of `handleBlur`. */
  datatype Field = EmailField | PasswordField

  /** Whether the submit handler goes past its validation and calls login. */
  predicate PassesValidation(s: LoginState): (r: bool)
    ensures r ==> '@' in s.email && |s.password| >= MinPasswordLength / 2
  {
    ValidateEmail(s.email) == None && ValidatePassword(s.password) == None
  }

  /** The error record the submit handler writes: both validator results and nothing else. */
  function SubmitErrors(s: LoginState): (e: FieldErrors)
    ensures e.global == None
    ensures e.email == Some(EmailRequired) <==> s.email == ""
    ensures e.password == None <==> Utf16Length(s.password) >= MinPasswordLength
  {
    FieldErrors(ValidateEmail(s.email), ValidatePassword(s.password), None)
  }

  /** The error record after a blur: that field's entry holds its validator's result. */
  function BlurErrors(e: FieldErrors, s: LoginState, field: Field): (r: FieldErrors)
    ensures r.global == e.global
    ensures field.EmailField? ==> r.password == e.password && r.email == ValidateEmail(s.email)
    ensures field.PasswordField? ==> r.email == e.email && r.password == ValidatePassword(s.password)
  {
    match field
    case EmailField => e.(email := ValidateEmail(s.email))
    case PasswordField => e.(password := ValidatePassword(s.password))
  }

  /** The error record after the login call settles with `outcome`. */
  function SettleErrors(e: FieldErrors, outcome: Result<(), string>): (r: FieldErrors)
    ensures r.email == e.email && r.password == e.password
    ensures outcome.Failure? ==> r.global == Some(outcome.error)
    ensures outcome.Success? ==> r.global == e.global
  {
    match outcome
    case Success(_) => e
    case Failure(message) => e.(global := Some(message))
  }

  /**
   * What the catch block of the submit handler passes on after the demo
   * login: nothing on success, the thrown error's message on failure.
   */
  function LoginOutcome(s: LoginState): (r: Result<(), string>)
    ensures r.Success? <==> AuthApi.FakeLoginRequest(s).Success?
    ensures r.Failure? ==> r.error == AuthApi.InvalidCredentials
  {
    match AuthApi.FakeLoginRequest(s)
    case Success(_) => Success(())
    case Failure(err) => Failure(err.message)
  }

  /**
   * A submit that passed validation ends with no message for the demo
   * pair and with only "Invalid email or password" for any other pair.
   */
  lemma ValidSubmitOutcome(s: LoginState)
    ensures SettleErrors(SubmitErrors(s), LoginOutcome(s)).global
         == if s.email == AuthApi.DemoEmail && s.password == AuthApi.DemoPassword then None
            else Some(AuthApi.InvalidCredentials)
    ensures PassesValidation(s) ==>
      SettleErrors(SubmitErrors(s), LoginOutcome(s))
        == if s.email == AuthApi.DemoEmail && s.password == AuthApi.DemoPassword then NoErrors
           else NoErrors.(global := Some(AuthApi.InvalidCredentials))
  {
    SubmitErrorsEmptyIffValid(s);
  }

  /** Blurring the same field twice with unchanged input gives what blurring once gave. */
  lemma BlurIdempotent(e: FieldErrors, s: LoginState, field: Field)
    ensures BlurErrors(BlurErrors(e, s, field), s, field) == BlurErrors(e, s, field)
    ensures BlurErrors(e, s, field).global == e.global
  {
  }

  /**
   * Blurring both fields leaves the same field entries as a submit would;
   * only the global entry differs (a blur keeps it, a submit drops it).
   */
  lemma BlurBothAgreesWithSubmit(e: FieldErrors, s: LoginState)
    ensures BlurErrors(BlurErrors(e, s, EmailField), s, PasswordField) == SubmitErrors(s).(global := e.global)
  {
  }

  /** A submit leaves no message at all exactly when it goes on to call login. */
  lemma SubmitErrorsEmptyIffValid(s: LoginState)
    ensures SubmitErrors(s) == NoErrors <==> PassesValidation(s)
  {
  }

  /** Submitting the untouched form reports both fields as required. */
  lemma EmptyFormReportsRequired(remember: bool)
    ensures SubmitErrors(LoginState("", "", remember)) == FieldErrors(Some(EmailRequired), Some(PasswordRequired), None)
    ensures !PassesValidation(LoginState("", "", remember))
  {
  }

  /** The demo credentials pass validation, so a submit of them calls login. */
  lemma DemoCredentialsPassValidation(remember: bool)
    ensures PassesValidation(LoginState(AuthApi.DemoEmail, AuthApi.DemoPassword, remember))
  {
    AuthApi.AcceptedCredentialsPassValidation(LoginState(AuthApi.DemoEmail, AuthApi.DemoPassword, remember));
  }

  class LoginForm {
    /** The credentials shown in the inputs. */
    var state: LoginState
    /** The messages shown next to the inputs and above the form. */
    var errors: FieldErrors
    /** True while a login call is awaited; the submit button is disabled meanwhile. */
    var submitting: bool

    /** Every credentials snapshot handed to the login call, in order. */
    ghost var loginCalls: seq<LoginState>
    /** How many of those calls have settled. */
    ghost var settled: nat

    /**
     * At most one login call is awaited at any time, and exactly one
     * while `submitting`; no global error is shown while one is awaited;
     * and only credentials that passed both validators were ever sent.
     */
    ghost predicate Valid()
      reads this
    {
      && settled <= |loginCalls| <= settled + 1
      && (submitting <==> |loginCalls| == settled + 1)
      && (submitting ==> errors.global == None)
      && forall i :: 0 <= i < |loginCalls| ==> PassesValidation(loginCalls[i])
    }

    /** The mounted form: empty credentials, no errors, not submitting. */
    constructor ()
      ensures Valid()
      ensures state == LoginState("", "", false)
      ensures errors == NoErrors && !submitting
      ensures loginCalls == [] && settled == 0
    {
      state := LoginState("", "", false);
      errors := NoErrors;
      submitting := false;
      loginCalls := [];
      settled := 0;
    }

    /**
     * `handleChange`: sets one credential and clears that field's error;
     * the other credentials, the other entries and the global error stay.
     * Allowed while submitting: the inputs are not disabled.
     */
    method Change(edit: Edit)
      requires Valid()
      modifies this`state, this`errors
      ensures Valid()
      ensures edit.EmailEdit? ==>
        state == old(state).(email := edit.email) && errors == old(errors).(email := None)
      ensures edit.PasswordEdit? ==>
        state == old(state).(password := edit.password) && errors == old(errors).(password := None)
      ensures edit.RememberEdit? ==>
        state == old(state).(remember := edit.remember) && errors == old(errors)
    {
      match edit
      case EmailEdit(v) =>
        state := state.(email := v);
        errors := errors.(email := None);
      case PasswordEdit(v) =>
        state := state.(password := v);
        errors := errors.(password := None);
      case RememberEdit(v) =>
        state := state.(remember := v);
    }

    /**
     * `handleBlur`: that field's entry becomes the validator's verdict on
     * the current value; the other entries stay.
     */
    method Blur(field: Field)
      requires Valid()
      modifies this`errors
      ensures Valid()
      ensures errors == BlurErrors(old(errors), state, field)
    {
      match field
      case EmailField =>
        var err := ValidateEmail(state.email);
        errors := errors.(email := err);
      case PasswordField =>
        var err := ValidatePassword(state.password);
        errors := errors.(password := err);
    }

    /**
     * The submit handler up to its `await`. The error record is replaced
     * by the two validator results, dropping any global error. When
     * either fails the handler stops; otherwise it sets `submitting` and
     * calls login once with the current credentials, returned in `sent`.
     * Requires that no call is awaited: the disabled submit button is the
     * only guard, the handler itself has none.
     */
    method SubmitBegin() returns (sent: Option<LoginState>)
      requires Valid() && !submitting
      modifies this`errors, this`submitting, this`loginCalls
      ensures Valid()
      ensures errors == SubmitErrors(state)
      ensures submitting <==> PassesValidation(state)
      ensures sent == if PassesValidation(state) then Some(state) else None
      ensures loginCalls == old(loginCalls) + if PassesValidation(state) then [state] else []
    {
      var emailErr := ValidateEmail(state.email);
      var passwordErr := ValidatePassword(state.password);
      errors := FieldErrors(emailErr, passwordErr, None);
      if emailErr.Some? || passwordErr.Some? {
        return None;
      }
      submitting := true;
      loginCalls := loginCalls + [state];
      sent := Some(state);
    }

    /**
     * The submit handler after its `await`: on failure the global entry
     * gets the error's message and the field entries stay; on success
     * nothing is recorded. Either way the `finally` block clears
     * `submitting`.
     */
    method SubmitSettle(outcome: Result<(), string>)
      requires Valid() && submitting
      modifies this`errors, this`submitting, this`settled
      ensures Valid() && !submitting
      ensures settled == old(settled) + 1
      ensures errors == SettleErrors(old(errors), outcome)
      ensures outcome.Success? ==> errors.global == None
    {
      if outcome.Failure? {
        errors := errors.(global := Some(outcome.error));
      }
      submitting := false;
      settled := settled + 1;
    }

    /**
     * The whole submit handler with nothing happening during the await:
     * invalid credentials leave the validator messages and call nothing;
     * valid ones call the demo login once and end with either no message
     * or only its global message.
     */
    method OnSubmit()
      requires Valid() && !submitting
      modifies this`errors, this`submitting, this`loginCalls, this`settled
      ensures Valid() && !submitting
      ensures !PassesValidation(state) ==> errors == SubmitErrors(state) && loginCalls == old(loginCalls)
      ensures PassesValidation(state) ==>
        loginCalls == old(loginCalls) + [state] && errors == SettleErrors(SubmitErrors(state), LoginOutcome(state))
    {
      var sent := SubmitBegin();
      if sent.Some? {
        SubmitSettle(LoginOutcome(sent.value));
      }
    }
  }

  /** "x@y.com" / "wrongpass" passes validation and is refused by the demo login. */
  lemma WellFormedWrongPair()
    ensures PassesValidation(LoginState("x@y.com", "wrongpass", false))
    ensures AuthApi.FakeLoginRequest(LoginState("x@y.com", "wrongpass", false)).Failure?
  {
    assert "x@y.com" == "x" + "@" + "y" + "." + "com";
    EmailAddressAccepted("x", "y", "com");
    assert |"wrongpass"| >= MinPasswordLength;
  }

  /** Submitting the untouched form: both "required" messages, no login call. */
  method EmptySubmitScenario() {
    var form := new LoginForm();
    EmptyFormReportsRequired(false);
    form.OnSubmit();
    assert form.errors == FieldErrors(Some(EmailRequired), Some(PasswordRequired), None);
    assert form.loginCalls == [] && !form.submitting;
  }

  /**
   * Submitting a well-formed pair other than the demo one (such as the
   * pair of `WellFormedWrongPair`): one login call, back to idle, the
   * global message.
   */
  method RejectedSubmitScenario(email: string, password: string)
    requires PassesValidation(LoginState(email, password, false))
    requires email != AuthApi.DemoEmail || password != AuthApi.DemoPassword
  {
    var form := new LoginForm();
    form.Change(EmailEdit(email));
    form.Change(PasswordEdit(password));
    assert form.state == LoginState(email, password, false);
    ValidSubmitOutcome(form.state);
    form.OnSubmit();
    assert form.errors == NoErrors.(global := Some(AuthApi.InvalidCredentials)) && !form.submitting;
    assert |form.loginCalls| == 1;
  }
}
