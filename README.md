# Login form: validators, demo authentication and form state machine

This project models the client-side sign-in form of the `auth` entity in Dafny. It has three parts:

- **Validators** (`validators.dfy`, module `Validators`). `validateEmail` and `validatePassword` are total functions from the raw field value to an optional message. The email regular expression `^[^\s@]+@[^\s@]+\.[^\s@]+$` appears twice:
  - `MatchesEmailRegex` is the language the expression denotes: a local part, `@`, a host part, `.`, a last part, each a non-empty run free of whitespace and `@`.
  - `IsEmailAddress` is an explicit check: no whitespace, exactly one `@`, something before it, and a `.` after it that is neither the first nor the last character there.
  - The two are proved equal. JavaScript's `\s` is written out as ECMAScript's WhiteSpace and LineTerminator code points. JavaScript's `length` is written out as a count of UTF-16 code units (`Utf16Length`).
- **Demo authentication** (`auth_api.dfy`, module `AuthApi`). `fakeLoginRequest` is modelled as the decision alone: a function from the credentials to `Success(())` or `Failure(AuthError(message, status))`.
- **Form state machine** (`login_form.dfy`, module `Form`). The component's three state cells `state`, `errors` and `submitting` are the fields of class `LoginForm`. Its handlers are methods:
  - `Change` is `handleChange`.
  - `Blur` is `handleBlur`.
  - The async `onSubmit` is split at its `await` into `SubmitBegin` (validate, overwrite the errors, and if valid set `submitting` and hand the credentials to login) and `SubmitSettle` (record a failure's message, then the `finally` step).
  - `OnSubmit` runs begin, the demo login and settle back to back.
  - Ghost fields `loginCalls` and `settled` record the calls made to login. The class invariant `Valid()` says four things: at most one call is awaited; exactly one is awaited while `submitting`; no global error is set while one is awaited; and every credential ever sent passed both validators.
  - `EmptySubmitScenario` and `RejectedSubmitScenario` are verified client methods that step through two submissions, of an empty form and of well-formed but wrong credentials, using only the contracts.

`types.ts` supplies the datatypes `LoginState` and `FieldErrors` (`auth_types.dfy`). An optional field is an `Option<string>`. `wrappers.dfy` holds `Option` and `Result`.

Three behaviours of the code that a reader might not expect:
- The submit handler clears the global error on every submit, valid or not: it overwrites the whole record before it checks the validators.
- The only re-entrancy guard is the disabled submit button. It appears as `requires !submitting` on `SubmitBegin`; the handler itself has no guard.
- The 8-character rule counts UTF-16 code units, not characters (see `FourAstralCharactersAccepted`).

## Model

| member | source | states |
|---|---|---|
| `Validators.IsWhitespace` | src/entities/auth/helpers/validators.ts:3 | the `\s` class: ECMAScript WhiteSpace and LineTerminator code points; space, tab, line feed and carriage return are in it, `@` and `.` are not |
| `Validators.MatchesEmailRegex` | src/entities/auth/helpers/validators.ts:3 | the language of `^[^\s@]+@[^\s@]+\.[^\s@]+$`; every match has at least five characters, contains `@` and does not start with it |
| `Validators.IsEmailAddress` | src/entities/auth/helpers/validators.ts:3-4 | the `re.test` that `validateEmail` evaluates, made explicit; whatever it accepts has at least five characters, contains `@` and does not start with it |
| `Validators.Utf16Length` | src/entities/auth/helpers/validators.ts:10 | JavaScript `length` lies between the number of characters and twice that, and equals it exactly when every character is in the Basic Multilingual Plane |
| `Validators.EmailPredicateImpliesRegex` | src/entities/auth/helpers/validators.ts:3-4 | every string the explicit check accepts is matched by the regular expression (witness parts built from the `@` and an inner `.`) |
| `Validators.RegexImpliesEmailPredicate` | src/entities/auth/helpers/validators.ts:3-4 | every `local@host.tld` made of non-empty runs without whitespace and `@` passes the explicit check |
| `Validators.EmailPredicateMatchesRegex` | src/entities/auth/helpers/validators.ts:3-4 | the explicit check and the regular expression accept exactly the same strings |
| `Validators.ValidateEmail` | src/entities/auth/helpers/validators.ts:1-6 | the result is always one of "Email is required", "Enter a valid email address" or no message; "required" is given exactly for the empty string |
| `Validators.ValidateEmailMatchesRegex` | src/entities/auth/helpers/validators.ts:2-5 | `validateEmail` returns no message exactly when the regular expression matches |
| `Validators.EmailAddressAccepted` | src/entities/auth/helpers/validators.ts:3-5 | any `L@D1.D2` with non-empty L, D1, D2 free of whitespace and `@` gets no message |
| `Validators.EmailWithoutAtRejected` | src/entities/auth/helpers/validators.ts:3-4 | a non-empty value with no `@` gets the format message |
| `Validators.EmailWithTwoAtsRejected` | src/entities/auth/helpers/validators.ts:3-4 | a value with two `@` gets the format message |
| `Validators.EmailWithWhitespaceRejected` | src/entities/auth/helpers/validators.ts:3-4 | a value with any whitespace character gets the format message |
| `Validators.EmailWithEmptyLocalPartRejected` | src/entities/auth/helpers/validators.ts:3-4 | a value starting with `@` gets the format message |
| `Validators.EmailWithoutInnerDotRejected` | src/entities/auth/helpers/validators.ts:3-4 | a value with an `@` after which no `.` lies strictly inside the rest gets the format message |
| `Validators.ValidatePassword` | src/entities/auth/helpers/validators.ts:8-12 | the result is one of the two messages or none; "required" exactly for the empty string; no message exactly from 8 UTF-16 code units on, so always from 8 characters on and never below 4 |
| `Validators.PasswordTooShortRejected` | src/entities/auth/helpers/validators.ts:10 | a non-empty value under 8 code units gets "Password must be at least 8 characters" |
| `Validators.PasswordLengthRuleInBmp` | src/entities/auth/helpers/validators.ts:9-11 | for Basic-Multilingual-Plane text, the length message is given exactly for 1 to 7 characters |
| `Validators.FourAstralCharactersAccepted` | src/entities/auth/helpers/validators.ts:10 | four characters outside the Basic Multilingual Plane already pass the length check |
| `AuthApi.FakeLoginRequest` | src/entities/auth/model/api.ts:3-13 | succeeds exactly for email `demo@example.com` with password `password123`; every failure is "Invalid email or password" with status 401 |
| `AuthApi.RememberIgnored` | src/entities/auth/model/api.ts:7 | the `remember` flag never changes the outcome |
| `AuthApi.MatchIsCaseSensitive` | src/entities/auth/model/api.ts:7 | `Demo@example.com` with the demo password fails with the 401 error |
| `AuthApi.AcceptedCredentialsPassValidation` | src/entities/auth/model/api.ts:7-9 | the credentials the demo login accepts pass both field validators |
| `Form.PassesValidation` | src/entities/auth/ui/LoginForm/LoginForm.tsx:50 | the test that lets the submit go on to login; credentials passing it have an `@` in the email and a password of at least four characters |
| `Form.SubmitErrors` | src/entities/auth/ui/LoginForm/LoginForm.tsx:46-48 | the record the submit writes: never a global entry, "Email is required" exactly for an empty email, no password entry exactly from 8 code units on |
| `Form.BlurErrors` | src/entities/auth/ui/LoginForm/LoginForm.tsx:38-40 | the blur updater: the blurred field's entry is its validator's verdict, the other field's entry and the global entry stay |
| `Form.SettleErrors` | src/entities/auth/ui/LoginForm/LoginForm.tsx:57-62 | the settle updater: a failure sets the global entry to its message, a success leaves it; the field entries always stay |
| `Form.LoginOutcome` | src/entities/auth/ui/LoginForm/LoginForm.tsx:57-62 | what reaches the error record after the demo login: success exactly when the login succeeds, otherwise the message "Invalid email or password" |
| `Form.ValidSubmitOutcome` | src/entities/auth/ui/LoginForm/LoginForm.tsx:46-64 | a submit that passed validation ends with no message at all for the demo pair and with only the global "Invalid email or password" for any other pair |
| `Form.BlurIdempotent` | src/entities/auth/ui/LoginForm/LoginForm.tsx:37-41 | blurring a field twice with unchanged input gives the same errors as once, and a blur never touches the global error |
| `Form.BlurBothAgreesWithSubmit` | src/entities/auth/ui/LoginForm/LoginForm.tsx:37-48 | blurring both fields yields the submit's field entries; only the global entry differs |
| `Form.SubmitErrorsEmptyIffValid` | src/entities/auth/ui/LoginForm/LoginForm.tsx:46-50 | a submit leaves no message at all exactly when it goes on to call login |
| `Form.EmptyFormReportsRequired` | src/entities/auth/ui/LoginForm/LoginForm.tsx:46-50 | submitting empty credentials yields both "required" messages and stops before login |
| `Form.DemoCredentialsPassValidation` | src/entities/auth/ui/LoginForm/LoginForm.tsx:46-52 | a submit of the demo credentials passes validation and calls login |
| `Form.WellFormedWrongPair` | src/entities/auth/ui/LoginForm/LoginForm.tsx:46-62 | `x@y.com` / `wrongpass` passes validation and is refused by the demo login |
| `Form.LoginForm.constructor` | src/entities/auth/ui/LoginForm/LoginForm.tsx:8-16 | the form starts with empty credentials, `remember` false, no errors, not submitting, no login calls |
| `Form.LoginForm.Change` | src/entities/auth/ui/LoginForm/LoginForm.tsx:27-35 | sets the one credential; an email or password edit clears only that field's error; a `remember` edit leaves the errors untouched; the global error is never touched |
| `Form.LoginForm.Blur` | src/entities/auth/ui/LoginForm/LoginForm.tsx:37-41 | the blurred field's entry becomes its validator's verdict on the current value; the other entries stay |
| `Form.LoginForm.SubmitBegin` | src/entities/auth/ui/LoginForm/LoginForm.tsx:43-57 | errors become exactly the two validator results with no global entry; `submitting` becomes true exactly when both pass, and only then is login called, once, with the current credentials |
| `Form.LoginForm.SubmitSettle` | src/entities/auth/ui/LoginForm/LoginForm.tsx:57-66 | a failure sets the global error to its message and keeps the field entries; a success sets no global error; either way `submitting` ends false and the call counts as settled |
| `Form.LoginForm.OnSubmit` | src/entities/auth/ui/LoginForm/LoginForm.tsx:43-67 | invalid credentials leave the validator messages and call nothing; valid ones call login once with the current credentials, end idle, and leave the submit's record updated by the login's outcome |

## Left out

- Rendering: the markup, CSS modules and aria attributes (LoginForm.tsx:69-180) are presentation.
- The `showPassword` toggle (LoginForm.tsx:14, 137) is view-only state, independent of the form state.
- DOM side effects are not modelled. This covers the effect that focuses the global error region when `errors.global` changes (LoginForm.tsx:21-25) and the button's `autocomplete` attribute (LoginForm.tsx:54, 65).
- The success `alert` (LoginForm.tsx:58) is a browser call; a success leaves no trace in the model beyond the settled call.
- The 700 ms timer (api.ts:4) and async scheduling are replaced by the explicit begin/settle split. `OnSubmit` assumes nothing happens during the await. Edits and blurs during a pending call are possible through `Change` and `Blur` between `SubmitBegin` and `SubmitSettle`.
- React batching and re-render timing are not modelled. The credentials sent are the snapshot taken at `SubmitBegin`, which is what the handler's closure holds.
- The `err instanceof Error ? err.message : String(err)` inspection (LoginForm.tsx:60-61) is JavaScript runtime typing. A failure reaches `SubmitSettle` as its message string, so a transport error is any `Failure(message)`.
- JavaScript strings may hold lone surrogate code units; Dafny strings hold Unicode scalar values, so such strings are not represented.
- Two rapid submits are excluded by `SubmitBegin`'s precondition, which stands for the disabled submit button. The handler has no guard of its own, so none is claimed.
