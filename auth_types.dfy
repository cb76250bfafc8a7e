/**
 * The two records of the authentication entity: the credentials the form
 * edits and the per-field error messages it shows. A field that is
 * `undefined` in the record is `None` here.
 */
module AuthTypes {
  import opened Wrappers

  /** The credentials: email, password and the "remember me" box. */
  datatype LoginState = LoginState(email: string, password: string, remember: bool)

  /** One optional message per input, plus one for the whole form. */
  datatype FieldErrors = FieldErrors(email: Option<string>, password: Option<string>, global: Option<string>)

  /** The empty error record `{}`. */
  const NoErrors := FieldErrors(None, None, None)
}
