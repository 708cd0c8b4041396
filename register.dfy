/**
 * The registration form's validation in src/pages/Register.tsx: the action
 * passed to `useActionState` collects an error list per field and one for
 * the whole form, then reports success only when every list is empty.
 *
 * A form value is what `formData.get` gives: `None` for a missing field (the
 * source's `null`), otherwise the text entered. File entries are not
 * modelled.
 */
module Register {
  import opened Common

  const EmailRequired: string := "Email is required"
  const PasswordRequired: string := "Password is required"
  const ConfirmPasswordRequired: string := "Confirm password is required"
  const PasswordsDoNotMatch: string := "Passwords do not match"

  datatype FieldErrors = FieldErrors(email: seq<string>, password: seq<string>, confirmPassword: seq<string>)

  /** `ActionErrors`. */
  datatype ActionErrors = ActionErrors(formErrors: seq<string>, fieldErrors: FieldErrors)

  /** `FormState`. */
  datatype FormState =
    | Success
    | Error(formErrors: seq<string>, fieldErrors: FieldErrors)

  /** `initialFormState`: an error state with every list empty. */
  const InitialFormState: FormState := Error([], FieldErrors([], [], []))

  lemma InitialFormStateIsEmptyError()
    ensures InitialFormState.Error?
    ensures InitialFormState.formErrors == []
    ensures InitialFormState.fieldErrors == FieldErrors([], [], [])
  {
  }

  /** `!value`: a missing field and an empty text are falsy. */
  predicate Falsy(value: Option<string>) {
    value.None? || value.value == ""
  }

  /** The list that gets `message` exactly when the condition holds. */
  function ErrorsIf(condition: bool, message: string): seq<string> {
    if condition then [message] else []
  }

  /**
   * The validation body of the form action. Each falsy field gets exactly one
   * "... is required" message in its own list, a password that differs from
   * its confirmation gets exactly one form error, and the state is a success
   * exactly when no message was collected.
   */
  method Validate(email: Option<string>, password: Option<string>, confirmPassword: Option<string>)
    returns (state: FormState)
    ensures state.Success? <==>
      !Falsy(email) && !Falsy(password) && !Falsy(confirmPassword) && password == confirmPassword
    ensures state.Error? ==>
      && state.fieldErrors.email == ErrorsIf(Falsy(email), EmailRequired)
      && state.fieldErrors.password == ErrorsIf(Falsy(password), PasswordRequired)
      && state.fieldErrors.confirmPassword == ErrorsIf(Falsy(confirmPassword), ConfirmPasswordRequired)
      && state.formErrors == ErrorsIf(password != confirmPassword, PasswordsDoNotMatch)
  {
    var errors := ActionErrors([], FieldErrors([], [], []));

    if Falsy(email) {
      errors := errors.(fieldErrors := errors.fieldErrors.(email := errors.fieldErrors.email + [EmailRequired]));
    }
    if Falsy(password) {
      errors := errors.(fieldErrors := errors.fieldErrors.(password := errors.fieldErrors.password + [PasswordRequired]));
    }
    if Falsy(confirmPassword) {
      errors := errors.(fieldErrors := errors.fieldErrors.(
        confirmPassword := errors.fieldErrors.confirmPassword + [ConfirmPasswordRequired]));
    }
    if password != confirmPassword {
      errors := errors.(formErrors := errors.formErrors + [PasswordsDoNotMatch]);
    }
    assert errors.fieldErrors == FieldErrors(ErrorsIf(Falsy(email), EmailRequired),
      ErrorsIf(Falsy(password), PasswordRequired), ErrorsIf(Falsy(confirmPassword), ConfirmPasswordRequired));
    assert errors.formErrors == ErrorsIf(password != confirmPassword, PasswordsDoNotMatch);

    // `Object.values(errors.fieldErrors).some(fieldErrors => fieldErrors.length)`
    var lists := [errors.fieldErrors.email, errors.fieldErrors.password, errors.fieldErrors.confirmPassword];
    var someFieldError := false;
    var i := 0;
    while i < |lists| && !someFieldError
      invariant 0 <= i <= |lists|
      invariant someFieldError <==> exists k :: 0 <= k < i && |lists[k]| > 0
    {
      someFieldError := |lists[i]| > 0;
      i := i + 1;
    }
    assert someFieldError <==> exists k :: 0 <= k < |lists| && |lists[k]| > 0;
    var hasErrors := |errors.formErrors| > 0 || someFieldError;

    if hasErrors {
      return Error(errors.formErrors, errors.fieldErrors);
    }
    assert |lists[0]| == 0 && |lists[1]| == 0 && |lists[2]| == 0;
    return Success;
  }

  /** Every list of a failed validation, the form's and each field's, holds at most one message. */
  method AtMostOneMessagePerList(email: Option<string>, password: Option<string>, confirmPassword: Option<string>)
    returns (state: FormState)
    ensures state.Error? ==>
      && |state.formErrors| <= 1
      && |state.fieldErrors.email| <= 1
      && |state.fieldErrors.password| <= 1
      && |state.fieldErrors.confirmPassword| <= 1
  {
    state := Validate(email, password, confirmPassword);
  }

  /**
   * A password equal to its confirmation, including both missing, never
   * gives a mismatch error; the form then fails only for a falsy field.
   */
  method EqualValuesNoMismatch(email: Option<string>, value: Option<string>) returns (state: FormState)
    ensures state.Error? ==> state.formErrors == []
    ensures state.Success? <==> !Falsy(email) && !Falsy(value)
  {
    state := Validate(email, value, value);
  }
}
