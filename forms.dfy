/**
 * The registration and login forms: the checks made on submit, in order, each with its own
 * message, and the call to the authentication service that only a valid form makes.
 */
module Forms {
  import opened Wrappers
  import opened Auth

  const EmailRequired := "Email обязателен"
  const EmailMalformed := "Неверный формат email"
  const PasswordRequired := "Пароль обязателен"
  const PasswordTooShort := "Пароль должен содержать минимум 6 символов"
  const PasswordsDiffer := "Пароли не совпадают"
  const MinPasswordLength := 6

  /** The login form's `validateForm`: the message of the first failed check, or none. */
  function ValidateLogin(email: string, password: string): (r: Option<string>)
    ensures r.None? <==> email != "" && '@' in email && password != "" && |password| >= MinPasswordLength
    ensures email == "" ==> r == Some(EmailRequired)
    ensures email != "" && '@' !in email ==> r == Some(EmailMalformed)
    ensures '@' in email && password == "" ==> r == Some(PasswordRequired)
    ensures '@' in email && 0 < |password| < MinPasswordLength ==> r == Some(PasswordTooShort)
  {
    if email == "" then Some(EmailRequired)
    else if '@' !in email then Some(EmailMalformed)
    else if password == "" then Some(PasswordRequired)
    else if |password| < MinPasswordLength then Some(PasswordTooShort)
    else None
  }

  /** The registration form's `validateForm`: the login checks, then the confirmation. */
  function ValidateRegister(email: string, password: string, confirmPassword: string): (r: Option<string>)
    ensures r.None? <==> email != "" && '@' in email && password != "" && |password| >= MinPasswordLength && password == confirmPassword
    ensures r == Some(PasswordsDiffer) ==> password != confirmPassword
  {
    if email == "" then Some(EmailRequired)
    else if '@' !in email then Some(EmailMalformed)
    else if password == "" then Some(PasswordRequired)
    else if |password| < MinPasswordLength then Some(PasswordTooShort)
    else if password != confirmPassword then Some(PasswordsDiffer)
    else None
  }

  /**
   * The two forms check the same things in the same order; registration only adds the
   * confirmation check at the end, so with a matching confirmation they agree.
   */
  lemma RegisterExtendsLogin(email: string, password: string, confirmPassword: string)
    ensures ValidateLogin(email, password).Some? ==> ValidateRegister(email, password, confirmPassword) == ValidateLogin(email, password)
    ensures ValidateLogin(email, password).None? ==>
              ValidateRegister(email, password, confirmPassword) == (if password == confirmPassword then None else Some(PasswordsDiffer))
    ensures ValidateRegister(email, password, password) == ValidateLogin(email, password)
  {
  }

  /** A form page's state: the message shown, and whether a call is under way. */
  class FormPage {
    var error: string
    var loading: bool

    constructor()
      ensures error == "" && !loading
    {
      error := "";
      loading := false;
    }

    /**
     * `handleSubmit` of either form: the error is cleared, a failed check shows its message and
     * stops; otherwise the service is called (its failure, if any, is `outcome`) and the page
     * navigates on success or shows the service's message. `called` tells whether the service
     * was called, `navigated` whether the page went to the home page.
     */
    method Submit(validation: Option<string>, outcome: Option<AuthError>) returns (called: bool, navigated: bool)
      modifies this
      ensures called <==> validation.None?
      ensures validation.Some? ==> error == validation.value && !navigated
      ensures called && outcome.None? ==> navigated && error == ""
      ensures called && outcome.Some? ==> !navigated && error == Rethrown(outcome).value.message
      ensures loading == (old(loading) && !called)
    {
      error := "";
      called, navigated := false, false;
      if validation.Some? {
        error := validation.value;
        return;
      }
      loading := true;
      called := true;
      var failure := Rethrown(outcome);
      if failure.None? {
        navigated := true;
      } else {
        error := failure.value.message;
      }
      loading := false;
    }

    /** `handleSubmit` of the registration form. */
    method SubmitRegister(email: string, password: string, confirmPassword: string, outcome: Option<AuthError>) returns (called: bool, navigated: bool)
      modifies this
      ensures called <==> ValidateRegister(email, password, confirmPassword).None?
      ensures !called ==> error == ValidateRegister(email, password, confirmPassword).value && !navigated
      ensures called && outcome.None? ==> navigated && error == ""
      ensures called && outcome.Some? ==> !navigated && error == ErrorMessage(outcome.value)
      ensures loading == (old(loading) && !called)
    {
      called, navigated := Submit(ValidateRegister(email, password, confirmPassword), outcome);
    }

    /** `handleSubmit` of the login form. */
    method SubmitLogin(email: string, password: string, outcome: Option<AuthError>) returns (called: bool, navigated: bool)
      modifies this
      ensures called <==> ValidateLogin(email, password).None?
      ensures !called ==> error == ValidateLogin(email, password).value && !navigated
      ensures called && outcome.None? ==> navigated && error == ""
      ensures called && outcome.Some? ==> !navigated && error == ErrorMessage(outcome.value)
      ensures loading == (old(loading) && !called)
    {
      called, navigated := Submit(ValidateLogin(email, password), outcome);
    }
  }
}
