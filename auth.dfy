/**
 * The authentication service's error handling: the sign-in provider's error codes are turned
 * into Russian messages, and every failed call is rethrown with its code and that message.
 */
module Auth {
  import opened Wrappers
  import opened Text

  /** An error from the sign-in provider: a code and a message, either of which may be missing. */
  datatype AuthError = AuthError(code: Option<string>, message: Option<string>)

  /** The error the service rethrows: the provider's code and the message for users. */
  datatype Failure = Failure(code: Option<string>, message: string)

  const GenericMessage := "Произошла ошибка"

  /** The codes with a message of their own, and those messages. */
  const CodeMessages: seq<(string, string)> := [
    ("auth/email-already-in-use", "Email уже используется"),
    ("auth/invalid-email", "Неверный формат email"),
    ("auth/operation-not-allowed", "Операция не разрешена"),
    ("auth/weak-password", "Пароль слишком слабый"),
    ("auth/user-disabled", "Пользователь заблокирован"),
    ("auth/user-not-found", "Пользователь не найден"),
    ("auth/wrong-password", "Неверный пароль"),
    ("auth/invalid-credential", "Неверные учетные данные"),
    ("auth/too-many-requests", "Слишком много попыток. Попробуйте позже")
  ]

  /** The codes the table lists. */
  function ListedCodeSet(): (r: set<string>)
    ensures forall i :: 0 <= i < |CodeMessages| ==> CodeMessages[i].0 in r
    ensures forall c :: c in r ==> exists i :: 0 <= i < |CodeMessages| && CodeMessages[i].0 == c
  {
    set i | 0 <= i < |CodeMessages| :: CodeMessages[i].0
  }

  /**
   * `getErrorMessage`: the fixed message of a listed code; for any other code, or none, the
   * error's own message when it has one, and a generic message otherwise.
   */
  function ErrorMessage(e: AuthError): (r: string)
    ensures r != ""
  {
    var code := if e.code.Some? then e.code.value else "";
    if code == "auth/email-already-in-use" then "Email уже используется"
    else if code == "auth/invalid-email" then "Неверный формат email"
    else if code == "auth/operation-not-allowed" then "Операция не разрешена"
    else if code == "auth/weak-password" then "Пароль слишком слабый"
    else if code == "auth/user-disabled" then "Пользователь заблокирован"
    else if code == "auth/user-not-found" then "Пользователь не найден"
    else if code == "auth/wrong-password" then "Неверный пароль"
    else if code == "auth/invalid-credential" then "Неверные учетные данные"
    else if code == "auth/too-many-requests" then "Слишком много попыток. Попробуйте позже"
    else OrElse(e.message, GenericMessage)
  }

  /** Each listed code gets the message the table gives it, whatever the error's own message. */
  lemma ListedCodes(i: nat, message: Option<string>)
    requires i < |CodeMessages|
    ensures ErrorMessage(AuthError(Some(CodeMessages[i].0), message)) == CodeMessages[i].1
  {
    // Row by row: each code differs from the codes compared before it.
    if i == 0 {
    } else if i == 1 {
    } else if i == 2 {
    } else if i == 3 {
    } else if i == 4 {
    } else if i == 5 {
    } else if i == 6 {
    } else if i == 7 {
    } else {
    }
  }

  /** A code the table does not list, or no code, gets the error's own message, or the generic one. */
  lemma UnlistedCodes(e: AuthError)
    requires e.code.None? || e.code.value !in ListedCodeSet()
    ensures ErrorMessage(e) == OrElse(e.message, GenericMessage)
  {
    if e.code.Some? {
      forall i | 0 <= i < |CodeMessages|
        ensures CodeMessages[i].0 != e.code.value
      {
      }
      assert e.code.value != CodeMessages[0].0 && e.code.value != CodeMessages[1].0 && e.code.value != CodeMessages[2].0;
      assert e.code.value != CodeMessages[3].0 && e.code.value != CodeMessages[4].0 && e.code.value != CodeMessages[5].0;
      assert e.code.value != CodeMessages[6].0 && e.code.value != CodeMessages[7].0 && e.code.value != CodeMessages[8].0;
    }
  }

  /** `register`, `login` and `logout` alike: a failed provider call is rethrown with its code and message. */
  function Rethrown(outcome: Option<AuthError>): (r: Option<Failure>)
    ensures r.None? <==> outcome.None?
    ensures r.Some? ==> r.value.code == outcome.value.code && r.value.message == ErrorMessage(outcome.value)
  {
    match outcome
    case None => None
    case Some(e) => Some(Failure(e.code, ErrorMessage(e)))
  }

  /** Mapping the message of an already rethrown error again changes nothing. */
  lemma ErrorMessageIdempotent(e: AuthError)
    ensures ErrorMessage(AuthError(e.code, Some(ErrorMessage(e)))) == ErrorMessage(e)
  {
  }
}
