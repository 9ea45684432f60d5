/**
 * The client side of the level evaluation: the checks applied to the evaluation server's
 * reply and the rewriting of the errors raised on the way. The request itself is an input.
 */
module LevelTestApi {
  import opened Wrappers
  import opened Text
  import opened Cefr

  datatype LevelTestResult = LevelTestResult(level: CefrLevel, explanation: string)

  /** A thrown `Error` (or one of its subclasses, of which only `TypeError` matters here). */
  datatype ErrorKind = PlainError | TypeError
  datatype Failure = Failure(kind: ErrorKind, message: string)

  /** The JSON body of a reply, or the error its parsing raised. */
  datatype Body =
    | Json(level: Option<string>, explanation: Option<string>, message: Option<string>)
    | Unparseable(error: Failure)

  datatype Response = Response(ok: bool, status: nat, body: Body)

  /** What the timed request produced: a reply, or a thrown error (the timeout included). */
  datatype FetchOutcome = Replied(response: Response) | Threw(failure: Failure)

  const TimeoutMessage := "Request timeout"
  const TimeoutRewritten := "Request timeout: Server did not respond in time. Please try again."
  const NetworkRewritten := "Network error: Unable to connect to server. Please check if the backend is running."
  const MissingFields := "Invalid response format: missing level or explanation"

  /** The message thrown for a reply whose status is not ok. */
  function HttpErrorMessage(r: Response): (m: string)
    requires !r.ok
    ensures m != ""
    ensures r.body.Json? && Truthy(r.body.message) ==> m == r.body.message.value
    ensures !(r.body.Json? && Truthy(r.body.message)) ==> m == "HTTP error! status: " + NatToString(r.status)
  {
    if r.body.Json? && Truthy(r.body.message) then r.body.message.value
    else "HTTP error! status: " + NatToString(r.status)
  }

  /** The checks applied to a reply, in their order: status, parse, fields present, level valid. */
  function CheckResponse(r: Response): (res: Result<LevelTestResult, Failure>)
    ensures res.Ok? <==> r.ok && r.body.Json? && Truthy(r.body.level) && Truthy(r.body.explanation)
                         && Parse(r.body.level.value).Some?
    ensures res.Ok? ==> Name(res.value.level) == r.body.level.value
                        && res.value.explanation == r.body.explanation.value
    ensures !r.ok ==> res == Err(Failure(PlainError, HttpErrorMessage(r)))
    ensures r.ok && r.body.Unparseable? ==> res == Err(r.body.error)
    ensures r.ok && r.body.Json? && !(Truthy(r.body.level) && Truthy(r.body.explanation))
            ==> res == Err(Failure(PlainError, MissingFields))
    ensures r.ok && r.body.Json? && Truthy(r.body.level) && Truthy(r.body.explanation) && Parse(r.body.level.value).None?
            ==> res == Err(Failure(PlainError, "Invalid CEFR level: " + r.body.level.value))
  {
    if !r.ok then Err(Failure(PlainError, HttpErrorMessage(r)))
    else match r.body
      case Unparseable(e) => Err(e)
      case Json(level, explanation, _) =>
        if !Truthy(level) || !Truthy(explanation) then Err(Failure(PlainError, MissingFields))
        else match Parse(level.value)
          case None => Err(Failure(PlainError, "Invalid CEFR level: " + level.value))
          case Some(l) => Ok(LevelTestResult(l, explanation.value))
  }

  /** The `catch` block: a timeout and a failed `fetch` get friendlier messages, the rest pass unchanged. */
  function Rewrite(f: Failure): (g: Failure)
    ensures f.message == TimeoutMessage ==> g == Failure(PlainError, TimeoutRewritten)
    ensures f.message != TimeoutMessage && f.kind == TypeError && Contains(f.message, "fetch")
            ==> g == Failure(PlainError, NetworkRewritten)
    ensures f.message != TimeoutMessage && !(f.kind == TypeError && Contains(f.message, "fetch")) ==> g == f
  {
    if f.message == TimeoutMessage then Failure(PlainError, TimeoutRewritten)
    else if f.kind == TypeError && Contains(f.message, "fetch") then Failure(PlainError, NetworkRewritten)
    else f
  }

  /**
   * `evaluateAnswer` once the request has produced its outcome: a reply that passes the checks
   * gives its result, and every error, thrown by the request or by a check, goes through the
   * `catch` block's rewriting.
   */
  function EvaluateAnswer(outcome: FetchOutcome): (res: Result<LevelTestResult, Failure>)
    ensures res.Ok? <==> outcome.Replied? && CheckResponse(outcome.response).Ok?
    ensures res.Ok? ==> res == CheckResponse(outcome.response)
    ensures outcome.Threw? ==> res == Err(Rewrite(outcome.failure))
    ensures outcome.Replied? && CheckResponse(outcome.response).Err?
            ==> res == Err(Rewrite(CheckResponse(outcome.response).error))
    ensures outcome.Replied? && !outcome.response.ok
            ==> res == Err(Rewrite(Failure(PlainError, HttpErrorMessage(outcome.response))))
  {
    match outcome
    case Threw(f) => Err(Rewrite(f))
    case Replied(r) =>
      match CheckResponse(r)
      case Ok(v) => Ok(v)
      case Err(f) => Err(Rewrite(f))
  }

  /** A rewritten error is left alone by a second rewrite. */
  lemma RewriteIdempotent(f: Failure)
    ensures Rewrite(Rewrite(f)) == Rewrite(f)
  {
    if f.message == TimeoutMessage {
      assert TimeoutRewritten != TimeoutMessage by {
        assert |TimeoutRewritten| != |TimeoutMessage|;
      }
    } else if f.kind == TypeError && Contains(f.message, "fetch") {
      assert NetworkRewritten != TimeoutMessage by {
        assert |NetworkRewritten| != |TimeoutMessage|;
      }
    }
  }

  /** A reply with an ok status, a truthy explanation and any of the six level names is accepted as is. */
  lemma AllLevelsAccepted(l: CefrLevel, explanation: string, status: nat, message: Option<string>)
    requires explanation != ""
    ensures EvaluateAnswer(Replied(Response(true, status, Json(Some(Name(l)), Some(explanation), message))))
            == Ok(LevelTestResult(l, explanation))
  {
  }

  /** The missing-field check comes first: without an explanation, the level is not even looked at. */
  lemma MissingFieldsFirst(status: nat, level: Option<string>, explanation: Option<string>, message: Option<string>)
    requires !Truthy(level) || !Truthy(explanation)
    ensures EvaluateAnswer(Replied(Response(true, status, Json(level, explanation, message))))
            == Err(Failure(PlainError, MissingFields))
  {
    assert MissingFields != TimeoutMessage by {
      assert |MissingFields| != |TimeoutMessage|;
    }
  }

  /** A truthy level outside the six names is reported with the level itself in the message. */
  lemma InvalidLevelReported(status: nat, level: string, explanation: string, message: Option<string>)
    requires level != "" && explanation != "" && Parse(level).None?
    ensures EvaluateAnswer(Replied(Response(true, status, Json(Some(level), Some(explanation), message))))
            == Err(Failure(PlainError, "Invalid CEFR level: " + level))
  {
    var m := "Invalid CEFR level: " + level;
    assert m != TimeoutMessage by {
      assert m[0] != TimeoutMessage[0];
    }
  }

  /** Without a server message, a failed status is reported by its number. */
  lemma HttpErrorNamed(status: nat, body: Body)
    requires !(body.Json? && Truthy(body.message))
    ensures var r := Response(false, status, body);
            EvaluateAnswer(Replied(r)) == Err(Failure(PlainError, "HTTP error! status: " + NatToString(status)))
  {
    var m := "HTTP error! status: " + NatToString(status);
    assert m != TimeoutMessage by {
      assert m[0] != TimeoutMessage[0];
    }
  }

  /** A timeout, however it arises, surfaces as the timeout message. */
  lemma TimeoutSurfaces(kind: ErrorKind)
    ensures EvaluateAnswer(Threw(Failure(kind, TimeoutMessage))) == Err(Failure(PlainError, TimeoutRewritten))
  {
  }

  /** A failed status with a server message surfaces as that message, e.g. 'Internal server error' for a 500. */
  lemma ServerMessageSurfaces(status: nat, level: Option<string>, explanation: Option<string>, message: string)
    requires message != "" && message != TimeoutMessage
    ensures EvaluateAnswer(Replied(Response(false, status, Json(level, explanation, Some(message)))))
            == Err(Failure(PlainError, message))
  {
  }

  /** A `fetch` that fails with `TypeError: Failed to fetch` surfaces as the network message. */
  lemma NetworkFailureSurfaces()
    ensures EvaluateAnswer(Threw(Failure(TypeError, "Failed to fetch"))) == Err(Failure(PlainError, NetworkRewritten))
  {
    var m := "Failed to fetch";
    assert OccursAt(m, "fetch", 10) by {
      assert m[10..15] == "fetch";
    }
    assert m != TimeoutMessage by {
      assert m[0] != TimeoutMessage[0];
    }
  }
}
