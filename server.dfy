/**
 * The tutoring server's own logic: the prompts it sends to the language model, how it cleans
 * and checks what comes back, and the replies of its evaluation and chat endpoints. The model
 * and `JSON.parse` are parameters.
 */
module Server {
  import opened Wrappers
  import opened Text
  import opened Cefr

  /** A field of a JSON request body: missing, a string, or some other JSON value. */
  datatype Field = Absent | Str(s: string) | NonString

  /** A message of the conversation history as the client sends it. */
  datatype HistoryMessage = HistoryMessage(author: string, text: string)

  const DefaultLevel := "A1"
  const DefaultTopic := "general conversation"
  const HistoryTitle := "Recent conversation:\n"
  const RecentCount := 5

  /** Who said a history line: `Student` for the user, `Tutor` for anyone else. */
  function Role(author: string): (r: string)
    ensures r == "Student" <==> author == "user"
    ensures r == "Student" || r == "Tutor"
  {
    if author == "user" then "Student" else "Tutor"
  }

  function HistoryLine(m: HistoryMessage): string {
    Role(m.author) + ": " + m.text + "\n"
  }

  /** The lines of a stretch of history, in its order. */
  function Lines(h: seq<HistoryMessage>): string {
    if |h| == 0 then "" else Lines(h[..|h| - 1]) + HistoryLine(h[|h| - 1])
  }

  /** `history.slice(-5)`: the last five messages, or all of them when there are fewer. */
  function Recent(h: seq<HistoryMessage>): (r: seq<HistoryMessage>)
    ensures |r| == if |h| < RecentCount then |h| else RecentCount
    ensures r == h[|h| - |r|..]
  {
    if |h| <= RecentCount then h else h[|h| - RecentCount..]
  }

  /** The opening of every chat prompt. */
  function Header(level: string, topic: string): string {
    "You are an English tutor for CEFR " + level + " level students. Topic: " + topic
    + ". Answer in simple English and correct errors gently.\n\n"
  }

  /** The history part of a chat prompt: the recent lines under a title and a blank line, or nothing when there is no history. */
  function HistorySection(history: Option<seq<HistoryMessage>>): (r: string)
    ensures r == "" <==> history.None? || |history.value| == 0
    ensures r != "" ==> StartsWith(r, HistoryTitle) && EndsWith(r, "\n\n")
  {
    if history.Some? && |history.value| > 0 then
      var recent := Recent(history.value);
      LinesEndInNewline(recent);
      SectionShape(Lines(recent));
      HistoryTitle + Lines(recent) + "\n"
    else ""
  }

  /** A non-empty stretch of history ends with a newline. */
  lemma LinesEndInNewline(h: seq<HistoryMessage>)
    requires |h| > 0
    ensures EndsWith(Lines(h), "\n")
  {
    var last := HistoryLine(h[|h| - 1]);
    assert last[|last| - 1] == '\n';
    assert Lines(h) == Lines(h[..|h| - 1]) + last;
  }

  /** Lines ending with a newline, under the title and followed by one more, give a titled section ending in a blank line. */
  lemma SectionShape(lines: string)
    requires EndsWith(lines, "\n")
    ensures StartsWith(HistoryTitle + lines + "\n", HistoryTitle) && EndsWith(HistoryTitle + lines + "\n", "\n\n")
  {
    var r := HistoryTitle + lines + "\n";
    assert r[..|HistoryTitle|] == HistoryTitle;
    assert r[|r| - 2] == lines[|lines| - 1];
    assert r[|r| - 2..] == "\n\n";
  }

  /** The closing of every chat prompt: the student's message and the cue for the tutor's turn. */
  function Closing(message: string): string {
    "Student: " + message + "\nTutor:"
  }

  /** The chat prompt `buildPrompt` produces: header, history section, then the student's message. */
  function ChatPrompt(message: string, topic: Option<string>, cefrLevel: Option<string>, history: Option<seq<HistoryMessage>>): string {
    Header(OrElse(cefrLevel, DefaultLevel), OrElse(topic, DefaultTopic)) + HistorySection(history) + Closing(message)
  }

  /**
   * `buildPrompt`: the prompt is built by appending the header, the title and one line per recent
   * message, and the student's message.
   */
  method BuildPrompt(message: string, topic: Option<string>, cefrLevel: Option<string>, history: Option<seq<HistoryMessage>>) returns (prompt: string)
    ensures prompt == ChatPrompt(message, topic, cefrLevel, history)
  {
    var level := OrElse(cefrLevel, DefaultLevel);
    var topicText := OrElse(topic, DefaultTopic);
    var header := Header(level, topicText);
    prompt := header;
    if history.Some? && |history.value| > 0 {
      var recentHistory := Recent(history.value);
      prompt := prompt + HistoryTitle;
      for i := 0 to |recentHistory|
        invariant prompt == header + HistoryTitle + Lines(recentHistory[..i])
      {
        LinesStep(header + HistoryTitle, recentHistory, i);
        prompt := prompt + HistoryLine(recentHistory[i]);
      }
      prompt := prompt + "\n";
      SectionAppended(header, history.value);
    }
    prompt := prompt + Closing(message);
  }

  /** One more history line appended to a prompt. */
  lemma LinesStep(start: string, h: seq<HistoryMessage>, i: nat)
    requires i < |h|
    ensures start + Lines(h[..i]) + HistoryLine(h[i]) == start + Lines(h[..i + 1])
  {
    assert h[..i + 1][..i] == h[..i];
  }

  /** The title, the recent lines and a blank line appended to a header make up the history section. */
  lemma SectionAppended(header: string, h: seq<HistoryMessage>)
    requires |h| > 0
    ensures header + HistoryTitle + Lines(Recent(h)[..|Recent(h)|]) + "\n" == header + HistorySection(Some(h))
  {
    var r := Recent(h);
    assert r[..|r|] == r;
  }

  /**
   * A chat prompt opens with the header for the given level and topic (`A1` and
   * `general conversation` standing in for missing ones, as `OrElse` states) and closes with
   * the student's message.
   */
  lemma ChatPromptShape(message: string, topic: Option<string>, cefrLevel: Option<string>, history: Option<seq<HistoryMessage>>)
    ensures var p := ChatPrompt(message, topic, cefrLevel, history);
            StartsWith(p, Header(OrElse(cefrLevel, DefaultLevel), OrElse(topic, DefaultTopic)))
            && EndsWith(p, Closing(message))
  {
    var h := Header(OrElse(cefrLevel, DefaultLevel), OrElse(topic, DefaultTopic));
    var mid := HistorySection(history);
    AppendAffixes(h, mid);
    StartsWithExtend(h + mid, h, Closing(message));
    AppendAffixes(h + mid, Closing(message));
  }

  /** The lines of two stretches of history are those of each, in order: one line per message. */
  lemma {:induction false} LinesAppend(h: seq<HistoryMessage>, k: seq<HistoryMessage>)
    ensures Lines(h + k) == Lines(h) + Lines(k)
  {
    if |k| > 0 {
      assert (h + k)[..|h + k| - 1] == h + k[..|k| - 1];
      LinesAppend(h, k[..|k| - 1]);
    } else {
      assert h + k == h;
    }
  }

  /** Messages older than the last five leave no trace in the history section. */
  lemma OlderHistoryDropped(older: seq<HistoryMessage>, recent: seq<HistoryMessage>)
    requires |recent| == RecentCount
    ensures HistorySection(Some(older + recent)) == HistoryTitle + Lines(recent) + "\n"
  {
    assert (older + recent)[|older|..] == recent;
  }

  const EvaluationHeader := "You are an English examiner. Rate the following answer on CEFR A1–C2 and explain briefly. Return STRICT JSON: { \"level\": \"A1\"|\"A2\"|\"B1\"|\"B2\"|\"C1\"|\"C2\", \"explanation\": \"string\" }.\n\nAnswer to evaluate:\n"
  const EvaluationTrailer := "\n\nJSON response:"

  /** `buildEvaluationPrompt`: the answer verbatim between a fixed header and a fixed trailer. */
  function BuildEvaluationPrompt(answer: string): (p: string)
    ensures |p| == |EvaluationHeader| + |answer| + |EvaluationTrailer|
    ensures StartsWith(p, EvaluationHeader) && EndsWith(p, EvaluationTrailer)
    ensures p[|EvaluationHeader|..|p| - |EvaluationTrailer|] == answer
  {
    var p := EvaluationHeader + answer + EvaluationTrailer;
    assert p[..|EvaluationHeader|] == EvaluationHeader;
    assert p[|EvaluationHeader|..|p| - |EvaluationTrailer|] == answer;
    p
  }

  /** Different answers make different evaluation prompts. */
  lemma EvaluationPromptInjective(a: string, b: string)
    requires BuildEvaluationPrompt(a) == BuildEvaluationPrompt(b)
    ensures a == b
  {
  }

  /** The two fields of a parsed evaluation object (a field that is not a string counts as missing). */
  datatype Parsed = Parsed(level: Option<string>, explanation: Option<string>)

  /** Both fields present and non-empty. */
  predicate Complete(p: Parsed) {
    Truthy(p.level) && Truthy(p.explanation)
  }

  const FallbackLevel := "B1"
  const FallbackExplanation := "Fallback due to parse error"
  const Fallback := Parsed(Some(FallbackLevel), Some(FallbackExplanation))

  /** `JSON.parse(s)` succeeds and yields an object with both fields truthy. */
  predicate ParsesComplete(parse: string -> Option<Parsed>, s: string) {
    parse(s).Some? && Complete(parse(s).value)
  }

  /**
   * `parseEvaluationResponse`. `parse` stands for `JSON.parse` (no result when it throws);
   * `keysObject` and `anyObject` stand for the two regular expressions (the first match, if any).
   * The text itself is tried first, then the object naming both keys, then any object; a parse
   * that throws inside the second strategy ends the search with the fallback.
   */
  function ParseEvaluationResponse(text: string, parse: string -> Option<Parsed>, keysObject: string -> Option<string>, anyObject: string -> Option<string>): (r: Parsed)
    ensures Complete(r)
    ensures r == Fallback || parse(text) == Some(r)
            || (keysObject(text).Some? && parse(keysObject(text).value) == Some(r))
            || (anyObject(text).Some? && parse(anyObject(text).value) == Some(r))
    ensures ParsesComplete(parse, text) ==> r == parse(text).value
    // the object naming both keys, when the text itself is not a complete object
    ensures !ParsesComplete(parse, text) && keysObject(text).Some? && ParsesComplete(parse, keysObject(text).value)
            ==> r == parse(keysObject(text).value).value
    ensures !ParsesComplete(parse, text) && keysObject(text).Some? && parse(keysObject(text).value).None?
            ==> r == Fallback
    // any object, when neither of the above gives a complete one and the keys object did not throw
    ensures !ParsesComplete(parse, text) && (keysObject(text).None? || (parse(keysObject(text).value).Some? && !Complete(parse(keysObject(text).value).value)))
            && anyObject(text).Some? && ParsesComplete(parse, anyObject(text).value)
            ==> r == parse(anyObject(text).value).value
    ensures !ParsesComplete(parse, text) && (keysObject(text).None? || !ParsesComplete(parse, keysObject(text).value))
            && (anyObject(text).None? || !ParsesComplete(parse, anyObject(text).value))
            ==> r == Fallback
  {
    var direct := parse(text);
    if direct.Some? && Complete(direct.value) then direct.value
    else
      var byKeys := keysObject(text);
      if byKeys.Some? && parse(byKeys.value).None? then Fallback
      else if byKeys.Some? && Complete(parse(byKeys.value).value) then parse(byKeys.value).value
      else
        var byObject := anyObject(text);
        if byObject.Some? && parse(byObject.value).Some? && Complete(parse(byObject.value).value) then parse(byObject.value).value
        else Fallback
  }

  /** When the text does not parse and no object in it carries both fields, the fallback is returned. */
  lemma NothingParsedFallsBack(text: string, parse: string -> Option<Parsed>, keysObject: string -> Option<string>, anyObject: string -> Option<string>)
    requires parse(text).None?
    requires keysObject(text).None? || parse(keysObject(text).value).None? || !Complete(parse(keysObject(text).value).value)
    requires anyObject(text).None? || parse(anyObject(text).value).None? || !Complete(parse(anyObject(text).value).value)
    ensures ParseEvaluationResponse(text, parse, keysObject, anyObject) == Fallback
  {
  }

  /** A model reply: its text, or a failure of the call. */
  datatype ModelOutcome = Generated(text: string) | ModelFailed

  /**
   * The cleanup of a model reply: when `marker` occurs, only the trimmed text after its last
   * occurrence (in a left-to-right scan) is kept; otherwise the text stays as it is.
   */
  function CleanReply(text: string, marker: string): (r: string)
    requires |marker| > 0
    ensures !Contains(r, marker)
    ensures !Contains(text, marker) ==> r == text
    ensures Contains(text, marker) ==> Trim(r) == r
    ensures Contains(text, marker) ==>
              exists i :: OccursAt(text, marker, i) && !Contains(text[i + |marker|..], marker) && r == Trim(text[i + |marker|..])
  {
    if Contains(text, marker) then
      TrimmedLastPiece(text, marker);
      Trim(LastPiece(text, marker))
    else text
  }

  /** The trimmed last piece follows an occurrence after which there is none, and holds none itself. */
  lemma TrimmedLastPiece(text: string, marker: string)
    requires |marker| > 0 && Contains(text, marker)
    ensures var r := Trim(LastPiece(text, marker));
            !Contains(r, marker) && Trim(r) == r &&
            exists i :: OccursAt(text, marker, i) && !Contains(text[i + |marker|..], marker) && r == Trim(text[i + |marker|..])
  {
    var piece := LastPiece(text, marker);
    LastPieceFollowsOccurrence(text, marker);
    LastPieceHasNoSep(text, marker);
    TrimIdempotent(piece);
    TrimContains(piece, marker);
  }

  /** The last piece is all that follows an occurrence after which there is none. */
  lemma LastPieceFollowsOccurrence(text: string, marker: string)
    requires |marker| > 0 && Contains(text, marker)
    ensures exists i :: OccursAt(text, marker, i) && !Contains(text[i + |marker|..], marker)
                        && Trim(LastPiece(text, marker)) == Trim(text[i + |marker|..])
  {
    var piece := LastPiece(text, marker);
    LastPieceHasNoSep(text, marker);
    LastPieceAfterOccurrence(text, marker);
    var i := |text| - |piece| - |marker|;
    assert text[i + |marker|..] == piece;
    assert OccursAt(text, marker, i) && !Contains(text[i + |marker|..], marker);
  }

  /** What is left of a reply after the cleanup, unless the call failed or nothing but white space is left. */
  function ModelText(outcome: ModelOutcome, marker: string): (r: Option<string>)
    requires |marker| > 0
    ensures r.Some? ==> outcome.Generated? && r.value == CleanReply(outcome.text, marker) && !IsBlank(r.value)
    ensures outcome.Generated? && !IsBlank(CleanReply(outcome.text, marker)) ==> r.Some?
  {
    match outcome
    case ModelFailed => None
    case Generated(text) =>
      var cleaned := CleanReply(text, marker);
      if Trim(cleaned) == "" then None else Some(cleaned)
  }

  const JsonMarker := "JSON response:"
  const TutorMarker := "Tutor:"
  const NoExplanation := "No explanation provided"
  const AnswerRequired := "Answer is required and must be a string"
  const MessageRequired := "Message is required and must be a string"
  const Unavailable := "Sorry, I am unavailable."

  /** A reply of the evaluation endpoint: a level with its explanation, or a 400 with a message. */
  datatype EvaluateResponse = Evaluation(level: string, explanation: string) | EvaluateBadRequest(message: string)

  /** A reply of the chat endpoint: the tutor's text, or a 400 with a message. */
  datatype ChatResponse = ChatReply(reply: string) | ChatBadRequest(message: string)

  /** A request field the handlers accept: a non-empty string. */
  predicate Given(f: Field) {
    f.Str? && f.s != ""
  }

  /**
   * `POST /api/evaluate`: the answer is checked, the model is asked, and its reply is cleaned,
   * parsed and checked; a failed or empty reply and a level outside the six give the fallback.
   */
  function Evaluate(answer: Field, model: string -> ModelOutcome, parse: string -> Option<Parsed>, keysObject: string -> Option<string>, anyObject: string -> Option<string>): (r: EvaluateResponse)
    ensures r.EvaluateBadRequest? <==> !Given(answer)
    ensures r.EvaluateBadRequest? ==> r.message == AnswerRequired
    ensures r.Evaluation? ==> Parse(r.level).Some? && r.explanation != ""
    ensures Given(answer) && ModelText(model(BuildEvaluationPrompt(answer.s)), JsonMarker).None? ==>
              r == Evaluation(FallbackLevel, FallbackExplanation)
    ensures Given(answer) && ModelText(model(BuildEvaluationPrompt(answer.s)), JsonMarker).Some? ==>
              r == Checked(ParseEvaluationResponse(ModelText(model(BuildEvaluationPrompt(answer.s)), JsonMarker).value, parse, keysObject, anyObject))
  {
    if !Given(answer) then EvaluateBadRequest(AnswerRequired)
    else
      match ModelText(model(BuildEvaluationPrompt(answer.s)), JsonMarker)
      case None => Evaluation(FallbackLevel, FallbackExplanation)
      case Some(text) => Checked(ParseEvaluationResponse(text, parse, keysObject, anyObject))
  }

  /**
   * The level check on a parsed object: a level outside the six gives the fallback pair, and a
   * missing explanation the default one.
   */
  function Checked(parsed: Parsed): (r: EvaluateResponse)
    requires Truthy(parsed.level)
    ensures r.Evaluation? && Parse(r.level).Some? && r.explanation != ""
    ensures Parse(parsed.level.value).Some? ==> r == Evaluation(parsed.level.value, OrElse(parsed.explanation, NoExplanation))
    ensures Parse(parsed.level.value).None? ==> r == Evaluation(FallbackLevel, FallbackExplanation)
  {
    var checked := if Parse(parsed.level.value).Some? then parsed else Fallback;
    Evaluation(checked.level.value, OrElse(checked.explanation, NoExplanation))
  }

  /**
   * When the cleaned reply parses to a level among the six and an explanation, the endpoint
   * returns exactly those; the default explanation never applies, since a parsed object
   * always carries one.
   */
  lemma EvaluateReturnsParsed(answer: string, model: string -> ModelOutcome, parse: string -> Option<Parsed>, keysObject: string -> Option<string>, anyObject: string -> Option<string>, text: string, l: CefrLevel, explanation: string)
    requires answer != "" && ModelText(model(BuildEvaluationPrompt(answer)), JsonMarker) == Some(text)
    requires parse(text) == Some(Parsed(Some(Name(l)), Some(explanation))) && explanation != ""
    ensures Evaluate(Str(answer), model, parse, keysObject, anyObject) == Evaluation(Name(l), explanation)
  {
    ParsedLevelKept(text, parse, keysObject, anyObject, l, explanation);
  }

  /**
   * A reply that is not itself a complete object but embeds one naming both keys, with a valid
   * level, is answered with that object's level and explanation.
   */
  lemma EvaluateUsesEmbeddedObject(answer: string, model: string -> ModelOutcome, parse: string -> Option<Parsed>, keysObject: string -> Option<string>, anyObject: string -> Option<string>, text: string, embedded: string, l: CefrLevel, explanation: string)
    requires answer != "" && ModelText(model(BuildEvaluationPrompt(answer)), JsonMarker) == Some(text)
    requires !ParsesComplete(parse, text) && keysObject(text) == Some(embedded)
    requires parse(embedded) == Some(Parsed(Some(Name(l)), Some(explanation))) && explanation != ""
    ensures Evaluate(Str(answer), model, parse, keysObject, anyObject) == Evaluation(Name(l), explanation)
  {
    EmbeddedLevelKept(text, parse, keysObject, anyObject, embedded, l, explanation);
  }

  /** An embedded complete object with one of the six levels passes the level check unchanged. */
  lemma EmbeddedLevelKept(text: string, parse: string -> Option<Parsed>, keysObject: string -> Option<string>, anyObject: string -> Option<string>, embedded: string, l: CefrLevel, explanation: string)
    requires !ParsesComplete(parse, text) && keysObject(text) == Some(embedded)
    requires parse(embedded) == Some(Parsed(Some(Name(l)), Some(explanation))) && explanation != ""
    ensures Checked(ParseEvaluationResponse(text, parse, keysObject, anyObject)) == Evaluation(Name(l), explanation)
  {
    assert ParsesComplete(parse, embedded) by {
      assert Name(l) != "";
    }
    assert Parse(Name(l)) == Some(l);
  }

  /** A complete direct parse with one of the six levels passes the level check unchanged. */
  lemma ParsedLevelKept(text: string, parse: string -> Option<Parsed>, keysObject: string -> Option<string>, anyObject: string -> Option<string>, l: CefrLevel, explanation: string)
    requires parse(text) == Some(Parsed(Some(Name(l)), Some(explanation))) && explanation != ""
    ensures Checked(ParseEvaluationResponse(text, parse, keysObject, anyObject)) == Evaluation(Name(l), explanation)
  {
    assert ParseEvaluationResponse(text, parse, keysObject, anyObject) == Parsed(Some(Name(l)), Some(explanation)) by {
      assert Name(l) != "";
    }
    assert Parse(Name(l)) == Some(l);
  }

  /** A parsed level outside the six is replaced by the fallback, explanation included. */
  lemma EvaluateRejectsUnknownLevel(answer: string, model: string -> ModelOutcome, parse: string -> Option<Parsed>, keysObject: string -> Option<string>, anyObject: string -> Option<string>, text: string, level: string, explanation: string)
    requires answer != "" && ModelText(model(BuildEvaluationPrompt(answer)), JsonMarker) == Some(text)
    requires parse(text) == Some(Parsed(Some(level), Some(explanation))) && level != "" && explanation != ""
    requires Parse(level).None?
    ensures Evaluate(Str(answer), model, parse, keysObject, anyObject) == Evaluation(FallbackLevel, FallbackExplanation)
  {
  }

  /**
   * `POST /api/chat`: the message is checked, the model is asked with the chat prompt, and its
   * reply is cleaned; a failed or empty reply becomes the apology.
   */
  function Chat(message: Field, topic: Option<string>, cefrLevel: Option<string>, history: Option<seq<HistoryMessage>>, model: string -> ModelOutcome): (r: ChatResponse)
    ensures r.ChatBadRequest? <==> !Given(message)
    ensures r.ChatBadRequest? ==> r.message == MessageRequired
    ensures r.ChatReply? ==> !IsBlank(r.reply)
    ensures r.ChatReply? ==> r.reply == Unavailable || !Contains(r.reply, TutorMarker)
    ensures Given(message) && model(ChatPrompt(message.s, topic, cefrLevel, history)).ModelFailed? ==> r == ChatReply(Unavailable)
    ensures Given(message) && model(ChatPrompt(message.s, topic, cefrLevel, history)).Generated? ==>
              var cleaned := CleanReply(model(ChatPrompt(message.s, topic, cefrLevel, history)).text, TutorMarker);
              r == if IsBlank(cleaned) then ChatReply(Unavailable) else ChatReply(cleaned)
  {
    if !Given(message) then ChatBadRequest(MessageRequired)
    else
      match ModelText(model(ChatPrompt(message.s, topic, cefrLevel, history)), TutorMarker)
      case None =>
        assert !IsSpace(Unavailable[0]);
        ChatReply(Unavailable)
      case Some(reply) => ChatReply(reply)
  }

  /** An occurrence of `Tutor:` rules out another one starting inside it. */
  lemma NoOverlappingMarker(text: string, i: int, d: int)
    requires OccursAt(text, TutorMarker, i) && 0 < d < |TutorMarker|
    ensures !OccursAt(text, TutorMarker, i + d)
  {
    assert text[i + d] == TutorMarker[d];
  }

  /** At most one occurrence of `Tutor:` has none after it. */
  lemma LastMarkerUnique(text: string, i: nat, p: nat)
    requires OccursAt(text, TutorMarker, i) && !Contains(text[i + |TutorMarker|..], TutorMarker)
    requires OccursAt(text, TutorMarker, p) && !Contains(text[p + |TutorMarker|..], TutorMarker)
    ensures i == p
  {
    var m := TutorMarker;
    if i != p {
      if i < p < i + |m| {
        NoOverlappingMarker(text, i, p - i);
      } else if p < i < p + |m| {
        NoOverlappingMarker(text, p, i - p);
      } else if i + |m| <= p {
        OccursAtShift(text, i + |m|, m, p - i - |m|);
      } else {
        OccursAtShift(text, p + |m|, m, i - p - |m|);
      }
    }
  }

  /**
   * The cleanup keeps what follows the marker's last occurrence: for a reply `pre + "Tutor:" + post`
   * with no marker in `post`, the cleaned reply is `post` trimmed, whatever `pre` holds.
   */
  lemma CleanReplyAfterLastMarker(pre: string, post: string)
    requires !Contains(post, TutorMarker)
    ensures CleanReply(pre + TutorMarker + post, TutorMarker) == Trim(post)
  {
    var text := pre + TutorMarker + post;
    var m := TutorMarker;
    var p := |pre|;
    assert text[p..p + |m|] == m;
    assert text[p + |m|..] == post;
    assert OccursAt(text, m, p);
    var i: nat :| OccursAt(text, m, i) && !Contains(text[i + |m|..], m) && CleanReply(text, m) == Trim(text[i + |m|..]);
    LastMarkerUnique(text, i, p);
  }

  /**
   * The chat endpoint answers with the cleaned model reply: a reply ending in `Tutor:` and some
   * text gives that text trimmed, unless it is blank.
   */
  lemma ChatRepliesAfterMarker(message: string, topic: Option<string>, cefrLevel: Option<string>, history: Option<seq<HistoryMessage>>, model: string -> ModelOutcome, pre: string, post: string)
    requires message != "" && !Contains(post, TutorMarker) && !IsBlank(post)
    requires model(ChatPrompt(message, topic, cefrLevel, history)) == Generated(pre + TutorMarker + post)
    ensures Chat(Str(message), topic, cefrLevel, history, model) == ChatReply(Trim(post))
  {
    CleanReplyAfterLastMarker(pre, post);
  }

  lemma TrimLeadingSpace()
    ensures Trim(" Hi") == "Hi" && !IsBlank(" Hi")
  {
    var s := " Hi";
    assert IsSpace(s[0]) && !IsSpace(s[1]) && !IsSpace(s[2]);
    assert s[1..] == "Hi";
    assert TrimStart("Hi") == "Hi";
    assert TrimStart(s) == "Hi";
    assert TrimEnd("Hi") == "Hi";
  }

  /** Every chat prompt ends with the cue for the tutor's turn. */
  lemma PromptEndsWithMarker(message: string, topic: Option<string>, cefrLevel: Option<string>, history: Option<seq<HistoryMessage>>)
    ensures EndsWith(ChatPrompt(message, topic, cefrLevel, history), TutorMarker)
  {
    var head := Header(OrElse(cefrLevel, DefaultLevel), OrElse(topic, DefaultTopic)) + HistorySection(history);
    ClosingEndsWithMarker(message);
    EndsWithPrefixed(head, Closing(message), TutorMarker);
  }

  lemma ClosingEndsWithMarker(message: string)
    ensures EndsWith(Closing(message), TutorMarker)
  {
    var c := "Student: " + message + "\n";
    assert Closing(message) == c + TutorMarker;
    AppendAffixes(c, TutorMarker);
  }

  /** For example, a model reply that echoes the prompt and ends in `Tutor: Hi` gives `Hi`. */
  lemma ChatReplyExample(message: string, topic: Option<string>, cefrLevel: Option<string>, history: Option<seq<HistoryMessage>>, model: string -> ModelOutcome)
    requires message != ""
    requires model(ChatPrompt(message, topic, cefrLevel, history)) == Generated(ChatPrompt(message, topic, cefrLevel, history) + " Hi")
    ensures Chat(Str(message), topic, cefrLevel, history, model) == ChatReply("Hi")
  {
    var prompt := ChatPrompt(message, topic, cefrLevel, history);
    PromptEndsWithMarker(message, topic, cefrLevel, history);
    var pre := prompt[..|prompt| - |TutorMarker|];
    assert prompt == pre + TutorMarker;
    assert !Contains(" Hi", TutorMarker);
    TrimLeadingSpace();
    ChatRepliesAfterMarker(message, topic, cefrLevel, history, model, pre, " Hi");
  }
}
