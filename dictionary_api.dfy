/**
 * The dictionary lookup: the query is normalised, the reply's status is checked, and the
 * reply's entries are flattened into one result per definition, with fallbacks for missing
 * fields. The HTTP request is an input; its JSON body is given as already decoded.
 */
module DictionaryApi {
  import opened Wrappers
  import opened Text

  /** One definition of an entry; a `null` in the definitions array is `None` one level up. */
  datatype Definition = Definition(pos: Option<string>, definition: Option<string>, cefr: Option<string>, example: Option<string>)

  /**
   * One entry of the reply. `definitions` is `None` when absent or not an array; the
   * entry-level `definition`, `example`, `pos`, `partOfSpeech` and `cefr` are used only
   * when there is no definition list.
   */
  datatype Entry = Entry(
    word: Option<string>, definitions: Option<seq<Option<Definition>>>,
    definition: Option<string>, example: Option<string>, pos: Option<string>,
    partOfSpeech: Option<string>, cefr: Option<string>, audio: Option<string>,
    phonic: Option<string>, paragraph: Option<string>)

  /** The decoded body: falsy, a single object, an array (possibly with `null`s), or a parse error. */
  datatype Payload = Falsy | Single(entry: Entry) | Many(entries: seq<Option<Entry>>) | Unparseable(message: string)

  datatype Response = Response(ok: bool, status: nat, statusText: string, body: Payload)

  /** What the request produced: a reply, a thrown `Error`, or a thrown non-`Error` value. */
  datatype FetchOutcome = Replied(response: Response) | ThrewError(message: string) | ThrewOther

  datatype DictionaryResult = DictionaryResult(
    word: string, definition: string, examples: seq<string>, audioUrl: string,
    partOfSpeech: string, cefrLevel: string, phonic: string, paragraph: string)

  const NotFound := "Word not found"
  const NoDefinitions := "Word not found or no definitions available"
  const EmptyQuery := "Query cannot be empty"
  const FetchFailed := "Failed to fetch word definition"
  const DefaultLevel := "A1"

  /** `x ? [x] : []`. */
  function ExampleList(example: Option<string>): (r: seq<string>)
    ensures |r| <= 1
    ensures |r| == 1 <==> Truthy(example)
  {
    if Truthy(example) then [example.value] else []
  }

  /** The single result built for an entry without a usable definition list. */
  function EntryFallback(e: Entry): (r: DictionaryResult)
    requires Truthy(e.word)
    ensures r.word == e.word.value && r.cefrLevel != "" && r.definition != "" && r.partOfSpeech != ""
    ensures r.definition == OrElse(e.definition, OrElse(e.paragraph, "No definition available"))
    ensures r.partOfSpeech == OrElse(e.pos, OrElse(e.partOfSpeech, "unknown"))
    ensures r.cefrLevel == OrElse(e.cefr, DefaultLevel) && r.examples == ExampleList(e.example)
    ensures r.audioUrl == OrElse(e.audio, "") && r.phonic == OrElse(e.phonic, "") && r.paragraph == OrElse(e.paragraph, "")
  {
    DictionaryResult(
      e.word.value,
      OrElse(e.definition, OrElse(e.paragraph, "No definition available")),
      ExampleList(e.example),
      OrElse(e.audio, ""),
      OrElse(e.pos, OrElse(e.partOfSpeech, "unknown")),
      OrElse(e.cefr, DefaultLevel),
      OrElse(e.phonic, ""),
      OrElse(e.paragraph, ""))
  }

  /** The result built for one definition of an entry. */
  function FromDefinition(e: Entry, d: Definition): (r: DictionaryResult)
    requires Truthy(e.word)
    ensures r.word == e.word.value && r.cefrLevel != ""
    ensures r.definition == OrElse(d.definition, "") && r.partOfSpeech == OrElse(d.pos, "")
    ensures r.cefrLevel == OrElse(d.cefr, DefaultLevel) && r.examples == ExampleList(d.example)
    ensures r.audioUrl == OrElse(e.audio, "") && r.phonic == OrElse(e.phonic, "") && r.paragraph == OrElse(e.paragraph, "")
  {
    DictionaryResult(
      e.word.value,
      OrElse(d.definition, ""),
      ExampleList(d.example),
      OrElse(e.audio, ""),
      OrElse(d.pos, ""),
      OrElse(d.cefr, DefaultLevel),
      OrElse(e.phonic, ""),
      OrElse(e.paragraph, ""))
  }

  /**
   * An entry carrying nothing but its word gets the placeholder definition, the part of speech
   * "unknown" and the level A1; a paragraph stands in for a missing definition.
   */
  lemma FallbackDefaults(word: string, paragraph: Option<string>)
    requires word != ""
    ensures var r := EntryFallback(Entry(Some(word), None, None, None, None, None, None, None, None, paragraph));
            r.partOfSpeech == "unknown" && r.cefrLevel == DefaultLevel && r.examples == []
            && r.definition == (if Truthy(paragraph) then paragraph.value else "No definition available")
  {
  }

  /** A definition with only a text leaves the part of speech empty and takes the level A1. */
  lemma DefinitionDefaults(e: Entry, text: string)
    requires Truthy(e.word) && text != ""
    ensures var r := FromDefinition(e, Definition(None, Some(text), None, None));
            r.definition == text && r.partOfSpeech == "" && r.cefrLevel == DefaultLevel && r.examples == []
  {
  }

  /** The results of a definition list: one per non-null definition, in order. */
  function DefinitionResults(e: Entry, defs: seq<Option<Definition>>): (r: seq<DictionaryResult>)
    requires Truthy(e.word)
    ensures |r| <= |defs|
  {
    if |defs| == 0 then []
    else
      var last := defs[|defs| - 1];
      DefinitionResults(e, defs[..|defs| - 1]) + (if last.Some? then [FromDefinition(e, last.value)] else [])
  }

  /** The number of non-null definitions. */
  function Present(defs: seq<Option<Definition>>): nat {
    if |defs| == 0 then 0 else Present(defs[..|defs| - 1]) + (if defs[|defs| - 1].Some? then 1 else 0)
  }

  /** A definition list with a usable entry: neither absent nor empty. */
  predicate HasDefinitions(e: Entry) {
    e.definitions.Some? && |e.definitions.value| > 0
  }

  /** The results one entry contributes: none without a word, else per definition or one fallback. */
  function EntryResults(entry: Option<Entry>): seq<DictionaryResult> {
    match entry
    case None => []
    case Some(e) =>
      if !Truthy(e.word) then []
      else if !HasDefinitions(e) then [EntryFallback(e)]
      else DefinitionResults(e, e.definitions.value)
  }

  /** `forEach` with `push`: the pieces `f` gives for the elements, concatenated in order. */
  function FlatMap<T, U>(xs: seq<T>, f: T -> seq<U>): seq<U> {
    if |xs| == 0 then []
    else FlatMap(xs[..|xs| - 1], f) + f(xs[|xs| - 1])
  }

  /** The results of all entries, in order. */
  function Flatten(entries: seq<Option<Entry>>): seq<DictionaryResult> {
    FlatMap(entries, EntryResults)
  }

  /**
   * The nested loops that push the results: for each entry, skip it without a word, push one
   * fallback result without definitions, else push one result per non-null definition.
   */
  method FlattenEntries(entries: seq<Option<Entry>>) returns (results: seq<DictionaryResult>)
    ensures results == Flatten(entries)
  {
    results := [];
    for i := 0 to |entries|
      invariant results == Flatten(entries[..i])
    {
      assert entries[..i + 1][..i] == entries[..i];
      var wordData := entries[i];
      if wordData.None? || !Truthy(wordData.value.word) {
        continue;
      }
      var e := wordData.value;
      if !HasDefinitions(e) {
        results := results + [EntryFallback(e)];
        continue;
      }
      var definitions := e.definitions.value;
      ghost var before := results;
      for j := 0 to |definitions|
        invariant results == before + DefinitionResults(e, definitions[..j])
      {
        assert definitions[..j + 1][..j] == definitions[..j];
        var def := definitions[j];
        if def.Some? {
          results := results + [FromDefinition(e, def.value)];
        }
      }
      assert definitions[..|definitions|] == definitions;
    }
    assert entries[..|entries|] == entries;
  }

  /** The reply's entries, or the error the reply raises before flattening. */
  function ReplyEntries(r: Response): Result<seq<Option<Entry>>, string> {
    if !r.ok then
      if r.status == 404 then Err(NotFound)
      else Err("API error: " + NatToString(r.status) + " " + r.statusText)
    else match r.body
      case Unparseable(m) => Err(m)
      case Falsy => Err(NotFound)
      case Single(e) => Ok([Some(e)])
      case Many(es) => if |es| == 0 then Err(NotFound) else Ok(es)
  }

  /** The path segment requested: the query trimmed and lower-cased. */
  function NormalizedQuery(query: string): string {
    ToLower(Trim(query))
  }

  /** What happens once the request for a non-blank query has produced its outcome. */
  function Outcome(outcome: FetchOutcome): Result<seq<DictionaryResult>, string> {
    match outcome
    case ThrewError(m) => Err(m)
    case ThrewOther => Err(FetchFailed)
    case Replied(r) =>
      match ReplyEntries(r)
      case Err(m) => Err(m)
      case Ok(es) =>
        var results := Flatten(es);
        if |results| == 0 then Err(NoDefinitions) else Ok(results)
  }

  /** `searchWord` as a function of the query and of what the request for it produced. */
  function Search(query: string, fetch: string -> FetchOutcome): Result<seq<DictionaryResult>, string> {
    if Trim(query) == "" then Err(EmptyQuery)
    else Outcome(fetch(NormalizedQuery(query)))
  }

  /** `searchWord`: the guard, the request for the normalised query, then its outcome handled. */
  method SearchWord(query: string, fetch: string -> FetchOutcome) returns (r: Result<seq<DictionaryResult>, string>)
    ensures r == Search(query, fetch)
  {
    if Trim(query) == "" {
      return Err(EmptyQuery);
    }
    var normalizedQuery := ToLower(Trim(query));
    var outcome := fetch(normalizedQuery);
    r := HandleOutcome(outcome);
  }

  /** The rest of `searchWord` once the request is made: the error paths, the status checks and the flattening loops. */
  method HandleOutcome(outcome: FetchOutcome) returns (r: Result<seq<DictionaryResult>, string>)
    ensures r == Outcome(outcome)
  {
    match outcome {
      case ThrewError(m) => return Err(m);
      case ThrewOther => return Err(FetchFailed);
      case Replied(response) =>
        var wordsArray := ReplyEntries(response);
        if wordsArray.Err? {
          return Err(wordsArray.error);
        }
        var results := FlattenEntries(wordsArray.value);
        if |results| == 0 {
          return Err(NoDefinitions);
        }
        return Ok(results);
    }
  }

  /** Flattening distributes over concatenation: the results follow the order of the entries. */
  lemma {:induction false} FlatMapAppend<T, U>(xs: seq<T>, ys: seq<T>, f: T -> seq<U>)
    ensures FlatMap(xs + ys, f) == FlatMap(xs, f) + FlatMap(ys, f)
    decreases |ys|
  {
    if |ys| == 0 {
      assert xs + ys == xs;
    } else {
      assert (xs + ys)[..|xs + ys| - 1] == xs + ys[..|ys| - 1];
      FlatMapAppend(xs, ys[..|ys| - 1], f);
    }
  }

  /** An entry with a definition list yields exactly one result per non-null definition. */
  lemma {:induction false} DefinitionCount(e: Entry, defs: seq<Option<Definition>>)
    requires Truthy(e.word)
    ensures |DefinitionResults(e, defs)| == Present(defs)
  {
    if |defs| > 0 {
      DefinitionCount(e, defs[..|defs| - 1]);
    }
  }

  /** The k-th result of a list without nulls comes from the k-th definition. */
  lemma {:induction false} DefinitionsInOrder(e: Entry, defs: seq<Option<Definition>>, k: nat)
    requires Truthy(e.word) && k < |defs|
    requires forall i :: 0 <= i < |defs| ==> defs[i].Some?
    ensures |DefinitionResults(e, defs)| == |defs|
    ensures DefinitionResults(e, defs)[k] == FromDefinition(e, defs[k].value)
  {
    var init := defs[..|defs| - 1];
    if k < |defs| - 1 {
      DefinitionsInOrder(e, init, k);
    } else if |defs| > 1 {
      DefinitionsInOrder(e, init, 0);
    }
  }

  /** The results of two stretches of definitions are those of each, in order. */
  lemma {:induction false} DefinitionResultsAppend(e: Entry, xs: seq<Option<Definition>>, ys: seq<Option<Definition>>)
    requires Truthy(e.word)
    ensures DefinitionResults(e, xs + ys) == DefinitionResults(e, xs) + DefinitionResults(e, ys)
    decreases |ys|
  {
    if |ys| == 0 {
      assert xs + ys == xs;
    } else {
      var zs := xs + ys;
      assert zs[..|zs| - 1] == xs + ys[..|ys| - 1];
      DefinitionResultsAppend(e, xs, ys[..|ys| - 1]);
    }
  }

  /** A null definition is skipped where it stands: the results around it keep their order. */
  lemma NullDefinitionSkipped(e: Entry, xs: seq<Option<Definition>>, ys: seq<Option<Definition>>)
    requires Truthy(e.word)
    ensures DefinitionResults(e, xs + [None] + ys) == DefinitionResults(e, xs + ys)
  {
    DefinitionResultsAppend(e, xs + [None], ys);
    DefinitionResultsAppend(e, xs, [None]);
    DefinitionResultsAppend(e, xs, ys);
    var none: seq<Option<Definition>> := [None];
    assert DefinitionResults(e, none) == [] by {
      assert none[..0] == [];
    }
  }

  /** A present definition gives its result in its place, between those of the definitions around it. */
  lemma PresentDefinitionKept(e: Entry, xs: seq<Option<Definition>>, d: Definition, ys: seq<Option<Definition>>)
    requires Truthy(e.word)
    ensures DefinitionResults(e, xs + [Some(d)] + ys)
            == DefinitionResults(e, xs) + [FromDefinition(e, d)] + DefinitionResults(e, ys)
  {
    DefinitionResultsAppend(e, xs + [Some(d)], ys);
    DefinitionResultsAppend(e, xs, [Some(d)]);
    var one: seq<Option<Definition>> := [Some(d)];
    assert DefinitionResults(e, one) == [FromDefinition(e, d)] by {
      assert one[..0] == [];
    }
  }

  /** Every result carries the entry's non-empty word and a non-empty level. */
  lemma {:induction false} ResultsWellFormed(entries: seq<Option<Entry>>)
    ensures forall r :: r in Flatten(entries) ==> r.word != "" && r.cefrLevel != ""
  {
    if |entries| > 0 {
      var init, last := entries[..|entries| - 1], entries[|entries| - 1];
      ResultsWellFormed(init);
      assert Flatten(entries) == Flatten(init) + EntryResults(last);
      if last.Some? && Truthy(last.value.word) && HasDefinitions(last.value) {
        DefinitionResultsWellFormed(last.value, last.value.definitions.value);
      }
    }
  }

  lemma {:induction false} DefinitionResultsWellFormed(e: Entry, defs: seq<Option<Definition>>)
    requires Truthy(e.word)
    ensures forall r :: r in DefinitionResults(e, defs) ==> r.word == e.word.value && r.cefrLevel != ""
  {
    if |defs| > 0 {
      DefinitionResultsWellFormed(e, defs[..|defs| - 1]);
    }
  }

  /** An entry without a word contributes nothing, wherever it stands. */
  lemma WordlessEntrySkipped(xs: seq<Option<Entry>>, e: Entry, ys: seq<Option<Entry>>)
    requires !Truthy(e.word)
    ensures Flatten(xs + [Some(e)] + ys) == Flatten(xs) + Flatten(ys)
  {
    FlatMapAppend(xs + [Some(e)], ys, EntryResults);
    FlatMapAppend(xs, [Some(e)], EntryResults);
    assert [Some(e)][..0] == [];
    assert EntryResults(Some(e)) == [];
  }

  /** A successful search returns at least one result, each with a word and a level. */
  lemma SearchSucceedsNonEmpty(query: string, fetch: string -> FetchOutcome)
    requires Search(query, fetch).Ok?
    ensures |Search(query, fetch).value| > 0
    ensures forall r :: r in Search(query, fetch).value ==> r.word != "" && r.cefrLevel != ""
    ensures Trim(query) != ""
  {
    var es := ReplyEntries(fetch(NormalizedQuery(query)).response).value;
    ResultsWellFormed(es);
  }

  /** A blank query is refused before any request, whatever the request would have produced. */
  lemma BlankQueryRefused(query: string, fetch: string -> FetchOutcome)
    requires IsBlank(query)
    ensures Search(query, fetch) == Err(EmptyQuery)
  {
  }

  /** Status 404 means "Word not found"; any other failed status is reported with its code and text. */
  lemma StatusErrors(r: Response)
    requires !r.ok
    ensures r.status == 404 ==> ReplyEntries(r) == Err(NotFound)
    ensures r.status != 404 ==> ReplyEntries(r) == Err("API error: " + NatToString(r.status) + " " + r.statusText)
  {
  }

  /** A single object is treated as a one-element array. */
  lemma SingleIsOneElementArray(ok: bool, status: nat, statusText: string, e: Entry)
    requires ok
    ensures ReplyEntries(Response(ok, status, statusText, Single(e))) == ReplyEntries(Response(ok, status, statusText, Many([Some(e)])))
  {
  }

  /** The query is requested trimmed and lower-cased, so surrounding spaces and case do not matter. */
  lemma QueryNormalized(query: string, fetch: string -> FetchOutcome)
    requires Trim(query) != ""
    ensures Search(query, fetch) == Search(Trim(query), fetch)
  {
    TrimIdempotent(query);
  }
}
