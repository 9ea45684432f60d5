/**
 * The dictionary page: a search form whose results and error are page state, a level filter
 * over the results, and a status-and-level filter over the saved words.
 */
module DictionaryPage {
  import opened Wrappers
  import opened Text
  import opened Cefr
  import opened WordStore
  import opened DictionaryApi

  const EnterWordMessage := "Please enter a word to search"

  /** A filter selection: `"All"` or one value. */
  datatype Filter<T> = All | Only(value: T)

  /** Whether a level string passes a level filter; the comparison is on the level's name. */
  predicate LevelMatches(f: Filter<CefrLevel>, level: string) {
    f.All? || level == Name(f.value)
  }

  predicate StatusMatches(f: Filter<WordStatus>, status: WordStatus) {
    f.All? || status == f.value
  }

  /** `filteredResults`: the results whose level passes the filter, in their order. */
  function FilteredResults(results: seq<DictionaryResult>, cefrFilter: Filter<CefrLevel>): (r: seq<DictionaryResult>)
    ensures |r| <= |results|
    ensures forall x :: x in r <==> x in results && LevelMatches(cefrFilter, x.cefrLevel)
  {
    if |results| == 0 then []
    else
      var rest := FilteredResults(results[1..], cefrFilter);
      if LevelMatches(cefrFilter, results[0].cefrLevel) then [results[0]] + rest else rest
  }

  /** `filteredPersonalWords`: the saved words passing both filters, in their order. */
  function FilteredPersonalWords(words: seq<PersonalWord>, statusFilter: Filter<WordStatus>, cefrFilter: Filter<CefrLevel>): (r: seq<PersonalWord>)
    ensures |r| <= |words|
    ensures forall w :: w in r <==> w in words && StatusMatches(statusFilter, w.status) && LevelMatches(cefrFilter, w.data.cefrLevel)
  {
    if |words| == 0 then []
    else
      var rest := FilteredPersonalWords(words[1..], statusFilter, cefrFilter);
      var w := words[0];
      if StatusMatches(statusFilter, w.status) && LevelMatches(cefrFilter, w.data.cefrLevel) then [w] + rest else rest
  }

  /** The filter "All" shows every result. */
  lemma {:induction false} AllResultsShown(results: seq<DictionaryResult>)
    ensures FilteredResults(results, All) == results
  {
    if |results| > 0 {
      AllResultsShown(results[1..]);
    }
  }

  /** Filtering results keeps their order: it distributes over concatenation. */
  lemma {:induction false} FilteredResultsAppend(xs: seq<DictionaryResult>, ys: seq<DictionaryResult>, f: Filter<CefrLevel>)
    ensures FilteredResults(xs + ys, f) == FilteredResults(xs, f) + FilteredResults(ys, f)
  {
    if |xs| > 0 {
      assert (xs + ys)[0] == xs[0];
      assert (xs + ys)[1..] == xs[1..] + ys;
      FilteredResultsAppend(xs[1..], ys, f);
    } else {
      assert xs + ys == ys;
    }
  }

  /** Filtering saved words keeps their order: it distributes over concatenation. */
  lemma {:induction false} FilteredWordsAppend(xs: seq<PersonalWord>, ys: seq<PersonalWord>, sf: Filter<WordStatus>, cf: Filter<CefrLevel>)
    ensures FilteredPersonalWords(xs + ys, sf, cf) == FilteredPersonalWords(xs, sf, cf) + FilteredPersonalWords(ys, sf, cf)
  {
    if |xs| > 0 {
      assert (xs + ys)[0] == xs[0];
      assert (xs + ys)[1..] == xs[1..] + ys;
      FilteredWordsAppend(xs[1..], ys, sf, cf);
      var w := xs[0];
      if StatusMatches(sf, w.status) && LevelMatches(cf, w.data.cefrLevel) {
        assert FilteredPersonalWords(xs + ys, sf, cf) == [w] + FilteredPersonalWords(xs[1..] + ys, sf, cf);
      }
    } else {
      assert xs + ys == ys;
    }
  }

  /** With only a status chosen, the saved-word filter is the store's by-status query. */
  lemma {:induction false} StatusOnlyIsByStatus(words: seq<PersonalWord>, s: WordStatus)
    ensures FilteredPersonalWords(words, Only(s), All) == WithStatus(words, s)
  {
    if |words| > 0 {
      StatusOnlyIsByStatus(words[1..], s);
    }
  }

  /** With both filters "All", every saved word is shown. */
  lemma {:induction false} AllWordsShown(words: seq<PersonalWord>)
    ensures FilteredPersonalWords(words, All, All) == words
  {
    if |words| > 0 {
      AllWordsShown(words[1..]);
    }
  }

  /** What the page shows after a search: the results and no error, or the error and no results. */
  predicate Shows(r: Result<seq<DictionaryResult>, string>, results: seq<DictionaryResult>, error: Option<string>) {
    match r
    case Ok(data) => results == data && error.None?
    case Err(m) => results == [] && error == Some(m)
  }

  class Page {
    var results: seq<DictionaryResult>
    var loading: bool
    var error: Option<string>
    var cefrFilter: Filter<CefrLevel>
    var statusFilter: Filter<WordStatus>

    constructor()
      ensures results == [] && !loading && error.None? && cefrFilter.All? && statusFilter.All?
    {
      results := [];
      loading := false;
      error := None;
      cefrFilter := All;
      statusFilter := All;
    }

    function ShownResults(): seq<DictionaryResult>
      reads this
    {
      FilteredResults(results, cefrFilter)
    }

    function ShownWords(store: WordList): seq<PersonalWord>
      reads this, store
    {
      FilteredPersonalWords(store.words, statusFilter, cefrFilter)
    }

    /**
     * `handleSearch` for the query typed in the form: a blank query (one that trims to nothing,
     * which `Trim`'s contract shows is exactly a query of white space) only sets the error;
     * otherwise the trimmed query is searched (which `QueryNormalized` shows is the search for
     * the query itself), and the page ends with either the results and no error or the error
     * and no results.
     */
    method HandleSearch(query: string, fetch: string -> FetchOutcome)
      modifies this
      ensures Trim(query) == "" ==> error == Some(EnterWordMessage) && results == old(results) && loading == old(loading)
      ensures Trim(query) != "" ==> !loading && Shows(Search(Trim(query), fetch), results, error)
      ensures Trim(query) != "" ==> (error.None? <==> |results| > 0)
      ensures cefrFilter == old(cefrFilter) && statusFilter == old(statusFilter)
    {
      var trimmed := Trim(query);
      if trimmed == "" {
        error := Some(EnterWordMessage);
        return;
      }
      RunSearch(trimmed, fetch);
    }

    /**
     * The part of `handleSearch` after the blank check, for the trimmed query: loading is set,
     * the error and results cleared, the search made, and its outcome shown.
     */
    method RunSearch(trimmed: string, fetch: string -> FetchOutcome)
      modifies this
      ensures !loading && Shows(Search(trimmed, fetch), results, error)
      ensures error.None? <==> |results| > 0
      ensures cefrFilter == old(cefrFilter) && statusFilter == old(statusFilter)
    {
      loading := true;
      error := None;
      results := [];
      var data := SearchWord(trimmed, fetch);
      if data.Ok? {
        SearchSucceedsNonEmpty(trimmed, fetch);
      }
      ShowOutcome(data);
    }

    /**
     * The end of `handleSearch`: the results are shown, with the "Word not found" error when
     * there are none, or the error and no results; loading ends.
     */
    method ShowOutcome(data: Result<seq<DictionaryResult>, string>)
      modifies this
      ensures !loading && (data.Err? || |data.value| > 0 ==> Shows(data, results, error))
      ensures data.Ok? && |data.value| == 0 ==> results == [] && error == Some(NotFound)
      ensures cefrFilter == old(cefrFilter) && statusFilter == old(statusFilter)
    {
      if data.Ok? {
        results := data.value;
        error := None;
        if |data.value| == 0 {
          error := Some(NotFound);
        }
      } else {
        error := Some(data.error);
        results := [];
      }
      loading := false;
    }
  }
}
