/**
 * The personal word list: saved dictionary entries keyed by the word itself, each with a
 * learning status and the time it was (last) added.
 */
module WordStore {
  import opened Wrappers

  datatype WordStatus = Learned | Learning | Planned

  /** The status a word is saved with when none is chosen. */
  const DefaultStatus: WordStatus := Planned

  /** Everything about an entry except its status and its timestamp. */
  datatype WordData = WordData(
    word: string, definition: string, examples: seq<string>, audioUrl: string,
    partOfSpeech: string, cefrLevel: string, phonic: string, paragraph: string)

  datatype PersonalWord = PersonalWord(data: WordData, status: WordStatus, addedAt: int)

  /** No two entries share a word. */
  predicate UniqueWords(words: seq<PersonalWord>) {
    forall i, j :: 0 <= i < j < |words| ==> words[i].data.word != words[j].data.word
  }

  predicate HasWord(words: seq<PersonalWord>, word: string) {
    exists i :: 0 <= i < |words| && words[i].data.word == word
  }

  /** The position of the first entry with the word, or the length when there is none. */
  function FirstIndex(words: seq<PersonalWord>, word: string): (i: nat)
    ensures i <= |words|
    ensures forall k :: 0 <= k < i ==> words[k].data.word != word
    ensures i < |words| ==> words[i].data.word == word
  {
    if |words| == 0 then 0
    else if words[0].data.word == word then 0
    else 1 + FirstIndex(words[1..], word)
  }

  /** `getWord`: the first entry with that word, if any. */
  function FindWord(words: seq<PersonalWord>, word: string): (r: Option<PersonalWord>)
    ensures r.None? <==> !HasWord(words, word)
    ensures r.Some? ==> r.value.data.word == word
    ensures r.Some? ==> exists i :: 0 <= i < |words| && words[i] == r.value
                                   && forall k :: 0 <= k < i ==> words[k].data.word != word
  {
    var i := FirstIndex(words, word);
    if i < |words| then Some(words[i]) else None
  }

  /** Every entry with the word replaced by the new data, status and time; the others kept. */
  function Replaced(words: seq<PersonalWord>, data: WordData, status: WordStatus, now: int): (r: seq<PersonalWord>)
    ensures |r| == |words|
    ensures forall i :: 0 <= i < |words| ==>
              r[i] == if words[i].data.word == data.word then PersonalWord(data, status, now) else words[i]
  {
    seq(|words|, i requires 0 <= i < |words| =>
      if words[i].data.word == data.word then PersonalWord(data, status, now) else words[i])
  }

  /** `addWord`: overwrite the entry for the word if there is one, otherwise append a new entry. */
  function Upserted(words: seq<PersonalWord>, data: WordData, status: WordStatus, now: int): (r: seq<PersonalWord>)
    ensures PersonalWord(data, status, now) in r
    ensures |r| == if HasWord(words, data.word) then |words| else |words| + 1
    ensures forall w :: w in words && w.data.word != data.word ==> w in r
    ensures forall w :: w in r ==> w == PersonalWord(data, status, now) || (w in words && w.data.word != data.word)
  {
    if FindWord(words, data.word).Some? then
      var r := Replaced(words, data, status, now);
      var i :| 0 <= i < |words| && words[i].data.word == data.word;
      assert r[i] == PersonalWord(data, status, now);
      assert forall w :: w in words && w.data.word != data.word ==> w in r by {
        forall w | w in words && w.data.word != data.word ensures w in r {
          var k :| 0 <= k < |words| && words[k] == w;
          assert r[k] == w;
        }
      }
      r
    else
      words + [PersonalWord(data, status, now)]
  }

  /** `removeWord`: the entries with a different word, in their order. */
  function Removed(words: seq<PersonalWord>, word: string): (r: seq<PersonalWord>)
    ensures |r| <= |words|
    ensures forall w :: w in r <==> w in words && w.data.word != word
  {
    if |words| == 0 then []
    else if words[0].data.word == word then Removed(words[1..], word)
    else [words[0]] + Removed(words[1..], word)
  }

  /** `updateWordStatus`: the status of every entry with the word set, nothing else touched. */
  function StatusUpdated(words: seq<PersonalWord>, word: string, status: WordStatus): (r: seq<PersonalWord>)
    ensures |r| == |words|
    ensures forall i :: 0 <= i < |words| ==> r[i].data == words[i].data && r[i].addedAt == words[i].addedAt
    ensures forall i :: 0 <= i < |words| ==>
              r[i].status == if words[i].data.word == word then status else words[i].status
  {
    seq(|words|, i requires 0 <= i < |words| =>
      if words[i].data.word == word then words[i].(status := status) else words[i])
  }

  /** `getWordsByStatus`: the entries with that status, in their order. */
  function WithStatus(words: seq<PersonalWord>, status: WordStatus): (r: seq<PersonalWord>)
    ensures |r| <= |words|
    ensures forall w :: w in r <==> w in words && w.status == status
  {
    if |words| == 0 then []
    else if words[0].status == status then [words[0]] + WithStatus(words[1..], status)
    else WithStatus(words[1..], status)
  }

  /** A new word is appended as exactly one entry at the end, the earlier entries untouched. */
  lemma UpsertNew(words: seq<PersonalWord>, data: WordData, status: WordStatus, now: int)
    requires !HasWord(words, data.word)
    ensures Upserted(words, data, status, now) == words + [PersonalWord(data, status, now)]
  {
  }

  /** A word already present keeps its place: the length is the same and only its entry changes. */
  lemma UpsertExisting(words: seq<PersonalWord>, data: WordData, status: WordStatus, now: int)
    requires HasWord(words, data.word)
    ensures var r := Upserted(words, data, status, now);
            |r| == |words|
            && forall i :: 0 <= i < |words| ==>
                 r[i] == if words[i].data.word == data.word then PersonalWord(data, status, now) else words[i]
  {
  }

  /** Adding keeps the words unique. */
  lemma UpsertKeepsUnique(words: seq<PersonalWord>, data: WordData, status: WordStatus, now: int)
    requires UniqueWords(words)
    ensures UniqueWords(Upserted(words, data, status, now))
  {
    var r := Upserted(words, data, status, now);
    if !HasWord(words, data.word) {
      forall i, j | 0 <= i < j < |r| ensures r[i].data.word != r[j].data.word {
        if j == |words| {
          assert r[i] == words[i];
        }
      }
    }
  }

  /** After adding, looking the word up gives the new entry. */
  lemma FindAfterUpsert(words: seq<PersonalWord>, data: WordData, status: WordStatus, now: int)
    ensures FindWord(Upserted(words, data, status, now), data.word) == Some(PersonalWord(data, status, now))
  {
    var r := Upserted(words, data, status, now);
    var found := FindWord(r, data.word);
    assert r[|r| - 1].data.word == data.word || HasWord(words, data.word);
    assert HasWord(r, data.word) by {
      if HasWord(words, data.word) {
        var i :| 0 <= i < |words| && words[i].data.word == data.word;
        assert r[i].data.word == data.word;
      } else {
        assert r[|words|].data.word == data.word;
      }
    }
    var i :| 0 <= i < |r| && r[i] == found.value && found.value.data.word == data.word;
    if HasWord(words, data.word) {
      assert r[i] == PersonalWord(data, status, now);
    }
  }

  /** Removal distributes over concatenation, so the remaining entries keep their order. */
  lemma {:induction false} RemovedAppend(xs: seq<PersonalWord>, ys: seq<PersonalWord>, word: string)
    ensures Removed(xs + ys, word) == Removed(xs, word) + Removed(ys, word)
  {
    if |xs| == 0 {
      assert xs + ys == ys;
    } else {
      var x, rest := xs[0], xs[1..];
      assert (xs + ys)[0] == x && (xs + ys)[1..] == rest + ys;
      RemovedAppend(rest, ys, word);
      var keep := if x.data.word == word then [] else [x];
      assert Removed(xs + ys, word) == keep + Removed(rest + ys, word);
      assert Removed(xs, word) == keep + Removed(rest, word);
      AppendAssoc(keep, Removed(rest, word), Removed(ys, word));
    }
  }

  lemma AppendAssoc<T>(a: seq<T>, b: seq<T>, c: seq<T>)
    ensures a + (b + c) == (a + b) + c
  {
  }

  /** After removal the word is gone. */
  lemma FindAfterRemove(words: seq<PersonalWord>, word: string)
    ensures FindWord(Removed(words, word), word).None?
  {
  }

  /** Removing a word that is not there changes nothing. */
  lemma {:induction false} RemoveAbsent(words: seq<PersonalWord>, word: string)
    requires !HasWord(words, word)
    ensures Removed(words, word) == words
  {
    if |words| > 0 {
      RemoveAbsent(words[1..], word);
    }
  }

  /** Removal keeps the words unique. */
  lemma {:induction false} RemovedKeepsUnique(words: seq<PersonalWord>, word: string)
    requires UniqueWords(words)
    ensures UniqueWords(Removed(words, word))
  {
    if |words| > 0 {
      RemovedKeepsUnique(words[1..], word);
      var rest := Removed(words[1..], word);
      if words[0].data.word != word {
        var r := [words[0]] + rest;
        forall i, j | 0 <= i < j < |r| ensures r[i].data.word != r[j].data.word {
          if i == 0 {
            assert r[j] in rest;
            assert r[j] in words[1..];
            var k :| 0 <= k < |words[1..]| && words[1..][k] == r[j];
            assert words[k + 1] == r[j];
          } else {
            assert r[i] == rest[i - 1] && r[j] == rest[j - 1];
          }
        }
      }
    }
  }

  /** Changing a status keeps the words, hence their uniqueness. */
  lemma StatusUpdateKeepsUnique(words: seq<PersonalWord>, word: string, status: WordStatus)
    requires UniqueWords(words)
    ensures UniqueWords(StatusUpdated(words, word, status))
  {
  }

  /** Changing the status of an absent word is a no-op. */
  lemma StatusUpdateAbsent(words: seq<PersonalWord>, word: string, status: WordStatus)
    requires !HasWord(words, word)
    ensures StatusUpdated(words, word, status) == words
  {
  }

  /** Filtering by status distributes over concatenation: stored order is kept. */
  lemma {:induction false} WithStatusAppend(xs: seq<PersonalWord>, ys: seq<PersonalWord>, status: WordStatus)
    ensures WithStatus(xs + ys, status) == WithStatus(xs, status) + WithStatus(ys, status)
  {
    if |xs| > 0 {
      assert (xs + ys)[1..] == xs[1..] + ys;
      WithStatusAppend(xs[1..], ys, status);
    } else {
      assert xs + ys == ys;
    }
  }

  /** Every entry is in exactly one status list: the three lists add up to the whole count. */
  lemma {:induction false} StatusCountsAddUp(words: seq<PersonalWord>)
    ensures |WithStatus(words, Learned)| + |WithStatus(words, Learning)| + |WithStatus(words, Planned)| == |words|
  {
    if |words| > 0 {
      StatusCountsAddUp(words[1..]);
    }
  }

  /** The store: the list of saved words, replaced as a whole by each action. */
  class WordList {
    var words: seq<PersonalWord>

    constructor()
      ensures words == []
    {
      words := [];
    }

    /** `addWord` with the clock reading `now`; without a status the word is planned. */
    method AddWord(data: WordData, status: WordStatus := DefaultStatus, now: int)
      modifies this
      ensures words == Upserted(old(words), data, status, now)
      ensures UniqueWords(old(words)) ==> UniqueWords(words)
    {
      if UniqueWords(words) {
        UpsertKeepsUnique(words, data, status, now);
      }
      var existing := FindWord(words, data.word);
      if existing.Some? {
        words := Replaced(words, data, status, now);
      } else {
        words := words + [PersonalWord(data, status, now)];
      }
    }

    method RemoveWord(word: string)
      modifies this
      ensures words == Removed(old(words), word)
      ensures UniqueWords(old(words)) ==> UniqueWords(words)
    {
      if UniqueWords(words) {
        RemovedKeepsUnique(words, word);
      }
      words := Removed(words, word);
    }

    method UpdateWordStatus(word: string, status: WordStatus)
      modifies this
      ensures words == StatusUpdated(old(words), word, status)
      ensures UniqueWords(old(words)) ==> UniqueWords(words)
    {
      words := StatusUpdated(words, word, status);
    }

    /** `getWord`: the entry for the word, present exactly when the word is saved. */
    function GetWord(word: string): (r: Option<PersonalWord>)
      reads this
      ensures r.Some? <==> HasWord(words, word)
      ensures r.Some? ==> r.value in words && r.value.data.word == word
    {
      FindWord(words, word)
    }

    /** `getWordsByStatus`: the saved entries with that status. */
    function GetWordsByStatus(status: WordStatus): (r: seq<PersonalWord>)
      reads this
      ensures forall w :: w in r <==> w in words && w.status == status
    {
      WithStatus(words, status)
    }

    /** `getWordsCount`: the number of saved words, which the three status lists add up to. */
    function GetWordsCount(): (n: nat)
      reads this
      ensures n == |GetWordsByStatus(Learned)| + |GetWordsByStatus(Learning)| + |GetWordsByStatus(Planned)|
    {
      StatusCountsAddUp(words);
      |words|
    }
  }
}
