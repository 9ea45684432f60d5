/**
 * The dictionary card: one search result or saved word, with a menu that saves it with a
 * status, changes the status of a saved word, or removes it from the personal word list.
 */
module DictionaryCard {
  import opened Wrappers
  import opened Text
  import opened Cefr
  import opened WordStore

  /** The Russian label shown for a status. */
  function StatusLabel(status: WordStatus): (r: string)
    ensures r != ""
  {
    match status
    case Learned => "Выучено"
    case Learning => "Учу"
    case Planned => "В планах"
  }

  /** The three labels are distinct, so the label tells the status. */
  lemma StatusLabelInjective(s: WordStatus, t: WordStatus)
    requires StatusLabel(s) == StatusLabel(t)
    ensures s == t
  {
  }

  const GreenClass := "bg-green-100 dark:bg-green-900/30 text-green-800 dark:text-green-300 border-green-300 dark:border-green-700"
  const BlueClass := "bg-blue-100 dark:bg-blue-900/30 text-blue-800 dark:text-blue-300 border-blue-300 dark:border-blue-700"
  const PurpleClass := "bg-purple-100 dark:bg-purple-900/30 text-purple-800 dark:text-purple-300 border-purple-300 dark:border-purple-700"

  /** The badge colour of a level: green for the A levels, blue for the B levels, purple for anything else. */
  function CefrColor(level: string): (r: string)
    ensures r == GreenClass || r == BlueClass || r == PurpleClass
  {
    if StartsWith(level, "A") then GreenClass
    else if StartsWith(level, "B") then BlueClass
    else PurpleClass
  }

  /** On the six level names the colour groups the levels by their letter. */
  lemma CefrColorOfLevels(l: CefrLevel)
    ensures CefrColor(Name(l)) == GreenClass <==> l == A1 || l == A2
    ensures CefrColor(Name(l)) == BlueClass <==> l == B1 || l == B2
    ensures CefrColor(Name(l)) == PurpleClass <==> l == C1 || l == C2
  {
    assert |GreenClass| != |BlueClass| && |GreenClass| != |PurpleClass| && |BlueClass| != |PurpleClass|;
    assert Name(l)[..1] == [Name(l)[0]];
  }

  /** The card's properties, as passed by the page that shows it. */
  datatype CardProps = CardProps(
    word: string, definition: string, cefrLevel: string, audioUrl: string, example: string,
    partOfSpeech: string, phonic: string, paragraph: string, examples: seq<string>)

  /** The examples saved with a word: the list when it is non-empty, otherwise the single example. */
  function CardExamples(examples: seq<string>, example: string): (r: seq<string>)
    ensures |r| >= 1
    ensures |examples| > 0 ==> r == examples
    ensures |examples| == 0 ==> r == [example]
  {
    if |examples| > 0 then examples else [example]
  }

  /** The entry data a card saves. */
  function CardData(p: CardProps): (d: WordData)
    ensures d.word == p.word && d.examples == CardExamples(p.examples, p.example)
    ensures d.definition == p.definition && d.cefrLevel == p.cefrLevel && d.audioUrl == p.audioUrl
    ensures d.partOfSpeech == p.partOfSpeech && d.phonic == p.phonic && d.paragraph == p.paragraph
  {
    WordData(p.word, p.definition, CardExamples(p.examples, p.example), p.audioUrl,
             p.partOfSpeech, p.cefrLevel, p.phonic, p.paragraph)
  }

  /** A menu entry: save or re-status with one of the three statuses, or remove. */
  datatype MenuAction = SetStatus(status: WordStatus) | Remove

  /** The menu: the three statuses in the order planned, learning, learned, and removal for a saved word only. */
  function MenuActions(saved: bool): (r: seq<MenuAction>)
    ensures Remove in r <==> saved
    ensures SetStatus(Planned) in r && SetStatus(Learning) in r && SetStatus(Learned) in r
  {
    var statuses := [SetStatus(Planned), SetStatus(Learning), SetStatus(Learned)];
    if saved then statuses + [Remove] else statuses
  }

  /** The word list after a status choice: a saved word only has its status changed, any other is added. */
  function AfterStatusChange(words: seq<PersonalWord>, data: WordData, status: WordStatus, now: int): seq<PersonalWord> {
    if FindWord(words, data.word).Some? then StatusUpdated(words, data.word, status)
    else Upserted(words, data, status, now)
  }

  /** After a status choice the word is saved, with the chosen status. */
  lemma StatusChangeSaves(words: seq<PersonalWord>, data: WordData, status: WordStatus, now: int)
    ensures var r := AfterStatusChange(words, data, status, now);
            FindWord(r, data.word).Some? && FindWord(r, data.word).value.status == status
  {
    if FindWord(words, data.word).Some? {
      var r := StatusUpdated(words, data.word, status);
      var i :| 0 <= i < |words| && words[i].data.word == data.word;
      assert r[i].data.word == data.word;
      var found := FindWord(r, data.word).value;
      var k :| 0 <= k < |r| && r[k] == found;
      assert words[k].data.word == data.word;
    } else {
      FindAfterUpsert(words, data, status, now);
    }
  }

  /** A status choice on a saved word never adds an entry and keeps every entry's data and time. */
  lemma StatusChangeOfSavedKeepsEntries(words: seq<PersonalWord>, data: WordData, status: WordStatus, now: int)
    requires HasWord(words, data.word)
    ensures var r := AfterStatusChange(words, data, status, now);
            |r| == |words| && forall i :: 0 <= i < |r| ==> r[i].data == words[i].data && r[i].addedAt == words[i].addedAt
  {
  }

  /** A status choice keeps the words unique. */
  lemma StatusChangeKeepsUnique(words: seq<PersonalWord>, data: WordData, status: WordStatus, now: int)
    requires UniqueWords(words)
    ensures UniqueWords(AfterStatusChange(words, data, status, now))
  {
    if FindWord(words, data.word).None? {
      UpsertKeepsUnique(words, data, status, now);
    }
  }

  class Card {
    const props: CardProps
    var showStatusMenu: bool

    constructor(p: CardProps)
      ensures props == p && !showStatusMenu
    {
      props := p;
      showStatusMenu := false;
    }

    /** Whether the card's word is in the list. */
    function Saved(store: WordList): bool
      reads store
    {
      store.GetWord(props.word).Some?
    }

    /** The button opens a closed menu and closes an open one. */
    method ToggleStatusMenu()
      modifies this
      ensures showStatusMenu == !old(showStatusMenu)
    {
      showStatusMenu := !showStatusMenu;
    }

    /** `handleAddToDictionary`: saves the card's data with the status (planned by default) and closes the menu. */
    method HandleAddToDictionary(store: WordList, status: WordStatus := DefaultStatus, now: int)
      modifies this, store
      ensures store.words == Upserted(old(store.words), CardData(props), status, now)
      ensures UniqueWords(old(store.words)) ==> UniqueWords(store.words)
      ensures !showStatusMenu
    {
      store.AddWord(CardData(props), status, now := now);
      showStatusMenu := false;
    }

    /** `handleStatusChange`: re-statuses a saved word, saves an unsaved one, and closes the menu. */
    method HandleStatusChange(store: WordList, status: WordStatus, now: int)
      modifies this, store
      ensures store.words == AfterStatusChange(old(store.words), CardData(props), status, now)
      ensures UniqueWords(old(store.words)) ==> UniqueWords(store.words)
      ensures !showStatusMenu
    {
      var savedWord := store.GetWord(props.word);
      if savedWord.Some? {
        store.UpdateWordStatus(props.word, status);
      } else {
        HandleAddToDictionary(store, status, now := now);
      }
      showStatusMenu := false;
    }

    /** A click on a menu entry, which must be one the menu shows. */
    method Choose(action: MenuAction, store: WordList, now: int)
      requires action in MenuActions(Saved(store))
      modifies this, store
      ensures action.SetStatus? ==> store.words == AfterStatusChange(old(store.words), CardData(props), action.status, now)
      ensures action.Remove? ==> old(Saved(store)) && store.words == Removed(old(store.words), props.word)
      ensures UniqueWords(old(store.words)) ==> UniqueWords(store.words)
      ensures !showStatusMenu
    {
      match action {
        case SetStatus(s) => HandleStatusChange(store, s, now);
        case Remove =>
          store.RemoveWord(props.word);
          showStatusMenu := false;
      }
    }
  }
}
