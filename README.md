# way-to-words: a Dafny model of its rules

way-to-words is a web application for learners of English. A user can:

- take a level test, whose answers are graded on the six-point CEFR scale (A1 lowest, C2 highest);
- look words up in an online dictionary;
- keep a personal word list with a learning status for each word;
- chat with a tutor bot about a chosen topic.

Most of the code is React, Firebase and HTTP plumbing. This project models the rules that plumbing runs, one
Dafny module per source file:

| module | source | what it models |
|---|---|---|
| `Cefr` | src/services/levelTestAPI.ts, src/pages/__tests__/LevelTest.test.ts | the six levels, their ranks and their names |
| `LevelAggregate` | src/pages/__tests__/LevelTest.test.ts | `calculateDominantLevel`: majority vote with a rounded-mean tie-break |
| `LevelTestSession` | src/pages/LevelTest.tsx | the test page: navigation, answers, submission |
| `LevelTestApi` | src/services/levelTestAPI.ts | the checks on the evaluation reply and the error rewriting |
| `WordStore` | src/store/wordStore.ts | the personal word list keyed by the word |
| `DictionaryCard` | src/components/DictionaryCard.tsx | saving, re-statusing and removing a word from a card |
| `DictionaryPage` | src/pages/Dictionary.tsx | the search form and the two filters |
| `DictionaryApi` | src/services/dictionaryAPI.ts | `searchWord`: query normalisation, status checks, flattening |
| `UserStore` | src/store/userStore.ts | the profile store and `mapFirebaseUser` |
| `Chat` | src/types/chat.ts | `formatMessage` and `formatMessages` |
| `ChatStore` | src/store/chatStore.ts | the conversation store |
| `ChatHistory` | src/utils/chatHistory.ts | per-user, per-topic histories in key-value storage |
| `ChatBot` | src/services/chatBotAPI.ts | the echo reply and its word-by-word streaming |
| `Server` | server/index.js | the prompts, reply cleanup, parsing and both endpoints |
| `Auth` | src/services/auth.ts | the error-code table and the rethrown errors |
| `Forms` | src/pages/Register.tsx, src/pages/Login.tsx | the form checks and the submit handlers |

Two shared modules support the rest:

- `Wrappers` holds `Option` and `Result`. They stand for `null`/`undefined` and for thrown errors.
- `Text` holds the JavaScript string operations the code relies on: `trim`, `startsWith`, `includes`, `split`,
  `join`, `toLowerCase` and decimal rendering.

Several things that vary from run to run are inputs to the operations instead:

- the clock, random ids and formatted times;
- the outcome of network requests and of the language model;
- `JSON.parse` and the regular expressions of the server's parser.

Pure rules are functions, with lemmas about them. State that the source updates in place is a class:

- the word list;
- the chat and profile stores;
- the key-value storage;
- the level-test, dictionary and card pages;
- the form pages.

The methods of these classes state their whole new state. Loops in the source are loops here too:

- the counting and the scan of `calculateDominantLevel`;
- the nested flattening loops of `searchWord`;
- the prompt building of `buildPrompt`;
- the key sweep of `clearAllChatHistory`;
- the chunk loop of `sendChatMessageStream`.

Each of these loops is proved equal to a function that specifies it.

## Model

| member | source | states |
|---|---|---|
| Cefr.Rank | src/pages/__tests__/LevelTest.test.ts:48-55 | a level's rank lies in 1..6, and the level stands at that position of the canonical order A1..C2 |
| Cefr.RankOfAllLevels | src/pages/__tests__/LevelTest.test.ts:23-30 | the i-th key of the level tables has rank i + 1 |
| Cefr.AllLevelsCover | src/pages/__tests__/LevelTest.test.ts:23-30 | every level is a key of the level tables |
| Cefr.RankInjective | src/pages/__tests__/LevelTest.test.ts:48-55 | distinct levels have distinct ranks |
| Cefr.FromRank | src/pages/__tests__/LevelTest.test.ts:67-69 | the lookup by rank finds a level exactly for 1..6, and the level found has that rank |
| Cefr.Parse | src/services/levelTestAPI.ts:66-67 | a string is accepted exactly when it is one of the six level names, and then gives that level |
| LevelAggregate.Frequencies | src/pages/__tests__/LevelTest.test.ts:23-34 | the frequency table has every level as a key, and each count is the number of evaluations at that level |
| LevelAggregate.MaxUpTo | src/pages/__tests__/LevelTest.test.ts:37-45 | the running maximum bounds every count scanned so far and is attained by one of them (0 before the scan) |
| LevelAggregate.FirstAt | src/pages/__tests__/LevelTest.test.ts:40-45 | the level kept is the first one in canonical order with that count, and there is one exactly when some scanned level has it |
| LevelAggregate.TiedMembers | src/pages/__tests__/LevelTest.test.ts:57-59 | the tied list holds exactly the levels whose count equals the maximum |
| LevelAggregate.CalculateDominantLevel | src/pages/__tests__/LevelTest.test.ts:19-74 | the counting loop and the strict-`>` scan compute `DominantLevel`: B1 for an empty list, else the first mode, or on a tie the level at the rounded mean rank |
| LevelAggregate.ScanStep | src/pages/__tests__/LevelTest.test.ts:40-45 | one scan step keeps the maximum and the first level attaining it, replacing both only on a strictly larger count |
| LevelAggregate.MaxIsPositive | src/pages/__tests__/LevelTest.test.ts:20-45 | a non-empty list has a maximum count above 0, so the scan always picks a level |
| LevelAggregate.CountsSumToLength | src/pages/__tests__/LevelTest.test.ts:32-34 | the counts add up to the length of the list: each evaluation is counted once |
| LevelAggregate.CountIsMultiplicity | src/pages/__tests__/LevelTest.test.ts:32-34 | the count of a level is its multiplicity in the multiset of grades |
| LevelAggregate.PermutationInvariant | src/pages/__tests__/LevelTest.test.ts:32-73 | two lists with the same multiset of grades give the same level, whatever their order |
| LevelAggregate.UniqueModeWins | src/pages/__tests__/LevelTest.test.ts:37-45 | a level counted strictly more often than every other is the result |
| LevelAggregate.ModeResult | src/pages/__tests__/LevelTest.test.ts:61-73 | when exactly one level has the maximal count, the result is counted strictly more often than every other level |
| LevelAggregate.FirstModeBeforeTieBreak | src/pages/__tests__/LevelTest.test.ts:40-45 | the level the scan keeps has the maximal count, and every level before it has a smaller one |
| LevelAggregate.RankSumBounds | src/pages/__tests__/LevelTest.test.ts:64 | the rank sum of k levels lies between k and 6k |
| LevelAggregate.RoundedMeanIsRank | src/pages/__tests__/LevelTest.test.ts:63-70 | the rounded mean rank of tied levels lies in 1..6, so the `\|\| dominantLevel` fallback is never taken |
| LevelAggregate.TieBreak | src/pages/__tests__/LevelTest.test.ts:57-70 | on a tie the result is the level whose rank is the round-half-up mean of the ranks of the tied levels only |
| LevelAggregate.TopTwo | src/pages/__tests__/LevelTest.test.ts:57-59 | two levels with equal counts above all others are the tied list, in rank order |
| LevelAggregate.TopThree | src/pages/__tests__/LevelTest.test.ts:57-59 | three levels with equal counts above all others are the tied list, in rank order |
| LevelAggregate.TwoWayTie | src/pages/__tests__/LevelTest.test.ts:57-70 | a two-way tie gives the level at the rounded mean of the two ranks |
| LevelAggregate.ThreeWayTie | src/pages/__tests__/LevelTest.test.ts:57-70 | a three-way tie gives the level at the rounded mean of the three ranks |
| LevelAggregate.SingleEvaluation | src/pages/__tests__/LevelTest.test.ts:93-99 | a single evaluation at level L gives L |
| LevelAggregate.Idempotent | src/pages/__tests__/LevelTest.test.ts:19-74 | aggregating the aggregate, as a one-element list, gives it back |
| LevelAggregate.MajorityExample | src/pages/__tests__/LevelTest.test.ts:82-91 | B1, B1, B2, A2 give B1 |
| LevelAggregate.UnanimousExample | src/pages/__tests__/LevelTest.test.ts:122-130 | B2, B2, B2 give B2 |
| LevelAggregate.AdjacentTieExample | src/pages/__tests__/LevelTest.test.ts:101-109 | B1, B2 give B2 (3.5 rounds up) |
| LevelAggregate.ThreeWayTieExample | src/pages/__tests__/LevelTest.test.ts:111-120 | A1, B1, C1 give B1 |
| LevelAggregate.ExtremesTieExample | src/pages/__tests__/LevelTest.test.ts:132-140 | A1, C2 give B2 |
| LevelTestSession.AnswerTexts | src/pages/LevelTest.tsx:142-143 | one text per question, in question order: the stored answer or the empty string |
| LevelTestSession.NonBlank | src/pages/LevelTest.tsx:144 | the kept texts are non-blank, every non-blank text is kept, and nothing else appears |
| LevelTestSession.NonBlankAppend | src/pages/LevelTest.tsx:142-145 | the filter distributes over concatenation, so the kept answers stay in question order |
| LevelTestSession.NonBlankKeepsAll | src/pages/LevelTest.tsx:144 | texts that are all non-blank are kept unchanged |
| LevelTestSession.JoinBlank | src/pages/LevelTest.tsx:145-147 | joining with a blank separator gives a blank text exactly when every part is blank |
| LevelTestSession.JoinNonBlankIsBlank | src/pages/LevelTest.tsx:142-147 | the joined non-blank texts are blank exactly when every text is blank |
| LevelTestSession.CombineAnswers | src/pages/LevelTest.tsx:142-147 | the text sent for evaluation (the non-blank answers joined by spaces) is blank exactly when no question has a non-blank answer |
| LevelTestSession.AllAnsweredCombined | src/pages/LevelTest.tsx:142-145 | when every question is answered, the combined text is all answers in order, joined by single spaces |
| LevelTestSession.SubmissionGuard | src/pages/LevelTest.tsx:147-151 | the guard stops a submission exactly when every answer is blank or missing |
| LevelTestSession.LevelTestPage.constructor | src/pages/LevelTest.tsx:54-59 | the page starts not started, on the first question, with no answers, no result and no evaluation running |
| LevelTestSession.LevelTestPage.StartTest | src/pages/LevelTest.tsx:89-94 | start: in progress, first question, no answers, an empty answer box |
| LevelTestSession.LevelTestPage.RestartTest | src/pages/LevelTest.tsx:169-175 | restart: not started, first question, no answers, an empty answer box and no result |
| LevelTestSession.LevelTestPage.VoiceText | src/pages/LevelTest.tsx:96-97 | dictated text is appended after one space to a non-empty answer, and otherwise becomes the answer |
| LevelTestSession.LevelTestPage.EditAnswer | src/pages/LevelTest.tsx:317 | typing replaces the current answer and nothing else |
| LevelTestSession.LevelTestPage.SaveCurrentAnswer | src/pages/LevelTest.tsx:80-87 | the current answer is stored under the shown question's id, and the other answers are kept |
| LevelTestSession.LevelTestPage.LoadSavedAnswer | src/pages/LevelTest.tsx:66-71 | while in progress the shown question's stored answer (or '') becomes the current answer, and otherwise nothing changes |
| LevelTestSession.LevelTestPage.PreviousQuestion | src/pages/LevelTest.tsx:129-135 | one question back with the box cleared, and nothing at the first question, so the index stays in range |
| LevelTestSession.LevelTestPage.ShowOutcome | src/pages/LevelTest.tsx:153-163 | a result moves to the results screen and sets a present user's level, and an error alerts and changes nothing else |
| LevelTestSession.LevelTestPage.SubmitTest | src/pages/LevelTest.tsx:137-167 | blank combined answers alert without a request, a result is shown and recorded, a failure alerts, and evaluation always ends |
| LevelTestSession.LevelTestPage.NextQuestion | src/pages/LevelTest.tsx:119-127 | on the last question it submits, with the blank-answers alert, the result and the user's new level, or the failure alert with the state kept; otherwise it moves one question on and clears the box |
| LevelTestApi.HttpErrorMessage | src/services/levelTestAPI.ts:52-57 | a failed status throws the server's message, or `HTTP error! status: N` when there is none |
| LevelTestApi.CheckResponse | src/services/levelTestAPI.ts:52-74 | a reply is accepted exactly when its status is ok and both fields are present with one of the six levels, and then gives exactly those fields; otherwise the first failed check decides the error: the HTTP error, the body's parse error, the missing-fields message, or `Invalid CEFR level: <level>` |
| LevelTestApi.Rewrite | src/services/levelTestAPI.ts:75-87 | a timeout and a failed `fetch` get the friendly messages, and any other error is rethrown unchanged |
| LevelTestApi.EvaluateAnswer | src/services/levelTestAPI.ts:38-89 | a result comes back exactly when a reply passes the checks, and it is that reply's level and explanation; a thrown error and a failed check reach the caller through the `catch` block's rewriting, a failed status as the rewritten HTTP error message |
| LevelTestApi.RewriteIdempotent | src/services/levelTestAPI.ts:75-87 | rewriting an already rewritten error changes nothing |
| LevelTestApi.AllLevelsAccepted | src/services/levelTestAPI.ts:66-74 | each of the six levels with an explanation is returned as is |
| LevelTestApi.MissingFieldsFirst | src/services/levelTestAPI.ts:61-63 | a missing level or explanation is reported before the level is looked at |
| LevelTestApi.InvalidLevelReported | src/services/levelTestAPI.ts:66-69 | a level outside the six is reported with the level in the message |
| LevelTestApi.HttpErrorNamed | src/services/levelTestAPI.ts:52-57 | without a server message, a failed status surfaces as `HTTP error! status: N` |
| LevelTestApi.TimeoutSurfaces | src/services/levelTestAPI.ts:77-79 | a timeout surfaces as the timeout message |
| LevelTestApi.ServerMessageSurfaces | src/services/__tests__/levelTestAPI.test.ts:51-61 | a failed status whose body carries a message (such as 'Internal server error') surfaces as that message |
| LevelTestApi.NetworkFailureSurfaces | src/services/__tests__/levelTestAPI.test.ts:63-69 | `TypeError: Failed to fetch` surfaces as the network-error message |
| WordStore.FirstIndex | src/store/wordStore.ts:36 | the position of the first entry with the word, or the length when there is none |
| WordStore.FindWord | src/store/wordStore.ts:75-77 | `getWord` finds an entry exactly when the word is present, and it is the first entry with that word |
| WordStore.Upserted | src/store/wordStore.ts:35-58 | the new entry is in the list, the length grows by one exactly for a new word, every entry with another word is kept, and nothing else appears |
| WordStore.Replaced | src/store/wordStore.ts:39-45 | every entry with the word gets the new data, status and time, and the others are kept in place |
| WordStore.Removed | src/store/wordStore.ts:61-65 | the entries kept are exactly those with a different word |
| WordStore.StatusUpdated | src/store/wordStore.ts:67-73 | only the status of entries with the word changes, and length, data and times are kept |
| WordStore.WithStatus | src/store/wordStore.ts:79-81 | `getWordsByStatus` gives exactly the entries with that status |
| WordStore.UpsertNew | src/store/wordStore.ts:46-57 | a new word is appended as one entry at the end, and the earlier entries are untouched |
| WordStore.UpsertExisting | src/store/wordStore.ts:36-45 | an existing word keeps its place, and only its entry changes |
| WordStore.UpsertKeepsUnique | src/store/wordStore.ts:35-58 | adding keeps the words unique |
| WordStore.FindAfterUpsert | src/store/wordStore.ts:35-58 | after adding, `getWord` gives the new entry |
| WordStore.RemovedAppend | src/store/wordStore.ts:63 | removal distributes over concatenation, so the remaining entries keep their order |
| WordStore.FindAfterRemove | src/store/wordStore.ts:61-65 | after removal the word is not found |
| WordStore.RemoveAbsent | src/store/wordStore.ts:61-65 | removing an absent word changes nothing |
| WordStore.RemovedKeepsUnique | src/store/wordStore.ts:61-65 | removal keeps the words unique |
| WordStore.StatusUpdateKeepsUnique | src/store/wordStore.ts:67-73 | a status change keeps the words unique |
| WordStore.StatusUpdateAbsent | src/store/wordStore.ts:67-73 | a status change for an absent word is a no-op |
| WordStore.WithStatusAppend | src/store/wordStore.ts:79-81 | the status filter distributes over concatenation, so stored order is kept |
| WordStore.StatusCountsAddUp | src/store/wordStore.ts:79-85 | the three status lists add up to the whole list |
| WordStore.WordList.constructor | src/store/wordStore.ts:33 | the list starts empty |
| WordStore.WordList.AddWord | src/store/wordStore.ts:35-59 | `addWord` replaces the list by the upsert with the status given, planned when none is, and keeps the words unique |
| WordStore.WordList.RemoveWord | src/store/wordStore.ts:61-65 | `removeWord` replaces the list by the removal and keeps the words unique |
| WordStore.WordList.UpdateWordStatus | src/store/wordStore.ts:67-73 | `updateWordStatus` replaces the list by the status update and keeps the words unique |
| WordStore.WordList.GetWord | src/store/wordStore.ts:75-77 | an entry is found exactly when the word is saved, and it is a saved entry with that word |
| WordStore.WordList.GetWordsByStatus | src/store/wordStore.ts:79-81 | exactly the saved entries with that status |
| WordStore.WordList.GetWordsCount | src/store/wordStore.ts:83-85 | the count is the sum of the sizes of the three status lists |
| DictionaryCard.StatusLabel | src/components/DictionaryCard.tsx:100-111 | each status has a non-empty Russian label |
| DictionaryCard.StatusLabelInjective | src/pages/Dictionary.tsx:63-74 | the three labels are distinct, so a label tells its status |
| DictionaryCard.CefrColor | src/components/DictionaryCard.tsx:113-121 | the badge colour is the green, the blue or the purple class |
| DictionaryCard.CefrColorOfLevels | src/components/DictionaryCard.tsx:113-121 | for the six level names: green exactly for the A levels, blue for the B levels, purple for the C levels |
| DictionaryCard.CardExamples | src/components/DictionaryCard.tsx:66 | the examples saved are the list when it is non-empty, and otherwise the single example |
| DictionaryCard.CardData | src/components/DictionaryCard.tsx:62-72 | the saved data is the card's word, definition, audio, part of speech, level, phonetics and paragraph, with those examples |
| DictionaryCard.MenuActions | src/components/DictionaryCard.tsx:237-256 | the menu offers the three statuses, and removal exactly for a saved word |
| DictionaryCard.StatusChangeSaves | src/components/DictionaryCard.tsx:78-85 | after a status choice the word is saved with the chosen status |
| DictionaryCard.StatusChangeOfSavedKeepsEntries | src/components/DictionaryCard.tsx:79-80 | a status choice on a saved word adds nothing and keeps every entry's data and time |
| DictionaryCard.StatusChangeKeepsUnique | src/components/DictionaryCard.tsx:78-85 | a status choice keeps the words unique |
| DictionaryCard.Card.constructor | src/components/DictionaryCard.tsx:19-32 | the card holds its properties and starts with the menu closed |
| DictionaryCard.Card.ToggleStatusMenu | src/components/DictionaryCard.tsx:227 | the button flips the menu |
| DictionaryCard.Card.HandleAddToDictionary | src/components/DictionaryCard.tsx:61-76 | the card's data is upserted with the status given, planned when none is, and the menu closes |
| DictionaryCard.Card.HandleStatusChange | src/components/DictionaryCard.tsx:78-85 | a saved word gets the new status, an unsaved one is added with it, and the menu closes |
| DictionaryCard.Card.Choose | src/components/DictionaryCard.tsx:237-256 | a status entry acts as above, removal is only offered for a saved word and removes it, and words stay unique |
| DictionaryPage.FilteredResults | src/pages/Dictionary.tsx:48-51 | a result is shown exactly when it is among the results and its level passes the filter |
| DictionaryPage.FilteredPersonalWords | src/pages/Dictionary.tsx:57-61 | a word is shown exactly when both the status and the level filters pass |
| DictionaryPage.AllResultsShown | src/pages/Dictionary.tsx:48-50 | with the filter "All", every result is shown |
| DictionaryPage.FilteredResultsAppend | src/pages/Dictionary.tsx:48-51 | the result filter distributes over concatenation, so order is kept |
| DictionaryPage.FilteredWordsAppend | src/pages/Dictionary.tsx:57-61 | the word filter distributes over concatenation, so order is kept |
| DictionaryPage.StatusOnlyIsByStatus | src/pages/Dictionary.tsx:57-61 | with only a status chosen, the word filter is the store's `getWordsByStatus` |
| DictionaryPage.AllWordsShown | src/pages/Dictionary.tsx:57-61 | with both filters "All", every saved word is shown |
| DictionaryPage.Page.constructor | src/pages/Dictionary.tsx:13-17 | the page starts with no results, no error, not loading and both filters "All" |
| DictionaryPage.Page.HandleSearch | src/pages/Dictionary.tsx:21-46 | a blank query only sets the prompt to enter a word, and any other query shows the search outcome for the trimmed query and ends loading |
| DictionaryPage.Page.RunSearch | src/pages/Dictionary.tsx:29-45 | the search outcome is shown and loading ends, with an error exactly when there are no results |
| DictionaryPage.Page.ShowOutcome | src/pages/Dictionary.tsx:35-44 | results are shown, an empty list with "Word not found", and a failure shows its message with no results |
| DictionaryApi.ExampleList | src/services/dictionaryAPI.ts:89 | the example becomes a one-element list exactly when it is truthy |
| DictionaryApi.EntryFallback | src/services/dictionaryAPI.ts:84-96 | an entry without definitions gives one result with its word; the definition falls back to the paragraph and then to 'No definition available', the part of speech to `partOfSpeech` and then 'unknown', the level to A1, and the other fields to '' |
| DictionaryApi.FromDefinition | src/services/dictionaryAPI.ts:100-112 | a definition's result carries the entry's word, audio, phonic and paragraph, the definition's text, part of speech and example (or ''), and its level or A1 |
| DictionaryApi.FallbackDefaults | src/services/dictionaryAPI.ts:84-96 | an entry with only a word gets 'unknown', A1, no examples, and the paragraph or 'No definition available' |
| DictionaryApi.DefinitionDefaults | src/services/dictionaryAPI.ts:100-112 | a definition with only a text keeps it, with an empty part of speech, level A1 and no examples |
| DictionaryApi.DefinitionResults | src/services/dictionaryAPI.ts:100-113 | a definition list yields at most one result per definition |
| DictionaryApi.FlattenEntries | src/services/dictionaryAPI.ts:73-114 | the nested push loops build exactly the flattening of the entries |
| DictionaryApi.SearchWord | src/services/dictionaryAPI.ts:34-127 | `searchWord` returns the outcome of `Search`: the empty-query error, the request's error, the status and payload errors, or the flattened results |
| DictionaryApi.HandleOutcome | src/services/dictionaryAPI.ts:42-126 | once the request is made, `searchWord` returns the outcome of `Outcome`: the thrown error's message or the generic failure, the status and payload errors, or the flattened results |
| DictionaryApi.FlatMapAppend | src/services/dictionaryAPI.ts:75-114 | flattening distributes over concatenation, so results follow the order of the entries |
| DictionaryApi.DefinitionCount | src/services/dictionaryAPI.ts:100-101 | an entry with definitions yields exactly one result per non-null definition |
| DictionaryApi.DefinitionsInOrder | src/services/dictionaryAPI.ts:100-113 | with no nulls, the k-th result comes from the k-th definition |
| DictionaryApi.DefinitionResultsAppend | src/services/dictionaryAPI.ts:99-112 | the results of two stretches of definitions are those of each, in order |
| DictionaryApi.NullDefinitionSkipped | src/services/dictionaryAPI.ts:99-100 | a null definition contributes nothing and leaves the results around it in order |
| DictionaryApi.PresentDefinitionKept | src/services/dictionaryAPI.ts:99-112 | a present definition yields its result in its own place among the others |
| DictionaryApi.ResultsWellFormed | src/services/dictionaryAPI.ts:77-113 | every result has a non-empty word and a non-empty level |
| DictionaryApi.DefinitionResultsWellFormed | src/services/dictionaryAPI.ts:100-113 | every result of a definition list carries the entry's word and a non-empty level |
| DictionaryApi.WordlessEntrySkipped | src/services/dictionaryAPI.ts:77-79 | an entry without a word contributes nothing, wherever it stands |
| DictionaryApi.SearchSucceedsNonEmpty | src/services/dictionaryAPI.ts:116-120 | a successful search has at least one result, each with a word and a level, for a non-blank query |
| DictionaryApi.BlankQueryRefused | src/services/dictionaryAPI.ts:35-37 | a blank query gives "Query cannot be empty" whatever the request would give |
| DictionaryApi.StatusErrors | src/services/dictionaryAPI.ts:51-56 | 404 gives "Word not found", and any other failed status gives `API error: <status> <text>` |
| DictionaryApi.SingleIsOneElementArray | src/services/dictionaryAPI.ts:66 | a single object is handled as a one-element array |
| DictionaryApi.QueryNormalized | src/services/dictionaryAPI.ts:39-40 | searching a query and searching its trimmed form are the same |
| UserStore.MergeStats | src/store/userStore.ts:48 | each supplied stat overwrites, and each other stat is kept |
| UserStore.MergeEmpty | src/store/userStore.ts:43-51 | an empty update changes no stat |
| UserStore.MergeIdempotent | src/store/userStore.ts:43-51 | the same update twice is the same update once |
| UserStore.MergeCompose | src/store/userStore.ts:43-51 | two updates are one update with the later fields winning |
| UserStore.MapAuthUser | src/store/userStore.ts:54-64 | a profile exists exactly for a present user with an email, with its uid and email, no level and zero stats |
| UserStore.UserState.constructor | src/store/userStore.ts:35-36 | the store starts with no user and loading |
| UserStore.UserState.SetUser | src/store/userStore.ts:37 | `setUser` sets the user only |
| UserStore.UserState.SetLoading | src/store/userStore.ts:38 | `setLoading` sets the flag only |
| UserStore.UserState.UpdateCefrLevel | src/store/userStore.ts:39-42 | only a present user's level changes, and a missing user stays missing |
| UserStore.UserState.UpdateStats | src/store/userStore.ts:43-51 | only a present user's stats are merged, and a missing user stays missing |
| Chat.FormatMessage | src/types/chat.ts:17-31 | author, text and time are kept, and the id is the supplied one when non-empty, else clock-dash-random |
| Chat.FormatMessages | src/types/chat.ts:36-42 | same length, with the i-th author and text, the id built from the clock and the index |
| Chat.FormatAt | src/types/chat.ts:39-41 | the i-th message keeps the i-th author and text, and its id is the clock reading and the index |
| Chat.FirstDashAfter | src/types/chat.ts:40 | the first dash of a dash-free prefix followed by a dash is at the prefix's end |
| Chat.DigitsHaveNoDash | src/types/chat.ts:40 | a decimal number has no dash |
| Chat.StampedIdParts | src/types/chat.ts:40 | a clock-dash-suffix id determines both the clock reading and the suffix |
| Chat.FormattedIdsDistinct | src/types/chat.ts:36-42 | the ids of one `formatMessages` call are pairwise distinct, whatever the clock readings |
| ChatStore.Transcript | src/store/chatStore.ts:8 | the authors and texts of the conversation, in order |
| ChatStore.ChatState.constructor | src/store/chatStore.ts:16-25 | the store starts with the greeting alone and no topic |
| ChatStore.ChatState.AddUserMessage | src/store/chatStore.ts:27-32 | one user message is appended at the end, and the earlier messages and the topic stay |
| ChatStore.ChatState.AddBotMessage | src/store/chatStore.ts:34-39 | one bot message is appended at the end, and the earlier messages and the topic stay |
| ChatStore.ChatState.SetTopic | src/store/chatStore.ts:41-43 | the topic becomes the given one (possibly none), and the messages stay |
| ChatStore.ChatState.ClearChat | src/store/chatStore.ts:45-50 | back to the greeting alone and no topic, whatever came before |
| ChatHistory.TopicKey | src/utils/chatHistory.ts:18 | the topic part is non-empty and has no underscore |
| ChatHistory.TopicKeyInjective | src/components/ChatTopicSelector.tsx:1 | the five topics and "general" give six distinct topic parts |
| ChatHistory.HistoryKey | src/utils/chatHistory.ts:17-20 | the key is the user's prefix `chat_<user>_` followed by the topic part |
| ChatHistory.HistoryKeysDistinct | src/utils/chatHistory.ts:17-20 | for one user, different topics have different keys |
| ChatHistory.Load | src/utils/chatHistory.ts:52-70 | the messages saved under the key, and nothing when the key is absent or holds no history |
| ChatHistory.LoadChatHistory | src/utils/chatHistory.ts:52-70 | the messages stored under the user's key for the topic, present exactly when a history is stored there |
| ChatHistory.WithoutPrefix | src/utils/chatHistory.ts:90-103 | exactly the keys that do not start with the prefix are kept, with their values |
| ChatHistory.LoadAfterSave | src/utils/chatHistory.ts:28-66 | a saved history loads back |
| ChatHistory.SaveKeepsOtherTopics | src/utils/chatHistory.ts:28-44 | saving one topic leaves the user's other topics as they were |
| ChatHistory.LoadAbsent | src/utils/chatHistory.ts:59-62 | an absent key, or one holding no history, loads as nothing |
| ChatHistory.ClearAllForgetsUser | src/utils/chatHistory.ts:90-103 | after clearing all, nothing loads for the user, whatever the topic |
| ChatHistory.UnderscorePrefix | src/utils/chatHistory.ts:93-96 | an id, an underscore and an underscore-free tail start with `b_` only when the id is `b` or starts with `b_` |
| ChatHistory.KeyUnderPrefix | src/utils/chatHistory.ts:93-96 | another user's key starts with the prefix exactly when that user's id equals the id or starts with it and an underscore |
| ChatHistory.PrefixedUnderPrefix | src/utils/chatHistory.ts:93-96 | the same, for any topic part without an underscore |
| ChatHistory.ClearAllOtherUsers | src/utils/chatHistory.ts:90-103 | clearing all for one user also clears exactly those users whose id starts with it and an underscore, and keeps every other user's history |
| ChatHistory.LocalStorage.constructor | src/utils/chatHistory.ts:92 | the storage holds the given contents |
| ChatHistory.SaveChatHistory | src/utils/chatHistory.ts:28-44 | the history is stored under the key, replacing what was there, and loads back |
| ChatHistory.ClearChatHistory | src/utils/chatHistory.ts:77-84 | exactly that key is removed, and every other key stays |
| ChatHistory.ClearAllChatHistory | src/utils/chatHistory.ts:90-103 | the sweep over the keys removes exactly those starting with the user's prefix |
| ChatBot.SendChatMessage | src/services/chatBotAPI.ts:29-51 | no topic gives the prompt to pick one, and otherwise the echo of message and topic, naming the level exactly when one is given |
| ChatBot.ReplyIgnoresHistory | src/services/chatBotAPI.ts:34-39 | the reply does not depend on the history |
| ChatBot.Concat | src/services/chatBotAPI.ts:61 | what a listener appending every chunk holds |
| ChatBot.JoinStep | src/services/chatBotAPI.ts:67-70 | joining from word i on is chunk i followed by the join of the rest |
| ChatBot.ConcatStep | src/services/chatBotAPI.ts:70 | one more chunk extends what the listener holds by that chunk |
| ChatBot.SendChatMessageStream | src/services/chatBotAPI.ts:59-71 | one chunk per piece of the split, all but the last with a space appended, and together they make the full reply |
| ChatBot.EmitWords | src/services/chatBotAPI.ts:68-71 | the chunk loop emits chunk k for word k, and the chunks concatenate to the words joined by spaces |
| Server.Role | server/index.js:54 | 'Student' exactly for the author 'user', and 'Tutor' otherwise |
| Server.Recent | server/index.js:51 | the last five messages, or all when fewer, as a suffix of the history |
| Server.HistorySection | server/index.js:50-58 | the history section is empty exactly when the history is missing or empty, and otherwise is titled and ends with a blank line (two newlines) |
| Server.LinesEndInNewline | server/index.js:53-56 | each history line, hence a non-empty run of them, ends with a newline |
| Server.BuildPrompt | server/index.js:42-64 | the appending loop builds the chat prompt: header with defaults, recent history, the student's message |
| Server.LinesStep | server/index.js:53-56 | one more history line appended to the prompt |
| Server.SectionAppended | server/index.js:50-58 | the title, the recent lines and a blank line make up the history section |
| Server.ChatPromptShape | server/index.js:43-61 | the prompt opens with the header for the level and topic (A1 and 'general conversation' by default) and ends with `Student: <message>\nTutor:` |
| Server.PromptEndsWithMarker | server/index.js:61 | every chat prompt ends with the `Tutor:` cue |
| Server.ClosingEndsWithMarker | server/index.js:61 | the closing line of a prompt ends with the `Tutor:` cue |
| Server.LinesAppend | server/index.js:53-56 | history lines distribute over concatenation, so they follow the history's order |
| Server.OlderHistoryDropped | server/index.js:51 | messages before the last five leave no trace |
| Server.BuildEvaluationPrompt | server/index.js:128-135 | the answer appears verbatim between the fixed header and trailer |
| Server.EvaluationPromptInjective | server/index.js:128-135 | different answers give different prompts |
| Server.ParseEvaluationResponse | server/index.js:80-121 | the result always has a level and an explanation; a complete direct parse wins; otherwise a complete object naming both keys wins, and one whose parse throws gives the fallback; otherwise a complete object found by the second pattern wins; otherwise the fallback |
| Server.NothingParsedFallsBack | server/index.js:116-120 | when nothing parses to a complete object, the fallback is returned |
| Server.CleanReply | server/index.js:165-167 | with the marker present, the trimmed text after its last occurrence, which holds no marker, and otherwise the text unchanged |
| Server.TrimmedLastPiece | server/index.js:166 | the trimmed last piece follows an occurrence after which there is none, and holds none itself |
| Server.LastPieceFollowsOccurrence | server/index.js:166 | the last piece of a reply is everything after an occurrence of the marker with none after it |
| Server.ModelText | server/index.js:161-181 | a reply is used exactly when the call succeeded and its cleaned text is not blank |
| Server.Evaluate | server/index.js:138-207 | a 400 exactly without a non-empty answer string, and otherwise a level among the six with a non-empty explanation, the fallback when the model gives nothing, and otherwise the level check of the parsed cleaned reply |
| Server.Checked | server/index.js:186-199 | a level among the six is kept with its explanation (or the default), and any other level gives the fallback pair |
| Server.EvaluateReturnsParsed | server/index.js:184-199 | a reply parsing to a valid level and explanation is returned exactly |
| Server.EvaluateUsesEmbeddedObject | server/index.js:91-101 | a reply that is not itself a complete object but embeds one naming both keys is answered with that object's valid level and explanation |
| Server.EmbeddedLevelKept | server/index.js:91-101 | such an embedded object with a valid level passes the level check unchanged |
| Server.ParsedLevelKept | server/index.js:184-199 | a complete direct parse with a valid level passes the check unchanged |
| Server.EvaluateRejectsUnknownLevel | server/index.js:187-192 | a parsed level outside the six becomes B1 with the fallback explanation |
| Server.Chat | server/index.js:210-265 | a 400 exactly without a non-empty message string; otherwise the cleaned model reply, or the apology when the call fails or the cleaned reply is blank |
| Server.NoOverlappingMarker | server/index.js:239-241 | two occurrences of 'Tutor:' never overlap |
| Server.LastMarkerUnique | server/index.js:239-241 | only one occurrence of 'Tutor:' has none after it |
| Server.CleanReplyAfterLastMarker | server/index.js:239-241 | a reply `pre + 'Tutor:' + post` with no marker in `post` is cleaned to `post` trimmed, whatever `pre` holds |
| Server.ChatRepliesAfterMarker | server/index.js:236-256 | the chat endpoint answers such a reply with `post` trimmed when it is not blank |
| Server.ChatReplyExample | server/index.js:236-256 | a model reply echoing the prompt followed by ' Hi' is answered with 'Hi' |
| Text.OrElse | src/services/dictionaryAPI.ts:88 | `s \|\| fallback`: the value when it is truthy, else the fallback |
| Text.Trim | src/pages/Dictionary.tsx:24 | the trimmed string is a slice of the string with only white space before and after it; it is empty exactly for a blank string, and otherwise neither starts nor ends with white space |
| Text.TrimMiddle | src/pages/Dictionary.tsx:24 | what `trim` keeps is a slice with only white space around it |
| Text.TrimIdempotent | src/services/dictionaryAPI.ts:34-39 | trimming twice is trimming once |
| Text.Split | src/services/chatBotAPI.ts:67 | at least one piece, none holding the separator |
| Text.JoinSplit | src/services/chatBotAPI.ts:67-70 | joining the pieces of a split with the separator gives the string back |
| Text.LastPieceHasNoSep | server/index.js:166 | the last piece of a split holds no separator |
| Text.LastPieceWhole | server/index.js:165-167 | without the separator the last piece is the whole string |
| Text.LastPieceAfterOccurrence | server/index.js:166 | with the separator, the last piece follows directly on an occurrence |
| Text.TrimContains | server/index.js:166 | trimming never creates an occurrence |
| Text.ToLower | src/services/dictionaryAPI.ts:39 | lower-casing keeps the length and maps each character |
| Text.NatToStringInjective | src/types/chat.ts:40 | distinct numbers are written as distinct decimal strings |
| Auth.ListedCodeSet | src/services/auth.ts:20-38 | exactly the codes of the table |
| Auth.ErrorMessage | src/services/auth.ts:19-42 | every error maps to a non-empty message |
| Auth.ListedCodes | src/services/auth.ts:20-38 | each of the nine listed codes maps to its fixed message, whatever the error's own message |
| Auth.UnlistedCodes | src/services/auth.ts:39-40 | any other code maps to the error's own message when non-empty, else to "Произошла ошибка" |
| Auth.Rethrown | src/services/auth.ts:48-58 | a failed call is rethrown with its code and the mapped message, and a successful one throws nothing |
| Auth.ErrorMessageIdempotent | src/services/auth.ts:52-56 | mapping the message of a rethrown error again changes nothing |
| Forms.ValidateLogin | src/pages/Login.tsx:12-30 | valid exactly when every check passes, and the first failed check decides the message |
| Forms.ValidateRegister | src/pages/Register.tsx:13-35 | valid exactly when every check passes, the confirmation included |
| Forms.RegisterExtendsLogin | src/pages/Register.tsx:13-35 | registration makes the login checks in the same order and adds the confirmation last |
| Forms.FormPage.constructor | src/pages/Register.tsx:9-10 | the page starts with no error and not loading |
| Forms.FormPage.Submit | src/pages/Register.tsx:37-55 | the error is cleared, a failed check shows its message without a call, and a call navigates or shows the service's message |
| Forms.FormPage.SubmitRegister | src/pages/Register.tsx:37-55 | `register` is called exactly when the registration checks pass |
| Forms.FormPage.SubmitLogin | src/pages/Login.tsx:32-50 | `login` is called exactly when the login checks pass |

## Left out

- Network, Firebase and speech: `fetch` and its timeout race, the Hugging Face client, the Firebase SDK calls and the
  Web Speech API are not modelled. Their results are parameters: a fetch outcome, a model outcome, or an
  authentication error.
- The clock, `Math.random` and `toLocaleTimeString` are parameters (`now`, `random`, `time`). The
  artificial delays of the chat bot and of streaming are dropped.
- React effect timing is not modelled. The two `useEffect` hooks of the level-test page are the separate methods
  `LoadSavedAnswer` and `SaveCurrentAnswer`, which a caller invokes when the effects would fire. Focus calls and
  rendering are left out.
- `JSON.parse` and the two regular expressions of the server's parser are parameters. So is the decoding of the
  dictionary reply, which arrives as an already decoded `Payload`. JSON values that are neither strings nor absent
  (numbers, objects in a string field) are not distinguished from absent ones, except in a request's `answer` or `message`.
- The server's timestamps, its 500 paths, the Express setup and logging are left out. The evaluation endpoint's
  'No explanation provided' default is modelled, but it is unreachable, because a parsed object always has an explanation.
- Server.Evaluate: the fallback when the model call throws is the same fallback as an empty reply. The model
  does not separate the two causes.
- Persistence of the stores is left out, and the stores are plain state. Chat-history serialisation is treated as a
  round trip, and storage exceptions are not modelled because the source catches and logs them all.
  Anything in storage that is not a saved history is `Other`.
- ChatHistory.ClearAllChatHistory: it also removes the histories of users whose id starts with the given id and
  an underscore, as the prefix test in the source does. `ClearAllOtherUsers` states exactly which users.
- DictionaryPage.Page.HandleSearch: takes the typed query as a parameter instead of reading a `query` field. Its
  contract tests `Trim(query) == ""`, which `Trim`'s contract shows is the same as a blank query.
- DictionaryPage.Page.ShowOutcome: the "Word not found" branch for an empty successful search is modelled, but
  `SearchSucceedsNonEmpty` shows it is never taken. The "Failed to search word" message is not modelled,
  because `searchWord` only throws `Error` values.
- Forms.ValidateLogin: password length counts characters, not the UTF-16 code units that JavaScript's `length`
  counts. The same holds for Forms.ValidateRegister.
- Text.ToLower: lower-cases only the ASCII letters, while `toLowerCase` also maps other alphabets.
- `evaluateMultipleAnswers` in src/services/levelTestAPI.ts is not modelled: it returns a random level after a delay.
- The profile page's charts, the page shells, routing and theme toggling have no rule to model.
