# Vocabulary trainer core, modelled in Dafny

This project models the logic of a client-side English vocabulary trainer:

- the record types and closed enumerations it works with (difficulty levels 1–5, the
  twelve part-of-speech tags, the three test types, session types and review modes);
- its validators and string cleaners (`validateWord`, `validateWordSet`,
  `validateStudyPreferences`, `sanitizeString`, `sanitizeWord`, `isValidEmail`,
  `isValidTimeFormat`, `validateSearchQuery`, `cleanWordData`);
- the vocabulary service: word search with query and filters, drawing random words,
  ranking popular tags, and adding a custom word;
- the four Redux slices: the study session cursor, the test runner, the user profile and
  the vocabulary view state, each as a class whose reducers are methods;
- the built-in sample words and word sets with their three lookups.

Files, one module each: `wrappers.dfy` (`Option`), `seqs.dfy` (`Array.prototype.filter`
and facts about subsequences and permutations), `js_string.dfy` (the JavaScript string
operations the code relies on: `trim`, `toLowerCase`, `includes`, `replace(/\s+/g, ' ')`,
decimal formatting of a number), `types.dfy`, `validation.dfy`,
`vocabulary_service.dfy`, `study_slice.dfy`, `test_slice.dfy`, `user_slice.dfy`,
`vocabulary_slice.dfy`, `sample_words.dfy`.

Conventions:

- An absent field of a `Partial<…>` record is modelled by its empty value (`""`, `[]`,
  `0` or `None`); every validator and `cleanWordData` treats absent and empty alike, as
  JavaScript truthiness does.
- `Word.difficulty`, `WordSet.difficulty`, `Definition.partOfSpeech` and
  `StudyPreferences.reviewMode` keep their run-time representation (`int` or `string`),
  so the validators can reject values outside the enumerations; the enumerations are
  datatypes with decoding functions.
- The store's word collection is a `seq<Word>` in the order the store lists it; its
  `search(fn)` is the whole list filtered by `fn`.
- Clock readings (`Date.now()`, `new Date()`) are `Time` parameters; the random draws of
  the shuffle are a parameter `draws`, one per position.

## Model

| member | source | states |
|---|---|---|
| Types.DifficultyFromValue | src/types/index.ts:86-94 | a number decodes to a difficulty level exactly when it lies in 1..5, and the level's value is that number |
| Types.DifficultyIsClosed | src/types/index.ts:86-94 | the levels are BEGINNER..EXPERT with values 1..5 in order, and decoding a level's value gives the level back |
| Types.TestTypeFromTag | src/types/index.ts:96-102 | a decoded test type carries exactly the decoded tag |
| Types.TestTypeIsClosed | src/types/index.ts:96-102 | there are exactly three distinct test type tags, each decoding back to its type, and nothing else decodes |
| Types.PartOfSpeechFromTag | src/types/index.ts:105-120 | a decoded part of speech carries exactly the decoded tag |
| Types.PartOfSpeechIsClosed | src/types/index.ts:105-120 | there are exactly twelve distinct part-of-speech tags, each decoding back, and nothing else decodes |
| Types.ReviewModeFromTag | src/types/index.ts:125 | a decoded review mode carries exactly the decoded tag |
| Types.SessionTypeAndReviewModeAreClosed | src/types/index.ts:56 | a session type is one of study/review/test, distinct types have distinct tags, and a review mode decodes exactly from spaced or random |
| JsString.TrimStart | src/utils/validationUtils.ts:48 | the first half of `trim`: the result is a suffix of the input that does not start with white space, and all it drops is white space |
| JsString.TrimEnd | src/utils/validationUtils.ts:48 | the second half of `trim`: the result is a prefix of the input that does not end with white space, and all it drops is white space |
| JsString.Trim | src/utils/validationUtils.ts:48 | `trim` is no longer than its input, leaves no white space at either end, and yields the empty string exactly for all-white-space input |
| JsString.TrimRemovesOnlyEnds | src/utils/validationUtils.ts:48 | `trim` removes white space at the two ends only: its result is a contiguous stretch of the input with nothing but white space before and after it |
| JsString.ToLowerCase | src/utils/validationUtils.ts:52 | lower-casing keeps the length and the white space, turns each upper-case ASCII letter into the letter 32 code points higher (its lower-case form), and changes no other character |
| JsString.CollapseWhitespace | src/utils/validationUtils.ts:48 | `replace(/\s+/g, ' ')` is no longer than its input, leaves every white-space run as one space, and keeps white space or not at the front and the last non-white character |
| JsString.WordsOfCollapse | src/utils/validationUtils.ts:48 | collapsing white space keeps the words (the maximal runs of non-white characters), in order: no run vanishes and no two runs merge |
| JsString.WordsOfTrim | src/utils/validationUtils.ts:48 | trimming keeps the words, in order |
| JsString.Includes | src/services/vocabularyService.ts:43-45 | `includes` as a test; IncludesIffOccurs states what it accepts |
| JsString.IncludesIffOccurs | src/services/vocabularyService.ts:43-45 | `includes` holds exactly when the needle occurs at some position of the haystack |
| JsString.NatToString | src/services/vocabularyService.ts:124 | the decimal form of a number is a non-empty string of digits |
| JsString.ParseNatToString | src/services/vocabularyService.ts:124 | reading back the decimal digits of a number gives the number |
| Validation.ValidateDefinition | src/utils/validationUtils.ts:17-19 | a definition passes when it has a part of speech and a meaning; ValidateWordExactly states it inside `validateWord` |
| Validation.ValidateExample | src/utils/validationUtils.ts:21-23 | an example passes when it has a sentence and a translation; CleanExampleValidity states it after cleaning |
| Validation.ValidateWord | src/utils/validationUtils.ts:5-19 | `validateWord` as a test; ValidateWordExactly and ValidateWordNeedsDefinitions state what it accepts |
| Validation.ValidateWordExactly | src/utils/validationUtils.ts:5-19 | a word is valid exactly when id, headword and pronunciation are non-empty, it has a definition, and every definition has a part of speech and a meaning |
| Validation.ValidateWordNeedsDefinitions | src/utils/validationUtils.ts:10-14 | a word without definitions is invalid; one with non-empty key fields and a single valid definition is valid |
| Validation.ValidateWordSet | src/utils/validationUtils.ts:25-33 | `validateWordSet` as a test; ValidateWordSetExactly states what it accepts |
| Validation.ValidateWordSetExactly | src/utils/validationUtils.ts:25-33 | a word set is valid exactly when id, name and description are non-empty and its difficulty decodes to a level |
| Validation.ValidateStudyPreferences | src/utils/validationUtils.ts:35-45 | `validateStudyPreferences` as a test; ValidateStudyPreferencesExactly states what it accepts |
| Validation.ValidateStudyPreferencesExactly | src/utils/validationUtils.ts:35-45 | preferences are valid exactly when the daily goal lies in 1..100 and the review mode decodes; no other field matters |
| Validation.IsValidDifficulty | src/utils/validationUtils.ts:68-70 | `isValidDifficulty` as a test; MembershipIsDecoding states what it accepts |
| Validation.IsValidPartOfSpeech | src/utils/validationUtils.ts:72-74 | `isValidPartOfSpeech` as a test; MembershipIsDecoding states what it accepts |
| Validation.MembershipIsDecoding | src/utils/validationUtils.ts:68-74 | the difficulty and part-of-speech membership tests accept exactly the values that decode to an enumeration member |
| Validation.SanitizeString | src/utils/validationUtils.ts:47-49 | the result has no white space at either end and every white-space run is a single space |
| Validation.SanitizeStringKeepsWords | src/utils/validationUtils.ts:47-49 | sanitizing keeps the words in order: each inner white-space run becomes one space and does not disappear |
| Validation.SanitizeStringIdempotent | src/utils/validationUtils.ts:47-49 | sanitizing twice is sanitizing once |
| Validation.SanitizeStringShape | src/utils/validationUtils.ts:47-49 | the result starts and ends with a non-white character, and each of its white-space characters is a space followed by a non-white character |
| Validation.SanitizeStringKeepsText | src/utils/validationUtils.ts:47-49 | the characters other than white space are the same in the result as in the input, in the same order |
| Validation.SanitizeStringEmpty | src/utils/validationUtils.ts:47-49 | sanitizing gives the empty string exactly for all-white-space input |
| Validation.SanitizeWord | src/utils/validationUtils.ts:51-53 | the result holds only lower-case ASCII letters, white space, `-` and `'`; each character of `[a-zA-Z\s-']` occurs in it exactly as often as in the trimmed lower-cased input, and no other character occurs; and it is a subsequence of that input, so it is that input with the other characters deleted |
| Validation.SanitizeWordOfPlain | src/utils/validationUtils.ts:51-53 | on a trimmed string without capital letters, `sanitizeWord` only deletes the characters outside `[a-zA-Z\s-']` |
| Validation.SanitizeWordNotIdempotent | src/utils/validationUtils.ts:51-53 | deletion after trimming can expose white space: `"1 a"` cleans to `" a"`, which cleans to `"a"` |
| Validation.IsValidEmail | src/utils/validationUtils.ts:55-58 | `isValidEmail` as a test; IsValidEmailIffPattern states what it accepts |
| Validation.IsValidEmailIffPattern | src/utils/validationUtils.ts:55-58 | the e-mail test holds exactly when the string splits as local part, `@`, domain, `.`, suffix with no white space or further `@` |
| Validation.IsValidTimeFormat | src/utils/validationUtils.ts:84-87 | `isValidTimeFormat` as a test; TimeFormatAcceptsEveryTime and TimeFormatDenotesTime state what it accepts |
| Validation.TimeFormatAcceptsEveryTime | src/utils/validationUtils.ts:84-87 | every hour 0–23 with minutes 0–59 is accepted as `HH:MM`, and as `H:MM` for hours below ten |
| Validation.TimeFormatDenotesTime | src/utils/validationUtils.ts:84-87 | every accepted string spells some hour 0–23 and minute 0–59 |
| Validation.ValidateSearchQuery | src/utils/validationUtils.ts:77-81 | `validateSearchQuery` as a test; ValidateSearchQueryExactly states what it accepts |
| Validation.ValidateSearchQueryExactly | src/utils/validationUtils.ts:77-81 | a query is valid exactly when it is not all white space and the trimmed query has length 1..50 |
| Validation.CleanWordData | src/utils/validationUtils.ts:90-105 | cleaning keeps the number of definitions, examples and tags, every other field of the word, of each definition and of each example; the headword becomes its `sanitizeWord` form when non-empty; each non-empty meaning, English definition, sentence and translation becomes its `sanitizeString` form; each tag becomes its sanitized lower-case form |
| Validation.CleanDefinition | src/utils/validationUtils.ts:94-98 | one definition's cleaning; CleanDefinitionIdempotent and CleanWordData state its effect |
| Validation.CleanExample | src/utils/validationUtils.ts:99-103 | one example's cleaning; CleanExampleIdempotent and CleanExampleValidity state its effect |
| Validation.CleanTag | src/utils/validationUtils.ts:104 | one tag's cleaning; CleanTagIdempotent and CleanWordDataSettlesText state its effect |
| Validation.SanitizeIfTruthySettles | src/utils/validationUtils.ts:96-102 | the `x ? sanitizeString(x) : x` step leaves its own result as it is |
| Validation.CleanDefinitionIdempotent | src/utils/validationUtils.ts:94-98 | cleaning a definition twice is cleaning it once |
| Validation.CleanExampleIdempotent | src/utils/validationUtils.ts:99-103 | cleaning an example twice is cleaning it once |
| Validation.CleanTagIdempotent | src/utils/validationUtils.ts:104 | cleaning a tag twice is cleaning it once |
| Validation.CleanWordDataSettlesText | src/utils/validationUtils.ts:90-105 | after cleaning, every meaning, English definition, sentence, translation and tag is already clean, and every tag is trimmed and collapsed |
| Validation.CleanedValidImpliesValid | src/utils/validationUtils.ts:90-105 | cleaning never turns an invalid word into a valid one |
| Validation.CleaningCanInvalidate | src/utils/validationUtils.ts:90-105 | a valid word whose headword is `"42"` becomes invalid once cleaned |
| Validation.CleanExampleValidity | src/utils/validationUtils.ts:99-103 | a cleaned example is valid exactly when neither its sentence nor its translation is all white space |
| VocabularyService.MatchesQuery | src/services/vocabularyService.ts:41-52 | the text test of `searchWords`; SearchBlankQueryReturnsAll and SearchResultContainsQuery state it |
| VocabularyService.MatchesFilters | src/services/vocabularyService.ts:54-80 | the filter test of `searchWords`; SearchResultSatisfiesFilters and NoFiltersMeansNoFiltering state it |
| VocabularyService.SearchWords | src/services/vocabularyService.ts:39-83 | the result is a subsequence of the stored words and holds exactly the stored words that match the query and the filters, each as often as it is stored |
| VocabularyService.SearchBlankQueryReturnsAll | src/services/vocabularyService.ts:41-52 | a white-space-only query with no filters, or with all filters absent, returns every stored word in store order |
| VocabularyService.NoFiltersMeansNoFiltering | src/services/vocabularyService.ts:54-80 | the all-absent filter value gives the same result as no filter value |
| VocabularyService.SearchResultContainsQuery | src/services/vocabularyService.ts:41-50 | with a non-blank query, the lower-cased untrimmed query occurs in the lower-cased headword or in some lower-cased meaning of every returned word |
| VocabularyService.SearchResultSatisfiesFilters | src/services/vocabularyService.ts:54-80 | every returned word meets each non-empty filter: its difficulty is listed, some definition's part of speech is listed, it shares a tag, and it is in the non-empty word set |
| VocabularyService.SearchByOneDifficulty | src/services/vocabularyService.ts:55-59 | filtering on difficulty 3 alone returns exactly the matching words of difficulty 3 |
| VocabularyService.WordsInSet | src/services/vocabularyService.ts:30-33 | the words of a set are the stored words with that word set, each as often as it is stored, in store order |
| VocabularyService.RandomPool | src/services/vocabularyService.ts:96-111 | the words `getRandomWords` draws from; RandomPoolMembers states which |
| VocabularyService.RandomPoolMembers | src/services/vocabularyService.ts:96-111 | the draw pool holds exactly the stored words of the non-empty word set, narrowed by the non-empty difficulty list |
| VocabularyService.SliceLength | src/services/vocabularyService.ts:115 | `slice(0, Math.min(count, n))` keeps at most `n` elements |
| VocabularyService.Shuffle | src/services/vocabularyService.ts:114 | the shuffle rearranges the words without adding or losing any |
| VocabularyService.GetRandomWords | src/services/vocabularyService.ts:93-116 | for `count >= 0` the result has `min(count, pool size)` words (for a negative count, `pool size + count`, at least 0), it is a sub-multiset of the pool, and asking for at least the pool size returns the whole pool rearranged |
| VocabularyService.RandomWordsFromPool | src/services/vocabularyService.ts:96-115 | every drawn word is a stored word of a requested difficulty |
| VocabularyService.CountTag | src/services/vocabularyService.ts:142 | one increment keeps the counts equal to the occurrences so far and the keys in first-seen order |
| VocabularyService.CountWordTags | src/services/vocabularyService.ts:141-143 | counting one word's tags keeps the same invariant over all tags seen |
| VocabularyService.CountTags | src/services/vocabularyService.ts:138-144 | the dictionary holds exactly the tags that occur, each with its number of occurrences, keyed in first-seen order |
| VocabularyService.InsertByCount | src/services/vocabularyService.ts:147 | inserting a tag into a count-sorted list keeps it sorted and adds exactly that tag |
| VocabularyService.SortByCount | src/services/vocabularyService.ts:146-147 | the sort is a permutation of the tags, highest count first |
| VocabularyService.InsertByCountKeepsTies | src/services/vocabularyService.ts:147 | an inserted tag goes after every tag of the same count already in the list |
| VocabularyService.SortByCountStable | src/services/vocabularyService.ts:146-147 | the sort is stable: the tags of any one count appear in the order they had before sorting, which is first-seen order |
| VocabularyService.SortedPairwise | src/services/vocabularyService.ts:147 | in a count-sorted list no earlier tag has a lower count than a later one |
| VocabularyService.OmittedTagRanksLower | src/services/vocabularyService.ts:146-149 | a tag that occurs but is not among the first ten means the ten are full and each occurs at least as often |
| VocabularyService.CutOrdered | src/services/vocabularyService.ts:146-148 | the first ten tags of the count-sorted list appear in non-increasing order of occurrences |
| VocabularyService.CutKeepsTopTags | src/services/vocabularyService.ts:146-148 | every occurring tag left out of the first ten occurs no more often than each kept tag, and then ten tags were kept |
| VocabularyService.GetPopularTags | src/services/vocabularyService.ts:134-150 | the result has min(10, number of distinct tags) distinct tags, all occurring, in non-increasing count order, and no omitted tag outranks a returned one |
| VocabularyService.CustomWordId | src/services/vocabularyService.ts:124 | the id is `word-` followed by the decimal digits of the creation time, which read back as that time |
| VocabularyService.WithoutIdentity | src/services/vocabularyService.ts:119-127 | a stored word without id and timestamps; AddCustomWord states that it gives back the input |
| VocabularyService.BuildCustomWord | src/services/vocabularyService.ts:122-127 | the new word carries the input's fields unchanged, the time-based id, and both timestamps set to the creation time |
| VocabularyService.CustomWordIdsDiffer | src/services/vocabularyService.ts:124 | words created at different times get different ids |
| VocabularyService.Lookup | src/services/vocabularyService.ts:87-90 | a found word is stored under the id; no word is found only when none has the id |
| VocabularyService.KeyLessTransitive | src/services/database/indexedDB.ts:44 | the order of string keys is transitive |
| VocabularyService.KeyLessTotal | src/services/database/indexedDB.ts:44 | any two different string keys are ordered one way or the other |
| VocabularyService.KeyLessIrreflexive | src/services/database/indexedDB.ts:44 | no key is ordered before itself |
| VocabularyService.SortedIdsDistinct | src/services/database/indexedDB.ts:44 | words listed in ascending id order never share an id |
| VocabularyService.Upsert | src/services/vocabularyService.ts:129 | after a put, the id reads back the new word, every other id reads back what it did before, no other word appears, and the first word is the new word or the old first word |
| VocabularyService.UpsertKeepsOrder | src/services/database/indexedDB.ts:117-119 | a put keeps the words in ascending id order, the order in which `getAll` lists a store keyed by `id` |
| VocabularyService.WordStore.Get | src/services/vocabularyService.ts:87-90 | `getWordDetails` finds the stored word with the id, or reports that none has it |
| VocabularyService.WordStore.Put | src/services/vocabularyService.ts:129 | the store stays in ascending id order (so ids stay distinct), the new word is stored under its id and every other id is unchanged |
| VocabularyService.AddCustomWord | src/services/vocabularyService.ts:119-131 | the returned word is the input plus id and timestamps, it is what the store now holds under that id, and every other id is unchanged |
| Study.Progress | src/store/slices/studySlice.ts:37 | the progress after a move lies in [0, 100) and is 0 exactly at the first word |
| Study.ProgressIncreases | src/store/slices/studySlice.ts:37-44 | a later cursor position shows a higher progress |
| Study.StudyState.constructor | src/store/slices/studySlice.ts:14-19 | the initial state has no session, no words, cursor 0, progress 0 and is inactive |
| Study.StudyState.StartSession | src/store/slices/studySlice.ts:25-32 | starting sets session, words, cursor 0, the first word (none for an empty list), progress 0 and active, and the cursor invariant holds |
| Study.StudyState.NextWord | src/store/slices/studySlice.ts:33-39 | the cursor advances with word and progress only when a later word exists, otherwise nothing changes; the cursor invariant is kept |
| Study.StudyState.PreviousWord | src/store/slices/studySlice.ts:40-46 | the cursor steps back with word and progress only when past the first word, otherwise nothing changes; the cursor invariant is kept |
| Study.StudyState.EndSession | src/store/slices/studySlice.ts:47-53 | ending makes the session inactive with progress 100, stamps the end time only on an existing session, and keeps cursor, words and current word |
| Study.StudyState.UpdateSessionProgress | src/store/slices/studySlice.ts:54-56 | only the progress changes |
| Study.StudyState.ResetSession | src/store/slices/studySlice.ts:57-59 | the state is the initial state again |
| Study.WalkThreeWords | src/store/slices/studySlice.ts:25-53 | on three words, two moves forward reach the last, a third changes nothing, one move back returns to the middle, and ending keeps that cursor |
| Testing.TestState.constructor | src/store/slices/testSlice.ts:14-19 | the initial state has no test, cursor 0, no results, no answers and is inactive |
| Testing.TestState.StartTest | src/store/slices/testSlice.ts:25-32 | starting loads the test with cursor 0, no results, no answers, active, and the test's time limit |
| Testing.TestState.NextQuestion | src/store/slices/testSlice.ts:33-37 | the cursor advances only when a test is loaded and a later question exists; nothing else changes |
| Testing.TestState.PreviousQuestion | src/store/slices/testSlice.ts:38-42 | the cursor steps back whenever it is past 0, test or no test; nothing else changes |
| Testing.TestState.SubmitAnswer | src/store/slices/testSlice.ts:43-45 | the question's answer is the new one and every other question's answer is unchanged |
| Testing.TestState.AddTestResult | src/store/slices/testSlice.ts:46-48 | one result is appended after all earlier ones |
| Testing.TestState.EndTest | src/store/slices/testSlice.ts:49-51 | only the active flag changes |
| Testing.TestState.UpdateTimeRemaining | src/store/slices/testSlice.ts:52-54 | only the remaining time changes |
| Testing.TestState.ResetTest | src/store/slices/testSlice.ts:55-57 | the state is the initial state again |
| Testing.AnswerTwice | src/store/slices/testSlice.ts:43-45 | a second answer to the same question replaces the first; answers to different questions are both kept |
| User.InitialPreferences | src/store/slices/userSlice.ts:15-21 | a new user aims at 20 words a day, reviews spaced, and prefers the two easiest levels |
| User.InitialProgress | src/store/slices/userSlice.ts:22-29 | a new user's counters are all 0 and the week is seven zeros |
| User.InitialPreferencesAreValid | src/store/slices/userSlice.ts:15-21 | the initial preferences pass the preference validator |
| User.MergePreferences | src/store/slices/userSlice.ts:41-43 | `{ ...preferences, ...patch }`; MergePreferencesLaws and MergeAndValidity state its laws |
| User.MergePreferencesLaws | src/store/slices/userSlice.ts:41-43 | an empty patch changes nothing, a patch applied twice is applied once, and two patches in a row are their overlay |
| User.MergeAndValidity | src/store/slices/userSlice.ts:41-43 | a patch leaving daily goal and review mode alone keeps validity as it was; one setting the goal to 0 invalidates |
| User.MergeProgress | src/store/slices/userSlice.ts:44-46 | `{ ...progress, ...patch }`; MergeProgressLaws states its laws |
| User.MergeProgressLaws | src/store/slices/userSlice.ts:44-46 | an empty progress patch changes nothing, a patch applied twice is applied once, and a full patch replaces the record |
| User.IncrementIsPatch | src/store/slices/userSlice.ts:47-52 | each increment equals a progress patch carrying the new total |
| User.UserState.constructor | src/store/slices/userSlice.ts:13-31 | the initial state is the default user with the initial preferences and progress, not initialised |
| User.UserState.InitializeUser | src/store/slices/userSlice.ts:37-40 | the id is set and the profile initialised; preferences and progress are unchanged |
| User.UserState.UpdatePreferences | src/store/slices/userSlice.ts:41-43 | the preferences become the patch merged over them; nothing else changes |
| User.UserState.UpdateProgress | src/store/slices/userSlice.ts:44-46 | the progress becomes the patch merged over it; nothing else changes |
| User.UserState.IncrementWordsStudied | src/store/slices/userSlice.ts:47-49 | only the words-studied counter changes, by the payload |
| User.UserState.IncrementStudyTime | src/store/slices/userSlice.ts:50-52 | only the study-time counter changes, by the payload |
| User.UserState.UpdateStudyStreak | src/store/slices/userSlice.ts:53-55 | only the streak changes |
| User.UserState.UpdateWeeklyProgress | src/store/slices/userSlice.ts:56-58 | only the weekly figures change |
| VocabularyView.Rejection | src/store/slices/vocabularySlice.ts:82-88 | a rejection's error carries its code and the rejection's message, or the fallback text when that message is absent or empty |
| VocabularyView.RejectionCodesDiffer | src/store/slices/vocabularySlice.ts:82-119 | the three rejected cases record three different codes, each with a non-empty message |
| VocabularyView.VocabularyState.constructor | src/store/slices/vocabularySlice.ts:16-22 | the initial state has empty lists, nothing selected, not loading and no error |
| VocabularyView.VocabularyState.SelectWord | src/store/slices/vocabularySlice.ts:61-63 | only the selected word changes |
| VocabularyView.VocabularyState.ClearError | src/store/slices/vocabularySlice.ts:64-66 | only the error is cleared |
| VocabularyView.VocabularyState.ClearSearchResults | src/store/slices/vocabularySlice.ts:67-69 | only the search results are emptied |
| VocabularyView.VocabularyState.LoadPending | src/store/slices/vocabularySlice.ts:74-77 | loading starts and the error is cleared; the lists are untouched |
| VocabularyView.VocabularyState.SearchPending | src/store/slices/vocabularySlice.ts:106-108 | loading starts and an earlier error stays |
| VocabularyView.VocabularyState.LoadWordSetsFulfilled | src/store/slices/vocabularySlice.ts:78-81 | loading stops and only the word sets are replaced |
| VocabularyView.VocabularyState.LoadWordsFromSetFulfilled | src/store/slices/vocabularySlice.ts:94-97 | loading stops and only the current set's words are replaced |
| VocabularyView.VocabularyState.SearchFulfilled | src/store/slices/vocabularySlice.ts:109-112 | loading stops and only the search results are replaced |
| VocabularyView.VocabularyState.LoadWordSetsRejected | src/store/slices/vocabularySlice.ts:82-88 | loading stops and the error is LOAD_WORDSETS_ERROR with the message or its fallback |
| VocabularyView.VocabularyState.LoadWordsFromSetRejected | src/store/slices/vocabularySlice.ts:98-104 | loading stops and the error is LOAD_WORDS_ERROR with the message or its fallback |
| VocabularyView.VocabularyState.SearchRejected | src/store/slices/vocabularySlice.ts:113-119 | loading stops and the error is SEARCH_ERROR with the message or its fallback |
| VocabularyView.VocabularyState.LoadPopularTagsFulfilled | src/store/slices/vocabularySlice.ts:121-123 | only the popular tags change; loading flag and error are untouched |
| VocabularyView.ErrorSurvivesSearch | src/store/slices/vocabularySlice.ts:74-112 | after a failed word-set load, a successful search still shows the load's error |
| SampleData.SampleWords | src/data/sampleWords.ts:6-178 | the six sample words; SampleWordIds and SampleWordsAreValid state what they are |
| SampleData.SampleWordSets | src/data/sampleWords.ts:181-226 | the four sample word sets; SampleWordSetsAreValid states what they are |
| SampleData.GetWordsBySet | src/data/sampleWords.ts:229-231 | the result holds exactly the sample words of the set, each as often as in the sample list, in order |
| SampleData.GetAllWords | src/data/sampleWords.ts:234-236 | all six sample words, each valid |
| SampleData.GetWordsByDifficulty | src/data/sampleWords.ts:239-241 | the result holds exactly the sample words of the difficulty, each as often as in the sample list, in order |
| SampleData.SampleWordIds | src/data/sampleWords.ts:6-178 | there are six sample words with distinct ids `word-1` to `word-6` |
| SampleData.SampleWordsAreValid | src/data/sampleWords.ts:6-178 | every sample word passes `validateWord`, has a frequency in 1..10000 and a difficulty level |
| SampleData.SampleWordSetsAreValid | src/data/sampleWords.ts:181-226 | there are four word sets with distinct ids, all valid, and `junior-high` is the only default |
| SampleData.BasicEnglishIsFirstThree | src/data/sampleWords.ts:229-231 | `basic-english` holds exactly the first three sample words |
| SampleData.SampleSetsHaveNoSampleWords | src/data/sampleWords.ts:6-231 | no sample word belongs to a sample word set, so every sample set's lookup is empty |
| SampleData.IntermediateWords | src/data/sampleWords.ts:239-241 | difficulty 3 gives `understand` then `knowledge` |

## Left out

- The IndexedDB wrapper and the database initialiser (`src/services/database/`): transactions, callbacks, the JSON fetch and the fallback to sample data are I/O. The words store is a sequence kept in ascending id order, as `getAll` lists a store keyed by `id`.
- The asynchronous thunks of the vocabulary slice and the service's `ensureInitialized`: only the reducers' state changes and the service's computations are modelled.
- `getWordSets` and `getWordSet`: each is a single read of the store.
- `isValidNumber`: it depends on JavaScript's `Number` coercion and `NaN`.
- Spaced-repetition scheduling: `easeFactor`, `interval` and `nextReview` are never updated by the code; `MasteryInRange` and `FrequencyInRange` state the documented ranges. Only `FrequencyInRange` is shown to hold, for the sample words; no modelled code creates a `UserProgress`, so `MasteryInRange` is stated and nothing is proved about it.
- The types `Performance`, `ReviewSchedule`, `LearningAlgorithmConfig`, `StreakInfo`, `TimeRange`, `StudyStats` and `AppState`: no modelled code uses them.
- Pages, navigation and store wiring: React rendering.
- `isValidDifficulty` and `isValidPartOfSpeech` accept any value; the model takes an `int` and a `string`.
- JsString.ToLowerCase: lower-cases ASCII letters only; JavaScript also lower-cases other scripts.
- JavaScript `number` fields and parameters are modelled as `int`: a fractional daily goal such as 1.5 (accepted by `validateStudyPreferences` in JavaScript) and a fractional `count` in `getRandomWords` (truncated by `slice`) are not modelled.
- SampleData.SampleWords: each sample word calls `new Date()` for its own timestamps; the model gives them all one instant `loadedAt`.
- SampleData.SampleWordSets: each sample word set calls `new Date()` for its own timestamps; the model gives them the same instant `loadedAt` as the words.
- VocabularyService.KeyLess: compares code points; IndexedDB compares UTF-16 code units, which order the same for ids inside the Basic Multilingual Plane.
- String lengths count characters, not UTF-16 code units (this matters only for `validateSearchQuery`'s 50-character limit on text outside the Basic Multilingual Plane).
- Study.Progress: computed exactly on reals, without floating-point rounding; counters are unbounded integers.
- VocabularyService.Shuffle: the comparator `0.5 - Math.random()` with the engine's sort algorithm is modelled as a sequence of swaps chosen by the draws; the contract states only that the words are rearranged, not how likely each order is.
- VocabularyService.SortByCount: `Object.entries` lists integer-like keys (such as a tag `"42"`) before the others in ascending order; the model keeps first-seen order for every key. Inherited keys of plain objects (a tag named `constructor`) are also not modelled.
- VocabularyService.BuildCustomWord: `createdAt` and `updatedAt` are two separate `new Date()` calls; the model uses one instant for both and for the id.
- User.MergePreferences: a patch field present with the value `undefined` overwrites with `undefined` in JavaScript; the model treats it as absent.
- User.MergeProgress: likewise for `{ ...state.progress, ...action.payload }`, a progress patch field present with the value `undefined` is treated as absent.
