/**
 * The records and closed enumerations of the vocabulary application.
 *
 * Fields the application reads at run time from stored or imported data
 * (a word's difficulty, a definition's part of speech, a word set's
 * difficulty, the review mode of the preferences) keep their run-time
 * representation, a number or a string, so that the validators can be
 * modelled; the enumerations are closed datatypes whose `Value`/`Tag` give
 * that representation, with decoders back from it.
 *
 * An optional field (`x?: T`) is an `Option<T>`. Every `Date` is a `Time`.
 */
module Types {
  import opened Wrappers
  import opened Seqs

  /** Milliseconds since the epoch: a `Date`, or a reading of `Date.now()`. */
  type Time = nat

  /** `DifficultyLevel`: five ordered levels, stored as the numbers 1 to 5. */
  datatype DifficultyLevel = Beginner | Elementary | Intermediate | Advanced | Expert {
    function Value(): int {
      match this
      case Beginner => 1
      case Elementary => 2
      case Intermediate => 3
      case Advanced => 4
      case Expert => 5
    }
  }

  /** `Object.values(DifficultyLevel)`, in declaration order. */
  const DifficultyValues: seq<int> := [1, 2, 3, 4, 5]

  /** The level stored as `n`, if any. */
  function DifficultyFromValue(n: int): (d: Option<DifficultyLevel>)
    ensures d.Some? <==> 1 <= n <= 5
    ensures d.Some? ==> d.value.Value() == n
  {
    if n == 1 then Some(Beginner)
    else if n == 2 then Some(Elementary)
    else if n == 3 then Some(Intermediate)
    else if n == 4 then Some(Advanced)
    else if n == 5 then Some(Expert)
    else None
  }

  /** The enumeration is exactly the numbers 1 to 5, BEGINNER to EXPERT in order, and
      decoding a level's number gives the level back. */
  lemma DifficultyIsClosed(d: DifficultyLevel)
    ensures 1 <= d.Value() <= 5 && d.Value() in DifficultyValues
    ensures DifficultyFromValue(d.Value()) == Some(d)
    ensures DifficultyValues == [Beginner.Value(), Elementary.Value(), Intermediate.Value(),
                                 Advanced.Value(), Expert.Value()]
  {
  }

  /** `TestType`: three kinds of question. */
  datatype TestType = MultipleChoice | FillInBlank | Listening {
    function Tag(): string {
      match this
      case MultipleChoice => "multiple_choice"
      case FillInBlank => "fill_in_blank"
      case Listening => "listening"
    }
  }

  const TestTypeTags: seq<string> := ["multiple_choice", "fill_in_blank", "listening"]

  function TestTypeFromTag(s: string): (t: Option<TestType>)
    ensures t.Some? ==> t.value.Tag() == s
  {
    if s == "multiple_choice" then Some(MultipleChoice)
    else if s == "fill_in_blank" then Some(FillInBlank)
    else if s == "listening" then Some(Listening)
    else None
  }

  /** Exactly three test types, with distinct tags, each decoded back from its tag. */
  lemma TestTypeIsClosed(t: TestType)
    ensures TestTypeFromTag(t.Tag()) == Some(t)
    ensures |TestTypeTags| == 3 && Distinct(TestTypeTags)
    ensures forall s :: s in TestTypeTags <==> TestTypeFromTag(s).Some?
  {
  }

  /** `PartOfSpeech`: twelve grammatical categories, stored as their abbreviations. */
  datatype PartOfSpeech =
    | Noun | Verb | Adjective | Adverb | Pronoun | Preposition
    | Conjunction | Interjection | Article | Auxiliary | Modal | PhrasalVerb
  {
    function Tag(): string {
      match this
      case Noun => "n."
      case Verb => "v."
      case Adjective => "adj."
      case Adverb => "adv."
      case Pronoun => "pron."
      case Preposition => "prep."
      case Conjunction => "conj."
      case Interjection => "int."
      case Article => "art."
      case Auxiliary => "aux."
      case Modal => "modal"
      case PhrasalVerb => "phr.v."
    }
  }

  /** `Object.values(PartOfSpeech)`, in declaration order. */
  const PartOfSpeechTags: seq<string> :=
    ["n.", "v.", "adj.", "adv.", "pron.", "prep.", "conj.", "int.", "art.", "aux.", "modal", "phr.v."]

  function PartOfSpeechFromTag(s: string): (p: Option<PartOfSpeech>)
    ensures p.Some? ==> p.value.Tag() == s
  {
    if s == "n." then Some(Noun)
    else if s == "v." then Some(Verb)
    else if s == "adj." then Some(Adjective)
    else if s == "adv." then Some(Adverb)
    else if s == "pron." then Some(Pronoun)
    else if s == "prep." then Some(Preposition)
    else if s == "conj." then Some(Conjunction)
    else if s == "int." then Some(Interjection)
    else if s == "art." then Some(Article)
    else if s == "aux." then Some(Auxiliary)
    else if s == "modal" then Some(Modal)
    else if s == "phr.v." then Some(PhrasalVerb)
    else None
  }

  /** Exactly twelve parts of speech, with distinct tags, each decoded back from its tag. */
  lemma PartOfSpeechIsClosed(p: PartOfSpeech)
    ensures PartOfSpeechFromTag(p.Tag()) == Some(p)
    ensures |PartOfSpeechTags| == 12 && Distinct(PartOfSpeechTags)
    ensures forall s :: s in PartOfSpeechTags <==> PartOfSpeechFromTag(s).Some?
  {
  }

  /** `StudySession.sessionType`. */
  datatype SessionType = SessionStudy | SessionReview | SessionTest {
    function Tag(): string {
      match this
      case SessionStudy => "study"
      case SessionReview => "review"
      case SessionTest => "test"
    }
  }

  /** `StudyPreferences.reviewMode`. */
  datatype ReviewMode = Spaced | Random {
    function Tag(): string {
      match this
      case Spaced => "spaced"
      case Random => "random"
    }
  }

  function ReviewModeFromTag(s: string): (m: Option<ReviewMode>)
    ensures m.Some? ==> m.value.Tag() == s
  {
    if s == "spaced" then Some(Spaced) else if s == "random" then Some(Random) else None
  }

  /** The session types and review modes are the closed sets study/review/test and
      spaced/random, each told apart by its tag. */
  lemma SessionTypeAndReviewModeAreClosed(t: SessionType, m: ReviewMode)
    ensures t.Tag() in ["study", "review", "test"]
    ensures forall u: SessionType :: u.Tag() == t.Tag() ==> u == t
    ensures ReviewModeFromTag(m.Tag()) == Some(m)
    ensures forall s :: ReviewModeFromTag(s).Some? <==> s in ["spaced", "random"]
  {
  }

  /** `StudyPreferences.theme`. */
  datatype Theme = Light | Dark | Auto

  datatype Definition = Definition(
    id: Option<string>,
    partOfSpeech: string,
    meaning: string,
    englishDefinition: Option<string>,
    level: Option<int>)

  datatype Example = Example(sentence: string, translation: string, audioUrl: Option<string>)

  datatype Word = Word(
    id: string,
    word: string,
    pronunciation: string,
    definitions: seq<Definition>,
    examples: seq<Example>,
    difficulty: int,
    frequency: int,
    tags: seq<string>,
    audioUrl: Option<string>,
    imageUrl: Option<string>,
    wordSet: Option<string>,
    etymology: Option<string>,
    synonyms: Option<seq<string>>,
    antonyms: Option<seq<string>>,
    createdAt: Time,
    updatedAt: Time)

  /** A word's frequency rank is documented to lie in 1..10000. */
  predicate FrequencyInRange(w: Word) {
    1 <= w.frequency <= 10000
  }

  datatype UserProgress = UserProgress(
    userId: string,
    wordId: string,
    masteryLevel: int,
    reviewCount: int,
    correctCount: int,
    lastReviewed: Time,
    nextReview: Time,
    easeFactor: real,
    interval: int)

  /** A progress record's mastery level is documented to lie in 0..5. */
  predicate MasteryInRange(p: UserProgress) {
    0 <= p.masteryLevel <= 5
  }

  datatype TestResult = TestResult(
    wordId: string,
    testType: TestType,
    isCorrect: bool,
    userAnswer: string,
    correctAnswer: string,
    timeSpent: int)

  datatype StudySession = StudySession(
    id: string,
    userId: string,
    startTime: Time,
    endTime: Option<Time>,
    wordsStudied: seq<string>,
    testResults: seq<TestResult>,
    totalTime: int,
    sessionType: SessionType)

  datatype TestItem = TestItem(
    id: string,
    wordId: string,
    question: string,
    options: Option<seq<string>>,
    correctAnswer: string,
    testType: TestType)

  datatype Test = Test(
    id: string,
    testType: TestType,
    questions: seq<TestItem>,
    timeLimit: Option<int>,
    createdAt: Time)

  /** The last three fields are optional here because the user state's initial value
      leaves them out. */
  datatype StudyPreferences = StudyPreferences(
    dailyGoal: int,
    reviewMode: string,
    difficultyPreference: seq<int>,
    enableAudio: bool,
    autoPlay: bool,
    studyReminder: Option<bool>,
    reminderTime: Option<string>,
    theme: Option<Theme>)

  datatype ProgressStats = ProgressStats(
    totalWordsStudied: int,
    masteredWords: int,
    studyStreak: int,
    totalStudyTime: int,
    averageAccuracy: real,
    weeklyProgress: seq<int>)

  datatype AppError = AppError(code: string, message: string)

  /** Every filter is optional; `masteryLevel` is declared but never consulted. */
  datatype SearchFilters = SearchFilters(
    difficulty: Option<seq<int>>,
    partOfSpeech: Option<seq<string>>,
    tags: Option<seq<string>>,
    wordSet: Option<string>,
    masteryLevel: Option<seq<int>>)

  /** The filter value `{}`: every field absent. */
  const NoFilters: SearchFilters := SearchFilters(None, None, None, None, None)

  datatype WordSet = WordSet(
    id: string,
    name: string,
    description: string,
    difficulty: int,
    wordCount: int,
    tags: seq<string>,
    isDefault: bool,
    createdAt: Time,
    updatedAt: Time)
}
