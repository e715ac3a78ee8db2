/**
 * The built-in sample data (src/data/sampleWords.ts): six words, four word sets, and the
 * three lookups over the words. The records' timestamps are the moment the data is
 * loaded, passed in as `loadedAt`.
 *
 * Longer texts are written as concatenations of short literals: the concatenation spells
 * the same text, and short literals keep the verifier's work on them small.
 */
module SampleData {
  import opened Wrappers
  import opened Seqs
  import opened Types
  import opened Validation

  function Def(id: string, pos: PartOfSpeech, meaning: string, english: string): Definition {
    Definition(Some(id), pos.Tag(), meaning, Some(english), None)
  }

  function Ex(sentence: string, translation: string): Example {
    Example(sentence, translation, None)
  }

  function Hello(loadedAt: Time): Word {
    Word("word-1", "hello", "/həˈloʊ/",
      [Def("def-1", Interjection, "你好，问候语", "used as a greeting " + "or to begin a phone " + "conversation")],
      [Ex("Hello, how are you " + "today?", "你好，你今天怎么样？")],
      Beginner.Value(), 9500, ["greeting", "basic"], None, None, Some("basic-english"),
      None, None, None, loadedAt, loadedAt)
  }

  function Beautiful(loadedAt: Time): Word {
    Word("word-2", "beautiful", "/ˈbjuːtɪfəl/",
      [Def("def-2", Adjective, "美丽的，漂亮的", "pleasing the senses " + "or mind " + "aesthetically")],
      [Ex("She has a beautiful " + "smile.", "她有一个美丽的笑容。"),
       Ex("The sunset is " + "beautiful tonight.", "今晚的日落很美。")],
      Elementary.Value(), 7800, ["adjective", "description"], None, None, Some("basic-english"),
      None, None, None, loadedAt, loadedAt)
  }

  function Understand(loadedAt: Time): Word {
    Word("word-3", "understand", "/ˌʌndərˈstænd/",
      [Def("def-3", Verb, "理解，明白", "perceive the " + "intended meaning of " + "words, a language, " + "or speaker")],
      [Ex("I understand what " + "you mean.", "我明白你的意思。"),
       Ex("Do you understand " + "the lesson?", "你理解这节课吗？")],
      Intermediate.Value(), 8200, ["verb", "cognition"], None, None, Some("basic-english"),
      None, Some(["comprehend", "grasp"]), None, loadedAt, loadedAt)
  }

  function Knowledge(loadedAt: Time): Word {
    Word("word-4", "knowledge", "/ˈnɑːlɪdʒ/",
      [Def("def-4", Noun, "知识，学问", "facts, information, " + "and skills acquired " + "through experience " + "or education")],
      [Ex("Knowledge is power.", "知识就是力量。"),
       Ex("She has extensive " + "knowledge of " + "history.", "她对历史有广泛的知识。")],
      Intermediate.Value(), 6500, ["noun", "education"], None, None, Some("academic-english"),
      None, Some(["wisdom", "learning"]), None, loadedAt, loadedAt)
  }

  function Extraordinary(loadedAt: Time): Word {
    Word("word-5", "extraordinary", "/ɪkˈstrɔːrdəneri/",
      [Def("def-5", Adjective, "非凡的，特别的", "very unusual or " + "remarkable")],
      [Ex("She has " + "extraordinary " + "talent.", "她有非凡的天赋。"),
       Ex("It was an " + "extraordinary " + "experience.", "这是一次非凡的经历。")],
      Advanced.Value(), 3200, ["adjective", "advanced"], None, None, Some("advanced-english"),
      None, Some(["remarkable", "exceptional"]), Some(["ordinary", "common"]), loadedAt, loadedAt)
  }

  function Serendipity(loadedAt: Time): Word {
    Word("word-6", "serendipity", "/ˌserənˈdɪpəti/",
      [Def("def-6", Noun, "意外发现，机缘巧合",
           "the occurrence and " + "development of " + "events by chance in " + "a happy or " + "beneficial way")],
      [Ex("Meeting you was " + "pure serendipity.", "遇见你纯属机缘巧合。")],
      Expert.Value(), 800, ["noun", "advanced", "rare"], None, None, Some("advanced-english"),
      Some("coined by Horace " + "Walpole in 1754"), None, None, loadedAt, loadedAt)
  }

  /** The six sample words, in order. */
  function SampleWords(loadedAt: Time): seq<Word> {
    [Hello(loadedAt), Beautiful(loadedAt), Understand(loadedAt), Knowledge(loadedAt),
     Extraordinary(loadedAt), Serendipity(loadedAt)]
  }

  /** The four sample word sets, in order. */
  function SampleWordSets(loadedAt: Time): seq<WordSet> {
    [
      WordSet("junior-high", "初中英语", "初中阶段必备英语词汇", Beginner.Value(), 1200,
              ["junior", "basic"], true, loadedAt, loadedAt),
      WordSet("senior-high", "高中英语", "高中阶段核心英语词汇", Elementary.Value(), 2000,
              ["senior", "high-school"], false, loadedAt, loadedAt),
      WordSet("cet4", "英语四级", "大学英语四级考试词汇", Intermediate.Value(), 4500,
              ["cet4", "college"], false, loadedAt, loadedAt),
      WordSet("cet6", "英语六级", "大学英语六级考试词汇", Advanced.Value(), 6000,
              ["cet6", "advanced"], false, loadedAt, loadedAt)
    ]
  }

  /** `getWordsBySet(setId)`: the sample words of one set, in order. */
  function GetWordsBySet(loadedAt: Time, setId: string): (r: seq<Word>)
    ensures IsSubsequence(r, SampleWords(loadedAt))
    ensures forall w :: w in r <==> w in SampleWords(loadedAt) && w.wordSet == Some(setId)
    ensures forall w :: multiset(r)[w] == if w.wordSet == Some(setId) then multiset(SampleWords(loadedAt))[w] else 0
  {
    var keep := (w: Word) => w.wordSet == Some(setId);
    FilterCount(SampleWords(loadedAt), keep);
    Filter(SampleWords(loadedAt), keep)
  }

  /** `getAllWords()`: every sample word, each one valid. */
  function GetAllWords(loadedAt: Time): (r: seq<Word>)
    ensures |r| == 6
    ensures forall w | w in r :: ValidateWord(w)
  {
    SampleWordsAreValid(loadedAt);
    SampleWords(loadedAt)
  }

  /** `getWordsByDifficulty(d)`: the sample words of one difficulty, in order. */
  function GetWordsByDifficulty(loadedAt: Time, d: DifficultyLevel): (r: seq<Word>)
    ensures IsSubsequence(r, SampleWords(loadedAt))
    ensures forall w :: w in r <==> w in SampleWords(loadedAt) && w.difficulty == d.Value()
    ensures forall w :: multiset(r)[w] == if w.difficulty == d.Value() then multiset(SampleWords(loadedAt))[w] else 0
  {
    var keep := (w: Word) => w.difficulty == d.Value();
    FilterCount(SampleWords(loadedAt), keep);
    Filter(SampleWords(loadedAt), keep)
  }

  /** Six words with the distinct ids `word-1` to `word-6`. */
  lemma SampleWordIds(loadedAt: Time)
    ensures var ws := SampleWords(loadedAt);
      |ws| == 6 && (forall i, j | 0 <= i < j < |ws| :: ws[i].id != ws[j].id)
      && ws[0].id == "word-1" && ws[5].id == "word-6"
  {
    var ws := SampleWords(loadedAt);
    var digits := ['1', '2', '3', '4', '5', '6'];
    forall i | 0 <= i < 6 ensures |ws[i].id| == 6 && ws[i].id[5] == digits[i] {
    }
  }

  /** Every sample word passes `validateWord` and has a frequency in 1..10000 and a
      difficulty level. */
  lemma SampleWordsAreValid(loadedAt: Time)
    ensures forall w | w in SampleWords(loadedAt) ::
      ValidateWord(w) && FrequencyInRange(w) && DifficultyFromValue(w.difficulty).Some?
  {
    var ws := SampleWords(loadedAt);
    forall i | 0 <= i < |ws| ensures ValidateWord(ws[i]) && FrequencyInRange(ws[i]) && DifficultyFromValue(ws[i].difficulty).Some? {
      assert ValidateDefinition(ws[i].definitions[0]);
      assert ws[i].definitions == [ws[i].definitions[0]];
    }
  }

  /** Four word sets, all passing `validateWordSet`; `junior-high` is the only default. */
  lemma SampleWordSetsAreValid(loadedAt: Time)
    ensures var sets := SampleWordSets(loadedAt);
      |sets| == 4 && (forall s | s in sets :: ValidateWordSet(s))
      && (forall s | s in sets :: s.isDefault <==> s.id == "junior-high")
      && (forall i, j | 0 <= i < j < |sets| :: sets[i].id != sets[j].id)
  {
  }

  /** `basic-english` holds the first three sample words. */
  lemma BasicEnglishIsFirstThree(loadedAt: Time)
    ensures GetWordsBySet(loadedAt, "basic-english")
         == [Hello(loadedAt), Beautiful(loadedAt), Understand(loadedAt)]
  {
    var keep := (w: Word) => w.wordSet == Some("basic-english");
    var first := [Hello(loadedAt), Beautiful(loadedAt), Understand(loadedAt)];
    var rest := [Knowledge(loadedAt), Extraordinary(loadedAt), Serendipity(loadedAt)];
    assert SampleWords(loadedAt) == [] + first + rest;
    FilterMiddle([], first, rest, keep);
  }

  /** The sample words name word sets that are not among the sample word sets, so looking
      up the words of any sample word set finds none. */
  lemma SampleSetsHaveNoSampleWords(loadedAt: Time, s: WordSet)
    requires s in SampleWordSets(loadedAt)
    ensures GetWordsBySet(loadedAt, s.id) == []
  {
    FilterDropsAll(SampleWords(loadedAt), (w: Word) => w.wordSet == Some(s.id));
  }

  /** Difficulty 3 picks `understand` and `knowledge`, in that order. */
  lemma IntermediateWords(loadedAt: Time)
    ensures GetWordsByDifficulty(loadedAt, Intermediate) == [Understand(loadedAt), Knowledge(loadedAt)]
  {
    var keep := (w: Word) => w.difficulty == Intermediate.Value();
    var before := [Hello(loadedAt), Beautiful(loadedAt)];
    var picked := [Understand(loadedAt), Knowledge(loadedAt)];
    var after := [Extraordinary(loadedAt), Serendipity(loadedAt)];
    assert SampleWords(loadedAt) == before + picked + after;
    FilterMiddle(before, picked, after, keep);
  }
}
