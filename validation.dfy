/**
 * Record validators and string cleaners (src/utils/validationUtils.ts).
 *
 * The validators take partial records; a field that is absent is modelled
 * by its empty value ("" for a string, [] for a list, 0 for a number), which
 * JavaScript treats as falsy just like `undefined`.
 */
module Validation {
  import opened Wrappers
  import opened Seqs
  import opened JsString
  import opened Types

  /** JavaScript truthiness of a string: only the empty string is falsy. */
  predicate Truthy(s: string) {
    s != ""
  }

  // ---------------------------------------------------------------- records

  predicate ValidateDefinition(d: Definition) {
    Truthy(d.partOfSpeech) && Truthy(d.meaning)
  }

  predicate ValidateExample(e: Example) {
    Truthy(e.sentence) && Truthy(e.translation)
  }

  predicate ValidateWord(w: Word) {
    if !Truthy(w.id) || !Truthy(w.word) || !Truthy(w.pronunciation) then false
    else if |w.definitions| == 0 then false
    else forall d | d in w.definitions :: ValidateDefinition(d)
  }

  /** A word is valid exactly when its id, headword and pronunciation are non-empty, it has
      at least one definition, and every definition has a part of speech and a meaning. */
  lemma ValidateWordExactly(w: Word)
    ensures ValidateWord(w) <==>
      && w.id != "" && w.word != "" && w.pronunciation != ""
      && |w.definitions| > 0
      && forall i | 0 <= i < |w.definitions| ::
           w.definitions[i].partOfSpeech != "" && w.definitions[i].meaning != ""
  {
    if ValidateWord(w) {
      forall i | 0 <= i < |w.definitions|
        ensures w.definitions[i].partOfSpeech != "" && w.definitions[i].meaning != ""
      {
        assert ValidateDefinition(w.definitions[i]);
      }
    }
  }

  /** A word without definitions is never valid; one with a valid definition and its
      three required strings always is. */
  lemma ValidateWordNeedsDefinitions(w: Word, d: Definition)
    ensures |w.definitions| == 0 ==> !ValidateWord(w)
    ensures w.id != "" && w.word != "" && w.pronunciation != "" && ValidateDefinition(d)
            ==> ValidateWord(w.(definitions := [d]))
  {
  }

  predicate ValidateWordSet(ws: WordSet) {
    && Truthy(ws.id)
    && Truthy(ws.name)
    && Truthy(ws.description)
    && ws.difficulty != 0
    && ws.difficulty in DifficultyValues
  }

  /** A word set is valid exactly when its id, name and description are non-empty and its
      difficulty decodes to a `DifficultyLevel`. */
  lemma ValidateWordSetExactly(ws: WordSet)
    ensures ValidateWordSet(ws) <==>
      ws.id != "" && ws.name != "" && ws.description != "" && DifficultyFromValue(ws.difficulty).Some?
  {
  }

  predicate ValidateStudyPreferences(p: StudyPreferences) {
    if p.dailyGoal == 0 || p.dailyGoal < 1 || p.dailyGoal > 100 then false
    else if !Truthy(p.reviewMode) || p.reviewMode !in ["spaced", "random"] then false
    else true
  }

  /** Preferences are valid exactly when the daily goal lies in 1..100 and the review mode
      decodes to a `ReviewMode`; every other field is ignored. */
  lemma ValidateStudyPreferencesExactly(p: StudyPreferences, q: StudyPreferences)
    ensures ValidateStudyPreferences(p) <==>
      1 <= p.dailyGoal <= 100 && ReviewModeFromTag(p.reviewMode).Some?
    ensures p.dailyGoal == q.dailyGoal && p.reviewMode == q.reviewMode ==>
      ValidateStudyPreferences(p) == ValidateStudyPreferences(q)
  {
  }

  predicate IsValidDifficulty(d: int) {
    d in DifficultyValues
  }

  predicate IsValidPartOfSpeech(pos: string) {
    pos in PartOfSpeechTags
  }

  /** The two membership tests accept exactly the encodings of the enumerations. */
  lemma MembershipIsDecoding(d: int, pos: string)
    ensures IsValidDifficulty(d) <==> DifficultyFromValue(d).Some?
    ensures IsValidPartOfSpeech(pos) <==> PartOfSpeechFromTag(pos).Some?
    ensures IsValidPartOfSpeech(pos) <==> exists p: PartOfSpeech :: p.Tag() == pos
  {
    if IsValidPartOfSpeech(pos) {
      var p := PartOfSpeechFromTag(pos).value;
      assert p.Tag() == pos;
    }
    if exists p: PartOfSpeech :: p.Tag() == pos {
      var p: PartOfSpeech :| p.Tag() == pos;
      PartOfSpeechIsClosed(p);
    }
  }

  // ---------------------------------------------------------------- strings

  /** The characters of `s` other than white space, in order. */
  function Text(s: string): string
    decreases |s|
  {
    if s == [] then []
    else if IsWhitespace(s[0]) then Text(s[1..])
    else [s[0]] + Text(s[1..])
  }

  /** `sanitizeString`: trim, then turn every run of white space into one space. */
  function SanitizeString(s: string): (r: string)
    ensures IsTrimmed(r) && IsCollapsed(r)
  {
    CollapseWhitespace(Trim(s))
  }

  /** Sanitizing twice is sanitizing once. */
  lemma SanitizeStringIdempotent(s: string)
    ensures SanitizeString(SanitizeString(s)) == SanitizeString(s)
  {
    var r := SanitizeString(s);
    TrimTrimmed(r);
    CollapseCollapsed(r);
  }

  /** The result reads as: no white space at either end; every inner gap a single space. */
  lemma SanitizeStringShape(s: string, i: nat)
    requires i < |SanitizeString(s)|
    ensures var r := SanitizeString(s);
      && (i == 0 || i == |r| - 1 ==> !IsWhitespace(r[i]))
      && (IsWhitespace(r[i]) ==> r[i] == ' ' && i + 1 < |r| && !IsWhitespace(r[i + 1]))
  {
    var r := SanitizeString(s);
    if IsWhitespace(r[i]) {
      CollapsedAt(r, i);
    }
  }

  lemma {:induction false} TextConcat(a: string, b: string)
    ensures Text(a + b) == Text(a) + Text(b)
    decreases |a|
  {
    if a != [] {
      assert (a + b)[1..] == a[1..] + b;
      TextConcat(a[1..], b);
    } else {
      assert a + b == b;
    }
  }

  lemma {:induction false} TextOfWhitespace(s: string)
    requires AllWhitespace(s)
    ensures Text(s) == []
    decreases |s|
  {
    if s != [] {
      TextOfWhitespace(s[1..]);
    }
  }

  lemma TextDropsWhitespacePrefix(s: string, k: nat)
    requires k <= |s| && AllWhitespace(s[..k])
    ensures Text(s) == Text(s[k..])
  {
    assert s == s[..k] + s[k..];
    TextConcat(s[..k], s[k..]);
    TextOfWhitespace(s[..k]);
  }

  lemma TextDropsWhitespaceSuffix(s: string, k: nat)
    requires k <= |s| && AllWhitespace(s[k..])
    ensures Text(s) == Text(s[..k])
  {
    assert s == s[..k] + s[k..];
    TextConcat(s[..k], s[k..]);
    TextOfWhitespace(s[k..]);
  }

  lemma {:induction false} TextOfTrim(s: string)
    ensures Text(Trim(s)) == Text(s)
  {
    var t := TrimStart(s);
    TextDropsWhitespacePrefix(s, |s| - |t|);
    var r := TrimEnd(t);
    TextDropsWhitespaceSuffix(t, |r|);
  }

  lemma TextCons(c: char, x: string)
    ensures Text([c] + x) == if IsWhitespace(c) then Text(x) else [c] + Text(x)
  {
    assert ([c] + x)[1..] == x;
  }

  lemma CollapseStep(s: string)
    requires s != []
    ensures IsWhitespace(s[0]) ==> CollapseWhitespace(s) == [' '] + CollapseWhitespace(TrimStart(s))
    ensures !IsWhitespace(s[0]) ==> CollapseWhitespace(s) == [s[0]] + CollapseWhitespace(s[1..])
  {
  }

  lemma {:induction false} TextOfCollapse(s: string)
    ensures Text(CollapseWhitespace(s)) == Text(s)
    decreases |s|
  {
    if s != [] {
      if IsWhitespace(s[0]) {
        var rest := TrimStart(s);
        TrimStartShrinks(s);
        CollapseSpaceStep(s);
        TextDropsWhitespacePrefix(s, |s| - |rest|);
        TextOfCollapse(rest);
      } else {
        CollapseCharStep(s);
        TextOfCollapse(s[1..]);
      }
    }
  }

  /** A leading run of white space becomes one space, which `Text` drops. */
  lemma CollapseSpaceStep(s: string)
    requires s != [] && IsWhitespace(s[0])
    ensures Text(CollapseWhitespace(s)) == Text(CollapseWhitespace(TrimStart(s)))
  {
    var rest := CollapseWhitespace(TrimStart(s));
    assert CollapseWhitespace(s) == [' '] + rest;
    TextCons(' ', rest);
  }

  /** A leading character other than white space is kept by collapsing, then by `Text`. */
  lemma CollapseCharStep(s: string)
    requires s != [] && !IsWhitespace(s[0])
    ensures Text(CollapseWhitespace(s)) == [s[0]] + Text(CollapseWhitespace(s[1..]))
  {
    var rest := CollapseWhitespace(s[1..]);
    assert CollapseWhitespace(s) == [s[0]] + rest;
    TextCons(s[0], rest);
  }

  /** Sanitizing changes only white space: the other characters stay, in order. */
  lemma SanitizeStringKeepsText(s: string)
    ensures Text(SanitizeString(s)) == Text(s)
  {
    TextOfTrim(s);
    TextOfCollapse(Trim(s));
  }

  /** Sanitizing keeps every word, and keeps them apart: each inner run of white space
      becomes one space rather than disappearing. */
  lemma SanitizeStringKeepsWords(s: string)
    ensures Words(SanitizeString(s)) == Words(s)
  {
    WordsOfTrim(s);
    WordsOfCollapse(Trim(s));
  }

  /** The characters `sanitizeWord` keeps: `[a-zA-Z\s-']`. */
  predicate IsWordChar(c: char) {
    IsAsciiLower(c) || IsAsciiUpper(c) || IsWhitespace(c) || c == '-' || c == '\''
  }

  /** `sanitizeWord`: lower-case, trim, then delete every character outside `[a-zA-Z\s-']`. */
  function SanitizeWord(s: string): (r: string)
    ensures forall c | c in r :: IsAsciiLower(c) || IsWhitespace(c) || c == '-' || c == '\''
    ensures forall c :: c in r <==> c in Trim(ToLowerCase(s)) && IsWordChar(c)
    ensures forall c :: multiset(r)[c] == if IsWordChar(c) then multiset(Trim(ToLowerCase(s)))[c] else 0
    ensures IsSubsequence(r, Trim(ToLowerCase(s)))
  {
    var lowered := ToLowerCase(s);
    var trimmed := Trim(lowered);
    assert forall c | c in trimmed :: !IsAsciiUpper(c) by {
      TrimKeepsChars(lowered);
    }
    FilterCount(trimmed, IsWordChar);
    Filter(trimmed, IsWordChar)
  }

  lemma TrimKeepsChars(s: string)
    ensures forall c | c in Trim(s) :: c in s
  {
    var t := TrimStart(s);
    SliceKeepsChars(s, |s| - |t|, |s|);
    SliceKeepsChars(t, 0, |TrimEnd(t)|);
  }

  lemma SliceKeepsChars(s: string, i: nat, j: nat)
    requires i <= j <= |s|
    ensures forall c | c in s[i..j] :: c in s
  {
    forall c | c in s[i..j] ensures c in s {
      var k :| 0 <= k < j - i && s[i..j][k] == c;
      assert s[i + k] == c;
    }
  }

  /** Trimming happens before the deletion, so a deleted character can leave white space
      at the front: `sanitizeWord("1 a")` is `" a"`, and sanitizing that again gives `"a"`. */
  lemma SanitizeWordNotIdempotent()
    ensures SanitizeWord("1 a") == " a"
    ensures SanitizeWord(SanitizeWord("1 a")) == "a"
  {
    SanitizeWordOneSpaceA();
    SanitizeWordSpaceA();
  }

  /** On a trimmed string without capital letters `sanitizeWord` only deletes characters. */
  lemma SanitizeWordOfPlain(s: string)
    requires IsTrimmed(s) && forall i | 0 <= i < |s| :: !IsAsciiUpper(s[i])
    ensures SanitizeWord(s) == Filter(s, IsWordChar)
  {
    assert ToLowerCase(s) == s;
    TrimTrimmed(s);
  }

  lemma SanitizeWordOneSpaceA()
    ensures SanitizeWord("1 a") == " a"
  {
    SanitizeWordOfPlain("1 a");
    WordCharsOfOneSpaceA();
  }

  lemma WordCharsOfOneSpaceA()
    ensures Filter("1 a", IsWordChar) == " a"
  {
    assert "1 a" == ['1'] + " a";
    assert " a" == [' '] + "a";
    assert "a" == ['a'] + "";
    FilterCons('1', " a", IsWordChar);
    FilterCons(' ', "a", IsWordChar);
    FilterCons('a', "", IsWordChar);
  }

  lemma SanitizeWordSpaceA()
    ensures SanitizeWord(" a") == "a"
  {
    var s := " a";
    assert ToLowerCase(s) == s by {
      assert forall i | 0 <= i < |s| :: !IsAsciiUpper(s[i]);
    }
    assert s[1..] == "a";
    TrimStartStops("a");
    assert TrimStart(s) == "a";
    assert TrimEnd("a") == "a";
    assert "a" == ['a'] + "";
    FilterCons('a', "", IsWordChar);
  }

  // ---------------------------------------------------------------- formats

  predicate IsEmailChar(c: char) {
    !IsWhitespace(c) && c != '@'
  }

  /** `s` splits as local `@` domain `.` suffix with the `@` at `at` and the `.` at `dot`,
      all three parts non-empty and made of characters other than white space and `@`:
      a match of `/^[^\s@]+@[^\s@]+\.[^\s@]+$/`. */
  ghost predicate EmailSplit(s: string, at: int, dot: int) {
    && 0 < at && at + 1 < dot && dot + 1 < |s|
    && s[at] == '@' && s[dot] == '.'
    && forall k | 0 <= k < |s| && k != at :: IsEmailChar(s[k])
  }

  /** The position of the first `c` in `s`. */
  function IndexOf(s: string, c: char): (r: Option<nat>)
    ensures r.Some? ==> r.value < |s| && s[r.value] == c && c !in s[..r.value]
    ensures r.None? ==> c !in s
  {
    if s == [] then None
    else if s[0] == c then Some(0)
    else
      var r := IndexOf(s[1..], c);
      if r.Some? then
        assert s[..r.value + 1] == [s[0]] + s[1..][..r.value];
        Some(r.value + 1)
      else None
  }

  lemma {:induction false} IndexOfFirst(s: string, c: char, i: nat)
    requires i < |s| && s[i] == c && forall k | 0 <= k < i :: s[k] != c
    ensures IndexOf(s, c) == Some(i)
  {
    if i > 0 {
      IndexOfFirst(s[1..], c, i - 1);
    }
  }

  /** `isValidEmail`: one `@`, not first; a `.` at least two characters after it and not
      last; no white space anywhere. */
  predicate IsValidEmail(s: string) {
    var at := IndexOf(s, '@');
    && at.Some? && 0 < at.value
    && (forall k | 0 <= k < |s| && k != at.value :: IsEmailChar(s[k]))
    && exists dot | at.value + 2 <= dot < |s| - 1 :: s[dot] == '.'
  }

  /** `isValidEmail` accepts exactly the strings the regular expression matches. */
  lemma IsValidEmailIffPattern(s: string)
    ensures IsValidEmail(s) <==> exists at, dot :: EmailSplit(s, at, dot)
  {
    if IsValidEmail(s) {
      var at := IndexOf(s, '@').value;
      var dot :| at + 2 <= dot < |s| - 1 && s[dot] == '.';
      assert EmailSplit(s, at, dot);
    }
    if exists at, dot :: EmailSplit(s, at, dot) {
      var at, dot :| EmailSplit(s, at, dot);
      IndexOfFirst(s, '@', at);
    }
  }

  /** `n` written with two digits, padded with a leading zero. */
  function TwoDigits(n: nat): string
    requires n < 100
  {
    [DigitChar(n / 10), DigitChar(n % 10)]
  }

  /** `isValidTimeFormat`: `/^([0-1]?[0-9]|2[0-3]):[0-5][0-9]$/`. */
  predicate IsValidTimeFormat(t: string) {
    || (|t| == 4 && IsDigit(t[0]) && t[1] == ':' && '0' <= t[2] <= '5' && IsDigit(t[3]))
    || (&& |t| == 5
        && (('0' <= t[0] <= '1' && IsDigit(t[1])) || (t[0] == '2' && '0' <= t[1] <= '3'))
        && t[2] == ':' && '0' <= t[3] <= '5' && IsDigit(t[4]))
  }

  /** The spellings of a time of day `h:m`: `HH:MM`, and also `H:MM` for an hour below ten. */
  ghost predicate SpellsTime(t: string, h: nat, m: nat) {
    && h < 24 && m < 60
    && (t == TwoDigits(h) + ":" + TwoDigits(m) || (h < 10 && t == [DigitChar(h)] + ":" + TwoDigits(m)))
  }

  /** Every spelling of every time of day is accepted. */
  lemma TimeFormatAcceptsEveryTime(h: nat, m: nat)
    requires h < 24 && m < 60
    ensures IsValidTimeFormat(TwoDigits(h) + ":" + TwoDigits(m))
    ensures h < 10 ==> IsValidTimeFormat([DigitChar(h)] + ":" + TwoDigits(m))
  {
  }

  /** Every accepted string spells a time of day: an hour in 0..23 and minutes in 0..59. */
  lemma TimeFormatDenotesTime(t: string) returns (h: nat, m: nat)
    requires IsValidTimeFormat(t)
    ensures SpellsTime(t, h, m)
  {
    if |t| == 4 {
      h, m := ShortTimeDenotesTime(t);
    } else {
      h, m := LongTimeDenotesTime(t);
    }
  }

  lemma ShortTimeDenotesTime(t: string) returns (h: nat, m: nat)
    requires |t| == 4 && IsDigit(t[0]) && t[1] == ':' && '0' <= t[2] <= '5' && IsDigit(t[3])
    ensures SpellsTime(t, h, m)
  {
    h := DigitValue(t[0]);
    m := DigitValue(t[2]) * 10 + DigitValue(t[3]);
    assert TwoDigits(m) == t[2..];
    assert t == [DigitChar(h)] + ":" + TwoDigits(m);
  }

  lemma LongTimeDenotesTime(t: string) returns (h: nat, m: nat)
    requires |t| == 5 && t[2] == ':' && '0' <= t[3] <= '5' && IsDigit(t[4])
    requires ('0' <= t[0] <= '1' && IsDigit(t[1])) || (t[0] == '2' && '0' <= t[1] <= '3')
    ensures SpellsTime(t, h, m)
  {
    h := DigitValue(t[0]) * 10 + DigitValue(t[1]);
    m := DigitValue(t[3]) * 10 + DigitValue(t[4]);
    assert TwoDigits(h) == t[..2];
    assert TwoDigits(m) == t[3..];
    assert t == TwoDigits(h) + ":" + TwoDigits(m);
  }

  /** `validateSearchQuery`. */
  predicate ValidateSearchQuery(q: string) {
    if q == "" || |Trim(q)| == 0 then false
    else if |Trim(q)| > 50 then false
    else true
  }

  /** A query is valid exactly when it is not all white space and its trimmed form has at
      most 50 characters. */
  lemma ValidateSearchQueryExactly(q: string)
    ensures ValidateSearchQuery(q) <==> !AllWhitespace(q) && 1 <= |Trim(q)| <= 50
  {
  }

  // ---------------------------------------------------------------- cleaning

  function CleanDefinition(d: Definition): Definition {
    d.(meaning := if Truthy(d.meaning) then SanitizeString(d.meaning) else d.meaning,
       englishDefinition :=
         if d.englishDefinition.Some? && Truthy(d.englishDefinition.value)
         then Some(SanitizeString(d.englishDefinition.value))
         else d.englishDefinition)
  }

  function CleanExample(e: Example): Example {
    e.(sentence := if Truthy(e.sentence) then SanitizeString(e.sentence) else e.sentence,
       translation := if Truthy(e.translation) then SanitizeString(e.translation) else e.translation)
  }

  function CleanTag(t: string): string {
    ToLowerCase(SanitizeString(t))
  }

  /** `cleanWordData`. */
  function CleanWordData(w: Word): (r: Word)
    ensures |r.definitions| == |w.definitions|
    ensures |r.examples| == |w.examples|
    ensures |r.tags| == |w.tags|
    ensures r.(word := w.word, definitions := w.definitions, examples := w.examples, tags := w.tags) == w
    ensures forall i | 0 <= i < |r.definitions| ::
      r.definitions[i].(meaning := w.definitions[i].meaning,
                        englishDefinition := w.definitions[i].englishDefinition) == w.definitions[i]
    ensures forall i | 0 <= i < |r.examples| ::
      r.examples[i].(sentence := w.examples[i].sentence,
                     translation := w.examples[i].translation) == w.examples[i]
    ensures r.word == if Truthy(w.word) then SanitizeWord(w.word) else w.word
    ensures forall i | 0 <= i < |r.definitions| ::
      var d := w.definitions[i];
      && r.definitions[i].meaning == (if Truthy(d.meaning) then SanitizeString(d.meaning) else d.meaning)
      && r.definitions[i].englishDefinition ==
           (if d.englishDefinition.Some? && Truthy(d.englishDefinition.value)
            then Some(SanitizeString(d.englishDefinition.value)) else d.englishDefinition)
    ensures forall i | 0 <= i < |r.examples| ::
      var e := w.examples[i];
      && r.examples[i].sentence == (if Truthy(e.sentence) then SanitizeString(e.sentence) else e.sentence)
      && r.examples[i].translation == (if Truthy(e.translation) then SanitizeString(e.translation) else e.translation)
    ensures forall i | 0 <= i < |r.tags| :: r.tags[i] == ToLowerCase(SanitizeString(w.tags[i]))
  {
    w.(word := if Truthy(w.word) then SanitizeWord(w.word) else w.word,
       definitions := seq(|w.definitions|, i requires 0 <= i < |w.definitions| => CleanDefinition(w.definitions[i])),
       examples := seq(|w.examples|, i requires 0 <= i < |w.examples| => CleanExample(w.examples[i])),
       tags := seq(|w.tags|, i requires 0 <= i < |w.tags| => CleanTag(w.tags[i])))
  }

  lemma {:induction false} ToLowerCaseKeepsShape(s: string)
    ensures IsTrimmed(s) ==> IsTrimmed(ToLowerCase(s))
    ensures IsCollapsed(s) ==> IsCollapsed(ToLowerCase(s))
    decreases |s|
  {
    if s != [] {
      ToLowerCaseTail(s);
      ToLowerCaseKeepsShape(s[1..]);
    }
  }

  lemma CleanTagIdempotent(t: string)
    ensures CleanTag(CleanTag(t)) == CleanTag(t)
  {
    var s := SanitizeString(t);
    ToLowerCaseKeepsShape(s);
    var l := ToLowerCase(s);
    TrimTrimmed(l);
    CollapseCollapsed(l);
    ToLowerCaseIdempotent(s);
  }

  /** Cleaning settles the text it cleans: cleaning a cleaned word again leaves its
      definitions, examples and tags as they are, and every cleaned tag is trimmed,
      collapsed and free of capital letters. */
  lemma CleanWordDataSettlesText(w: Word)
    ensures var c := CleanWordData(w);
      && CleanWordData(c).definitions == c.definitions
      && CleanWordData(c).examples == c.examples
      && CleanWordData(c).tags == c.tags
      && forall i | 0 <= i < |c.tags| ::
           IsTrimmed(c.tags[i]) && IsCollapsed(c.tags[i]) && forall j | 0 <= j < |c.tags[i]| :: !IsAsciiUpper(c.tags[i][j])
  {
    CleanDefinitionsSettle(w);
    CleanExamplesSettle(w);
    CleanTagsSettle(w);
  }

  lemma CleanDefinitionsSettle(w: Word)
    ensures var c := CleanWordData(w); CleanWordData(c).definitions == c.definitions
  {
    var c := CleanWordData(w);
    forall i | 0 <= i < |c.definitions| ensures CleanDefinition(c.definitions[i]) == c.definitions[i] {
      CleanDefinitionIdempotent(w.definitions[i]);
    }
  }

  lemma CleanDefinitionIdempotent(d: Definition)
    ensures CleanDefinition(CleanDefinition(d)) == CleanDefinition(d)
  {
    SanitizeIfTruthySettles(d.meaning);
    if d.englishDefinition.Some? {
      SanitizeIfTruthySettles(d.englishDefinition.value);
    }
  }

  /** The `x ? sanitizeString(x) : x` step of `cleanWordData` leaves its own result as it is. */
  lemma SanitizeIfTruthySettles(x: string)
    ensures var y := if Truthy(x) then SanitizeString(x) else x;
      (if Truthy(y) then SanitizeString(y) else y) == y
  {
    if Truthy(x) { SanitizeStringIdempotent(x); }
  }

  lemma CleanExamplesSettle(w: Word)
    ensures var c := CleanWordData(w); CleanWordData(c).examples == c.examples
  {
    var c := CleanWordData(w);
    forall i | 0 <= i < |c.examples| ensures CleanExample(c.examples[i]) == c.examples[i] {
      CleanExampleIdempotent(w.examples[i]);
    }
  }

  lemma CleanExampleIdempotent(e: Example)
    ensures CleanExample(CleanExample(e)) == CleanExample(e)
  {
    SanitizeIfTruthySettles(e.sentence);
    SanitizeIfTruthySettles(e.translation);
  }

  lemma CleanTagsSettle(w: Word)
    ensures var c := CleanWordData(w);
      && CleanWordData(c).tags == c.tags
      && forall i | 0 <= i < |c.tags| ::
           IsTrimmed(c.tags[i]) && IsCollapsed(c.tags[i]) && forall j | 0 <= j < |c.tags[i]| :: !IsAsciiUpper(c.tags[i][j])
  {
    var c := CleanWordData(w);
    forall i | 0 <= i < |c.tags|
      ensures CleanTag(c.tags[i]) == c.tags[i]
      ensures IsTrimmed(c.tags[i]) && IsCollapsed(c.tags[i])
    {
      CleanTagIdempotent(w.tags[i]);
      ToLowerCaseKeepsShape(SanitizeString(w.tags[i]));
    }
  }

  /** Sanitizing empties exactly the strings that are all white space. */
  lemma SanitizeStringEmpty(s: string)
    ensures SanitizeString(s) == "" <==> AllWhitespace(s)
  {
    if Trim(s) == [] {
      assert CollapseWhitespace(Trim(s)) == [];
    }
  }

  /** A cleaned example passes `validateExample` exactly when neither its sentence nor its
      translation is all white space. */
  lemma CleanExampleValidity(e: Example)
    ensures ValidateExample(CleanExample(e)) <==> !AllWhitespace(e.sentence) && !AllWhitespace(e.translation)
  {
    SanitizeStringEmpty(e.sentence);
    SanitizeStringEmpty(e.translation);
    assert AllWhitespace("");
  }

  /** Cleaning never turns an invalid word into a valid one. */
  lemma CleanedValidImpliesValid(w: Word)
    ensures ValidateWord(CleanWordData(w)) ==> ValidateWord(w)
  {
    var c := CleanWordData(w);
    if ValidateWord(c) {
      forall d | d in w.definitions ensures ValidateDefinition(d) {
        var i :| 0 <= i < |w.definitions| && w.definitions[i] == d;
        assert ValidateDefinition(c.definitions[i]);
      }
    }
  }

  /** The converse fails: a valid word whose headword has no letters is invalid once cleaned. */
  lemma CleaningCanInvalidate()
    ensures var w := Word("w", "42", "/p/", [Definition(None, "n.", "m", None, None)], [], 1, 1, [],
                          None, None, None, None, None, None, 0, 0);
      ValidateWord(w) && !ValidateWord(CleanWordData(w))
  {
    var w := Word("w", "42", "/p/", [Definition(None, "n.", "m", None, None)], [], 1, 1, [],
                  None, None, None, None, None, None, 0, 0);
    assert ValidateWord(w) by {
      assert ValidateDefinition(w.definitions[0]);
    }
    SanitizeWordOfDigits();
    assert CleanWordData(w).word == "";
  }

  lemma SanitizeWordOfDigits()
    ensures SanitizeWord("42") == ""
  {
    SanitizeWordOfPlain("42");
    WordCharsOfDigits();
  }

  lemma WordCharsOfDigits()
    ensures Filter("42", IsWordChar) == ""
  {
    FilterDropsAll("42", IsWordChar);
  }
}
