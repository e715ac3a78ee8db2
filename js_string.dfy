/**
 * The JavaScript string built-ins the vocabulary core relies on, over strings
 * taken as sequences of characters: `trim`, the `\s` class, `toLowerCase`
 * (on ASCII letters), `includes`, and the `replace(/\s+/g, ' ')` idiom.
 */
module JsString {
  import opened Seqs


  /** White space as ECMAScript defines it for `\s` and `String.prototype.trim`:
      the WhiteSpace and LineTerminator code points. */
  predicate IsWhitespace(c: char) {
    || c == '\t' || c == '\n' || c == '\U{0B}' || c == '\U{0C}' || c == '\r' || c == ' '
    || c == '\U{A0}' || c == '\U{1680}' || ('\U{2000}' <= c <= '\U{200A}')
    || c == '\U{2028}' || c == '\U{2029}' || c == '\U{202F}' || c == '\U{205F}'
    || c == '\U{3000}' || c == '\U{FEFF}'
  }

  predicate AllWhitespace(s: string) {
    forall i | 0 <= i < |s| :: IsWhitespace(s[i])
  }

  /** `s` neither starts nor ends with white space. */
  predicate IsTrimmed(s: string) {
    s == [] || (!IsWhitespace(s[0]) && !IsWhitespace(s[|s| - 1]))
  }

  /** `String.prototype.trimStart`: the longest suffix that does not start with white space. */
  function TrimStart(s: string): (r: string)
    ensures |r| <= |s| && r == s[|s| - |r|..]
    ensures AllWhitespace(s[..|s| - |r|])
    ensures r == [] || !IsWhitespace(r[0])
  {
    if s != [] && IsWhitespace(s[0]) then TrimStart(s[1..]) else s
  }

  /** `String.prototype.trimEnd`: the longest prefix that does not end with white space. */
  function TrimEnd(s: string): (r: string)
    ensures |r| <= |s| && r == s[..|r|]
    ensures AllWhitespace(s[|r|..])
    ensures r == [] || !IsWhitespace(r[|r| - 1])
  {
    if s != [] && IsWhitespace(s[|s| - 1]) then TrimEnd(s[..|s| - 1]) else s
  }

  /** `String.prototype.trim`. */
  function Trim(s: string): (r: string)
    ensures |r| <= |s| && IsTrimmed(r)
    ensures r == [] <==> AllWhitespace(s)
  {
    var t := TrimStart(s);
    var r := TrimEnd(t);
    assert r == [] ==> AllWhitespace(s) by {
      if r == [] {
        assert s == s[..|s| - |t|] + t;
        assert AllWhitespace(t) by { assert t == t[|r|..]; }
      }
    }
    r
  }

  /** `trim` removes white space at the two ends and nothing else: the input is the
      result with only white space before it and after it. */
  lemma TrimRemovesOnlyEnds(s: string)
    ensures exists before, after ::
      && s == before + Trim(s) + after
      && AllWhitespace(before) && AllWhitespace(after)
  {
    var t := TrimStart(s);
    TrimSplits(s);
    TrimWitness(s, s[..|s| - |t|], t[|TrimEnd(t)|..]);
  }

  lemma TrimSplits(s: string)
    ensures var t := TrimStart(s); s == s[..|s| - |t|] + Trim(s) + t[|TrimEnd(t)|..]
  {
    var t := TrimStart(s);
    TrimUnfold(s);
    SplitAroundPrefixOfSuffix(s, t, TrimEnd(t));
  }

  lemma TrimWitness(s: string, before: string, after: string)
    requires s == before + Trim(s) + after && AllWhitespace(before) && AllWhitespace(after)
    ensures exists before, after ::
      && s == before + Trim(s) + after
      && AllWhitespace(before) && AllWhitespace(after)
  {
  }

  lemma TrimUnfold(s: string)
    ensures Trim(s) == TrimEnd(TrimStart(s))
  {
  }

  /** Removing white space from the front of a string that has some shortens it. */
  lemma TrimStartShrinks(s: string)
    requires s != [] && IsWhitespace(s[0])
    ensures |TrimStart(s)| < |s|
  {
    var rest := TrimStart(s);
    if |rest| == |s| {
      assert false;
    }
  }

  /** A string that does not start with white space is its own `trimStart`. */
  lemma TrimStartStops(s: string)
    requires s == [] || !IsWhitespace(s[0])
    ensures TrimStart(s) == s
  {
  }

  /** Trimming removes nothing from a string that is already trimmed. */
  lemma TrimTrimmed(s: string)
    requires IsTrimmed(s)
    ensures Trim(s) == s
  {
    assert TrimStart(s) == s by {
      if s != [] { assert !IsWhitespace(s[0]); }
    }
    assert TrimEnd(s) == s by {
      if s != [] { assert !IsWhitespace(s[|s| - 1]); }
    }
  }

  predicate IsAsciiUpper(c: char) { 'A' <= c <= 'Z' }

  predicate IsAsciiLower(c: char) { 'a' <= c <= 'z' }

  function LowerChar(c: char): (d: char)
    ensures !IsAsciiUpper(d)
    ensures IsAsciiUpper(c) ==> IsAsciiLower(d) && d as int == c as int + 32
    ensures !IsAsciiUpper(c) ==> d == c
  {
    if IsAsciiUpper(c) then (c as int + 32) as char else c
  }

  /** `String.prototype.toLowerCase`, on ASCII letters; every other character is kept. */
  function ToLowerCase(s: string): (r: string)
    ensures |r| == |s|
    ensures forall i | 0 <= i < |r| :: !IsAsciiUpper(r[i])
    ensures forall i | 0 <= i < |r| :: IsWhitespace(r[i]) <==> IsWhitespace(s[i])
    ensures forall i | 0 <= i < |r| :: !IsAsciiUpper(s[i]) ==> r[i] == s[i]
    ensures forall i | 0 <= i < |r| :: IsAsciiUpper(s[i]) ==> IsAsciiLower(r[i]) && r[i] as int == s[i] as int + 32
  {
    seq(|s|, i requires 0 <= i < |s| => LowerChar(s[i]))
  }

  lemma ToLowerCaseTail(s: string)
    requires s != []
    ensures ToLowerCase(s)[1..] == ToLowerCase(s[1..])
  {
  }

  /** Lower-casing a string twice is lower-casing it once. */
  lemma ToLowerCaseIdempotent(s: string)
    ensures ToLowerCase(ToLowerCase(s)) == ToLowerCase(s)
  {
  }

  /** `needle` occurs in `hay` starting at position `i`. */
  ghost predicate OccursAt(hay: string, needle: string, i: int) {
    0 <= i && i + |needle| <= |hay| && hay[i..i + |needle|] == needle
  }

  predicate StartsWith(s: string, prefix: string) {
    |prefix| <= |s| && s[..|prefix|] == prefix
  }

  /** `String.prototype.includes`: `needle` is a substring of `hay`. */
  predicate Includes(hay: string, needle: string)
    decreases |hay|
  {
    StartsWith(hay, needle) || (hay != [] && Includes(hay[1..], needle))
  }

  /** `Includes` holds exactly when the needle occurs at some position of the haystack. */
  lemma {:induction false} IncludesIffOccurs(hay: string, needle: string)
    ensures Includes(hay, needle) <==> exists i :: OccursAt(hay, needle, i)
  {
    if StartsWith(hay, needle) {
      assert OccursAt(hay, needle, 0);
    } else if hay == [] {
      assert forall i :: !OccursAt(hay, needle, i);
    } else {
      IncludesIffOccurs(hay[1..], needle);
      if Includes(hay[1..], needle) {
        var i :| OccursAt(hay[1..], needle, i);
        assert OccursAt(hay, needle, i + 1);
      } else {
        forall i | OccursAt(hay, needle, i) ensures false {
          if i > 0 {
            assert OccursAt(hay[1..], needle, i - 1);
          }
        }
      }
    }
  }

  /** The empty string is included in every string. */
  lemma IncludesEmpty(hay: string)
    ensures Includes(hay, "")
  {
  }

  /** Every white-space character is a plain space, and no two white-space characters
      are adjacent. */
  predicate IsCollapsed(s: string)
    decreases |s|
  {
    s == [] ||
    (&& (IsWhitespace(s[0]) ==> s[0] == ' ' && (|s| == 1 || !IsWhitespace(s[1])))
     && IsCollapsed(s[1..]))
  }

  /** `IsCollapsed` read position by position. */
  lemma {:induction false} CollapsedAt(s: string, i: nat)
    requires IsCollapsed(s) && i < |s| && IsWhitespace(s[i])
    ensures s[i] == ' ' && (i + 1 < |s| ==> !IsWhitespace(s[i + 1]))
  {
    if i > 0 {
      CollapsedAt(s[1..], i - 1);
    }
  }

  /** `s.replace(/\s+/g, ' ')`: every maximal run of white space becomes one space. */
  function CollapseWhitespace(s: string): (r: string)
    ensures |r| <= |s| && IsCollapsed(r)
    ensures s != [] ==> r != [] && (IsWhitespace(r[0]) <==> IsWhitespace(s[0]))
    ensures s != [] && !IsWhitespace(s[0]) ==> r[0] == s[0]
    ensures s != [] && !IsWhitespace(s[|s| - 1]) ==> r[|r| - 1] == s[|s| - 1]
    decreases |s|
  {
    if s == [] then []
    else if IsWhitespace(s[0]) then
      var rest := TrimStart(s);
      [' '] + CollapseWhitespace(rest)
    else [s[0]] + CollapseWhitespace(s[1..])
  }

  /** A string whose white space is already collapsed is left as it is. */
  lemma {:induction false} CollapseCollapsed(s: string)
    requires IsCollapsed(s)
    ensures CollapseWhitespace(s) == s
    decreases |s|
  {
    if s != [] {
      CollapseCollapsed(s[1..]);
      if IsWhitespace(s[0]) {
        TrimStartStops(s[1..]);
      }
      assert s == [s[0]] + s[1..];
    }
  }

  // ---------------------------------------------------------------- words

  /** The run of characters other than white space at the front of `s`. */
  function LeadingWord(s: string): (w: string)
    ensures |w| <= |s| && w == s[..|w|]
    ensures forall i | 0 <= i < |w| :: !IsWhitespace(w[i])
    ensures |w| == |s| || IsWhitespace(s[|w|])
    decreases |s|
  {
    if s == [] || IsWhitespace(s[0]) then [] else [s[0]] + LeadingWord(s[1..])
  }

  /** The words of `s`: its maximal runs of characters other than white space, in order. */
  function Words(s: string): seq<string>
    decreases |s|
  {
    var t := TrimStart(s);
    if t == [] then []
    else
      var w := LeadingWord(t);
      [w] + Words(t[|w|..])
  }

  /** White space at the front separates no words. */
  lemma WordsSkipSpace(s: string)
    requires s != [] && IsWhitespace(s[0])
    ensures Words(s) == Words(s[1..])
  {
  }

  lemma WordsOfTrimStart(s: string)
    ensures Words(TrimStart(s)) == Words(s)
  {
    TrimStartStops(TrimStart(s));
  }

  /** A character other than white space starts a new word before white space, and
      joins the first word otherwise. */
  lemma WordsCons(c: char, x: string)
    requires !IsWhitespace(c)
    ensures x == [] || IsWhitespace(x[0]) ==> Words([c] + x) == [[c]] + Words(x)
    ensures x != [] && !IsWhitespace(x[0]) ==>
      Words(x) != [] && Words([c] + x) == [[c] + Words(x)[0]] + Words(x)[1..]
  {
    var s := [c] + x;
    assert s[1..] == x;
    assert TrimStart(s) == s;
    if x == [] || IsWhitespace(x[0]) {
      assert LeadingWord(s) == [c];
    } else {
      assert TrimStart(x) == x;
      var v := LeadingWord(x);
      assert LeadingWord(s) == [c] + v;
      assert s[|v| + 1..] == x[|v|..];
    }
  }

  /** Collapsing white space keeps the words. */
  lemma {:induction false} WordsOfCollapse(s: string)
    ensures Words(CollapseWhitespace(s)) == Words(s)
    decreases |s|
  {
    if s != [] {
      if IsWhitespace(s[0]) {
        TrimStartShrinks(s);
        WordsOfCollapse(TrimStart(s));
        CollapseSpaceKeepsWords(s);
      } else {
        WordsOfCollapse(s[1..]);
        CollapseCharKeepsWords(s);
      }
    }
  }

  lemma CollapseSpaceKeepsWords(s: string)
    requires s != [] && IsWhitespace(s[0])
    requires Words(CollapseWhitespace(TrimStart(s))) == Words(TrimStart(s))
    ensures Words(CollapseWhitespace(s)) == Words(s)
  {
    var y := CollapseWhitespace(TrimStart(s));
    assert CollapseWhitespace(s) == [' '] + y;
    assert ([' '] + y)[1..] == y;
    WordsSkipSpace([' '] + y);
    WordsOfTrimStart(s);
  }

  lemma CollapseCharKeepsWords(s: string)
    requires s != [] && !IsWhitespace(s[0])
    requires Words(CollapseWhitespace(s[1..])) == Words(s[1..])
    ensures Words(CollapseWhitespace(s)) == Words(s)
  {
    CollapseKeepsChar(s);
    HeadTail(s);
    WordsConsAgree(s[0], s[1..], CollapseWhitespace(s[1..]));
  }

  lemma CollapseKeepsChar(s: string)
    requires s != [] && !IsWhitespace(s[0])
    ensures CollapseWhitespace(s) == [s[0]] + CollapseWhitespace(s[1..])
  {
  }

  /** Two strings with the same words that both start (or both do not start) a word keep
      the same words after the same leading character. */
  lemma WordsConsAgree(c: char, x: string, y: string)
    requires !IsWhitespace(c) && Words(x) == Words(y)
    requires (x == [] || IsWhitespace(x[0])) <==> (y == [] || IsWhitespace(y[0]))
    ensures Words([c] + x) == Words([c] + y)
  {
    WordsCons(c, x);
    WordsCons(c, y);
  }

  lemma {:induction false} TrimStartAppendSpace(s: string, c: char)
    requires IsWhitespace(c)
    ensures TrimStart(s + [c]) == if TrimStart(s) == [] then [] else TrimStart(s) + [c]
    decreases |s|
  {
    if s == [] {
      assert [c][1..] == [];
    } else {
      assert (s + [c])[1..] == s[1..] + [c];
      TrimStartAppendSpace(s[1..], c);
    }
  }

  lemma {:induction false} LeadingWordAppendSpace(s: string, c: char)
    requires IsWhitespace(c)
    ensures LeadingWord(s + [c]) == LeadingWord(s)
    decreases |s|
  {
    if s != [] && !IsWhitespace(s[0]) {
      assert (s + [c])[1..] == s[1..] + [c];
      LeadingWordAppendSpace(s[1..], c);
    }
  }

  /** White space at the end separates no words. */
  lemma {:induction false} WordsAppendSpace(s: string, c: char)
    requires IsWhitespace(c)
    ensures Words(s + [c]) == Words(s)
    decreases |s|
  {
    TrimStartAppendSpace(s, c);
    var t := TrimStart(s);
    if t != [] {
      var w := LeadingWord(t);
      WordsAppendSpace(t[|w|..], c);
      WordsAppendSpaceStep(s, c);
    }
  }

  lemma WordsAppendSpaceStep(s: string, c: char)
    requires IsWhitespace(c) && TrimStart(s) != []
    requires var t := TrimStart(s); var w := LeadingWord(t); Words(t[|w|..] + [c]) == Words(t[|w|..])
    ensures Words(s + [c]) == Words(s)
  {
    var t := TrimStart(s);
    var w := LeadingWord(t);
    TrimStartAppendSpace(s, c);
    LeadingWordAppendSpace(t, c);
    DropAppend(t, |w|, c);
    WordsUnfold(s);
    WordsUnfold(s + [c]);
  }

  lemma WordsUnfold(s: string)
    requires TrimStart(s) != []
    ensures var t := TrimStart(s); var w := LeadingWord(t); Words(s) == [w] + Words(t[|w|..])
  {
  }

  lemma {:induction false} WordsDropTrailingSpace(s: string, k: nat)
    requires k <= |s| && AllWhitespace(s[k..])
    ensures Words(s) == Words(s[..k])
    decreases |s| - k
  {
    if k < |s| {
      var p := s[..|s| - 1];
      assert s == p + [s[|s| - 1]];
      assert s[|s| - 1] == s[k..][|s| - 1 - k];
      WordsAppendSpace(p, s[|s| - 1]);
      assert p[k..] == s[k..][..|s| - 1 - k];
      WordsDropTrailingSpace(p, k);
      assert p[..k] == s[..k];
    } else {
      assert s[..k] == s;
    }
  }

  /** Trimming keeps the words. */
  lemma WordsOfTrim(s: string)
    ensures Words(Trim(s)) == Words(s)
  {
    var t := TrimStart(s);
    WordsOfTrimStart(s);
    WordsDropTrailingSpace(t, |TrimEnd(t)|);
  }

  predicate IsDigit(c: char) { '0' <= c <= '9' }

  function DigitChar(n: nat): (c: char)
    requires n < 10
    ensures IsDigit(c)
  {
    ('0' as int + n) as char
  }

  function DigitValue(c: char): (n: nat)
    requires IsDigit(c)
    ensures n < 10 && DigitChar(n) == c
  {
    c as int - '0' as int
  }

  /** A non-negative integer converted to a string (`${n}`): its decimal digits, most
      significant first, without leading zeros. */
  function NatToString(n: nat): (s: string)
    ensures s != [] && forall i | 0 <= i < |s| :: IsDigit(s[i])
    decreases n
  {
    if n < 10 then [DigitChar(n)] else NatToString(n / 10) + [DigitChar(n % 10)]
  }

  /** The value of a string of decimal digits. */
  function ParseNat(s: string): nat
    requires forall i | 0 <= i < |s| :: IsDigit(s[i])
  {
    if s == [] then 0 else ParseNat(s[..|s| - 1]) * 10 + DigitValue(s[|s| - 1])
  }

  /** Reading back the digits of a number gives the number. */
  lemma {:induction false} ParseNatToString(n: nat)
    ensures ParseNat(NatToString(n)) == n
    decreases n
  {
    if n >= 10 {
      var s := NatToString(n);
      assert s[..|s| - 1] == NatToString(n / 10);
      ParseNatToString(n / 10);
    }
  }

  /** Different numbers are written differently. */
  lemma NatToStringInjective(m: nat, n: nat)
    ensures NatToString(m) == NatToString(n) ==> m == n
  {
    ParseNatToString(m);
    ParseNatToString(n);
  }
}
