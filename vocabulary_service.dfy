/**
 * The vocabulary service (src/services/vocabularyService.ts): searching and
 * filtering words, drawing random words, counting popular tags and adding a
 * custom word.
 *
 * The store's word collection is a `seq<Word>` in the order the store lists it
 * (`getAll`); the store's `search(fn)` is `getAll` followed by `filter(fn)`.
 * Clock readings and the shuffle's random draws are parameters.
 */
module VocabularyService {
  import opened Wrappers
  import opened Seqs
  import opened JsString
  import opened Types

  function Min(a: int, b: int): int { if a <= b then a else b }

  function Max(a: int, b: int): int { if a >= b then a else b }

  // ---------------------------------------------------------------- searchWords

  /** An optional filter list that is present and non-empty. */
  predicate Nonempty<T>(xs: Option<seq<T>>) {
    xs.Some? && |xs.value| > 0
  }

  /** The text test: a query that trims to nothing accepts every word; otherwise the
      lower-cased query, untrimmed, must occur in the lower-cased headword or in the
      lower-cased meaning of some definition. */
  predicate MatchesQuery(w: Word, query: string) {
    if Trim(query) != "" then
      var q := ToLowerCase(query);
      Includes(ToLowerCase(w.word), q) || exists d | d in w.definitions :: Includes(ToLowerCase(d.meaning), q)
    else true
  }

  /** The filter test: categories are ANDed, values within a category ORed; an absent or
      empty list, and an absent or empty word set, impose nothing. */
  predicate MatchesFilters(w: Word, filters: Option<SearchFilters>) {
    if filters.None? then true
    else
      var f := filters.value;
      if Nonempty(f.difficulty) && w.difficulty !in f.difficulty.value then false
      else if Nonempty(f.partOfSpeech) && !exists d | d in w.definitions :: d.partOfSpeech in f.partOfSpeech.value then false
      else if Nonempty(f.tags) && !exists t | t in f.tags.value :: t in w.tags then false
      else if f.wordSet.Some? && f.wordSet.value != "" && w.wordSet != f.wordSet then false
      else true
  }

  /** The callback `searchWords` hands to the store's `search`. */
  predicate SearchPredicate(w: Word, query: string, filters: Option<SearchFilters>) {
    MatchesQuery(w, query) && MatchesFilters(w, filters)
  }

  /** `searchWords(query, filters)` over the stored words `all`. */
  function SearchWords(all: seq<Word>, query: string, filters: Option<SearchFilters>): (r: seq<Word>)
    ensures IsSubsequence(r, all)
    ensures forall w :: w in r <==> w in all && SearchPredicate(w, query, filters)
    ensures forall w :: multiset(r)[w] == if SearchPredicate(w, query, filters) then multiset(all)[w] else 0
  {
    var keep := w => SearchPredicate(w, query, filters);
    FilterCount(all, keep);
    Filter(all, keep)
  }

  /** A query that is only white space, with no filters or with the all-absent filter
      value, returns every stored word, in store order. */
  lemma SearchBlankQueryReturnsAll(all: seq<Word>, query: string, filters: Option<SearchFilters>)
    requires AllWhitespace(query)
    requires filters == None || filters == Some(NoFilters)
    ensures SearchWords(all, query, filters) == all
  {
    FilterKeepsAll(all, w => SearchPredicate(w, query, filters));
  }

  /** The all-absent filter value filters exactly as no filter at all. */
  lemma NoFiltersMeansNoFiltering(all: seq<Word>, query: string)
    ensures SearchWords(all, query, Some(NoFilters)) == SearchWords(all, query, None)
  {
    FilterSame(all, w => SearchPredicate(w, query, Some(NoFilters)), w => SearchPredicate(w, query, None));
  }

  lemma {:induction false} FilterSame(s: seq<Word>, p: Word -> bool, q: Word -> bool)
    requires forall w :: p(w) == q(w)
    ensures Filter(s, p) == Filter(s, q)
  {
    if s != [] {
      FilterSame(s[1..], p, q);
    }
  }

  /** With a non-blank query, a returned word contains the lower-cased query in its
      lower-cased headword or in one of its lower-cased meanings. */
  lemma SearchResultContainsQuery(all: seq<Word>, query: string, filters: Option<SearchFilters>, w: Word)
    requires w in SearchWords(all, query, filters)
    requires !AllWhitespace(query)
    ensures var q := ToLowerCase(query);
      || (exists i :: OccursAt(ToLowerCase(w.word), q, i))
      || (exists d, i :: d in w.definitions && OccursAt(ToLowerCase(d.meaning), q, i))
  {
    var q := ToLowerCase(query);
    assert MatchesQuery(w, query);
    IncludesIffOccurs(ToLowerCase(w.word), q);
    if !Includes(ToLowerCase(w.word), q) {
      var d :| d in w.definitions && Includes(ToLowerCase(d.meaning), q);
      IncludesIffOccurs(ToLowerCase(d.meaning), q);
    }
  }

  /** A returned word satisfies every non-empty filter category. */
  lemma SearchResultSatisfiesFilters(all: seq<Word>, query: string, f: SearchFilters, w: Word)
    requires w in SearchWords(all, query, Some(f))
    ensures Nonempty(f.difficulty) ==> w.difficulty in f.difficulty.value
    ensures Nonempty(f.partOfSpeech) ==>
      exists i :: 0 <= i < |w.definitions| && w.definitions[i].partOfSpeech in f.partOfSpeech.value
    ensures Nonempty(f.tags) ==> exists t :: t in f.tags.value && t in w.tags
    ensures f.wordSet.Some? && f.wordSet.value != "" ==> w.wordSet == f.wordSet
  {
    assert MatchesFilters(w, Some(f));
    if Nonempty(f.partOfSpeech) {
      var d :| d in w.definitions && d.partOfSpeech in f.partOfSpeech.value;
      var i :| 0 <= i < |w.definitions| && w.definitions[i] == d;
    }
  }

  /** Filtering on difficulty 3 alone returns exactly the stored words of difficulty 3
      that match the query. */
  lemma SearchByOneDifficulty(all: seq<Word>, query: string, w: Word)
    ensures w in SearchWords(all, query, Some(NoFilters.(difficulty := Some([3])))) <==>
      w in all && w.difficulty == 3 && MatchesQuery(w, query)
  {
  }

  // ---------------------------------------------------------------- getRandomWords

  /** `getWordsFromSet(setId)`: the store's `getByIndex(words, 'wordSet', setId)`. */
  function WordsInSet(all: seq<Word>, setId: string): (r: seq<Word>)
    ensures IsSubsequence(r, all)
    ensures forall w :: w in r <==> w in all && w.wordSet == Some(setId)
    ensures forall w :: multiset(r)[w] == if w.wordSet == Some(setId) then multiset(all)[w] else 0
  {
    var keep := (w: Word) => w.wordSet == Some(setId);
    FilterCount(all, keep);
    Filter(all, keep)
  }

  /** The words `getRandomWords` draws from: the word set's words when a non-empty word set
      is given, all words otherwise, narrowed by a non-empty difficulty list. */
  function RandomPool(all: seq<Word>, filters: Option<SearchFilters>): seq<Word> {
    var scoped :=
      if filters.Some? && filters.value.wordSet.Some? && filters.value.wordSet.value != ""
      then WordsInSet(all, filters.value.wordSet.value)
      else all;
    if filters.Some? && Nonempty(filters.value.difficulty)
    then Filter(scoped, (w: Word) => w.difficulty in filters.value.difficulty.value)
    else scoped
  }

  /** Every word in the pool is a stored word of the requested set and difficulty. */
  lemma RandomPoolMembers(all: seq<Word>, filters: Option<SearchFilters>, w: Word)
    ensures w in RandomPool(all, filters) <==>
      && w in all
      && (filters.Some? && filters.value.wordSet.Some? && filters.value.wordSet.value != "" ==>
            w.wordSet == filters.value.wordSet)
      && (filters.Some? && Nonempty(filters.value.difficulty) ==> w.difficulty in filters.value.difficulty.value)
  {
  }

  /** The number of elements `xs.slice(0, Math.min(count, n))` keeps of `n`: a negative end
      counts back from the end of the array. */
  function SliceLength(count: int, n: nat): (k: nat)
    ensures k <= n
  {
    var end := Min(count, n);
    if end >= 0 then end else Max(n + end, 0)
  }

  /** Shuffles `a` in place by swapping each position with a later one picked by the next
      random draw; a missing draw leaves the position in place. */
  method Shuffle(a: array<Word>, draws: seq<nat>)
    modifies a
    ensures multiset(a[..]) == old(multiset(a[..]))
  {
    var i := 0;
    while i < a.Length
      invariant 0 <= i <= a.Length
      invariant multiset(a[..]) == old(multiset(a[..]))
    {
      var j := if i < |draws| then i + draws[i] % (a.Length - i) else i;
      a[i], a[j] := a[j], a[i];
      i := i + 1;
    }
  }

  /** `getRandomWords(count, filters)`: shuffles the pool and keeps a prefix of
      `Math.min(count, pool length)` words; asking for more words than the pool holds
      returns the whole pool, rearranged. */
  method GetRandomWords(all: seq<Word>, count: int, filters: Option<SearchFilters>, draws: seq<nat>)
    returns (r: seq<Word>)
    ensures |r| == SliceLength(count, |RandomPool(all, filters)|)
    ensures count >= 0 ==> |r| == Min(count, |RandomPool(all, filters)|)
    ensures count < 0 ==> |r| == Max(|RandomPool(all, filters)| + count, 0)
    ensures multiset(r) <= multiset(RandomPool(all, filters))
    ensures count >= |RandomPool(all, filters)| ==> multiset(r) == multiset(RandomPool(all, filters))
  {
    var pool := RandomPool(all, filters);
    var shuffled := new Word[|pool|](i requires 0 <= i < |pool| => pool[i]);
    assert shuffled[..] == pool;
    Shuffle(shuffled, draws);
    var k := SliceLength(count, shuffled.Length);
    r := shuffled[..k];
    assert shuffled[..] == r + shuffled[k..];
  }

  /** Every word `getRandomWords` returns is a stored word that passes its filters. */
  lemma RandomWordsFromPool(all: seq<Word>, filters: Option<SearchFilters>, r: seq<Word>, w: Word)
    requires multiset(r) <= multiset(RandomPool(all, filters))
    requires w in r
    ensures w in all
    ensures filters.Some? && Nonempty(filters.value.difficulty) ==> w.difficulty in filters.value.difficulty.value
  {
    assert w in multiset(r);
    assert w in RandomPool(all, filters);
    RandomPoolMembers(all, filters, w);
  }

  // ---------------------------------------------------------------- getPopularTags

  /** Every tag of every word, word by word, in order. */
  function AllTags(ws: seq<Word>): seq<string> {
    if ws == [] then [] else AllTags(ws[..|ws| - 1]) + ws[|ws| - 1].tags
  }

  /** How many times `t` occurs among the words' tags. */
  function TagCount(ws: seq<Word>, t: string): nat {
    multiset(AllTags(ws))[t]
  }

  /** The distinct elements of `s`, in order of first occurrence. */
  function Dedup(s: seq<string>): (r: seq<string>)
    ensures Distinct(r)
    ensures forall x :: x in r <==> x in s
  {
    if s == [] then []
    else
      var d := Dedup(s[..|s| - 1]);
      if s[|s| - 1] in d then d else d + [s[|s| - 1]]
  }

  /** `counts` and `keys` record the tags in `seen`: a count per tag, and the tags in
      the order they were first seen. */
  ghost predicate Tally(counts: map<string, nat>, keys: seq<string>, seen: seq<string>) {
    && keys == Dedup(seen)
    && (forall t :: t in counts <==> t in seen)
    && (forall t | t in counts :: counts[t] == multiset(seen)[t])
  }

  /** One step of the inner loop: `tagCounts[tag] = (tagCounts[tag] || 0) + 1`, where a key
      added to the dictionary goes to the end of its key order. */
  method CountTag(counts: map<string, nat>, keys: seq<string>, ghost seen: seq<string>, tag: string)
    returns (counts': map<string, nat>, keys': seq<string>)
    requires Tally(counts, keys, seen)
    ensures Tally(counts', keys', seen + [tag])
  {
    assert (seen + [tag])[..|seen|] == seen;
    if tag in counts {
      counts', keys' := counts[tag := counts[tag] + 1], keys;
    } else {
      counts', keys' := counts[tag := 1], keys + [tag];
    }
  }

  /** The inner loop: counts every tag of one word. */
  method CountWordTags(counts: map<string, nat>, keys: seq<string>, ghost seen: seq<string>, tags: seq<string>)
    returns (counts': map<string, nat>, keys': seq<string>)
    requires Tally(counts, keys, seen)
    ensures Tally(counts', keys', seen + tags)
  {
    counts', keys' := counts, keys;
    assert seen + tags[..0] == seen;
    for j := 0 to |tags|
      invariant Tally(counts', keys', seen + tags[..j])
    {
      assert seen + tags[..j + 1] == (seen + tags[..j]) + [tags[j]];
      counts', keys' := CountTag(counts', keys', seen + tags[..j], tags[j]);
    }
    assert tags[..|tags|] == tags;
  }

  /** The nested `forEach` loops of `getPopularTags`: a count per tag, and the tags in the
      order they were first seen, which is the order `Object.entries` lists them in. */
  method CountTags(words: seq<Word>) returns (counts: map<string, nat>, keys: seq<string>)
    ensures keys == Dedup(AllTags(words))
    ensures forall t :: t in counts <==> t in keys
    ensures forall t | t in counts :: counts[t] == TagCount(words, t)
  {
    counts, keys := map[], [];
    for i := 0 to |words|
      invariant Tally(counts, keys, AllTags(words[..i]))
    {
      assert words[..i + 1][..i] == words[..i];
      counts, keys := CountWordTags(counts, keys, AllTags(words[..i]), words[i].tags);
    }
    assert words[..|words|] == words;
  }

  /** A tag's count, zero for a tag never seen. */
  function CountOf(counts: map<string, nat>, t: string): nat {
    if t in counts then counts[t] else 0
  }

  /** Highest count first: no element has a lower count than the one after it. */
  ghost predicate SortedByCount(s: seq<string>, counts: map<string, nat>) {
    |s| <= 1 || (CountOf(counts, s[0]) >= CountOf(counts, s[1]) && SortedByCount(s[1..], counts))
  }

  /** In a list sorted by count, an earlier element never has a lower count. */
  lemma {:induction false} SortedPairwise(s: seq<string>, counts: map<string, nat>, i: nat, j: nat)
    requires SortedByCount(s, counts) && i <= j < |s|
    ensures CountOf(counts, s[i]) >= CountOf(counts, s[j])
    decreases j
  {
    if i < j {
      if i == 0 {
        SortedPairwise(s[1..], counts, 0, j - 1);
      } else {
        SortedPairwise(s[1..], counts, i - 1, j - 1);
      }
    }
  }

  /** Inserts `t` after every leading element whose count is at least its own; on a sorted
      list, that is after every element whose count is at least its own. */
  function InsertByCount(sorted: seq<string>, t: string, counts: map<string, nat>): (r: seq<string>)
    requires SortedByCount(sorted, counts)
    ensures multiset(r) == multiset(sorted) + multiset{t}
    ensures SortedByCount(r, counts)
    ensures |r| == |sorted| + 1 && (r[0] == t || (sorted != [] && r[0] == sorted[0]))
  {
    if sorted == [] then [t]
    else if CountOf(counts, sorted[0]) >= CountOf(counts, t) then
      var rest := InsertByCount(sorted[1..], t, counts);
      HeadTail(sorted);
      InsertBehindHead(sorted[0], sorted[1..], rest, t, counts);
      [sorted[0]] + rest
    else
      [t] + sorted
  }

  /** The step of `InsertByCount` that keeps the head in front of the insertion. */
  lemma InsertBehindHead(x: string, tail: seq<string>, rest: seq<string>, t: string, counts: map<string, nat>)
    requires SortedByCount([x] + tail, counts) && CountOf(counts, x) >= CountOf(counts, t)
    requires multiset(rest) == multiset(tail) + multiset{t} && SortedByCount(rest, counts)
    requires |rest| == |tail| + 1 && (rest[0] == t || (tail != [] && rest[0] == tail[0]))
    ensures multiset([x] + rest) == multiset([x] + tail) + multiset{t}
    ensures SortedByCount([x] + rest, counts)
  {
    assert ([x] + rest)[1..] == rest;
    assert ([x] + tail)[1..] == tail;
  }

  /** `entries.sort(([, a], [, b]) => b - a)`: a sort on count, highest first, that keeps
      tags of equal count in their first-seen order. */
  function SortByCount(keys: seq<string>, counts: map<string, nat>): (r: seq<string>)
    ensures multiset(r) == multiset(keys)
    ensures SortedByCount(r, counts)
  {
    if keys == [] then []
    else
      assert keys == keys[..|keys| - 1] + [keys[|keys| - 1]];
      InsertByCount(SortByCount(keys[..|keys| - 1], counts), keys[|keys| - 1], counts)
  }

  /** The elements of `s` whose count is `v`, in their order in `s`. */
  function Ties(s: seq<string>, counts: map<string, nat>, v: nat): seq<string>
    decreases |s|
  {
    if s == [] then []
    else (if CountOf(counts, s[0]) == v then [s[0]] else []) + Ties(s[1..], counts, v)
  }

  lemma TiesCons(x: string, s: seq<string>, counts: map<string, nat>, v: nat)
    ensures Ties([x] + s, counts, v) == (if CountOf(counts, x) == v then [x] else []) + Ties(s, counts, v)
  {
    assert ([x] + s)[1..] == s;
  }

  lemma {:induction false} TiesConcat(a: seq<string>, b: seq<string>, counts: map<string, nat>, v: nat)
    ensures Ties(a + b, counts, v) == Ties(a, counts, v) + Ties(b, counts, v)
    decreases |a|
  {
    if a == [] {
      assert a + b == b;
    } else {
      TiesConcat(a[1..], b, counts, v);
      HeadTailConcat(a, b);
      TiesCons(a[0], a[1..] + b, counts, v);
    }
  }

  lemma {:induction false} TiesNone(s: seq<string>, counts: map<string, nat>, v: nat)
    requires forall i | 0 <= i < |s| :: CountOf(counts, s[i]) < v
    ensures Ties(s, counts, v) == []
    decreases |s|
  {
    if s != [] {
      TiesNone(s[1..], counts, v);
    }
  }

  /** Inserting `t` puts it after every element of its own count already there. */
  lemma {:induction false} InsertByCountKeepsTies(sorted: seq<string>, t: string, counts: map<string, nat>, v: nat)
    requires SortedByCount(sorted, counts)
    ensures Ties(InsertByCount(sorted, t, counts), counts, v)
         == Ties(sorted, counts, v) + (if CountOf(counts, t) == v then [t] else [])
    decreases |sorted|
  {
    if sorted == [] {
    } else if CountOf(counts, sorted[0]) >= CountOf(counts, t) {
      InsertAfterHead(sorted, t, counts);
      InsertByCountKeepsTies(sorted[1..], t, counts, v);
      HeadTail(sorted);
      TiesStep(sorted[0], InsertByCount(sorted[1..], t, counts), sorted[1..], t, counts, v);
    } else {
      InsertAtFront(sorted, t, counts);
      TiesCons(t, sorted, counts, v);
      if CountOf(counts, t) == v {
        OutrankedHasNoTies(sorted, counts, v);
      }
    }
  }

  lemma TiesStep(x: string, r: seq<string>, s: seq<string>, t: string, counts: map<string, nat>, v: nat)
    requires Ties(r, counts, v) == Ties(s, counts, v) + (if CountOf(counts, t) == v then [t] else [])
    ensures Ties([x] + r, counts, v) == Ties([x] + s, counts, v) + (if CountOf(counts, t) == v then [t] else [])
  {
    TiesCons(x, r, counts, v);
    TiesCons(x, s, counts, v);
  }

  lemma InsertAfterHead(sorted: seq<string>, t: string, counts: map<string, nat>)
    requires SortedByCount(sorted, counts) && sorted != []
    requires CountOf(counts, sorted[0]) >= CountOf(counts, t)
    ensures SortedByCount(sorted[1..], counts)
    ensures InsertByCount(sorted, t, counts) == [sorted[0]] + InsertByCount(sorted[1..], t, counts)
  {
  }

  lemma InsertAtFront(sorted: seq<string>, t: string, counts: map<string, nat>)
    requires SortedByCount(sorted, counts) && sorted != []
    requires CountOf(counts, sorted[0]) < CountOf(counts, t)
    ensures InsertByCount(sorted, t, counts) == [t] + sorted
  {
  }

  lemma OutrankedHasNoTies(sorted: seq<string>, counts: map<string, nat>, v: nat)
    requires SortedByCount(sorted, counts) && sorted != [] && CountOf(counts, sorted[0]) < v
    ensures Ties(sorted, counts, v) == []
  {
    forall i | 0 <= i < |sorted| ensures CountOf(counts, sorted[i]) < v {
      SortedPairwise(sorted, counts, 0, i);
    }
    TiesNone(sorted, counts, v);
  }

  /** The sort is stable: tags of the same count keep the order they had in `keys`. */
  lemma {:induction false} SortByCountStable(keys: seq<string>, counts: map<string, nat>, v: nat)
    ensures Ties(SortByCount(keys, counts), counts, v) == Ties(keys, counts, v)
    decreases |keys|
  {
    if keys != [] {
      var init := keys[..|keys| - 1];
      var last := keys[|keys| - 1];
      SortByCountStable(init, counts, v);
      SortByCountUnfold(keys, counts);
      InitLast(keys);
      InsertByCountKeepsTies(SortByCount(init, counts), last, counts, v);
      TiesAppend(SortByCount(init, counts), init, SortByCount(keys, counts), last, counts, v);
    }
  }

  lemma TiesAppend(sortedInit: seq<string>, init: seq<string>, r: seq<string>, last: string,
                   counts: map<string, nat>, v: nat)
    requires Ties(sortedInit, counts, v) == Ties(init, counts, v)
    requires Ties(r, counts, v) == Ties(sortedInit, counts, v) + (if CountOf(counts, last) == v then [last] else [])
    ensures Ties(r, counts, v) == Ties(init + [last], counts, v)
  {
    TiesConcat(init, [last], counts, v);
  }

  lemma SortByCountUnfold(keys: seq<string>, counts: map<string, nat>)
    requires keys != []
    ensures SortByCount(keys, counts)
         == InsertByCount(SortByCount(keys[..|keys| - 1], counts), keys[|keys| - 1], counts)
  {
  }

  /** After `CountTags`, a tag's recorded count is its number of occurrences. */
  lemma CountOfIsTagCount(words: seq<Word>, counts: map<string, nat>, keys: seq<string>, t: string)
    requires keys == Dedup(AllTags(words))
    requires forall t :: t in counts <==> t in keys
    requires forall t | t in counts :: counts[t] == TagCount(words, t)
    ensures CountOf(counts, t) == TagCount(words, t)
  {
    if t !in counts {
      assert t !in multiset(AllTags(words));
    }
  }

  /** In a list sorted by count, the first `k` elements outrank the rest. */
  lemma PrefixOutranks(s: seq<string>, counts: map<string, nat>, k: nat, t: string, u: string)
    requires SortedByCount(s, counts) && k <= |s|
    requires t in s[k..] && u in s[..k]
    ensures CountOf(counts, u) >= CountOf(counts, t)
  {
    var p :| k <= p < |s| && s[p] == t;
    var q :| 0 <= q < k && s[q] == u;
    SortedPairwise(s, counts, q, p);
  }

  /** The tags `CountTags` found are exactly the tags that occur, each once. */
  lemma SortedTagsOccur(words: seq<Word>, keys: seq<string>, sorted: seq<string>, t: string)
    requires keys == Dedup(AllTags(words)) && multiset(sorted) == multiset(keys)
    ensures t in sorted <==> TagCount(words, t) > 0
  {
    assert t in sorted <==> t in multiset(sorted);
    assert t in keys <==> t in multiset(keys);
    assert t in AllTags(words) <==> t in multiset(AllTags(words));
  }

  /** A tag that occurs but did not make the cut: the cut is full, and every tag in it
      occurs at least as often. */
  lemma OmittedTagRanksLower(words: seq<Word>, counts: map<string, nat>, keys: seq<string>,
                             sorted: seq<string>, k: nat, t: string)
    requires keys == Dedup(AllTags(words))
    requires forall t :: t in counts <==> t in keys
    requires forall t | t in counts :: counts[t] == TagCount(words, t)
    requires multiset(sorted) == multiset(keys) && SortedByCount(sorted, counts)
    requires k == Min(10, |sorted|)
    requires TagCount(words, t) > 0 && t !in sorted[..k]
    ensures k == 10 && forall u | u in sorted[..k] :: TagCount(words, u) >= TagCount(words, t)
  {
    SortedTagsOccur(words, keys, sorted, t);
    assert sorted == sorted[..k] + sorted[k..];
    forall u | u in sorted[..k] ensures TagCount(words, u) >= TagCount(words, t) {
      PrefixOutranks(sorted, counts, k, t, u);
      CountOfIsTagCount(words, counts, keys, t);
      CountOfIsTagCount(words, counts, keys, u);
    }
  }

  /** What `CountTags` computes: the distinct tags in first-seen order, and each one's
      number of occurrences. */
  ghost predicate CountsTags(words: seq<Word>, counts: map<string, nat>, keys: seq<string>) {
    && keys == Dedup(AllTags(words))
    && (forall t :: t in counts <==> t in keys)
    && (forall t | t in counts :: counts[t] == TagCount(words, t))
  }

  /** The cut holds ten tags, or every tag when there are fewer. */
  lemma CutSize(keys: seq<string>, sorted: seq<string>, top: seq<string>)
    requires multiset(sorted) == multiset(keys)
    requires top == sorted[..Min(10, |sorted|)]
    ensures |top| == Min(10, |keys|)
  {
    assert |sorted| == |keys| by {
      assert |multiset(sorted)| == |multiset(keys)|;
    }
  }

  /** The cut repeats no tag. */
  lemma CutDistinct(keys: seq<string>, sorted: seq<string>, top: seq<string>)
    requires Distinct(keys) && multiset(sorted) == multiset(keys)
    requires top == sorted[..Min(10, |sorted|)]
    ensures Distinct(top)
  {
    DistinctPermutation(keys, sorted);
  }

  /** Every tag in the cut occurs. */
  lemma CutTagsOccur(words: seq<Word>, counts: map<string, nat>, keys: seq<string>,
                     sorted: seq<string>, top: seq<string>)
    requires CountsTags(words, counts, keys) && multiset(sorted) == multiset(keys)
    requires top == sorted[..Min(10, |sorted|)]
    ensures forall t | t in top :: TagCount(words, t) > 0
  {
    forall t | t in top ensures TagCount(words, t) > 0 {
      SortedTagsOccur(words, keys, sorted, t);
    }
  }

  /** The cut lists the most frequent tag first. */
  lemma CutOrdered(words: seq<Word>, counts: map<string, nat>, keys: seq<string>,
                   sorted: seq<string>, top: seq<string>)
    requires CountsTags(words, counts, keys) && SortedByCount(sorted, counts)
    requires top == sorted[..Min(10, |sorted|)]
    ensures forall i, j | 0 <= i < j < |top| :: TagCount(words, top[i]) >= TagCount(words, top[j])
  {
    forall i, j | 0 <= i < j < |top| ensures TagCount(words, top[i]) >= TagCount(words, top[j]) {
      SortedPairwise(sorted, counts, i, j);
      CountOfIsTagCount(words, counts, keys, top[i]);
      CountOfIsTagCount(words, counts, keys, top[j]);
    }
  }

  /** Every occurring tag the cut leaves out ranks below all of the cut, which is then full. */
  lemma CutKeepsTopTags(words: seq<Word>, counts: map<string, nat>, keys: seq<string>,
                        sorted: seq<string>, top: seq<string>)
    requires CountsTags(words, counts, keys)
    requires multiset(sorted) == multiset(keys) && SortedByCount(sorted, counts)
    requires top == sorted[..Min(10, |sorted|)]
    ensures forall t | TagCount(words, t) > 0 && t !in top ::
      |top| == 10 && forall u | u in top :: TagCount(words, u) >= TagCount(words, t)
  {
    forall t | TagCount(words, t) > 0 && t !in top
      ensures |top| == 10 && forall u | u in top :: TagCount(words, u) >= TagCount(words, t)
    {
      OmittedTagRanksLower(words, counts, keys, sorted, Min(10, |sorted|), t);
    }
  }

  /** `getPopularTags()`: the ten most frequent tags, most frequent first. */
  method GetPopularTags(words: seq<Word>) returns (top: seq<string>)
    ensures |top| == Min(10, |Dedup(AllTags(words))|)
    ensures Distinct(top)
    ensures forall t | t in top :: TagCount(words, t) > 0
    ensures forall i, j | 0 <= i < j < |top| :: TagCount(words, top[i]) >= TagCount(words, top[j])
    ensures forall t | TagCount(words, t) > 0 && t !in top ::
      |top| == 10 && forall u | u in top :: TagCount(words, u) >= TagCount(words, t)
  {
    var counts, keys := CountTags(words);
    var sorted := SortByCount(keys, counts);
    top := sorted[..Min(10, |sorted|)];
    CutSize(keys, sorted, top);
    CutDistinct(keys, sorted, top);
    CutTagsOccur(words, counts, keys, sorted, top);
    CutOrdered(words, counts, keys, sorted, top);
    CutKeepsTopTags(words, counts, keys, sorted, top);
  }

  // ---------------------------------------------------------------- addCustomWord

  /** The argument of `addCustomWord`: a word without its id and timestamps. */
  datatype NewWord = NewWord(
    word: string,
    pronunciation: string,
    definitions: seq<Definition>,
    examples: seq<Example>,
    difficulty: int,
    frequency: int,
    tags: seq<string>,
    audioUrl: Option<string>,
    imageUrl: Option<string>,
    wordSet: Option<string>,
    etymology: Option<string>,
    synonyms: Option<seq<string>>,
    antonyms: Option<seq<string>>)

  /** A stored word without its id and timestamps. */
  function WithoutIdentity(w: Word): NewWord {
    NewWord(w.word, w.pronunciation, w.definitions, w.examples, w.difficulty, w.frequency, w.tags,
            w.audioUrl, w.imageUrl, w.wordSet, w.etymology, w.synonyms, w.antonyms)
  }

  /** The id `addCustomWord` gives a word created at `now`: `word-<now>`. */
  function CustomWordId(now: Time): (id: string)
    ensures |id| > 5 && id[..5] == "word-"
    ensures id[5..] == NatToString(now) && ParseNat(id[5..]) == now
  {
    ParseNatToString(now);
    "word-" + NatToString(now)
  }

  /** The record `addCustomWord` builds: the argument's fields, a fresh id and both
      timestamps set to `now`. */
  function BuildCustomWord(input: NewWord, now: Time): (w: Word)
    ensures WithoutIdentity(w) == input
    ensures w.id == CustomWordId(now)
    ensures w.createdAt == now && w.updatedAt == now
  {
    Word(CustomWordId(now), input.word, input.pronunciation, input.definitions, input.examples,
         input.difficulty, input.frequency, input.tags, input.audioUrl, input.imageUrl,
         input.wordSet, input.etymology, input.synonyms, input.antonyms, now, now)
  }

  /** Words added at different moments get different ids. */
  lemma CustomWordIdsDiffer(now1: Time, now2: Time)
    ensures now1 != now2 ==> CustomWordId(now1) != CustomWordId(now2)
  {
    var a, b := CustomWordId(now1), CustomWordId(now2);
    if a == b {
      assert a[5..] == b[5..];
    }
  }

  /** The first word with the given id. */
  function Lookup(words: seq<Word>, id: string): (r: Option<Word>)
    ensures r.Some? ==> r.value in words && r.value.id == id
    ensures r.None? ==> forall w | w in words :: w.id != id
  {
    if words == [] then None
    else if words[0].id == id then Some(words[0])
    else Lookup(words[1..], id)
  }

  /** The order of string keys in an IndexedDB store: character by character, a proper
      prefix first. */
  predicate KeyLess(a: string, b: string)
    decreases |a|
  {
    if a == [] then b != []
    else if b == [] then false
    else if a[0] != b[0] then a[0] < b[0]
    else KeyLess(a[1..], b[1..])
  }

  lemma {:induction false} KeyLessIrreflexive(a: string)
    ensures !KeyLess(a, a)
    decreases |a|
  {
    if a != [] {
      KeyLessIrreflexive(a[1..]);
    }
  }

  lemma {:induction false} KeyLessTransitive(a: string, b: string, c: string)
    requires KeyLess(a, b) && KeyLess(b, c)
    ensures KeyLess(a, c)
    decreases |a|
  {
    if a != [] && a[0] == b[0] && b[0] == c[0] {
      KeyLessTransitive(a[1..], b[1..], c[1..]);
    }
  }

  /** Two different keys are always ordered one way or the other. */
  lemma {:induction false} KeyLessTotal(a: string, b: string)
    requires a != b
    ensures KeyLess(a, b) || KeyLess(b, a)
    decreases |a|
  {
    if a != [] && b != [] && a[0] == b[0] {
      if a[1..] == b[1..] {
        HeadTail(a);
        HeadTail(b);
        assert false;
      }
      KeyLessTotal(a[1..], b[1..]);
    }
  }

  /** Ascending key order, which is the order of `getAll` on a store keyed by `id`. */
  ghost predicate SortedById(words: seq<Word>) {
    |words| <= 1 || (KeyLess(words[0].id, words[1].id) && SortedById(words[1..]))
  }

  lemma {:induction false} SortedByIdPairwise(words: seq<Word>, i: nat, j: nat)
    requires SortedById(words) && i < j < |words|
    ensures KeyLess(words[i].id, words[j].id)
    decreases j, j - i
  {
    if i + 1 < j {
      SortedByIdPairwise(words, i, j - 1);
      SortedByIdPairwise(words, j - 1, j);
      KeyLessTransitive(words[i].id, words[j - 1].id, words[j].id);
    } else if 0 < i {
      SortedByIdPairwise(words[1..], i - 1, j - 1);
    }
  }

  ghost predicate IdsDistinct(words: seq<Word>) {
    forall i, j | 0 <= i < j < |words| :: words[i].id != words[j].id
  }

  /** A store in key order holds at most one word per id. */
  lemma SortedIdsDistinct(words: seq<Word>)
    requires SortedById(words)
    ensures IdsDistinct(words)
  {
    forall i, j | 0 <= i < j < |words| ensures words[i].id != words[j].id {
      SortedByIdPairwise(words, i, j);
      if words[i].id == words[j].id {
        KeyLessIrreflexive(words[i].id);
      }
    }
  }

  /** The store's `put`: replaces the word with the same id, or adds the word in key order. */
  function Upsert(words: seq<Word>, w: Word): (r: seq<Word>)
    ensures Lookup(r, w.id) == Some(w)
    ensures forall id | id != w.id :: Lookup(r, id) == Lookup(words, id)
    ensures forall x | x in r :: x == w || x in words
    ensures r[0] == w || (words != [] && r[0] == words[0])
  {
    if words == [] then [w]
    else if words[0].id == w.id then [w] + words[1..]
    else if KeyLess(w.id, words[0].id) then [w] + words
    else [words[0]] + Upsert(words[1..], w)
  }

  /** A put keeps the store in key order. */
  lemma {:induction false} UpsertKeepsOrder(words: seq<Word>, w: Word)
    requires SortedById(words)
    ensures SortedById(Upsert(words, w))
  {
    if words != [] && words[0].id != w.id && !KeyLess(w.id, words[0].id) {
      KeyLessTotal(w.id, words[0].id);
      UpsertKeepsOrder(words[1..], w);
    }
  }

  /** The words collection of the store, keyed by id. */
  class WordStore {
    var words: seq<Word>

    /** The store keeps its words in ascending id order, so no two share an id. */
    ghost predicate Valid()
      reads this
    {
      SortedById(words)
    }

    constructor ()
      ensures Valid() && words == []
    {
      words := [];
    }

    /** The store's `get(words, id)`, which is `getWordDetails(id)`. */
    function Get(id: string): (r: Option<Word>)
      reads this
      ensures r.Some? ==> r.value in words && r.value.id == id
      ensures r.None? ==> forall w | w in words :: w.id != id
    {
      Lookup(words, id)
    }

    method Put(w: Word)
      requires Valid()
      modifies this
      ensures Valid()
      ensures words == Upsert(old(words), w)
      ensures Get(w.id) == Some(w)
      ensures forall id | id != w.id :: Get(id) == old(Get(id))
    {
      UpsertKeepsOrder(words, w);
      words := Upsert(words, w);
    }
  }

  /** `addCustomWord(input)` at time `now`: builds the word, stores it with `put`, and
      returns it; reading the new id back gives the input plus id and timestamps. */
  method AddCustomWord(store: WordStore, input: NewWord, now: Time) returns (w: Word)
    requires store.Valid()
    modifies store
    ensures store.Valid()
    ensures w == BuildCustomWord(input, now)
    ensures store.Get(w.id) == Some(w) && WithoutIdentity(w) == input
    ensures forall id | id != w.id :: store.Get(id) == old(store.Get(id))
  {
    w := BuildCustomWord(input, now);
    store.Put(w);
  }
}
