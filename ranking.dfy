/** Python's `Counter(words).most_common(n)`, keeping only the words.

    `Counter` tallies the words into a dict whose keys stand in order of first occurrence;
    `most_common(n)` is `heapq.nlargest(n, items, key=count)`, which equals a stable sort by
    count, largest first, cut to its first `n` entries (none when `n <= 0`). */
module Ranking {

  /** How often `w` occurs in `words` (the tally `Counter(words)[w]`). */
  function Count(words: seq<string>, w: string): nat
  {
    multiset(words)[w]
  }

  /** The index of the first occurrence of `w`, or `|words|` when there is none. */
  function FirstIndex(words: seq<string>, w: string): (k: nat)
    ensures k <= |words|
  {
    if words == [] then 0
    else if words[0] == w then 0
    else 1 + FirstIndex(words[1..], w)
  }

  /** `FirstIndex` is the position of the first occurrence. */
  lemma {:induction false} FirstIndexIsFirst(words: seq<string>, w: string)
    ensures var k := FirstIndex(words, w);
      && (k < |words| <==> w in words)
      && (k < |words| ==> words[k] == w)
      && (forall j :: 0 <= j < k ==> words[j] != w)
  {
    if words != [] && words[0] != w {
      FirstIndexIsFirst(words[1..], w);
      assert words == [words[0]] + words[1..];
    }
  }

  /** Appending an element leaves first occurrences where they were, and a new element's first
      occurrence is the appended position. */
  lemma FirstIndexAppend(words: seq<string>, x: string)
    ensures forall w :: w in words ==> FirstIndex(words + [x], w) == FirstIndex(words, w) < |words|
    ensures x !in words ==> FirstIndex(words + [x], x) == |words|
  {
    forall w | w in words
      ensures FirstIndex(words + [x], w) == FirstIndex(words, w)
    {
      FirstIndexIsFirst(words, w);
      FirstIndexIsFirst(words + [x], w);
      var k := FirstIndex(words, w);
      assert (words + [x])[k] == w;
    }
    FirstIndexIsFirst(words + [x], x);
    FirstIndexIsFirst(words, x);
  }

  /** `a` ranks before `b` in `most_common`: a higher count, or the same count and an earlier
      first occurrence. */
  predicate Outranks(words: seq<string>, a: string, b: string)
  {
    || Count(words, a) > Count(words, b)
    || (Count(words, a) == Count(words, b) && FirstIndex(words, a) < FirstIndex(words, b))
  }

  /** Every earlier element of `s` outranks every later one. */
  predicate Ranked(words: seq<string>, s: seq<string>)
  {
    forall i, j :: 0 <= i < j < |s| ==> Outranks(words, s[i], s[j])
  }

  /** The keys of `Counter(words)`, in the dict's order: each word once, by first occurrence. */
  function Distinct(words: seq<string>): (d: seq<string>)
    ensures forall w :: w in d <==> w in words
    ensures forall i, j :: 0 <= i < j < |d| ==> FirstIndex(words, d[i]) < FirstIndex(words, d[j])
  {
    if words == [] then []
    else
      var init, x := words[..|words| - 1], words[|words| - 1];
      assert words == init + [x];
      FirstIndexAppend(init, x);
      var d := Distinct(init);
      if x in d then d else d + [x]
  }

  /** One step of the stable sort: `x`, which came before everything in `s`, goes in front of the
      first entry whose count does not exceed its own. */
  function Insert(words: seq<string>, x: string, s: seq<string>): (r: seq<string>)
    ensures multiset(r) == multiset(s) + multiset{x}
  {
    if s == [] || Count(words, s[0]) <= Count(words, x) then [x] + s
    else
      assert s == [s[0]] + s[1..];
      [s[0]] + Insert(words, x, s[1..])
  }

  /** Stable sort of `d` by count, largest first. */
  function SortByCount(words: seq<string>, d: seq<string>): (r: seq<string>)
    ensures multiset(r) == multiset(d)
  {
    if d == [] then []
    else
      assert d == [d[0]] + d[1..];
      Insert(words, d[0], SortByCount(words, d[1..]))
  }

  /** Python's slice `s[:n]` for a count `n` (a negative `n` gives nothing here, as
      `most_common` does). */
  function Take(s: seq<string>, n: int): seq<string>
  {
    if n <= 0 then [] else if n < |s| then s[..n] else s
  }

  /** `[word for word, count in Counter(words).most_common(n)]`. */
  function MostCommon(words: seq<string>, n: int): (r: seq<string>)
    ensures |r| <= if n <= 0 then 0 else n
  {
    Take(SortByCount(words, Distinct(words)), n)
  }

  /** A count-ordered sequence stays ranked when a word that occurred earlier than all of its
      elements and has at least the count of its head is put in front. */
  lemma PrependRanked(words: seq<string>, x: string, s: seq<string>)
    requires Ranked(words, s)
    requires forall y :: y in s ==> FirstIndex(words, x) < FirstIndex(words, y)
    requires s == [] || Count(words, s[0]) <= Count(words, x)
    ensures Ranked(words, [x] + s)
  {
    var r := [x] + s;
    forall i, j | 0 <= i < j < |r|
      ensures Outranks(words, r[i], r[j])
    {
      assert r[j] == s[j - 1];
      if i == 0 {
        assert s[j - 1] in s;
        HeadCountBound(words, s, j - 1);
      } else {
        assert r[i] == s[i - 1];
      }
    }
  }

  /** The head of a ranked sequence has the largest count. */
  lemma HeadCountBound(words: seq<string>, s: seq<string>, k: int)
    requires Ranked(words, s) && 0 <= k < |s|
    ensures Count(words, s[k]) <= Count(words, s[0])
  {
    if k > 0 {
      assert Outranks(words, s[0], s[k]);
    }
  }

  lemma {:induction false} InsertRanked(words: seq<string>, x: string, s: seq<string>)
    requires Ranked(words, s)
    requires forall y :: y in s ==> FirstIndex(words, x) < FirstIndex(words, y)
    ensures Ranked(words, Insert(words, x, s))
  {
    if s == [] || Count(words, s[0]) <= Count(words, x) {
      PrependRanked(words, x, s);
    } else {
      var tail := Insert(words, x, s[1..]);
      assert Ranked(words, s[1..]);
      InsertRanked(words, x, s[1..]);
      forall y | y in tail
        ensures Outranks(words, s[0], y)
      {
        assert y in multiset(s[1..]) + multiset{x};
        if y != x {
          assert y in s[1..];
        }
      }
      RankedCons(words, s[0], tail);
    }
  }

  /** Putting in front a word that outranks every element keeps a sequence ranked. */
  lemma RankedCons(words: seq<string>, x: string, s: seq<string>)
    requires Ranked(words, s)
    requires forall y :: y in s ==> Outranks(words, x, y)
    ensures Ranked(words, [x] + s)
  {
    var r := [x] + s;
    forall i, j | 0 <= i < j < |r|
      ensures Outranks(words, r[i], r[j])
    {
      assert r[j] == s[j - 1];
      if i > 0 {
        assert r[i] == s[i - 1];
      }
    }
  }

  lemma {:induction false} SortRanked(words: seq<string>, d: seq<string>)
    requires forall i, j :: 0 <= i < j < |d| ==> FirstIndex(words, d[i]) < FirstIndex(words, d[j])
    ensures Ranked(words, SortByCount(words, d))
  {
    if d != [] {
      var rest := SortByCount(words, d[1..]);
      SortRanked(words, d[1..]);
      forall y | y in rest
        ensures FirstIndex(words, d[0]) < FirstIndex(words, y)
      {
        assert y in multiset(d[1..]);
        var j :| 0 <= j < |d[1..]| && d[1..][j] == y;
        assert d[j + 1] == y;
      }
      InsertRanked(words, d[0], rest);
    }
  }

  /** A ranked sequence has no duplicates and its counts never increase. */
  lemma RankedFacts(words: seq<string>, s: seq<string>)
    requires Ranked(words, s)
    ensures forall i, j :: 0 <= i < j < |s| ==> s[i] != s[j]
    ensures forall i, j :: 0 <= i < j < |s| ==> Count(words, s[i]) >= Count(words, s[j])
  {
  }

  /** The sorted tally holds exactly the words of `words`, ranked. */
  lemma SortedTally(words: seq<string>)
    ensures var s := SortByCount(words, Distinct(words));
      && Ranked(words, s)
      && (forall w :: w in s <==> w in words)
  {
    var d := Distinct(words);
    var s := SortByCount(words, d);
    SortRanked(words, d);
    forall w
      ensures w in s <==> w in words
    {
      assert w in s <==> w in multiset(s);
      assert w in d <==> w in multiset(d);
    }
  }

  /** A prefix `r` of a ranked arrangement `s` of the words: every word left out is outranked by
      every word kept. */
  lemma PrefixOutranks(words: seq<string>, s: seq<string>, r: seq<string>)
    requires Ranked(words, s)
    requires |r| <= |s| && r == s[..|r|]
    ensures Ranked(words, r)
    ensures forall w, x :: w in s && w !in r && x in r ==> Outranks(words, x, w)
  {
    forall w, x | w in s && w !in r && x in r
      ensures Outranks(words, x, w)
    {
      var j :| 0 <= j < |s| && s[j] == w;
      var i :| 0 <= i < |r| && r[i] == x;
      assert i < j;
    }
  }

  /** `most_common(n)` is a prefix of the ranked tally, all of it when shorter than `n`. */
  lemma MostCommonIsPrefix(words: seq<string>, n: int)
    ensures var s, r := SortByCount(words, Distinct(words)), MostCommon(words, n);
      && Ranked(words, s)
      && (forall w :: w in s <==> w in words)
      && |r| <= |s| && r == s[..|r|]
      && (|r| < n ==> r == s)
  {
    SortedTally(words);
  }

  /** `most_common(n)` lists the `n` top-ranked distinct words: each comes from `words`, each
      outranks the next (so there are no duplicates, counts do not increase, and equal counts keep
      first-occurrence order), every word left out is outranked by every word listed, and when
      fewer than `n` are listed no word is left out. */
  lemma {:induction false} MostCommonRanked(words: seq<string>, n: int)
    ensures var r := MostCommon(words, n);
      && (forall w :: w in r ==> w in words)
      && Ranked(words, r)
      && (forall i, j :: 0 <= i < j < |r| ==> r[i] != r[j])
      && (forall i, j :: 0 <= i < j < |r| ==> Count(words, r[i]) >= Count(words, r[j]))
      && (forall w, x :: w in words && w !in r && x in r ==> Outranks(words, x, w))
      && (|r| < n ==> forall w :: w in words ==> w in r)
  {
    var s := SortByCount(words, Distinct(words));
    var r := MostCommon(words, n);
    MostCommonIsPrefix(words, n);
    PrefixOutranks(words, s, r);
    RankedFacts(words, r);
    forall w | w in r
      ensures w in words
    {
      assert w in s;
    }
    forall w, x | w in words && w !in r && x in r
      ensures Outranks(words, x, w)
    {
      assert w in s;
    }
  }
}
