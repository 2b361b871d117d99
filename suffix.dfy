/** The suffix array of suffix.hpp: the word with a 0 sentinel appended, and
    the indices of all its suffixes sorted by the lexicographic order of the
    suffixes they start. */
module Suffixes {
  import opened Strings

  /** The character that terminates the word. */
  const Sentinel: WChar := 0

  /** No character of the input is the sentinel. */
  predicate ZeroFree(input: String) {
    forall i :: 0 <= i < |input| ==> input[i] != Sentinel
  }

  /** The index vector 0, 1, ..., n - 1. */
  function Indices(n: nat): (r: seq<nat>)
    ensures |r| == n && forall i :: 0 <= i < n ==> r[i] == i
  {
    seq(n, i => i)
  }

  /** The comparator lambda of the constructor, as written: it walks both
      suffixes while their characters agree, and answers true as soon as the
      left one is exhausted, so it also answers true for equal indices. */
  function SourceCompare(word: String, left: nat, right: nat): bool
    requires left <= |word| && right <= |word|
    decreases |word| - left
  {
    if left < |word| && right < |word| && word[left] == word[right] then
      SourceCompare(word, left + 1, right + 1)
    else if left >= |word| then true
    else if right >= |word| then false
    else word[left] < word[right]
  }

  /** The comparator with the exhausted-left case corrected: two suffixes
      exhausted together are equal, so neither is less than the other. */
  function Compare(word: String, left: nat, right: nat): bool
    requires left <= |word| && right <= |word|
    decreases |word| - left
  {
    if left < |word| && right < |word| && word[left] == word[right] then
      Compare(word, left + 1, right + 1)
    else if left >= |word| then right < |word|
    else if right >= |word| then false
    else word[left] < word[right]
  }

  /** The suffix starting at left sorts strictly before the one at right. */
  predicate SuffixLess(word: String, left: nat, right: nat)
    requires left <= |word| && right <= |word|
  {
    LexLess(word[left..], word[right..])
  }

  /** The corrected comparator is exactly the lexicographic order of suffixes. */
  lemma {:induction false} CompareIsSuffixOrder(word: String, left: nat, right: nat)
    requires left <= |word| && right <= |word|
    ensures Compare(word, left, right) == SuffixLess(word, left, right)
    decreases |word| - left
  {
    if left < |word| && right < |word| {
      assert word[left..][1..] == word[left + 1..];
      assert word[right..][1..] == word[right + 1..];
      if word[left] == word[right] {
        CompareIsSuffixOrder(word, left + 1, right + 1);
      }
    }
  }

  /** On two different indices the comparator as written and the corrected
      one agree: the two suffixes have different lengths, so they cannot be
      exhausted together. */
  lemma {:induction false} SourceCompareAgrees(word: String, left: nat, right: nat)
    requires left <= |word| && right <= |word| && left != right
    ensures SourceCompare(word, left, right) == Compare(word, left, right)
    decreases |word| - left
  {
    if left < |word| && right < |word| && word[left] == word[right] {
      SourceCompareAgrees(word, left + 1, right + 1);
    }
  }

  /** The comparator as written says every suffix is less than itself, which
      breaks the strict weak ordering std::sort requires of it. */
  lemma {:induction false} SourceCompareReflexive(word: String, i: nat)
    requires i <= |word|
    ensures SourceCompare(word, i, i)
    decreases |word| - i
  {
    if i < |word| {
      SourceCompareReflexive(word, i + 1);
    }
  }

  /** The corrected comparator is a strict order: irreflexive and asymmetric. */
  lemma CompareAsymmetric(word: String, left: nat, right: nat)
    requires left <= |word| && right <= |word|
    ensures !(Compare(word, left, right) && Compare(word, right, left))
    ensures !Compare(word, left, left)
  {
    CompareIsSuffixOrder(word, left, right);
    CompareIsSuffixOrder(word, right, left);
    CompareIsSuffixOrder(word, left, left);
    LexAsymmetric(word[left..], word[right..]);
    LexIrreflexive(word[left..]);
  }

  /** How many characters the comparator's loop steps over before it stops. */
  function Mismatch(word: String, left: nat, right: nat): nat
    requires left <= |word| && right <= |word|
    decreases |word| - left
  {
    if left < |word| && right < |word| && word[left] == word[right] then
      1 + Mismatch(word, left + 1, right + 1)
    else 0
  }

  /** On a sentinel-terminated word without other zeros, the comparator as
      written stops inside both suffixes, at their first differing character,
      and that character decides. */
  lemma {:induction false} ComparatorStopsAtFirstDifference(input: String, left: nat, right: nat)
    requires ZeroFree(input)
    requires left <= |input| && right <= |input| && left != right
    ensures var word := input + [Sentinel];
            var m := Mismatch(word, left, right);
            && left + m < |word| && right + m < |word|
            && word[left + m] != word[right + m]
            && word[left..left + m] == word[right..right + m]
            && SourceCompare(word, left, right) == (word[left + m] < word[right + m])
    decreases |input| - left
  {
    var word := input + [Sentinel];
    if word[left] == word[right] {
      // neither index is the sentinel's: the sentinel differs from every other character
      assert left < |input| && right < |input|;
      ComparatorStopsAtFirstDifference(input, left + 1, right + 1);
      var m := Mismatch(word, left + 1, right + 1);
      assert Mismatch(word, left, right) == 1 + m;
      assert SourceCompare(word, left, right) == SourceCompare(word, left + 1, right + 1);
      SliceStep(word, left, m);
      SliceStep(word, right, m);
    } else {
      assert Mismatch(word, left, right) == 0;
    }
  }

  /** A slice is its first character followed by the rest. */
  lemma SliceStep(word: String, i: nat, m: nat)
    requires i + 1 + m <= |word|
    ensures word[i..i + 1 + m] == [word[i]] + word[i + 1..i + 1 + m]
  {
  }

  /** Adjacent entries name suffixes in strictly increasing order. */
  predicate Sorted(word: String, s: seq<nat>) {
    && (forall k :: 0 <= k < |s| ==> s[k] <= |word|)
    && (forall k :: 0 < k < |s| ==> SuffixLess(word, s[k - 1], s[k]))
  }

  /** s is a suffix array of word: a sorted permutation of its indices. */
  predicate IsSuffixArray(word: String, s: seq<nat>) {
    multiset(s) == multiset(Indices(|word|)) && Sorted(word, s)
  }

  lemma {:induction false} SortedPairwise(word: String, s: seq<nat>, i: nat, j: nat)
    requires Sorted(word, s) && i < j < |s|
    ensures SuffixLess(word, s[i], s[j])
    decreases j - i
  {
    if i + 1 < j {
      SortedPairwise(word, s, i + 1, j);
      LexTransitive(word[s[i]..], word[s[i + 1]..], word[s[j]..]);
    }
  }

  lemma {:induction false} IndicesCount(n: nat, v: nat)
    ensures multiset(Indices(n))[v] == if v < n then 1 else 0
  {
    if n > 0 {
      assert Indices(n) == Indices(n - 1) + [n - 1];
      IndicesCount(n - 1, v);
    } else {
      assert Indices(n) == [];
    }
  }

  /** A permutation of 0..n-1 has no repeated entry. */
  lemma PermutationDistinct(s: seq<nat>, n: nat, i: nat, j: nat)
    requires multiset(s) == multiset(Indices(n)) && i < j < |s|
    ensures s[i] != s[j]
  {
    IndicesCount(n, s[i]);
    RepeatCounted(s, i, j);
  }

  /** An entry that occurs at two positions occurs at least twice. */
  lemma RepeatCounted(s: seq<nat>, i: nat, j: nat)
    requires i < j < |s|
    ensures s[i] == s[j] ==> multiset(s)[s[i]] >= 2
  {
    if s[i] == s[j] {
      assert s == s[..j] + s[j..];
      assert s[i] in multiset(s[..j]) && s[j] in multiset(s[j..]);
    }
  }

  /** Exchanges two entries of the index vector. */
  method Swap(a: array<nat>, i: nat, j: nat)
    requires i < a.Length && j < a.Length
    modifies a
    ensures a[..] == old(a[..])[i := old(a[j])][j := old(a[i])]
    ensures multiset(a[..]) == old(multiset(a[..]))
  {
    a[i], a[j] := a[j], a[i];
  }

  /** One pass of the insertion sort: moves a[i] left past every entry that
      it compares less than. */
  method InsertAt(word: String, a: array<nat>, i: nat)
    requires 0 < i < a.Length
    requires forall k :: 0 <= k < a.Length ==> a[k] <= |word|
    requires forall k :: 0 < k < i ==> !Compare(word, a[k], a[k - 1])
    modifies a
    ensures multiset(a[..]) == old(multiset(a[..]))
    ensures forall k :: 0 <= k < a.Length ==> a[k] <= |word|
    ensures forall k :: 0 < k <= i ==> !Compare(word, a[k], a[k - 1])
  {
    var j := i;
    while j > 0 && Compare(word, a[j], a[j - 1])
      invariant 0 <= j <= i
      invariant multiset(a[..]) == old(multiset(a[..]))
      invariant forall k :: 0 <= k < a.Length ==> a[k] <= |word|
      invariant forall k :: 0 < k <= i && k != j ==> !Compare(word, a[k], a[k - 1])
      invariant 0 < j < i ==> !Compare(word, a[j + 1], a[j - 1])
    {
      CompareAsymmetric(word, a[j], a[j - 1]);
      Swap(a, j - 1, j);
      j := j - 1;
    }
  }

  /** The sort std::sort performs, written as an insertion sort with the
      corrected comparator: afterwards no entry compares less than the entry
      before it. */
  method SortIndices(word: String, a: array<nat>)
    requires forall k :: 0 <= k < a.Length ==> a[k] <= |word|
    modifies a
    ensures multiset(a[..]) == old(multiset(a[..]))
    ensures forall k :: 0 <= k < a.Length ==> a[k] <= |word|
    ensures forall k :: 0 < k < a.Length ==> !Compare(word, a[k], a[k - 1])
  {
    var i := 1;
    while i < a.Length
      invariant a.Length == 0 || 1 <= i <= a.Length
      invariant multiset(a[..]) == old(multiset(a[..]))
      invariant forall k :: 0 <= k < a.Length ==> a[k] <= |word|
      invariant forall k :: 0 < k < i && k < a.Length ==> !Compare(word, a[k], a[k - 1])
    {
      InsertAt(word, a, i);
      i := i + 1;
    }
  }

  class SuffixArray {
    var word: String
    var suffixIndices: array<nat>

    /** Copies the input, appends the sentinel, fills 0..n-1 and sorts it. */
    constructor (input: String)
      ensures word == input + [Sentinel]
      ensures fresh(suffixIndices) && suffixIndices.Length == |word|
      ensures IsSuffixArray(word, suffixIndices[..])
    {
      var w := input;
      w := w + [Sentinel];
      var a := new nat[|w|];
      var k := 0;
      while k < |w|
        invariant 0 <= k <= |w| == a.Length
        invariant forall i :: 0 <= i < k ==> a[i] == i
      {
        a[k] := k;
        k := k + 1;
      }
      assert a[..] == Indices(|w|);
      SortIndices(w, a);
      forall k | 0 < k < a.Length
        ensures SuffixLess(w, a[k - 1], a[k])
      {
        PermutationDistinct(a[..], |w|, k - 1, k);
        CompareIsSuffixOrder(w, a[k], a[k - 1]);
        // different start indices give suffixes of different lengths
        assert w[a[k - 1]..] != w[a[k]..];
        LexTotal(w[a[k - 1]..], w[a[k]..]);
      }
      word := w;
      suffixIndices := a;
    }
  }

  /** On input without zeros the sentinel's own suffix is the first entry. */
  lemma SentinelFirst(input: String, s: seq<nat>)
    requires ZeroFree(input)
    requires IsSuffixArray(input + [Sentinel], s)
    ensures |s| > 0 && s[0] == |input|
  {
    var word := input + [Sentinel];
    var n := |input|;
    IndicesCount(|word|, n);
    assert n in multiset(s);
    IndicesCount(|word|, s[0]);
    assert s[0] in multiset(s);
    FirstIsLeast(word, s, n);
    NothingBeforeSentinel(input, s[0]);
  }

  /** No suffix of a zero-free input sorts before the sentinel's own. */
  lemma NothingBeforeSentinel(input: String, x: nat)
    requires ZeroFree(input) && x <= |input|
    ensures !SuffixLess(input + [Sentinel], x, |input|)
  {
    var word := input + [Sentinel];
    assert word[|input|..] == [Sentinel];
    if x < |input| {
      assert word[x..][0] == input[x] != Sentinel;
    } else {
      LexIrreflexive(word[x..]);
    }
  }

  /** The first entry of a sorted sequence sorts before every other entry. */
  lemma FirstIsLeast(word: String, s: seq<nat>, x: nat)
    requires Sorted(word, s) && x in s
    ensures x == s[0] || SuffixLess(word, s[0], x)
  {
    var i :| 0 <= i < |s| && s[i] == x;
    if i > 0 {
      SortedPairwise(word, s, 0, i);
    }
  }

  /** Two suffix arrays of one word are the same sequence. */
  lemma {:induction false} SuffixArrayUnique(word: String, s: seq<nat>, t: seq<nat>)
    requires Sorted(word, s) && Sorted(word, t) && multiset(s) == multiset(t)
    ensures s == t
    decreases |s|
  {
    assert |t| == |multiset(t)| == |multiset(s)| == |s|;
    if |s| > 0 {
      SameFirst(word, s, t);
      SameRest(s, t);
      SuffixArrayUnique(word, s[1..], t[1..]);
      assert s == [s[0]] + s[1..] && t == [t[0]] + t[1..];
    }
  }

  /** Two sorted arrangements of the same indices start alike. */
  lemma SameFirst(word: String, s: seq<nat>, t: seq<nat>)
    requires Sorted(word, s) && Sorted(word, t) && multiset(s) == multiset(t) && |s| > 0
    ensures |t| > 0 && s[0] == t[0]
  {
    assert s[0] in multiset(t);
    assert t[0] in multiset(s);
    FirstIsLeast(word, s, t[0]);
    FirstIsLeast(word, t, s[0]);
    LexAsymmetric(word[s[0]..], word[t[0]..]);
  }

  /** Removing a common first entry leaves equal multisets. */
  lemma SameRest(s: seq<nat>, t: seq<nat>)
    requires multiset(s) == multiset(t) && |s| > 0 && |t| > 0 && s[0] == t[0]
    ensures multiset(s[1..]) == multiset(t[1..])
  {
    assert s == [s[0]] + s[1..];
    assert t == [t[0]] + t[1..];
    assert multiset(s) == multiset{s[0]} + multiset(s[1..]);
    assert multiset(t) == multiset{t[0]} + multiset(t[1..]);
    assert multiset(s[1..]) == multiset(s) - multiset{s[0]};
    assert multiset(t[1..]) == multiset(t) - multiset{t[0]};
  }

  /** "banana" as wide characters. */
  const Banana: String := [98, 97, 110, 97, 110, 97]

  /** [6, 5, 3, 1, 0, 4, 2] orders the suffixes of "banana" plus sentinel. */
  lemma BananaOrderSorted()
    ensures Sorted(Banana + [Sentinel], [6, 5, 3, 1, 0, 4, 2])
  {
    var word := Banana + [Sentinel];
    var s := [6, 5, 3, 1, 0, 4, 2];
    BananaSuffixes();
    BananaAnaOrder();
    BananaNaOrder();
    assert SuffixLess(word, s[0], s[1]);
    assert SuffixLess(word, s[1], s[2]);
    assert SuffixLess(word, s[2], s[3]);
    assert SuffixLess(word, s[3], s[4]);
    assert SuffixLess(word, s[4], s[5]);
    assert SuffixLess(word, s[5], s[6]);
  }

  /** The suffixes of "banana" plus sentinel, written out. */
  lemma BananaSuffixes()
    ensures var word := Banana + [Sentinel];
            && word[0..] == [98, 97, 110, 97, 110, 97, 0]
            && word[1..] == [97, 110, 97, 110, 97, 0]
            && word[2..] == [110, 97, 110, 97, 0]
            && word[3..] == [97, 110, 97, 0]
            && word[4..] == [110, 97, 0]
            && word[5..] == [97, 0]
            && word[6..] == [0]
  {
    var word := Banana + [Sentinel];
    assert word == [98, 97, 110, 97, 110, 97, 0];
  }

  /** "a", "ana" and "anana" (each with the sentinel) in order. */
  lemma BananaAnaOrder()
    ensures LexLess([97, 0], [97, 110, 97, 0])
    ensures LexLess([97, 110, 97, 0], [97, 110, 97, 110, 97, 0])
  {
    assert [97, 0][1..] == [0] && [97, 110, 97, 0][1..] == [110, 97, 0];
    assert [97, 110, 97, 110, 97, 0][1..] == [110, 97, 110, 97, 0];
    assert [110, 97, 0][1..] == [97, 0];
    assert [110, 97, 110, 97, 0][1..] == [97, 110, 97, 0];
  }

  /** "na" and "nana" (each with the sentinel) in order. */
  lemma BananaNaOrder()
    ensures LexLess([110, 97, 0], [110, 97, 110, 97, 0])
  {
    assert [110, 97, 0][1..] == [97, 0];
    assert [110, 97, 110, 97, 0][1..] == [97, 110, 97, 0];
    assert [97, 0][1..] == [0];
    assert [97, 110, 97, 0][1..] == [110, 97, 0];
  }

  lemma BananaIndices()
    ensures multiset([6, 5, 3, 1, 0, 4, 2]) == multiset(Indices(7))
  {
    var indices := Indices(7);
    assert indices == [0, 1, 2, 3, 4, 5, 6];
    assert multiset([6, 5, 3, 1, 0, 4, 2]) == multiset{0, 1, 2, 3, 4, 5, 6};
    assert multiset(indices) == multiset{0, 1, 2, 3, 4, 5, 6};
  }

  /** The suffix array of "banana" is [6, 5, 3, 1, 0, 4, 2]. */
  lemma BananaSuffixArray(s: seq<nat>)
    requires IsSuffixArray(Banana + [Sentinel], s)
    ensures s == [6, 5, 3, 1, 0, 4, 2]
  {
    BananaOrderSorted();
    BananaIndices();
    assert |Banana + [Sentinel]| == 7;
    SuffixArrayUnique(Banana + [Sentinel], s, [6, 5, 3, 1, 0, 4, 2]);
  }

  /** The driver's run: the suffix array built for "banana". */
  method BananaDriver() returns (indices: seq<nat>)
    ensures indices == [6, 5, 3, 1, 0, 4, 2]
  {
    var suffix := new SuffixArray(Banana);
    indices := suffix.suffixIndices[..];
    BananaSuffixArray(indices);
  }
}
