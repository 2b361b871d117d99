/** Wide-character strings as the three components use them (std::wstring,
    vector<wchar_t>), and the lexicographic order std::map<wstring, _> and the
    suffix comparator sort by. */
module Strings {

  /** The largest value of a signed 32-bit wchar_t. */
  const MaxChar: int := 0x7FFF_FFFF

  /** One wide character; negative wchar_t values are not modelled. */
  type WChar = c: int | 0 <= c <= MaxChar

  type String = seq<WChar>

  /** p is a prefix of s (p == s included). */
  predicate IsPrefix(p: String, s: String) {
    |p| <= |s| && s[..|p|] == p
  }

  /** p is a prefix of s and strictly shorter. */
  predicate IsProperPrefix(p: String, s: String) {
    |p| < |s| && s[..|p|] == p
  }

  /** Strict lexicographic order of std::basic_string: the first differing
      character decides, and a proper prefix comes first. */
  predicate LexLess(a: String, b: String)
    decreases |a|
  {
    if |a| == 0 then |b| > 0
    else if |b| == 0 then false
    else if a[0] != b[0] then a[0] < b[0]
    else LexLess(a[1..], b[1..])
  }

  predicate LexLeq(a: String, b: String) {
    a == b || LexLess(a, b)
  }

  lemma {:induction false} LexIrreflexive(a: String)
    ensures !LexLess(a, a)
  {
    if |a| > 0 {
      LexIrreflexive(a[1..]);
    }
  }

  lemma {:induction false} LexAsymmetric(a: String, b: String)
    ensures !(LexLess(a, b) && LexLess(b, a))
  {
    if |a| > 0 && |b| > 0 && a[0] == b[0] {
      LexAsymmetric(a[1..], b[1..]);
    }
  }

  lemma {:induction false} LexTransitive(a: String, b: String, c: String)
    requires LexLess(a, b) && LexLess(b, c)
    ensures LexLess(a, c)
  {
    if |a| > 0 && a[0] == b[0] && b[0] == c[0] {
      LexTransitive(a[1..], b[1..], c[1..]);
    }
  }

  /** Any two different strings are ordered one way or the other. */
  lemma {:induction false} LexTotal(a: String, b: String)
    requires a != b
    ensures LexLess(a, b) || LexLess(b, a)
  {
    if |a| > 0 && |b| > 0 && a[0] == b[0] {
      assert a == [a[0]] + a[1..] && b == [b[0]] + b[1..];
      LexTotal(a[1..], b[1..]);
    }
  }

  /** A common prefix does not change the order. */
  lemma {:induction false} LexCommonPrefix(p: String, s: String, t: String)
    ensures LexLess(p + s, p + t) == LexLess(s, t)
  {
    if |p| > 0 {
      assert (p + s)[0] == p[0] == (p + t)[0];
      assert (p + s)[1..] == p[1..] + s;
      assert (p + t)[1..] == p[1..] + t;
      LexCommonPrefix(p[1..], s, t);
    } else {
      assert p + s == s && p + t == t;
    }
  }

  /** A prefix sorts no later than the string it prefixes. */
  lemma {:induction false} PrefixIsLeq(p: String, s: String)
    requires IsPrefix(p, s)
    ensures LexLeq(p, s)
  {
    if |p| > 0 {
      assert s[0] == p[0];
      assert s[1..][..|p| - 1] == p[1..];
      PrefixIsLeq(p[1..], s[1..]);
      if p[1..] == s[1..] {
        assert p == [p[0]] + p[1..] && s == [s[0]] + s[1..];
      }
    }
  }

  /** A string lying between two strings that share a prefix shares it too. */
  lemma {:induction false} BetweenSharesPrefix(a: String, p: String, q: String, k: String)
    requires IsPrefix(a, p) && IsPrefix(a, q)
    requires LexLeq(p, k) && LexLess(k, q)
    ensures IsPrefix(a, k)
  {
    if |a| > 0 {
      assert p[0] == a[0] && q[0] == a[0];
      assert p[1..][..|a| - 1] == a[1..] && q[1..][..|a| - 1] == a[1..];
      BetweenSharesPrefix(a[1..], p[1..], q[1..], k[1..]);
      assert k[..|a|] == [k[0]] + k[1..][..|a| - 1];
    }
  }

  /** A string made only of MaxChar. */
  predicate AllMax(p: String) {
    forall i :: 0 <= i < |p| ==> p[i] == MaxChar
  }

  /** Only the strings that p prefixes sort at or after an all-MaxChar p. */
  lemma {:induction false} AtLeastAllMax(p: String, k: String)
    requires AllMax(p)
    ensures LexLeq(p, k) <==> IsPrefix(p, k)
  {
    if IsPrefix(p, k) {
      PrefixIsLeq(p, k);
    }
    if |p| > 0 && LexLeq(p, k) {
      assert |k| > 0;
      assert k[0] == MaxChar;
      assert LexLeq(p[1..], k[1..]);
      AtLeastAllMax(p[1..], k[1..]);
      assert k[..|p|] == [k[0]] + k[1..][..|p| - 1];
    }
  }
}
