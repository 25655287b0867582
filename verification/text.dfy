/**
  String operations the community feed relies on: `toLowerCase`, `includes`
  and `localeCompare`. Case folding is ASCII-only and the locale comparison is
  a lexicographic order on the folded strings; both are stated as such in the
  README.
 */
module Text {

  /** `toLowerCase` on one character, restricted to the ASCII letters. */
  function LowerChar(c: char): char
  {
    if 'A' <= c <= 'Z' then (c as int + 32) as char else c
  }

  /** `s.toLowerCase()`: every character folded, nothing else changed. */
  function Lower(s: string): (r: string)
    ensures |r| == |s|
    ensures forall i :: 0 <= i < |s| ==> r[i] == LowerChar(s[i])
  {
    seq(|s|, i requires 0 <= i < |s| => LowerChar(s[i]))
  }

  /** `n` occurs in `h` starting at position `i`. */
  ghost predicate OccursAt(h: string, n: string, i: int)
  {
    0 <= i && i + |n| <= |h| && h[i..i + |n|] == n
  }

  /** Character-by-character comparison of `n` against `h` from position `i + k` on. */
  predicate MatchFrom(h: string, n: string, i: nat, k: nat)
    requires i + |n| <= |h| && k <= |n|
    decreases |n| - k
  {
    k == |n| || (h[i + k] == n[k] && MatchFrom(h, n, i, k + 1))
  }

  lemma {:induction false} MatchFromSlice(h: string, n: string, i: nat, k: nat)
    requires i + |n| <= |h| && k <= |n|
    ensures MatchFrom(h, n, i, k) <==> h[i + k..i + |n|] == n[k..]
    decreases |n| - k
  {
    if k < |n| {
      MatchFromSlice(h, n, i, k + 1);
      assert h[i + k..i + |n|] == [h[i + k]] + h[i + k + 1..i + |n|];
      assert n[k..] == [n[k]] + n[k + 1..];
    }
  }

  /** Scans the start positions `i`, `i + 1`, ... for an occurrence of `n`. */
  function IncludesFrom(h: string, n: string, i: nat): (r: bool)
    ensures r <==> exists j :: i <= j && OccursAt(h, n, j)
    decreases |h| - i
  {
    if i + |n| > |h| then
      assert forall j :: i <= j ==> !OccursAt(h, n, j);
      false
    else
      MatchFromSlice(h, n, i, 0);
      var here := MatchFrom(h, n, i, 0);
      var later := IncludesFrom(h, n, i + 1);
      assert here <==> OccursAt(h, n, i);
      assert (exists j :: i <= j && OccursAt(h, n, j)) <==> OccursAt(h, n, i) || exists j :: i + 1 <= j && OccursAt(h, n, j);
      here || later
  }

  /** `h.includes(n)`: some position of `h` starts a copy of `n`. */
  function Includes(h: string, n: string): (r: bool)
    ensures r <==> exists i :: OccursAt(h, n, i)
  {
    IncludesFrom(h, n, 0)
  }

  /** Every string includes the empty string. */
  lemma IncludesEmpty(h: string)
    ensures Includes(h, "")
  {
    assert OccursAt(h, "", 0);
  }

  /** Three-way comparison of characters by code point. */
  function CompareChar(a: char, b: char): int
  {
    if a < b then -1 else if a == b then 0 else 1
  }

  /** Lexicographic three-way comparison; a proper prefix sorts first. */
  function CompareLex(a: string, b: string): (r: int)
    ensures -1 <= r <= 1
    ensures r == 0 <==> a == b
  {
    if |a| == 0 && |b| == 0 then 0
    else if |a| == 0 then -1
    else if |b| == 0 then 1
    else if a[0] != b[0] then CompareChar(a[0], b[0])
    else
      var r := CompareLex(a[1..], b[1..]);
      assert r == 0 <==> a[1..] == b[1..];
      assert a == [a[0]] + a[1..] && b == [b[0]] + b[1..];
      r
  }

  lemma {:induction false} CompareLexAntisymmetric(a: string, b: string)
    ensures CompareLex(b, a) == -CompareLex(a, b)
  {
    if |a| > 0 && |b| > 0 && a[0] == b[0] {
      CompareLexAntisymmetric(a[1..], b[1..]);
    }
  }

  lemma {:induction false} CompareLexTransitive(a: string, b: string, c: string)
    requires CompareLex(a, b) <= 0 && CompareLex(b, c) <= 0
    ensures CompareLex(a, c) <= 0
  {
    if |a| > 0 && |b| > 0 && |c| > 0 && a[0] == b[0] && b[0] == c[0] {
      CompareLexTransitive(a[1..], b[1..], c[1..]);
    }
  }

  /**
    `a.localeCompare(b)`, modelled as the lexicographic order of the
    case-folded strings: negative when `a` sorts first, zero on a tie.
   */
  function LocaleCompare(a: string, b: string): (r: int)
    ensures -1 <= r <= 1
    ensures r == 0 <==> Lower(a) == Lower(b)
  {
    CompareLex(Lower(a), Lower(b))
  }

  /** The title order is a total preorder: antisymmetric in sign and transitive. */
  lemma LocaleCompareIsPreorder(a: string, b: string, c: string)
    ensures LocaleCompare(b, a) == -LocaleCompare(a, b)
    ensures LocaleCompare(a, b) <= 0 && LocaleCompare(b, c) <= 0 ==> LocaleCompare(a, c) <= 0
  {
    CompareLexAntisymmetric(Lower(a), Lower(b));
    if LocaleCompare(a, b) <= 0 && LocaleCompare(b, c) <= 0 {
      CompareLexTransitive(Lower(a), Lower(b), Lower(c));
    }
  }
}
