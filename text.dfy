/**
 * String operations the engine relies on: Python's str.strip() and the
 * upper-casing used to recognise the "NONE" placeholder, the code-point
 * lexicographic order used by sorted() on strings, and str() of a
 * non-negative integer.
 */
module Text {

  /** Python's str.isspace() for a single character. */
  predicate IsSpace(c: char)
  {
    c == ' ' || ('\t' <= c <= '\r') || ('\U{1c}' <= c <= '\U{1f}')
    || c == '\U{85}' || c == '\U{a0}' || c == '\U{1680}'
    || ('\U{2000}' <= c <= '\U{200a}') || c == '\U{2028}' || c == '\U{2029}'
    || c == '\U{202f}' || c == '\U{205f}' || c == '\U{3000}'
  }

  function TrimStart(s: string): (r: string)
    ensures r == [] || !IsSpace(r[0])
    ensures |r| <= |s| && r == s[|s| - |r|..]
  {
    if s != [] && IsSpace(s[0]) then TrimStart(s[1..]) else s
  }

  function TrimEnd(s: string): (r: string)
    ensures r == [] || !IsSpace(r[|r| - 1])
    ensures r <= s
  {
    if s != [] && IsSpace(s[|s| - 1]) then TrimEnd(s[..|s| - 1]) else s
  }

  /** str.strip(): removes leading and trailing whitespace. */
  function Strip(s: string): (r: string)
    ensures r == [] || (!IsSpace(r[0]) && !IsSpace(r[|r| - 1]))
  {
    TrimEnd(TrimStart(s))
  }

  function UpperChar(c: char): char
  {
    if 'a' <= c <= 'z' then (c as int - 32) as char else c
  }

  /** str.upper() restricted to ASCII letters. */
  function Upper(s: string): (r: string)
    ensures |r| == |s|
    ensures forall i :: 0 <= i < |s| ==> r[i] == UpperChar(s[i])
  {
    if s == [] then [] else [UpperChar(s[0])] + Upper(s[1..])
  }

  // ---------------------------------------------------------------
  // Python's ordering of str values: lexicographic by code point
  // ---------------------------------------------------------------

  predicate Less(a: string, b: string)
  {
    if a == [] then b != []
    else if b == [] then false
    else if a[0] != b[0] then a[0] < b[0]
    else Less(a[1..], b[1..])
  }

  lemma {:induction false} LessIrreflexive(a: string)
    ensures !Less(a, a)
  {
    if a != [] { LessIrreflexive(a[1..]); }
  }

  lemma {:induction false} LessTransitive(a: string, b: string, c: string)
    requires Less(a, b) && Less(b, c)
    ensures Less(a, c)
  {
    if a != [] && b != [] && c != [] && a[0] == b[0] && b[0] == c[0] {
      LessTransitive(a[1..], b[1..], c[1..]);
    }
  }

  lemma {:induction false} LessTotal(a: string, b: string)
    requires a != b
    ensures Less(a, b) || Less(b, a)
  {
    if a != [] && b != [] && a[0] == b[0] {
      assert a == [a[0]] + a[1..] && b == [b[0]] + b[1..];
      LessTotal(a[1..], b[1..]);
    }
  }

  lemma {:induction false} LessAsymmetric(a: string, b: string)
    requires Less(a, b)
    ensures !Less(b, a)
  {
    if a != [] && b != [] && a[0] == b[0] {
      LessAsymmetric(a[1..], b[1..]);
    }
  }

  predicate StrictlySorted(s: seq<string>)
  {
    forall i, j :: 0 <= i < j < |s| ==> Less(s[i], s[j])
  }

  function InsertUnique(x: string, s: seq<string>): (r: seq<string>)
    ensures forall i :: 0 <= i < |r| ==> r[i] == x || r[i] in s
    ensures x in r && forall i :: 0 <= i < |s| ==> s[i] in r
  {
    if s == [] then [x]
    else
      var p, l := s[..|s| - 1], s[|s| - 1];
      if l == x then s
      else if Less(l, x) then s + [x]
      else
        var q := InsertUnique(x, p);
        assert forall i :: 0 <= i < |p| ==> p[i] in q by {
          forall i | 0 <= i < |p| ensures p[i] in q { assert p[i] == s[i]; }
        }
        q + [l]
  }

  lemma {:induction false} InsertUniqueSorted(x: string, s: seq<string>)
    requires StrictlySorted(s)
    ensures StrictlySorted(InsertUnique(x, s))
  {
    if s != [] {
      var p, l := s[..|s| - 1], s[|s| - 1];
      if l == x {
      } else if Less(l, x) {
        forall i | 0 <= i < |s| ensures Less(s[i], x) {
          if i < |s| - 1 {
            LessTransitive(s[i], l, x);
          }
        }
        SnocSorted(s, x);
      } else {
        LessTotal(l, x);
        var q := InsertUnique(x, p);
        InsertUniqueSorted(x, p);
        forall i | 0 <= i < |q| ensures Less(q[i], l) {
          if q[i] != x {
            var k :| 0 <= k < |p| && p[k] == q[i];
            assert s[k] == q[i];
          }
        }
        SnocSorted(q, l);
      }
    }
  }

  lemma SnocSorted(s: seq<string>, x: string)
    requires StrictlySorted(s) && forall i :: 0 <= i < |s| ==> Less(s[i], x)
    ensures StrictlySorted(s + [x])
  {
    var r := s + [x];
    forall i, j | 0 <= i < j < |r| ensures Less(r[i], r[j]) {
      assert r[i] == s[i];
    }
  }


  /** sorted(set(s)): the distinct strings of `s` in increasing order. */
  function SortedSet(s: seq<string>): (r: seq<string>)
    ensures StrictlySorted(r)
    ensures forall i :: 0 <= i < |r| ==> r[i] in s
    ensures forall i :: 0 <= i < |s| ==> s[i] in r
  {
    if s == [] then []
    else
      var q := SortedSet(s[..|s| - 1]);
      InsertUniqueSorted(s[|s| - 1], q);
      var r := InsertUnique(s[|s| - 1], q);
      assert forall i :: 0 <= i < |s| - 1 ==> s[i] in q by {
        forall i | 0 <= i < |s| - 1 ensures s[i] in q {
          assert s[..|s| - 1][i] == s[i];
        }
      }
      r
  }

  /** A strictly sorted list has no repeated entry. */
  lemma StrictlySortedDistinct(s: seq<string>, i: nat, j: nat)
    requires StrictlySorted(s) && i < j < |s|
    ensures s[i] != s[j]
  {
    LessIrreflexive(s[i]);
  }

  function DigitChar(d: nat): char
    requires d < 10
  {
    ('0' as int + d) as char
  }

  /** str(n) for a non-negative integer. */
  function NatToString(n: nat): (r: string)
    ensures |r| >= 1
    ensures forall i :: 0 <= i < |r| ==> '0' <= r[i] <= '9'
  {
    if n < 10 then [DigitChar(n)] else NatToString(n / 10) + [DigitChar(n % 10)]
  }
}
