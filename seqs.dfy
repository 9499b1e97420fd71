/** Sequence and string helpers shared by the retrieval model. */
module Seqs {

  function Min(a: int, b: int): int
  {
    if a <= b then a else b
  }

  /** No element occurs twice. */
  ghost predicate Distinct<T>(s: seq<T>)
  {
    forall i, j :: 0 <= i < j < |s| ==> s[i] != s[j]
  }

  /** `a` can be obtained from `b` by deleting elements, keeping the order of the rest. */
  ghost predicate IsSubseq<T>(a: seq<T>, b: seq<T>)
    decreases |b|
  {
    if a == [] then true
    else if b == [] then false
    else (a[|a| - 1] == b[|b| - 1] && IsSubseq(a[..|a| - 1], b[..|b| - 1])) || IsSubseq(a, b[..|b| - 1])
  }

  /** A subsequence as long as the sequence is the sequence itself. */
  lemma {:induction false} SubseqOfSameLength<T>(a: seq<T>, b: seq<T>)
    requires IsSubseq(a, b) && |a| == |b|
    ensures a == b
    decreases |b|
  {
    if b != [] {
      if !(a[|a| - 1] == b[|b| - 1] && IsSubseq(a[..|a| - 1], b[..|b| - 1])) {
        SubseqNoLonger(a, b[..|b| - 1]);
      } else {
        SubseqOfSameLength(a[..|a| - 1], b[..|b| - 1]);
        assert a == a[..|a| - 1] + [a[|a| - 1]];
      }
    }
  }

  /** A subsequence is no longer than the sequence. */
  lemma {:induction false} SubseqNoLonger<T>(a: seq<T>, b: seq<T>)
    requires IsSubseq(a, b)
    ensures |a| <= |b|
    decreases |b|
  {
    if a != [] {
      if a[|a| - 1] == b[|b| - 1] && IsSubseq(a[..|a| - 1], b[..|b| - 1]) {
        SubseqNoLonger(a[..|a| - 1], b[..|b| - 1]);
      } else {
        SubseqNoLonger(a, b[..|b| - 1]);
      }
    }
  }

  /** The elements of `s` that satisfy `f`, in their order in `s` (a list comprehension with a guard). */
  function Filter<T(==)>(s: seq<T>, f: T -> bool): (r: seq<T>)
    ensures |r| <= |s|
    ensures forall i :: 0 <= i < |r| ==> r[i] in s && f(r[i])
    ensures forall i :: 0 <= i < |s| && f(s[i]) ==> s[i] in r
  {
    if s == [] then []
    else Filter(s[..|s| - 1], f) + (if f(s[|s| - 1]) then [s[|s| - 1]] else [])
  }

  lemma {:induction false} FilterIsSubseq<T>(s: seq<T>, f: T -> bool)
    ensures IsSubseq(Filter(s, f), s)
    decreases |s|
  {
    if s != [] {
      var init := s[..|s| - 1];
      FilterIsSubseq(init, f);
      var r := Filter(s, f);
      if !f(s[|s| - 1]) {
        assert r == Filter(init, f);
      } else {
        assert r[..|r| - 1] == Filter(init, f);
      }
    }
  }

  /** Filtering keeps every element exactly when every element passes. */
  lemma {:induction false} FilterKeepsAll<T>(s: seq<T>, f: T -> bool)
    ensures Filter(s, f) == s <==> forall i :: 0 <= i < |s| ==> f(s[i])
    decreases |s|
  {
    var r := Filter(s, f);
    if r == s {
      forall i | 0 <= i < |s| ensures f(s[i]) {
        assert r[i] == s[i];
      }
    }
    if s != [] && forall i :: 0 <= i < |s| ==> f(s[i]) {
      var init := s[..|s| - 1];
      assert forall i :: 0 <= i < |init| ==> f(init[i]) by {
        forall i | 0 <= i < |init| ensures f(init[i]) { assert init[i] == s[i]; }
      }
      FilterKeepsAll(init, f);
      assert r == init + [s[|s| - 1]];
      assert s == init + [s[|s| - 1]];
    }
  }

  lemma {:induction false} FilterDistinct<T>(s: seq<T>, f: T -> bool)
    requires Distinct(s)
    ensures Distinct(Filter(s, f))
    decreases |s|
  {
    if s != [] {
      var init := s[..|s| - 1];
      var last := s[|s| - 1];
      assert Distinct(init) by {
        forall i, j | 0 <= i < j < |init| ensures init[i] != init[j] { assert init[i] == s[i] && init[j] == s[j]; }
      }
      FilterDistinct(init, f);
      if f(last) {
        var r := Filter(s, f);
        var fi := Filter(init, f);
        assert r == fi + [last];
        assert last !in init by {
          forall i | 0 <= i < |init| ensures init[i] != last { assert init[i] == s[i]; }
        }
        forall i, j | 0 <= i < j < |r| ensures r[i] != r[j] {
          if j == |r| - 1 {
            assert r[i] == fi[i] && fi[i] in init;
          } else {
            assert r[i] == fi[i] && r[j] == fi[j];
          }
        }
      }
    }
  }

  /** `a` occurs as a contiguous block in `b`. */
  ghost predicate IsInfix<T>(a: seq<T>, b: seq<T>)
    decreases |b|
  {
    a <= b || (b != [] && IsInfix(a, b[1..]))
  }

  lemma {:induction false} InfixOfConcat<T>(x: seq<T>, a: seq<T>, y: seq<T>)
    ensures IsInfix(a, x + a + y)
    decreases |x|
  {
    if x == [] {
      assert x + a + y == a + y;
      assert a <= a + y;
    } else {
      assert (x + a + y)[1..] == x[1..] + a + y;
      InfixOfConcat(x[1..], a, y);
    }
  }

  lemma AppendAssoc<T>(a: seq<T>, b: seq<T>, c: seq<T>)
    ensures a + (b + c) == a + b + c
  {
  }

  /** The concatenation of a list of strings (Python's `"".join`). */
  function Concat<T>(parts: seq<seq<T>>): seq<T>
    decreases |parts|
  {
    if parts == [] then [] else Concat(parts[..|parts| - 1]) + parts[|parts| - 1]
  }

  lemma {:induction false} ConcatAppend<T>(a: seq<seq<T>>, b: seq<seq<T>>)
    ensures Concat(a + b) == Concat(a) + Concat(b)
    decreases |b|
  {
    if b == [] {
      assert a + b == a;
    } else {
      var binit := b[..|b| - 1];
      assert (a + b)[..|a + b| - 1] == a + binit;
      assert (a + b)[|a + b| - 1] == b[|b| - 1];
      ConcatAppend(a, binit);
    }
  }

  /** Each part occurs in the concatenation, right after the parts before it. */
  lemma {:induction false} ConcatHasPart<T>(parts: seq<seq<T>>, i: nat)
    requires i < |parts|
    ensures Concat(parts) == Concat(parts[..i]) + parts[i] + Concat(parts[i + 1..])
    decreases |parts|
  {
    var n := |parts| - 1;
    var init, last := parts[..n], parts[n];
    assert Concat(parts) == Concat(init) + last;
    if i == n {
      assert parts[i + 1..] == [];
    } else {
      ConcatHasPart(init, i);
      var a, p, c := Concat(parts[..i]), parts[i], Concat(init[i + 1..]);
      assert init[..i] == parts[..i];
      assert init[i] == p;
      var rest := parts[i + 1..];
      assert rest[..|rest| - 1] == init[i + 1..];
      assert rest[|rest| - 1] == last;
      assert Concat(rest) == c + last;
      AppendAssoc(a + p, c, last);
    }
  }

  lemma PartIsInfix<T>(parts: seq<seq<T>>, i: nat)
    requires i < |parts|
    ensures IsInfix(parts[i], Concat(parts))
  {
    ConcatHasPart(parts, i);
    var x, y := Concat(parts[..i]), Concat(parts[i + 1..]);
    InfixOfConcat(x, parts[i], y);
  }

  // ---- decimal rendering of a natural number (Python's str() on an int) ----

  function DigitChar(d: nat): char
    requires d < 10
  {
    "0123456789"[d]
  }

  predicate IsDigit(c: char)
  {
    '0' <= c <= '9'
  }

  function DigitValue(c: char): nat
    requires IsDigit(c)
  {
    (c as int - '0' as int) as nat
  }

  /** The shortest decimal numeral of `n`. */
  function NatToString(n: nat): (s: string)
    ensures |s| >= 1
    ensures n > 0 ==> s[0] != '0'
    decreases n
  {
    if n < 10 then [DigitChar(n)] else NatToString(n / 10) + [DigitChar(n % 10)]
  }

  /** Reads a decimal numeral; the inverse of NatToString. */
  function ParseNat(s: string): nat
    requires forall i :: 0 <= i < |s| ==> IsDigit(s[i])
    decreases |s|
  {
    if s == [] then 0 else ParseNat(s[..|s| - 1]) * 10 + DigitValue(s[|s| - 1])
  }

  lemma {:induction false} NatToStringRoundTrip(n: nat)
    ensures forall i :: 0 <= i < |NatToString(n)| ==> IsDigit(NatToString(n)[i])
    ensures ParseNat(NatToString(n)) == n
    decreases n
  {
    if n >= 10 {
      NatToStringRoundTrip(n / 10);
      var s := NatToString(n);
      var p := NatToString(n / 10);
      assert s == p + [DigitChar(n % 10)];
      assert s[..|s| - 1] == p;
      assert DigitValue(DigitChar(n % 10)) == n % 10;
    } else {
      assert DigitValue(DigitChar(n)) == n;
    }
  }
}
