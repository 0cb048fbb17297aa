// Small helpers shared by the model: integer and real clamps, the
// distinctness of a list of ids, and division as the model treats a zero
// divisor.
module Common {

  function Min(a: int, b: int): int { if a <= b then a else b }
  function Max(a: int, b: int): int { if a >= b then a else b }
  function MinR(a: real, b: real): real { if a <= b then a else b }
  function MaxR(a: real, b: real): real { if a >= b then a else b }

  /** Real division; a zero divisor (an IEEE infinity or NaN in the program) gives 0. */
  function Div(a: real, b: real): real { if b == 0.0 then 0.0 else a / b }

  /** Conversion of a non-negative real to int as a C++ cast does (truncation). */
  function Trunc(x: real): int requires x >= 0.0 { x.Floor }

  ghost predicate Distinct<T>(s: seq<T>) {
    forall i, j :: 0 <= i < j < |s| ==> s[i] != s[j]
  }

  /** A prefix grows by the next element. */
  lemma TakeOneMore<T>(s: seq<T>, i: int)
    requires 0 <= i < |s|
    ensures s[..i + 1] == s[..i] + [s[i]]
  {}

  /** A non-empty sequence is its front followed by its last element. */
  lemma SplitLast<T>(s: seq<T>)
    requires s != []
    ensures s == s[..|s| - 1] + [s[|s| - 1]]
  {}

  /** Number of occurrences of `x` in `s`. */
  function Occurrences<T(==)>(s: seq<T>, x: T): nat {
    if s == [] then 0 else Occurrences(s[..|s| - 1], x) + (if s[|s| - 1] == x then 1 else 0)
  }

  lemma {:induction false} OccurrencesPositive<T>(s: seq<T>, x: T)
    ensures Occurrences(s, x) > 0 <==> x in s
  {
    if s != [] {
      OccurrencesPositive(s[..|s| - 1], x);
      assert s == s[..|s| - 1] + [s[|s| - 1]];
    }
  }

  lemma {:induction false} OccurrencesDistinct<T>(s: seq<T>, x: T)
    requires Distinct(s)
    ensures Occurrences(s, x) == if x in s then 1 else 0
  {
    if s != [] {
      var p := s[..|s| - 1];
      OccurrencesDistinct(p, x);
      assert s == p + [s[|s| - 1]];
      if s[|s| - 1] == x {
        assert x !in p;
      }
    }
  }

  /** A sequence without repeats holds each value at most once. */
  lemma {:induction false} MultisetOfDistinct<T>(s: seq<T>)
    requires Distinct(s)
    ensures forall x :: multiset(s)[x] <= 1
  {
    if s != [] {
      var p := s[..|s| - 1];
      MultisetOfDistinct(p);
      assert s == p + [s[|s| - 1]];
      assert s[|s| - 1] !in p;
    }
  }

  /** A rearrangement of a sequence without repeats has no repeats. */
  lemma DistinctByMultiset<T>(s: seq<T>, r: seq<T>)
    requires Distinct(s) && multiset(r) == multiset(s)
    ensures Distinct(r)
  {
    forall i, j | 0 <= i < j < |r|
      ensures r[i] != r[j]
    {
      if r[i] == r[j] {
        assert r == r[..i] + [r[i]] + r[i + 1..j] + [r[j]] + r[j + 1..];
        assert multiset(r)[r[i]] >= 2;
        MultisetOfDistinct(s);
      }
    }
  }
}
