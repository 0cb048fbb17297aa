// Ordering by a numeric key, used wherever the program calls std::sort.
// std::sort gives no guarantee about the relative order of equal keys, so
// every contract below speaks only of the order of keys and of the multiset
// of elements; the insertion sort is one of the orders the program may pick.
module Sorting {

  /** Keys never increase along `s`. */
  predicate Descending<T>(s: seq<T>, key: T -> real) {
    forall i, j :: 0 <= i < j < |s| ==> key(s[i]) >= key(s[j])
  }

  /** Keys never decrease along `s`. */
  predicate Ascending<T>(s: seq<T>, key: T -> real) {
    forall i, j :: 0 <= i < j < |s| ==> key(s[i]) <= key(s[j])
  }

  /** Places `x` in front of the first element whose key is not above its own. */
  function Insert<T>(x: T, s: seq<T>, key: T -> real): (r: seq<T>)
    requires Descending(s, key)
    ensures Descending(r, key)
    ensures multiset(r) == multiset(s) + multiset{x}
    ensures |r| == |s| + 1
    ensures r[0] == x || (s != [] && r[0] == s[0])
  {
    if s == [] || key(x) >= key(s[0]) then [x] + s
    else
      var rest := Insert(x, s[1..], key);
      assert s == [s[0]] + s[1..];
      [s[0]] + rest
  }

  /** Highest key first. */
  function SortDesc<T>(s: seq<T>, key: T -> real): (r: seq<T>)
    ensures Descending(r, key)
    ensures multiset(r) == multiset(s)
    ensures |r| == |s|
  {
    if s == [] then []
    else
      assert s == [s[0]] + s[1..];
      Insert(s[0], SortDesc(s[1..], key), key)
  }

  /** Lowest key first: the descending order of the negated key. */
  function SortAsc<T>(s: seq<T>, key: T -> real): (r: seq<T>)
    ensures Ascending(r, key)
    ensures multiset(r) == multiset(s)
    ensures |r| == |s|
  {
    var r := SortDesc(s, x => -key(x));
    assert forall i, j :: 0 <= i < j < |r| ==> -key(r[i]) >= -key(r[j]);
    r
  }
}
