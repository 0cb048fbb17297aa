// The last pass of Sama's and Harmony's displays: walk the best-first scored
// list and append every store not yet selected while the display has room.
// A strategy's `selected` set always holds exactly the ids already pushed, so
// it is modelled as membership in the display list itself.
module Selection {
  import opened Common
  import opened StoreScoring

  /** The `selected` set of a strategy that has pushed the ids of `r`. */
  function Selected(r: seq<int>): (s: set<int>)
    ensures forall x :: x in s <==> x in r
  {
    set x | x in r
  }

  /** The result of the fill pass over the pairs of `sorted`, starting from the display `r`, for N = `n`. */
  function Filled(sorted: seq<Scored>, r: seq<int>, n: int): seq<int>
  {
    if sorted == [] then r
    else
      var p := Filled(sorted[..|sorted| - 1], r, n);
      var id := sorted[|sorted| - 1].id;
      if |p| < n && id !in p then p + [id] else p
  }

  /**
   * The fill pass keeps the display it starts from as a prefix, appends only
   * ids of `sorted` that were not shown yet (so no id twice), never grows the
   * display beyond N, and stops short of N only when every id of `sorted` is
   * shown.
   */
  lemma {:induction false} FilledProps(sorted: seq<Scored>, r: seq<int>, n: int)
    ensures var f := Filled(sorted, r, n);
      && |r| <= |f| <= Max(n, |r|) && f[..|r|] == r
      && (forall i :: |r| <= i < |f| ==> f[i] in Ids(sorted) && f[i] !in f[..i])
      && (|f| < n ==> forall x :: x in Ids(sorted) ==> x in f)
  {
    if sorted != [] {
      var init := sorted[..|sorted| - 1];
      var id := sorted[|sorted| - 1].id;
      var p := Filled(init, r, n);
      FilledProps(init, r, n);
      assert sorted == init + [sorted[|sorted| - 1]];
      IdsAppend(init, [sorted[|sorted| - 1]]);
      assert Ids(sorted) == Ids(init) + [id];
      if |p| < n && id !in p {
        var f := p + [id];
        assert f[..|p|] == p;
        assert f[..|r|] == p[..|r|];
      }
    }
  }

  /** Once the display is full, the rest of the walk changes nothing. */
  lemma {:induction false} FilledWhenFull(sorted: seq<Scored>, r: seq<int>, n: int, j: int)
    requires 0 <= j <= |sorted| && |Filled(sorted[..j], r, n)| >= n
    ensures Filled(sorted, r, n) == Filled(sorted[..j], r, n)
  {
    if j < |sorted| {
      var init := sorted[..|sorted| - 1];
      assert init[..j] == sorted[..j];
      FilledWhenFull(init, r, n, j);
      assert sorted[..|sorted|] == sorted;
    } else {
      assert sorted[..j] == sorted;
    }
  }

  /**
   * The walk is greedy: an id of `sorted` left out of the display was left out
   * because the display was full, so no id further down the list is added.
   */
  lemma {:induction false} FilledStopsAtSkip(sorted: seq<Scored>, r: seq<int>, n: int, j: int)
    requires 0 <= j < |sorted| && sorted[j].id !in Filled(sorted, r, n)
    ensures Filled(sorted, r, n) == Filled(sorted[..j], r, n)
    ensures |Filled(sorted, r, n)| >= n
  {
    var p := Filled(sorted[..j], r, n);
    var q := Filled(sorted[..j + 1], r, n);
    assert sorted[..j + 1][..j] == sorted[..j];
    assert sorted[..j + 1][j] == sorted[j];
    if |q| >= n {
      FilledWhenFull(sorted, r, n, j + 1);
    } else {
      FilledProps(sorted[..j + 1], r, n);
      assert Ids(sorted[..j + 1])[j] == sorted[j].id;
      assert sorted[j].id in q;
      FilledGrows(sorted, r, n, j + 1);
      assert false;
    }
  }

  /** Walking further never removes an id from the display. */
  lemma {:induction false} FilledGrows(sorted: seq<Scored>, r: seq<int>, n: int, j: int)
    requires 0 <= j <= |sorted|
    ensures forall x :: x in Filled(sorted[..j], r, n) ==> x in Filled(sorted, r, n)
  {
    if j < |sorted| {
      var init := sorted[..|sorted| - 1];
      assert init[..j] == sorted[..j];
      FilledGrows(init, r, n, j);
    } else {
      assert sorted[..j] == sorted;
    }
  }

  /** The fill loop: `for (i = 0; i < size && result.size() < n; i++) if (!selected(id)) push(id)`. */
  method Fill(sorted: seq<Scored>, r: seq<int>, n: int) returns (f: seq<int>)
    ensures f == Filled(sorted, r, n)
  {
    f := r;
    var i := 0;
    while i < |sorted| && |f| < n
      invariant 0 <= i <= |sorted|
      invariant f == Filled(sorted[..i], r, n)
    {
      assert sorted[..i + 1][..i] == sorted[..i];
      var id := sorted[i].id;
      if id !in Selected(f) {
        f := f + [id];
      }
      i := i + 1;
    }
    if i < |sorted| {
      FilledWhenFull(sorted, r, n, i);
    } else {
      assert sorted[..i] == sorted;
    }
  }

  /** Ids appended after a prefix without repeats, each new to what precedes it, keep the list without repeats. */
  lemma AppendedNew(r: seq<int>, k: int)
    requires 0 <= k <= |r| && Distinct(r[..k])
    requires forall i :: k <= i < |r| ==> r[i] !in r[..i]
    ensures Distinct(r)
  {
    forall i, j | 0 <= i < j < |r|
      ensures r[i] != r[j]
    {
      if j < k {
        assert r[i] == r[..k][i] && r[j] == r[..k][j];
      } else {
        assert r[i] == r[..j][i];
      }
    }
  }
}
