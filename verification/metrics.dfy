// The day's figures (Metrics.h / Metrics.cpp): arrivals, departures,
// impressions per store, the end-of-day tallies of bags sold, cancelled and
// wasted with the revenue they stand for, and the Gini coefficient of how
// often each store was displayed.
module Metrics {
  import opened Common
  import opened Reservations
  import opened Restaurants
  import opened Markets
  import opened Sorting

  // ------------------------------------------------- C++ maps of counters

  /** `m[k]` on a C++ map: a key not yet present reads as 0. */
  function Get(m: map<int, int>, k: int): int { if k in m then m[k] else 0 }

  function GetR(m: map<int, real>, k: int): real { if k in m then m[k] else 0.0 }

  /** `m[k]++`: the key is created if missing and its counter goes up by one. */
  function Incremented(m: map<int, int>, k: int): (r: map<int, int>)
    ensures r.Keys == m.Keys + {k}
    ensures forall x :: Get(r, x) == Get(m, x) + (if x == k then 1 else 0)
  {
    m[k := Get(m, k) + 1]
  }

  /** `times_displayed_per_store` after logging the ids of one display, in order. */
  function Displayed(m: map<int, int>, ids: seq<int>): map<int, int>
  {
    if ids == [] then m else Incremented(Displayed(m, ids[..|ids| - 1]), ids[|ids| - 1])
  }

  /** Logging a display adds exactly one impression per occurrence of an id, and no other counter moves. */
  lemma {:induction false} DisplayedCounts(m: map<int, int>, ids: seq<int>)
    ensures Displayed(m, ids).Keys == m.Keys + (set x | x in ids)
    ensures forall x :: Get(Displayed(m, ids), x) == Get(m, x) + Occurrences(ids, x)
  {
    if ids != [] {
      var init := ids[..|ids| - 1];
      DisplayedCounts(m, init);
      assert ids == init + [ids[|ids| - 1]];
    }
  }

  // ------------------------------------------------- tallies of the reservation log

  /** What `log_end_of_day` counts on a reservation: bags handed over, or one cancellation. */
  datatype Tally = Sold | Cancels

  function Counted(t: Tally, x: Reservation): int {
    match t
    case Sold => if x.status == Confirmed then x.bagsReceived else 0
    case Cancels => if x.status == Cancelled then 1 else 0
  }

  /** The tally over the reservations of store `id`. */
  function At(res: seq<Reservation>, id: int, t: Tally): int {
    if res == [] then 0
    else
      var x := res[|res| - 1];
      At(res[..|res| - 1], id, t) + (if x.restaurantId == id then Counted(t, x) else 0)
  }

  /** The tally over the whole log: bags of every confirmed reservation, or every cancellation. */
  function Overall(res: seq<Reservation>, t: Tally): int {
    if res == [] then 0 else Overall(res[..|res| - 1], t) + Counted(t, res[|res| - 1])
  }

  /** Pending reservations count for nothing, whatever their bag count. */
  lemma {:induction false} PendingCountsNothing(res: seq<Reservation>, id: int, t: Tally)
    requires forall i :: 0 <= i < |res| ==> res[i].status == Pending
    ensures At(res, id, t) == 0 && Overall(res, t) == 0
  {
    if res != [] {
      PendingCountsNothing(res[..|res| - 1], id, t);
    }
  }

  // ------------------------------------------------- per-store figures

  /** What `log_end_of_day` reads of a store. */
  datatype StoreBook = StoreBook(id: int, price: real, actual: int)

  function Books(rs: seq<Restaurant>): (b: seq<StoreBook>)
    reads rs
    ensures |b| == |rs|
    ensures forall i :: 0 <= i < |rs| ==> b[i] == StoreBook(rs[i].businessId, rs[i].pricePerBag, rs[i].actualBags)
  {
    if rs == [] then []
    else
      var r := rs[|rs| - 1];
      Books(rs[..|rs| - 1]) + [StoreBook(r.businessId, r.pricePerBag, r.actualBags)]
  }

  function BookIds(books: seq<StoreBook>): (ids: seq<int>)
    ensures |ids| == |books| && forall i :: 0 <= i < |books| ==> ids[i] == books[i].id
  {
    if books == [] then [] else BookIds(books[..|books| - 1]) + [books[|books| - 1].id]
  }

  /** The three per-store figures: a tally, or the bags left over. */
  datatype Measure = Tallied(t: Tally) | Wasted

  /** A store's figure; waste is the real inventory less the bags handed over, never below 0. */
  function Amount(what: Measure, b: StoreBook, res: seq<Reservation>): int {
    match what
    case Tallied(t) => At(res, b.id, t)
    case Wasted => Max(0, b.actual - At(res, b.id, Sold))
  }

  /** A per-store map after `map[id] = figure` for each store in list order; other keys keep their values. */
  function PerStore(m: map<int, int>, books: seq<StoreBook>, res: seq<Reservation>, what: Measure): map<int, int>
  {
    if books == [] then m
    else
      var b := books[|books| - 1];
      PerStore(m, books[..|books| - 1], res, what)[b.id := Amount(what, b, res)]
  }

  /** The sum of the stores' figures; total waste is never negative. */
  function Total(books: seq<StoreBook>, res: seq<Reservation>, what: Measure): (s: int)
    ensures what == Wasted ==> s >= 0
  {
    if books == [] then 0
    else Total(books[..|books| - 1], res, what) + Amount(what, books[|books| - 1], res)
  }

  /** What `bags` bags bring in at `price` each. */
  function Revenue(price: real, bags: int): real {
    price * bags as real
  }

  /** What a reservation is worth at the store's price: the bags handed over, or one lost bag. */
  function Valued(t: Tally, x: Reservation, price: real): real {
    match t
    case Sold => if x.status == Confirmed then Revenue(price, x.bagsReceived) else 0.0
    case Cancels => if x.status == Cancelled then price else 0.0
  }

  /** The revenue a tally stands for at store `id`, reservation by reservation. */
  function Worth(res: seq<Reservation>, id: int, price: real, t: Tally): real {
    if res == [] then 0.0
    else
      var x := res[|res| - 1];
      Worth(res[..|res| - 1], id, price, t) + (if x.restaurantId == id then Valued(t, x, price) else 0.0)
  }

  /** A store's revenue is its price times its tally: bags sold, or cancellations. */
  lemma {:induction false} WorthIsPriceTimesTally(res: seq<Reservation>, id: int, price: real, t: Tally)
    ensures Worth(res, id, price, t) == price * At(res, id, t) as real
  {
    if res != [] {
      var init := res[..|res| - 1];
      WorthIsPriceTimesTally(init, id, price, t);
      var x := res[|res| - 1];
      if x.restaurantId == id {
        Distributes(price, At(init, id, t) as real, Counted(t, x) as real);
      }
    }
  }

  lemma Distributes(p: real, a: real, b: real)
    ensures p * (a + b) == p * a + p * b
  {
  }

  /** The revenue of all stores for a tally. */
  function Priced(books: seq<StoreBook>, res: seq<Reservation>, t: Tally): real {
    if books == [] then 0.0
    else
      var b := books[|books| - 1];
      Priced(books[..|books| - 1], res, t) + Worth(res, b.id, b.price, t)
  }

  /** Store `id` has a confirmed reservation in the log. */
  predicate AnyConfirmed(res: seq<Reservation>, id: int) {
    exists i :: 0 <= i < |res| && res[i].restaurantId == id && res[i].status == Confirmed
  }

  /**
   * `revenue_per_store[id] += price * bags` over the log: the entry is
   * created by the first confirmed reservation of the store, even one of 0
   * bags, and then grows by the revenue of all of them.
   */
  function Credited(m: map<int, real>, id: int, price: real, res: seq<Reservation>): map<int, real> {
    if AnyConfirmed(res, id) then m[id := GetR(m, id) + Worth(res, id, price, Sold)] else m
  }

  function RevenueMap(m: map<int, real>, books: seq<StoreBook>, res: seq<Reservation>): map<int, real> {
    if books == [] then m
    else
      var b := books[|books| - 1];
      Credited(RevenueMap(m, books[..|books| - 1], res), b.id, b.price, res)
  }

  /** Without a confirmed reservation a store has earned nothing. */
  lemma {:induction false} WorthWithoutConfirmed(res: seq<Reservation>, id: int, price: real)
    requires !AnyConfirmed(res, id)
    ensures Worth(res, id, price, Sold) == 0.0
  {
    if res != [] {
      var init := res[..|res| - 1];
      assert !AnyConfirmed(init, id);
      WorthWithoutConfirmed(init, id, price);
    }
  }

  /** One more reservation of the log, as the inner loop of `log_end_of_day` sees it. */
  lemma TallyStep(id: int, price: real, res: seq<Reservation>, j: int)
    requires 0 <= j < |res|
    ensures var x := res[j];
      && At(res[..j + 1], id, Sold) == At(res[..j], id, Sold) + (if x.restaurantId == id then Counted(Sold, x) else 0)
      && At(res[..j + 1], id, Cancels) == At(res[..j], id, Cancels) + (if x.restaurantId == id then Counted(Cancels, x) else 0)
      && Worth(res[..j + 1], id, price, Sold) == Worth(res[..j], id, price, Sold) + (if x.restaurantId == id then Valued(Sold, x, price) else 0.0)
      && Worth(res[..j + 1], id, price, Cancels) == Worth(res[..j], id, price, Cancels) + (if x.restaurantId == id then Valued(Cancels, x, price) else 0.0)
  {
    assert res[..j + 1][..j] == res[..j];
  }

  /** The revenue entry after one more reservation: credited when it is a confirmed one of the store. */
  lemma CreditedStep(m: map<int, real>, id: int, price: real, res: seq<Reservation>, j: int)
    requires 0 <= j < |res|
    ensures res[j].restaurantId == id && res[j].status == Confirmed ==>
      Credited(m, id, price, res[..j + 1]) ==
        Credited(m, id, price, res[..j])[id := GetR(Credited(m, id, price, res[..j]), id) + Revenue(price, res[j].bagsReceived)]
    ensures !(res[j].restaurantId == id && res[j].status == Confirmed) ==>
      Credited(m, id, price, res[..j + 1]) == Credited(m, id, price, res[..j])
  {
    var s, x := res[..j + 1], res[j];
    assert s[..j] == res[..j] && s[j] == x;
    assert AnyConfirmed(s, id) <==> AnyConfirmed(res[..j], id) || (x.restaurantId == id && x.status == Confirmed) by {
      if AnyConfirmed(s, id) {
        var i :| 0 <= i < |s| && s[i].restaurantId == id && s[i].status == Confirmed;
        if i < j {
          assert res[..j][i] == s[i];
        }
      }
      if AnyConfirmed(res[..j], id) {
        var i :| 0 <= i < j && res[..j][i].restaurantId == id && res[..j][i].status == Confirmed;
        assert s[i] == res[..j][i];
      }
    }
    TallyStep(id, price, res, j);
    if !AnyConfirmed(res[..j], id) {
      WorthWithoutConfirmed(res[..j], id, price);
    }
    if x.restaurantId == id && x.status == Confirmed {
      var w := Worth(res[..j], id, price, Sold);
      var v := Revenue(price, x.bagsReceived);
      assert Worth(s, id, price, Sold) == w + v;
      assert AnyConfirmed(s, id);
      assert Credited(m, id, price, s) == m[id := GetR(m, id) + (w + v)];
      var p := Credited(m, id, price, res[..j]);
      assert GetR(p, id) == GetR(m, id) + w;
      assert p[id := GetR(p, id) + v] == m[id := GetR(m, id) + (w + v)];
      assert Credited(m, id, price, s) == p[id := GetR(p, id) + v];
      assert Credited(m, id, price, res[..j + 1]) == p[id := GetR(p, id) + v];
      assert GetR(p, id) + v == GetR(Credited(m, id, price, res[..j]), id) + Revenue(price, res[j].bagsReceived);
      assert Credited(m, id, price, res[..j + 1]) ==
        Credited(m, id, price, res[..j])[id := GetR(Credited(m, id, price, res[..j]), id) + Revenue(price, res[j].bagsReceived)];
    } else {
      assert Worth(s, id, price, Sold) == Worth(res[..j], id, price, Sold);
    }
  }

  /** Entry `k` is the last one listed under its store id. */
  predicate LastOfId(books: seq<StoreBook>, k: int)
    requires 0 <= k < |books|
  {
    forall j :: k < j < |books| ==> books[j].id != books[k].id
  }

  /** A per-store map gains exactly the stores' ids as keys. */
  lemma {:induction false} PerStoreKeys(m: map<int, int>, books: seq<StoreBook>, res: seq<Reservation>, what: Measure)
    ensures PerStore(m, books, res, what).Keys == m.Keys + (set x | x in BookIds(books))
  {
    if books != [] {
      var init := books[..|books| - 1];
      PerStoreKeys(m, init, res, what);
      assert BookIds(books) == BookIds(init) + [books[|books| - 1].id];
    }
  }

  /** Each store's entry holds its own figure, set by the last store listed under that id. */
  lemma {:induction false} PerStoreLastWins(m: map<int, int>, books: seq<StoreBook>, res: seq<Reservation>, what: Measure, k: int)
    requires 0 <= k < |books| && LastOfId(books, k)
    ensures books[k].id in PerStore(m, books, res, what)
    ensures PerStore(m, books, res, what)[books[k].id] == Amount(what, books[k], res)
  {
    var n := |books| - 1;
    var init, b := books[..n], books[n];
    if k < n {
      assert books[k] == init[k] && books[k].id != b.id;
      assert LastOfId(init, k) by {
        assert forall j :: k < j < |init| ==> init[j] == books[j];
      }
      PerStoreLastWins(m, init, res, what, k);
    }
  }

  /** Ids of no store keep their old entry. */
  lemma {:induction false} PerStoreKeepsOthers(m: map<int, int>, books: seq<StoreBook>, res: seq<Reservation>, what: Measure, x: int)
    requires x !in BookIds(books) && x in m
    ensures x in PerStore(m, books, res, what) && PerStore(m, books, res, what)[x] == m[x]
  {
    if books != [] {
      var init := books[..|books| - 1];
      assert BookIds(books) == BookIds(init) + [books[|books| - 1].id];
      PerStoreKeepsOthers(m, init, res, what, x);
    }
  }

  /** The sum of a map's counters over a list of keys. */
  function SumAt(m: map<int, int>, ids: seq<int>): int {
    if ids == [] then 0 else SumAt(m, ids[..|ids| - 1]) + Get(m, ids[|ids| - 1])
  }

  lemma {:induction false} SumAtUnchanged(m: map<int, int>, ids: seq<int>, k: int, v: int)
    requires k !in ids
    ensures SumAt(m[k := v], ids) == SumAt(m, ids)
  {
    if ids != [] {
      SumAtUnchanged(m, ids[..|ids| - 1], k, v);
    }
  }

  /**
   * With distinct store ids, a running total equals the sum of the per-store
   * entries it was accumulated with (`total_bags_unsold` is the sum of
   * `waste_per_store`, and likewise for bags sold and cancelled).
   */
  lemma {:induction false} TotalIsSumOfEntries(m: map<int, int>, books: seq<StoreBook>, res: seq<Reservation>, what: Measure)
    requires Distinct(BookIds(books))
    ensures SumAt(PerStore(m, books, res, what), BookIds(books)) == Total(books, res, what)
  {
    if books != [] {
      var init := books[..|books| - 1];
      var b := books[|books| - 1];
      assert BookIds(books) == BookIds(init) + [b.id];
      assert Distinct(BookIds(init)) by {
        forall i, j | 0 <= i < j < |init| ensures BookIds(init)[i] != BookIds(init)[j] {
          assert BookIds(books)[i] != BookIds(books)[j];
        }
      }
      assert b.id !in BookIds(init) by {
        forall i | 0 <= i < |init| ensures BookIds(init)[i] != b.id {
          assert BookIds(books)[i] != BookIds(books)[|books| - 1];
        }
      }
      TotalIsSumOfEntries(m, init, res, what);
      var p := PerStore(m, init, res, what);
      SumAtUnchanged(p, BookIds(init), b.id, Amount(what, b, res));
      SumAtSplit(p[b.id := Amount(what, b, res)], BookIds(init), b.id);
    }
  }

  lemma SumAtSplit(m: map<int, int>, ids: seq<int>, k: int)
    ensures SumAt(m, ids + [k]) == SumAt(m, ids) + Get(m, k)
  {
    assert (ids + [k])[..|ids|] == ids;
  }

  /** Adding one reservation to the log adds its tally to the stores' total once, when its store is listed. */
  lemma {:induction false} TotalOneMore(books: seq<StoreBook>, res: seq<Reservation>, x: Reservation, t: Tally)
    requires Distinct(BookIds(books))
    ensures Total(books, res + [x], Tallied(t)) ==
      Total(books, res, Tallied(t)) + (if x.restaurantId in BookIds(books) then Counted(t, x) else 0)
  {
    if books != [] {
      var init := books[..|books| - 1];
      var b := books[|books| - 1];
      assert BookIds(books) == BookIds(init) + [b.id];
      assert Distinct(BookIds(init)) by {
        forall i, j | 0 <= i < j < |init| ensures BookIds(init)[i] != BookIds(init)[j] {
          assert BookIds(books)[i] != BookIds(books)[j];
        }
      }
      assert b.id !in BookIds(init) by {
        forall i | 0 <= i < |init| ensures BookIds(init)[i] != b.id {
          assert BookIds(books)[i] != BookIds(books)[|books| - 1];
        }
      }
      TotalOneMore(init, res, x, t);
      assert (res + [x])[..|res|] == res;
    }
  }

  /**
   * When no two stores share an id and every reservation names a listed
   * store, the stores' totals count the whole log: `total_bags_sold` is the
   * sum of `bags_received` over the confirmed reservations and
   * `total_bags_cancelled` the number of cancelled ones.
   */
  lemma {:induction false} TotalsCoverLog(books: seq<StoreBook>, res: seq<Reservation>, t: Tally)
    requires Distinct(BookIds(books))
    requires forall i :: 0 <= i < |res| ==> res[i].restaurantId in BookIds(books)
    ensures Total(books, res, Tallied(t)) == Overall(res, t)
  {
    if res == [] {
      TotalOfNothing(books, t);
    } else {
      var init := res[..|res| - 1];
      TotalsCoverLog(books, init, t);
      TotalOneMore(books, init, res[|res| - 1], t);
      assert init + [res[|res| - 1]] == res;
    }
  }

  lemma {:induction false} TotalOfNothing(books: seq<StoreBook>, t: Tally)
    ensures Total(books, [], Tallied(t)) == 0
  {
    if books != [] {
      TotalOfNothing(books[..|books| - 1], t);
    }
  }

  // ------------------------------------------------- exposure fairness

  function AsReal(x: int): real { x as real }

  function SumInts(s: seq<int>): int {
    if s == [] then 0 else SumInts(s[..|s| - 1]) + s[|s| - 1]
  }

  /** An exposure weighted by its 1-based position in ascending order. */
  function Ranked(exposure: int, position: int): int {
    exposure * position
  }

  /** The sum of `s[i] * (i + 1)`. */
  function WeightedSum(s: seq<int>): int {
    if s == [] then 0 else WeightedSum(s[..|s| - 1]) + Ranked(s[|s| - 1], |s|)
  }

  /** The Gini coefficient of the exposures, computed on them in ascending order; 0 when there are none or all are 0. */
  function Gini(exposures: seq<int>): real {
    if exposures == [] then 0.0 else GiniOfSorted(SortAsc(exposures, AsReal))
  }

  /** The Gini coefficient of exposures already in ascending order. */
  function GiniOfSorted(s: seq<int>): real
    requires s != []
  {
    var sum := SumInts(s) as real;
    if sum == 0.0 then 0.0 else GiniFormula(|s|, sum, WeightedSum(s) as real)
  }

  /** `2 * weighted_sum / (n * sum) - (n + 1) / n`. */
  function GiniFormula(n: int, sum: real, weightedSum: real): real
    requires n > 0 && sum != 0.0
  {
    assert n as real * sum != 0.0;
    (2.0 * weightedSum) / (n as real * sum) - (n as real + 1.0) / n as real
  }

  /** The exposure of each listed store. */
  function Exposures(times: map<int, int>, ids: seq<int>): (e: seq<int>)
    ensures |e| == |ids| && forall i :: 0 <= i < |ids| ==> e[i] == Get(times, ids[i])
  {
    if ids == [] then [] else Exposures(times, ids[..|ids| - 1]) + [Get(times, ids[|ids| - 1])]
  }

  /** One more listed store adds its exposure at the end and its id to the listed ids. */
  lemma ExposuresStep(times: map<int, int>, ids: seq<int>, i: int)
    requires 0 <= i < |ids|
    ensures Exposures(times, ids[..i + 1]) == Exposures(times, ids[..i]) + [Get(times, ids[i])]
    ensures var next := ids[..i + 1]; (set x | x in next) == (set x | x in ids[..i]) + {ids[i]}
  {
    assert ids[..i + 1][..i] == ids[..i];
  }

  lemma {:induction false} SumOfConstant(s: seq<int>, v: int)
    requires forall i :: 0 <= i < |s| ==> s[i] == v
    ensures SumInts(s) == |s| * v
    ensures 2 * WeightedSum(s) == v * |s| * (|s| + 1)
  {
    if s != [] {
      SumOfConstant(s[..|s| - 1], v);
      var k := |s| - 1;
      assert v * |s| * (|s| + 1) == v * k * (k + 1) + 2 * v * |s|;
    }
  }

  lemma {:induction false} SumOfZeros(s: seq<int>)
    requires forall i :: 0 <= i < |s| ==> s[i] == 0
    ensures SumInts(s) == 0
  {
    if s != [] {
      SumOfZeros(s[..|s| - 1]);
    }
  }

  /** Sorting a list whose entries are all `v` leaves entries that are all `v`. */
  lemma SortedConstant(e: seq<int>, v: int)
    requires forall i :: 0 <= i < |e| ==> e[i] == v
    ensures forall i :: 0 <= i < |e| ==> SortAsc(e, AsReal)[i] == v
  {
    var s := SortAsc(e, AsReal);
    forall i | 0 <= i < |s| ensures s[i] == v {
      assert s[i] in multiset(s);
      assert s[i] in multiset(e);
    }
  }

  /** No exposure at all, or none but zeros, gives a Gini coefficient of 0. */
  lemma GiniWithoutExposure(e: seq<int>)
    requires forall i :: 0 <= i < |e| ==> e[i] == 0
    ensures Gini(e) == 0.0
  {
    if e != [] {
      SortedConstant(e, 0);
      SumOfZeros(SortAsc(e, AsReal));
    }
  }

  /** Equal exposure everywhere is perfect equality: the Gini coefficient is 0. */
  lemma GiniOfEqualExposure(e: seq<int>, v: int)
    requires forall i :: 0 <= i < |e| ==> e[i] == v
    ensures Gini(e) == 0.0
  {
    if v == 0 {
      GiniWithoutExposure(e);
    } else if e != [] {
      var s := SortAsc(e, AsReal);
      SortedConstant(e, v);
      GiniOfSortedConstant(s, v);
      assert Gini(e) == GiniOfSorted(s);
    }
  }

  lemma GiniOfSortedConstant(s: seq<int>, v: int)
    requires s != [] && v != 0
    requires forall i :: 0 <= i < |s| ==> s[i] == v
    ensures GiniOfSorted(s) == 0.0
  {
    SumOfConstant(s, v);
    EqualSharesOfCounts(|s|, v, WeightedSum(s), SumInts(s));
  }

  lemma EqualSharesOfCounts(k: int, v: int, w: int, s: int)
    requires k > 0 && v != 0
    requires 2 * w == v * k * (k + 1) && s == k * v
    ensures s as real != 0.0 && GiniFormula(k, s as real, w as real) == 0.0
  {
    MulAsReal(v, k);
    MulAsReal(v * k, k + 1);
    MulAsReal(k, v);
    var n, V := k as real, v as real;
    assert 2.0 * w as real == (V * n) * (n + 1.0);
    assert s as real == n * V;
    EqualShares(n, V, w as real, s as real);
  }

  lemma MulAsReal(a: int, b: int)
    ensures (a * b) as real == a as real * b as real
  {
  }

  /** With `2 w = v n (n + 1)` and `s = n v`, the two terms of the formula cancel. */
  lemma EqualShares(n: real, v: real, w: real, s: real)
    requires n > 0.0 && v != 0.0
    requires 2.0 * w == v * n * (n + 1.0) && s == n * v
    ensures s != 0.0 && (2.0 * w) / (n * s) - (n + 1.0) / n == 0.0
  {
    var q := (n + 1.0) / n;
    assert q * n == n + 1.0;
    assert n * s != 0.0;
    assert 2.0 * w == (n * s) * q;
  }

  // ------------------------------------------------- the collector

  class MetricsCollector {
    var totalBagsSold: int
    var totalBagsCancelled: int
    var totalBagsUnsold: int
    var totalRevenueGenerated: real
    var totalRevenueLost: real
    var customersWhoLeft: int
    var totalCustomerArrivals: int
    var bagsSoldPerStore: map<int, int>
    var bagsCancelledPerStore: map<int, int>
    var revenuePerStore: map<int, real>
    var timesDisplayedPerStore: map<int, int>
    var wastePerStore: map<int, int>
    var giniCoefficientExposure: real

    /** Every counter and total starts at 0, every per-store map empty. */
    constructor ()
      ensures totalBagsSold == 0 && totalBagsCancelled == 0 && totalBagsUnsold == 0
      ensures totalRevenueGenerated == 0.0 && totalRevenueLost == 0.0
      ensures customersWhoLeft == 0 && totalCustomerArrivals == 0 && giniCoefficientExposure == 0.0
      ensures bagsSoldPerStore == map[] && bagsCancelledPerStore == map[] && revenuePerStore == map[]
      ensures timesDisplayedPerStore == map[] && wastePerStore == map[]
    {
      totalBagsSold, totalBagsCancelled, totalBagsUnsold := 0, 0, 0;
      totalRevenueGenerated, totalRevenueLost := 0.0, 0.0;
      customersWhoLeft, totalCustomerArrivals := 0, 0;
      bagsSoldPerStore, bagsCancelledPerStore, revenuePerStore := map[], map[], map[];
      timesDisplayedPerStore, wastePerStore := map[], map[];
      giniCoefficientExposure := 0.0;
    }

    method LogCustomerArrival()
      modifies this`totalCustomerArrivals
      ensures totalCustomerArrivals == old(totalCustomerArrivals) + 1
    {
      totalCustomerArrivals := totalCustomerArrivals + 1;
    }

    method LogCustomerLeft()
      modifies this`customersWhoLeft
      ensures customersWhoLeft == old(customersWhoLeft) + 1
    {
      customersWhoLeft := customersWhoLeft + 1;
    }

    method LogStoresDisplayed(ids: seq<int>)
      modifies this`timesDisplayedPerStore
      ensures timesDisplayedPerStore == Displayed(old(timesDisplayedPerStore), ids)
    {
      var i := 0;
      while i < |ids|
        invariant 0 <= i <= |ids|
        invariant timesDisplayedPerStore == Displayed(old(timesDisplayedPerStore), ids[..i])
      {
        assert ids[..i + 1][..i] == ids[..i];
        timesDisplayedPerStore := Incremented(timesDisplayedPerStore, ids[i]);
        i := i + 1;
      }
      assert ids[..i] == ids;
    }

    /** A cancellation logged as it happens: one more bag cancelled, for the reservation's store. */
    method LogCancellation(res: Reservation, lostRevenue: real)
      modifies this`totalBagsCancelled, this`totalRevenueLost, this`bagsCancelledPerStore
      ensures totalBagsCancelled == old(totalBagsCancelled) + 1
      ensures totalRevenueLost == old(totalRevenueLost) + lostRevenue
      ensures bagsCancelledPerStore == Incremented(old(bagsCancelledPerStore), res.restaurantId)
    {
      totalBagsCancelled := totalBagsCancelled + 1;
      totalRevenueLost := totalRevenueLost + lostRevenue;
      bagsCancelledPerStore := Incremented(bagsCancelledPerStore, res.restaurantId);
    }

    method LogConfirmation(res: Reservation, bagsReceived: int)
      modifies this`totalBagsSold
      ensures totalBagsSold == old(totalBagsSold) + bagsReceived
    {
      totalBagsSold := totalBagsSold + bagsReceived;
    }

    /**
     * `log_end_of_day`: the totals restart from 0 and are rebuilt from the
     * reservation log store by store; the per-store maps of bags sold,
     * cancelled and wasted get one entry per store, while the revenue map
     * keeps adding to what it held.
     */
    method LogEndOfDay(market: MarketState)
      modifies this`totalBagsSold, this`totalBagsCancelled, this`totalBagsUnsold
      modifies this`totalRevenueGenerated, this`totalRevenueLost
      modifies this`bagsSoldPerStore, this`bagsCancelledPerStore, this`wastePerStore, this`revenuePerStore
      ensures var books, res := old(Books(market.restaurants)), old(market.reservations);
        && totalBagsSold == Total(books, res, Tallied(Sold))
        && totalBagsCancelled == Total(books, res, Tallied(Cancels))
        && totalBagsUnsold == Total(books, res, Wasted)
        && totalRevenueGenerated == Priced(books, res, Sold)
        && totalRevenueLost == Priced(books, res, Cancels)
        && bagsSoldPerStore == PerStore(old(bagsSoldPerStore), books, res, Tallied(Sold))
        && bagsCancelledPerStore == PerStore(old(bagsCancelledPerStore), books, res, Tallied(Cancels))
        && wastePerStore == PerStore(old(wastePerStore), books, res, Wasted)
        && revenuePerStore == RevenueMap(old(revenuePerStore), books, res)
    {
      totalBagsSold, totalBagsCancelled, totalBagsUnsold := 0, 0, 0;
      totalRevenueGenerated, totalRevenueLost := 0.0, 0.0;
      var rs, res := market.restaurants, market.reservations;
      ghost var books := old(Books(market.restaurants));
      assert res == old(market.reservations);
      var i := 0;
      while i < |rs|
        invariant 0 <= i <= |rs|
        invariant totalBagsSold == Total(books[..i], res, Tallied(Sold))
        invariant totalBagsCancelled == Total(books[..i], res, Tallied(Cancels))
        invariant totalBagsUnsold == Total(books[..i], res, Wasted)
        invariant totalRevenueGenerated == Priced(books[..i], res, Sold)
        invariant totalRevenueLost == Priced(books[..i], res, Cancels)
        invariant bagsSoldPerStore == PerStore(old(bagsSoldPerStore), books[..i], res, Tallied(Sold))
        invariant bagsCancelledPerStore == PerStore(old(bagsCancelledPerStore), books[..i], res, Tallied(Cancels))
        invariant wastePerStore == PerStore(old(wastePerStore), books[..i], res, Wasted)
        invariant revenuePerStore == RevenueMap(old(revenuePerStore), books[..i], res)
      {
        var b := StoreBook(rs[i].businessId, rs[i].pricePerBag, rs[i].actualBags);
        assert b == books[i];
        assert books[..i + 1] == books[..i] + [b];
        SettleStore(b, res);
        i := i + 1;
      }
      assert books[..i] == books;
    }

    /** One store of `log_end_of_day`: its pass over the log, then its per-store entries and its waste. */
    method SettleStore(b: StoreBook, res: seq<Reservation>)
      modifies this`totalBagsSold, this`totalBagsCancelled, this`totalBagsUnsold
      modifies this`totalRevenueGenerated, this`totalRevenueLost
      modifies this`bagsSoldPerStore, this`bagsCancelledPerStore, this`wastePerStore, this`revenuePerStore
      ensures totalBagsSold == old(totalBagsSold) + At(res, b.id, Sold)
      ensures totalBagsCancelled == old(totalBagsCancelled) + At(res, b.id, Cancels)
      ensures totalBagsUnsold == old(totalBagsUnsold) + Amount(Wasted, b, res)
      ensures totalRevenueGenerated == old(totalRevenueGenerated) + Worth(res, b.id, b.price, Sold)
      ensures totalRevenueLost == old(totalRevenueLost) + Worth(res, b.id, b.price, Cancels)
      ensures bagsSoldPerStore == old(bagsSoldPerStore)[b.id := At(res, b.id, Sold)]
      ensures bagsCancelledPerStore == old(bagsCancelledPerStore)[b.id := At(res, b.id, Cancels)]
      ensures wastePerStore == old(wastePerStore)[b.id := Amount(Wasted, b, res)]
      ensures revenuePerStore == Credited(old(revenuePerStore), b.id, b.price, res)
    {
      var bagsSold, bagsCancelled, totalBagsGiven := ScanReservations(b, res);
      bagsSoldPerStore := bagsSoldPerStore[b.id := bagsSold];
      bagsCancelledPerStore := bagsCancelledPerStore[b.id := bagsCancelled];
      var unsold := Max(0, b.actual - totalBagsGiven);
      if unsold > 0 {
        totalBagsUnsold := totalBagsUnsold + unsold;
        wastePerStore := wastePerStore[b.id := unsold];
      } else {
        wastePerStore := wastePerStore[b.id := 0];
      }
    }

    /** The inner loop of `log_end_of_day`: one store's pass over the whole reservation log. */
    method ScanReservations(b: StoreBook, res: seq<Reservation>) returns (bagsSold: int, bagsCancelled: int, totalBagsGiven: int)
      modifies this`totalBagsSold, this`totalBagsCancelled, this`totalRevenueGenerated, this`totalRevenueLost
      modifies this`revenuePerStore
      ensures bagsSold == totalBagsGiven == At(res, b.id, Sold)
      ensures bagsCancelled == At(res, b.id, Cancels)
      ensures totalBagsSold == old(totalBagsSold) + bagsSold
      ensures totalBagsCancelled == old(totalBagsCancelled) + bagsCancelled
      ensures totalRevenueGenerated == old(totalRevenueGenerated) + Worth(res, b.id, b.price, Sold)
      ensures totalRevenueLost == old(totalRevenueLost) + Worth(res, b.id, b.price, Cancels)
      ensures revenuePerStore == Credited(old(revenuePerStore), b.id, b.price, res)
    {
      bagsSold, bagsCancelled, totalBagsGiven := 0, 0, 0;
      var j := 0;
      while j < |res|
        invariant 0 <= j <= |res|
        invariant bagsSold == totalBagsGiven == At(res[..j], b.id, Sold)
        invariant bagsCancelled == At(res[..j], b.id, Cancels)
        invariant totalBagsSold == old(totalBagsSold) + bagsSold
        invariant totalBagsCancelled == old(totalBagsCancelled) + bagsCancelled
        invariant totalRevenueGenerated == old(totalRevenueGenerated) + Worth(res[..j], b.id, b.price, Sold)
        invariant totalRevenueLost == old(totalRevenueLost) + Worth(res[..j], b.id, b.price, Cancels)
        invariant revenuePerStore == Credited(old(revenuePerStore), b.id, b.price, res[..j])
      {
        TallyStep(b.id, b.price, res, j);
        CreditedStep(old(revenuePerStore), b.id, b.price, res, j);
        var x := res[j];
        if x.restaurantId == b.id {
          if x.status == Confirmed {
            var bags := x.bagsReceived;
            bagsSold := bagsSold + bags;
            totalBagsGiven := totalBagsGiven + bags;
            totalBagsSold := totalBagsSold + bags;
            var revenue := Revenue(b.price, bags);
            revenuePerStore := revenuePerStore[b.id := GetR(revenuePerStore, b.id) + revenue];
            totalRevenueGenerated := totalRevenueGenerated + revenue;
          } else if x.status == Cancelled {
            bagsCancelled := bagsCancelled + 1;
            totalBagsCancelled := totalBagsCancelled + 1;
            totalRevenueLost := totalRevenueLost + b.price;
          }
        }
        j := j + 1;
      }
      assert res[..j] == res;
    }

    /**
     * `calculate_fairness_metrics`: reading each store's exposure creates a
     * 0 entry for a store never displayed; the Gini coefficient is computed
     * on the exposures in ascending order.
     */
    method CalculateFairnessMetrics(market: MarketState)
      modifies this`timesDisplayedPerStore, this`giniCoefficientExposure
      ensures giniCoefficientExposure == Gini(Exposures(old(timesDisplayedPerStore), IdsOf(market.restaurants)))
      ensures timesDisplayedPerStore.Keys == old(timesDisplayedPerStore).Keys + (set x | x in IdsOf(market.restaurants))
      ensures forall x :: Get(timesDisplayedPerStore, x) == Get(old(timesDisplayedPerStore), x)
    {
      var exposures := CollectExposures(market.restaurants);
      giniCoefficientExposure := GiniCoefficient(exposures);
    }

    /** The first loop of `calculate_fairness_metrics`: every store gets an entry, and its count is read. */
    method CollectExposures(rs: seq<Restaurant>) returns (exposures: seq<int>)
      modifies this`timesDisplayedPerStore
      ensures exposures == Exposures(old(timesDisplayedPerStore), IdsOf(rs))
      ensures timesDisplayedPerStore.Keys == old(timesDisplayedPerStore).Keys + (set x | x in IdsOf(rs))
      ensures forall x :: Get(timesDisplayedPerStore, x) == Get(old(timesDisplayedPerStore), x)
    {
      ghost var ids := IdsOf(rs);
      var times := timesDisplayedPerStore;
      ghost var start := times;
      exposures := [];
      var i := 0;
      while i < |rs|
        invariant 0 <= i <= |rs|
        invariant exposures == Exposures(start, ids[..i])
        invariant times.Keys == start.Keys + (set x | x in ids[..i])
        invariant forall x :: Get(times, x) == Get(start, x)
      {
        ExposuresStep(start, ids, i);
        var id := rs[i].businessId;
        if id !in times {
          times := times[id := 0];
        }
        assert ids[i] == id && times[id] == Get(start, id);
        exposures := exposures + [times[id]];
        i := i + 1;
      }
      assert ids[..i] == ids;
      timesDisplayedPerStore := times;
    }
  }

  /** The rest of `calculate_fairness_metrics`: sort the exposures, sum them, apply the Gini formula. */
  method GiniCoefficient(e: seq<int>) returns (gini: real)
    ensures gini == Gini(e)
  {
    if e == [] {
      return 0.0;
    }
    var exposures := SortAsc(e, AsReal);
    var sum, weightedSum := SumExposures(exposures);
    if sum == 0.0 {
      gini := 0.0;
    } else {
      gini := GiniFormula(|exposures|, sum, weightedSum);
    }
  }

  /** The summation loop of `calculate_fairness_metrics`: the plain sum and the sum weighted by 1-based position. */
  method SumExposures(exposures: seq<int>) returns (sum: real, weightedSum: real)
    ensures sum == SumInts(exposures) as real
    ensures weightedSum == WeightedSum(exposures) as real
  {
    sum, weightedSum := 0.0, 0.0;
    var k := 0;
    while k < |exposures|
      invariant 0 <= k <= |exposures|
      invariant sum == SumInts(exposures[..k]) as real
      invariant weightedSum == WeightedSum(exposures[..k]) as real
    {
      assert exposures[..k + 1][..k] == exposures[..k];
      sum := sum + exposures[k] as real;
      weightedSum := weightedSum + Ranked(exposures[k], k + 1) as real;
      k := k + 1;
    }
    assert exposures[..k] == exposures;
  }
}
