// The six display strategies (RankingAlgorithms.h / RankingAlgorithms.cpp):
// each turns a customer, the market and a display count N into an ordered
// list of store ids, and the dispatcher picks one by name.
module Ranking {
  import opened Common
  import opened Restaurants
  import opened Customers
  import opened Markets
  import opened Sorting
  import opened StoreScoring

  datatype RankingAlgorithm = Baseline | Sama | Andrew | Amer | Ziad | Harmony

  /** The store listed under `id` is found and lies within the pickup radius. */
  predicate InRadius(c: Customer, m: MarketState, id: int, sqrt: real -> real)
    reads c`latitude, c`longitude, m`restaurants, m.restaurants
  {
    var s := m.FindRestaurant(id);
    s != null && c.DistanceTo(s, sqrt) <= MaxTravelDistance
  }

  /** The score a rule gives the store listed under `id` (0 when no store has that id). */
  function ScoreOfId(rule: Rule, c: Customer, m: MarketState, id: int, sqrt: real -> real): real
    reads c, m`restaurants, m.restaurants
  {
    var s := m.FindRestaurant(id);
    if s == null then 0.0 else Score(rule, c, id, s, sqrt)
  }

  /**
   * `r` lists kept stores of `ids` best first, and no kept store of `ids`
   * left out of `r` scores above one in `r`.
   */
  ghost predicate RankedBy(rule: Rule, c: Customer, m: MarketState, ids: seq<int>, excluded: set<int>,
                           sqrt: real -> real, r: seq<int>)
    reads c, m`restaurants, m.restaurants
  {
    && (forall x :: x in r ==> x in ids && KeptStore(rule, c, m, x, excluded, sqrt) != null)
    && (forall i, j :: 0 <= i < j < |r| ==> ScoreOfId(rule, c, m, r[i], sqrt) >= ScoreOfId(rule, c, m, r[j], sqrt))
    && (forall x, i :: x in ids && KeptStore(rule, c, m, x, excluded, sqrt) != null && x !in r && 0 <= i < |r| ==>
          ScoreOfId(rule, c, m, x, sqrt) <= ScoreOfId(rule, c, m, r[i], sqrt))
  }

  /** Every store of `ids` the rule keeps is listed in `r`. */
  ghost predicate ListsAllKept(rule: Rule, c: Customer, m: MarketState, ids: seq<int>, excluded: set<int>,
                               sqrt: real -> real, r: seq<int>)
    reads c, m`restaurants, m.restaurants
  {
    forall x :: x in ids && KeptStore(rule, c, m, x, excluded, sqrt) != null ==> x in r
  }

  /**
   * Sorting a strategy's scored list best first and copying the ids of its
   * first pairs gives a best-first list of kept stores.
   */
  lemma RankedPrefix(rule: Rule, c: Customer, m: MarketState, ids: seq<int>, excluded: set<int>,
                     sqrt: real -> real, sorted: seq<Scored>, r: seq<int>)
    requires ByScore(sorted) && TakesIds(r, sorted)
    requires multiset(sorted) == multiset(Candidates(rule, c, m, ids, excluded, sqrt))
    ensures RankedBy(rule, c, m, ids, excluded, sqrt, r)
  {
    var cands := Candidates(rule, c, m, ids, excluded, sqrt);
    TopPrefix(cands, sorted, r);
    forall i | 0 <= i < |sorted|
      ensures sorted[i].id in ids && KeptStore(rule, c, m, sorted[i].id, excluded, sqrt) != null
      ensures sorted[i].score == ScoreOfId(rule, c, m, sorted[i].id, sqrt)
    {
      var j :| 0 <= j < |cands| && cands[j] == sorted[i];
    }
    forall x, i | x in ids && KeptStore(rule, c, m, x, excluded, sqrt) != null && x !in r && 0 <= i < |r|
      ensures ScoreOfId(rule, c, m, x, sqrt) <= ScoreOfId(rule, c, m, r[i], sqrt)
    {
      CandidatesComplete(rule, c, m, ids, excluded, sqrt, x);
      var j :| 0 <= j < |cands| && Ids(cands)[j] == x;
      assert cands[j] in cands;
    }
  }

  /** Copying the ids of every sorted pair lists every kept store. */
  lemma RankedAll(rule: Rule, c: Customer, m: MarketState, ids: seq<int>, excluded: set<int>,
                  sqrt: real -> real, sorted: seq<Scored>, r: seq<int>)
    requires TakesIds(r, sorted) && |r| == |sorted|
    requires multiset(sorted) == multiset(Candidates(rule, c, m, ids, excluded, sqrt))
    ensures ListsAllKept(rule, c, m, ids, excluded, sqrt, r)
  {
    forall x | x in ids && KeptStore(rule, c, m, x, excluded, sqrt) != null
      ensures x in r
    {
      CandidatesComplete(rule, c, m, ids, excluded, sqrt, x);
      AllTaken(Candidates(rule, c, m, ids, excluded, sqrt), sorted, r);
    }
  }

  /**
   * The pipeline every strategy runs: the scoring loop over `ids`, the sort
   * best first, and the copy of the first `k` ids. `sorted` is the sorted
   * scored list, which some strategies read again.
   */
  method RankStores(rule: Rule, c: Customer, m: MarketState, ids: seq<int>, excluded: set<int>,
                    sqrt: real -> real, k: int) returns (sorted: seq<Scored>, r: seq<int>)
    requires k >= 0
    ensures ByScore(sorted) && multiset(sorted) == multiset(Candidates(rule, c, m, ids, excluded, sqrt))
    ensures |sorted| == |Candidates(rule, c, m, ids, excluded, sqrt)|
    ensures TakesIds(r, sorted) && |r| == Min(k, |sorted|)
    ensures RankedBy(rule, c, m, ids, excluded, sqrt, r)
    ensures |r| == |sorted| ==> ListsAllKept(rule, c, m, ids, excluded, sqrt, r)
  {
    sorted := ScoreAndSort(rule, c, m, ids, excluded, sqrt);
    r := TakeIds(sorted, Min(k, |sorted|));
    assert multiset(sorted) == multiset(Candidates(rule, c, m, ids, excluded, sqrt));
    RankedPrefix(rule, c, m, ids, excluded, sqrt, sorted, r);
    if |r| == |sorted| {
      RankedAll(rule, c, m, ids, excluded, sqrt, sorted, r);
    }
  }

  /** The scoring loop followed by the sort, best first. */
  method ScoreAndSort(rule: Rule, c: Customer, m: MarketState, ids: seq<int>, excluded: set<int>,
                      sqrt: real -> real) returns (sorted: seq<Scored>)
    ensures ByScore(sorted) && multiset(sorted) == multiset(Candidates(rule, c, m, ids, excluded, sqrt))
    ensures |sorted| == |Candidates(rule, c, m, ids, excluded, sqrt)|
  {
    var scores := ScoreStores(rule, c, m, ids, excluded, sqrt);
    sorted := SortByScore(scores);
    assert |multiset(sorted)| == |multiset(scores)|;
  }

  /** Every strategy below starts from the available ids; with none it shows nothing. */
  predicate ShowsAvailable(m: MarketState, r: seq<int>)
    reads m`restaurants, m.restaurants
  {
    (AvailableOf(m.restaurants) == [] ==> r == []) &&
    forall x :: x in r ==> x in AvailableOf(m.restaurants)
  }

  // ---------------------------------------------------------------- Baseline

  /** The rating the Baseline comparator reads for an id: that of the last store listed under it. */
  function LastRating(rs: seq<Restaurant>, id: int): real
    reads rs
  {
    if rs == [] then 0.0
    else if rs[|rs| - 1].businessId == id then rs[|rs| - 1].GetRating()
    else LastRating(rs[..|rs| - 1], id)
  }

  /** The available ids paired with the rating the comparator sorts them by. */
  function Rated(rs: seq<Restaurant>, ids: seq<int>): (r: seq<Scored>)
    reads rs
    ensures |r| == |ids|
    ensures forall k :: 0 <= k < |ids| ==> r[k] == Scored(ids[k], LastRating(rs, ids[k]))
  {
    if ids == [] then [] else Rated(rs, ids[..|ids| - 1]) + [Scored(ids[|ids| - 1], LastRating(rs, ids[|ids| - 1]))]
  }

  /** Ratings never increase along `ids`. */
  ghost predicate ByRating(rs: seq<Restaurant>, ids: seq<int>)
    reads rs
  {
    forall i, j :: 0 <= i < j < |ids| ==> LastRating(rs, ids[i]) >= LastRating(rs, ids[j])
  }

  /**
   * std::sort of the ids with the Baseline comparator (higher rating first):
   * a rearrangement of the ids by non-increasing rating, in one of the
   * orders the sort may pick for equal ratings.
   */
  method SortByRating(rs: seq<Restaurant>, ids: seq<int>) returns (sorted: seq<int>)
    ensures multiset(sorted) == multiset(ids) && |sorted| == |ids|
    ensures ByRating(rs, sorted)
  {
    var rated := Rated(rs, ids);
    var pairs := SortByScore(rated);
    sorted := TakeIds(pairs, |pairs|);
    RatedSorted(rs, ids, pairs, sorted);
  }

  lemma RatedSorted(rs: seq<Restaurant>, ids: seq<int>, pairs: seq<Scored>, sorted: seq<int>)
    requires ByScore(pairs) && multiset(pairs) == multiset(Rated(rs, ids))
    requires TakesIds(sorted, pairs) && |sorted| == |pairs|
    ensures multiset(sorted) == multiset(ids)
    ensures ByRating(rs, sorted)
  {
    var rated := Rated(rs, ids);
    assert Ids(rated) == ids;
    assert sorted == Ids(pairs);
    IdsPermutation(pairs, rated);
    forall i | 0 <= i < |pairs|
      ensures pairs[i].score == LastRating(rs, pairs[i].id)
    {
      assert pairs[i] in multiset(pairs);
      var j :| 0 <= j < |rated| && rated[j] == pairs[i];
    }
  }

  /**
   * Baseline: the available ids by non-increasing rating, cut to N. The result
   * is a prefix of a rearrangement of the available ids, and no store left out
   * is rated above one shown.
   */
  method DisplayBaseline(market: MarketState, n: int) returns (r: seq<int>)
    requires n >= 0
    ensures ShowsAvailable(market, r)
    ensures |r| == Min(n, |AvailableOf(market.restaurants)|)
    ensures multiset(r) <= multiset(AvailableOf(market.restaurants))
    ensures ByRating(market.restaurants, r)
    ensures forall x, i :: x in AvailableOf(market.restaurants) && x !in r && 0 <= i < |r| ==>
              LastRating(market.restaurants, x) <= LastRating(market.restaurants, r[i])
  {
    var available := market.GetAvailableRestaurantIds();
    var sorted := SortByRating(market.restaurants, available);
    r := sorted[..Min(n, |available|)];
    assert available == AvailableOf(market.restaurants);
    BaselinePrefix(market.restaurants, available, sorted, Min(n, |available|));
  }

  /** A prefix of a rearrangement sorted by rating: some of the ids, best rated first, none left out rated higher. */
  lemma BaselinePrefix(rs: seq<Restaurant>, available: seq<int>, sorted: seq<int>, k: int)
    requires multiset(sorted) == multiset(available) && ByRating(rs, sorted)
    requires 0 <= k <= |sorted|
    ensures multiset(sorted[..k]) <= multiset(available)
    ensures forall x :: x in sorted[..k] ==> x in available
    ensures ByRating(rs, sorted[..k])
    ensures forall x, i :: x in available && x !in sorted[..k] && 0 <= i < k ==> LastRating(rs, x) <= LastRating(rs, sorted[i])
  {
    assert sorted == sorted[..k] + sorted[k..];
    forall x | x in sorted[..k]
      ensures x in available
    {
      assert x in multiset(sorted);
    }
    forall x, i | x in available && x !in sorted[..k] && 0 <= i < k
      ensures LastRating(rs, x) <= LastRating(rs, sorted[i])
    {
      assert x in multiset(sorted);
      var j :| 0 <= j < |sorted| && sorted[j] == x;
    }
  }

  // ---------------------------------------------------------------- Ziad

  /**
   * Ziad: the in-radius available stores by non-increasing linear score of
   * price, rating and unsold bags, at most five and at most N of them; fewer
   * only when there are no more in-radius stores.
   */
  method DisplayZiad(customer: Customer, market: MarketState, n: int, sqrt: real -> real) returns (r: seq<int>)
    ensures ShowsAvailable(market, r)
    ensures |r| <= Max(0, Min(n, 5))
    ensures RankedBy(ZiadRule, customer, market, AvailableOf(market.restaurants), {}, sqrt, r)
    ensures |r| < Min(n, 5) ==> ListsAllKept(ZiadRule, customer, market, AvailableOf(market.restaurants), {}, sqrt, r)
  {
    var available := market.GetAvailableRestaurantIds();
    if available == [] {
      return [];
    }
    var sorted;
    sorted, r := RankStores(ZiadRule, customer, market, available, {}, sqrt, Max(0, Min(n, 5)));
    assert available == AvailableOf(market.restaurants);
  }

  // ---------------------------------------------------------------- Andrew

  /**
   * Andrew: every available store by non-increasing `base / (ln(impressions + 1) + 1)`,
   * cut to N. Reading the impression count inserts a zero entry for a store
   * never shown before. `ln` stands for the library logarithm.
   */
  method DisplayAndrew(customer: Customer, market: MarketState, n: int, sqrt: real -> real, ln: real -> real)
    returns (r: seq<int>)
    requires n >= 0
    modifies market`impressionCounts
    ensures ShowsAvailable(market, r)
    ensures |r| == Min(n, |AvailableOf(market.restaurants)|)
    ensures RankedBy(AndrewRule(ln, old(market.impressionCounts)), customer, market,
                     AvailableOf(market.restaurants), {}, sqrt, r)
    ensures market.impressionCounts == Touched(old(market.impressionCounts), AvailableOf(market.restaurants))
    ensures forall x :: x in market.impressionCounts <==> x in old(market.impressionCounts) || x in AvailableOf(market.restaurants)
    ensures forall x :: Impressions(market.impressionCounts, x) == Impressions(old(market.impressionCounts), x)
  {
    var available := market.GetAvailableRestaurantIds();
    if available == [] {
      assert Touched(market.impressionCounts, available) == market.impressionCounts;
      return [];
    }
    assert available == AvailableOf(market.restaurants);
    var rule := AndrewRule(ln, market.impressionCounts);
    TouchImpressions(market, available);
    assert available == AvailableOf(market.restaurants);
    var sorted;
    sorted, r := RankStores(rule, customer, market, available, {}, sqrt, n);
    assert available == AvailableOf(market.restaurants);
    AllAvailableKept(rule, customer, market, available, sqrt);
  }

  /** A rule that keeps every found store pushes every available id, in order. */
  lemma {:induction false} AllAvailableKept(rule: Rule, c: Customer, m: MarketState, ids: seq<int>, sqrt: real -> real)
    requires rule.AndrewRule? || rule.SamaMain?
    requires forall x :: x in ids ==> x in AvailableOf(m.restaurants)
    ensures Ids(Candidates(rule, c, m, ids, {}, sqrt)) == ids
    ensures forall x :: x in ids ==> KeptStore(rule, c, m, x, {}, sqrt) != null
  {
    if ids != [] {
      var front, id := ids[..|ids| - 1], ids[|ids| - 1];
      SplitLast(ids);
      AllAvailableKept(rule, c, m, front, sqrt);
      AvailableOfMembership(m.restaurants, id);
      var s := KeptStore(rule, c, m, id, {}, sqrt);
      assert s != null;
      IdsAppend(Candidates(rule, c, m, front, {}, sqrt), [Scored(id, Score(rule, c, id, s, sqrt))]);
    }
  }

  // ---------------------------------------------------------------- Amer

  /** The outcome of the nearest-store scan: found or not, the position, the id and the distance. */
  datatype Nearest = Nearest(found: bool, pos: int, id: int, dist: real)

  /** Distance to the store listed under `id` (0 when none). */
  function DistOf(c: Customer, m: MarketState, id: int, sqrt: real -> real): real
    reads c`latitude, c`longitude, m`restaurants, m.restaurants
  {
    var s := m.FindRestaurant(id);
    if s == null then 0.0 else c.DistanceTo(s, sqrt)
  }

  /**
   * The nearest-store scan: a store replaces the current best when it is
   * strictly nearer and within the radius, so the earliest of equally near
   * stores wins; the id is -1 when no store is within the radius.
   */
  function NearestOf(c: Customer, m: MarketState, ids: seq<int>, sqrt: real -> real): (r: Nearest)
    reads c`latitude, c`longitude, m`restaurants, m.restaurants
    ensures r.found ==> 0 <= r.pos < |ids| && r.id == ids[r.pos]
    ensures !r.found ==> r.id == -1
  {
    if ids == [] then Nearest(false, -1, -1, 0.0)
    else
      var prev := NearestOf(c, m, ids[..|ids| - 1], sqrt);
      var id := ids[|ids| - 1];
      var d := DistOf(c, m, id, sqrt);
      if InRadius(c, m, id, sqrt) && (!prev.found || d < prev.dist) then Nearest(true, |ids| - 1, id, d)
      else prev
  }

  /**
   * The scan finds a store exactly when some store is within the radius, and
   * then no store within the radius is nearer, and every one listed before it
   * is strictly farther.
   */
  lemma {:induction false} NearestOfIsNearest(c: Customer, m: MarketState, ids: seq<int>, sqrt: real -> real)
    ensures var r := NearestOf(c, m, ids, sqrt);
      && (r.found ==> InRadius(c, m, r.id, sqrt) && r.dist == DistOf(c, m, r.id, sqrt))
      && (r.found ==> forall j :: 0 <= j < |ids| && InRadius(c, m, ids[j], sqrt) ==>
                        r.dist <= DistOf(c, m, ids[j], sqrt) && (j < r.pos ==> r.dist < DistOf(c, m, ids[j], sqrt)))
      && (!r.found <==> forall j :: 0 <= j < |ids| ==> !InRadius(c, m, ids[j], sqrt))
  {
    if ids != [] {
      var init := ids[..|ids| - 1];
      NearestOfIsNearest(c, m, init, sqrt);
      assert forall j :: 0 <= j < |init| ==> ids[j] == init[j];
    }
  }

  /** One more id scanned: it becomes the nearest when in the radius and strictly nearer. */
  lemma NearestNext(c: Customer, m: MarketState, ids: seq<int>, i: int, sqrt: real -> real)
    requires 0 <= i < |ids|
    ensures var prev := NearestOf(c, m, ids[..i], sqrt);
      var d := DistOf(c, m, ids[i], sqrt);
      NearestOf(c, m, ids[..i + 1], sqrt) ==
        if InRadius(c, m, ids[i], sqrt) && (!prev.found || d < prev.dist) then Nearest(true, i, ids[i], d) else prev
  {
    assert ids[..i + 1][..i] == ids[..i];
  }

  /** The scan itself. */
  method NearestStore(c: Customer, m: MarketState, ids: seq<int>, sqrt: real -> real) returns (closest: int)
    ensures closest == NearestOf(c, m, ids, sqrt).id
  {
    closest := -1;
    var found := false;
    var minDistance := 0.0;
    var i := 0;
    while i < |ids|
      invariant 0 <= i <= |ids|
      invariant NearestOf(c, m, ids[..i], sqrt).found == found
      invariant NearestOf(c, m, ids[..i], sqrt).id == closest
      invariant found ==> NearestOf(c, m, ids[..i], sqrt).dist == minDistance
    {
      NearestNext(c, m, ids, i, sqrt);
      var s := m.GetRestaurant(ids[i]);
      if s != null {
        var d := c.DistanceTo(s, sqrt);
        if (!found || d < minDistance) && d <= MaxTravelDistance {
          found, minDistance, closest := true, d, ids[i];
        }
      }
      i := i + 1;
    }
    assert ids[..i] == ids;
  }

  /**
   * Amer: the nearest in-radius store first, then the other in-radius stores
   * by non-increasing `base - 0.01 price - 20 distance`, up to N in all. The
   * nearest store is shown before N is consulted, so N = 0 can still show one.
   * The scan reports "none" as id -1, so a nearest store whose id is -1 is
   * not put first and is ranked with the others.
   */
  method DisplayAmer(customer: Customer, market: MarketState, n: int, sqrt: real -> real) returns (r: seq<int>)
    ensures ShowsAvailable(market, r)
    ensures |r| <= Max(n, 1)
    ensures var near := NearestOf(customer, market, AvailableOf(market.restaurants), sqrt).id;
      if near == -1 then RankedBy(AmerRule, customer, market, AvailableOf(market.restaurants), {}, sqrt, r)
      else |r| >= 1 && r[0] == near && RankedBy(AmerRule, customer, market, AvailableOf(market.restaurants), {near}, sqrt, r[1..])
    ensures |r| < n ==> ListsAllKept(AmerRule, customer, market, AvailableOf(market.restaurants), {}, sqrt, r)
  {
    var available := market.GetAvailableRestaurantIds();
    if available == [] {
      return [];
    }
    var closest := NearestStore(customer, market, available, sqrt);
    assert available == AvailableOf(market.restaurants);
    var first: seq<int> := [];
    var selected: set<int> := {};
    if closest != -1 {
      first := [closest];
      selected := {closest};
    }
    var remaining := n - |first|;
    var sorted, rest := RankStores(AmerRule, customer, market, available, selected, sqrt, Max(0, remaining));
    r := first + rest;
    AmerShows(customer, market, n, sqrt, available, closest, sorted, rest);
  }

  /** The proof obligations of `DisplayAmer`, on the values it computes. */
  lemma AmerShows(customer: Customer, market: MarketState, n: int, sqrt: real -> real, available: seq<int>,
                  closest: int, sorted: seq<Scored>, rest: seq<int>)
    requires available == AvailableOf(market.restaurants) && available != []
    requires closest == NearestOf(customer, market, available, sqrt).id
    requires var selected := if closest == -1 then {} else {closest};
      var cands := Candidates(AmerRule, customer, market, available, selected, sqrt);
      && multiset(sorted) == multiset(cands) && |sorted| == |cands|
      && |rest| == Min(Max(0, n - (if closest == -1 then 0 else 1)), |sorted|)
      && RankedBy(AmerRule, customer, market, available, selected, sqrt, rest)
      && (|rest| == |sorted| ==> ListsAllKept(AmerRule, customer, market, available, selected, sqrt, rest))
    ensures var r := (if closest == -1 then [] else [closest]) + rest;
      && ShowsAvailable(market, r)
      && |r| <= Max(n, 1)
      && (if closest == -1 then RankedBy(AmerRule, customer, market, available, {}, sqrt, r)
          else |r| >= 1 && r[0] == closest && RankedBy(AmerRule, customer, market, available, {closest}, sqrt, r[1..]))
      && (|r| < n ==> ListsAllKept(AmerRule, customer, market, available, {}, sqrt, r))
  {
    var selected := if closest == -1 then {} else {closest};
    var first := if closest == -1 then [] else [closest];
    var r := first + rest;
    if closest != -1 {
      assert r[1..] == rest;
    }
  }
}
