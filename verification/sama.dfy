// Sama's display (RankingAlgorithms.cpp, get_displayed_stores_sama): a
// personalised best-first block whose size adapts to the customer's segment,
// loyalty and the market's unsold stock, then one discovery store, one
// price-competitive store, and the best remaining stores up to N.
module SamaDisplay {
  import opened Common
  import opened Restaurants
  import opened Customers
  import opened Markets
  import opened StoreScoring
  import opened Ranking
  import opened Selection

  // ------------------------------------------------- market unsold stock

  /** Unsold bags summed over the stores that have any. */
  function UnsoldTotal(rs: seq<Restaurant>): int
    reads rs
  {
    if rs == [] then 0
    else
      var u := rs[|rs| - 1].UnsoldBags();
      UnsoldTotal(rs[..|rs| - 1]) + (if u > 0 then u else 0)
  }

  /** The number of stores with unsold bags. */
  function StockedCount(rs: seq<Restaurant>): int
    reads rs
  {
    if rs == [] then 0
    else StockedCount(rs[..|rs| - 1]) + (if rs[|rs| - 1].UnsoldBags() > 0 then 1 else 0)
  }

  /** Average unsold bags over the stores that have any; 0 when none has. */
  function AvgUnsold(rs: seq<Restaurant>): real
    reads rs
  {
    var count := StockedCount(rs);
    if count > 0 then UnsoldTotal(rs) as real / count as real else 0.0
  }

  /**
   * Every store counted contributes at least one bag, so the counts are
   * bounded by the total and by the number of stores, and the average is at
   * least one bag as soon as any store has stock.
   */
  lemma {:induction false} StockBounds(rs: seq<Restaurant>)
    ensures 0 <= StockedCount(rs) <= UnsoldTotal(rs)
    ensures StockedCount(rs) <= |rs|
    ensures StockedCount(rs) == 0 <==> UnsoldTotal(rs) == 0
    ensures StockedCount(rs) > 0 ==> AvgUnsold(rs) >= 1.0
  {
    if rs != [] {
      StockBounds(rs[..|rs| - 1]);
    }
    if StockedCount(rs) > 0 {
      assert UnsoldTotal(rs) as real >= StockedCount(rs) as real;
    }
  }

  /** The stock loop over all stores. */
  method AverageUnsold(rs: seq<Restaurant>) returns (avg: real)
    ensures avg == AvgUnsold(rs)
  {
    var total := 0;
    var count := 0;
    var i := 0;
    while i < |rs|
      invariant 0 <= i <= |rs|
      invariant total == UnsoldTotal(rs[..i]) && count == StockedCount(rs[..i])
    {
      assert rs[..i + 1][..i] == rs[..i];
      var unsold := Max(0, rs[i].estimatedBags - rs[i].reservedCount);
      if unsold > 0 {
        total := total + unsold;
        count := count + 1;
      }
      i := i + 1;
    }
    assert rs[..i] == rs;
    avg := if count > 0 then total as real / count as real else 0.0;
  }

  // ------------------------------------------------- personalised block size

  /** The segment's starting share of personalised stores. */
  function BasePersonalization(c: Customer): real
    reads c
  {
    if IsBudget(c) then 0.7 else if IsPremium(c) then 0.5 else 0.6
  }

  /**
   * The personalised share: the segment's base plus 0.15 per unit of loyalty,
   * minus 0.1 when stores hold more than ten unsold bags on average, clamped
   * to [0.4, 0.85].
   */
  function PersonalizationRatio(c: Customer, avgUnsold: real): (ratio: real)
    reads c
    ensures 0.4 <= ratio <= 0.85
  {
    var wasteAdjustment := if avgUnsold > 10.0 then -0.1 else 0.0;
    MinR(0.85, MaxR(0.4, BasePersonalization(c) + c.loyalty * 0.15 + wasteAdjustment))
  }

  /** High market waste never raises the personalised share. */
  lemma {:induction false} WasteLowersRatio(c: Customer, a: real, b: real)
    requires a > 10.0
    ensures PersonalizationRatio(c, a) <= PersonalizationRatio(c, b)
  {
    var x := BasePersonalization(c) + c.loyalty * 0.15;
    assert PersonalizationRatio(c, a) == MinR(0.85, MaxR(0.4, x - 0.1));
    if b > 10.0 {
      assert PersonalizationRatio(c, b) == MinR(0.85, MaxR(0.4, x - 0.1));
    } else {
      assert PersonalizationRatio(c, b) == MinR(0.85, MaxR(0.4, x + 0.0));
    }
  }

  /** `max(3, min((int)(N * ratio), size))`: the personalised count, never below three. */
  function PersonalizedCount(n: int, ratio: real, size: int): (pc: int)
    requires n >= 0 && ratio >= 0.0
    ensures pc >= 3
    ensures pc <= Max(3, size) && pc <= Max(3, Trunc(n as real * ratio))
  {
    Max(3, Min(Trunc(n as real * ratio), size))
  }

  /**
   * How many pairs the first selection loop of the source reads: it runs while
   * `i < personalized_count` and the display is under N, indexing the sorted
   * scores with `i` and never comparing `i` with their size.
   */
  function SelectOneReadsAsWritten(n: int, ratio: real, size: int): (count: int)
    requires n >= 0 && ratio >= 0.0
    ensures count <= n
  {
    Min(PersonalizedCount(n, ratio, size), n)
  }

  /**
   * With one or two available stores and N above that number, the loop reads
   * past the end of the sorted scores: the floor of three in the personalised
   * count is not cut back to the number of stores.
   */
  lemma SelectOneOverreads(n: int, ratio: real, size: int)
    requires n >= 0 && ratio >= 0.0
    requires 0 <= size < 3 && size < n
    ensures SelectOneReadsAsWritten(n, ratio, size) > size
  {
  }

  /** One instance: two stores, N = 5, any share; the loop reads a third pair. */
  lemma SelectOneOverreadsExample()
    ensures SelectOneReadsAsWritten(5, 0.6, 2) == 3
  {
    assert Trunc(5.0 * 0.6) == 3;
  }

  /**
   * The number of pairs the first selection takes, bounded by the sorted
   * scores as evidently intended: at most the store count and N, and at least
   * three of them whenever both allow it; where the source stays in bounds it
   * takes exactly as many.
   */
  function SelectOneCount(n: int, ratio: real, size: int): (k: int)
    requires n >= 0 && ratio >= 0.0 && size >= 0
    ensures 0 <= k <= size && k <= n
    ensures k >= Min(Min(3, n), size)
    ensures SelectOneReadsAsWritten(n, ratio, size) <= size ==> k == SelectOneReadsAsWritten(n, ratio, size)
  {
    Min(SelectOneReadsAsWritten(n, ratio, size), size)
  }

  // ------------------------------------------------- selections

  /**
   * SELECT 2 and 3: score the available stores not yet selected under the
   * pass's rule, sort best first and push the best one, if any.
   */
  method SelectBest(rule: Rule, c: Customer, m: MarketState, ids: seq<int>, r: seq<int>, sqrt: real -> real)
    returns (r': seq<int>)
    ensures |r| <= |r'| <= |r| + 1 && r'[..|r|] == r
    ensures forall i :: |r| <= i < |r'| ==> r'[i] in ids && r'[i] !in r
    ensures RankedBy(rule, c, m, ids, Selected(r), sqrt, r'[|r|..])
    ensures |r'| == |r| ==> ListsAllKept(rule, c, m, ids, Selected(r), sqrt, [])
  {
    var sorted, pick := RankStores(rule, c, m, ids, Selected(r), sqrt, 1);
    r' := r + pick;
    assert r'[|r|..] == pick && r'[..|r|] == r;
    if pick != [] {
      assert pick[0] in pick;
    }
  }

  /**
   * Sama: the first pairs of the sorted Sama scores (as many as the corrected
   * personalised count allows), then, while there is room, the best discovery
   * store and the best price-competitive store not yet shown, then the best
   * remaining scored stores up to N.
   */
  method DisplaySama(customer: Customer, market: MarketState, n: int, sqrt: real -> real) returns (r: seq<int>)
    requires n >= 0
    ensures ShowsAvailable(market, r)
    ensures |r| <= n
    ensures var k := SelectOneCount(n, PersonalizationRatio(customer, AvgUnsold(market.restaurants)),
                                    |AvailableOf(market.restaurants)|);
      && k <= |r|
      && RankedBy(SamaMain, customer, market, AvailableOf(market.restaurants), {}, sqrt, r[..k])
      && forall i :: k <= i < |r| ==> r[i] !in r[..i]
    ensures |r| < n ==> forall x :: x in AvailableOf(market.restaurants) ==> x in r
    ensures Distinct(AvailableOf(market.restaurants)) ==> Distinct(r)
  {
    var available, sorted, first := SamaFirstBlock(customer, market, n, sqrt);
    r := SamaAfterFirst(customer, market, n, sqrt, available, sorted, first);
  }

  /** `DisplaySama` once the first block is known. */
  method SamaAfterFirst(customer: Customer, market: MarketState, n: int, sqrt: real -> real,
                        available: seq<int>, sorted: seq<Scored>, first: seq<int>) returns (r: seq<int>)
    requires n >= 0
    requires available == AvailableOf(market.restaurants)
    requires multiset(Ids(sorted)) == multiset(available)
    requires |first| == SelectOneCount(n, PersonalizationRatio(customer, AvgUnsold(market.restaurants)), |available|)
    requires RankedBy(SamaMain, customer, market, available, {}, sqrt, first)
    requires Distinct(available) ==> Distinct(first)
    ensures ShowsAvailable(market, r)
    ensures |r| <= n
    ensures var k := SelectOneCount(n, PersonalizationRatio(customer, AvgUnsold(market.restaurants)),
                                    |AvailableOf(market.restaurants)|);
      && k <= |r|
      && RankedBy(SamaMain, customer, market, AvailableOf(market.restaurants), {}, sqrt, r[..k])
      && forall i :: k <= i < |r| ==> r[i] !in r[..i]
    ensures |r| < n ==> forall x :: x in AvailableOf(market.restaurants) ==> x in r
    ensures Distinct(AvailableOf(market.restaurants)) ==> Distinct(r)
  {
    if available == [] {
      return [];
    }
    assert forall x :: x in first ==> x in available;
    r := SamaComplete(customer, market, available, sorted, first, n, sqrt);
    SamaShows(available, first, r);
    assert r[..|first|] == first;
  }

  /** The blocks `DisplaySama` joins: later entries come from the available ids, so all do. */
  lemma SamaShows(available: seq<int>, first: seq<int>, r: seq<int>)
    requires forall x :: x in first ==> x in available
    requires |first| <= |r| && r[..|first|] == first
    requires forall i :: |first| <= i < |r| ==> r[i] in available
    ensures forall x :: x in r ==> x in available
  {
    forall x | x in r
      ensures x in available
    {
      var i :| 0 <= i < |r| && r[i] == x;
      if i < |first| {
        assert first[i] == x;
      }
    }
  }

  /**
   * SELECT 1, after the scoring loop, the sort and the stock loop: the first
   * pairs of the sorted Sama scores, as many as the corrected count allows.
   */
  method SamaFirstBlock(customer: Customer, market: MarketState, n: int, sqrt: real -> real)
    returns (available: seq<int>, sorted: seq<Scored>, first: seq<int>)
    requires n >= 0
    ensures available == AvailableOf(market.restaurants)
    ensures multiset(Ids(sorted)) == multiset(available)
    ensures |first| == SelectOneCount(n, PersonalizationRatio(customer, AvgUnsold(market.restaurants)), |available|)
    ensures RankedBy(SamaMain, customer, market, available, {}, sqrt, first)
    ensures Distinct(available) ==> Distinct(first)
  {
    var avg := AverageUnsold(market.restaurants);
    available := market.GetAvailableRestaurantIds();
    assert avg == AvgUnsold(market.restaurants);
    var k := SelectOneCount(n, PersonalizationRatio(customer, avg), |available|);
    sorted, first := RankStores(SamaMain, customer, market, available, {}, sqrt, k);
    assert available == AvailableOf(market.restaurants);
    assert avg == AvgUnsold(market.restaurants);
    AllAvailableKept(SamaMain, customer, market, available, sqrt);
    SamaFirst(Candidates(SamaMain, customer, market, available, {}, sqrt), available, sorted, first, k);
  }

  /**
   * SELECT 2, 3 and 4: while there is room, the best discovery store and the
   * best price-competitive store not yet shown, then the best remaining
   * stores of the sorted Sama scores.
   */
  method SamaComplete(customer: Customer, market: MarketState, available: seq<int>, sorted: seq<Scored>,
                      first: seq<int>, n: int, sqrt: real -> real) returns (r: seq<int>)
    requires multiset(Ids(sorted)) == multiset(available) && |first| <= n
    ensures |first| <= |r| <= n && r[..|first|] == first
    ensures forall i :: |first| <= i < |r| ==> r[i] in available && r[i] !in r[..i]
    ensures |r| < n ==> forall x :: x in available ==> x in r
    ensures Distinct(available) && Distinct(first) ==> Distinct(r)
  {
    r := first;
    if |r| < n {
      r := SelectBest(SamaDiscovery, customer, market, available, r, sqrt);
      assert r[..|first|] == first;
    }
    if |r| < n {
      ghost var before := r;
      r := SelectBest(SamaCompetitive, customer, market, available, r, sqrt);
      assert r[..|before|] == before;
      assert r[..|first|] == before[..|first|];
      forall i | |first| <= i < |r|
        ensures r[i] in available && r[i] !in r[..i]
      {
        if i < |before| {
          assert r[i] == before[i] && r[..i] == before[..i];
        }
      }
    }
    ghost var picked := r;
    r := Fill(sorted, r, n);
    SamaRest(available, sorted, first, picked, r, |first|, n);
  }

  /** The first block: all of its ids are available ids, best first, without repeats when the available ids have none. */
  lemma SamaFirst(cands: seq<Scored>, available: seq<int>, sorted: seq<Scored>, first: seq<int>, k: int)
    requires Ids(cands) == available && multiset(sorted) == multiset(cands)
    requires TakesIds(first, sorted) && |first| == k
    ensures multiset(Ids(sorted)) == multiset(available)
    ensures Distinct(available) ==> Distinct(first)
  {
    IdsPermutation(sorted, cands);
    if Distinct(available) {
      DistinctByMultiset(available, Ids(sorted));
      forall i, j | 0 <= i < j < k
        ensures first[i] != first[j]
      {
        assert first[i] == Ids(sorted)[i] && first[j] == Ids(sorted)[j];
      }
    }
  }

  /** The picks and the fill append only available ids new to the display, and fill it unless every id is shown. */
  lemma SamaRest(available: seq<int>, sorted: seq<Scored>, first: seq<int>, picked: seq<int>, r: seq<int>,
                 k: int, n: int)
    requires multiset(Ids(sorted)) == multiset(available)
    requires 0 <= k <= |picked| && picked[..k] == first && |picked| <= Max(n, k)
    requires forall i :: k <= i < |picked| ==> picked[i] in available && picked[i] !in picked[..i]
    requires r == Filled(sorted, picked, n)
    ensures k <= |r| <= Max(n, k) && r[..k] == first
    ensures forall i :: k <= i < |r| ==> r[i] in available && r[i] !in r[..i]
    ensures |r| < n ==> forall x :: x in available ==> x in r
    ensures Distinct(available) && Distinct(first) ==> Distinct(r)
  {
    FilledProps(sorted, picked, n);
    forall i | k <= i < |r|
      ensures r[i] in available && r[i] !in r[..i]
    {
      if i < |picked| {
        assert r[i] == picked[i] && r[..i] == picked[..i];
      } else {
        assert r[i] in multiset(Ids(sorted));
      }
    }
    assert r[..k] == r[..|picked|][..k] == picked[..k];
    if |r| < n {
      forall x | x in available
        ensures x in r
      {
        assert x in multiset(Ids(sorted));
      }
    }
    if Distinct(available) && Distinct(first) {
      AppendedNew(r, k);
    }
  }
}
