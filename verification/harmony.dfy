// Harmony's display (RankingAlgorithms.cpp, get_displayed_stores_harmony):
// the in-radius stores scored with satisfaction, waste, fairness, revenue and
// quality terms; 70% of N strictly by score, then one high-waste store and one
// discovery store, then the best remaining; every store shown gets one more
// impression.
module HarmonyDisplay {
  import opened Common
  import opened Restaurants
  import opened Customers
  import opened Markets
  import opened StoreScoring
  import opened Ranking
  import opened Selection

  // ------------------------------------------------- average impressions

  /** Some key of a non-empty map; the sum below does not depend on which. */
  ghost function AnyKey(m: map<int, int>): (k: int)
    requires m != map[]
    ensures k in m
  {
    assert exists k :: k in m by {
      if forall k :: k !in m {
        assert false;
      }
    }
    var k :| k in m; k
  }

  /** The sum of the values of a map. */
  ghost function SumOf(m: map<int, int>): int
    decreases |m.Keys|
  {
    if m == map[] then 0
    else
      var k := AnyKey(m);
      assert m.Keys - {k} < m.Keys;
      m[k] + SumOf(m - {k})
  }

  /** Any key can be taken out first: the sum is independent of the order the entries are visited in. */
  lemma {:induction false} SumOfRemove(m: map<int, int>, k: int)
    requires k in m
    ensures SumOf(m) == m[k] + SumOf(m - {k})
    decreases |m.Keys|
  {
    var j := AnyKey(m);
    if j != k {
      assert (m - {j}).Keys < m.Keys && (m - {k}).Keys < m.Keys;
      SumOfRemove(m - {j}, k);
      SumOfRemove(m - {k}, j);
      assert m - {j} - {k} == m - {k} - {j};
    }
  }

  /** The mean impression count over the stores that have an entry; 1 when none has. */
  ghost function AvgImpressions(counts: map<int, int>): real
  {
    if |counts| > 0 then SumOf(counts) as real / |counts| as real else 1.0
  }

  /** The loop over the impression map, in whatever order the map yields its entries. */
  method AverageImpressions(counts: map<int, int>) returns (avg: real)
    ensures avg == AvgImpressions(counts)
  {
    var total := 0;
    var count := 0;
    var rest := counts;
    while rest != map[]
      invariant rest.Keys <= counts.Keys && forall k :: k in rest ==> rest[k] == counts[k]
      invariant total + SumOf(rest) == SumOf(counts)
      invariant count + |rest| == |counts|
      decreases |rest.Keys|
    {
      var k :| k in rest;
      SumOfRemove(rest, k);
      assert |(rest - {k}).Keys| == |rest.Keys| - 1;
      total := total + rest[k];
      count := count + 1;
      rest := rest - {k};
    }
    avg := if count > 0 then total as real / count as real else 1.0;
  }

  /** Every entry is at least zero, so the sum is too. */
  lemma {:induction false} SumOfNonNegative(m: map<int, int>)
    requires forall k :: k in m ==> m[k] >= 0
    ensures SumOf(m) >= 0
    decreases |m.Keys|
  {
    if m != map[] {
      var k := AnyKey(m);
      assert (m - {k}).Keys < m.Keys;
      SumOfNonNegative(m - {k});
    }
  }

  /** With counts never negative, so is the average. */
  lemma AvgImpressionsNonNegative(counts: map<int, int>)
    requires forall k :: k in counts ==> counts[k] >= 0
    ensures AvgImpressions(counts) >= 0.0
  {
    SumOfNonNegative(counts);
  }

  // ------------------------------------------------- the two single picks

  /** The extra pick passes: a store with at least ten unsold bags, and a new, well rated, well stocked store. */
  datatype Pick = HighWaste | Discovery

  /** Whether the store listed under `id` qualifies for the pass. */
  predicate Picks(pick: Pick, c: Customer, m: MarketState, id: int)
    reads c, m`restaurants, m.restaurants
  {
    var s := m.FindRestaurant(id);
    s != null &&
    match pick
    case HighWaste => s.UnsoldBags() >= 10
    case Discovery => IsNewFor(c.history, id) && s.GetRating() >= 3.8 && s.estimatedBags >= 6
  }

  /** The position of the first pair, in sorted order, whose store is not shown yet and qualifies; -1 when none. */
  function FirstPick(pick: Pick, c: Customer, m: MarketState, sorted: seq<Scored>, r: seq<int>): (i: int)
    reads c, m`restaurants, m.restaurants
    ensures -1 <= i < |sorted|
    ensures i >= 0 ==> sorted[i].id !in r && Picks(pick, c, m, sorted[i].id)
    ensures forall j :: 0 <= j < |sorted| && (i < 0 || j < i) ==> sorted[j].id in r || !Picks(pick, c, m, sorted[j].id)
  {
    if sorted == [] then -1
    else
      var p := FirstPick(pick, c, m, sorted[..|sorted| - 1], r);
      var last := sorted[|sorted| - 1].id;
      if p >= 0 then p
      else if last !in r && Picks(pick, c, m, last) then |sorted| - 1
      else -1
  }

  /** A pick found among the first pairs stays the pick of the whole list. */
  lemma {:induction false} FirstPickPrefix(pick: Pick, c: Customer, m: MarketState, sorted: seq<Scored>, r: seq<int>, j: int)
    requires 0 <= j <= |sorted| && FirstPick(pick, c, m, sorted[..j], r) >= 0
    ensures FirstPick(pick, c, m, sorted, r) == FirstPick(pick, c, m, sorted[..j], r)
  {
    if j < |sorted| {
      var init := sorted[..|sorted| - 1];
      assert init[..j] == sorted[..j];
      FirstPickPrefix(pick, c, m, init, r, j);
    } else {
      assert sorted[..j] == sorted;
    }
  }

  /** One more pair walked. */
  lemma FirstPickNext(pick: Pick, c: Customer, m: MarketState, sorted: seq<Scored>, r: seq<int>, i: int)
    requires 0 <= i < |sorted|
    ensures var p := FirstPick(pick, c, m, sorted[..i], r);
      FirstPick(pick, c, m, sorted[..i + 1], r) ==
        if p >= 0 then p
        else if sorted[i].id !in r && Picks(pick, c, m, sorted[i].id) then i
        else -1
  {
    assert sorted[..i + 1][..i] == sorted[..i];
  }

  /** Looks the store up and tests the pass's condition. */
  method Qualifies(pick: Pick, c: Customer, m: MarketState, id: int) returns (b: bool)
    ensures b == Picks(pick, c, m, id)
  {
    var s := m.GetRestaurant(id);
    if s == null {
      return false;
    }
    match pick
    case HighWaste =>
      b := Max(0, s.estimatedBags - s.reservedCount) >= 10;
    case Discovery =>
      b := IsNewFor(c.history, id) && s.GetRating() >= 3.8 && s.estimatedBags >= 6;
  }

  /** The pick loop: walk the sorted pairs, skip the selected ones, push the first that qualifies and stop. */
  method PickFirst(pick: Pick, c: Customer, m: MarketState, sorted: seq<Scored>, r: seq<int>)
    returns (r': seq<int>, at: int)
    ensures at == FirstPick(pick, c, m, sorted, r)
    ensures r' == if at >= 0 then r + [sorted[at].id] else r
  {
    r' := r;
    at := -1;
    var i := 0;
    while i < |sorted|
      invariant 0 <= i <= |sorted|
      invariant FirstPick(pick, c, m, sorted[..i], r) == -1
    {
      var id := sorted[i].id;
      if id !in Selected(r) {
        var qualifies := Qualifies(pick, c, m, id);
        FirstPickNext(pick, c, m, sorted, r, i);
        if qualifies {
          FirstPickPrefix(pick, c, m, sorted, r, i + 1);
          r' := r + [id];
          at := i;
          return;
        }
      } else {
        FirstPickNext(pick, c, m, sorted, r, i);
      }
      i := i + 1;
    }
    assert sorted[..i] == sorted;
  }

  // ------------------------------------------------- the display

  /** `(int)(N * 0.7f)` for N >= 0: the slots filled strictly by score. */
  function DirectSlots(n: int): (d: int)
    requires n >= 0
    ensures 0 <= d <= n && 10 * d <= 7 * n < 10 * (d + 1)
  {
    (7 * n) / 10
  }

  /** The ids whose impression entries the scoring loop reads: the found stores within the radius. */
  function ScoredIds(c: Customer, m: MarketState, counts: map<int, int>, avg: real, sqrt: real -> real): seq<int>
    reads c, m`restaurants, m.restaurants
  {
    Ids(Candidates(HarmonyRule(counts, avg), c, m, AvailableOf(m.restaurants), {}, sqrt))
  }

  /** The Harmony scoring loop pushes exactly the walked ids whose store is found within the radius. */
  lemma KeptInRadius(counts: map<int, int>, avg: real, c: Customer, m: MarketState, ids: seq<int>, sqrt: real -> real)
    ensures forall x :: x in Ids(Candidates(HarmonyRule(counts, avg), c, m, ids, {}, sqrt)) <==>
                        x in ids && InRadius(c, m, x, sqrt)
  {
    var cands := Candidates(HarmonyRule(counts, avg), c, m, ids, {}, sqrt);
    forall x | x in Ids(cands)
      ensures x in ids && InRadius(c, m, x, sqrt)
    {
      var j :| 0 <= j < |cands| && Ids(cands)[j] == x;
      assert cands[j].id == x;
    }
    forall x | x in ids && InRadius(c, m, x, sqrt)
      ensures x in Ids(cands)
    {
      CandidatesComplete(HarmonyRule(counts, avg), c, m, ids, {}, sqrt, x);
    }
  }

  /**
   * What a Harmony display `r` promises for N = `n` under the scoring rule:
   * available in-radius stores only, at most N; its first `(int)(N * 0.7)`
   * entries (or all, when fewer) ranked by score; every later entry new;
   * every in-radius store shown unless the display is full; no repeats when
   * the store ids have none.
   */
  ghost predicate HarmonyShown(rule: Rule, c: Customer, m: MarketState, n: int, sqrt: real -> real, r: seq<int>)
    requires n >= 0
    reads c, m`restaurants, m.restaurants
  {
    var available := AvailableOf(m.restaurants);
    var k := Min(DirectSlots(n), |r|);
    && ShowsAvailable(m, r)
    && |r| <= n
    && (forall x :: x in r ==> InRadius(c, m, x, sqrt))
    && RankedBy(rule, c, m, available, {}, sqrt, r[..k])
    && (forall i :: k <= i < |r| ==> r[i] !in r[..i])
    && (|r| < n ==> forall x :: x in available && InRadius(c, m, x, sqrt) ==> x in r)
    && (Distinct(available) ==> Distinct(r))
  }

  /**
   * Harmony: the first `(int)(N * 0.7)` in-radius stores by Harmony score
   * (the fairness term compares each store's impressions with the average
   * taken before the display), then, while there is room, the best-scored
   * high-waste store and the best-scored discovery store not yet shown, then
   * the best remaining in-radius stores up to N. Reading an impression count
   * inserts a zero for each in-radius store never shown; each store shown
   * gets one more impression.
   */
  method DisplayHarmony(customer: Customer, market: MarketState, n: int, sqrt: real -> real) returns (r: seq<int>)
    requires n >= 0
    modifies market`impressionCounts
    ensures HarmonyShown(HarmonyRule(old(market.impressionCounts), AvgImpressions(old(market.impressionCounts))),
                         customer, market, n, sqrt, r)
    ensures market.impressionCounts ==
      Bumped(Touched(old(market.impressionCounts),
                     old(ScoredIds(customer, market, market.impressionCounts, AvgImpressions(market.impressionCounts), sqrt))),
             r)
    ensures forall x :: x in market.impressionCounts <==>
              x in old(market.impressionCounts) || old(x in AvailableOf(market.restaurants) && InRadius(customer, market, x, sqrt))
    ensures forall x :: Impressions(market.impressionCounts, x) == Impressions(old(market.impressionCounts), x) + Occurrences(r, x)
  {
    ghost var counts := market.impressionCounts;
    ghost var scored := ScoredIds(customer, market, counts, AvgImpressions(counts), sqrt);
    KeptInRadius(counts, AvgImpressions(counts), customer, market, AvailableOf(market.restaurants), sqrt);
    var sorted;
    sorted, r := HarmonyRank(customer, market, n, sqrt);
    TouchedSameIds(counts, Ids(sorted), scored);
    assert forall x :: x in r ==> x in scored;
    ReadThenShown(counts, scored, r);
    RecordImpressions(HarmonyRule(counts, AvgImpressions(counts)), customer, market, n, sqrt, Ids(sorted), r);
  }

  /**
   * The impression bookkeeping: an entry for every id read, then one more
   * impression per id shown; the stores are left alone, so what was shown
   * stays shown.
   */
  method RecordImpressions(ghost rule: Rule, customer: Customer, market: MarketState, n: int, sqrt: real -> real,
                           read: seq<int>, shown: seq<int>)
    requires n >= 0 && HarmonyShown(rule, customer, market, n, sqrt, shown)
    modifies market`impressionCounts
    ensures market.impressionCounts == Bumped(Touched(old(market.impressionCounts), read), shown)
    ensures HarmonyShown(rule, customer, market, n, sqrt, shown)
  {
    TouchImpressions(market, read);
    BumpImpressions(market, shown);
  }

  /** Reading the counts of some ids and then showing some of them: an entry for each id read, one more impression per showing. */
  lemma ReadThenShown(counts: map<int, int>, read: seq<int>, shown: seq<int>)
    requires forall x :: x in shown ==> x in read
    ensures forall x :: x in Bumped(Touched(counts, read), shown) <==> x in counts || x in read
    ensures forall x :: Impressions(Bumped(Touched(counts, read), shown), x) == Impressions(counts, x) + Occurrences(shown, x)
  {
    forall x
      ensures Impressions(Bumped(Touched(counts, read), shown), x) == Impressions(counts, x) + Occurrences(shown, x)
    {
      OccurrencesPositive(shown, x);
    }
  }

  /** Which entries `operator[]` inserts depends only on which ids are read, not on their order. */
  lemma TouchedSameIds(counts: map<int, int>, a: seq<int>, b: seq<int>)
    requires forall x :: x in a <==> x in b
    ensures Touched(counts, a) == Touched(counts, b)
  {
  }

  /** The display without its impression bookkeeping; `sorted` are the scored pairs, best first. */
  method HarmonyRank(customer: Customer, market: MarketState, n: int, sqrt: real -> real)
    returns (sorted: seq<Scored>, r: seq<int>)
    requires n >= 0
    ensures HarmonyShown(HarmonyRule(market.impressionCounts, AvgImpressions(market.impressionCounts)),
                         customer, market, n, sqrt, r)
    ensures forall x :: x in Ids(sorted) <==>
      x in ScoredIds(customer, market, market.impressionCounts, AvgImpressions(market.impressionCounts), sqrt)
  {
    var available, avg, direct;
    available, avg, sorted, direct := HarmonyDirect(customer, market, n, sqrt);
    if available == [] {
      return [], [];
    }
    r := HarmonyComplete(customer, market, sorted, direct, n);
    assert DirectReady(HarmonyRule(market.impressionCounts, avg), customer, market, n, sqrt, available, sorted, direct);
    assert avg == AvgImpressions(market.impressionCounts);
    HarmonyShows(market.impressionCounts, avg, customer, market, available, n, sqrt, sorted, direct, r);
  }

  /** What the first two steps leave: the available ids, their scored pairs in some order, and the direct block taken from them. */
  ghost predicate DirectReady(rule: Rule, c: Customer, m: MarketState, n: int, sqrt: real -> real, available: seq<int>,
                              sorted: seq<Scored>, direct: seq<int>)
    requires n >= 0
    reads c, m`restaurants, m.restaurants
  {
    && available == AvailableOf(m.restaurants)
    && multiset(sorted) == multiset(Candidates(rule, c, m, available, {}, sqrt))
    && TakesIds(direct, sorted) && |direct| == Min(DirectSlots(n), |sorted|)
    && RankedBy(rule, c, m, available, {}, sqrt, direct)
  }

  /**
   * STEP 1 and 2: the average impressions, the scoring loop over the in-radius
   * stores, the sort, and the first `(int)(N * 0.7)` ids.
   */
  method HarmonyDirect(customer: Customer, market: MarketState, n: int, sqrt: real -> real)
    returns (available: seq<int>, avg: real, sorted: seq<Scored>, direct: seq<int>)
    requires n >= 0
    ensures avg == AvgImpressions(market.impressionCounts)
    ensures DirectReady(HarmonyRule(market.impressionCounts, avg), customer, market, n, sqrt, available, sorted, direct)
  {
    avg := AverageImpressions(market.impressionCounts);
    available := market.GetAvailableRestaurantIds();
    if available == [] {
      return available, avg, [], [];
    }
    sorted, direct := RankStores(HarmonyRule(market.impressionCounts, avg), customer, market, available, {}, sqrt,
                                 DirectSlots(n));
    assert available == AvailableOf(market.restaurants);
  }

  /**
   * STEP 3 to 5: while there is room, the first high-waste store and the
   * first discovery store of the sorted list not shown yet, then the best
   * remaining stores of the sorted list.
   */
  method HarmonyComplete(customer: Customer, market: MarketState, sorted: seq<Scored>, direct: seq<int>, n: int)
    returns (r: seq<int>)
    requires |direct| <= n
    ensures |direct| <= |r| <= n && r[..|direct|] == direct
    ensures forall i :: |direct| <= i < |r| ==> r[i] in Ids(sorted) && r[i] !in r[..i]
    ensures |r| < n ==> forall x :: x in Ids(sorted) ==> x in r
  {
    r := direct;
    ghost var w := -1;
    if |r| < n {
      r, w := PickFirst(HighWaste, customer, market, sorted, r);
    }
    ghost var waste := r;
    ghost var d := -1;
    if |r| < n {
      r, d := PickFirst(Discovery, customer, market, sorted, r);
    }
    ghost var picked := r;
    r := Fill(sorted, r, n);
    HarmonyRest(sorted, direct, waste, picked, r, n, w, d);
  }

  /** The two picks and the fill on the values `HarmonyComplete` computes (`w` and `d` are the picked positions, or -1). */
  lemma HarmonyRest(sorted: seq<Scored>, direct: seq<int>, waste: seq<int>, picked: seq<int>, r: seq<int>, n: int,
                    w: int, d: int)
    requires |direct| <= n && -1 <= w < |sorted| && -1 <= d < |sorted|
    requires w >= 0 ==> |direct| < n && sorted[w].id !in direct
    requires waste == if w >= 0 then direct + [sorted[w].id] else direct
    requires d >= 0 ==> |waste| < n && sorted[d].id !in waste
    requires picked == if d >= 0 then waste + [sorted[d].id] else waste
    requires r == Filled(sorted, picked, n)
    ensures |direct| <= |r| <= n && r[..|direct|] == direct
    ensures forall i :: |direct| <= i < |r| ==> r[i] in Ids(sorted) && r[i] !in r[..i]
    ensures |r| < n ==> forall x :: x in Ids(sorted) ==> x in r
  {
    FilledProps(sorted, picked, n);
    assert picked[..|direct|] == direct && picked[..|waste|] == waste;
    forall i | |direct| <= i < |picked|
      ensures picked[i] in Ids(sorted) && picked[i] !in picked[..i]
    {
      if i < |waste| {
        assert picked[i] == waste[i] && picked[..i] == waste[..i];
        assert waste[i] == sorted[w].id && waste[..i] == direct;
        assert Ids(sorted)[w] == sorted[w].id;
      } else {
        assert picked[i] == sorted[d].id && picked[..i] == waste;
        assert Ids(sorted)[d] == sorted[d].id;
      }
    }
    forall i | |direct| <= i < |r|
      ensures r[i] in Ids(sorted) && r[i] !in r[..i]
    {
      if i < |picked| {
        assert r[i] == picked[i] && r[..i] == picked[..i];
      }
    }
    assert r[..|direct|] == r[..|picked|][..|direct|];
  }

  /** The display's own obligations, from the direct block and the rest. */
  lemma HarmonyShows(counts: map<int, int>, avg: real, customer: Customer, market: MarketState, available: seq<int>,
                     n: int, sqrt: real -> real, sorted: seq<Scored>, direct: seq<int>, r: seq<int>)
    requires n >= 0 && DirectReady(HarmonyRule(counts, avg), customer, market, n, sqrt, available, sorted, direct)
    requires |direct| <= |r| <= n && r[..|direct|] == direct
    requires forall i :: |direct| <= i < |r| ==> r[i] in Ids(sorted) && r[i] !in r[..i]
    requires |r| < n ==> forall x :: x in Ids(sorted) ==> x in r
    ensures HarmonyShown(HarmonyRule(counts, avg), customer, market, n, sqrt, r)
    ensures forall x :: x in Ids(sorted) <==> x in ScoredIds(customer, market, counts, avg, sqrt)
  {
    var cands := Candidates(HarmonyRule(counts, avg), customer, market, available, {}, sqrt);
    IdsPermutation(sorted, cands);
    KeptInRadius(counts, avg, customer, market, available, sqrt);
    SortedIdsSame(sorted, cands);
    ShownFromSorted(sorted, direct, r);
    HarmonyDirectBlock(n, sorted, direct, r);
    if Distinct(available) {
      CandidatesDistinct(HarmonyRule(counts, avg), customer, market, available, {}, sqrt);
      DistinctByMultiset(Ids(cands), Ids(sorted));
      DistinctTaken(sorted, direct);
      AppendedNew(r, |direct|);
    }
  }

  /** Rearranged pairs hold the same ids. */
  lemma SortedIdsSame(sorted: seq<Scored>, cands: seq<Scored>)
    requires multiset(Ids(sorted)) == multiset(Ids(cands))
    ensures forall x :: x in Ids(sorted) <==> x in Ids(cands)
  {
    forall x
      ensures x in Ids(sorted) <==> x in Ids(cands)
    {
      assert x in Ids(sorted) <==> x in multiset(Ids(sorted));
      assert x in Ids(cands) <==> x in multiset(Ids(cands));
    }
  }

  /** Every id shown comes from the sorted pairs. */
  lemma ShownFromSorted(sorted: seq<Scored>, direct: seq<int>, r: seq<int>)
    requires TakesIds(direct, sorted) && |direct| <= |r| && r[..|direct|] == direct
    requires forall i :: |direct| <= i < |r| ==> r[i] in Ids(sorted)
    ensures forall x :: x in r ==> x in Ids(sorted)
  {
    forall x | x in r
      ensures x in Ids(sorted)
    {
      var i :| 0 <= i < |r| && r[i] == x;
      if i < |direct| {
        assert r[i] == direct[i] && Ids(sorted)[i] == x;
      }
    }
  }

  /** The first ids taken from pairs whose ids have no repeats have none. */
  lemma DistinctTaken(sorted: seq<Scored>, direct: seq<int>)
    requires TakesIds(direct, sorted) && Distinct(Ids(sorted))
    ensures Distinct(direct)
  {
    forall i, j | 0 <= i < j < |direct|
      ensures direct[i] != direct[j]
    {
      assert direct[i] == Ids(sorted)[i] && direct[j] == Ids(sorted)[j];
    }
  }

  /** The direct block is exactly the first `Min(DirectSlots(n), |r|)` ids shown. */
  lemma HarmonyDirectBlock(n: int, sorted: seq<Scored>, direct: seq<int>, r: seq<int>)
    requires n >= 0
    requires TakesIds(direct, sorted) && |direct| == Min(DirectSlots(n), |sorted|)
    requires |direct| <= |r| && r[..|direct|] == direct
    requires forall i :: |direct| <= i < |r| ==> r[i] in Ids(sorted) && r[i] !in r[..i]
    ensures Min(DirectSlots(n), |r|) == |direct|
  {
  }
}
