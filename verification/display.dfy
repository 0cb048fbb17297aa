// The dispatcher of RankingAlgorithms.cpp: which strategy builds a
// customer's display, and what every display promises whichever strategy
// built it.
module Display {
  import opened Common
  import opened Customers
  import opened Markets
  import opened StoreScoring
  import opened Ranking
  import opened SamaDisplay
  import opened HarmonyDisplay

  /**
   * Whether building a display with `algorithm` reads store `id`'s impression
   * count, which inserts a zero entry for a store never shown: Andrew reads
   * every available store's, Harmony every available in-radius store's, the
   * other strategies none.
   */
  predicate ReadsImpressions(algorithm: RankingAlgorithm, c: Customer, m: MarketState, id: int, sqrt: real -> real)
    reads c`latitude, c`longitude, m`restaurants, m.restaurants
  {
    match algorithm
    case Andrew => id in AvailableOf(m.restaurants)
    case Harmony => id in AvailableOf(m.restaurants) && InRadius(c, m, id, sqrt)
    case _ => false
  }

  /**
   * What the display `r` built by `algorithm` promises beyond listing
   * available stores only, given the impression counts before (`counts`) and
   * after (`after`) and, for Harmony, the ids its scoring loop read
   * (`scored`):
   *  - Baseline: exactly min(N, available) stores, best rated first, none
   *    left out rated higher than one shown;
   *  - Sama: its first block ranked by the Sama score, no repeats after it,
   *    every available store shown unless the display is full;
   *  - Andrew: exactly min(N, available) stores ranked by the damped score,
   *    and a zero entry inserted for every available store;
   *  - Ziad: at most five, ranked, all kept stores when short;
   *  - Amer: the nearest store first (when one is found), the rest ranked,
   *    all kept stores when short;
   *  - Harmony: HarmonyShown, a zero entry inserted for every scored store
   *    and one more impression per store shown.
   */
  ghost predicate StrategyPromise(algorithm: RankingAlgorithm, c: Customer, m: MarketState, n: int,
                                  sqrt: real -> real, ln: real -> real, counts: map<int, int>, scored: seq<int>,
                                  after: map<int, int>, r: seq<int>)
    requires n >= 0
    reads c, m`restaurants, m.restaurants
  {
    var available := AvailableOf(m.restaurants);
    match algorithm
    case Baseline =>
      && |r| == Min(n, |available|)
      && multiset(r) <= multiset(available)
      && ByRating(m.restaurants, r)
      && (forall x, i :: x in available && x !in r && 0 <= i < |r| ==>
            LastRating(m.restaurants, x) <= LastRating(m.restaurants, r[i]))
    case Sama =>
      var k := SelectOneCount(n, PersonalizationRatio(c, AvgUnsold(m.restaurants)), |available|);
      && k <= |r|
      && RankedBy(SamaMain, c, m, available, {}, sqrt, r[..k])
      && (forall i :: k <= i < |r| ==> r[i] !in r[..i])
      && (|r| < n ==> forall x :: x in available ==> x in r)
      && (Distinct(available) ==> Distinct(r))
    case Andrew =>
      && |r| == Min(n, |available|)
      && RankedBy(AndrewRule(ln, counts), c, m, available, {}, sqrt, r)
      && after == Touched(counts, available)
    case Ziad =>
      && |r| <= Min(n, 5)
      && RankedBy(ZiadRule, c, m, available, {}, sqrt, r)
      && (|r| < Min(n, 5) ==> ListsAllKept(ZiadRule, c, m, available, {}, sqrt, r))
    case Amer =>
      var near := NearestOf(c, m, available, sqrt).id;
      && (if near == -1 then RankedBy(AmerRule, c, m, available, {}, sqrt, r)
          else |r| >= 1 && r[0] == near && RankedBy(AmerRule, c, m, available, {near}, sqrt, r[1..]))
      && (|r| < n ==> ListsAllKept(AmerRule, c, m, available, {}, sqrt, r))
    case Harmony =>
      && HarmonyShown(HarmonyRule(counts, AvgImpressions(counts)), c, m, n, sqrt, r)
      && after == Bumped(Touched(counts, scored), r)
  }

  // ------------------------------------------------- what a visit leaves alone

  /**
   * What a display is built from: the customer, the market and the square
   * root used for distances (one argument, so that the two-state lemmas
   * below take a single one).
   */
  datatype Viewing = Viewing(customer: Customer, market: MarketState, sqrt: real -> real)

  /**
   * From the earlier state to this one only the customer's visit count
   * changed: the rest of what the strategies read of the customer, the store
   * list and every store are as they were.
   */
  twostate predicate VisitedOnly(v: Viewing)
    reads v.customer, v.market, v.market.restaurants
  {
    && v.customer.history == old(v.customer.history).(visits := v.customer.history.visits)
    && unchanged(v.customer`latitude, v.customer`longitude, v.customer`segment, v.customer`willingnessToPay,
                 v.customer`loyalty, v.customer`weights, v.customer`categoryPreference)
    && unchanged(v.market`restaurants)
    && unchanged(old(v.market.restaurants))
  }

  /** A visit changes neither whether a rule keeps a listed store nor the score it gives it. */
  twostate lemma StoresIgnoreVisits(v: Viewing)
    requires VisitedOnly(v)
    ensures forall rule, x, s | s in v.market.restaurants ::
              && Admits(rule, v.customer, x, s, v.sqrt) == old(Admits(rule, v.customer, x, s, v.sqrt))
              && Score(rule, v.customer, x, s, v.sqrt) == old(Score(rule, v.customer, x, s, v.sqrt))
  {
    var c := v.customer;
    forall rule, x, s | s in v.market.restaurants
      ensures Admits(rule, c, x, s, v.sqrt) == old(Admits(rule, c, x, s, v.sqrt))
      ensures Score(rule, c, x, s, v.sqrt) == old(Score(rule, c, x, s, v.sqrt))
    {
      ScoreIgnoresVisits(c.weights, old(c.history), c.history, c.willingnessToPay, s.GetRating(), s.pricePerBag,
                         s.businessType, c.DistanceTo(s, v.sqrt));
      assert Interaction(c.history, x) == Interaction(old(c.history), x);
    }
  }

  /** A visit changes neither which stores a rule keeps nor the score it gives them. */
  twostate lemma RuleIgnoresVisits(v: Viewing)
    requires VisitedOnly(v)
    ensures forall rule, x, excluded ::
              KeptStore(rule, v.customer, v.market, x, excluded, v.sqrt) ==
              old(KeptStore(rule, v.customer, v.market, x, excluded, v.sqrt))
    ensures forall rule, x ::
              ScoreOfId(rule, v.customer, v.market, x, v.sqrt) == old(ScoreOfId(rule, v.customer, v.market, x, v.sqrt))
  {
    StoresIgnoreVisits(v);
  }

  /** A visit changes neither whether a list is ranked by a rule nor whether it lists all the rule keeps. */
  twostate lemma RankingIgnoresVisits(v: Viewing)
    requires VisitedOnly(v)
    ensures forall rule, ids, excluded, r ::
              RankedBy(rule, v.customer, v.market, ids, excluded, v.sqrt, r) ==
              old(RankedBy(rule, v.customer, v.market, ids, excluded, v.sqrt, r))
    ensures forall rule, ids, excluded, r ::
              ListsAllKept(rule, v.customer, v.market, ids, excluded, v.sqrt, r) ==
              old(ListsAllKept(rule, v.customer, v.market, ids, excluded, v.sqrt, r))
  {
    RuleIgnoresVisits(v);
  }

  /** A visit changes nothing Baseline's promise reads: the ratings and the stock of the stores. */
  twostate lemma BaselineIgnoresVisits(v: Viewing)
    requires VisitedOnly(v)
    ensures forall n, ln, counts, scored, after, r | n >= 0 ::
              StrategyPromise(Baseline, v.customer, v.market, n, v.sqrt, ln, counts, scored, after, r) ==
              old(StrategyPromise(Baseline, v.customer, v.market, n, v.sqrt, ln, counts, scored, after, r))
  {
    RankingIgnoresVisits(v);
  }

  /** A visit changes neither Sama's first-block size (segment, loyalty, stock) nor its ranking. */
  twostate lemma SamaIgnoresVisits(v: Viewing)
    requires VisitedOnly(v)
    ensures forall n, ln, counts, scored, after, r | n >= 0 ::
              StrategyPromise(Sama, v.customer, v.market, n, v.sqrt, ln, counts, scored, after, r) ==
              old(StrategyPromise(Sama, v.customer, v.market, n, v.sqrt, ln, counts, scored, after, r))
  {
    RankingIgnoresVisits(v);
    assert AvailableOf(v.market.restaurants) == old(AvailableOf(v.market.restaurants));
    assert PersonalizationRatio(v.customer, AvgUnsold(v.market.restaurants)) ==
           old(PersonalizationRatio(v.customer, AvgUnsold(v.market.restaurants)));
  }

  /** A visit changes neither Andrew's damped ranking nor the impression entries it inserts. */
  twostate lemma AndrewIgnoresVisits(v: Viewing)
    requires VisitedOnly(v)
    ensures forall n, ln, counts, scored, after, r | n >= 0 ::
              StrategyPromise(Andrew, v.customer, v.market, n, v.sqrt, ln, counts, scored, after, r) ==
              old(StrategyPromise(Andrew, v.customer, v.market, n, v.sqrt, ln, counts, scored, after, r))
  {
    RankingIgnoresVisits(v);
  }

  /** A visit changes neither which stores Ziad keeps nor how it ranks them. */
  twostate lemma ZiadIgnoresVisits(v: Viewing)
    requires VisitedOnly(v)
    ensures forall n, ln, counts, scored, after, r | n >= 0 ::
              StrategyPromise(Ziad, v.customer, v.market, n, v.sqrt, ln, counts, scored, after, r) ==
              old(StrategyPromise(Ziad, v.customer, v.market, n, v.sqrt, ln, counts, scored, after, r))
  {
    RankingIgnoresVisits(v);
  }

  /** A visit changes neither the nearest store nor how Amer ranks the rest. */
  twostate lemma AmerIgnoresVisits(v: Viewing)
    requires VisitedOnly(v)
    ensures forall n, ln, counts, scored, after, r | n >= 0 ::
              StrategyPromise(Amer, v.customer, v.market, n, v.sqrt, ln, counts, scored, after, r) ==
              old(StrategyPromise(Amer, v.customer, v.market, n, v.sqrt, ln, counts, scored, after, r))
  {
    RankingIgnoresVisits(v);
  }

  /** A visit changes neither Harmony's picks nor the impressions it records. */
  twostate lemma HarmonyIgnoresVisits(v: Viewing)
    requires VisitedOnly(v)
    ensures forall n, ln, counts, scored, after, r | n >= 0 ::
              StrategyPromise(Harmony, v.customer, v.market, n, v.sqrt, ln, counts, scored, after, r) ==
              old(StrategyPromise(Harmony, v.customer, v.market, n, v.sqrt, ln, counts, scored, after, r))
  {
    RankingIgnoresVisits(v);
  }

  /** A visit changes no strategy's promise about a display. */
  twostate lemma PromiseIgnoresVisits(v: Viewing)
    requires VisitedOnly(v)
    ensures forall algorithm, n, ln, counts, scored, after, r | n >= 0 ::
              StrategyPromise(algorithm, v.customer, v.market, n, v.sqrt, ln, counts, scored, after, r) ==
              old(StrategyPromise(algorithm, v.customer, v.market, n, v.sqrt, ln, counts, scored, after, r))
  {
    BaselineIgnoresVisits(v);
    SamaIgnoresVisits(v);
    AndrewIgnoresVisits(v);
    ZiadIgnoresVisits(v);
    AmerIgnoresVisits(v);
    HarmonyIgnoresVisits(v);
    forall algorithm, n, ln, counts, scored, after, r | n >= 0
      ensures StrategyPromise(algorithm, v.customer, v.market, n, v.sqrt, ln, counts, scored, after, r) ==
              old(StrategyPromise(algorithm, v.customer, v.market, n, v.sqrt, ln, counts, scored, after, r))
    {
      match algorithm
      case Baseline =>
      case Sama =>
      case Andrew =>
      case Ziad =>
      case Amer =>
      case Harmony =>
    }
  }

  /**
   * `get_displayed_stores`: every display lists available stores only (none
   * at all when nothing is available) and at most N of them, except that
   * Amer always shows the closest store; each strategy keeps its own promise
   * (StrategyPromise). Andrew and Harmony insert a zero impression entry for
   * each store they read, and Harmony adds one impression per store shown;
   * the other strategies leave the counts alone.
   */
  method GetDisplayedStores(customer: Customer, market: MarketState, n: int, algorithm: RankingAlgorithm,
                            sqrt: real -> real, ln: real -> real)
    returns (r: seq<int>)
    requires n >= 0
    modifies market`impressionCounts
    ensures ShowsAvailable(market, r)
    ensures |r| <= Max(n, 1) && (!algorithm.Amer? ==> |r| <= n)
    ensures StrategyPromise(algorithm, customer, market, n, sqrt, ln, old(market.impressionCounts),
                            old(ScoredIds(customer, market, market.impressionCounts, AvgImpressions(market.impressionCounts), sqrt)),
                            market.impressionCounts, r)
    ensures forall x :: x in market.impressionCounts <==>
              x in old(market.impressionCounts) || old(ReadsImpressions(algorithm, customer, market, x, sqrt))
    ensures forall x :: Impressions(market.impressionCounts, x) ==
              Impressions(old(market.impressionCounts), x) + (if algorithm.Harmony? then Occurrences(r, x) else 0)
    ensures !algorithm.Andrew? && !algorithm.Harmony? ==> market.impressionCounts == old(market.impressionCounts)
  {
    match algorithm {
      case Sama =>
        r := DisplaySama(customer, market, n, sqrt);
      case Andrew =>
        r := DisplayAndrew(customer, market, n, sqrt, ln);
      case Amer =>
        r := DisplayAmer(customer, market, n, sqrt);
      case Ziad =>
        r := DisplayZiad(customer, market, n, sqrt);
      case Harmony =>
        r := DisplayHarmony(customer, market, n, sqrt);
      case Baseline =>
        r := DisplayBaseline(market, n);
    }
  }
}
