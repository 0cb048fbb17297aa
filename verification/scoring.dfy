// The scoring loops shared by the display strategies of RankingAlgorithms.cpp.
// Each strategy walks the available store ids, looks each store up, skips the
// ones its rule does not keep, and pushes an (id, score) pair; what differs is
// the rule, captured here by `Rule`, `Admits` and `Score`.
module StoreScoring {
  import opened Common
  import opened Restaurants
  import opened Customers
  import opened Markets
  import opened Sorting

  /** A store id paired with the score a strategy gave it. */
  datatype Scored = Scored(id: int, score: real)

  function ScoreKey(p: Scored): real { p.score }

  /** The ids of a scored list, in order. */
  function Ids(ps: seq<Scored>): seq<int> {
    seq(|ps|, k requires 0 <= k < |ps| => ps[k].id)
  }

  lemma IdsAppend(a: seq<Scored>, b: seq<Scored>)
    ensures Ids(a + b) == Ids(a) + Ids(b)
  {
    assert forall k :: 0 <= k < |a + b| ==> Ids(a + b)[k] == (Ids(a) + Ids(b))[k];
  }

  /** Rearranging a scored list rearranges its ids. */
  lemma {:induction false} IdsPermutation(a: seq<Scored>, b: seq<Scored>)
    requires multiset(a) == multiset(b)
    ensures multiset(Ids(a)) == multiset(Ids(b))
  {
    if a != [] {
      var x := a[|a| - 1];
      var a' := a[..|a| - 1];
      assert a == a' + [x];
      assert x in multiset(b);
      var k :| 0 <= k < |b| && b[k] == x;
      var b' := b[..k] + b[k + 1..];
      assert b == b[..k] + [x] + b[k + 1..];
      assert multiset(b) == multiset(b[..k]) + multiset{x} + multiset(b[k + 1..]);
      assert multiset(b') == multiset(b[..k]) + multiset(b[k + 1..]);
      assert multiset(a) == multiset(a') + multiset{x};
      assert multiset(a') == multiset(a) - multiset{x};
      assert multiset(b') == multiset(b) - multiset{x};
      IdsPermutation(a', b');
      IdsAppend(a', [x]);
      IdsAppend(b[..k], [x]);
      IdsAppend(b[..k] + [x], b[k + 1..]);
      IdsAppend(b[..k], b[k + 1..]);
    }
  }

  /**
   * std::sort with the comparator `a.second > b.second`: some order of the
   * pairs with non-increasing scores; which order equal scores end up in is
   * left open, as std::sort leaves it.
   */
  method SortByScore(scores: seq<Scored>) returns (sorted: seq<Scored>)
    ensures ByScore(sorted)
    ensures multiset(sorted) == multiset(scores) && |sorted| == |scores|
  {
    sorted := SortDesc(scores, ScoreKey);
    assert forall i, j :: 0 <= i < j < |sorted| ==> ScoreKey(sorted[i]) >= ScoreKey(sorted[j]);
  }

  /** Scores never increase along `s`. */
  predicate ByScore(s: seq<Scored>) {
    forall i, j :: 0 <= i < j < |s| ==> s[i].score >= s[j].score
  }

  /** `r` holds the ids of the first `|r|` pairs of `sorted`, in order. */
  predicate TakesIds(r: seq<int>, sorted: seq<Scored>) {
    |r| <= |sorted| && forall i :: 0 <= i < |r| ==> r[i] == sorted[i].id
  }

  /** The copying loop `result.push_back(store_scores[i].first)` for the first `k` pairs. */
  method TakeIds(sorted: seq<Scored>, k: int) returns (r: seq<int>)
    requires 0 <= k <= |sorted|
    ensures |r| == k && TakesIds(r, sorted)
  {
    r := [];
    var i := 0;
    while i < k
      invariant 0 <= i <= k && |r| == i && TakesIds(r, sorted)
    {
      r := r + [sorted[i].id];
      i := i + 1;
    }
  }

  /**
   * The ids taken from the front of a best-first rearrangement of `cands`
   * come from pairs of `cands`, and every pair of `cands` whose id was not
   * taken scores no higher than any pair taken.
   */
  lemma TopPrefix(cands: seq<Scored>, sorted: seq<Scored>, r: seq<int>)
    requires ByScore(sorted) && multiset(sorted) == multiset(cands) && TakesIds(r, sorted)
    ensures forall i :: 0 <= i < |sorted| ==> sorted[i] in cands
    ensures forall p, i :: p in cands && p.id !in r && 0 <= i < |r| ==> p.score <= sorted[i].score
  {
    forall i | 0 <= i < |sorted|
      ensures sorted[i] in cands
    {
      assert sorted[i] in multiset(sorted);
    }
    forall p, i | p in cands && p.id !in r && 0 <= i < |r|
      ensures p.score <= sorted[i].score
    {
      assert p in multiset(sorted);
      var j :| 0 <= j < |sorted| && sorted[j] == p;
    }
  }

  /** The ids taken are ids of `cands`, each taken at most as often as it occurs there. */
  lemma TakenIds(cands: seq<Scored>, sorted: seq<Scored>, r: seq<int>)
    requires multiset(sorted) == multiset(cands) && TakesIds(r, sorted)
    ensures multiset(r) <= multiset(Ids(cands))
    ensures forall x :: x in r ==> x in Ids(cands)
  {
    var k := |r|;
    assert r == Ids(sorted[..k]);
    IdsPermutation(sorted, cands);
    assert sorted == sorted[..k] + sorted[k..];
    IdsAppend(sorted[..k], sorted[k..]);
    assert multiset(r) <= multiset(Ids(cands));
    forall x | x in r
      ensures x in Ids(cands)
    {
      assert x in multiset(r);
    }
  }

  /** Taking the whole of a rearrangement of `cands` takes every id of `cands`. */
  lemma AllTaken(cands: seq<Scored>, sorted: seq<Scored>, r: seq<int>)
    requires multiset(sorted) == multiset(cands) && TakesIds(r, sorted) && |r| == |sorted|
    ensures forall x :: x in Ids(cands) ==> x in r
  {
    assert r == Ids(sorted);
    IdsPermutation(sorted, cands);
    forall x | x in Ids(cands)
      ensures x in r
    {
      assert x in multiset(Ids(cands));
    }
  }

  /** A customer has never reserved at the store. */
  predicate IsNewFor(h: CustomerHistory, storeId: int) {
    Interaction(h, storeId).reservations == 0
  }

  /** A customer segment as the strategies test it. */
  predicate IsBudget(c: Customer) reads c`segment { c.segment == "budget" }
  predicate IsPremium(c: Customer) reads c`segment { c.segment == "premium" }
  predicate IsRegular(c: Customer) reads c`segment { c.segment == "regular" }

  /** Impressions recorded for a store; a missing entry reads as zero. */
  function Impressions(counts: map<int, int>, id: int): int {
    if id in counts then counts[id] else 0
  }

  /**
   * What a scoring loop keeps and how it scores it: Sama's main, discovery and
   * price-competitive passes, and the passes of Andrew, Amer, Ziad and Harmony.
   * `ln` is the natural logarithm; `counts` are the impression counts the loop
   * reads; `avg` is Harmony's average impression count.
   */
  datatype Rule =
    | SamaMain
    | SamaDiscovery
    | SamaCompetitive
    | AndrewRule(ln: real -> real, counts: map<int, int>)
    | AmerRule
    | ZiadRule
    | HarmonyRule(counts: map<int, int>, avg: real)

  /** Whether a rule keeps the (found) store listed under `id`. */
  predicate Admits(rule: Rule, c: Customer, id: int, s: Restaurant, sqrt: real -> real)
    reads c, s
  {
    match rule
    case SamaMain => true
    case SamaDiscovery => IsNewFor(c.history, id) && MeetsDiscoveryBar(c, s)
    case SamaCompetitive => IsCompetitive(c, s)
    case AndrewRule(_, _) => true
    case AmerRule => c.DistanceTo(s, sqrt) <= MaxTravelDistance
    case ZiadRule => c.DistanceTo(s, sqrt) <= MaxTravelDistance
    case HarmonyRule(_, _) => c.DistanceTo(s, sqrt) <= MaxTravelDistance
  }

  /** The score a rule gives the (found, kept) store listed under `id`. */
  function Score(rule: Rule, c: Customer, id: int, s: Restaurant, sqrt: real -> real): real
    reads c, s
  {
    match rule
    case SamaMain => SamaScore(c, s, Interaction(c.history, id), c.CalculateStoreScore(s, sqrt))
    case SamaDiscovery => DiscoveryScore(c, s)
    case SamaCompetitive => CompetitiveScore(c, s)
    case AndrewRule(ln, counts) =>
      Div(c.CalculateStoreScore(s, sqrt), ln(Impressions(counts, id) as real + 1.0) + 1.0)
    case AmerRule =>
      c.CalculateStoreScore(s, sqrt) - s.pricePerBag * 0.01 - c.DistanceTo(s, sqrt) * 20.0
    case ZiadRule => ZiadScore(s)
    case HarmonyRule(counts, avg) =>
      HarmonyScore(c, s, Interaction(c.history, id), c.CalculateStoreScore(s, sqrt), Impressions(counts, id), avg)
  }

  /**
   * Sama's multi-objective score: the customer's own score `personal` of the
   * store plus urgency, rating, price, history (`si`, the customer's record
   * with the store), category, waste and revenue terms.
   */
  function SamaScore(c: Customer, s: Restaurant, si: StoreInteraction, personal: real): real
    reads c`segment, c`willingnessToPay, c`categoryPreference, s
  {
    var ratingWeight := if IsPremium(c) then 1.5 else if IsBudget(c) then 0.8 else 1.0;
    var inventoryWeight := if IsBudget(c) then 0.8 else if IsPremium(c) then 0.5 else 0.6;
    var unsold := s.UnsoldBags() as real;
    var urgency := MinR(1.0, unsold / 15.0);
    var inventoryBonus := urgency * 1.2 * inventoryWeight;
    var ratingBonus := MaxR(0.0, (s.GetRating() - 3.5) * 0.3 * ratingWeight);
    var priceBonus :=
      if IsBudget(c) then
        (if s.pricePerBag < c.willingnessToPay
         then Div(c.willingnessToPay - s.pricePerBag, c.willingnessToPay) * 0.4 else 0.0)
      else if IsPremium(c) then (if s.pricePerBag > 100.0 then 0.1 else 0.0)
      else 0.0;
    var historyBonus :=
      if si.reservations > 0 then
        Div(si.successes as real, si.reservations as real) * 0.5
        - (if si.cancellations > 0 then Div(si.cancellations as real, si.reservations as real) * 1.0 else 0.0)
      else 0.0;
    var categoryBonus := PreferenceOf(c.categoryPreference, s.businessType) * 0.2;
    var wasteBonus := if unsold > 5.0 then MinR(2.0, unsold / 5.0) * 0.5 else 0.0;
    var revenueBonus := (s.pricePerBag * urgency / 200.0) * 0.3;
    personal + inventoryBonus + ratingBonus + priceBonus
      + historyBonus + categoryBonus + wasteBonus + revenueBonus
  }

  /** The segment's quality bar for a discovery store. */
  predicate MeetsDiscoveryBar(c: Customer, s: Restaurant)
    reads c`segment, c`willingnessToPay, s
  {
    if IsBudget(c) then
      s.pricePerBag <= c.willingnessToPay * 1.1 && s.estimatedBags >= 8 && s.GetRating() >= 3.8
    else if IsPremium(c) then s.GetRating() >= 4.0 && s.estimatedBags >= 8
    else s.GetRating() >= 3.9 && s.estimatedBags >= 8
  }

  function DiscoveryScore(c: Customer, s: Restaurant): real
    reads c`segment, c`willingnessToPay, s
  {
    var unsoldBonus := MinR(1.0, s.UnsoldBags() as real / 10.0);
    var valueRatio := Div(s.GetRating(), s.pricePerBag);
    var safety := MinR(1.0, s.estimatedBags as real / 15.0);
    if IsBudget(c) then
      var affordability := Div(c.willingnessToPay - s.pricePerBag, c.willingnessToPay);
      valueRatio * 15.0 + affordability * 2.0 + safety * 0.5 + s.GetRating() * 0.3 + unsoldBonus * 0.8
    else if IsPremium(c) then
      s.GetRating() * 1.5 + valueRatio * 10.0 + safety * 0.5 + unsoldBonus * 0.6
    else
      s.GetRating() + valueRatio * 10.0 + safety * 0.5 + unsoldBonus * 0.7
  }

  /** A store good enough value for money to be shown as the price-competitive pick. */
  predicate IsCompetitive(c: Customer, s: Restaurant)
    reads c`segment, c`willingnessToPay, s
  {
    var valueRatio := Div(s.GetRating(), s.pricePerBag);
    s.estimatedBags >= 8 &&
    if IsBudget(c) then s.pricePerBag <= c.willingnessToPay * 1.1 && valueRatio > 0.025
    else if IsPremium(c) then valueRatio > 0.03 && s.GetRating() >= 3.8
    else valueRatio > 0.03
  }

  function CompetitiveScore(c: Customer, s: Restaurant): real
    reads c`segment, c`willingnessToPay, s
  {
    var valueRatio := Div(s.GetRating(), s.pricePerBag);
    var safety := MinR(1.0, s.estimatedBags as real / 15.0);
    if IsBudget(c) then
      var affordability := Div(c.willingnessToPay - s.pricePerBag, c.willingnessToPay);
      valueRatio * 120.0 + affordability * 3.0 + safety * 0.5 + s.GetRating() * 0.3
    else if IsPremium(c) then valueRatio * 100.0 + safety * 0.5 + s.GetRating() * 0.8
    else valueRatio * 100.0 + safety * 0.5 + s.GetRating() * 0.5
  }

  /** Ziad's linear combination of price, rating and unsold bags. */
  function ZiadScore(s: Restaurant): real
    reads s
  {
    -0.01 * s.pricePerBag + 1.5 * s.GetRating() + 0.1 * s.UnsoldBags() as real
  }

  /**
   * Harmony's score: the customer's own score `personal` of the store plus
   * satisfaction, history (`si`), waste, fairness, revenue and quality terms.
   */
  function HarmonyScore(c: Customer, s: Restaurant, si: StoreInteraction, personal: real, impressions: int,
                        avg: real): real
    reads c`segment, c`willingnessToPay, s
  {
    var satisfaction :=
      if IsPremium(c) && s.GetRating() >= 4.0 then 0.5
      else if IsBudget(c) && s.pricePerBag <= c.willingnessToPay then 0.4
      else if IsRegular(c) && s.GetRating() >= 3.8 then 0.3
      else 0.0;
    var historyBonus :=
      if si.successes > 0 then Div(si.successes as real, si.reservations as real) * 0.3 else 0.0;
    var unsold := s.UnsoldBags();
    var waste := unsold as real * 0.08 + (if unsold > 12 then 0.6 else 0.0);
    var fairness :=
      if (impressions as real) < avg * 0.5 then 0.8
      else if (impressions as real) > avg * 1.5 then -0.4
      else 0.0;
    var safety := MinR(1.0, s.estimatedBags as real / 10.0);
    var revenue := (s.pricePerBag / 100.0) * safety * 0.3;
    var quality := if s.estimatedBags < 5 then -1.5 else 0.0;
    personal + satisfaction + historyBonus + waste + fairness + revenue + quality
  }

  /** The store a scoring loop finds for an id and keeps, or null. */
  function KeptStore(rule: Rule, c: Customer, m: MarketState, id: int, excluded: set<int>,
                     sqrt: real -> real): (s: Restaurant?)
    reads c, m`restaurants, m.restaurants
    ensures s != null ==> s == m.FindRestaurant(id) && id !in excluded && Admits(rule, c, id, s, sqrt)
  {
    var s := m.FindRestaurant(id);
    if id in excluded || s == null || !Admits(rule, c, id, s, sqrt) then null else s
  }

  /**
   * The (id, score) pairs a scoring loop pushes while walking `ids`: ids in
   * `excluded` (the strategy's already selected set) are skipped, as are ids
   * with no store and stores the rule does not keep.
   */
  function Candidates(rule: Rule, c: Customer, m: MarketState, ids: seq<int>, excluded: set<int>,
                      sqrt: real -> real): (r: seq<Scored>)
    reads c, m`restaurants, m.restaurants
    ensures |r| <= |ids|
    ensures forall k :: 0 <= k < |r| ==>
      var s := KeptStore(rule, c, m, r[k].id, excluded, sqrt);
      r[k].id in ids && s != null && r[k].score == Score(rule, c, r[k].id, s, sqrt)
  {
    if ids == [] then []
    else
      var prev := Candidates(rule, c, m, ids[..|ids| - 1], excluded, sqrt);
      var id := ids[|ids| - 1];
      var s := KeptStore(rule, c, m, id, excluded, sqrt);
      if s == null then prev else prev + [Scored(id, Score(rule, c, id, s, sqrt))]
  }

  /** Every walked id whose store the rule keeps is pushed. */
  lemma {:induction false} CandidatesComplete(rule: Rule, c: Customer, m: MarketState, ids: seq<int>,
                                              excluded: set<int>, sqrt: real -> real, id: int)
    requires id in ids && KeptStore(rule, c, m, id, excluded, sqrt) != null
    ensures id in Ids(Candidates(rule, c, m, ids, excluded, sqrt))
  {
    var init := ids[..|ids| - 1];
    var prev := Candidates(rule, c, m, init, excluded, sqrt);
    assert ids == init + [ids[|ids| - 1]];
    if id in init {
      CandidatesComplete(rule, c, m, init, excluded, sqrt, id);
      var s := KeptStore(rule, c, m, ids[|ids| - 1], excluded, sqrt);
      if s != null {
        IdsAppend(prev, [Scored(ids[|ids| - 1], Score(rule, c, ids[|ids| - 1], s, sqrt))]);
      }
    } else {
      assert id == ids[|ids| - 1];
      var last := [Scored(id, Score(rule, c, id, KeptStore(rule, c, m, id, excluded, sqrt), sqrt))];
      assert Candidates(rule, c, m, ids, excluded, sqrt) == prev + last;
      IdsAppend(prev, last);
      assert Ids(prev + last)[|prev|] == id;
    }
  }

  /** Walking ids without repeats pushes no id twice. */
  lemma {:induction false} CandidatesDistinct(rule: Rule, c: Customer, m: MarketState, ids: seq<int>,
                                              excluded: set<int>, sqrt: real -> real)
    requires Distinct(ids)
    ensures Distinct(Ids(Candidates(rule, c, m, ids, excluded, sqrt)))
  {
    if ids != [] {
      var init := ids[..|ids| - 1];
      var id := ids[|ids| - 1];
      var prev := Candidates(rule, c, m, init, excluded, sqrt);
      CandidatesDistinct(rule, c, m, init, excluded, sqrt);
      var s := KeptStore(rule, c, m, id, excluded, sqrt);
      if s != null {
        assert ids == init + [id];
        assert id !in Ids(prev);
        IdsAppend(prev, [Scored(id, Score(rule, c, id, s, sqrt))]);
      }
    }
  }

  /** One more id walked: its pair is pushed exactly when the rule keeps its store. */
  lemma CandidatesNext(rule: Rule, c: Customer, m: MarketState, ids: seq<int>, i: int, excluded: set<int>,
                       sqrt: real -> real)
    requires 0 <= i < |ids|
    ensures var s := KeptStore(rule, c, m, ids[i], excluded, sqrt);
      Candidates(rule, c, m, ids[..i + 1], excluded, sqrt) ==
      Candidates(rule, c, m, ids[..i], excluded, sqrt) +
      (if s == null then [] else [Scored(ids[i], Score(rule, c, ids[i], s, sqrt))])
  {
    assert ids[..i + 1][..i] == ids[..i];
  }

  /** The scoring loop itself: walks the ids and pushes what the rule keeps. */
  method ScoreStores(rule: Rule, c: Customer, m: MarketState, ids: seq<int>, excluded: set<int>,
                     sqrt: real -> real) returns (scores: seq<Scored>)
    ensures scores == Candidates(rule, c, m, ids, excluded, sqrt)
  {
    scores := [];
    var i := 0;
    while i < |ids|
      invariant 0 <= i <= |ids|
      invariant scores == Candidates(rule, c, m, ids[..i], excluded, sqrt)
    {
      scores := ScoreOne(rule, c, m, ids, i, excluded, sqrt, scores);
      i := i + 1;
    }
    assert ids[..i] == ids;
  }

  /** One turn of the scoring loop: look the store up, keep it or skip it. */
  method ScoreOne(rule: Rule, c: Customer, m: MarketState, ids: seq<int>, i: int, excluded: set<int>,
                  sqrt: real -> real, scores: seq<Scored>) returns (scores': seq<Scored>)
    requires 0 <= i < |ids| && scores == Candidates(rule, c, m, ids[..i], excluded, sqrt)
    ensures scores' == Candidates(rule, c, m, ids[..i + 1], excluded, sqrt)
  {
    var id := ids[i];
    var s := m.GetRestaurant(id);
    CandidatesNext(rule, c, m, ids, i, excluded, sqrt);
    scores' := scores;
    if id !in excluded && s != null && Admits(rule, c, id, s, sqrt) {
      scores' := scores + [Scored(id, Score(rule, c, id, s, sqrt))];
    }
  }

  /** The impression counts after `operator[]` has been applied to each id: missing ids get a zero entry. */
  function Touched(counts: map<int, int>, ids: seq<int>): (t: map<int, int>)
    ensures forall k :: k in t <==> k in counts || k in ids
    ensures forall k :: k in t ==> t[k] == Impressions(counts, k)
  {
    map k | k in counts.Keys + (set x | x in ids) :: Impressions(counts, k)
  }

  /** The impression counts after one `++` per occurrence of an id in `ids`. */
  function Bumped(counts: map<int, int>, ids: seq<int>): (b: map<int, int>)
    ensures forall k :: k in b <==> k in counts || k in ids
    ensures forall k :: k in b ==> b[k] == Impressions(counts, k) + Occurrences(ids, k)
  {
    if ids == [] then counts
    else
      var init := ids[..|ids| - 1];
      var prev := Bumped(counts, init);
      var id := ids[|ids| - 1];
      assert ids == init + [id];
      assert forall k :: Occurrences(ids, k) == Occurrences(init, k) + (if k == id then 1 else 0);
      OccurrencesPositive(init, id);
      prev[id := Impressions(prev, id) + 1]
  }

  /** Reads `impression_counts[id]` for each id, inserting zero for the missing ones. */
  method TouchImpressions(m: MarketState, ids: seq<int>)
    modifies m`impressionCounts
    ensures m.impressionCounts == Touched(old(m.impressionCounts), ids)
  {
    ghost var start := m.impressionCounts;
    var i := 0;
    while i < |ids|
      invariant 0 <= i <= |ids|
      invariant m.impressionCounts == Touched(start, ids[..i])
    {
      assert forall x :: x in ids[..i + 1] <==> x in ids[..i] || x == ids[i];
      if ids[i] !in m.impressionCounts {
        m.impressionCounts := m.impressionCounts[ids[i] := 0];
      }
      i := i + 1;
    }
    assert ids[..i] == ids;
  }

  /** Adds one impression for each shown id. */
  method BumpImpressions(m: MarketState, ids: seq<int>)
    modifies m`impressionCounts
    ensures m.impressionCounts == Bumped(old(m.impressionCounts), ids)
  {
    ghost var start := m.impressionCounts;
    var i := 0;
    while i < |ids|
      invariant 0 <= i <= |ids|
      invariant m.impressionCounts == Bumped(start, ids[..i])
    {
      assert ids[..i + 1][..i] == ids[..i];
      m.impressionCounts := m.impressionCounts[ids[i] := Impressions(m.impressionCounts, ids[i]) + 1];
      i := i + 1;
    }
    assert ids[..i] == ids;
  }
}
