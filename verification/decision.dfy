// How an arriving customer reacts to a display (CustomerDecisionSystem.cpp):
// score every displayed store, leave when even the best is below the
// customer's threshold, otherwise draw one of the acceptable stores with
// softmax weights and try to reserve a bag there.
module Decision {
  import opened Common
  import opened Timestamps
  import opened Reservations
  import opened Restaurants
  import opened Customers
  import opened Markets
  import opened StoreScoring
  import opened Ranking
  import opened SamaDisplay
  import opened HarmonyDisplay
  import opened Display

  // ------------------------------------------------- scores of the displayed stores

  /** The score given to a displayed id whose store cannot be found. */
  const MissingStoreScore: real := -100.0

  /** A customer's score of one displayed id. */
  function DisplayedScore(c: Customer, m: MarketState, id: int, sqrt: real -> real): real
    reads c, m`restaurants, m.restaurants
  {
    var s := m.FindRestaurant(id);
    if s == null then MissingStoreScore else c.CalculateStoreScore(s, sqrt)
  }

  /** A store that is missing or beyond the pickup radius scores -100. */
  lemma UnreachableScore(c: Customer, m: MarketState, id: int, sqrt: real -> real)
    requires m.FindRestaurant(id) == null || c.DistanceTo(m.FindRestaurant(id), sqrt) > MaxTravelDistance
    ensures DisplayedScore(c, m, id, sqrt) == -100.0
  {
  }

  /** `calculate_store_scores`: one score per displayed id, in display order. */
  method CalculateStoreScores(c: Customer, displayed: seq<int>, m: MarketState, sqrt: real -> real)
    returns (scores: seq<real>)
    ensures |scores| == |displayed|
    ensures forall i :: 0 <= i < |displayed| ==> scores[i] == DisplayedScore(c, m, displayed[i], sqrt)
  {
    scores := [];
    var i := 0;
    while i < |displayed|
      invariant 0 <= i <= |displayed| && |scores| == i
      invariant forall k :: 0 <= k < i ==> scores[k] == DisplayedScore(c, m, displayed[k], sqrt)
    {
      var store := m.GetRestaurant(displayed[i]);
      if store != null {
        scores := scores + [c.CalculateStoreScore(store, sqrt)];
      } else {
        scores := scores + [MissingStoreScore];
      }
      i := i + 1;
    }
  }

  // ------------------------------------------------- the purchase threshold and the adjusted scores

  /** The lowest acceptable score: the leaving threshold, raised by up to 2 for a disloyal customer. */
  function Threshold(c: Customer): real
    reads c`leavingThreshold, c`loyalty
  {
    c.leavingThreshold + (1.0 - c.loyalty) * 2.0
  }

  /** The largest score (`max_element`). */
  function MaxOf(s: seq<real>): (mx: real)
    requires |s| > 0
    ensures forall i :: 0 <= i < |s| ==> s[i] <= mx
    ensures exists i :: 0 <= i < |s| && s[i] == mx
  {
    if |s| == 1 then s[0]
    else
      var p := MaxOf(s[..|s| - 1]);
      assert forall i :: 0 <= i < |s| - 1 ==> s[..|s| - 1][i] == s[i];
      MaxR(p, s[|s| - 1])
  }

  /** The smallest score (`min_element`). */
  function MinOf(s: seq<real>): (mn: real)
    requires |s| > 0
    ensures forall i :: 0 <= i < |s| ==> mn <= s[i]
    ensures exists i :: 0 <= i < |s| && s[i] == mn
  {
    if |s| == 1 then s[0]
    else
      var p := MinOf(s[..|s| - 1]);
      assert forall i :: 0 <= i < |s| - 1 ==> s[..|s| - 1][i] == s[i];
      MinR(p, s[|s| - 1])
  }

  /**
   * The history term of the adjusted score: plus 1.5 times the success rate,
   * minus 2 times the cancellation rate, for a store reserved before.
   */
  function HistoryAdjustment(h: CustomerHistory, id: int): (a: real)
    ensures var si := Interaction(h, id);
      0 <= si.successes <= si.reservations && 0 <= si.cancellations <= si.reservations ==> -2.0 <= a <= 1.5
  {
    var si := Interaction(h, id);
    if si.reservations > 0 then
      var success := si.successes as real / si.reservations as real;
      var cancel := if si.cancellations > 0 then si.cancellations as real / si.reservations as real * 2.0 else 0.0;
      assert 0 <= si.successes <= si.reservations ==> success <= 1.0;
      assert 0 <= si.cancellations <= si.reservations ==> 0.0 <= cancel <= 2.0;
      success * 1.5 - cancel
    else 0.0
  }

  /** The stock term of the adjusted score: up to 0.3 for a store forecasting twelve bags or more. */
  function InventoryBonus(m: MarketState, id: int): (b: real)
    reads m`restaurants, m.restaurants
    ensures b <= 0.3
    ensures var s := m.FindRestaurant(id); s != null && s.estimatedBags >= 0 ==> b >= 0.0
  {
    var s := m.FindRestaurant(id);
    if s == null then 0.0 else MinR(1.0, s.estimatedBags as real / 12.0) * 0.3
  }

  /** The adjusted scores for a customer with history `h`, position by position. */
  function Adjusted(h: CustomerHistory, m: MarketState, displayed: seq<int>, scores: seq<real>): (adj: seq<real>)
    requires |scores| == |displayed|
    reads m`restaurants, m.restaurants
    ensures |adj| == |scores|
    ensures forall i :: 0 <= i < |adj| ==>
      adj[i] == scores[i] + HistoryAdjustment(h, displayed[i]) + InventoryBonus(m, displayed[i])
  {
    if scores == [] then []
    else
      var k := |scores| - 1;
      Adjusted(h, m, displayed[..k], scores[..k])
        + [scores[k] + HistoryAdjustment(h, displayed[k]) + InventoryBonus(m, displayed[k])]
  }

  /** The adjusted scores depend on the history only through the per-store records, not on the visit count. */
  lemma AdjustedIgnoresVisits(h: CustomerHistory, visits: int, m: MarketState, displayed: seq<int>, scores: seq<real>)
    requires |scores| == |displayed|
    ensures Adjusted(h.(visits := visits), m, displayed, scores) == Adjusted(h, m, displayed, scores)
  {
    var a := Adjusted(h.(visits := visits), m, displayed, scores);
    var b := Adjusted(h, m, displayed, scores);
    forall i | 0 <= i < |a|
      ensures a[i] == b[i]
    {
      assert Interaction(h.(visits := visits), displayed[i]) == Interaction(h, displayed[i]);
    }
  }

  /** Whether an adjusted score is acceptable: at least the threshold and above -50 (-50 and below means too far). */
  predicate Acceptable(score: real, threshold: real) {
    score >= threshold && score > -50.0
  }

  /**
   * A store scored -100 (missing or too far) can never be acceptable: the
   * adjustments add at most 1.8 when the history counters are consistent.
   */
  lemma FarStoreNeverAcceptable(c: Customer, m: MarketState, id: int, score: real, threshold: real)
    requires score <= -100.0
    requires var si := Interaction(c.history, id);
      0 <= si.successes <= si.reservations && 0 <= si.cancellations <= si.reservations
    ensures !Acceptable(score + HistoryAdjustment(c.history, id) + InventoryBonus(m, id), threshold)
  {
  }

  /** The positions whose adjusted score is acceptable, in display order. */
  function ValidIndices(adj: seq<real>, threshold: real): (v: seq<int>)
    ensures forall k :: 0 <= k < |v| ==> 0 <= v[k] < |adj| && Acceptable(adj[v[k]], threshold)
    ensures forall i :: 0 <= i < |adj| && Acceptable(adj[i], threshold) ==> i in v
  {
    if adj == [] then []
    else
      var k := |adj| - 1;
      var p := ValidIndices(adj[..k], threshold);
      assert forall j :: 0 <= j < |p| ==> adj[..k][p[j]] == adj[p[j]];
      if Acceptable(adj[k], threshold) then p + [k] else p
  }

  /** The acceptable positions come out in increasing order, each once. */
  lemma {:induction false} ValidIndicesIncreasing(adj: seq<real>, threshold: real)
    ensures forall k, l :: 0 <= k < l < |ValidIndices(adj, threshold)| ==>
      ValidIndices(adj, threshold)[k] < ValidIndices(adj, threshold)[l]
  {
    if adj != [] {
      var k := |adj| - 1;
      var p := ValidIndices(adj[..k], threshold);
      ValidIndicesIncreasing(adj[..k], threshold);
      assert forall j :: 0 <= j < |p| ==> p[j] < k;
      if Acceptable(adj[k], threshold) {
        var v := p + [k];
        assert ValidIndices(adj, threshold) == v;
        forall i, j | 0 <= i < j < |v| ensures v[i] < v[j] {
          if j < |p| { assert v[i] == p[i] && v[j] == p[j]; } else { assert v[i] == p[i]; }
        }
      } else {
        assert ValidIndices(adj, threshold) == p;
      }
    }
  }

  /** The adjustment loop over the displayed ids: a copy of the scores, raised or lowered in place. */
  method AdjustScores(c: Customer, displayed: seq<int>, scores: seq<real>, m: MarketState) returns (adj: seq<real>)
    requires |scores| == |displayed|
    ensures adj == old(Adjusted(c.history, m, displayed, scores))
  {
    adj := scores;
    var i := 0;
    while i < |displayed|
      invariant 0 <= i <= |displayed| && |adj| == |scores|
      invariant forall k :: 0 <= k < i ==>
        adj[k] == scores[k] + HistoryAdjustment(c.history, displayed[k]) + InventoryBonus(m, displayed[k])
      invariant forall k :: i <= k < |adj| ==> adj[k] == scores[k]
    {
      var si := Interaction(c.history, displayed[i]);
      if si.reservations > 0 {
        var successRate := si.successes as real / si.reservations as real;
        adj := adj[i := adj[i] + successRate * 1.5];
        if si.cancellations > 0 {
          var cancelRate := si.cancellations as real / si.reservations as real;
          adj := adj[i := adj[i] - cancelRate * 2.0];
        }
      }
      assert adj[i] == scores[i] + HistoryAdjustment(c.history, displayed[i]);
      var store := m.GetRestaurant(displayed[i]);
      if store != null {
        var safety := MinR(1.0, store.estimatedBags as real / 12.0);
        adj := adj[i := adj[i] + safety * 0.3];
      }
      i := i + 1;
    }
  }

  /** The filter loop: the acceptable positions and their adjusted scores. */
  method FilterValid(adj: seq<real>, threshold: real) returns (indices: seq<int>, valid: seq<real>)
    ensures indices == ValidIndices(adj, threshold)
    ensures valid == Gathered(adj, indices)
  {
    indices, valid := [], [];
    var i := 0;
    while i < |adj|
      invariant 0 <= i <= |adj|
      invariant indices == ValidIndices(adj[..i], threshold)
      invariant |valid| == |indices| && forall k :: 0 <= k < |indices| ==> valid[k] == adj[indices[k]]
    {
      assert adj[..i + 1][..i] == adj[..i];
      if adj[i] >= threshold && adj[i] > -50.0 {
        indices := indices + [i];
        valid := valid + [adj[i]];
      }
      i := i + 1;
    }
    assert adj[..i] == adj;
  }

  /** The entries of `adj` at the given positions. */
  function Gathered(adj: seq<real>, v: seq<int>): (g: seq<real>)
    requires forall k :: 0 <= k < |v| ==> 0 <= v[k] < |adj|
    ensures |g| == |v| && forall k :: 0 <= k < |v| ==> g[k] == adj[v[k]]
  {
    if v == [] then [] else Gathered(adj, v[..|v| - 1]) + [adj[v[|v| - 1]]]
  }

  // ------------------------------------------------- the softmax draw

  /** The sum of a list of reals, added front to back. */
  function SumR(s: seq<real>): real {
    if s == [] then 0.0 else SumR(s[..|s| - 1]) + s[|s| - 1]
  }

  /** The unnormalised softmax weights at temperature 2, shifted so the lowest score gets `exp(1/2)`. */
  function SoftmaxWeights(scores: seq<real>, low: real, exp: real -> real): (w: seq<real>)
    ensures |w| == |scores|
    ensures forall i :: 0 <= i < |w| ==> w[i] == exp((scores[i] - low + 1.0) / 2.0)
  {
    if scores == [] then []
    else
      var k := |scores| - 1;
      SoftmaxWeights(scores[..k], low, exp) + [exp((scores[k] - low + 1.0) / 2.0)]
  }

  /** Each weight divided by the total. */
  function Normalised(w: seq<real>, total: real): (p: seq<real>)
    ensures |p| == |w| && forall i :: 0 <= i < |p| ==> p[i] == Div(w[i], total)
  {
    if w == [] then [] else Normalised(w[..|w| - 1], total) + [Div(w[|w| - 1], total)]
  }

  /** The selection probabilities of the acceptable stores. */
  function Softmax(scores: seq<real>, exp: real -> real): (p: seq<real>)
    requires |scores| > 0
    ensures |p| == |scores|
  {
    var w := SoftmaxWeights(scores, MinOf(scores), exp);
    Normalised(w, SumR(w))
  }

  /** A non-empty list of positive reals has a positive sum. */
  lemma {:induction false} PositiveSum(w: seq<real>)
    requires forall i :: 0 <= i < |w| ==> w[i] > 0.0
    ensures |w| > 0 ==> SumR(w) > 0.0
    ensures SumR(w) >= 0.0
  {
    if w != [] {
      PositiveSum(w[..|w| - 1]);
    }
  }

  /** The walk of the cumulative probabilities from position `i`: the first position whose running sum reaches the draw, or the last. */
  function DrawFrom(p: seq<real>, draw: real, i: int): (k: int)
    requires 0 <= i < |p|
    ensures i <= k < |p|
    ensures draw <= SumR(p[..k + 1]) || k == |p| - 1
    ensures forall j :: i < j <= k ==> draw > SumR(p[..j])
    decreases |p| - i
  {
    if draw <= SumR(p[..i + 1]) || i == |p| - 1 then i else DrawFrom(p, draw, i + 1)
  }

  /** The weighted choice loop. */
  method PickByDraw(p: seq<real>, draw: real) returns (k: int)
    requires |p| > 0
    ensures k == DrawFrom(p, draw, 0)
  {
    var cumulative := 0.0;
    var i := 0;
    while i < |p|
      invariant 0 <= i <= |p|
      invariant cumulative == SumR(p[..i])
      invariant i < |p| ==> DrawFrom(p, draw, 0) == DrawFrom(p, draw, i)
      invariant i == |p| ==> DrawFrom(p, draw, 0) == |p| - 1
    {
      assert p[..i + 1][..i] == p[..i];
      cumulative := cumulative + p[i];
      if draw <= cumulative {
        return i;
      }
      i := i + 1;
    }
    return |p| - 1;
  }

  /** Normalised weights sum to one, so a draw of at most 1 always reaches the running sum before the fallback. */
  lemma NormalisedSumsToOne(w: seq<real>)
    requires forall i :: 0 <= i < |w| ==> w[i] > 0.0
    requires |w| > 0
    ensures SumR(w) > 0.0 && SumR(Normalised(w, SumR(w))) == 1.0
  {
    PositiveSum(w);
    var t := SumR(w);
    NormalisedSum(w, t);
    DivSelf(t);
  }

  lemma DivSelf(t: real)
    requires t != 0.0
    ensures t / t == 1.0
  {
  }

  lemma {:induction false} NormalisedSum(w: seq<real>, total: real)
    requires total != 0.0
    ensures SumR(Normalised(w, total)) == SumR(w) / total
  {
    if w != [] {
      var k := |w| - 1;
      var a, b := SumR(w[..k]), w[k];
      assert Normalised(w, total)[..k] == Normalised(w[..k], total);
      NormalisedSum(w[..k], total);
      DivAdd(a, b, total);
    }
  }

  lemma DivAdd(a: real, b: real, t: real)
    requires t != 0.0
    ensures a / t + b / t == (a + b) / t
  {
  }

  /** A larger draw never picks an earlier position. */
  lemma DrawMonotone(p: seq<real>, d1: real, d2: real)
    requires |p| > 0 && d1 <= d2
    ensures DrawFrom(p, d1, 0) <= DrawFrom(p, d2, 0)
  {
  }

  /** With normalised positive weights, the fallback to the last store is taken only by draws above 1. */
  lemma DrawReachesBeforeFallback(w: seq<real>, draw: real)
    requires |w| > 0 && forall i :: 0 <= i < |w| ==> w[i] > 0.0
    requires draw <= 1.0
    ensures SumR(w) > 0.0 &&
      var p := Normalised(w, SumR(w));
      draw <= SumR(p[..DrawFrom(p, draw, 0) + 1])
  {
    NormalisedSumsToOne(w);
    var p := Normalised(w, SumR(w));
    assert p[..|p|] == p;
  }

  /** The softmax loops: weights and their total, then the normalisation. */
  method SoftmaxProbabilities(scores: seq<real>, exp: real -> real) returns (p: seq<real>)
    requires |scores| > 0
    ensures p == Softmax(scores, exp)
  {
    var low := MinOf(scores);
    var w: seq<real> := [];
    var total := 0.0;
    var i := 0;
    while i < |scores|
      invariant 0 <= i <= |scores| && |w| == i
      invariant forall k :: 0 <= k < i ==> w[k] == exp((scores[k] - low + 1.0) / 2.0)
      invariant total == SumR(w)
    {
      var e := exp((scores[i] - low + 1.0) / 2.0);
      assert (w + [e])[..i] == w;
      w := w + [e];
      total := total + e;
      i := i + 1;
    }
    assert w == SoftmaxWeights(scores, low, exp);
    p := [];
    var j := 0;
    while j < |w|
      invariant 0 <= j <= |w|
      invariant p == Normalised(w[..j], total)
    {
      assert w[..j + 1][..j] == w[..j];
      p := p + [Div(w[j], total)];
      j := j + 1;
    }
    assert w[..j] == w;
  }

  /** `probabilistic_select`: the store at the acceptable position the draw lands on; `draw` stands for the uniform random value. */
  method ProbabilisticSelect(storeIds: seq<int>, validIndices: seq<int>, validScores: seq<real>, draw: real,
                             exp: real -> real)
    returns (id: int)
    requires |validScores| == |validIndices| > 0
    requires forall k :: 0 <= k < |validIndices| ==> 0 <= validIndices[k] < |storeIds|
    ensures id == storeIds[validIndices[DrawFrom(Softmax(validScores, exp), draw, 0)]]
  {
    var p := SoftmaxProbabilities(validScores, exp);
    var k := PickByDraw(p, draw);
    id := storeIds[validIndices[k]];
  }

  // ------------------------------------------------- select_store

  /** The drawn store among the acceptable positions of the adjusted scores; -1 when none is acceptable. */
  function Chosen(displayed: seq<int>, adj: seq<real>, threshold: real, draw: real, exp: real -> real): (id: int)
    requires |adj| == |displayed|
    ensures id == -1 || exists i :: 0 <= i < |displayed| && displayed[i] == id && Acceptable(adj[i], threshold)
    ensures ValidIndices(adj, threshold) == [] ==> id == -1
  {
    var v := ValidIndices(adj, threshold);
    if v == [] then -1
    else
      var k := DrawFrom(Softmax(Gathered(adj, v), exp), draw, 0);
      displayed[v[k]]
  }

  /** What `select_store` decides: -1 to leave, otherwise the drawn acceptable store. */
  function Choice(c: Customer, m: MarketState, displayed: seq<int>, scores: seq<real>, draw: real, exp: real -> real): int
    requires |scores| == |displayed|
    reads c`leavingThreshold, c`loyalty, c`history, m`restaurants, m.restaurants
  {
    if |scores| == 0 || MaxOf(scores) < Threshold(c) then -1
    else Chosen(displayed, Adjusted(c.history, m, displayed, scores), Threshold(c), draw, exp)
  }

  /**
   * The customer leaves when nothing is displayed or the best raw score is
   * below the threshold; a store chosen is a displayed one whose adjusted
   * score is acceptable.
   */
  lemma ChoiceProps(c: Customer, m: MarketState, displayed: seq<int>, scores: seq<real>, draw: real, exp: real -> real)
    requires |scores| == |displayed|
    ensures scores == [] || MaxOf(scores) < Threshold(c) ==> Choice(c, m, displayed, scores, draw, exp) == -1
    ensures var sel := Choice(c, m, displayed, scores, draw, exp);
      sel != -1 ==> exists i :: 0 <= i < |displayed| && displayed[i] == sel &&
                      Acceptable(Adjusted(c.history, m, displayed, scores)[i], Threshold(c))
  {
  }

  /** The choice is -1 or a displayed store, and -1 when nothing is displayed. */
  lemma ChoiceShown(c: Customer, m: MarketState, displayed: seq<int>, scores: seq<real>, draw: real, exp: real -> real)
    requires |scores| == |displayed|
    ensures Choice(c, m, displayed, scores, draw, exp) == -1 || Choice(c, m, displayed, scores, draw, exp) in displayed
    ensures displayed == [] ==> Choice(c, m, displayed, scores, draw, exp) == -1
  {
    ChoiceProps(c, m, displayed, scores, draw, exp);
  }

  /** The acceptable positions, then the draw among them. */
  method ChooseAmong(displayed: seq<int>, adj: seq<real>, threshold: real, draw: real, exp: real -> real)
    returns (selected: int)
    requires |adj| == |displayed|
    ensures selected == Chosen(displayed, adj, threshold, draw, exp)
  {
    var indices, valid := FilterValid(adj, threshold);
    if |valid| == 0 {
      return -1;
    }
    selected := ProbabilisticSelect(displayed, indices, valid, draw, exp);
  }

  /** `select_store`. */
  method SelectStore(c: Customer, displayed: seq<int>, scores: seq<real>, m: MarketState, draw: real, exp: real -> real)
    returns (selected: int)
    requires |scores| == |displayed|
    ensures selected == old(Choice(c, m, displayed, scores, draw, exp))
  {
    if |scores| == 0 {
      return -1;
    }
    var threshold := Threshold(c);
    if MaxOf(scores) < threshold {
      return -1;
    }
    ghost var want := Chosen(displayed, Adjusted(c.history, m, displayed, scores), threshold, draw, exp);
    assert Choice(c, m, displayed, scores, draw, exp) == want;
    var adj := AdjustScores(c, displayed, scores, m);
    selected := ChooseAmong(displayed, adj, threshold, draw, exp);
  }

  // ------------------------------------------------- create_reservation

  /** Reservation ids are all below the next id and pairwise different. */
  ghost predicate FreshIds(reservations: seq<Reservation>, next: int) {
    && (forall i :: 0 <= i < |reservations| ==> reservations[i].reservationId < next)
    && (forall i, j :: 0 <= i < j < |reservations| ==> reservations[i].reservationId != reservations[j].reservationId)
  }

  /** Appending a reservation under the next id, and moving the next id on, keeps the ids fresh. */
  lemma AppendKeepsFreshIds(reservations: seq<Reservation>, next: int, r: Reservation)
    requires FreshIds(reservations, next) && r.reservationId == next
    ensures FreshIds(reservations + [r], next + 1)
  {
  }

  /**
   * `create_reservation`: nothing changes when the store is missing or cannot
   * accept; otherwise a pending reservation is logged under the next id, the
   * next id moves on, the store's reserved count goes up by one and the
   * customer's history records the attempt.
   */
  method CreateReservation(customer: Customer, restaurantId: int, market: MarketState) returns (success: bool)
    modifies market`nextReservationId, market`reservations, customer`history
    modifies (set r | r in market.restaurants)`reservedCount
    ensures var s := market.FindRestaurant(restaurantId);
      success <==> s != null && old(s.CanAcceptReservation())
    ensures forall r :: r in old(market.restaurants) ==>
      r.reservedCount == old(r.reservedCount) + (if success && r == market.FindRestaurant(restaurantId) then 1 else 0)
    ensures !success ==> market.reservations == old(market.reservations)
                         && market.nextReservationId == old(market.nextReservationId)
                         && customer.history == old(customer.history)
    ensures success ==>
      && market.reservations == old(market.reservations)
           + [NewReservation(old(market.nextReservationId), customer.id, restaurantId, market.currentTime)]
      && market.nextReservationId == old(market.nextReservationId) + 1
      && customer.history == WithAttempt(old(customer.history), restaurantId,
                                         market.FindRestaurant(restaurantId).businessType, market.currentTime)
  {
    var restaurant := market.GetRestaurant(restaurantId);
    if restaurant == null || !restaurant.CanAcceptReservation() {
      return false;
    }
    var res := NewReservation(market.nextReservationId, customer.id, restaurantId, market.currentTime);
    market.nextReservationId := market.nextReservationId + 1;
    customer.RecordReservationAttempt(restaurantId, restaurant.businessType, market.currentTime);
    restaurant.reservedCount := restaurant.reservedCount + 1;
    market.reservations := market.reservations + [res];
    return true;
  }

  // ------------------------------------------------- process_customer_arrival

  /** The customer's decision once the display is known: scores, then `select_store`. */
  method Decide(customer: Customer, market: MarketState, displayed: seq<int>, sqrt: real -> real, draw: real,
                exp: real -> real)
    returns (scores: seq<real>, selected: int)
    ensures |scores| == |displayed|
    ensures forall i :: 0 <= i < |displayed| ==> scores[i] == DisplayedScore(customer, market, displayed[i], sqrt)
    ensures selected == old(Choice(customer, market, displayed, scores, draw, exp))
    ensures selected == -1 || selected in displayed
    ensures displayed == [] ==> selected == -1
  {
    scores := CalculateStoreScores(customer, displayed, market, sqrt);
    ChoiceShown(customer, market, displayed, scores, draw, exp);
    selected := SelectStore(customer, displayed, scores, market, draw, exp);
  }

  /**
   * The strategy's display for an arriving customer, with its promise stated
   * on the state the customer arrived in: `scored` is what Harmony scored
   * (the available stores in radius) and `displayedCounts` the impressions
   * the strategy left.
   */
  method ShowPromised(customer: Customer, market: MarketState, n: int, algorithm: RankingAlgorithm,
                      sqrt: real -> real, ln: real -> real)
    returns (shown: seq<int>, ghost scored: seq<int>, ghost displayedCounts: map<int, int>)
    requires n >= 0
    modifies market`impressionCounts
    ensures ShowsAvailable(market, shown)
    ensures |shown| <= Max(n, 1) && (!algorithm.Amer? ==> |shown| <= n)
    ensures scored == old(ScoredIds(customer, market, market.impressionCounts, AvgImpressions(market.impressionCounts), sqrt))
    ensures forall x :: x in scored <==> old(x in AvailableOf(market.restaurants) && InRadius(customer, market, x, sqrt))
    ensures old(StrategyPromise(algorithm, customer, market, n, sqrt, ln, market.impressionCounts, scored, displayedCounts,
                                shown))
    ensures displayedCounts == market.impressionCounts
    ensures forall x :: x in market.impressionCounts <==>
              x in old(market.impressionCounts) || old(ReadsImpressions(algorithm, customer, market, x, sqrt))
    ensures forall x :: Impressions(market.impressionCounts, x) ==
              Impressions(old(market.impressionCounts), x) + (if algorithm.Harmony? then Occurrences(shown, x) else 0)
  {
    ghost var counts := market.impressionCounts;
    scored := ScoredIds(customer, market, counts, AvgImpressions(counts), sqrt);
    KeptInRadius(counts, AvgImpressions(counts), customer, market, AvailableOf(market.restaurants), sqrt);
    shown := GetDisplayedStores(customer, market, n, algorithm, sqrt, ln);
    displayedCounts := market.impressionCounts;
    PromiseIgnoresVisits(Viewing(customer, market, sqrt));
  }

  /**
   * The display of an arrival and its impressions: the strategy's display,
   * then one more impression for every displayed store on top of what the
   * strategy recorded itself, so a Harmony display counts twice. The counts
   * gain an entry for every store the strategy read or the display shows,
   * and no decision of the customer depends on them.
   */
  method ShowAndCount(customer: Customer, market: MarketState, n: int, algorithm: RankingAlgorithm,
                      sqrt: real -> real, ln: real -> real)
    returns (shown: seq<int>, ghost scored: seq<int>, ghost displayedCounts: map<int, int>)
    requires n >= 0
    modifies market`impressionCounts
    ensures ShowsAvailable(market, shown)
    ensures |shown| <= Max(n, 1) && (!algorithm.Amer? ==> |shown| <= n)
    ensures scored == old(ScoredIds(customer, market, market.impressionCounts, AvgImpressions(market.impressionCounts), sqrt))
    ensures forall x :: x in scored <==> old(x in AvailableOf(market.restaurants) && InRadius(customer, market, x, sqrt))
    ensures old(StrategyPromise(algorithm, customer, market, n, sqrt, ln, market.impressionCounts, scored, displayedCounts,
                                shown))
    ensures forall x :: x in market.impressionCounts <==>
              x in old(market.impressionCounts) || x in shown || old(ReadsImpressions(algorithm, customer, market, x, sqrt))
    ensures forall x :: Impressions(market.impressionCounts, x) ==
              Impressions(old(market.impressionCounts), x) + (if algorithm.Harmony? then 2 else 1) * Occurrences(shown, x)
    ensures forall ids: seq<int>, sc: seq<real>, draw: real, exp: real -> real | |sc| == |ids| ::
              Choice(customer, market, ids, sc, draw, exp) == old(Choice(customer, market, ids, sc, draw, exp))
  {
    shown, scored, displayedCounts := ShowPromised(customer, market, n, algorithm, sqrt, ln);
    BumpImpressions(market, shown);
    CountsAfterShowing(algorithm, old(market.impressionCounts), displayedCounts, shown, market.impressionCounts);
  }

  /**
   * `record_visit`: one more visit, which changes neither how the customer
   * scores a store, nor what the customer would choose, nor which stores a
   * strategy keeps and how it ranks them, so the display built after the
   * visit keeps every promise it would have kept before it.
   */
  method RecordVisit(customer: Customer, market: MarketState, sqrt: real -> real)
    modifies customer`history
    ensures customer.history == old(customer.history).(visits := old(customer.history.visits) + 1)
    ensures forall id :: DisplayedScore(customer, market, id, sqrt) == old(DisplayedScore(customer, market, id, sqrt))
    ensures forall ids: seq<int>, sc: seq<real>, draw: real, exp: real -> real | |sc| == |ids| ::
              Choice(customer, market, ids, sc, draw, exp) == old(Choice(customer, market, ids, sc, draw, exp))
    ensures forall algorithm, n, ln, counts, scored, after, r | n >= 0 ::
              StrategyPromise(algorithm, customer, market, n, sqrt, ln, counts, scored, after, r) ==
              old(StrategyPromise(algorithm, customer, market, n, sqrt, ln, counts, scored, after, r))
  {
    customer.RecordVisit();
    forall id
      ensures DisplayedScore(customer, market, id, sqrt) == old(DisplayedScore(customer, market, id, sqrt))
    {
      var s := market.FindRestaurant(id);
      if s != null {
        ScoreIgnoresVisits(customer.weights, old(customer.history), customer.history, customer.willingnessToPay,
                           s.GetRating(), s.pricePerBag, s.businessType, customer.DistanceTo(s, sqrt));
      }
    }
    forall ids: seq<int>, sc: seq<real>, draw: real, exp: real -> real | |sc| == |ids|
      ensures Choice(customer, market, ids, sc, draw, exp) == old(Choice(customer, market, ids, sc, draw, exp))
    {
      assert Threshold(customer) == old(Threshold(customer));
      assert Adjusted(old(customer.history), market, ids, sc) == old(Adjusted(customer.history, market, ids, sc));
      AdjustedIgnoresVisits(old(customer.history), customer.history.visits, market, ids, sc);
    }
    PromiseIgnoresVisits(Viewing(customer, market, sqrt));
  }

  /**
   * The first half of an arrival: one visit recorded, then the display and
   * its impressions. The display keeps the strategy's promise as stated on
   * the state the customer arrived in, and Harmony's `scored` ids are the
   * available stores within the radius. Neither the visit nor the
   * impressions change how the customer scores a store or which store the
   * customer would choose. (The promise is written under
   * `forall a | a == algorithm`, the same statement, so that a caller
   * unfolds it only where it is used.)
   */
  method ShowStores(customer: Customer, market: MarketState, n: int, algorithm: RankingAlgorithm,
                    sqrt: real -> real, ln: real -> real)
    returns (shown: seq<int>, ghost scored: seq<int>, ghost displayedCounts: map<int, int>)
    requires n >= 0
    modifies customer`history, market`impressionCounts
    ensures ShowsAvailable(market, shown)
    ensures |shown| <= Max(n, 1) && (!algorithm.Amer? ==> |shown| <= n)
    ensures forall x :: x in scored <==> old(x in AvailableOf(market.restaurants) && InRadius(customer, market, x, sqrt))
    ensures customer.history == old(customer.history).(visits := old(customer.history.visits) + 1)
    ensures forall x :: x in market.impressionCounts <==>
              x in old(market.impressionCounts) || x in shown || old(ReadsImpressions(algorithm, customer, market, x, sqrt))
    ensures forall x :: Impressions(market.impressionCounts, x) ==
              Impressions(old(market.impressionCounts), x) + (if algorithm.Harmony? then 2 else 1) * Occurrences(shown, x)
    ensures forall id :: DisplayedScore(customer, market, id, sqrt) == old(DisplayedScore(customer, market, id, sqrt))
    ensures forall ids: seq<int>, sc: seq<real>, draw: real, exp: real -> real | |sc| == |ids| ::
              Choice(customer, market, ids, sc, draw, exp) == old(Choice(customer, market, ids, sc, draw, exp))
    ensures forall id :: market.FindRestaurant(id) == old(market.FindRestaurant(id))
    ensures forall r :: r in market.restaurants ==> r.CanAcceptReservation() == old(r.CanAcceptReservation())
    ensures forall a | a == algorithm ::
              old(StrategyPromise(a, customer, market, n, sqrt, ln, market.impressionCounts, scored, displayedCounts, shown))
  {
    RecordVisit(customer, market, sqrt);
    assert AvailableOf(market.restaurants) == old(AvailableOf(market.restaurants));
    assert forall x :: InRadius(customer, market, x, sqrt) == old(InRadius(customer, market, x, sqrt));
    shown, scored, displayedCounts := ShowAndCount(customer, market, n, algorithm, sqrt, ln);
  }

  /**
   * The end of an arrival once the customer has made a `choice`: a refusal
   * (-1) or a failed reservation mark the customer churned and return -1;
   * otherwise the chosen store is reserved and returned.
   */
  method Reserve(customer: Customer, market: MarketState, choice: int) returns (selected: int)
    modifies customer`history, customer`churned, market`nextReservationId, market`reservations
    modifies (set r | r in market.restaurants)`reservedCount
    ensures selected == if choice != -1 && old(market.FindRestaurant(choice) != null && market.FindRestaurant(choice).CanAcceptReservation())
                        then choice else -1
    ensures selected == -1 ==> customer.churned
    ensures selected != -1 ==> customer.churned == old(customer.churned)
    ensures forall r :: r in old(market.restaurants) ==>
              r.reservedCount == old(r.reservedCount) + (if selected != -1 && r == market.FindRestaurant(selected) then 1 else 0)
    ensures selected == -1 ==> && customer.history == old(customer.history)
                               && market.reservations == old(market.reservations)
                               && market.nextReservationId == old(market.nextReservationId)
    ensures selected != -1 ==>
      && market.reservations == old(market.reservations)
           + [NewReservation(old(market.nextReservationId), customer.id, selected, market.currentTime)]
      && market.nextReservationId == old(market.nextReservationId) + 1
      && market.FindRestaurant(selected) != null
      && customer.history == WithAttempt(old(customer.history), selected,
                                         market.FindRestaurant(selected).businessType, market.currentTime)
  {
    if choice == -1 {
      customer.churned := true;
      return -1;
    }
    var success := CreateReservation(customer, choice, market);
    if !success {
      customer.churned := true;
      return -1;
    }
    selected := choice;
  }

  /**
   * The second half of an arrival, after the display `shown`: an empty
   * display, a refusal or a failed reservation mark the customer churned and
   * return -1; otherwise the chosen store is reserved and returned.
   * `scores` are the scores the customer gave the display.
   */
  method ChooseAndReserve(customer: Customer, market: MarketState, shown: seq<int>, sqrt: real -> real,
                          exp: real -> real, draw: real)
    returns (selected: int, ghost scores: seq<real>, ghost choice: int)
    modifies customer`history, customer`churned, market`nextReservationId, market`reservations
    modifies (set r | r in market.restaurants)`reservedCount
    ensures |scores| == |shown|
    ensures forall i :: 0 <= i < |shown| ==> scores[i] == old(DisplayedScore(customer, market, shown[i], sqrt))
    ensures choice == old(Choice(customer, market, shown, scores, draw, exp))
    ensures selected == if choice != -1 && old(market.FindRestaurant(choice) != null && market.FindRestaurant(choice).CanAcceptReservation())
                        then choice else -1
    ensures selected == -1 || selected in shown
    ensures shown == [] ==> selected == -1
    ensures selected == -1 ==> customer.churned
    ensures selected != -1 ==> customer.churned == old(customer.churned)
    ensures forall r :: r in old(market.restaurants) ==>
              r.reservedCount == old(r.reservedCount) + (if selected != -1 && r == market.FindRestaurant(selected) then 1 else 0)
    ensures selected == -1 ==> && customer.history == old(customer.history)
                               && market.reservations == old(market.reservations)
                               && market.nextReservationId == old(market.nextReservationId)
    ensures selected != -1 ==>
      && market.reservations == old(market.reservations)
           + [NewReservation(old(market.nextReservationId), customer.id, selected, market.currentTime)]
      && market.nextReservationId == old(market.nextReservationId) + 1
      && market.FindRestaurant(selected) != null
      && customer.history == WithAttempt(old(customer.history), selected,
                                         market.FindRestaurant(selected).businessType, market.currentTime)
  {
    scores, choice := [], -1;
    if shown == [] {
      customer.churned := true;
      return -1, scores, choice;
    }
    var picked;
    scores, picked := Decide(customer, market, shown, sqrt, draw, exp);
    choice := picked;
    selected := Reserve(customer, market, picked);
  }

  /** The strategy's own impression bookkeeping, then one more impression per store shown. */
  lemma CountsAfterShowing(algorithm: RankingAlgorithm, counts: map<int, int>, displayedCounts: map<int, int>,
                           shown: seq<int>, final: map<int, int>)
    requires forall x :: Impressions(displayedCounts, x) ==
               Impressions(counts, x) + (if algorithm.Harmony? then Occurrences(shown, x) else 0)
    requires final == Bumped(displayedCounts, shown)
    ensures forall x :: x in final <==> x in displayedCounts || x in shown
    ensures forall x :: Impressions(final, x) ==
              Impressions(counts, x) + (if algorithm.Harmony? then 2 else 1) * Occurrences(shown, x)
  {
    forall x
      ensures Impressions(final, x) == Impressions(displayedCounts, x) + Occurrences(shown, x)
    {
      OccurrencesPositive(shown, x);
    }
  }

  /**
   * `process_customer_arrival`: one visit is recorded; the display is built
   * and every displayed store gets one more impression on top of what the
   * strategy recorded; an empty display, a refusal or a failed reservation
   * mark the customer churned and return -1; otherwise the chosen displayed
   * store is reserved and returned. `displayed` is the display the customer
   * saw, which keeps the strategy's promise on the arrival state and holds
   * at most N stores (one for Amer when N is 0: the nearest store), and `scores` the
   * scores the customer gave it.
   */
  method ProcessCustomerArrival(customer: Customer, market: MarketState, n: int, algorithm: RankingAlgorithm,
                                sqrt: real -> real, ln: real -> real, exp: real -> real, draw: real)
    returns (selected: int, ghost displayed: seq<int>, ghost scores: seq<real>, ghost choice: int,
             ghost scored: seq<int>, ghost displayedCounts: map<int, int>)
    requires n >= 0
    modifies customer`history, customer`churned, market`impressionCounts, market`nextReservationId, market`reservations
    modifies (set r | r in market.restaurants)`reservedCount
    ensures forall a | a == algorithm ::
              old(StrategyPromise(a, customer, market, n, sqrt, ln, market.impressionCounts, scored, displayedCounts, displayed))
    ensures forall x :: x in displayed ==> x in old(AvailableOf(market.restaurants))
    ensures |scores| == |displayed|
    ensures forall i :: 0 <= i < |displayed| ==> scores[i] == old(DisplayedScore(customer, market, displayed[i], sqrt))
    ensures choice == old(Choice(customer, market, displayed, scores, draw, exp))
    ensures selected == if choice != -1 && old(market.FindRestaurant(choice) != null && market.FindRestaurant(choice).CanAcceptReservation())
                        then choice else -1
    ensures selected == -1 || selected in displayed
    ensures displayed == [] ==> selected == -1
    ensures forall r :: r in old(market.restaurants) ==>
              r.reservedCount == old(r.reservedCount) + (if selected != -1 && r == market.FindRestaurant(selected) then 1 else 0)
    ensures selected == -1 ==> && customer.history == old(customer.history).(visits := old(customer.history.visits) + 1)
                               && market.reservations == old(market.reservations)
                               && market.nextReservationId == old(market.nextReservationId)
    ensures selected != -1 ==>
      && market.reservations == old(market.reservations)
           + [NewReservation(old(market.nextReservationId), customer.id, selected, market.currentTime)]
      && market.nextReservationId == old(market.nextReservationId) + 1
      && market.FindRestaurant(selected) != null
      && customer.history == WithAttempt(old(customer.history).(visits := old(customer.history.visits) + 1), selected,
                                         market.FindRestaurant(selected).businessType, market.currentTime)
    ensures selected == -1 ==> customer.churned
    ensures selected != -1 ==> customer.churned == old(customer.churned)
    ensures customer.history.visits == old(customer.history.visits) + 1
    ensures forall x :: x in market.impressionCounts <==>
              x in old(market.impressionCounts) || x in displayed || old(ReadsImpressions(algorithm, customer, market, x, sqrt))
    ensures forall x :: Impressions(market.impressionCounts, x) ==
              Impressions(old(market.impressionCounts), x) + (if algorithm.Harmony? then 2 else 1) * Occurrences(displayed, x)
    ensures |displayed| <= Max(n, 1) && (!algorithm.Amer? ==> |displayed| <= n)
    ensures forall x :: x in scored <==> old(x in AvailableOf(market.restaurants) && InRadius(customer, market, x, sqrt))
  {
    var shown;
    shown, scored, displayedCounts := ShowStores(customer, market, n, algorithm, sqrt, ln);
    displayed := shown;
    ghost var counts := market.impressionCounts;
    selected, scores, choice := ChooseAndReserve(customer, market, shown, sqrt, exp, draw);
    assert market.impressionCounts == counts;
  }
}
