// A customer of the marketplace (Customer.h / Customer.cpp): the personal
// utility of a store, the loyalty nudges, and the history counters.
module Customers {
  import opened Common
  import opened Timestamps
  import opened Restaurants

  /** Pickup radius in (flat, Euclidean) degrees. */
  const MaxTravelDistance: real := 0.05

  /** The score given to a store outside the pickup radius. */
  const TooFarScore: real := -100.0

  datatype Weights = Weights(ratingW: real, priceW: real, noveltyW: real)

  const DefaultWeights: Weights := Weights(1.0, 1.0, 0.5)

  datatype StoreInteraction = StoreInteraction(reservations: int, successes: int, cancellations: int)

  const NoInteraction: StoreInteraction := StoreInteraction(0, 0, 0)

  datatype CustomerHistory = CustomerHistory(
    visits: int,
    reservations: int,
    successes: int,
    cancellations: int,
    lastReservationTime: Timestamp,
    categoriesReserved: map<string, int>,
    storeInteractions: map<int, StoreInteraction>)

  const EmptyHistory: CustomerHistory := CustomerHistory(0, 0, 0, 0, Timestamp(0, 0), map[], map[])

  /** The interaction record with a store; a missing entry reads as all zeros. */
  function Interaction(h: CustomerHistory, storeId: int): StoreInteraction {
    if storeId in h.storeInteractions then h.storeInteractions[storeId] else NoInteraction
  }

  /** Times a category was reserved; a missing entry reads as zero. */
  function CategoryCount(h: CustomerHistory, category: string): int {
    if category in h.categoriesReserved then h.categoriesReserved[category] else 0
  }

  function PreferenceOf(m: map<string, real>, category: string): real {
    if category in m then m[category] else 0.0
  }

  const InitialPreferences: map<string, real> := map["bakery" := 1.0, "cafe" := 1.0, "restaurant" := 1.0]

  /** Squared flat distance between two (latitude, longitude) points. */
  function SquaredDistance(lat1: real, lon1: real, lat2: real, lon2: real): (d: real)
    ensures d >= 0.0
  {
    (lat2 - lat1) * (lat2 - lat1) + (lon2 - lon1) * (lon2 - lon1)
  }

  /** The novelty term: full weight for a category never reserved, damped by the count otherwise. */
  function Novelty(w: Weights, h: CustomerHistory, category: string): real {
    if category !in h.categoriesReserved then w.noveltyW * 1.0
    else w.noveltyW * Div(1.0, 1.0 + h.categoriesReserved[category] as real)
  }

  lemma NoveltyDamped(w: Weights, h: CustomerHistory, category: string)
    requires w.noveltyW > 0.0
    requires category in h.categoriesReserved && h.categoriesReserved[category] >= 0
    ensures 0.0 < Novelty(w, h, category) <= w.noveltyW
    ensures h.categoriesReserved[category] > 0 ==> Novelty(w, h, category) < w.noveltyW
  {
    var c := h.categoriesReserved[category] as real;
    assert Div(1.0, 1.0 + c) == 1.0 / (1.0 + c);
    assert 1.0 / (1.0 + c) <= 1.0;
    if c > 0.0 {
      assert 1.0 / (1.0 + c) < 1.0;
    }
  }

  /** A category reserved more often earns less novelty. */
  lemma NoveltyDecreasing(w: Weights, h: CustomerHistory, category: string, more: int)
    requires w.noveltyW > 0.0
    requires category in h.categoriesReserved && 0 <= h.categoriesReserved[category] < more
    ensures Novelty(w, h.(categoriesReserved := h.categoriesReserved[category := more]), category)
            < Novelty(w, h, category)
  {
    var c := h.categoriesReserved[category] as real;
    var m := more as real;
    ReciprocalDecreasing(1.0 + c, 1.0 + m);
  }

  lemma ReciprocalDecreasing(x: real, y: real)
    requires 0.0 < x < y
    ensures 1.0 / y < 1.0 / x
  {
    var a, b := 1.0 / x, 1.0 / y;
    assert a * x == 1.0 && b * y == 1.0;
    assert b * x < b * y;
  }

  /** The utility of a store at distance `d`, given the store's observable fields. */
  function ScoreAt(w: Weights, h: CustomerHistory, wtp: real, rating: real, price: real,
                   category: string, d: real): real
  {
    if d > MaxTravelDistance then TooFarScore
    else
      var ratingScore := w.ratingW * rating;
      var priceScore := Div(w.priceW * (wtp - price), wtp);
      var distanceScore := (1.0 - d / MaxTravelDistance) * 1.5;
      ratingScore + priceScore + Novelty(w, h, category) + distanceScore
  }

  /** A score depends on the history only through the categories reserved so far. */
  lemma ScoreIgnoresVisits(w: Weights, h: CustomerHistory, h': CustomerHistory, wtp: real, rating: real, price: real,
                           category: string, d: real)
    requires h'.categoriesReserved == h.categoriesReserved
    ensures ScoreAt(w, h', wtp, rating, price, category, d) == ScoreAt(w, h, wtp, rating, price, category, d)
  {
  }

  /** Outside the radius a store scores the sentinel; inside, the distance term lies in [0, 1.5]. */
  lemma ScoreAtBounds(w: Weights, h: CustomerHistory, wtp: real, rating: real, price: real,
                      category: string, d: real)
    requires d >= 0.0
    ensures d > MaxTravelDistance ==> ScoreAt(w, h, wtp, rating, price, category, d) == TooFarScore
    ensures d <= MaxTravelDistance ==>
      var base := w.ratingW * rating + Div(w.priceW * (wtp - price), wtp) + Novelty(w, h, category);
      base <= ScoreAt(w, h, wtp, rating, price, category, d) <= base + 1.5
  {
    if d <= MaxTravelDistance {
      var base := w.ratingW * rating + Div(w.priceW * (wtp - price), wtp) + Novelty(w, h, category);
      var t := (1.0 - d / MaxTravelDistance) * 1.5;
      assert d / MaxTravelDistance == 20.0 * d;
      assert 0.0 <= t <= 1.5;
      assert ScoreAt(w, h, wtp, rating, price, category, d) == base + t;
    }
  }

  /** A nearer store scores at least as much, everything else equal. */
  lemma ScoreAtNearerIsBetter(w: Weights, h: CustomerHistory, wtp: real, rating: real, price: real,
                              category: string, d1: real, d2: real)
    requires 0.0 <= d1 <= d2 <= MaxTravelDistance
    ensures ScoreAt(w, h, wtp, rating, price, category, d1) >= ScoreAt(w, h, wtp, rating, price, category, d2)
  {}

  /** Loyalty after one settled reservation. */
  function LoyaltyAfter(l: real, wasCancelled: bool): real {
    if wasCancelled then MaxR(0.0, l - 0.1) else MinR(1.0, l + 0.05)
  }

  /** Loyalty after a sequence of outcomes (true = cancelled). */
  function LoyaltyAfterAll(l: real, outcomes: seq<bool>): real {
    if outcomes == [] then l
    else LoyaltyAfter(LoyaltyAfterAll(l, outcomes[..|outcomes| - 1]), outcomes[|outcomes| - 1])
  }

  /** Loyalty inside [0, 1] stays inside [0, 1] after any sequence of outcomes. */
  lemma {:induction false} LoyaltyStaysInRange(l: real, outcomes: seq<bool>)
    requires 0.0 <= l <= 1.0
    ensures 0.0 <= LoyaltyAfterAll(l, outcomes) <= 1.0
  {
    if outcomes != [] {
      LoyaltyStaysInRange(l, outcomes[..|outcomes| - 1]);
    }
  }

  /** Loyalty after `n` cancellations in a row. */
  function LoyaltyAfterCancellations(l: real, n: nat): real {
    if n == 0 then l else LoyaltyAfter(LoyaltyAfterCancellations(l, n - 1), true)
  }

  /** n cancellations take 0.1 n off the loyalty, down to 0. */
  lemma {:induction false} LoyaltyAfterCancellationsClosedForm(l: real, n: nat)
    requires n >= 1
    ensures LoyaltyAfterCancellations(l, n) == MaxR(0.0, l - 0.1 * n as real)
  {
    if n > 1 {
      LoyaltyAfterCancellationsClosedForm(l, n - 1);
    }
  }

  /** A reservation attempt at a store in a category, at the given time. */
  function WithAttempt(h: CustomerHistory, storeId: int, category: string, time: Timestamp): (h': CustomerHistory)
    ensures h'.reservations == h.reservations + 1 && h'.lastReservationTime == time
    ensures CategoryCount(h', category) == CategoryCount(h, category) + 1
    ensures forall c :: c != category ==> CategoryCount(h', c) == CategoryCount(h, c)
    ensures Interaction(h', storeId).reservations == Interaction(h, storeId).reservations + 1
    ensures forall s :: s != storeId ==> Interaction(h', s) == Interaction(h, s)
    ensures h'.visits == h.visits && h'.successes == h.successes && h'.cancellations == h.cancellations
  {
    var si := Interaction(h, storeId);
    h.(reservations := h.reservations + 1,
       lastReservationTime := time,
       categoriesReserved := h.categoriesReserved[category := CategoryCount(h, category) + 1],
       storeInteractions := h.storeInteractions[storeId := si.(reservations := si.reservations + 1)])
  }

  /** A reservation confirmed at a store. */
  function WithSuccess(h: CustomerHistory, storeId: int): (h': CustomerHistory)
    ensures h'.successes == h.successes + 1
    ensures Interaction(h', storeId).successes == Interaction(h, storeId).successes + 1
    ensures forall s :: s != storeId ==> Interaction(h', s) == Interaction(h, s)
  {
    var si := Interaction(h, storeId);
    h.(successes := h.successes + 1,
       storeInteractions := h.storeInteractions[storeId := si.(successes := si.successes + 1)])
  }

  /** A reservation cancelled at a store. */
  function WithCancellation(h: CustomerHistory, storeId: int): (h': CustomerHistory)
    ensures h'.cancellations == h.cancellations + 1
    ensures Interaction(h', storeId).cancellations == Interaction(h, storeId).cancellations + 1
    ensures forall s :: s != storeId ==> Interaction(h', s) == Interaction(h, s)
  {
    var si := Interaction(h, storeId);
    h.(cancellations := h.cancellations + 1,
       storeInteractions := h.storeInteractions[storeId := si.(cancellations := si.cancellations + 1)])
  }

  /** The affinity map after `n` boosts of 0.1 to one category; an absent category starts from 0. */
  function Boosted(m: map<string, real>, category: string, n: nat): (m': map<string, real>)
    ensures PreferenceOf(m', category) == PreferenceOf(m, category) + 0.1 * n as real
    ensures forall c :: c != category ==> PreferenceOf(m', c) == PreferenceOf(m, c)
  {
    if n == 0 then m else m[category := PreferenceOf(m, category) + 0.1 * n as real]
  }

  /** Boosts add up. */
  lemma BoostedChain(m: map<string, real>, category: string, a: nat, b: nat)
    ensures Boosted(Boosted(m, category, a), category, b) == Boosted(m, category, a + b)
  {
    if a > 0 && b > 0 {
      assert PreferenceOf(Boosted(m, category, a), category) == PreferenceOf(m, category) + 0.1 * a as real;
    }
  }

  /** Cancellations add up. */
  lemma {:induction false} LoyaltyAfterCancellationsChain(l: real, a: nat, b: nat)
    ensures LoyaltyAfterCancellations(LoyaltyAfterCancellations(l, a), b) == LoyaltyAfterCancellations(l, a + b)
  {
    if b > 0 {
      LoyaltyAfterCancellationsChain(l, a, b - 1);
    }
  }

  class Customer {
    var id: int
    var longitude: real
    var latitude: real
    var customerName: string
    var segment: string
    var willingnessToPay: real
    var weights: Weights
    var loyalty: real
    var leavingThreshold: real
    var history: CustomerHistory
    var churned: bool
    var categoryPreference: map<string, real>
    var storeValuations: map<int, real>

    /** The default customer; its position is left unset, as in the program. */
    constructor Default()
      ensures id == 0 && customerName == "garry" && segment == "regular"
      ensures willingnessToPay == 200.0 && loyalty == 0.8 && leavingThreshold == 5.0
      ensures !churned && weights == DefaultWeights && history == EmptyHistory
      ensures categoryPreference == InitialPreferences && storeValuations == map[]
    {
      id, customerName, segment := 0, "garry", "regular";
      willingnessToPay, loyalty, leavingThreshold := 200.0, 0.8, 5.0;
      churned, weights, history := false, DefaultWeights, EmptyHistory;
      categoryPreference, storeValuations := InitialPreferences, map[];
    }

    /** A customer of a given segment; the name is the empty string and the position is left unset. */
    constructor WithSegment(customerId: int, seg: string)
      ensures id == customerId && customerName == "" && segment == seg
      ensures willingnessToPay == 200.0 && loyalty == 0.8 && leavingThreshold == 3.0
      ensures !churned && weights == DefaultWeights && history == EmptyHistory
      ensures categoryPreference == InitialPreferences && storeValuations == map[]
    {
      id, customerName, segment := customerId, "", seg;
      willingnessToPay, loyalty, leavingThreshold := 200.0, 0.8, 3.0;
      churned, weights, history := false, DefaultWeights, EmptyHistory;
      categoryPreference, storeValuations := InitialPreferences, map[];
    }

    /** The full constructor used by the customer generator. */
    constructor (id_: int, lon: real, lat: real, name: string, segment_: string, wtp: real,
                 ratingWeight: real, priceWeight: real, noveltyWeight: real, leavingThresh: real)
      ensures id == id_ && longitude == lon && latitude == lat && customerName == name
      ensures segment == segment_ && willingnessToPay == wtp
      ensures weights == Weights(ratingWeight, priceWeight, noveltyWeight)
      ensures loyalty == 0.8 && leavingThreshold == leavingThresh && !churned
      ensures history == EmptyHistory && categoryPreference == InitialPreferences
      ensures storeValuations == map[]
    {
      id, longitude, latitude, customerName := id_, lon, lat, name;
      segment, willingnessToPay := segment_, wtp;
      weights := Weights(ratingWeight, priceWeight, noveltyWeight);
      loyalty, leavingThreshold, churned := 0.8, leavingThresh, false;
      history, categoryPreference, storeValuations := EmptyHistory, InitialPreferences, map[];
    }

    /** Distance to a store; `sqrt` stands for the library square root. */
    function DistanceTo(store: Restaurant, sqrt: real -> real): real
      reads this`latitude, this`longitude, store`latitude, store`longitude
    {
      sqrt(SquaredDistance(latitude, longitude, store.latitude, store.longitude))
    }

    /** The personal utility of a store (calculate_store_score). */
    function CalculateStoreScore(store: Restaurant, sqrt: real -> real): (s: real)
      reads this, store
      ensures DistanceTo(store, sqrt) > MaxTravelDistance ==> s == TooFarScore
      ensures 0.0 <= DistanceTo(store, sqrt) <= MaxTravelDistance ==>
        var base := weights.ratingW * store.GetRating()
                    + Div(weights.priceW * (willingnessToPay - store.pricePerBag), willingnessToPay)
                    + Novelty(weights, history, store.businessType);
        base <= s <= base + 1.5
    {
      ScoreAt(weights, history, willingnessToPay, store.GetRating(), store.pricePerBag,
              store.businessType, DistanceTo(store, sqrt))
    }

    method UpdateLoyalty(wasCancelled: bool)
      modifies this`loyalty
      ensures loyalty == LoyaltyAfter(old(loyalty), wasCancelled)
      ensures 0.0 <= old(loyalty) <= 1.0 ==> 0.0 <= loyalty <= 1.0
    {
      if wasCancelled {
        loyalty := MaxR(0.0, loyalty - 0.1);
      } else {
        loyalty := MinR(1.0, loyalty + 0.05);
      }
    }

    /** Adds 0.1 to a category's affinity; a missing category starts from 0. */
    method UpdateCategoryPreference(category: string)
      modifies this`categoryPreference
      ensures categoryPreference == Boosted(old(categoryPreference), category, 1)
    {
      categoryPreference := categoryPreference[category := PreferenceOf(categoryPreference, category) + 0.1];
    }

    method RecordVisit()
      modifies this`history
      ensures history == old(history).(visits := old(history).visits + 1)
    {
      history := history.(visits := history.visits + 1);
    }

    method RecordReservationAttempt(storeId: int, category: string, time: Timestamp)
      modifies this`history
      ensures history == WithAttempt(old(history), storeId, category, time)
    {
      history := history.(reservations := history.reservations + 1);
      history := history.(lastReservationTime := time);
      history := history.(categoriesReserved := history.categoriesReserved[category := CategoryCount(history, category) + 1]);
      var si := Interaction(history, storeId);
      history := history.(storeInteractions := history.storeInteractions[storeId := si.(reservations := si.reservations + 1)]);
    }

    method RecordReservationSuccess(storeId: int, category: string)
      modifies this`history, this`categoryPreference
      ensures history == WithSuccess(old(history), storeId)
      ensures categoryPreference == Boosted(old(categoryPreference), category, 1)
    {
      history := history.(successes := history.successes + 1);
      var si := Interaction(history, storeId);
      history := history.(storeInteractions := history.storeInteractions[storeId := si.(successes := si.successes + 1)]);
      UpdateCategoryPreference(category);
    }

    method RecordReservationCancellation(storeId: int)
      modifies this`history, this`loyalty
      ensures history == WithCancellation(old(history), storeId)
      ensures loyalty == LoyaltyAfter(old(loyalty), true)
    {
      history := history.(cancellations := history.cancellations + 1);
      var si := Interaction(history, storeId);
      history := history.(storeInteractions := history.storeInteractions[storeId := si.(cancellations := si.cancellations + 1)]);
      UpdateLoyalty(true);
    }
  }
}
