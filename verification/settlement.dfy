// The end-of-day settlement described as values: which reservations a store
// settles, in which order, what the plan does to the log, and what the
// settled log means for a customer's history.
module Settlement {
  import opened Common
  import opened Timestamps
  import opened Reservations
  import opened ReservationLog
  import opened Customers
  import opened Sorting
  import opened Rationing

  /** Positions of a store's pending reservations, in log order. */
  function PendingOf(log: seq<Reservation>, storeId: int): (js: seq<int>)
    ensures forall t :: 0 <= t < |js| ==>
              0 <= js[t] < |log| && log[js[t]].restaurantId == storeId && log[js[t]].status == Pending
    ensures forall j :: 0 <= j < |log| && log[j].restaurantId == storeId && log[j].status == Pending ==> j in js
    ensures forall t, u :: 0 <= t < u < |js| ==> js[t] < js[u]
  {
    if log == [] then []
    else
      var n := |log| - 1;
      var init := PendingOf(log[..n], storeId);
      assert forall j :: 0 <= j < n ==> log[..n][j] == log[j];
      init + (if log[n].restaurantId == storeId && log[n].status == Pending then [n] else [])
  }

  /** Two logs that agree on a store's reservations list the same pending ones for it. */
  lemma {:induction false} PendingOfAgree(a: seq<Reservation>, b: seq<Reservation>, storeId: int)
    requires |a| == |b|
    requires forall j :: 0 <= j < |a| && (a[j].restaurantId == storeId || b[j].restaurantId == storeId) ==> a[j] == b[j]
    ensures PendingOf(a, storeId) == PendingOf(b, storeId)
  {
    if a != [] {
      PendingOfAgree(a[..|a| - 1], b[..|b| - 1], storeId);
    }
  }

  /** The pickup time of every reservation, in minutes since midnight. */
  function PickupTimes(log: seq<Reservation>): (ts: seq<int>)
    ensures |ts| == |log|
    ensures forall j :: 0 <= j < |log| ==> ts[j] == ToMinutes(log[j].reservationTime)
  {
    seq(|log|, j requires 0 <= j < |log| => ToMinutes(log[j].reservationTime))
  }

  /** The sort key of a reservation position: its pickup time. */
  function TimeKey(times: seq<int>): int -> real {
    j => if 0 <= j < |times| then times[j] as real else 0.0
  }

  /**
   * Whether `order` is an order in which a store may settle its pending
   * reservations: each of them exactly once, by non-decreasing pickup time.
   * The program sorts with std::sort, which promises no more than this:
   * reservations with the same pickup time may come in either order.
   */
  predicate SettlingOrder(log: seq<Reservation>, storeId: int, order: seq<int>) {
    && (forall t :: 0 <= t < |order| ==> 0 <= order[t] < |log|)
    && multiset(order) == multiset(PendingOf(log, storeId))
    && Ascending(order, TimeKey(PickupTimes(log)))
  }

  /** One order allowed for a store: its pending reservations sorted by pickup time, ties kept in log order. */
  function SettleOrder(log: seq<Reservation>, storeId: int): (order: seq<int>)
    ensures SettlingOrder(log, storeId, order)
    ensures Distinct(order)
    ensures forall t :: 0 <= t < |order| ==>
              0 <= order[t] < |log| && log[order[t]].restaurantId == storeId && log[order[t]].status == Pending
    ensures forall j :: 0 <= j < |log| && log[j].restaurantId == storeId && log[j].status == Pending ==> j in order
    ensures forall t, u :: 0 <= t < u < |order| ==>
              ToMinutes(log[order[t]].reservationTime) <= ToMinutes(log[order[u]].reservationTime)
  {
    var order := SortAsc(PendingOf(log, storeId), TimeKey(PickupTimes(log)));
    OrderFacts(log, storeId, order);
    order
  }

  /** A permutation of the store's pending reservations sorted by pickup time is an allowed order; it lists each of them once, by non-decreasing pickup time. */
  lemma OrderFacts(log: seq<Reservation>, storeId: int, order: seq<int>)
    requires multiset(order) == multiset(PendingOf(log, storeId))
    requires Ascending(order, TimeKey(PickupTimes(log)))
    ensures SettlingOrder(log, storeId, order)
    ensures Distinct(order)
    ensures forall t :: 0 <= t < |order| ==>
              0 <= order[t] < |log| && log[order[t]].restaurantId == storeId && log[order[t]].status == Pending
    ensures forall j :: 0 <= j < |log| && log[j].restaurantId == storeId && log[j].status == Pending ==> j in order
    ensures forall t, u :: 0 <= t < u < |order| ==>
              ToMinutes(log[order[t]].reservationTime) <= ToMinutes(log[order[u]].reservationTime)
  {
    var pending := PendingOf(log, storeId);
    assert Distinct(pending) by {
      forall t, u | 0 <= t < u < |pending|
        ensures pending[t] != pending[u]
      {
        assert pending[t] < pending[u];
      }
    }
    DistinctByMultiset(pending, order);
    SameElements(pending, order);
    forall t | 0 <= t < |order|
      ensures 0 <= order[t] < |log| && log[order[t]].restaurantId == storeId && log[order[t]].status == Pending
    {
      assert order[t] in pending;
    }
    AscendingByTime(log, order);
  }

  lemma SameElements(s: seq<int>, r: seq<int>)
    requires multiset(r) == multiset(s)
    ensures forall x :: x in r <==> x in s
  {
    forall x
      ensures x in r <==> x in s
    {
      assert x in r <==> x in multiset(r);
      assert x in s <==> x in multiset(s);
    }
  }

  lemma AscendingByTime(log: seq<Reservation>, order: seq<int>)
    requires forall t :: 0 <= t < |order| ==> 0 <= order[t] < |log|
    requires Ascending(order, TimeKey(PickupTimes(log)))
    ensures forall t, u :: 0 <= t < u < |order| ==>
              ToMinutes(log[order[t]].reservationTime) <= ToMinutes(log[order[u]].reservationTime)
  {
    var key := TimeKey(PickupTimes(log));
    forall t, u | 0 <= t < u < |order|
      ensures ToMinutes(log[order[t]].reservationTime) <= ToMinutes(log[order[u]].reservationTime)
    {
      assert key(order[t]) <= key(order[u]);
    }
  }

  /** Whether each reservation of the order belongs to a registered customer. */
  function PresentFlags<C>(log: seq<Reservation>, order: seq<int>, customers: map<int, C>): (present: seq<bool>)
    requires forall t :: 0 <= t < |order| ==> 0 <= order[t] < |log|
    ensures |present| == |order|
  {
    seq(|order|, t requires 0 <= t < |order| => log[order[t]].customerId in customers)
  }

  /** The plan a store with `actual` bags and the given cap follows when it settles in `order`. */
  function StorePlan<C>(log: seq<Reservation>, customers: map<int, C>, storeId: int, order: seq<int>,
                        actual: int, maxPer: int): (plan: seq<Decision>)
    requires SettlingOrder(log, storeId, order)
    ensures |plan| == |order|
  {
    Plan(PresentFlags(log, order, customers), actual, maxPer)
  }

  /** The settlement of one reservation by one decision. */
  function Apply(r: Reservation, d: Decision): (r': Reservation)
    ensures r' == r.(status := r'.status, bagsReceived := r'.bagsReceived)
  {
    match d
    case Confirm(bags) => r.(status := Confirmed, bagsReceived := bags)
    case Cancel => r.(status := Cancelled)
    case Skip => r
  }

  /** The log after the first `n` steps of a plan, step `t` settling position `order[t]` by `plan[t]`. */
  function ApplyPlan(log: seq<Reservation>, order: seq<int>, plan: seq<Decision>, n: nat): (log': seq<Reservation>)
    requires |order| == |plan| && n <= |order|
    requires forall t :: 0 <= t < |order| ==> 0 <= order[t] < |log|
    ensures |log'| == |log|
  {
    if n == 0 then log
    else ApplyPlan(log, order, plan, n - 1)[order[n - 1] := Apply(log[order[n - 1]], plan[n - 1])]
  }

  /** Following a plan settles each listed position by its own decision and leaves the rest alone. */
  lemma {:induction false} ApplyPlanEffect(log: seq<Reservation>, order: seq<int>, plan: seq<Decision>, n: nat)
    requires |order| == |plan| && n <= |order| && Distinct(order)
    requires forall t :: 0 <= t < |order| ==> 0 <= order[t] < |log|
    ensures forall t :: 0 <= t < n ==> ApplyPlan(log, order, plan, n)[order[t]] == Apply(log[order[t]], plan[t])
    ensures forall j :: 0 <= j < |log| && j !in order[..n] ==> ApplyPlan(log, order, plan, n)[j] == log[j]
  {
    if n > 0 {
      ApplyPlanEffect(log, order, plan, n - 1);
      forall t | 0 <= t < n - 1
        ensures ApplyPlan(log, order, plan, n)[order[t]] == Apply(log[order[t]], plan[t])
      {
        assert order[t] != order[n - 1];
      }
      forall j | 0 <= j < |log| && j !in order[..n]
        ensures ApplyPlan(log, order, plan, n)[j] == log[j]
      {
        assert order[..n] == order[..n - 1] + [order[n - 1]];
      }
    }
  }

  /** The next step of a plan finds its position as the log had it: no earlier step touched it. */
  lemma ApplyPlanNext(log: seq<Reservation>, order: seq<int>, plan: seq<Decision>, t: nat)
    requires |order| == |plan| && Distinct(order) && t < |order|
    requires forall u :: 0 <= u < |order| ==> 0 <= order[u] < |log|
    ensures ApplyPlan(log, order, plan, t)[order[t]] == log[order[t]]
  {
    ApplyPlanEffect(log, order, plan, t);
    assert order[t] !in order[..t];
  }

  /** A store's stock as the settlement sees it: its id, its real bags, and its cap per customer. */
  datatype Stock = Stock(id: int, actual: int, maxPer: int)

  /** The log once one store has settled its pending reservations, in `order`, by its plan. */
  function StoreDay<C>(log: seq<Reservation>, customers: map<int, C>, s: Stock, order: seq<int>): (log': seq<Reservation>)
    requires SettlingOrder(log, s.id, order)
    ensures |log'| == |log|
  {
    ApplyPlan(log, order, StorePlan(log, customers, s.id, order, s.actual, s.maxPer), |order|)
  }

  lemma StoreDayUnfold<C>(log: seq<Reservation>, customers: map<int, C>, s: Stock, order: seq<int>, plan: seq<Decision>)
    requires SettlingOrder(log, s.id, order)
    requires plan == StorePlan(log, customers, s.id, order, s.actual, s.maxPer)
    ensures StoreDay(log, customers, s, order) == ApplyPlan(log, order, plan, |order|)
  {
  }

  /**
   * A store's settlement, in any allowed order, only settles its own pending
   * reservations: each of them takes the decision of its place in the order,
   * and every other entry of the log is left alone.
   */
  lemma StoreDayEffect<C>(log: seq<Reservation>, customers: map<int, C>, s: Stock, order: seq<int>)
    requires SettlingOrder(log, s.id, order)
    ensures Settles(log, StoreDay(log, customers, s, order))
    ensures forall j :: 0 <= j < |log| && (log[j].restaurantId != s.id || log[j].status != Pending) ==>
              StoreDay(log, customers, s, order)[j] == log[j]
    ensures var plan := StorePlan(log, customers, s.id, order, s.actual, s.maxPer);
            forall t :: 0 <= t < |order| ==> StoreDay(log, customers, s, order)[order[t]] == Apply(log[order[t]], plan[t])
  {
    OrderFacts(log, s.id, order);
    var plan := StorePlan(log, customers, s.id, order, s.actual, s.maxPer);
    StoreDayUnfold(log, customers, s, order, plan);
    PlanSettles(log, order, plan);
  }

  /** Applying a whole plan over pending positions settles the log and touches nothing else. */
  lemma PlanSettles(log: seq<Reservation>, order: seq<int>, plan: seq<Decision>)
    requires |order| == |plan| && Distinct(order)
    requires forall t :: 0 <= t < |order| ==> 0 <= order[t] < |log| && log[order[t]].status == Pending
    ensures Settles(log, ApplyPlan(log, order, plan, |order|))
    ensures forall t :: 0 <= t < |order| ==> ApplyPlan(log, order, plan, |order|)[order[t]] == Apply(log[order[t]], plan[t])
    ensures forall j :: 0 <= j < |log| && j !in order ==> ApplyPlan(log, order, plan, |order|)[j] == log[j]
  {
    ApplyPlanEffect(log, order, plan, |order|);
    assert order[..|order|] == order;
    var day := ApplyPlan(log, order, plan, |order|);
    forall j | 0 <= j < |log|
      ensures log[j].status != Pending ==> day[j] == log[j]
      ensures day[j] == log[j].(status := day[j].status, bagsReceived := day[j].bagsReceived)
    {
      if j in order {
        var t :| 0 <= t < |order| && order[t] == j;
        assert day[j] == Apply(log[j], plan[t]);
      }
    }
  }

  // A store's settlement depends only on its own reservations and on the
  // pickup times: two logs that agree there allow the same orders and settle
  // the store alike in each of them.

  /** Logs that agree on a store's reservations and on every pickup time allow the same settling orders. */
  lemma SettlingOrderAgree(a: seq<Reservation>, b: seq<Reservation>, id: int, order: seq<int>)
    requires |a| == |b|
    requires forall j :: 0 <= j < |a| ==> a[j].reservationTime == b[j].reservationTime
    requires forall j :: 0 <= j < |a| && (a[j].restaurantId == id || b[j].restaurantId == id) ==> a[j] == b[j]
    ensures SettlingOrder(a, id, order) <==> SettlingOrder(b, id, order)
  {
    PendingOfAgree(a, b, id);
    assert PickupTimes(a) == PickupTimes(b);
  }

  /** ... and follow the same plan in each of them. */
  lemma StorePlanAgree<C>(a: seq<Reservation>, b: seq<Reservation>, customers: map<int, C>, s: Stock, order: seq<int>)
    requires |a| == |b|
    requires forall j :: 0 <= j < |a| ==> a[j].reservationTime == b[j].reservationTime
    requires forall j :: 0 <= j < |a| && (a[j].restaurantId == s.id || b[j].restaurantId == s.id) ==> a[j] == b[j]
    requires SettlingOrder(a, s.id, order)
    ensures SettlingOrder(b, s.id, order)
    ensures StorePlan(a, customers, s.id, order, s.actual, s.maxPer) == StorePlan(b, customers, s.id, order, s.actual, s.maxPer)
  {
    SettlingOrderAgree(a, b, s.id, order);
    OrderFacts(a, s.id, order);
    PresentFlagsAgree(a, b, order, customers);
  }

  lemma PresentFlagsAgree<C>(a: seq<Reservation>, b: seq<Reservation>, order: seq<int>, customers: map<int, C>)
    requires |a| == |b| && forall t :: 0 <= t < |order| ==> 0 <= order[t] < |a| && a[order[t]] == b[order[t]]
    ensures PresentFlags(a, order, customers) == PresentFlags(b, order, customers)
  {}

  /** Logs that agree on a store's reservations and on every pickup time settle that store alike in any allowed order. */
  lemma StoreDayAgree<C>(a: seq<Reservation>, b: seq<Reservation>, customers: map<int, C>, s: Stock, order: seq<int>)
    requires |a| == |b|
    requires forall j :: 0 <= j < |a| ==> a[j].reservationTime == b[j].reservationTime
    requires forall j :: 0 <= j < |a| && (a[j].restaurantId == s.id || b[j].restaurantId == s.id) ==> a[j] == b[j]
    requires SettlingOrder(a, s.id, order)
    ensures SettlingOrder(b, s.id, order)
    ensures forall j :: 0 <= j < |a| && a[j].restaurantId == s.id ==>
              StoreDay(a, customers, s, order)[j] == StoreDay(b, customers, s, order)[j]
  {
    StorePlanAgree(a, b, customers, s, order);
    OrderFacts(a, s.id, order);
    var plan := StorePlan(a, customers, s.id, order, s.actual, s.maxPer);
    StoreDayUnfold(a, customers, s, order, plan);
    StoreDayUnfold(b, customers, s, order, plan);
    ApplyPlanAgree(a, b, order, plan, |order|);
  }

  /** A plan followed on two logs that agree on its positions keeps them agreeing wherever they agreed. */
  lemma {:induction false} ApplyPlanAgree(a: seq<Reservation>, b: seq<Reservation>, order: seq<int>, plan: seq<Decision>, n: nat)
    requires |a| == |b| && |order| == |plan| && n <= |order|
    requires forall t :: 0 <= t < |order| ==> 0 <= order[t] < |a| && a[order[t]] == b[order[t]]
    ensures forall j :: 0 <= j < |a| && a[j] == b[j] ==> ApplyPlan(a, order, plan, n)[j] == ApplyPlan(b, order, plan, n)[j]
  {
    if n > 0 {
      ApplyPlanAgree(a, b, order, plan, n - 1);
    }
  }

  lemma SettlesChain(a: seq<Reservation>, b: seq<Reservation>, c: seq<Reservation>)
    requires Settles(a, b) && Settles(b, c)
    ensures Settles(a, c)
  {}

  /** The stores at which a customer's reservations were settled between two states of the log. */
  function TouchedStores(a: seq<Reservation>, b: seq<Reservation>, key: int): set<int>
    requires |a| == |b|
  {
    set j | 0 <= j < |a| && a[j].status == Pending && b[j].status != Pending && a[j].customerId == key :: a[j].restaurantId
  }

  /** A customer's record at one store once the log has gone from `a` to `b`. */
  function SettledInteraction(h: CustomerHistory, key: int, a: seq<Reservation>, b: seq<Reservation>, s: int): StoreInteraction
    requires |a| == |b|
  {
    var si := Interaction(h, s);
    si.(successes := si.successes + Count(a, b, Confirmed, ByCustomerAtStore(key, s)),
        cancellations := si.cancellations + Count(a, b, Cancelled, ByCustomerAtStore(key, s)))
  }

  /** A customer's history once the log has gone from `a` to `b`: every settled reservation counted once. */
  function SettledHistory(h: CustomerHistory, key: int, a: seq<Reservation>, b: seq<Reservation>): CustomerHistory
    requires |a| == |b|
  {
    h.(successes := h.successes + Count(a, b, Confirmed, ByCustomer(key)),
       cancellations := h.cancellations + Count(a, b, Cancelled, ByCustomer(key)),
       storeInteractions := map s | s in h.storeInteractions.Keys + TouchedStores(a, b, key) ::
                              SettledInteraction(h, key, a, b, s))
  }

  /** Settling nothing leaves a history as it was. */
  lemma SettledHistoryNone(h: CustomerHistory, key: int, a: seq<Reservation>)
    ensures SettledHistory(h, key, a, a) == h
  {
    CountNone(a, a, Confirmed, ByCustomer(key));
    CountNone(a, a, Cancelled, ByCustomer(key));
    forall s | s in h.storeInteractions
      ensures SettledInteraction(h, key, a, a, s) == h.storeInteractions[s]
    {
      CountNone(a, a, Confirmed, ByCustomerAtStore(key, s));
      CountNone(a, a, Cancelled, ByCustomerAtStore(key, s));
    }
    assert TouchedStores(a, a, key) == {};
    var h' := SettledHistory(h, key, a, a);
    assert h'.storeInteractions == h.storeInteractions;
  }

  /** Settling one more reservation changes its customer's record at its store only. */
  lemma SettledInteractionStep(h: CustomerHistory, key: int, a: seq<Reservation>, b: seq<Reservation>,
                               j: int, st: Status, bags: int, s: int)
    requires Settles(a, b) && 0 <= j < |b| && b[j].status == Pending && st != Pending
    ensures var b' := b[j := b[j].(status := st, bagsReceived := bags)];
            var before := SettledInteraction(h, key, a, b, s);
            SettledInteraction(h, key, a, b', s) ==
              if a[j].customerId != key || a[j].restaurantId != s then before
              else if st == Confirmed then before.(successes := before.successes + 1)
              else before.(cancellations := before.cancellations + 1)
  {
    CountSettleOne(a, b, j, st, bags, Confirmed, ByCustomerAtStore(key, s));
    CountSettleOne(a, b, j, st, bags, Cancelled, ByCustomerAtStore(key, s));
  }

  /** Settling one more reservation records one success or one cancellation for its own customer only. */
  lemma SettledHistoryStep(h: CustomerHistory, key: int, a: seq<Reservation>, b: seq<Reservation>,
                           j: int, st: Status, bags: int)
    requires Settles(a, b) && 0 <= j < |b| && b[j].status == Pending && st != Pending
    ensures var b' := b[j := b[j].(status := st, bagsReceived := bags)];
            SettledHistory(h, key, a, b') ==
              if a[j].customerId != key then SettledHistory(h, key, a, b)
              else if st == Confirmed then WithSuccess(SettledHistory(h, key, a, b), a[j].restaurantId)
              else WithCancellation(SettledHistory(h, key, a, b), a[j].restaurantId)
  {
    CountSettleOne(a, b, j, st, bags, Confirmed, ByCustomer(key));
    CountSettleOne(a, b, j, st, bags, Cancelled, ByCustomer(key));
    if a[j].customerId == key {
      StepOwnInteractions(h, key, a, b, j, st, bags);
    } else {
      StepOtherInteractions(h, key, a, b, j, st, bags);
    }
  }

  lemma StepOtherInteractions(h: CustomerHistory, key: int, a: seq<Reservation>, b: seq<Reservation>,
                              j: int, st: Status, bags: int)
    requires Settles(a, b) && 0 <= j < |b| && b[j].status == Pending && st != Pending
    requires a[j].customerId != key
    ensures var b' := b[j := b[j].(status := st, bagsReceived := bags)];
            SettledHistory(h, key, a, b').storeInteractions == SettledHistory(h, key, a, b).storeInteractions
  {
    var b' := b[j := b[j].(status := st, bagsReceived := bags)];
    assert TouchedStores(a, b', key) == TouchedStores(a, b, key);
    forall s
      ensures SettledInteraction(h, key, a, b', s) == SettledInteraction(h, key, a, b, s)
    {
      SettledInteractionStep(h, key, a, b, j, st, bags, s);
    }
  }

  /** Settling one of the customer's own reservations adds its store to the stores the history records. */
  lemma StepOwnKeys(h: CustomerHistory, key: int, a: seq<Reservation>, b: seq<Reservation>, j: int, st: Status, bags: int)
    requires Settles(a, b) && 0 <= j < |b| && b[j].status == Pending && st != Pending
    requires a[j].customerId == key
    ensures var b' := b[j := b[j].(status := st, bagsReceived := bags)];
            SettledHistory(h, key, a, b').storeInteractions.Keys ==
              SettledHistory(h, key, a, b).storeInteractions.Keys + {a[j].restaurantId}
  {
    var b' := b[j := b[j].(status := st, bagsReceived := bags)];
    assert a[j].status == Pending;
    assert TouchedStores(a, b', key) == TouchedStores(a, b, key) + {a[j].restaurantId};
  }

  lemma StepOwnInteractions(h: CustomerHistory, key: int, a: seq<Reservation>, b: seq<Reservation>,
                            j: int, st: Status, bags: int)
    requires Settles(a, b) && 0 <= j < |b| && b[j].status == Pending && st != Pending
    requires a[j].customerId == key
    ensures var b' := b[j := b[j].(status := st, bagsReceived := bags)];
            var before := SettledHistory(h, key, a, b);
            SettledHistory(h, key, a, b').storeInteractions ==
              (if st == Confirmed then WithSuccess(before, a[j].restaurantId)
               else WithCancellation(before, a[j].restaurantId)).storeInteractions
  {
    var b' := b[j := b[j].(status := st, bagsReceived := bags)];
    var store := a[j].restaurantId;
    var before := SettledHistory(h, key, a, b);
    var after := SettledHistory(h, key, a, b');
    var expected := if st == Confirmed then WithSuccess(before, store) else WithCancellation(before, store);
    StepOwnKeys(h, key, a, b, j, st, bags);
    forall s | s in after.storeInteractions
      ensures after.storeInteractions[s] == expected.storeInteractions[s]
    {
      SettledInteractionStep(h, key, a, b, j, st, bags, s);
      if s == store && store !in h.storeInteractions.Keys + TouchedStores(a, b, key) {
        CountNoneOutside(a, b, key, store);
      }
      assert Interaction(before, s) == SettledInteraction(h, key, a, b, s);
    }
  }

  lemma TouchedStoresChain(a: seq<Reservation>, b: seq<Reservation>, c: seq<Reservation>, key: int)
    requires Settles(a, b) && Settles(b, c)
    ensures TouchedStores(a, c, key) == TouchedStores(a, b, key) + TouchedStores(b, c, key)
  {
    forall s | s in TouchedStores(a, c, key)
      ensures s in TouchedStores(a, b, key) + TouchedStores(b, c, key)
    {
      var j :| 0 <= j < |a| && a[j].status == Pending && c[j].status != Pending && a[j].customerId == key && a[j].restaurantId == s;
      if b[j].status == Pending {
        assert s in TouchedStores(b, c, key);
      } else {
        assert s in TouchedStores(a, b, key);
      }
    }
    forall s | s in TouchedStores(a, b, key) + TouchedStores(b, c, key)
      ensures s in TouchedStores(a, c, key)
    {
      if s in TouchedStores(a, b, key) {
        var j :| 0 <= j < |a| && a[j].status == Pending && b[j].status != Pending && a[j].customerId == key && a[j].restaurantId == s;
        assert c[j] == b[j];
      } else {
        var j :| 0 <= j < |b| && b[j].status == Pending && c[j].status != Pending && b[j].customerId == key && b[j].restaurantId == s;
        assert a[j].status == Pending;
      }
    }
  }

  /** Settlements along a chain of logs add up in a customer's history. */
  lemma SettledHistoryChain(h: CustomerHistory, key: int, a: seq<Reservation>, b: seq<Reservation>, c: seq<Reservation>)
    requires Settles(a, b) && Settles(b, c)
    ensures Settles(a, c)
    ensures SettledHistory(SettledHistory(h, key, a, b), key, b, c) == SettledHistory(h, key, a, c)
  {
    CountChain(a, b, c, Confirmed, ByCustomer(key));
    CountChain(a, b, c, Cancelled, ByCustomer(key));
    TouchedStoresChain(a, b, c, key);
    var mid := SettledHistory(h, key, a, b);
    var left := SettledHistory(mid, key, b, c);
    var right := SettledHistory(h, key, a, c);
    forall s
      ensures SettledInteraction(mid, key, b, c, s) == SettledInteraction(h, key, a, c, s)
    {
      SettledInteractionChain(h, key, a, b, c, s);
    }
    assert left.storeInteractions == right.storeInteractions;
  }

  lemma SettledInteractionChain(h: CustomerHistory, key: int, a: seq<Reservation>, b: seq<Reservation>,
                                c: seq<Reservation>, s: int)
    requires Settles(a, b) && Settles(b, c)
    ensures SettledInteraction(SettledHistory(h, key, a, b), key, b, c, s) == SettledInteraction(h, key, a, c, s)
  {
    CountChain(a, b, c, Confirmed, ByCustomerAtStore(key, s));
    CountChain(a, b, c, Cancelled, ByCustomerAtStore(key, s));
    if s !in h.storeInteractions.Keys + TouchedStores(a, b, key) {
      CountNoneOutside(a, b, key, s);
    }
  }

  /** A store where none of a customer's reservations was settled contributes nothing. */
  lemma CountNoneOutside(a: seq<Reservation>, b: seq<Reservation>, key: int, s: int)
    requires Settles(a, b) && s !in TouchedStores(a, b, key)
    ensures Count(a, b, Confirmed, ByCustomerAtStore(key, s)) == 0
    ensures Count(a, b, Cancelled, ByCustomerAtStore(key, s)) == 0
  {
    forall j | 0 <= j < |a| && InScope(a[j], ByCustomerAtStore(key, s)) && a[j].status == Pending
      ensures b[j].status == Pending
    {}
    CountNone(a, b, Confirmed, ByCustomerAtStore(key, s));
    CountNone(a, b, Cancelled, ByCustomerAtStore(key, s));
  }
}
