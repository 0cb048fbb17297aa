// End-of-day reconciliation (RestaurantManagementSystem.cpp): every store
// settles its pending reservations in pickup-time order against the bags it
// really has, confirming or cancelling each, and the customers and the store
// record the outcome.
module Reconciliation {
  import opened Common
  import opened Reservations
  import opened ReservationLog
  import opened Restaurants
  import opened Customers
  import opened Markets
  import opened Rationing
  import opened Settlement
  import opened Sorting

  /** The parts of a customer that settling a reservation changes. */
  datatype CustomerState = CustomerState(history: CustomerHistory, preference: map<string, real>, loyalty: real)

  /** The parts of a store that settling a reservation changes. */
  datatype StoreState = StoreState(rating: real, confirmed: int, cancelled: int, dailyConfirmed: int, dailyCancelled: int)

  function CustomerStateOf(c: Customer): CustomerState
    reads c
  {
    CustomerState(c.history, c.categoryPreference, c.loyalty)
  }

  function StoreStateOf(r: Restaurant): StoreState
    reads r
  {
    StoreState(r.generalRanking, r.totalOrdersConfirmed, r.totalOrdersCancelled, r.dailyOrdersConfirmed, r.dailyOrdersCancelled)
  }

  /**
   * A customer once the log has gone from `a` to `b`: each confirmation is a
   * success (recorded under the empty category, as the program does), each
   * cancellation a cancellation and a loyalty penalty.
   */
  function SettledCustomer(s: CustomerState, key: int, a: seq<Reservation>, b: seq<Reservation>): CustomerState
    requires |a| == |b|
  {
    CustomerState(
      SettledHistory(s.history, key, a, b),
      Boosted(s.preference, "", Count(a, b, Confirmed, ByCustomer(key))),
      LoyaltyAfterCancellations(s.loyalty, Count(a, b, Cancelled, ByCustomer(key))))
  }

  /** A store once the log has gone from `a` to `b`, its confirmations applied before its cancellations. */
  function SettledStore(s: StoreState, id: int, a: seq<Reservation>, b: seq<Reservation>): StoreState
    requires |a| == |b|
  {
    var c := Count(a, b, Confirmed, ByStore(id));
    var x := Count(a, b, Cancelled, ByStore(id));
    StoreState(LoweredTimes(RaisedTimes(s.rating, c), x),
               s.confirmed + c, s.cancelled + x, s.dailyConfirmed + c, s.dailyCancelled + x)
  }

  /** What one settled reservation does to its customer (record_reservation_success / _cancellation). */
  function CustomerAfter(s: CustomerState, st: Status, storeId: int): CustomerState {
    if st == Confirmed then CustomerState(WithSuccess(s.history, storeId), Boosted(s.preference, "", 1), s.loyalty)
    else CustomerState(WithCancellation(s.history, storeId), s.preference, LoyaltyAfter(s.loyalty, true))
  }

  /** What one settled reservation does to its store (update_rating_on_confirmation / _cancellation). */
  function StoreAfter(s: StoreState, st: Status): StoreState {
    if st == Confirmed then
      s.(rating := RaisedRating(s.rating), confirmed := s.confirmed + 1, dailyConfirmed := s.dailyConfirmed + 1)
    else
      s.(rating := LoweredRating(s.rating), cancelled := s.cancelled + 1, dailyCancelled := s.dailyCancelled + 1)
  }

  /** Settling one more reservation changes its own customer only, by one success or one cancellation. */
  lemma SettledCustomerStep(s: CustomerState, key: int, a: seq<Reservation>, b: seq<Reservation>,
                            j: int, st: Status, bags: int)
    requires Settles(a, b) && 0 <= j < |b| && b[j].status == Pending && st != Pending
    ensures var b' := b[j := b[j].(status := st, bagsReceived := bags)];
            var now := SettledCustomer(s, key, a, b);
            SettledCustomer(s, key, a, b') ==
              if a[j].customerId != key then now else CustomerAfter(now, st, a[j].restaurantId)
  {
    SettledHistoryStep(s.history, key, a, b, j, st, bags);
    CountSettleOne(a, b, j, st, bags, Confirmed, ByCustomer(key));
    CountSettleOne(a, b, j, st, bags, Cancelled, ByCustomer(key));
    BoostedChain(s.preference, "", Count(a, b, Confirmed, ByCustomer(key)), 1);
  }

  /** Settling one more reservation changes its own store only; confirmations must all come before cancellations. */
  lemma SettledStoreStep(s: StoreState, id: int, a: seq<Reservation>, b: seq<Reservation>,
                         j: int, st: Status, bags: int)
    requires Settles(a, b) && 0 <= j < |b| && b[j].status == Pending && st != Pending
    requires st == Confirmed && a[j].restaurantId == id ==> Count(a, b, Cancelled, ByStore(id)) == 0
    ensures var b' := b[j := b[j].(status := st, bagsReceived := bags)];
            var now := SettledStore(s, id, a, b);
            SettledStore(s, id, a, b') == if a[j].restaurantId != id then now else StoreAfter(now, st)
  {
    CountSettleOne(a, b, j, st, bags, Confirmed, ByStore(id));
    CountSettleOne(a, b, j, st, bags, Cancelled, ByStore(id));
  }

  /** handle_confirmation: the reservation is confirmed with its bags, the customer and the store are told. */
  method HandleConfirmation(market: MarketState, j: int, customer: Customer, bags: int)
    requires 0 <= j < |market.reservations|
    modifies market`reservations, customer`history, customer`categoryPreference
    modifies (set r | r in market.restaurants && r.businessId == market.reservations[j].restaurantId)`generalRanking,
             (set r | r in market.restaurants && r.businessId == market.reservations[j].restaurantId)`totalOrdersConfirmed,
             (set r | r in market.restaurants && r.businessId == market.reservations[j].restaurantId)`dailyOrdersConfirmed
    ensures market.reservations == old(market.reservations)[j := old(market.reservations)[j].(status := Confirmed, bagsReceived := bags)]
    ensures customer.history == WithSuccess(old(customer.history), old(market.reservations)[j].restaurantId)
    ensures customer.categoryPreference == Boosted(old(customer.categoryPreference), "", 1)
    ensures var r := old(market.FindRestaurant(market.reservations[j].restaurantId));
            r != null ==> r.generalRanking == RaisedRating(old(r.generalRanking)) &&
                          r.totalOrdersConfirmed == old(r.totalOrdersConfirmed) + 1 &&
                          r.dailyOrdersConfirmed == old(r.dailyOrdersConfirmed) + 1
  {
    var storeId := market.reservations[j].restaurantId;
    market.reservations := market.reservations[j := market.reservations[j].(status := Confirmed, bagsReceived := bags)];
    customer.RecordReservationSuccess(storeId, "");
    var r := market.GetRestaurant(storeId);
    if r != null {
      r.UpdateRatingOnConfirmation();
    }
  }

  /** handle_cancellation: the reservation is cancelled, the customer and the store are told. */
  method HandleCancellation(market: MarketState, j: int, customer: Customer)
    requires 0 <= j < |market.reservations|
    modifies market`reservations, customer`history, customer`loyalty
    modifies (set r | r in market.restaurants && r.businessId == market.reservations[j].restaurantId)`generalRanking,
             (set r | r in market.restaurants && r.businessId == market.reservations[j].restaurantId)`totalOrdersCancelled,
             (set r | r in market.restaurants && r.businessId == market.reservations[j].restaurantId)`dailyOrdersCancelled
    ensures market.reservations == old(market.reservations)[j := old(market.reservations)[j].(status := Cancelled)]
    ensures customer.history == WithCancellation(old(customer.history), old(market.reservations)[j].restaurantId)
    ensures customer.loyalty == LoyaltyAfter(old(customer.loyalty), true)
    ensures var r := old(market.FindRestaurant(market.reservations[j].restaurantId));
            r != null ==> r.generalRanking == LoweredRating(old(r.generalRanking)) &&
                          r.totalOrdersCancelled == old(r.totalOrdersCancelled) + 1 &&
                          r.dailyOrdersCancelled == old(r.dailyOrdersCancelled) + 1
  {
    var storeId := market.reservations[j].restaurantId;
    market.reservations := market.reservations[j := market.reservations[j].(status := Cancelled)];
    customer.RecordReservationCancellation(storeId);
    var r := market.GetRestaurant(storeId);
    if r != null {
      r.UpdateRatingOnCancellation();
    }
  }

  /** The positions of a store's pending reservations, by a scan of the log. */
  method CollectPending(log: seq<Reservation>, storeId: int) returns (js: seq<int>)
    ensures js == PendingOf(log, storeId)
  {
    js := [];
    var j := 0;
    while j < |log|
      invariant 0 <= j <= |log|
      invariant js == PendingOf(log[..j], storeId)
    {
      assert log[..j + 1][..j] == log[..j];
      if log[j].restaurantId == storeId && log[j].status == Pending {
        js := js + [j];
      }
      j := j + 1;
    }
    assert log[..j] == log;
  }

  /** The state of every registered customer, by id. */
  function CustomerStates(market: MarketState): (m: map<int, CustomerState>)
    reads market`customers, set k | k in market.customers :: market.customers[k]
    ensures m.Keys == market.customers.Keys
  {
    map k | k in market.customers :: CustomerStateOf(market.customers[k])
  }

  /** What the settlement needs to know of a store: its id, its real bags and its cap per customer. */
  function StockOf(r: Restaurant): Stock
    reads r`actualBags, r`maxBagsPerCustomer
  {
    Stock(r.businessId, r.actualBags, r.maxBagsPerCustomer)
  }

  /** The state of every store, in list order. */
  function StoreStates(market: MarketState): (ss: seq<StoreState>)
    reads market`restaurants, market.restaurants
    ensures |ss| == |market.restaurants|
    ensures forall i :: 0 <= i < |ss| ==> ss[i] == StoreStateOf(market.restaurants[i])
  {
    StatesOf(market.restaurants)
  }

  function StatesOf(rs: seq<Restaurant>): (ss: seq<StoreState>)
    reads rs
    ensures |ss| == |rs|
    ensures forall i :: 0 <= i < |ss| ==> ss[i] == StoreStateOf(rs[i])
  {
    if rs == [] then [] else StatesOf(rs[..|rs| - 1]) + [StoreStateOf(rs[|rs| - 1])]
  }

  /** The business id of every store, in list order. */
  function StoreIds(market: MarketState): (ids: seq<int>)
    reads market`restaurants
    ensures |ids| == |market.restaurants|
    ensures forall i :: 0 <= i < |ids| ==> ids[i] == market.restaurants[i].businessId
  {
    IdsOf(market.restaurants)
  }

  /** Customer states `cs` and store states `ss` reflect exactly the settlements between logs `a` and `b`. */
  ghost predicate Reflects(cs: map<int, CustomerState>, ss: seq<StoreState>, ids: seq<int>,
                           c0: map<int, CustomerState>, s0: seq<StoreState>, a: seq<Reservation>, b: seq<Reservation>)
    requires |a| == |b|
  {
    (forall k :: k in cs ==> k in c0 && cs[k] == SettledCustomer(c0[k], k, a, b)) &&
    |ss| == |ids| == |s0| &&
    (forall i :: 0 <= i < |ids| ==> ss[i] == SettledStore(s0[i], ids[i], a, b))
  }

  /** Before anything is settled, every state is its starting state. */
  lemma ReflectsNone(c0: map<int, CustomerState>, s0: seq<StoreState>, ids: seq<int>, a: seq<Reservation>)
    requires |s0| == |ids|
    ensures Reflects(c0, s0, ids, c0, s0, a, a)
  {
    forall k | k in c0
      ensures c0[k] == SettledCustomer(c0[k], k, a, a)
    {
      SettledHistoryNone(c0[k].history, k, a);
      CountNone(a, a, Confirmed, ByCustomer(k));
      CountNone(a, a, Cancelled, ByCustomer(k));
    }
    forall i | 0 <= i < |ids|
      ensures s0[i] == SettledStore(s0[i], ids[i], a, a)
    {
      CountNone(a, a, Confirmed, ByStore(ids[i]));
      CountNone(a, a, Cancelled, ByStore(ids[i]));
    }
  }

  /**
   * Settling the pending reservation at `j` keeps the states in step with the
   * log, given that only its customer and its store moved, each by one
   * settlement, and that no cancellation of the store came before a confirmation.
   */
  lemma ReflectsStep(cs: map<int, CustomerState>, ss: seq<StoreState>, ids: seq<int>,
                     c0: map<int, CustomerState>, s0: seq<StoreState>, a: seq<Reservation>, b: seq<Reservation>,
                     i: int, j: int, st: Status, bags: int)
    requires Settles(a, b) && 0 <= j < |b| && b[j].status == Pending && st != Pending
    requires Reflects(cs, ss, ids, c0, s0, a, b)
    requires st == Confirmed ==> Count(a, b, Cancelled, ByStore(a[j].restaurantId)) == 0
    requires a[j].customerId in cs
    requires 0 <= i < |ids| && ids[i] == a[j].restaurantId
    requires forall p, q :: 0 <= p < q < |ids| ==> ids[p] != ids[q]
    ensures var key := a[j].customerId;
            Reflects(cs[key := CustomerAfter(cs[key], st, a[j].restaurantId)], ss[i := StoreAfter(ss[i], st)], ids,
                     c0, s0, a, b[j := b[j].(status := st, bagsReceived := bags)])
  {
    var key := a[j].customerId;
    var cs' := cs[key := CustomerAfter(cs[key], st, a[j].restaurantId)];
    forall k | k in cs' {
      SettledCustomerStep(c0[k], k, a, b, j, st, bags);
    }
    forall i' | 0 <= i' < |ids| {
      SettledStoreStep(s0[i'], ids[i'], a, b, j, st, bags);
    }
  }

  /** Only store `i` moved, to `st`: the store states are the old ones with entry `i` replaced. */
  lemma StoreStatesUpdate(market: MarketState, i: int, ss: seq<StoreState>, st: StoreState)
    requires |ss| == |market.restaurants| && 0 <= i < |ss|
    requires forall i' :: 0 <= i' < |ss| && i' != i ==> StoreStateOf(market.restaurants[i']) == ss[i']
    requires StoreStateOf(market.restaurants[i]) == st
    ensures StoreStates(market) == ss[i := st]
  {
  }

  /** Only customer `key` moved, to `c`: the customer states are the old ones with entry `key` replaced. */
  lemma CustomerStatesUpdate(market: MarketState, key: int, cs: map<int, CustomerState>, c: CustomerState)
    requires cs.Keys == market.customers.Keys && key in cs
    requires forall k :: k in cs && k != key ==> CustomerStateOf(market.customers[k]) == cs[k]
    requires CustomerStateOf(market.customers[key]) == c
    ensures CustomerStates(market) == cs[key := c]
  {
    var m := CustomerStates(market);
    assert m.Keys == cs[key := c].Keys;
    forall k | k in m
      ensures m[k] == cs[key := c][k]
    {
    }
  }

  /** handle_confirmation on a pending reservation of store `i`, seen as a change to the customer and store states. */
  method ConfirmAt(market: MarketState, i: int, j: int, customer: Customer, bags: int)
    requires market.Valid() && market.DistinctIds()
    requires 0 <= i < |market.restaurants| && 0 <= j < |market.reservations|
    requires market.reservations[j].restaurantId == market.restaurants[i].businessId
    requires market.reservations[j].customerId in market.customers
    requires customer == market.customers[market.reservations[j].customerId]
    modifies market`reservations, customer`history, customer`categoryPreference
    modifies {market.restaurants[i]}`generalRanking, {market.restaurants[i]}`totalOrdersConfirmed,
             {market.restaurants[i]}`dailyOrdersConfirmed
    ensures market.reservations == old(market.reservations)[j := Apply(old(market.reservations)[j], Confirm(bags))]
    ensures var key := old(market.reservations)[j].customerId;
            CustomerStates(market) == old(CustomerStates(market))[key := CustomerAfter(old(CustomerStates(market))[key], Confirmed, old(market.reservations)[j].restaurantId)]
    ensures StoreStates(market) == old(StoreStates(market))[i := StoreAfter(old(StoreStates(market))[i], Confirmed)]
  {
    FirstIndexOfDistinct(market.restaurants, i);
    ghost var key := market.reservations[j].customerId;
    ghost var cs := CustomerStates(market);
    ghost var ss := StoreStates(market);
    HandleConfirmation(market, j, customer, bags);
    forall i' | 0 <= i' < |ss| && i' != i
      ensures StoreStateOf(market.restaurants[i']) == ss[i']
    {
      assert market.restaurants[i'] != market.restaurants[i];
    }
    StoreStatesUpdate(market, i, ss, StoreAfter(ss[i], Confirmed));
    forall k | k in cs && k != key
      ensures CustomerStateOf(market.customers[k]) == cs[k]
    {
      assert market.customers[k] != customer;
    }
    CustomerStatesUpdate(market, key, cs, CustomerAfter(cs[key], Confirmed, old(market.reservations)[j].restaurantId));
  }

  /** handle_cancellation on a pending reservation of store `i`, seen as a change to the customer and store states. */
  method CancelAt(market: MarketState, i: int, j: int, customer: Customer)
    requires market.Valid() && market.DistinctIds()
    requires 0 <= i < |market.restaurants| && 0 <= j < |market.reservations|
    requires market.reservations[j].restaurantId == market.restaurants[i].businessId
    requires market.reservations[j].customerId in market.customers
    requires customer == market.customers[market.reservations[j].customerId]
    modifies market`reservations, customer`history, customer`loyalty
    modifies {market.restaurants[i]}`generalRanking, {market.restaurants[i]}`totalOrdersCancelled,
             {market.restaurants[i]}`dailyOrdersCancelled
    ensures market.reservations == old(market.reservations)[j := Apply(old(market.reservations)[j], Cancel)]
    ensures var key := old(market.reservations)[j].customerId;
            CustomerStates(market) == old(CustomerStates(market))[key := CustomerAfter(old(CustomerStates(market))[key], Cancelled, old(market.reservations)[j].restaurantId)]
    ensures StoreStates(market) == old(StoreStates(market))[i := StoreAfter(old(StoreStates(market))[i], Cancelled)]
  {
    FirstIndexOfDistinct(market.restaurants, i);
    ghost var key := market.reservations[j].customerId;
    ghost var cs := CustomerStates(market);
    ghost var ss := StoreStates(market);
    HandleCancellation(market, j, customer);
    forall i' | 0 <= i' < |ss| && i' != i
      ensures StoreStateOf(market.restaurants[i']) == ss[i']
    {
      assert market.restaurants[i'] != market.restaurants[i];
    }
    StoreStatesUpdate(market, i, ss, StoreAfter(ss[i], Cancelled));
    forall k | k in cs && k != key
      ensures CustomerStateOf(market.customers[k]) == cs[k]
    {
      assert market.customers[k] != customer;
    }
    CustomerStatesUpdate(market, key, cs, CustomerAfter(cs[key], Cancelled, old(market.reservations)[j].restaurantId));
  }

  /** The outcome a decision gives a reservation (a skipped one stays pending). */
  function StatusOf(d: Decision): Status {
    match d
    case Confirm(_) => Confirmed
    case Cancel => Cancelled
    case Skip => Pending
  }

  /**
   * The customer states after the first `n` steps of a plan, replayed one
   * settlement at a time; a skipped reservation or an unregistered customer
   * changes nothing.
   */
  function CustomersAfter(c0: map<int, CustomerState>, log: seq<Reservation>, order: seq<int>, plan: seq<Decision>, n: nat)
    : (m: map<int, CustomerState>)
    requires |order| == |plan| && n <= |order|
    requires forall t :: 0 <= t < |order| ==> 0 <= order[t] < |log|
    ensures m.Keys == c0.Keys
  {
    if n == 0 then c0
    else
      var m := CustomersAfter(c0, log, order, plan, n - 1);
      var r := log[order[n - 1]];
      if plan[n - 1].Skip? || r.customerId !in m then m
      else m[r.customerId := CustomerAfter(m[r.customerId], StatusOf(plan[n - 1]), r.restaurantId)]
  }

  /** The store states after the first `n` steps of store `i`'s plan, replayed one settlement at a time. */
  function StoresAfter(s0: seq<StoreState>, i: int, plan: seq<Decision>, n: nat): (ss: seq<StoreState>)
    requires 0 <= i < |s0| && n <= |plan|
    ensures |ss| == |s0|
  {
    if n == 0 then s0
    else
      var ss := StoresAfter(s0, i, plan, n - 1);
      if plan[n - 1].Skip? then ss else ss[i := StoreAfter(ss[i], StatusOf(plan[n - 1]))]
  }

  /** `order` lists pending reservations of store `id` in log `log`, each once. */
  ghost predicate OrderOf(order: seq<int>, log: seq<Reservation>, id: int) {
    Distinct(order) &&
    forall u :: 0 <= u < |order| ==> 0 <= order[u] < |log| && log[order[u]].restaurantId == id && log[order[u]].status == Pending
  }

  /** A plan whose every non-skipped step belongs to a registered customer and that never confirms after a cancellation. */
  ghost predicate Orderly(c0: map<int, CustomerState>, log: seq<Reservation>, order: seq<int>, plan: seq<Decision>)
    requires |order| == |plan|
    requires forall t :: 0 <= t < |order| ==> 0 <= order[t] < |log|
  {
    (forall t :: 0 <= t < |order| && !plan[t].Skip? ==> log[order[t]].customerId in c0) &&
    (forall u, v :: 0 <= u < v < |order| && plan[u].Cancel? ==> !plan[v].Confirm?)
  }

  /**
   * Replaying a plan agrees with counting its settlements: after `n` steps the
   * replayed states are exactly the starting states with every settlement of
   * the log applied (Reflects), and no cancellation happened before the first
   * cancelling step.
   */
  lemma {:induction false} ReplayReflects(c0: map<int, CustomerState>, s0: seq<StoreState>, ids: seq<int>, i: int,
                                          log: seq<Reservation>, order: seq<int>, plan: seq<Decision>, n: nat)
    requires |s0| == |ids| && 0 <= i < |ids|
    requires forall p, q :: 0 <= p < q < |ids| ==> ids[p] != ids[q]
    requires OrderOf(order, log, ids[i]) && |plan| == |order| && n <= |order|
    requires Orderly(c0, log, order, plan)
    ensures Settles(log, ApplyPlan(log, order, plan, n))
    ensures Reflects(CustomersAfter(c0, log, order, plan, n), StoresAfter(s0, i, plan, n), ids, c0, s0, log, ApplyPlan(log, order, plan, n))
    ensures (forall u :: 0 <= u < n ==> !plan[u].Cancel?) ==> Count(log, ApplyPlan(log, order, plan, n), Cancelled, ByStore(ids[i])) == 0
  {
    if n == 0 {
      ReflectsNone(c0, s0, ids, log);
      CountNone(log, log, Cancelled, ByStore(ids[i]));
    } else {
      ReplayReflects(c0, s0, ids, i, log, order, plan, n - 1);
      var b := ApplyPlan(log, order, plan, n - 1);
      var j := order[n - 1];
      var d := plan[n - 1];
      ApplyPlanNext(log, order, plan, n - 1);
      if d.Skip? {
        assert b[j := Apply(log[j], d)] == b;
      } else {
        var bags := if d.Confirm? then d.bags else b[j].bagsReceived;
        if d.Confirm? {
          assert forall u :: 0 <= u < n - 1 ==> !plan[u].Cancel?;
        }
        ReflectsStep(CustomersAfter(c0, log, order, plan, n - 1), StoresAfter(s0, i, plan, n - 1), ids, c0, s0, log, b,
                     i, j, StatusOf(d), bags);
        CountSettleOne(log, b, j, StatusOf(d), bags, Cancelled, ByStore(ids[i]));
      }
    }
  }

  /**
   * Store `i` has settled the first `t` reservations of its settling order
   * `order` by `plan`, starting from log `log0`, customer states `c0` and
   * store states `s0`.
   */
  ghost predicate SettledUpTo(market: MarketState, i: int, order: seq<int>, plan: seq<Decision>, t: int,
                              log0: seq<Reservation>, c0: map<int, CustomerState>, s0: seq<StoreState>)
    reads market`restaurants, market`customers, market`reservations, market.restaurants, set k | k in market.customers :: market.customers[k]
  {
    && 0 <= i < |market.restaurants| && |s0| == |market.restaurants|
    && OrderOf(order, log0, market.restaurants[i].businessId)
    && |plan| == |order| && 0 <= t <= |order|
    && market.reservations == ApplyPlan(log0, order, plan, t)
    && CustomerStates(market) == CustomersAfter(c0, log0, order, plan, t)
    && StoreStates(market) == StoresAfter(s0, i, plan, t)
  }

  /**
   * The `t`-th reservation in the store's settling order is settled by `d`
   * when its customer is registered (`customer` is then that customer), and
   * left pending otherwise.
   */
  method SettleNext(market: MarketState, i: int, order: seq<int>, t: int, customer: Customer?, d: Decision,
                    ghost plan: seq<Decision>, ghost log0: seq<Reservation>,
                    ghost c0: map<int, CustomerState>, ghost s0: seq<StoreState>)
    requires market.Valid() && market.DistinctIds()
    requires SettledUpTo(market, i, order, plan, t, log0, c0, s0) && t < |order| && !d.Skip?
    requires customer == market.GetCustomer(log0[order[t]].customerId)
    requires plan[t] == if customer != null then d else Skip
    modifies market`reservations
    modifies (set k | k in market.customers :: market.customers[k])`history,
             (set k | k in market.customers :: market.customers[k])`categoryPreference,
             (set k | k in market.customers :: market.customers[k])`loyalty
    modifies {market.restaurants[i]}`generalRanking, {market.restaurants[i]}`totalOrdersConfirmed,
             {market.restaurants[i]}`dailyOrdersConfirmed, {market.restaurants[i]}`totalOrdersCancelled,
             {market.restaurants[i]}`dailyOrdersCancelled
    ensures SettledUpTo(market, i, order, plan, t + 1, log0, c0, s0)
  {
    var j := order[t];
    ApplyPlanNext(log0, order, plan, t);
    if customer != null {
      if d.Confirm? {
        ConfirmAt(market, i, j, customer, d.bags);
      } else {
        CancelAt(market, i, j, customer);
      }
    } else {
      assert market.reservations[j := Apply(log0[j], Skip)] == market.reservations;
    }
  }

  /** Enough bags for everyone: each registered customer gets the share, the first ones one extra bag while extras last. */
  method SettleAbundant(market: MarketState, i: int, order: seq<int>, share: int, extra0: int,
                        ghost present: seq<bool>, ghost plan: seq<Decision>, ghost log0: seq<Reservation>,
                        ghost c0: map<int, CustomerState>, ghost s0: seq<StoreState>)
    requires market.Valid() && market.DistinctIds()
    requires SettledUpTo(market, i, order, plan, 0, log0, c0, s0)
    requires |present| == |order| && forall t :: 0 <= t < |order| ==> present[t] == (log0[order[t]].customerId in market.customers)
    requires plan == Abundance(present, share, extra0, market.restaurants[i].maxBagsPerCustomer)
    modifies market`reservations
    modifies (set k | k in market.customers :: market.customers[k])`history,
             (set k | k in market.customers :: market.customers[k])`categoryPreference,
             (set k | k in market.customers :: market.customers[k])`loyalty
    modifies {market.restaurants[i]}`generalRanking, {market.restaurants[i]}`totalOrdersConfirmed,
             {market.restaurants[i]}`dailyOrdersConfirmed, {market.restaurants[i]}`totalOrdersCancelled,
             {market.restaurants[i]}`dailyOrdersCancelled
    ensures SettledUpTo(market, i, order, plan, |order|, log0, c0, s0)
  {
    var maxPer := market.restaurants[i].maxBagsPerCustomer;
    var extra := extra0;
    var t := 0;
    while t < |order|
      invariant 0 <= t <= |order|
      invariant extra == ExtraLeft(present[..t], share, extra0, maxPer)
      invariant SettledUpTo(market, i, order, plan, t, log0, c0, s0)
    {
      AbundanceStep(present, share, extra0, maxPer, t);
      ApplyPlanNext(log0, order, plan, t);
      var customer := market.GetCustomer(market.reservations[order[t]].customerId);
      assert present[t] == (customer != null);
      var bags := share;
      if customer != null && extra > 0 && bags < maxPer {
        bags := bags + 1;
        extra := extra - 1;
      }
      assert extra == ExtraLeft(present[..t + 1], share, extra0, maxPer);
      SettleNext(market, i, order, t, customer, Confirm(bags), plan, log0, c0, s0);
      t := t + 1;
    }
    assert t == |order|;
  }

  /** The `t`-th reservation in the order is looked up and, when its customer is registered, settled by `d`. */
  method SettleLookedUp(market: MarketState, i: int, order: seq<int>, t: int, d: Decision,
                        ghost present: seq<bool>, ghost plan: seq<Decision>, ghost log0: seq<Reservation>,
                        ghost c0: map<int, CustomerState>, ghost s0: seq<StoreState>)
    requires market.Valid() && market.DistinctIds()
    requires SettledUpTo(market, i, order, plan, t, log0, c0, s0) && t < |order| && !d.Skip?
    requires |present| == |order| && present[t] == (log0[order[t]].customerId in market.customers)
    requires plan[t] == if present[t] then d else Skip
    modifies market`reservations
    modifies (set k | k in market.customers :: market.customers[k])`history,
             (set k | k in market.customers :: market.customers[k])`categoryPreference,
             (set k | k in market.customers :: market.customers[k])`loyalty
    modifies {market.restaurants[i]}`generalRanking, {market.restaurants[i]}`totalOrdersConfirmed,
             {market.restaurants[i]}`dailyOrdersConfirmed, {market.restaurants[i]}`totalOrdersCancelled,
             {market.restaurants[i]}`dailyOrdersCancelled
    ensures SettledUpTo(market, i, order, plan, t + 1, log0, c0, s0)
  {
    ApplyPlanNext(log0, order, plan, t);
    var customer := market.GetCustomer(market.reservations[order[t]].customerId);
    SettleNext(market, i, order, t, customer, d, plan, log0, c0, s0);
  }

  /** Too few bags, first part: the first `actual` reservations in the order get one bag each when their customer is registered. */
  method SettleScarceConfirm(market: MarketState, i: int, order: seq<int>, actual: int,
                             ghost present: seq<bool>, ghost plan: seq<Decision>, ghost log0: seq<Reservation>,
                             ghost c0: map<int, CustomerState>, ghost s0: seq<StoreState>)
    requires market.Valid() && market.DistinctIds()
    requires SettledUpTo(market, i, order, plan, 0, log0, c0, s0)
    requires 0 <= actual < |order|
    requires |present| == |order| && forall t :: 0 <= t < |order| ==> present[t] == (log0[order[t]].customerId in market.customers)
    requires plan == Scarcity(present, actual)
    modifies market`reservations
    modifies (set k | k in market.customers :: market.customers[k])`history,
             (set k | k in market.customers :: market.customers[k])`categoryPreference,
             (set k | k in market.customers :: market.customers[k])`loyalty
    modifies {market.restaurants[i]}`generalRanking, {market.restaurants[i]}`totalOrdersConfirmed,
             {market.restaurants[i]}`dailyOrdersConfirmed, {market.restaurants[i]}`totalOrdersCancelled,
             {market.restaurants[i]}`dailyOrdersCancelled
    ensures SettledUpTo(market, i, order, plan, actual, log0, c0, s0)
  {
    var t := 0;
    while t < actual
      invariant 0 <= t <= actual
      invariant SettledUpTo(market, i, order, plan, t, log0, c0, s0)
    {
      SettleLookedUp(market, i, order, t, Confirm(1), present, plan, log0, c0, s0);
      t := t + 1;
    }
    assert t == actual;
  }

  /** Too few bags, second part: every later registered customer in the order is cancelled. */
  method SettleScarceCancel(market: MarketState, i: int, order: seq<int>, actual: int,
                            ghost present: seq<bool>, ghost plan: seq<Decision>, ghost log0: seq<Reservation>,
                            ghost c0: map<int, CustomerState>, ghost s0: seq<StoreState>)
    requires market.Valid() && market.DistinctIds()
    requires 0 <= actual < |order|
    requires SettledUpTo(market, i, order, plan, actual, log0, c0, s0)
    requires |present| == |order| && forall t :: 0 <= t < |order| ==> present[t] == (log0[order[t]].customerId in market.customers)
    requires plan == Scarcity(present, actual)
    modifies market`reservations
    modifies (set k | k in market.customers :: market.customers[k])`history,
             (set k | k in market.customers :: market.customers[k])`categoryPreference,
             (set k | k in market.customers :: market.customers[k])`loyalty
    modifies {market.restaurants[i]}`generalRanking, {market.restaurants[i]}`totalOrdersConfirmed,
             {market.restaurants[i]}`dailyOrdersConfirmed, {market.restaurants[i]}`totalOrdersCancelled,
             {market.restaurants[i]}`dailyOrdersCancelled
    ensures SettledUpTo(market, i, order, plan, |order|, log0, c0, s0)
  {
    var t := actual;
    while t < |order|
      invariant actual <= t <= |order|
      invariant SettledUpTo(market, i, order, plan, t, log0, c0, s0)
    {
      SettleLookedUp(market, i, order, t, Cancel, present, plan, log0, c0, s0);
      t := t + 1;
    }
    assert t == |order|;
  }

  /**
   * Store `i` settles its reservations in `order`: with enough bags for
   * everyone by the abundance plan, otherwise by the scarcity plan.
   */
  method SettleByPlan(market: MarketState, i: int, order: seq<int>, actual: int,
                      ghost present: seq<bool>, ghost plan: seq<Decision>, ghost log0: seq<Reservation>,
                      ghost c0: map<int, CustomerState>, ghost s0: seq<StoreState>)
    requires market.Valid() && market.DistinctIds()
    requires SettledUpTo(market, i, order, plan, 0, log0, c0, s0) && actual >= 0
    requires present == PresentFlags(log0, order, market.customers)
    requires plan == Plan(present, actual, market.restaurants[i].maxBagsPerCustomer)
    modifies market`reservations
    modifies (set k | k in market.customers :: market.customers[k])`history,
             (set k | k in market.customers :: market.customers[k])`categoryPreference,
             (set k | k in market.customers :: market.customers[k])`loyalty
    modifies {market.restaurants[i]}`generalRanking, {market.restaurants[i]}`totalOrdersConfirmed,
             {market.restaurants[i]}`dailyOrdersConfirmed, {market.restaurants[i]}`totalOrdersCancelled,
             {market.restaurants[i]}`dailyOrdersCancelled
    ensures SettledUpTo(market, i, order, plan, |order|, log0, c0, s0)
  {
    var k := |order|;
    var maxPer := market.restaurants[i].maxBagsPerCustomer;
    if k == 0 {
    } else if actual >= k {
      var share := Min(maxPer, actual / k);
      PlanWhenAbundant(present, actual, maxPer);
      SettleAbundant(market, i, order, share, actual - share * k, present, plan, log0, c0, s0);
    } else {
      PlanWhenScarce(present, actual, maxPer);
      SettleScarceConfirm(market, i, order, actual, present, plan, log0, c0, s0);
      SettleScarceCancel(market, i, order, actual, present, plan, log0, c0, s0);
    }
  }

  /** Replaying a whole plan settles exactly the store's listed reservations and leaves every other store's alone. */
  lemma ReplayOutcome(c0: map<int, CustomerState>, s0: seq<StoreState>, ids: seq<int>, i: int,
                      log: seq<Reservation>, order: seq<int>, plan: seq<Decision>)
    requires |s0| == |ids| && 0 <= i < |ids|
    requires forall p, q :: 0 <= p < q < |ids| ==> ids[p] != ids[q]
    requires OrderOf(order, log, ids[i]) && |plan| == |order|
    requires Orderly(c0, log, order, plan)
    ensures var log' := ApplyPlan(log, order, plan, |order|);
            && Settles(log, log')
            && Reflects(CustomersAfter(c0, log, order, plan, |order|), StoresAfter(s0, i, plan, |order|), ids, c0, s0, log, log')
            && forall j :: 0 <= j < |log| && log[j].restaurantId != ids[i] ==> log'[j] == log[j]
  {
    ReplayReflects(c0, s0, ids, i, log, order, plan, |order|);
    ApplyPlanEffect(log, order, plan, |order|);
    assert order[..|order|] == order;
  }

  /** A store's settling order lists its pending reservations, and its plan is orderly for the registered customers. */
  lemma StorePlanOrderly<C>(c0: map<int, CustomerState>, customers: map<int, C>, log: seq<Reservation>, id: int,
                            order: seq<int>, actual: int, maxPer: int)
    requires c0.Keys == customers.Keys && SettlingOrder(log, id, order)
    ensures OrderOf(order, log, id) && Orderly(c0, log, order, StorePlan(log, customers, id, order, actual, maxPer))
  {
    OrderFacts(log, id, order);
    var present := PresentFlags(log, order, customers);
    var plan := StorePlan(log, customers, id, order, actual, maxPer);
    assert plan == Plan(present, actual, maxPer);
    forall u, v | 0 <= u < v < |order| && plan[u].Cancel?
      ensures !plan[v].Confirm?
    {
      PlanConfirmsBeforeCancelling(present, actual, maxPer, u, v);
    }
  }

  /**
   * One store's part of process_end_of_day: its pending reservations, sorted
   * by pickup time, are settled by the plan for its real stock. The order
   * returned is the one used; the contract promises only that it is an
   * allowed one, as std::sort does.
   */
  method SettleStore(market: MarketState, i: int) returns (ghost order: seq<int>)
    requires market.Valid() && market.DistinctIds()
    requires 0 <= i < |market.restaurants| && market.restaurants[i].actualBags >= 0
    modifies market`reservations
    modifies (set k | k in market.customers :: market.customers[k])`history,
             (set k | k in market.customers :: market.customers[k])`categoryPreference,
             (set k | k in market.customers :: market.customers[k])`loyalty
    modifies {market.restaurants[i]}`generalRanking, {market.restaurants[i]}`totalOrdersConfirmed,
             {market.restaurants[i]}`dailyOrdersConfirmed, {market.restaurants[i]}`totalOrdersCancelled,
             {market.restaurants[i]}`dailyOrdersCancelled
    ensures SettlingOrder(old(market.reservations), market.restaurants[i].businessId, order)
    ensures market.reservations == StoreDay(old(market.reservations), market.customers, StockOf(market.restaurants[i]), order)
    ensures Settles(old(market.reservations), market.reservations)
    ensures forall j :: 0 <= j < |market.reservations| && old(market.reservations)[j].restaurantId != market.restaurants[i].businessId ==>
              market.reservations[j] == old(market.reservations)[j]
    ensures Reflects(CustomerStates(market), StoreStates(market), StoreIds(market),
                     old(CustomerStates(market)), old(StoreStates(market)), old(market.reservations), market.reservations)
  {
    var store := market.restaurants[i];
    var id := store.businessId;
    var actual := store.actualBags;
    var maxPer := store.maxBagsPerCustomer;
    ghost var log0 := market.reservations;
    ghost var c0 := CustomerStates(market);
    ghost var s0 := StoreStates(market);
    ghost var ids := StoreIds(market);
    var pending := CollectPending(market.reservations, id);
    var sorted := SortAsc(pending, TimeKey(PickupTimes(market.reservations)));
    order := sorted;
    assert order == SettleOrder(log0, id);
    ghost var present := PresentFlags(log0, order, market.customers);
    ghost var plan := StorePlan(log0, market.customers, id, order, actual, maxPer);
    assert plan == Plan(present, actual, maxPer);
    StorePlanOrderly(c0, market.customers, log0, id, order, actual, maxPer);
    SettlingStarts(market, i, sorted, plan, log0, c0, s0);
    SettleByPlan(market, i, sorted, actual, present, plan, log0, c0, s0);
    assert StockOf(market.restaurants[i]) == Stock(id, actual, maxPer);
    assert StoreIds(market) == ids;
    SettlingEnds(market, i, order, plan, log0, c0, s0, ids, Stock(id, actual, maxPer));
  }

  /** Before the first step nothing is settled. */
  lemma SettlingStarts(market: MarketState, i: int, order: seq<int>, plan: seq<Decision>,
                       log0: seq<Reservation>, c0: map<int, CustomerState>, s0: seq<StoreState>)
    requires 0 <= i < |market.restaurants|
    requires market.reservations == log0 && c0 == CustomerStates(market) && s0 == StoreStates(market)
    requires OrderOf(order, log0, market.restaurants[i].businessId) && |plan| == |order|
    ensures SettledUpTo(market, i, order, plan, 0, log0, c0, s0)
  {}

  /** Once every step is taken, the log is the store's day and the states reflect it. */
  lemma SettlingEnds(market: MarketState, i: int, order: seq<int>, plan: seq<Decision>,
                     log0: seq<Reservation>, c0: map<int, CustomerState>, s0: seq<StoreState>, ids: seq<int>, s: Stock)
    requires market.DistinctIds() && ids == StoreIds(market)
    requires SettledUpTo(market, i, order, plan, |order|, log0, c0, s0)
    requires s == StockOf(market.restaurants[i])
    requires SettlingOrder(log0, s.id, order) && plan == StorePlan(log0, market.customers, s.id, order, s.actual, s.maxPer)
    requires Orderly(c0, log0, order, plan)
    ensures SettlingOrder(log0, market.restaurants[i].businessId, order)
    ensures market.reservations == StoreDay(log0, market.customers, s, order)
    ensures Settles(log0, market.reservations)
    ensures forall j :: 0 <= j < |log0| && log0[j].restaurantId != s.id ==> market.reservations[j] == log0[j]
    ensures Reflects(CustomerStates(market), StoreStates(market), ids, c0, s0, log0, market.reservations)
  {
    ReplayOutcome(c0, s0, ids, i, log0, order, plan);
    StoreDayUnfold(log0, market.customers, s, order, plan);
  }
}
