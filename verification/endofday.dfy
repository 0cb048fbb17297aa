// process_end_of_day as a whole (RestaurantManagementSystem.cpp): the stores
// settle one after the other in list order. Each store only settles its own
// reservations, so the day's outcome is every store's own settlement of the
// morning log, and the customers and stores end up reflecting all of them.
module DayEnd {
  import opened Reservations
  import opened ReservationLog
  import opened Restaurants
  import opened Customers
  import opened Markets
  import opened Settlement
  import opened Reconciliation

  /** Settling from `a` to `b` and then from `b` to `c` does to a customer what settling from `a` to `c` does. */
  lemma SettledCustomerChain(s: CustomerState, key: int, a: seq<Reservation>, b: seq<Reservation>, c: seq<Reservation>)
    requires Settles(a, b) && Settles(b, c)
    ensures Settles(a, c)
    ensures SettledCustomer(SettledCustomer(s, key, a, b), key, b, c) == SettledCustomer(s, key, a, c)
  {
    SettledHistoryChain(s.history, key, a, b, c);
    CountChain(a, b, c, Confirmed, ByCustomer(key));
    CountChain(a, b, c, Cancelled, ByCustomer(key));
    BoostedChain(s.preference, "", Count(a, b, Confirmed, ByCustomer(key)), Count(b, c, Confirmed, ByCustomer(key)));
    LoyaltyAfterCancellationsChain(s.loyalty, Count(a, b, Cancelled, ByCustomer(key)), Count(b, c, Cancelled, ByCustomer(key)));
  }

  /** No settlement of store `id` between two logs. */
  ghost predicate Untouched(a: seq<Reservation>, b: seq<Reservation>, id: int)
    requires |a| == |b|
  {
    Count(a, b, Confirmed, ByStore(id)) == 0 && Count(a, b, Cancelled, ByStore(id)) == 0
  }

  /**
   * A store settled in only one of two consecutive stretches ends where a
   * single stretch would have left it (its ratings are not reordered).
   */
  lemma SettledStoreChain(s: StoreState, id: int, a: seq<Reservation>, b: seq<Reservation>, c: seq<Reservation>)
    requires Settles(a, b) && Settles(b, c)
    requires Untouched(a, b, id) || Untouched(b, c, id)
    ensures Settles(a, c)
    ensures SettledStore(SettledStore(s, id, a, b), id, b, c) == SettledStore(s, id, a, c)
  {
    CountChain(a, b, c, Confirmed, ByStore(id));
    CountChain(a, b, c, Cancelled, ByStore(id));
  }

  /** Reflecting two consecutive stretches of settlements is reflecting their sum. */
  lemma ReflectsChain(c0: map<int, CustomerState>, s0: seq<StoreState>, c1: map<int, CustomerState>, s1: seq<StoreState>,
                      c2: map<int, CustomerState>, s2: seq<StoreState>, ids: seq<int>,
                      a: seq<Reservation>, b: seq<Reservation>, c: seq<Reservation>)
    requires Settles(a, b) && Settles(b, c)
    requires Reflects(c1, s1, ids, c0, s0, a, b) && Reflects(c2, s2, ids, c1, s1, b, c)
    requires forall q :: 0 <= q < |ids| ==> Untouched(a, b, ids[q]) || Untouched(b, c, ids[q])
    ensures Settles(a, c)
    ensures Reflects(c2, s2, ids, c0, s0, a, c)
  {
    SettlesChain(a, b, c);
    forall k | k in c2
      ensures c2[k] == SettledCustomer(c0[k], k, a, c)
    {
      SettledCustomerChain(c0[k], k, a, b, c);
    }
    forall q | 0 <= q < |ids|
      ensures s2[q] == SettledStore(s0[q], ids[q], a, c)
    {
      SettledStoreChain(s0[q], ids[q], a, b, c);
    }
  }

  /** Two logs that agree on every reservation of store `id` record no settlement of it. */
  lemma UntouchedWhenEqual(a: seq<Reservation>, b: seq<Reservation>, id: int)
    requires |a| == |b|
    requires forall j :: 0 <= j < |a| && a[j].restaurantId == id ==> b[j] == a[j]
    ensures Untouched(a, b, id)
  {
    CountNone(a, b, Confirmed, ByStore(id));
    CountNone(a, b, Cancelled, ByStore(id));
  }

  /**
   * What holds after the first `p` stores of the list have settled: the log
   * is a later state of the morning log `log0`; a reservation for any store
   * not yet processed is as it was; one for a processed store `q` is as
   * that store's own settlement of `log0`, in the allowed order `orders[q]`,
   * leaves it; and the customer and store states reflect the settlements made.
   */
  ghost predicate DaySoFar<C>(log0: seq<Reservation>, log: seq<Reservation>, customers: map<int, C>, stocks: seq<Stock>,
                              ids: seq<int>, p: int, orders: seq<seq<int>>, c0: map<int, CustomerState>, s0: seq<StoreState>,
                              cs: map<int, CustomerState>, ss: seq<StoreState>)
  {
    && |stocks| == |ids| && 0 <= p <= |ids| && |orders| == p
    && Settles(log0, log)
    && (forall j :: 0 <= j < |log0| && log0[j].restaurantId !in ids[..p] ==> log[j] == log0[j])
    && (forall q :: 0 <= q < p ==> SettlingOrder(log0, stocks[q].id, orders[q]))
    && (forall q, j :: 0 <= q < p && 0 <= j < |log0| && log0[j].restaurantId == ids[q] ==>
          log[j] == StoreDay(log0, customers, stocks[q], orders[q])[j])
    && Reflects(cs, ss, ids, c0, s0, log0, log)
  }

  /** Before any store has settled, nothing has changed. */
  lemma DayStart<C>(log0: seq<Reservation>, customers: map<int, C>, stocks: seq<Stock>, ids: seq<int>,
                    c0: map<int, CustomerState>, s0: seq<StoreState>)
    requires |stocks| == |ids| == |s0|
    ensures DaySoFar(log0, log0, customers, stocks, ids, 0, [], c0, s0, c0, s0)
  {
    ReflectsNone(c0, s0, ids, log0);
  }

  /** Store `p` settling its own reservations moves the log part of DaySoFar from `p` to `p + 1`. */
  lemma DayStepLog<C>(log0: seq<Reservation>, log: seq<Reservation>, log': seq<Reservation>, customers: map<int, C>,
                      stocks: seq<Stock>, ids: seq<int>, p: int, order: seq<int>)
    requires |stocks| == |ids| && 0 <= p < |ids|
    requires forall q :: 0 <= q < |ids| ==> stocks[q].id == ids[q]
    requires forall q, q' :: 0 <= q < q' < |ids| ==> ids[q] != ids[q']
    requires Settles(log0, log)
    requires forall j :: 0 <= j < |log0| && log0[j].restaurantId !in ids[..p] ==> log[j] == log0[j]
    requires SettlingOrder(log, stocks[p].id, order) && log' == StoreDay(log, customers, stocks[p], order)
    ensures SettlingOrder(log0, stocks[p].id, order)
    ensures forall j :: 0 <= j < |log0| && log0[j].restaurantId == ids[p] ==> log'[j] == StoreDay(log0, customers, stocks[p], order)[j]
    ensures forall j :: 0 <= j < |log0| && log0[j].restaurantId != ids[p] ==> log'[j] == log[j]
    ensures Untouched(log0, log, ids[p])
  {
    assert ids[p] !in ids[..p];
    forall j | 0 <= j < |log0| && (log[j].restaurantId == ids[p] || log0[j].restaurantId == ids[p])
      ensures log[j] == log0[j]
    {}
    StoreDayAgree(log, log0, customers, stocks[p], order);
    StoreDayEffect(log, customers, stocks[p], order);
    UntouchedWhenEqual(log0, log, ids[p]);
  }

  /** DaySoFar moves from `p` to `p + 1` when store `p` settles its own reservations. */
  lemma DayStep<C>(log0: seq<Reservation>, log: seq<Reservation>, log': seq<Reservation>, customers: map<int, C>,
                   stocks: seq<Stock>, ids: seq<int>, p: int, orders: seq<seq<int>>, order: seq<int>,
                   c0: map<int, CustomerState>, s0: seq<StoreState>,
                   cs: map<int, CustomerState>, ss: seq<StoreState>, cs': map<int, CustomerState>, ss': seq<StoreState>)
    requires |stocks| == |ids| && 0 <= p < |ids|
    requires forall q :: 0 <= q < |ids| ==> stocks[q].id == ids[q]
    requires forall q, q' :: 0 <= q < q' < |ids| ==> ids[q] != ids[q']
    requires DaySoFar(log0, log, customers, stocks, ids, p, orders, c0, s0, cs, ss)
    requires SettlingOrder(log, stocks[p].id, order) && log' == StoreDay(log, customers, stocks[p], order)
    requires Settles(log, log') && Reflects(cs', ss', ids, cs, ss, log, log')
    ensures DaySoFar(log0, log', customers, stocks, ids, p + 1, orders + [order], c0, s0, cs', ss')
  {
    DayStepLog(log0, log, log', customers, stocks, ids, p, order);
    forall q | 0 <= q < |ids| && q != p
      ensures Untouched(log, log', ids[q])
    {
      UntouchedWhenEqual(log, log', ids[q]);
    }
    ReflectsChain(c0, s0, cs, ss, cs', ss', ids, log0, log, log');
    forall j | 0 <= j < |log0| && log0[j].restaurantId !in ids[..p + 1]
      ensures log'[j] == log0[j]
    {
      assert log0[j].restaurantId !in ids[..p];
    }
  }

  /** The stocks of a list of stores. */
  function StocksOf(rs: seq<Restaurant>): (ss: seq<Stock>)
    reads (set r | r in rs)`actualBags, (set r | r in rs)`maxBagsPerCustomer
    ensures |ss| == |rs|
    ensures forall q :: 0 <= q < |rs| ==> ss[q] == StockOf(rs[q])
  {
    if rs == [] then [] else StocksOf(rs[..|rs| - 1]) + [StockOf(rs[|rs| - 1])]
  }

  /** Store `p`'s turn in process_end_of_day: it settles its own reservations, which moves DaySoFar on to `p + 1`. */
  method SettleTurn(market: MarketState, p: int, ghost log0: seq<Reservation>, ghost stocks: seq<Stock>, ghost ids: seq<int>,
                    ghost orders: seq<seq<int>>, ghost c0: map<int, CustomerState>, ghost s0: seq<StoreState>)
    returns (ghost order: seq<int>)
    requires market.Valid() && market.DistinctIds()
    requires 0 <= p < |market.restaurants| && market.restaurants[p].actualBags >= 0
    requires ids == StoreIds(market) && |stocks| == |ids|
    requires forall q :: 0 <= q < |ids| ==> stocks[q].id == ids[q]
    requires StocksOf(market.restaurants) == stocks
    requires DaySoFar(log0, market.reservations, market.customers, stocks, ids, p, orders, c0, s0, CustomerStates(market), StoreStates(market))
    modifies market`reservations
    modifies (set k | k in market.customers :: market.customers[k])`history,
             (set k | k in market.customers :: market.customers[k])`categoryPreference,
             (set k | k in market.customers :: market.customers[k])`loyalty
    modifies {market.restaurants[p]}`generalRanking, {market.restaurants[p]}`totalOrdersConfirmed,
             {market.restaurants[p]}`dailyOrdersConfirmed, {market.restaurants[p]}`totalOrdersCancelled,
             {market.restaurants[p]}`dailyOrdersCancelled
    ensures StocksOf(market.restaurants) == stocks
    ensures DaySoFar(log0, market.reservations, market.customers, stocks, ids, p + 1, orders + [order], c0, s0,
                     CustomerStates(market), StoreStates(market))
  {
    ghost var log := market.reservations;
    ghost var cs := CustomerStates(market);
    ghost var ss := StoreStates(market);
    order := SettleStore(market, p);
    assert StockOf(market.restaurants[p]) == stocks[p];
    DayStep(log0, log, market.reservations, market.customers, stocks, ids, p, orders, order, c0, s0, cs, ss,
            CustomerStates(market), StoreStates(market));
  }

  /**
   * process_end_of_day: every store, in list order, settles its pending
   * reservations by its plan. Afterwards every store's reservations are as
   * its own settlement of the morning log, in some allowed order, leaves them
   * (the order in which the stores take their turn does not matter),
   * reservations for stores not in the list are untouched, and every customer
   * and every store reflects exactly the settlements made. `orders[i]` is the
   * order store `i` used.
   */
  method ProcessEndOfDay(market: MarketState) returns (ghost orders: seq<seq<int>>)
    requires market.Valid() && market.DistinctIds()
    requires forall i :: 0 <= i < |market.restaurants| ==> market.restaurants[i].actualBags >= 0
    modifies market`reservations
    modifies (set k | k in market.customers :: market.customers[k])`history,
             (set k | k in market.customers :: market.customers[k])`categoryPreference,
             (set k | k in market.customers :: market.customers[k])`loyalty
    modifies (set r | r in market.restaurants)`generalRanking, (set r | r in market.restaurants)`totalOrdersConfirmed,
             (set r | r in market.restaurants)`dailyOrdersConfirmed, (set r | r in market.restaurants)`totalOrdersCancelled,
             (set r | r in market.restaurants)`dailyOrdersCancelled
    ensures Settles(old(market.reservations), market.reservations)
    ensures |orders| == |market.restaurants|
    ensures forall i :: 0 <= i < |market.restaurants| ==>
              SettlingOrder(old(market.reservations), market.restaurants[i].businessId, orders[i])
    ensures forall i, j ::
              0 <= i < |market.restaurants| && 0 <= j < |market.reservations| &&
              old(market.reservations)[j].restaurantId == market.restaurants[i].businessId
              ==> market.reservations[j] == StoreDay(old(market.reservations), market.customers, StockOf(market.restaurants[i]), orders[i])[j]
    ensures forall j :: 0 <= j < |market.reservations| && old(market.reservations)[j].restaurantId !in StoreIds(market) ==>
              market.reservations[j] == old(market.reservations)[j]
    ensures Reflects(CustomerStates(market), StoreStates(market), StoreIds(market),
                     old(CustomerStates(market)), old(StoreStates(market)), old(market.reservations), market.reservations)
  {
    ghost var log0 := market.reservations;
    ghost var c0 := CustomerStates(market);
    ghost var s0 := StoreStates(market);
    ghost var ids := StoreIds(market);
    ghost var stocks := StocksOf(market.restaurants);
    DayStart(log0, market.customers, stocks, ids, c0, s0);
    orders := [];
    var p := 0;
    while p < |market.restaurants|
      invariant 0 <= p <= |market.restaurants|
      invariant StocksOf(market.restaurants) == stocks
      invariant DaySoFar(log0, market.reservations, market.customers, stocks, ids, p, orders, c0, s0,
                         CustomerStates(market), StoreStates(market))
    {
      ghost var order := SettleTurn(market, p, log0, stocks, ids, orders, c0, s0);
      orders := orders + [order];
      p := p + 1;
    }
    assert ids[..p] == ids;
    assert StoreIds(market) == ids;
  }
}
