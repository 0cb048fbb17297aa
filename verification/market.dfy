// The shared state of one simulated day (MarketState.h / MarketState.cpp):
// the stores, the customers by id, the reservation log, the clock, the next
// reservation id and the per-store impression counts.
module Markets {
  import opened Timestamps
  import opened Reservations
  import opened Restaurants
  import opened Customers

  /** The ids of the stores that can still take a reservation, in list order. */
  function AvailableOf(rs: seq<Restaurant>): (ids: seq<int>)
    reads rs
    ensures |ids| <= |rs|
  {
    if rs == [] then []
    else
      var last := rs[|rs| - 1];
      AvailableOf(rs[..|rs| - 1]) + (if last.CanAcceptReservation() then [last.businessId] else [])
  }

  /** An id is listed exactly when some store with that id can take a reservation. */
  lemma {:induction false} AvailableOfMembership(rs: seq<Restaurant>, id: int)
    ensures id in AvailableOf(rs) <==>
            exists i :: 0 <= i < |rs| && rs[i].CanAcceptReservation() && rs[i].businessId == id
  {
    if rs != [] {
      var init := rs[..|rs| - 1];
      AvailableOfMembership(init, id);
      if id in AvailableOf(init) {
        var i :| 0 <= i < |init| && init[i].CanAcceptReservation() && init[i].businessId == id;
        assert rs[i] == init[i];
      }
      if exists i :: 0 <= i < |rs| && rs[i].CanAcceptReservation() && rs[i].businessId == id {
        var i :| 0 <= i < |rs| && rs[i].CanAcceptReservation() && rs[i].businessId == id;
        if i < |init| {
          assert init[i] == rs[i];
        }
      }
    }
  }

  /** The position of the first store with the given id, or -1. */
  function FirstIndex(rs: seq<Restaurant>, id: int): (k: int)
    ensures -1 <= k < |rs|
    ensures k >= 0 ==> rs[k].businessId == id && forall i :: 0 <= i < k ==> rs[i].businessId != id
    ensures k == -1 ==> forall i :: 0 <= i < |rs| ==> rs[i].businessId != id
  {
    if rs == [] then -1
    else if rs[0].businessId == id then 0
    else
      var k := FirstIndex(rs[1..], id);
      if k < 0 then -1 else k + 1
  }

  /** With distinct ids, the first store with a store's own id is that store. */
  lemma FirstIndexOfDistinct(rs: seq<Restaurant>, i: int)
    requires 0 <= i < |rs|
    requires forall a, b :: 0 <= a < b < |rs| ==> rs[a].businessId != rs[b].businessId
    ensures FirstIndex(rs, rs[i].businessId) == i
  {}

  /** The business id of every store, in list order. */
  function IdsOf(rs: seq<Restaurant>): (ids: seq<int>)
    ensures |ids| == |rs|
    ensures forall i :: 0 <= i < |ids| ==> ids[i] == rs[i].businessId
  {
    if rs == [] then [] else IdsOf(rs[..|rs| - 1]) + [rs[|rs| - 1].businessId]
  }

  class MarketState {
    var restaurants: seq<Restaurant>
    var customers: map<int, Customer>
    var reservations: seq<Reservation>
    var currentTime: Timestamp
    var nextReservationId: int
    var impressionCounts: map<int, int>

    /** Every store and every customer is a separate object, as the program's containers hold them by value. */
    ghost predicate Valid()
      reads this`restaurants, this`customers
    {
      (forall i, j :: 0 <= i < j < |restaurants| ==> restaurants[i] != restaurants[j]) &&
      (forall k1, k2 :: k1 in customers && k2 in customers && k1 != k2 ==> customers[k1] != customers[k2])
    }

    /** No two stores share a business id. */
    predicate DistinctIds()
      reads this`restaurants
    {
      forall a, b :: 0 <= a < b < |restaurants| ==> restaurants[a].businessId != restaurants[b].businessId
    }

    /** The opening state: 8:00, reservation ids from 1, nothing loaded yet. */
    constructor ()
      ensures Valid()
      ensures currentTime == DefaultTime && nextReservationId == 1
      ensures restaurants == [] && customers == map[] && reservations == [] && impressionCounts == map[]
    {
      restaurants := [];
      customers := map[];
      reservations := [];
      currentTime := DefaultTime;
      nextReservationId := 1;
      impressionCounts := map[];
    }

    method GetAvailableRestaurantIds() returns (ids: seq<int>)
      ensures ids == AvailableOf(restaurants)
    {
      ids := [];
      var i := 0;
      while i < |restaurants|
        invariant 0 <= i <= |restaurants|
        invariant ids == AvailableOf(restaurants[..i])
      {
        assert restaurants[..i + 1][..i] == restaurants[..i];
        if restaurants[i].CanAcceptReservation() {
          ids := ids + [restaurants[i].businessId];
        }
        i := i + 1;
      }
      assert restaurants[..i] == restaurants;
    }

    /** The first store with the given id, or null. */
    function FindRestaurant(id: int): (r: Restaurant?)
      reads this`restaurants
      ensures r == null <==> forall i :: 0 <= i < |restaurants| ==> restaurants[i].businessId != id
      ensures r != null ==> r in restaurants && r.businessId == id
      ensures r != null ==> r == restaurants[FirstIndex(restaurants, id)]
    {
      var k := FirstIndex(restaurants, id);
      if k < 0 then null else restaurants[k]
    }

    method GetRestaurant(id: int) returns (r: Restaurant?)
      ensures r == FindRestaurant(id)
    {
      var i := 0;
      while i < |restaurants|
        invariant 0 <= i <= |restaurants|
        invariant forall k :: 0 <= k < i ==> restaurants[k].businessId != id
      {
        if restaurants[i].businessId == id {
          assert FirstIndex(restaurants, id) == i;
          return restaurants[i];
        }
        i := i + 1;
      }
      return null;
    }

    /** The customer registered under the id, or null. */
    function GetCustomer(id: int): (c: Customer?)
      reads this`customers
      ensures c == null <==> id !in customers
      ensures c != null ==> c == customers[id]
    {
      if id in customers then customers[id] else null
    }
  }
}
