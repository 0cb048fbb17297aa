// A customer's reservation of a surprise bag (Reservation.h / Reservation.cpp).
module Reservations {
  import opened Timestamps

  datatype Status = Pending | Confirmed | Cancelled

  /** `bagsReceived` is the number of bags handed over; it stays 0 unless confirmed. */
  datatype Reservation = Reservation(
    reservationId: int,
    customerId: int,
    restaurantId: int,
    reservationTime: Timestamp,
    status: Status,
    bagsReceived: int)

  /** The constructor: a new reservation waits for the end of the day with no bags. */
  function NewReservation(resId: int, custId: int, restId: int, time: Timestamp): (r: Reservation)
    ensures r.status == Pending && r.bagsReceived == 0
    ensures r.reservationId == resId && r.customerId == custId && r.restaurantId == restId
    ensures r.reservationTime == time
  {
    Reservation(resId, custId, restId, time, Pending, 0)
  }
}

// The reservation log and how settling it at the end of the day is counted.
module ReservationLog {
  import opened Reservations

  /** Which reservations a count looks at. */
  datatype Scope = ByCustomer(customer: int) | ByStore(store: int) | ByCustomerAtStore(customer: int, store: int)

  predicate InScope(r: Reservation, sc: Scope) {
    match sc
    case ByCustomer(c) => r.customerId == c
    case ByStore(s) => r.restaurantId == s
    case ByCustomerAtStore(c, s) => r.customerId == c && r.restaurantId == s
  }

  /** `b` is a later state of log `a`: the same reservations, of which only pending ones may have been settled. */
  predicate Settles(a: seq<Reservation>, b: seq<Reservation>) {
    |a| == |b| &&
    forall j :: 0 <= j < |a| ==>
      (a[j].status != Pending ==> b[j] == a[j]) &&
      b[j] == a[j].(status := b[j].status, bagsReceived := b[j].bagsReceived)
  }

  /** How many reservations in scope went from pending in `a` to `st` in `b`. */
  function Count(a: seq<Reservation>, b: seq<Reservation>, st: Status, sc: Scope): nat
    requires |a| == |b|
  {
    CountFirst(a, b, st, sc, |a|)
  }

  /** The same count over the first `n` positions only. */
  function CountFirst(a: seq<Reservation>, b: seq<Reservation>, st: Status, sc: Scope, n: nat): nat
    requires |a| == |b| && n <= |a|
  {
    if n == 0 then 0
    else CountFirst(a, b, st, sc, n - 1) + (if a[n - 1].status == Pending && b[n - 1].status == st && InScope(a[n - 1], sc) then 1 else 0)
  }

  /** Nothing settled yet: every count is zero. */
  lemma CountNone(a: seq<Reservation>, b: seq<Reservation>, st: Status, sc: Scope)
    requires |a| == |b| && st != Pending
    requires forall j :: 0 <= j < |a| && InScope(a[j], sc) && a[j].status == Pending ==> b[j].status == Pending
    ensures Count(a, b, st, sc) == 0
  {
    CountFirstNone(a, b, st, sc, |a|);
  }

  lemma {:induction false} CountFirstNone(a: seq<Reservation>, b: seq<Reservation>, st: Status, sc: Scope, n: nat)
    requires |a| == |b| && n <= |a| && st != Pending
    requires forall j :: 0 <= j < n && InScope(a[j], sc) && a[j].status == Pending ==> b[j].status == Pending
    ensures CountFirst(a, b, st, sc, n) == 0
  {
    if n > 0 {
      CountFirstNone(a, b, st, sc, n - 1);
    }
  }

  /** Settling one pending reservation adds one to exactly the counts it falls in. */
  lemma CountSettleOne(a: seq<Reservation>, b: seq<Reservation>, j: int, st: Status, bags: int,
                       st': Status, sc: Scope)
    requires Settles(a, b) && 0 <= j < |b| && b[j].status == Pending
    requires st != Pending && st' != Pending
    ensures Settles(a, b[j := b[j].(status := st, bagsReceived := bags)])
    ensures Count(a, b[j := b[j].(status := st, bagsReceived := bags)], st', sc)
            == Count(a, b, st', sc) + (if st == st' && InScope(a[j], sc) then 1 else 0)
  {
    CountFirstSettleOne(a, b, j, st, bags, st', sc, |a|);
  }

  lemma {:induction false} CountFirstSettleOne(a: seq<Reservation>, b: seq<Reservation>, j: int, st: Status, bags: int,
                                               st': Status, sc: Scope, n: nat)
    requires Settles(a, b) && 0 <= j < |b| && b[j].status == Pending && n <= |a|
    requires st != Pending && st' != Pending
    ensures CountFirst(a, b[j := b[j].(status := st, bagsReceived := bags)], st', sc, n)
            == CountFirst(a, b, st', sc, n) + (if j < n && st == st' && InScope(a[j], sc) then 1 else 0)
  {
    if n > 0 {
      CountFirstSettleOne(a, b, j, st, bags, st', sc, n - 1);
    }
  }

  /** Counts add up along a chain of settlements. */
  lemma CountChain(a: seq<Reservation>, b: seq<Reservation>, c: seq<Reservation>, st: Status, sc: Scope)
    requires Settles(a, b) && Settles(b, c) && st != Pending
    ensures Settles(a, c)
    ensures Count(a, c, st, sc) == Count(a, b, st, sc) + Count(b, c, st, sc)
  {
    CountFirstChain(a, b, c, st, sc, |a|);
  }

  lemma {:induction false} CountFirstChain(a: seq<Reservation>, b: seq<Reservation>, c: seq<Reservation>, st: Status, sc: Scope, n: nat)
    requires Settles(a, b) && Settles(b, c) && st != Pending && n <= |a|
    ensures CountFirst(a, c, st, sc, n) == CountFirst(a, b, st, sc, n) + CountFirst(b, c, st, sc, n)
  {
    if n > 0 {
      CountFirstChain(a, b, c, st, sc, n - 1);
    }
  }
}
