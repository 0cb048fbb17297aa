// A store offering surprise bags (Restaurant.h / Restaurant.cpp), and the
// rule by which its rating drifts with each settled order.
module Restaurants {
  import opened Common

  /** The rating after one confirmed order: up 0.01, capped at 5. */
  function RaisedRating(r: real): real { MinR(5.0, r + 0.01) }

  /** The rating after one cancelled order: down 0.05, floored at 1. */
  function LoweredRating(r: real): real { MaxR(1.0, r - 0.05) }

  datatype Outcome = Confirmation | Cancellation

  /** The rating after a sequence of settled orders, applied in order. */
  function RatingAfter(r: real, events: seq<Outcome>): real {
    if events == [] then r
    else
      var last := events[|events| - 1];
      var before := RatingAfter(r, events[..|events| - 1]);
      if last == Confirmation then RaisedRating(before) else LoweredRating(before)
  }

  /** A rating inside [1, 5] stays inside [1, 5] whatever orders are settled. */
  lemma {:induction false} RatingStaysInRange(r: real, events: seq<Outcome>)
    requires 1.0 <= r <= 5.0
    ensures 1.0 <= RatingAfter(r, events) <= 5.0
  {
    if events != [] {
      RatingStaysInRange(r, events[..|events| - 1]);
    }
  }

  /** `n` confirmations in a row. */
  function RaisedTimes(r: real, n: nat): real {
    if n == 0 then r else RaisedRating(RaisedTimes(r, n - 1))
  }

  /** `n` cancellations in a row. */
  function LoweredTimes(r: real, n: nat): real {
    if n == 0 then r else LoweredRating(LoweredTimes(r, n - 1))
  }

  /** The caps only bite once: n confirmations add 0.01 n up to 5. */
  lemma {:induction false} RaisedTimesClosedForm(r: real, n: nat)
    requires n >= 1
    ensures RaisedTimes(r, n) == MinR(5.0, r + 0.01 * n as real)
  {
    if n > 1 {
      RaisedTimesClosedForm(r, n - 1);
    }
  }

  /** n cancellations take 0.05 n off, down to 1. */
  lemma {:induction false} LoweredTimesClosedForm(r: real, n: nat)
    requires n >= 1
    ensures LoweredTimes(r, n) == MaxR(1.0, r - 0.05 * n as real)
  {
    if n > 1 {
      LoweredTimesClosedForm(r, n - 1);
    }
  }

  class Restaurant {
    /** Set once when the store is created; nothing in the simulation reassigns it. */
    const businessId: int
    var businessName: string
    var branch: string
    var estimatedBags: int
    var generalRanking: real
    var pricePerBag: real
    var longitude: real
    var latitude: real
    var businessType: string
    var actualBags: int
    var reservedCount: int
    var hasInventory: bool
    var maxBagsPerCustomer: int
    var totalOrdersConfirmed: int
    var totalOrdersCancelled: int
    var initialRating: real
    var ratingAtDayStart: real
    var dailyOrdersConfirmed: int
    var dailyOrdersCancelled: int

    /** A fresh store for today: nothing reserved, three bags per customer at most. */
    ghost predicate Fresh(rating: real)
      reads this
    {
      && actualBags == 0 && reservedCount == 0 && hasInventory && maxBagsPerCustomer == 3
      && totalOrdersConfirmed == 0 && totalOrdersCancelled == 0
      && dailyOrdersConfirmed == 0 && dailyOrdersCancelled == 0
      && generalRanking == rating && initialRating == rating && ratingAtDayStart == rating
    }

    /** The constructor used when loading stores. */
    constructor (id: int, name: string, branchName: string, estBags: int, rating: real,
                 price: real, lon: real, lat: real, kind: string)
      ensures Fresh(rating)
      ensures businessId == id && businessName == name && branch == branchName
      ensures estimatedBags == estBags && pricePerBag == price
      ensures longitude == lon && latitude == lat && businessType == kind
    {
      businessId, businessName, branch := id, name, branchName;
      estimatedBags, generalRanking, pricePerBag := estBags, rating, price;
      longitude, latitude, businessType := lon, lat, kind;
      actualBags, reservedCount, hasInventory := 0, 0, true;
      maxBagsPerCustomer, totalOrdersConfirmed, totalOrdersCancelled := 3, 0, 0;
      initialRating, ratingAtDayStart := rating, rating;
      dailyOrdersConfirmed, dailyOrdersCancelled := 0, 0;
    }

    /** The legacy constructor: no branch, located at (0, 0). */
    constructor Legacy(id: int, name: string, rating: real, kind: string, estBags: int, price: real)
      ensures Fresh(rating)
      ensures businessId == id && businessName == name && branch == ""
      ensures estimatedBags == estBags && pricePerBag == price
      ensures longitude == 0.0 && latitude == 0.0 && businessType == kind
    {
      businessId, businessName, branch := id, name, "";
      estimatedBags, generalRanking, pricePerBag := estBags, rating, price;
      longitude, latitude, businessType := 0.0, 0.0, kind;
      actualBags, reservedCount, hasInventory := 0, 0, true;
      maxBagsPerCustomer, totalOrdersConfirmed, totalOrdersCancelled := 3, 0, 0;
      initialRating, ratingAtDayStart := rating, rating;
      dailyOrdersConfirmed, dailyOrdersCancelled := 0, 0;
    }

    /** A store is offered while it has inventory and fewer reservations than its forecast. */
    predicate CanAcceptReservation()
      reads this
    {
      hasInventory && reservedCount < estimatedBags
    }

    /** A store is offered exactly while it has inventory and unsold bags left. */
    lemma AcceptsWhileUnsold()
      ensures CanAcceptReservation() <==> hasInventory && UnsoldBags() > 0
    {}

    /** Bags not yet reserved against the forecast, never negative. */
    function UnsoldBags(): (u: int)
      reads this
      ensures u >= 0 && u >= estimatedBags - reservedCount
      ensures u == 0 || u == estimatedBags - reservedCount
    {
      Max(0, estimatedBags - reservedCount)
    }

    method SetActualInventory(bags: int)
      modifies this`actualBags
      ensures actualBags == bags
    {
      actualBags := bags;
    }

    method UpdateRatingOnConfirmation()
      modifies this`totalOrdersConfirmed, this`dailyOrdersConfirmed, this`generalRanking
      ensures totalOrdersConfirmed == old(totalOrdersConfirmed) + 1
      ensures dailyOrdersConfirmed == old(dailyOrdersConfirmed) + 1
      ensures generalRanking == RaisedRating(old(generalRanking))
      ensures generalRanking >= old(generalRanking) || generalRanking == 5.0
    {
      totalOrdersConfirmed := totalOrdersConfirmed + 1;
      dailyOrdersConfirmed := dailyOrdersConfirmed + 1;
      generalRanking := MinR(5.0, generalRanking + 0.01);
    }

    method UpdateRatingOnCancellation()
      modifies this`totalOrdersCancelled, this`dailyOrdersCancelled, this`generalRanking
      ensures totalOrdersCancelled == old(totalOrdersCancelled) + 1
      ensures dailyOrdersCancelled == old(dailyOrdersCancelled) + 1
      ensures generalRanking == LoweredRating(old(generalRanking))
      ensures generalRanking <= old(generalRanking) || generalRanking == 1.0
    {
      totalOrdersCancelled := totalOrdersCancelled + 1;
      dailyOrdersCancelled := dailyOrdersCancelled + 1;
      generalRanking := MaxR(1.0, generalRanking - 0.05);
    }

    /** The rating every ranking and score reads: the current general ranking, not the initial one. */
    function GetRating(): real
      reads this
    {
      generalRanking
    }
  }
}
