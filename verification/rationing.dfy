// How a store's real stock is shared among its pending reservations at the
// end of the day (RestaurantManagementSystem.cpp, process_end_of_day), as a
// plan: one decision per reservation, in pickup-time order. A reservation
// whose customer is not registered is passed over and stays pending.
module Rationing {
  import opened Common

  datatype Decision = Confirm(bags: int) | Cancel | Skip

  /** How many reservations have a registered customer. */
  function PresentCount(present: seq<bool>): (n: nat)
    ensures n <= |present|
  {
    if present == [] then 0
    else PresentCount(present[..|present| - 1]) + (if present[|present| - 1] then 1 else 0)
  }

  /** The bags handed out by a plan. */
  function TotalBags(ds: seq<Decision>): int {
    if ds == [] then 0
    else TotalBags(ds[..|ds| - 1]) + (if ds[|ds| - 1].Confirm? then ds[|ds| - 1].bags else 0)
  }

  function Confirmations(ds: seq<Decision>): nat {
    if ds == [] then 0 else Confirmations(ds[..|ds| - 1]) + (if ds[|ds| - 1].Confirm? then 1 else 0)
  }

  function Cancellations(ds: seq<Decision>): nat {
    if ds == [] then 0 else Cancellations(ds[..|ds| - 1]) + (if ds[|ds| - 1].Cancel? then 1 else 0)
  }

  /** The even share of `actual` bags among `k` reservations, capped per customer. */
  function Share(actual: int, k: int, maxPer: int): (s: int)
    requires actual >= k > 0
    ensures s <= maxPer && s * k <= actual
    ensures s == maxPer || s == actual / k
  {
    var q := actual / k;
    assert q * k <= actual;
    if maxPer <= q then
      assert maxPer * k <= q * k by {
        if maxPer < q { assert maxPer * k < q * k; }
      }
      maxPer
    else q
  }

  /** One registered customer's grant: the share, plus one while extras remain and the share is below the cap. */
  function Grant(present: bool, extraLeft: int, share: int, maxPer: int): Decision {
    if !present then Skip
    else if extraLeft > 0 && share < maxPer then Confirm(share + 1)
    else Confirm(share)
  }

  /** The extra bags still left after the given reservations have been served. */
  function ExtraLeft(present: seq<bool>, share: int, extra: int, maxPer: int): int {
    if present == [] then extra
    else
      var e := ExtraLeft(present[..|present| - 1], share, extra, maxPer);
      if present[|present| - 1] && e > 0 && share < maxPer then e - 1 else e
  }

  /** Enough stock for everyone: registered customers are served in order, extras first come first served. */
  function Abundance(present: seq<bool>, share: int, extra: int, maxPer: int): (ds: seq<Decision>)
    ensures |ds| == |present|
  {
    seq(|present|, t requires 0 <= t < |present| =>
      Grant(present[t], ExtraLeft(present[..t], share, extra, maxPer), share, maxPer))
  }

  lemma AbundancePrefix(present: seq<bool>, share: int, extra: int, maxPer: int, n: nat)
    requires n <= |present|
    ensures Abundance(present, share, extra, maxPer)[..n] == Abundance(present[..n], share, extra, maxPer)
  {
    forall t | 0 <= t < n
      ensures present[..n][..t] == present[..t]
    {}
  }

  /** The last decision of a plan is the grant made with the extras its predecessors left. */
  lemma AbundanceLast(present: seq<bool>, share: int, extra: int, maxPer: int)
    requires present != []
    ensures var n := |present| - 1;
            Abundance(present, share, extra, maxPer)
            == Abundance(present[..n], share, extra, maxPer) + [Grant(present[n], ExtraLeft(present[..n], share, extra, maxPer), share, maxPer)]
  {
    var n := |present| - 1;
    AbundancePrefix(present, share, extra, maxPer, n);
    var ds := Abundance(present, share, extra, maxPer);
    assert ds == ds[..n] + [ds[n]];
  }

  /** Serving the next reservation: its grant, and the extras it leaves. */
  lemma AbundanceStep(present: seq<bool>, share: int, extra: int, maxPer: int, t: int)
    requires 0 <= t < |present|
    ensures var e := ExtraLeft(present[..t], share, extra, maxPer);
            Abundance(present, share, extra, maxPer)[t] == Grant(present[t], e, share, maxPer) &&
            ExtraLeft(present[..t + 1], share, extra, maxPer) == if present[t] && e > 0 && share < maxPer then e - 1 else e
  {
    assert present[..t + 1][..t] == present[..t];
  }

  /** The extras left never go below zero nor above the start. */
  lemma {:induction false} ExtraLeftRange(present: seq<bool>, share: int, extra: int, maxPer: int)
    requires extra >= 0
    ensures 0 <= ExtraLeft(present, share, extra, maxPer) <= extra
  {
    if present != [] {
      ExtraLeftRange(present[..|present| - 1], share, extra, maxPer);
    }
  }

  lemma MulSucc(a: int, b: int)
    ensures a * (b + 1) == a * b + a
  {}

  lemma MulMono(a: int, b: int, c: int)
    requires a >= 0 && b <= c
    ensures a * b <= a * c
  {
    assert a * c - a * b == a * (c - b);
  }

  lemma TotalBagsAppend(ds: seq<Decision>, d: Decision)
    ensures TotalBags(ds + [d]) == TotalBags(ds) + (if d.Confirm? then d.bags else 0)
    ensures Confirmations(ds + [d]) == Confirmations(ds) + (if d.Confirm? then 1 else 0)
  {
    assert (ds + [d])[..|ds|] == ds;
  }

  /** Every bag beyond the share comes out of the extras. */
  lemma {:induction false} AbundanceTotals(present: seq<bool>, share: int, extra: int, maxPer: int)
    ensures TotalBags(Abundance(present, share, extra, maxPer))
            == share * PresentCount(present) + (extra - ExtraLeft(present, share, extra, maxPer))
  {
    if present != [] {
      var n := |present| - 1;
      var pre := present[..n];
      AbundanceTotals(pre, share, extra, maxPer);
      AbundanceLast(present, share, extra, maxPer);
      var e := ExtraLeft(pre, share, extra, maxPer);
      var g := Grant(present[n], e, share, maxPer);
      TotalBagsAppend(Abundance(pre, share, extra, maxPer), g);
      var p := PresentCount(pre);
      assert PresentCount(present) == p + (if present[n] then 1 else 0);
      MulSucc(share, p);
    }
  }

  /** Every registered customer is confirmed. */
  lemma {:induction false} AbundanceConfirmsAll(present: seq<bool>, share: int, extra: int, maxPer: int)
    ensures Confirmations(Abundance(present, share, extra, maxPer)) == PresentCount(present)
  {
    if present != [] {
      var n := |present| - 1;
      var pre := present[..n];
      AbundanceConfirmsAll(pre, share, extra, maxPer);
      AbundanceLast(present, share, extra, maxPer);
      TotalBagsAppend(Abundance(pre, share, extra, maxPer), Grant(present[n], ExtraLeft(pre, share, extra, maxPer), share, maxPer));
    }
  }

  /** Not enough stock: the first `actual` reservations get one bag each, the rest are cancelled. */
  function Scarcity(present: seq<bool>, actual: int): (ds: seq<Decision>)
    ensures |ds| == |present|
  {
    seq(|present|, t requires 0 <= t < |present| =>
      if !present[t] then Skip else if t < actual then Confirm(1) else Cancel)
  }

  /** The decisions for a store with `actual` bags and the given presence flags, in time order. */
  function Plan(present: seq<bool>, actual: int, maxPer: int): (ds: seq<Decision>)
    ensures |ds| == |present|
    ensures forall t :: 0 <= t < |present| ==> (ds[t].Skip? <==> !present[t])
    // not enough stock: position alone decides, one bag for each of the first `actual`, the rest cancelled
    ensures 0 <= actual < |present| ==>
              forall t :: 0 <= t < |present| && present[t] ==> ds[t] == if t < actual then Confirm(1) else Cancel
    // enough stock: nobody is cancelled and every grant lies between the share and the cap
    ensures 0 < |present| <= actual ==>
              forall t :: 0 <= t < |present| && present[t] ==>
                ds[t].Confirm? && Share(actual, |present|, maxPer) <= ds[t].bags <= maxPer
  {
    var k := |present|;
    if k == 0 then []
    else if actual >= k then
      var share := Share(actual, k, maxPer);
      Abundance(present, share, actual - share * k, maxPer)
    else Scarcity(present, actual)
  }

  /** With enough stock the plan is the abundance plan for the capped even share. */
  lemma PlanWhenAbundant(present: seq<bool>, actual: int, maxPer: int)
    requires 0 < |present| <= actual
    ensures var share := Min(maxPer, actual / |present|);
            Plan(present, actual, maxPer) == Abundance(present, share, actual - share * |present|, maxPer)
  {
  }

  /** With too little stock the plan is the scarcity plan. */
  lemma PlanWhenScarce(present: seq<bool>, actual: int, maxPer: int)
    requires 0 < |present| && actual < |present|
    ensures Plan(present, actual, maxPer) == Scarcity(present, actual)
  {
  }

  /** Under any plan the confirmed reservations all come before the cancelled ones. */
  lemma PlanConfirmsBeforeCancelling(present: seq<bool>, actual: int, maxPer: int, u: int, v: int)
    requires 0 <= u < v < |present|
    requires Plan(present, actual, maxPer)[u].Cancel?
    ensures !Plan(present, actual, maxPer)[v].Confirm?
  {
  }

  /** The extras left only shrink as more customers are served. */
  lemma {:induction false} ExtraLeftShrinks(present: seq<bool>, share: int, extra: int, maxPer: int, i: nat, j: nat)
    requires i <= j <= |present|
    ensures ExtraLeft(present[..j], share, extra, maxPer) <= ExtraLeft(present[..i], share, extra, maxPer)
  {
    if i < j {
      ExtraLeftShrinks(present, share, extra, maxPer, i, j - 1);
      assert present[..j][..j - 1] == present[..j - 1];
    }
  }

  /** Extra bags go to the earliest customers: bag counts never increase along the plan. */
  lemma AbundanceNonIncreasing(present: seq<bool>, share: int, extra: int, maxPer: int, i: int, j: int)
    requires 0 <= i < j < |present| && present[i] && present[j]
    ensures Abundance(present, share, extra, maxPer)[i].bags >= Abundance(present, share, extra, maxPer)[j].bags
  {
    ExtraLeftShrinks(present, share, extra, maxPer, i, j);
  }

  /** While the share is below the cap, the extra bags are used up as long as customers remain. */
  lemma {:induction false} AbundanceUsesExtras(present: seq<bool>, share: int, extra: int, maxPer: int)
    requires extra >= 0 && share < maxPer
    ensures ExtraLeft(present, share, extra, maxPer) == Max(0, extra - PresentCount(present))
  {
    if present != [] {
      AbundanceUsesExtras(present[..|present| - 1], share, extra, maxPer);
    }
  }

  /** A plan never hands out more bags than the store has. */
  lemma PlanWithinStock(present: seq<bool>, actual: int, maxPer: int)
    requires actual >= 0 && maxPer >= 0
    ensures TotalBags(Plan(present, actual, maxPer)) <= actual
  {
    var k := |present|;
    if k > 0 {
      if actual >= k {
        var share := Share(actual, k, maxPer);
        var extra := actual - share * k;
        AbundanceTotals(present, share, extra, maxPer);
        ExtraLeftRange(present, share, extra, maxPer);
        MulMono(share, PresentCount(present), k);
      } else {
        ScarcityTotals(present, actual);
      }
    }
  }

  /** In scarcity the bags handed out and the cancellations are counted by position. */
  lemma {:induction false} ScarcityTotals(present: seq<bool>, actual: int)
    requires 0 <= actual
    ensures TotalBags(Scarcity(present, actual)) == Confirmations(Scarcity(present, actual))
    ensures Confirmations(Scarcity(present, actual)) == PresentCount(present[..Min(actual, |present|)])
    ensures Confirmations(Scarcity(present, actual)) <= actual
    ensures Confirmations(Scarcity(present, actual)) + Cancellations(Scarcity(present, actual)) == PresentCount(present)
  {
    if present != [] {
      var n := |present| - 1;
      ScarcityTotals(present[..n], actual);
      assert Scarcity(present, actual)[..n] == Scarcity(present[..n], actual);
      if n < actual {
        assert present[..Min(actual, |present|)] == present;
        assert present[..n][..Min(actual, n)] == present[..n];
      } else {
        assert present[..Min(actual, |present|)] == present[..n][..Min(actual, n)];
      }
    }
  }

  /** When every customer is registered and the share is below the cap, all the stock is handed out. */
  lemma PlanUsesAllStock(present: seq<bool>, actual: int, maxPer: int)
    requires actual >= 0
    requires forall t :: 0 <= t < |present| ==> present[t]
    requires |present| > 0 && (actual < |present| || actual / |present| < maxPer)
    ensures TotalBags(Plan(present, actual, maxPer)) == actual
  {
    var k := |present|;
    AllPresent(present);
    if actual >= k {
      var share := Share(actual, k, maxPer);
      var extra := actual - share * k;
      AbundanceUsesExtras(present, share, extra, maxPer);
      AbundanceTotals(present, share, extra, maxPer);
      assert extra < k;
    } else {
      ScarcityTotals(present, actual);
      assert present[..actual][..] == present[..actual];
      AllPresent(present[..actual]);
    }
  }

  lemma {:induction false} AllPresent(present: seq<bool>)
    requires forall t :: 0 <= t < |present| ==> present[t]
    ensures PresentCount(present) == |present|
  {
    if present != [] {
      AllPresent(present[..|present| - 1]);
    }
  }
}
