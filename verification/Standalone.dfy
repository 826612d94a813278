/**
  Separate margin: what per-position and per-order margin would lock. Cross margin never
  locks more.
 */
module Standalone {
  import opened Common
  import opened Payoffs
  import opened Stress
  import opened WorstCase

  /** The part of an order that reduces a futures position while closing capacity lasts. */
  function ClosingPart(p: Payoff, held: int, qty: int, capacity: int): int {
    if p.Banded? && held != 0 && (held > 0) != (qty > 0) then Min(Abs(qty), capacity) else 0
  }

  /** The closing capacity left per instrument after the orders, taken in the order given. */
  function Capacity(instruments: seq<Instrument>, net: seq<int>, orders: seq<Priced>): (c: seq<int>)
    requires |net| == |instruments| && Fit(|net|, orders)
    ensures |c| == |net| && forall i :: 0 <= i < |c| ==> 0 <= c[i]
  {
    if orders == [] then seq(|net|, i requires 0 <= i < |net| => Abs(net[i]))
    else
      var n := |orders| - 1;
      var o := orders[n];
      var before := Capacity(instruments, net, orders[..n]);
      before[o.inst := before[o.inst] - ClosingPart(instruments[o.inst].payoff, net[o.inst], o.qty, before[o.inst])]
  }

  function UnitLock(p: Payoff, o: Priced): int {
    if o.qty > 0 then o.unit else p.MaxValue() - o.unit
  }

  /** What the orders lock, closing parts excluded. */
  function OrderLocks(instruments: seq<Instrument>, net: seq<int>, orders: seq<Priced>): int
    requires |net| == |instruments| && Fit(|net|, orders)
  {
    if orders == [] then 0
    else
      var n := |orders| - 1;
      var o := orders[n];
      var p := instruments[o.inst].payoff;
      var closing := ClosingPart(p, net[o.inst], o.qty, Capacity(instruments, net, orders[..n])[o.inst]);
      OrderLocks(instruments, net, orders[..n]) + UnitLock(p, o) * (Abs(o.qty) - closing)
  }

  /** What short positions lock: their full value. */
  function ShortLocks(instruments: seq<Instrument>, net: seq<int>, n: nat): int
    requires |net| == |instruments| && n <= |net|
  {
    if n == 0 then 0
    else ShortLocks(instruments, net, n - 1) +
         if net[n - 1] < 0 then instruments[n - 1].payoff.MaxValue() * Abs(net[n - 1]) else 0
  }

  function StandaloneOf(instruments: seq<Instrument>, net: seq<int>, orders: seq<Priced>): int
    requires |net| == |instruments| && Fit(|net|, orders)
  {
    ShortLocks(instruments, net, |net|) + OrderLocks(instruments, net, orders)
  }

  /** Every contract is worth between nothing and its maximum in this scenario. */
  predicate InBounds(instruments: seq<Instrument>, v: seq<int>) {
    |v| == |instruments| && forall i :: 0 <= i < |v| ==> 0 <= v[i] <= instruments[i].payoff.MaxValue()
  }

  predicate FairlyPriced(instruments: seq<Instrument>, orders: seq<Priced>) {
    Fit(|instruments|, orders) &&
    forall j :: 0 <= j < |orders| ==> 0 <= orders[j].unit <= instruments[orders[j].inst].payoff.MaxValue()
  }

  /** How much one unit of closing capacity is worth in scenario `v`. */
  function Relief(instruments: seq<Instrument>, net: seq<int>, v: seq<int>): (r: seq<int>)
    requires |net| == |instruments| == |v|
    ensures |r| == |v|
  {
    seq(|v|, i requires 0 <= i < |v| =>
      if net[i] > 0 then v[i] else if net[i] < 0 then instruments[i].payoff.MaxValue() - v[i] else 0)
  }

  lemma {:induction false} PositionsWithinLocks(instruments: seq<Instrument>, net: seq<int>, v: seq<int>, n: nat)
    requires |net| == |instruments| && InBounds(instruments, v) && n <= |v|
    ensures -Dot(net, v, n) == ShortLocks(instruments, net, n)
                               - Dot(Capacity(instruments, net, []), Relief(instruments, net, v), n)
  {
    if n > 0 {
      PositionsWithinLocks(instruments, net, v, n - 1);
      var q, x, top := net[n - 1], v[n - 1], instruments[n - 1].payoff.MaxValue();
      if q < 0 { assert Abs(q) * (top - x) == top * Abs(q) + q * x; }
    }
  }

  lemma Scale(a: int, b: int, c: int)
    requires 0 <= a && b <= c
    ensures a * b <= a * c
  {
  }

  lemma SplitGain(open: int, closing: int, gain: int, a: int, b: int)
    requires 0 <= open && 0 <= closing && gain <= a && gain <= b && 0 <= a && 0 <= b
    ensures Max(0, (open + closing) * gain) <= a * open + closing * b
  {
    Scale(open, gain, a);
    Scale(closing, gain, b);
    Scale(open, 0, a);
    Scale(closing, 0, b);
  }

  lemma OrderWithinLock(q: int, unit: int, x: int, top: int, closing: int)
    requires 0 <= unit <= top && 0 <= x <= top && 0 <= closing <= Abs(q)
    ensures q > 0 ==> Max(0, q * (unit - x)) <= unit * (Abs(q) - closing) + closing * (top - x)
    ensures q <= 0 ==> Max(0, q * (unit - x)) <= (top - unit) * (Abs(q) - closing) + closing * x
  {
    if q > 0 {
      SplitGain(q - closing, closing, unit - x, unit, top - x);
    } else {
      SplitGain(-q - closing, closing, x - unit, top - unit, x);
      assert q * (unit - x) == (-q) * (x - unit);
    }
  }

  /** The same bound with the relief the position gives, and the capacity update it pays for. */
  lemma ReliefPays(p: Payoff, o: Priced, x: int, closing: int, relief: int)
    requires 0 <= o.unit <= p.MaxValue() && 0 <= x <= p.MaxValue() && 0 <= closing <= Abs(o.qty)
    requires closing > 0 ==> relief == if o.qty > 0 then p.MaxValue() - x else x
    ensures Max(0, o.qty * (o.unit - x)) <= UnitLock(p, o) * (Abs(o.qty) - closing) - (-closing) * relief
  {
    OrderWithinLock(o.qty, o.unit, x, p.MaxValue(), closing);
    assert (-closing) * relief == -(closing * relief);
  }

  lemma {:induction false} OrdersWithinLocks(instruments: seq<Instrument>, net: seq<int>, v: seq<int>,
                                             orders: seq<Priced>)
    requires |net| == |instruments| && InBounds(instruments, v) && FairlyPriced(instruments, orders)
    ensures var relief := Relief(instruments, net, v);
            HurtSum(v, orders) <= OrderLocks(instruments, net, orders)
                                  + Dot(Capacity(instruments, net, []), relief, |v|)
                                  - Dot(Capacity(instruments, net, orders), relief, |v|)
  {
    if orders != [] {
      var n := |orders| - 1;
      var o := orders[n];
      var p, i := instruments[o.inst].payoff, o.inst;
      var relief := Relief(instruments, net, v);
      var before := Capacity(instruments, net, orders[..n]);
      var closing := ClosingPart(p, net[i], o.qty, before[i]);
      OrdersWithinLocks(instruments, net, v, orders[..n]);
      DotUpdate(before, relief, |v|, i, -closing);
      ReliefPays(p, o, v[i], closing, relief[i]);
    }
  }

  lemma {:induction false} DotNonNegative(a: seq<int>, b: seq<int>, n: nat)
    requires n <= |a| && n <= |b|
    requires forall i :: 0 <= i < n ==> a[i] >= 0 && b[i] >= 0
    ensures Dot(a, b, n) >= 0
  {
    if n > 0 {
      DotNonNegative(a, b, n - 1);
      assert a[n - 1] * b[n - 1] >= 0;
    }
  }

  lemma ScenarioInBounds(book: EventBook, w: Scenario)
    requires book.Valid() && Possible(book, w)
    ensures InBounds(book.instruments, Values(book, w))
  {
    forall i | 0 <= i < |book.instruments|
      ensures 0 <= Values(book, w)[i] <= book.instruments[i].payoff.MaxValue()
    {
      if w.AtOutcome? {
        ValueBounds(book, i, w.x);
      } else {
        PriceBounds(book, i, book.instruments[i].minPrice) by {
          assert ValidateInstrument(book.kind, book.instruments[i]) == None;
        }
      }
    }
  }

  lemma ListedOrdersFairlyPriced(book: EventBook, orders: seq<WorkingOrder>)
    requires book.Valid() && AllAcceptable(book, orders)
    ensures FairlyPriced(book.instruments, PriceOrders(book, orders))
  {
    forall j | 0 <= j < |orders|
      ensures 0 <= PriceOrder(book, orders[j]).unit <= book.instruments[orders[j].instrument].payoff.MaxValue()
    {
      assert Acceptable(book, orders[j]);
      PriceBounds(book, orders[j].instrument, orders[j].price);
    }
  }

  /** Cross margin never locks more than separate margin for the same positions and orders. */
  lemma MarginWithinStandalone(book: EventBook, net: seq<int>, orders: seq<Priced>, m: int)
    requires book.Valid() && |net| == |book.instruments| && FairlyPriced(book.instruments, orders)
    requires IsMargin(book, net, orders, m)
    ensures m <= StandaloneOf(book.instruments, net, orders)
  {
    var w :| Possible(book, w) && StressIn(book, w, net, orders) == m;
    var v := Values(book, w);
    ScenarioInBounds(book, w);
    PositionsWithinLocks(book.instruments, net, v, |net|);
    OrdersWithinLocks(book.instruments, net, v, orders);
    var relief := Relief(book.instruments, net, v);
    DotNonNegative(Capacity(book.instruments, net, orders), relief, |v|);
  }

  // ---------------------------------------------------------------- what exactly it locks

  /** Orders on one contract, one side, and one price. */
  predicate Alike(orders: seq<Priced>, i: nat, buy: bool, unit: int) {
    forall j :: 0 <= j < |orders| ==> orders[j].inst == i && orders[j].unit == unit && orders[j].qty != 0
                                      && (orders[j].qty > 0 <==> buy)
  }

  function Units(orders: seq<Priced>): nat {
    if orders == [] then 0 else Units(orders[..|orders| - 1]) + Abs(orders[|orders| - 1].qty)
  }

  /** The units of such orders that separate margin locks: against a futures position, those beyond it. */
  function LockedUnits(p: Payoff, held: int, buy: bool, units: nat): nat {
    if p.Banded? && held != 0 && (held > 0) != buy then Max(0, units - Abs(held)) else units
  }

  lemma LockedMore(p: Payoff, held: int, buy: bool, units: nat, more: nat)
    ensures var left := if p.Banded? && held != 0 && (held > 0) != buy then Max(0, Abs(held) - units) else 0;
            LockedUnits(p, held, buy, units + more) == LockedUnits(p, held, buy, units) + more - Min(more, left)
  {
  }

  lemma ScaleSum(k: int, a: int, b: int)
    ensures k * a + k * b == k * (a + b)
  {
  }

  /**
    However orders alike are cut, what they lock is one unit's lock for each unit they would open:
    its premium when buying, the rest of the contract's maximum when selling.
   */
  lemma {:induction false} AlikeOrdersLock(instruments: seq<Instrument>, net: seq<int>, orders: seq<Priced>, i: nat,
                                           buy: bool, unit: int)
    requires |net| == |instruments| && i < |net| && Fit(|net|, orders) && Alike(orders, i, buy, unit)
    ensures var p := instruments[i].payoff;
            var lock := if buy then unit else p.MaxValue() - unit;
            && OrderLocks(instruments, net, orders) == lock * LockedUnits(p, net[i], buy, Units(orders))
            && Capacity(instruments, net, orders)[i]
               == if p.Banded? && net[i] != 0 && (net[i] > 0) != buy then Max(0, Abs(net[i]) - Units(orders))
                  else Abs(net[i])
  {
    if orders != [] {
      var n := |orders| - 1;
      var p, o := instruments[i].payoff, orders[n];
      var lock := if buy then unit else p.MaxValue() - unit;
      AlikeOrdersLock(instruments, net, orders[..n], i, buy, unit);
      LockedMore(p, net[i], buy, Units(orders[..n]), Abs(o.qty));
      var closing := ClosingPart(p, net[i], o.qty, Capacity(instruments, net, orders[..n])[i]);
      ScaleSum(lock, LockedUnits(p, net[i], buy, Units(orders[..n])), Abs(o.qty) - closing);
    }
  }

  /** A lone position locks its full value when it is short, and nothing when it is long. */
  lemma {:induction false} LonePositionLocks(instruments: seq<Instrument>, net: seq<int>, i: nat, n: nat)
    requires |net| == |instruments| && i < |net| && n <= |net| && forall j :: 0 <= j < |net| && j != i ==> net[j] == 0
    ensures ShortLocks(instruments, net, n)
            == if i < n && net[i] < 0 then instruments[i].payoff.MaxValue() * -net[i] else 0
  {
    if n > 0 { LonePositionLocks(instruments, net, i, n - 1); }
  }

  /** On a contract alone, then: separate margin of a position and orders alike, in closed form. */
  lemma OneContractStandalone(instruments: seq<Instrument>, net: seq<int>, orders: seq<Priced>, i: nat, buy: bool,
                              unit: int)
    requires |net| == |instruments| && i < |net| && Fit(|net|, orders) && Alike(orders, i, buy, unit)
    requires forall j :: 0 <= j < |net| && j != i ==> net[j] == 0
    ensures var p := instruments[i].payoff;
            StandaloneOf(instruments, net, orders)
            == p.MaxValue() * Max(0, -net[i])
               + (if buy then unit else p.MaxValue() - unit) * LockedUnits(p, net[i], buy, Units(orders))
  {
    AlikeOrdersLock(instruments, net, orders, i, buy, unit);
    LonePositionLocks(instruments, net, i, |net|);
  }
}
