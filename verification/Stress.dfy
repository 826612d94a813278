/**
  The worst-case arithmetic of one account in one scenario.

  A scenario is a vector `v` giving each contract's value per unit. The vector of zeros is
  the moment of the trades, when only premiums have been paid. `Stress` adds to what the
  positions owe the amount by which each working order can still hurt the account.
 */
module Stress {
  import opened Common

  /** A working order with its limit price turned into a premium per unit. */
  datatype Priced = Priced(inst: nat, qty: int, unit: int)

  predicate Fit(n: nat, orders: seq<Priced>) {
    forall j :: 0 <= j < |orders| ==> orders[j].inst < n
  }

  /** What filling `o` completely costs in scenario `v`: premium paid less value received. */
  function Cost(v: seq<int>, o: Priced): int
    requires o.inst < |v|
  {
    o.qty * (o.unit - v[o.inst])
  }

  function HurtSum(v: seq<int>, orders: seq<Priced>): (r: int)
    requires Fit(|v|, orders)
    ensures r >= 0
  {
    if orders == [] then 0
    else HurtSum(v, orders[..|orders| - 1]) + Max(0, Cost(v, orders[|orders| - 1]))
  }

  function StressAt(v: seq<int>, net: seq<int>, orders: seq<Priced>): int
    requires |net| == |v| && Fit(|v|, orders)
  {
    HurtSum(v, orders) - Dot(net, v, |net|)
  }

  lemma {:induction false} HurtConcat(v: seq<int>, a: seq<Priced>, b: seq<Priced>)
    requires Fit(|v|, a) && Fit(|v|, b)
    ensures Fit(|v|, a + b)
    ensures HurtSum(v, a + b) == HurtSum(v, a) + HurtSum(v, b)
  {
    if b == [] {
      assert a + b == a;
    } else {
      var n := |b| - 1;
      HurtConcat(v, a, b[..n]);
      assert (a + b)[..|a + b| - 1] == a + b[..n];
    }
  }

  lemma HurtOne(v: seq<int>, o: Priced)
    requires o.inst < |v|
    ensures HurtSum(v, [o]) == Max(0, Cost(v, o))
  {
    assert HurtSum(v, [o][..0]) == 0;
  }

  /** The orders with entry `j` replaced by the orders in `with`. */
  function Replace(orders: seq<Priced>, j: nat, with: seq<Priced>): seq<Priced>
    requires j < |orders|
  {
    orders[..j] + with + orders[j + 1..]
  }

  lemma HurtReplace(v: seq<int>, orders: seq<Priced>, j: nat, with: seq<Priced>)
    requires j < |orders| && Fit(|v|, orders) && Fit(|v|, with)
    ensures Fit(|v|, Replace(orders, j, with))
    ensures HurtSum(v, Replace(orders, j, with))
            == HurtSum(v, orders) - Max(0, Cost(v, orders[j])) + HurtSum(v, with)
  {
    var head, tail := orders[..j], orders[j + 1..];
    HurtConcat(v, head, with);
    HurtConcat(v, head + with, tail);
    assert orders == head + [orders[j]] + tail;
    HurtConcat(v, head, [orders[j]]);
    HurtConcat(v, head + [orders[j]], tail);
    HurtOne(v, orders[j]);
  }

  /** `f` is a fill of part (or all, or none) of an order for `q` units. */
  predicate Partial(f: int, q: int) { 0 <= f <= q || q <= f <= 0 }

  /** What is left of an order after a fill: nothing when it is exhausted. */
  function Rest(o: Priced, f: int): seq<Priced> {
    if o.qty == f then [] else [o.(qty := o.qty - f)]
  }

  /** Splitting an order into a fill and its rest never costs more than the order could. */
  lemma SplitCost(q: int, f: int, d: int)
    requires Partial(f, q)
    ensures Max(0, (q - f) * d) + f * d <= Max(0, q * d)
    ensures f * d <= Max(0, q * d)
  {
    assert q * d == (q - f) * d + f * d;
    if q >= 0 {
      if d >= 0 { assert (q - f) * d >= 0 && f * d >= 0; }
      else { assert (q - f) * d <= 0 && f * d <= 0; }
    } else {
      if d >= 0 { assert (q - f) * d <= 0 && f * d <= 0; }
      else { assert (q - f) * d >= 0 && f * d >= 0; }
    }
  }

  lemma RestHurt(v: seq<int>, o: Priced, f: int)
    requires o.inst < |v|
    ensures Fit(|v|, Rest(o, f))
    ensures HurtSum(v, Rest(o, f)) == Max(0, (o.qty - f) * (o.unit - v[o.inst]))
  {
    if o.qty != f {
      HurtOne(v, o.(qty := o.qty - f));
    }
  }

  lemma PremiumSplit(f: int, unit: int, value: int)
    ensures f * (unit - value) == f * unit - f * value
  {
  }

  /**
    One fill, in one scenario: the filled units move from the orders to the positions, and the
    premium `f * paid` plus the new stress stays within the old stress.
   */
  lemma FillWithinStress(v: seq<int>, net: seq<int>, orders: seq<Priced>, j: nat, f: int, paid: int)
    requires |net| == |v| && Fit(|v|, orders) && j < |orders| && Partial(f, orders[j].qty)
    requires f * paid <= f * orders[j].unit
    ensures Fit(|v|, Replace(orders, j, Rest(orders[j], f)))
    ensures var i := orders[j].inst;
            StressAt(v, net[i := net[i] + f], Replace(orders, j, Rest(orders[j], f))) + f * paid
            <= StressAt(v, net, orders)
  {
    var o := orders[j];
    RestHurt(v, o, f);
    HurtReplace(v, orders, j, Rest(o, f));
    DotUpdate(net, v, |net|, o.inst, f);
    SplitCost(o.qty, f, o.unit - v[o.inst]);
    PremiumSplit(f, o.unit, v[o.inst]);
  }

  /** Shrinking an order (or dropping it) never raises the stress. */
  lemma ShrinkWithinStress(v: seq<int>, net: seq<int>, orders: seq<Priced>, j: nat, f: int)
    requires |net| == |v| && Fit(|v|, orders) && j < |orders| && Partial(f, orders[j].qty)
    ensures Fit(|v|, Replace(orders, j, Rest(orders[j], f)))
    ensures StressAt(v, net, Replace(orders, j, Rest(orders[j], f))) <= StressAt(v, net, orders)
  {
    var o := orders[j];
    RestHurt(v, o, f);
    HurtReplace(v, orders, j, Rest(o, f));
    SplitCost(o.qty, o.qty - f, o.unit - v[o.inst]);
  }

  // ---------------------------------------------------------------- fills, exhaustively

  /** One fill amount per order, each part of that order. */
  predicate Fills(fills: seq<int>, orders: seq<Priced>) {
    |fills| == |orders| && forall j :: 0 <= j < |orders| ==> Partial(fills[j], orders[j].qty)
  }

  /** The positions after the fills. */
  function Filled(net: seq<int>, orders: seq<Priced>, fills: seq<int>): (r: seq<int>)
    requires |fills| == |orders| && Fit(|net|, orders)
    ensures |r| == |net|
  {
    if orders == [] then net
    else
      var n := |orders| - 1;
      var before := Filled(net, orders[..n], fills[..n]);
      var i := orders[n].inst;
      before[i := before[i] + fills[n]]
  }

  /** The premium paid for the fills at the limit prices. */
  function Premium(orders: seq<Priced>, fills: seq<int>): int
    requires |fills| == |orders|
  {
    if orders == [] then 0
    else
      var n := |orders| - 1;
      Premium(orders[..n], fills[..n]) + fills[n] * orders[n].unit
  }

  /** What the account has paid and still owes once the fills have happened. */
  function Obligation(v: seq<int>, net: seq<int>, orders: seq<Priced>, fills: seq<int>): int
    requires |net| == |v| && Fit(|v|, orders) && |fills| == |orders|
  {
    Premium(orders, fills) - Dot(Filled(net, orders, fills), v, |v|)
  }

  /** The stress covers every combination of partial fills... */
  lemma {:induction false} ObligationWithinStress(v: seq<int>, net: seq<int>, orders: seq<Priced>, fills: seq<int>)
    requires |net| == |v| && Fit(|v|, orders) && Fills(fills, orders)
    ensures Obligation(v, net, orders, fills) <= StressAt(v, net, orders)
  {
    if orders != [] {
      var n := |orders| - 1;
      var o := orders[n];
      ObligationWithinStress(v, net, orders[..n], fills[..n]);
      DotUpdate(Filled(net, orders[..n], fills[..n]), v, |v|, o.inst, fills[n]);
      SplitCost(o.qty, fills[n], o.unit - v[o.inst]);
      PremiumSplit(fills[n], o.unit, v[o.inst]);
    }
  }

  /** ... and is reached by filling exactly the orders that hurt. */
  function WorstFills(v: seq<int>, orders: seq<Priced>): (r: seq<int>)
    requires Fit(|v|, orders)
    ensures Fills(r, orders)
  {
    if orders == [] then []
    else
      var n := |orders| - 1;
      var o := orders[n];
      WorstFills(v, orders[..n]) + [if Cost(v, o) > 0 then o.qty else 0]
  }

  lemma {:induction false} WorstFillsReachStress(v: seq<int>, net: seq<int>, orders: seq<Priced>)
    requires |net| == |v| && Fit(|v|, orders)
    ensures Obligation(v, net, orders, WorstFills(v, orders)) == StressAt(v, net, orders)
  {
    if orders != [] {
      var n := |orders| - 1;
      var o := orders[n];
      var fills := WorstFills(v, orders);
      WorstFillsReachStress(v, net, orders[..n]);
      assert fills[..n] == WorstFills(v, orders[..n]);
      DotUpdate(Filled(net, orders[..n], fills[..n]), v, |v|, o.inst, fills[n]);
      PremiumSplit(o.qty, o.unit, v[o.inst]);
    }
  }

  // ---------------------------------------------------------------- convexity

  /** `vx` lies between `vs` and `vt`, at weights `a : b`, in every coordinate. */
  predicate Between(vs: seq<int>, vx: seq<int>, vt: seq<int>, a: nat, b: nat) {
    && |vs| == |vx| == |vt|
    && forall i :: 0 <= i < |vx| ==> (a + b) * vx[i] == a * vs[i] + b * vt[i]
  }

  lemma {:induction false} DotBetween(vs: seq<int>, vx: seq<int>, vt: seq<int>, a: nat, b: nat, net: seq<int>, n: nat)
    requires Between(vs, vx, vt, a, b) && n <= |net| && n <= |vx|
    ensures (a + b) * Dot(net, vx, n) == a * Dot(net, vs, n) + b * Dot(net, vt, n)
  {
    if n > 0 {
      DotBetween(vs, vx, vt, a, b, net, n - 1);
      MixProduct(a, b, net[n - 1], vs[n - 1], vx[n - 1], vt[n - 1]);
      MixSum(a, b, Dot(net, vs, n - 1), Dot(net, vx, n - 1), Dot(net, vt, n - 1),
             net[n - 1] * vs[n - 1], net[n - 1] * vx[n - 1], net[n - 1] * vt[n - 1]);
    }
  }

  lemma MixProduct(a: nat, b: nat, q: int, s: int, x: int, t: int)
    requires (a + b) * x == a * s + b * t
    ensures (a + b) * (q * x) == a * (q * s) + b * (q * t)
  {
    calc {
      (a + b) * (q * x);
      q * ((a + b) * x);
      q * (a * s + b * t);
      q * (a * s) + q * (b * t);
      a * (q * s) + b * (q * t);
    }
  }

  lemma MixSum(a: nat, b: nat, s: int, x: int, t: int, s': int, x': int, t': int)
    requires (a + b) * x == a * s + b * t && (a + b) * x' == a * s' + b * t'
    ensures (a + b) * (x + x') == a * (s + s') + b * (t + t')
  {
    assert (a + b) * (x + x') == (a + b) * x + (a + b) * x';
  }

  lemma MixMax(a: nat, b: nat, s: int, x: int, t: int)
    requires (a + b) * x == a * s + b * t
    ensures (a + b) * Max(0, x) <= a * Max(0, s) + b * Max(0, t)
  {
    assert a * s <= a * Max(0, s) && b * t <= b * Max(0, t);
    assert a * Max(0, s) >= 0 && b * Max(0, t) >= 0;
  }

  lemma {:induction false} HurtBetween(vs: seq<int>, vx: seq<int>, vt: seq<int>, a: nat, b: nat, orders: seq<Priced>)
    requires Between(vs, vx, vt, a, b) && Fit(|vx|, orders)
    ensures (a + b) * HurtSum(vx, orders) <= a * HurtSum(vs, orders) + b * HurtSum(vt, orders)
  {
    if orders != [] {
      var n := |orders| - 1;
      var o := orders[n];
      HurtBetween(vs, vx, vt, a, b, orders[..n]);
      var i := o.inst;
      MixSum(a, b, o.unit, o.unit, o.unit, -vs[i], -vx[i], -vt[i]);
      MixProduct(a, b, o.qty, o.unit - vs[i], o.unit - vx[i], o.unit - vt[i]);
      MixMax(a, b, Cost(vs, o), Cost(vx, o), Cost(vt, o));
      MixBound(a, b, HurtSum(vs, orders[..n]), HurtSum(vx, orders[..n]), HurtSum(vt, orders[..n]),
               Max(0, Cost(vs, o)), Max(0, Cost(vx, o)), Max(0, Cost(vt, o)));
    }
  }

  lemma MixBound(a: nat, b: nat, s: int, x: int, t: int, s': int, x': int, t': int)
    requires (a + b) * x <= a * s + b * t && (a + b) * x' <= a * s' + b * t'
    ensures (a + b) * (x + x') <= a * (s + s') + b * (t + t')
  {
    assert (a + b) * (x + x') == (a + b) * x + (a + b) * x';
  }

  lemma CancelFactor(c: int, x: int, m: int)
    requires c > 0 && c * x <= c * m
    ensures x <= m
  {
  }

  lemma MixBelow(a: nat, b: nat, s: int, x: int, t: int)
    requires a + b > 0 && (a + b) * x <= a * s + b * t
    ensures x <= Max(s, t)
  {
    var m := Max(s, t);
    assert a * s <= a * m && b * t <= b * m;
    CancelFactor(a + b, x, m);
  }

  /** Stress is convex: between two scenarios it never exceeds both ends. */
  lemma StressBetween(vs: seq<int>, vx: seq<int>, vt: seq<int>, a: nat, b: nat, net: seq<int>, orders: seq<Priced>)
    requires Between(vs, vx, vt, a, b) && a + b > 0
    requires |net| == |vx| && Fit(|vx|, orders)
    ensures StressAt(vx, net, orders) <= Max(StressAt(vs, net, orders), StressAt(vt, net, orders))
  {
    DotBetween(vs, vx, vt, a, b, net, |net|);
    HurtBetween(vs, vx, vt, a, b, orders);
    MixBound(a, b, HurtSum(vs, orders), HurtSum(vx, orders), HurtSum(vt, orders),
             -Dot(net, vs, |net|), -Dot(net, vx, |net|), -Dot(net, vt, |net|));
    MixBelow(a, b, StressAt(vs, net, orders), StressAt(vx, net, orders), StressAt(vt, net, orders));
  }
}
