/**
  Average cost and realised profit of a position. Both divisions round down, so the profit differs from
  the cash that changed hands: by how much at most, and in whose favour.
 */
module CostBasis {
  import opened Common

  /** Micro-USDC in a tick, as the average cost counts it. */
  const SCALE := 10_000

  /** `average` is per unit, in micro-USDC; `realized` is in micro-USDC. */
  datatype Basis = Basis(qty: int, average: int, realized: int)

  /** A fill of one user: signed units, and the price in ticks from the YES or LONG side. */
  datatype Trade = Trade(delta: int, price: int)

  const FLAT := Basis(0, 0, 0)

  function AddedAverage(average: int, held: nat, price: int, added: nat): int {
    if held + added == 0 then 0 else (Abs(average) * held + Abs(price) * added) / (held + added)
  }

  /** What closing one unit earns, in ticks. */
  function Gain(b: Basis, price: int): int {
    if b.qty > 0 then price - TruncDiv(b.average, SCALE) else TruncDiv(b.average, SCALE) - price
  }

  function Closed(b: Basis, t: Trade): nat { if Abs(b.qty) <= Abs(t.delta) then Abs(b.qty) else Abs(t.delta) }

  /** `update_cost_basis`. */
  function Update(b: Basis, t: Trade, tick: int): Basis {
    var next, price := b.qty + t.delta, t.price * SCALE;
    if b.qty == 0 then Basis(next, price, b.realized)
    else if b.average == 0 then Basis(next, if next == 0 then 0 else price, b.realized)
    else if Sign(b.qty) == Sign(t.delta) then
      Basis(next, AddedAverage(b.average, Abs(b.qty), price, Abs(t.delta)), b.realized)
    else
      Basis(next, if next == 0 then 0 else if Sign(b.qty) != Sign(next) then price else b.average,
            b.realized + Gain(b, t.price) * Closed(b, t) * tick)
  }

  function Run(ts: seq<Trade>, tick: int): Basis {
    if ts == [] then FLAT else Update(Run(ts[..|ts| - 1], tick), ts[|ts| - 1], tick)
  }

  // ---------------------------------------------------------------- average

  /** An open position costs something. */
  predicate Costed(b: Basis) { b.average >= 0 && (b.qty != 0 ==> b.average > 0) }

  lemma LessByFactor(a: int, b: int, d: int)
    requires d > 0 && a * d < b * d
    ensures a < b
  {
  }

  lemma QuotientBetween(w: int, n: int, lo: int, hi: int)
    requires n > 0 && lo * n <= w <= hi * n
    ensures lo <= w / n <= hi
  {
    assert w == w / n * n + w % n;
    assert (w / n + 1) * n == w / n * n + n && (hi + 1) * n == hi * n + n;
    LessByFactor(lo, w / n + 1, n);
    LessByFactor(w / n, hi + 1, n);
  }

  lemma WeightedBetween(a: int, held: nat, p: int, added: nat, lo: int, hi: int)
    requires 0 <= lo <= a <= hi && lo <= p <= hi && held + added > 0
    ensures lo <= AddedAverage(a, held, p, added) <= hi
  {
    assert lo * held <= a * held <= hi * held;
    assert lo * added <= p * added <= hi * added;
    assert lo * (held + added) == lo * held + lo * added && hi * (held + added) == hi * held + hi * added;
    QuotientBetween(a * held + p * added, held + added, lo, hi);
  }

  /** Positions opened and closed at prices between `lo` and `hi` are carried at an average between them. */
  lemma {:induction false} AverageWithinPrices(ts: seq<Trade>, tick: int, lo: nat, hi: nat)
    requires lo > 0 && forall k :: 0 <= k < |ts| ==> lo <= ts[k].price <= hi
    ensures var b := Run(ts, tick);
            Costed(b) && (b.qty != 0 ==> lo * SCALE <= b.average <= hi * SCALE)
  {
    if ts != [] {
      AverageWithinPrices(ts[..|ts| - 1], tick, lo, hi);
      UpdateWithinPrices(Run(ts[..|ts| - 1], tick), ts[|ts| - 1], tick, lo, hi);
    }
  }

  lemma UpdateWithinPrices(b: Basis, t: Trade, tick: int, lo: nat, hi: nat)
    requires 0 < lo <= t.price <= hi && Costed(b) && (b.qty != 0 ==> lo * SCALE <= b.average <= hi * SCALE)
    ensures var a := Update(b, t, tick);
            Costed(a) && (a.qty != 0 ==> lo * SCALE <= a.average <= hi * SCALE)
  {
    if b.qty != 0 && Sign(b.qty) == Sign(t.delta) {
      WeightedBetween(b.average, Abs(b.qty), t.price * SCALE, Abs(t.delta), lo * SCALE, hi * SCALE);
    }
  }

  // ---------------------------------------------------------------- realised profit

  /** The cash the trades brought in, in ticks. */
  function Cash(ts: seq<Trade>): int {
    if ts == [] then 0 else Cash(ts[..|ts| - 1]) - ts[|ts| - 1].delta * ts[|ts| - 1].price
  }

  /** Profit in ticks, and what it is off from the cash plus the position at cost, in ten-thousandths of a tick. */
  function Excess(b: Basis, cash: int): int { SCALE * b.realized - SCALE * cash - b.qty * b.average }

  /** What one trade can round away. */
  function Rounding(b: Basis, t: Trade): int {
    if b.qty == 0 then 0
    else if Sign(b.qty) == Sign(t.delta) then Abs(b.qty + t.delta)
    else SCALE * Closed(b, t)
  }

  function AllRounding(ts: seq<Trade>): int {
    if ts == [] then 0 else AllRounding(ts[..|ts| - 1]) + Rounding(Run(ts[..|ts| - 1], 1), ts[|ts| - 1])
  }

  /** Adding to a position rounds its total cost down by less than one micro-USDC a unit. */
  lemma AddRounds(average: int, held: nat, price: int, added: nat)
    requires average >= 0 && price >= 0 && held + added > 0
    ensures var lost := average * held + price * added - AddedAverage(average, held, price, added) * (held + added);
            lost == (average * held + price * added) % (held + added) && 0 <= lost <= held + added
  {
    var w := average * held + price * added;
    assert w == w / (held + added) * (held + added) + w % (held + added);
  }

  /** The average, rounded down to ticks. */
  lemma TicksRound(average: int)
    requires average >= 0
    ensures 0 <= average - SCALE * TruncDiv(average, SCALE) < SCALE
            && average - SCALE * TruncDiv(average, SCALE) == average % SCALE
  {
  }

  lemma ExcessOfAdd(q: int, a: int, d: int, p: int, a2: int, s: int)
    requires (s == 1 || s == -1) && q * s >= 0 && d * s >= 0
    ensures (q * a + SCALE * (d * p)) - (q + d) * a2 == s * (a * (q * s) + (p * SCALE) * (d * s) - a2 * ((q + d) * s))
  {
    assert s * (a * (q * s)) == q * a by { assert s * s == 1; }
    assert s * ((p * SCALE) * (d * s)) == SCALE * (d * p) by { assert s * s == 1; }
    assert s * (a2 * ((q + d) * s)) == (q + d) * a2 by { assert s * s == 1; }
  }

  /** What the division leaves when a trade adds to a position. */
  function AddRemainder(b: Basis, t: Trade): int {
    var units := Abs(b.qty) + Abs(t.delta);
    if units == 0 then 0 else (b.average * Abs(b.qty) + t.price * SCALE * Abs(t.delta)) % units
  }

  /** Adding to a long position can only raise the excess, adding to a short one only lower it. */
  lemma AddKeepsExcess(b: Basis, t: Trade, cash: int)
    requires Costed(b) && t.price > 0 && b.qty != 0 && Sign(b.qty) == Sign(t.delta)
    ensures var e := Sign(b.qty) * (Excess(Update(b, t, 1), cash - t.delta * t.price) - Excess(b, cash));
            0 <= e <= Rounding(b, t) && e == AddRemainder(b, t)
  {
    var s, a2 := Sign(b.qty), AddedAverage(b.average, Abs(b.qty), t.price * SCALE, Abs(t.delta));
    AddRounds(b.average, Abs(b.qty), t.price * SCALE, Abs(t.delta));
    ExcessOfAdd(b.qty, b.average, t.delta, t.price, a2, s);
    assert Abs(b.qty) == b.qty * s && Abs(t.delta) == t.delta * s && Abs(b.qty + t.delta) == (b.qty + t.delta) * s;
  }

  lemma CloseArithmetic(n: int, s: int, p: int, a: int, q: int)
    ensures SCALE * (s * (p - q) * n) - SCALE * (s * n * p) + s * n * a == s * (n * (a - SCALE * q))
  {
    assert SCALE * (s * (p - q) * n) == SCALE * (s * n * p) - SCALE * (s * n * q);
    assert s * (n * (a - SCALE * q)) == s * n * a - SCALE * (s * n * q);
  }

  lemma CloseBound(n: nat, r: int)
    requires 0 <= r < SCALE
    ensures 0 <= n * r <= SCALE * n
  {
  }

  /**
    Closing at an average that is not a whole number of ticks overstates the profit
    of a long, and understates a short's.
   */
  lemma CloseKeepsExcess(b: Basis, t: Trade, cash: int)
    requires Costed(b) && t.price > 0 && b.qty != 0 && Sign(b.qty) != Sign(t.delta)
    ensures var e := Sign(b.qty) * (Excess(Update(b, t, 1), cash - t.delta * t.price) - Excess(b, cash));
            0 <= e <= Rounding(b, t) && e == Closed(b, t) * (b.average % SCALE)
  {
    var s, n, q := Sign(b.qty), Closed(b, t), TruncDiv(b.average, SCALE);
    TicksRound(b.average);
    CloseArithmetic(n, s, t.price, b.average, q);
    CloseBound(n, b.average - SCALE * q);
    CloseMoves(b, t, cash, s, n, q);
    Squared(s, n * (b.average - SCALE * q));
  }

  lemma Squared(s: int, x: int)
    requires s == 1 || s == -1
    ensures s * (s * x) == x
  {
  }

  /** The excess moves by what the closed units lose to rounding; units opened the other way enter at their price. */
  lemma CloseMoves(b: Basis, t: Trade, cash: int, s: int, n: nat, q: int)
    requires Costed(b) && b.qty != 0 && Sign(b.qty) != Sign(t.delta)
    requires s == Sign(b.qty) && n == Closed(b, t) && q == TruncDiv(b.average, SCALE)
    ensures Excess(Update(b, t, 1), cash - t.delta * t.price) - Excess(b, cash)
            == SCALE * (s * (t.price - q) * n) - SCALE * (s * n * t.price) + s * n * b.average
  {
    var u := Update(b, t, 1);
    assert u.realized == b.realized + s * (t.price - q) * n;
    if Abs(t.delta) <= Abs(b.qty) {
      assert t.delta == -(s * n);
      assert u.qty * u.average == (b.qty - s * n) * b.average;
      assert (b.qty - s * n) * b.average == b.qty * b.average - s * n * b.average;
      assert SCALE * (cash - t.delta * t.price) == SCALE * cash + SCALE * (s * n * t.price);
    } else {
      assert b.qty == s * n && u.average == t.price * SCALE;
      assert u.qty * u.average == SCALE * (b.qty * t.price) + SCALE * (t.delta * t.price);
      assert SCALE * (cash - t.delta * t.price) == SCALE * cash - SCALE * (t.delta * t.price);
      assert SCALE * (b.qty * t.price) == SCALE * (s * n * t.price);
    }
  }

  lemma TradeKeepsExcess(b: Basis, t: Trade, cash: int)
    requires Costed(b) && t.price > 0
    ensures var e := Excess(Update(b, t, 1), cash - t.delta * t.price) - Excess(b, cash);
            -Rounding(b, t) <= e <= Rounding(b, t) && (b.qty >= 0 ==> e >= 0) && (b.qty <= 0 ==> e <= 0)
  {
    if b.qty == 0 {
      assert t.delta * (t.price * SCALE) == SCALE * (t.delta * t.price);
    } else if Sign(b.qty) == Sign(t.delta) {
      AddKeepsExcess(b, t, cash);
    } else {
      CloseKeepsExcess(b, t, cash);
    }
  }

  /**
    Realised profit plus cost of the open position is the cash paid and received, up to what the divisions round away.
   */
  lemma {:induction false} ProfitIsCashUpToRounding(ts: seq<Trade>)
    requires forall k :: 0 <= k < |ts| ==> ts[k].price > 0
    ensures Costed(Run(ts, 1)) && -AllRounding(ts) <= Excess(Run(ts, 1), Cash(ts)) <= AllRounding(ts)
  {
    if ts != [] {
      var before, t := ts[..|ts| - 1], ts[|ts| - 1];
      ProfitIsCashUpToRounding(before);
      TradeKeepsExcess(Run(before, 1), t, Cash(before));
      StaysCosted(Run(before, 1), t);
    }
  }

  lemma StaysCosted(b: Basis, t: Trade)
    requires Costed(b) && t.price > 0
    ensures Costed(Update(b, t, 1))
  {
    if b.qty != 0 && Sign(b.qty) == Sign(t.delta) {
      WeightedBetween(b.average, Abs(b.qty), t.price * SCALE, Abs(t.delta), 1, b.average + t.price * SCALE);
    }
  }

  /** A user that is never short is never shown less profit than the cash says. */
  lemma {:induction false} LongsNeverUnderstate(ts: seq<Trade>)
    requires forall k :: 0 <= k < |ts| ==> ts[k].price > 0
    requires forall k :: 0 <= k < |ts| ==> Run(ts[..k], 1).qty >= 0
    ensures Excess(Run(ts, 1), Cash(ts)) >= 0
  {
    if ts != [] {
      var before, t := ts[..|ts| - 1], ts[|ts| - 1];
      assert forall k :: 0 <= k < |before| ==> before[..k] == ts[..k];
      LongsNeverUnderstate(before);
      ProfitIsCashUpToRounding(before);
      TradeKeepsExcess(Run(before, 1), t, Cash(before));
    }
  }

  /** Neither division of the trade leaves a remainder, as far as its result is used. */
  predicate Exact(b: Basis, t: Trade) {
    if b.qty == 0 then true
    else if Sign(b.qty) == Sign(t.delta) then AddRemainder(b, t) == 0
    else b.average % SCALE == 0 || Closed(b, t) == 0
  }

  lemma ZeroProduct(n: nat, r: int)
    requires r >= 0
    ensures n * r == 0 <==> n == 0 || r == 0
  {
    if n > 0 && r > 0 { assert n * r > 0; }
  }

  /** A trade keeps profit in step with cash if and only if no division leaves a remainder. */
  lemma TradeExactIff(b: Basis, t: Trade, cash: int)
    requires Costed(b) && t.price > 0
    ensures Excess(Update(b, t, 1), cash - t.delta * t.price) == Excess(b, cash) <==> Exact(b, t)
  {
    if b.qty == 0 {
      assert t.delta * (t.price * SCALE) == SCALE * (t.delta * t.price);
    } else if Sign(b.qty) == Sign(t.delta) {
      AddKeepsExcess(b, t, cash);
    } else {
      CloseKeepsExcess(b, t, cash);
      ZeroProduct(Closed(b, t), b.average % SCALE);
    }
  }

  /** The position is never on the other side of `side`, 1 for long and -1 for short. */
  predicate StaysOn(ts: seq<Trade>, side: int) { forall k :: 0 <= k <= |ts| ==> Run(ts[..k], 1).qty * side >= 0 }

  predicate AllExact(ts: seq<Trade>) { forall k :: 0 <= k < |ts| ==> Exact(Run(ts[..k], 1), ts[k]) }

  lemma AllExactStep(ts: seq<Trade>)
    requires ts != []
    ensures AllExact(ts) <==> AllExact(ts[..|ts| - 1]) && Exact(Run(ts[..|ts| - 1], 1), ts[|ts| - 1])
  {
    var before := ts[..|ts| - 1];
    assert forall k :: 0 <= k < |before| ==> before[..k] == ts[..k] && before[k] == ts[k];
    if AllExact(before) && Exact(Run(before, 1), ts[|ts| - 1]) {
      forall k | 0 <= k < |ts| ensures Exact(Run(ts[..k], 1), ts[k]) {
        if k < |before| { assert Exact(Run(before[..k], 1), before[k]); }
      }
    }
    if AllExact(ts) {
      forall k | 0 <= k < |before| ensures Exact(Run(before[..k], 1), before[k]) {
        assert Exact(Run(ts[..k], 1), ts[k]);
      }
    }
  }

  lemma Trimmed(ts: seq<Trade>, side: int)
    requires ts != [] && StaysOn(ts, side) && (forall k :: 0 <= k < |ts| ==> ts[k].price > 0)
    ensures StaysOn(ts[..|ts| - 1], side) && Run(ts[..|ts| - 1], 1).qty * side >= 0
  {
    var before := ts[..|ts| - 1];
    forall k | 0 <= k <= |before| ensures Run(before[..k], 1).qty * side >= 0 {
      assert before[..k] == ts[..k];
      assert Run(ts[..k], 1).qty * side >= 0;
    }
    assert Run(ts[..|before|], 1).qty * side >= 0;
  }

  lemma ExactStep(b: Basis, t: Trade, cash: int, side: int)
    requires Costed(b) && t.price > 0 && (side == 1 || side == -1) && b.qty * side >= 0 && Excess(b, cash) * side >= 0
    ensures var after := Excess(Update(b, t, 1), cash - t.delta * t.price);
            after * side >= 0 && (after == 0 <==> Excess(b, cash) == 0 && Exact(b, t))
  {
    TradeKeepsExcess(b, t, cash);
    TradeExactIff(b, t, cash);
  }

  /** For a user that stays on one side, profit is exactly the cash if and only if no trade leaves a remainder. */
  lemma {:induction false} ProfitExactIff(ts: seq<Trade>, side: int)
    requires (side == 1 || side == -1) && StaysOn(ts, side) && forall k :: 0 <= k < |ts| ==> ts[k].price > 0
    ensures Excess(Run(ts, 1), Cash(ts)) * side >= 0
    ensures Excess(Run(ts, 1), Cash(ts)) == 0 <==> AllExact(ts)
  {
    if ts != [] {
      var before, t := ts[..|ts| - 1], ts[|ts| - 1];
      Trimmed(ts, side);
      ProfitExactIff(before, side);
      ProfitIsCashUpToRounding(before);
      ExactStep(Run(before, 1), t, Cash(before), side);
      AllExactStep(ts);
    }
  }

  /** The tick value only scales the profit. */
  lemma {:induction false} TickScales(ts: seq<Trade>, tick: int)
    ensures var b, one := Run(ts, tick), Run(ts, 1);
            b.qty == one.qty && b.average == one.average && b.realized == tick * one.realized
  {
    if ts != [] {
      TickScales(ts[..|ts| - 1], tick);
      var b, one, t := Run(ts[..|ts| - 1], tick), Run(ts[..|ts| - 1], 1), ts[|ts| - 1];
      var ticks := Gain(one, t.price) * Closed(one, t);
      assert tick * (one.realized + ticks) == tick * one.realized + ticks * tick;
    }
  }

  /** Three units bought for five ticks and sold for six show a profit of three. */
  lemma RoundTripOverstated()
    ensures var ts := [Trade(1, 1), Trade(2, 2), Trade(-3, 2)];
            Run(ts, 1) == Basis(0, 0, 3) && Cash(ts) == 1
  {
    var ts := [Trade(1, 1), Trade(2, 2), Trade(-3, 2)];
    assert ts[..2] == [Trade(1, 1), Trade(2, 2)] && ts[..2][..1] == [Trade(1, 1)] && ts[..2][..1][..0] == [];
    assert Run(ts[..2][..1], 1) == Basis(1, 10_000, 0);
    assert Run(ts[..2], 1) == Basis(3, 16_666, 0);
    assert Cash(ts[..2][..1]) == -1 && Cash(ts[..2]) == -5;
  }

  /**
    An open position carried at nothing: whatever the next trade is, it realises
    nothing, and profit misses what those units were worth.
   */
  lemma FreeUnitsRealiseNothing(b: Basis, t: Trade, cash: int)
    requires b.qty != 0 && b.average == 0
    ensures var after := Update(b, t, 1);
            && after.realized == b.realized && (after.qty != 0 ==> after.average == t.price * SCALE)
            && Excess(after, cash - t.delta * t.price) == Excess(b, cash) - SCALE * (b.qty * t.price)
  {
    var after := Update(b, t, 1);
    assert SCALE * (cash - t.delta * t.price) == SCALE * cash - SCALE * (t.delta * t.price);
    if after.qty != 0 {
      assert (b.qty + t.delta) * (t.price * SCALE) == SCALE * (b.qty * t.price) + SCALE * (t.delta * t.price);
    } else {
      assert t.delta * t.price == -(b.qty * t.price) by { assert t.delta == -b.qty; }
    }
  }

  /** Units bought at price zero are such a position. */
  lemma FreeUnitsReached(q: int)
    ensures Run([Trade(q, 0)], 1) == Basis(q, 0, 0)
  {
    assert [Trade(q, 0)][..0] == [];
  }
}
