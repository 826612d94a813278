/**
  The shadow comparison: open lots by average cost, and the gate
  `worst_case <= capital_cross <= capital_today`.
 */
module Shadow {
  import opened Common
  import opened Payoffs
  import opened Stress
  import opened WorstCase
  import opened Standalone
  import opened EventMargins

  // ---------------------------------------------------------------- lots

  /** The open part of a position; `cost` carries the sign of `qty`. */
  datatype Lot = Lot(qty: int, cost: int) {
    /** What today's system keeps: the premium of a long, the remaining collateral of a short. */
    function CapitalToday(max: int): int {
      if qty == 0 then 0 else if qty > 0 then cost else -qty * max + cost
    }
  }

  /** One fill at `unit` micro-USDC per unit; a division releases cost pro rata, truncated. */
  function AfterFill(l: Lot, qty: int, unit: int): Lot {
    if qty == 0 then l
    else if l.qty == 0 || (l.qty > 0) == (qty > 0) then Lot(l.qty + qty, l.cost + qty * unit)
    else
      var open, trade := Abs(l.qty), Abs(qty);
      var closed := Min(open, trade);
      var cost := l.cost - TruncDiv(l.cost * closed, open);
      if trade > closed then
        var leftover := Sign(qty) * (trade - closed);
        Lot(leftover, leftover * unit)
      else
        var rest := l.qty + Sign(qty) * closed;
        Lot(rest, if rest == 0 then 0 else cost)
  }

  class OpenLot {
    var qty: int
    var cost: int

    constructor ()
      ensures Value() == Lot(0, 0)
    {
      qty, cost := 0, 0;
    }

    ghost function Value(): Lot
      reads this
    {
      Lot(qty, cost)
    }

    /** `OpenLot::apply`. */
    method Apply(trade: int, unit: int)
      modifies this
      ensures Value() == AfterFill(old(Value()), trade, unit)
    {
      if trade == 0 {
        return;
      }
      if qty == 0 || (qty > 0) == (trade > 0) {
        qty := qty + trade;
        cost := cost + trade * unit;
        return;
      }
      var open, size := Abs(qty), Abs(trade);
      var closed := Min(open, size);
      var released := TruncDiv(cost * closed, open);
      cost := cost - released;
      qty := qty + Sign(trade) * closed;
      if size > closed {
        var leftover := Sign(trade) * (size - closed);
        qty := leftover;
        cost := leftover * unit;
      }
      if qty == 0 {
        cost := 0;
      }
    }
  }

  /** Cost has the sign of the quantity and is at most the quantity at the top of the band. */
  predicate Sensible(l: Lot, max: int) {
    if l.qty >= 0 then 0 <= l.cost <= l.qty * max else l.qty * max <= l.cost <= 0
  }

  lemma DivBounds(a: nat, d: int)
    requires d > 0
    ensures 0 <= a / d && a / d * d <= a < a / d * d + d
  {
    assert a == a / d * d + a % d;
  }

  lemma Scaled(a: int, b: int, k: int)
    requires a <= b && k >= 0
    ensures a * k <= b * k
  {
  }

  lemma Cancel(a: int, b: int, k: int)
    requires k > 0 && a * k < b * k + k
    ensures a <= b
  {
    if a > b {
      Scaled(b + 1, a, k);
      assert false;
    }
  }

  /** Releasing cost pro rata, rounded down, leaves between nothing and the rest's share of the maximum. */
  lemma ProRata(cost: nat, open: int, closed: int, max: int)
    requires 0 < closed <= open && cost <= open * max && max >= 0
    ensures var released := cost * closed / open; 0 <= released <= cost && cost - released <= (open - closed) * max
  {
    var released := cost * closed / open;
    assert cost * closed >= 0 by { Scaled(0, cost, closed); }
    DivBounds(cost * closed, open);
    Scaled(closed, open, cost);
    assert cost * closed <= cost * open;
    Cancel(released, cost, open);
    var rest := open - closed;
    Scaled(cost, open * max, rest);
    assert cost * rest == cost * open - cost * closed;
    assert open * max * rest == rest * max * open;
    assert (cost - released) * open == cost * open - released * open;
    Cancel(cost - released, rest * max, open);
  }

  lemma TruncSigned(cost: int, closed: int, open: int)
    requires closed > 0 && open > 0
    ensures TruncDiv(cost * closed, open) == if cost >= 0 then cost * closed / open else -((-cost) * closed / open)
  {
    assert (-cost) * closed == -(cost * closed);
    if cost >= 0 { Scaled(0, cost, closed); } else { Scaled(0, -cost, closed); }
  }

  lemma UnitBounds(qty: int, unit: int, max: int)
    requires 0 <= unit <= max
    ensures qty >= 0 ==> 0 <= qty * unit <= qty * max
    ensures qty <= 0 ==> qty * max <= qty * unit <= 0
  {
    if qty >= 0 {
      Scaled(0, unit, qty);
      Scaled(unit, max, qty);
    } else {
      Scaled(0, unit, -qty);
      Scaled(unit, max, -qty);
    }
  }

  lemma AddScaled(a: int, b: int, k: int)
    ensures (a + b) * k == a * k + b * k
  {
  }

  lemma Extend(l: Lot, qty: int, unit: int, max: int)
    requires Sensible(l, max) && 0 <= unit <= max && (l.qty == 0 || qty == 0 || (l.qty > 0) == (qty > 0))
    ensures Sensible(Lot(l.qty + qty, l.cost + qty * unit), max)
  {
    UnitBounds(qty, unit, max);
    AddScaled(l.qty, qty, max);
  }

  lemma ReduceLong(cost: int, open: int, closed: int, max: int)
    requires 0 < closed <= open && 0 <= cost <= open * max && max >= 0
    ensures 0 <= cost - TruncDiv(cost * closed, open) <= (open - closed) * max
  {
    TruncSigned(cost, closed, open);
    ProRata(cost, open, closed, max);
  }

  lemma ReduceShort(cost: int, open: int, closed: int, max: int)
    requires 0 < closed <= open && -(open * max) <= cost <= 0 && max >= 0
    ensures -((open - closed) * max) <= cost - TruncDiv(cost * closed, open) <= 0
  {
    TruncSigned(cost, closed, open);
    ProRata(-cost, open, closed, max);
    if cost == 0 { assert cost * closed == 0; DivBounds(0, open); }
  }

  lemma NegateProduct(a: int, k: int)
    ensures (-a) * k == -(a * k)
  {
  }

  /** A trade against the lot: the closed part releases cost, and what is left over opens the other way. */
  lemma Reduce(l: Lot, qty: int, unit: int, max: int)
    requires Sensible(l, max) && 0 <= unit <= max && l.qty != 0 && qty != 0 && (l.qty > 0) != (qty > 0)
    ensures Sensible(AfterFill(l, qty, unit), max)
  {
    var open, trade := Abs(l.qty), Abs(qty);
    var closed := Min(open, trade);
    NegateProduct(open, max);
    NegateProduct(open - closed, max);
    if trade > closed {
      UnitBounds(Sign(qty) * (trade - closed), unit, max);
    } else if l.qty > 0 {
      ReduceLong(l.cost, open, closed, max);
    } else {
      ReduceShort(l.cost, open, closed, max);
    }
  }

  /** Every fill in the band keeps the lot sensible, despite truncation and flips through zero. */
  lemma FillKeepsSensible(l: Lot, qty: int, unit: int, max: int)
    requires Sensible(l, max) && 0 <= unit <= max
    ensures Sensible(AfterFill(l, qty, unit), max) && AfterFill(l, qty, unit).qty == l.qty + qty
  {
    if l.qty == 0 || qty == 0 || (l.qty > 0) == (qty > 0) {
      Extend(l, qty, unit, max);
    } else {
      Reduce(l, qty, unit, max);
    }
  }

  datatype Fill = Fill(qty: int, unit: int)

  function AfterFills(fills: seq<Fill>): Lot {
    if fills == [] then Lot(0, 0)
    else AfterFill(AfterFills(fills[..|fills| - 1]), fills[|fills| - 1].qty, fills[|fills| - 1].unit)
  }

  function SignedSum(fills: seq<Fill>): int {
    if fills == [] then 0 else SignedSum(fills[..|fills| - 1]) + fills[|fills| - 1].qty
  }

  /** After any fills in the band: the quantity is their sum, the cost sensible, the capital within the maximum. */
  lemma {:induction false} LotsSurviveTruncation(fills: seq<Fill>, max: int)
    requires max >= 0 && forall k :: 0 <= k < |fills| ==> 0 <= fills[k].unit <= max
    ensures var l := AfterFills(fills);
            && l.qty == SignedSum(fills) && Sensible(l, max)
            && (l.qty == 0 ==> l.cost == 0)
            && 0 <= l.CapitalToday(max) <= Abs(l.qty) * max
  {
    if fills != [] {
      var n := |fills| - 1;
      LotsSurviveTruncation(fills[..n], max);
      FillKeepsSensible(AfterFills(fills[..n]), fills[n].qty, fills[n].unit, max);
    }
    CapitalBounds(AfterFills(fills), max);
  }

  lemma CapitalBounds(l: Lot, max: int)
    requires Sensible(l, max)
    ensures l.qty == 0 ==> l.cost == 0
    ensures 0 <= l.CapitalToday(max) <= Abs(l.qty) * max
  {
    NegateProduct(l.qty, max);
  }

  // ---------------------------------------------------------------- the comparison

  datatype ShadowOrder = ShadowOrder(order: WorkingOrder, hold: int)

  datatype Violation = BelowWorstCase | AboveToday

  datatype ShadowRow = ShadowRow(
    premium: int, margin: int, capitalCross: int, capitalToday: int, worstCase: int, violation: Option<Violation>)

  datatype ShadowError = Ineligible(error: MarginError) | PositionMismatch(ticker: nat)

  function Orders(orders: seq<ShadowOrder>): (r: seq<WorkingOrder>)
    ensures |r| == |orders|
  {
    seq(|orders|, j requires 0 <= j < |orders| => orders[j].order)
  }

  function CostTotal(lots: seq<Lot>, n: nat): int
    requires n <= |lots|
  {
    if n == 0 then 0 else CostTotal(lots, n - 1) + if lots[n - 1].qty != 0 then lots[n - 1].cost else 0
  }

  function TodayTotal(book: EventBook, lots: seq<Lot>, n: nat): int
    requires n <= |lots| == |book.instruments|
  {
    if n == 0 then 0
    else TodayTotal(book, lots, n - 1) + lots[n - 1].CapitalToday(book.instruments[n - 1].payoff.MaxValue())
  }

  function HoldTotal(orders: seq<ShadowOrder>): int {
    if orders == [] then 0 else HoldTotal(orders[..|orders| - 1]) + orders[|orders| - 1].hold
  }

  function Quantities(lots: seq<Lot>): (q: seq<int>)
    ensures |q| == |lots|
  {
    seq(|lots|, i requires 0 <= i < |lots| => lots[i].qty)
  }

  predicate Match(lots: seq<Lot>, positions: seq<Position>) {
    Known(|lots|, positions) && Net(|lots|, positions) == Quantities(lots)
  }

  function ViolationOf(worst: int, cross: int, today: int): Option<Violation> {
    if cross < worst then Some(BelowWorstCase) else if cross > today then Some(AboveToday) else None
  }

  /** `evaluate`: margin both ways first, then the lots against the positions, then the sums. */
  method Evaluate(book: EventBook, lots: seq<Lot>, positions: seq<Position>, orders: seq<ShadowOrder>)
    returns (r: Result<ShadowRow, ShadowError>)
    requires book.Valid() && |lots| == |book.instruments|
    ensures r.Ok? <==> Problem(book, positions, Orders(orders)) == None && Match(lots, positions)
    ensures r.Ok? ==> AllAcceptable(book, Orders(orders))
                      && Comparison(book, lots, orders, r.value)
  {
    var margin := ComputeEventMargin(book, positions, Orders(orders));
    if margin.Err? {
      return Err(Ineligible(margin.error));
    }
    var loss := WorstPositionLoss(book, positions);
    assert loss.Ok?;
    var worst := loss.value;
    var net := Net(|lots|, positions);
    for i := 0 to |lots|
      invariant forall k :: 0 <= k < i ==> lots[k].qty == net[k]
    {
      if lots[i].qty != net[i] {
        return Err(PositionMismatch(i));
      }
    }
    assert net == Quantities(lots);
    var premium, today := 0, 0;
    for i := 0 to |lots|
      invariant premium == CostTotal(lots, i) && today == TodayTotal(book, lots, i)
    {
      if net[i] != 0 {
        premium := premium + lots[i].cost;
        today := today + lots[i].CapitalToday(book.instruments[i].payoff.MaxValue());
      }
    }
    ghost var open := today;
    for j := 0 to |orders|
      invariant today == open + HoldTotal(orders[..j])
    {
      assert orders[..j + 1][..j] == orders[..j] && orders[..j + 1][j] == orders[j];
      today := today + orders[j].hold;
    }
    assert orders[..|orders|] == orders;
    var cross, worstCase := premium + margin.value.margin, premium + worst;
    r := Ok(ShadowRow(premium, margin.value.margin, cross, today, worstCase, ViolationOf(worstCase, cross, today)));
  }

  /** What the row says: both margins exact, the sums as described, the violation by comparison. */
  ghost predicate Comparison(book: EventBook, lots: seq<Lot>, orders: seq<ShadowOrder>, row: ShadowRow)
    requires book.Valid() && |lots| == |book.instruments| && AllAcceptable(book, Orders(orders))
  {
    && row.premium == CostTotal(lots, |lots|)
    && IsMargin(book, Quantities(lots), PriceOrders(book, Orders(orders)), row.margin)
    && row.capitalCross == row.premium + row.margin
    && row.capitalToday == TodayTotal(book, lots, |lots|) + HoldTotal(orders)
    && IsMargin(book, Quantities(lots), [], row.worstCase - row.premium)
    && row.violation == ViolationOf(row.worstCase, row.capitalCross, row.capitalToday)
  }

  // ---------------------------------------------------------------- the gate

  /** Whatever was paid for the lots, today's capital is the premium plus full collateral for the shorts. */
  lemma {:induction false} TodayIsPremiumAndShorts(book: EventBook, lots: seq<Lot>, n: nat)
    requires n <= |lots| == |book.instruments|
    ensures TodayTotal(book, lots, n) == CostTotal(lots, n) + ShortLocks(book.instruments, Quantities(lots), n)
  {
    if n > 0 {
      TodayIsPremiumAndShorts(book, lots, n - 1);
      var q, max := lots[n - 1].qty, book.instruments[n - 1].payoff.MaxValue();
      if q < 0 { assert max * Abs(q) == -q * max; }
    }
  }

  /**
    The gate, exactly: the lower half always holds, and the upper half holds if and only if the
    holds cover what the margin asks beyond full collateral for the short positions.
   */
  lemma GateExactly(book: EventBook, lots: seq<Lot>, orders: seq<ShadowOrder>, row: ShadowRow)
    requires book.Valid() && |lots| == |book.instruments| && AllAcceptable(book, Orders(orders))
    requires Comparison(book, lots, orders, row)
    ensures row.worstCase <= row.capitalCross
    ensures row.violation == None
            <==> row.margin <= ShortLocks(book.instruments, Quantities(lots), |lots|) + HoldTotal(orders)
  {
    RequirementWithinMargin(book, Quantities(lots), PriceOrders(book, Orders(orders)), row.worstCase - row.premium,
                            row.margin);
    TodayIsPremiumAndShorts(book, lots, |lots|);
  }

  /** Holds that cover what separate margin would lock for the orders are enough. */
  lemma HoldsKeepGate(book: EventBook, lots: seq<Lot>, orders: seq<ShadowOrder>, row: ShadowRow)
    requires book.Valid() && |lots| == |book.instruments| && AllAcceptable(book, Orders(orders))
    requires Comparison(book, lots, orders, row)
    requires OrderLocks(book.instruments, Quantities(lots), PriceOrders(book, Orders(orders))) <= HoldTotal(orders)
    ensures row.violation == None
  {
    GateExactly(book, lots, orders, row);
    ListedOrdersFairlyPriced(book, Orders(orders));
    MarginWithinStandalone(book, Quantities(lots), PriceOrders(book, Orders(orders)), row.margin);
  }

  /** In particular when each order's hold covers its own worst loss. */
  lemma {:induction false} OwnLossCovers(book: EventBook, net: seq<int>, priced: seq<Priced>, orders: seq<ShadowOrder>)
    requires |net| == |book.instruments| && FairlyPriced(book.instruments, priced) && |orders| == |priced|
    requires forall j :: 0 <= j < |orders| ==>
                           UnitLock(book.instruments[priced[j].inst].payoff, priced[j]) * Abs(priced[j].qty)
                               <= orders[j].hold
    ensures OrderLocks(book.instruments, net, priced) <= HoldTotal(orders)
  {
    if priced != [] {
      var n := |priced| - 1;
      OwnLossCovers(book, net, priced[..n], orders[..n]);
      var o := priced[n];
      var p := book.instruments[o.inst].payoff;
      var closing := ClosingPart(p, net[o.inst], o.qty, Capacity(book.instruments, net, priced[..n])[o.inst]);
      Scaled(Abs(o.qty) - closing, Abs(o.qty), UnitLock(p, o));
      assert UnitLock(p, o) * (Abs(o.qty) - closing) <= UnitLock(p, o) * Abs(o.qty);
    }
  }

  lemma GateHolds(book: EventBook, lots: seq<Lot>, orders: seq<ShadowOrder>, row: ShadowRow)
    requires book.Valid() && |lots| == |book.instruments| && AllAcceptable(book, Orders(orders))
    requires Comparison(book, lots, orders, row)
    requires var priced := PriceOrders(book, Orders(orders));
             forall j :: 0 <= j < |orders| ==>
                           UnitLock(book.instruments[priced[j].inst].payoff, priced[j]) * Abs(priced[j].qty)
                               <= orders[j].hold
    ensures row.worstCase <= row.capitalCross <= row.capitalToday && row.violation == None
  {
    ListedOrdersFairlyPriced(book, Orders(orders));
    OwnLossCovers(book, Quantities(lots), PriceOrders(book, Orders(orders)), orders);
    HoldsKeepGate(book, lots, orders, row);
  }

  /**
    A closing order on a future is held at nothing. Once the position it was to close is gone
    and it can still lose, the gate reports more capital than today.
   */
  lemma OrphanedClosingOrderTripsGate(book: EventBook, lots: seq<Lot>, o: ShadowOrder, row: ShadowRow, x: Outcome)
    requires book.Valid() && |lots| == |book.instruments| && AllAcceptable(book, Orders([o]))
             && Comparison(book, lots, [o], row)
    requires forall i :: 0 <= i < |lots| ==> lots[i].qty == 0
    requires o.hold == 0 && book.Contractual(x)
    requires Cost(Values(book, AtOutcome(x)), PriceOrder(book, o.order)) > 0
    ensures row.violation == Some(AboveToday)
  {
    var priced := PriceOrders(book, Orders([o]));
    assert priced == [PriceOrder(book, o.order)];
    HurtOne(Values(book, AtOutcome(x)), priced[0]);
    DotZeros(Quantities(lots), Values(book, AtOutcome(x)), |lots|);
    assert Possible(book, AtOutcome(x)) && StressIn(book, AtOutcome(x), Quantities(lots), priced) > 0;
    GateExactly(book, lots, [o], row);
    NoShorts(book.instruments, Quantities(lots), |lots|);
    assert [o][..0] == [] && HoldTotal([o]) == 0;
  }

  lemma {:induction false} NoShorts(instruments: seq<Instrument>, net: seq<int>, n: nat)
    requires |net| == |instruments| && n <= |net| && forall i :: 0 <= i < |net| ==> net[i] >= 0
    ensures ShortLocks(instruments, net, n) == 0
  {
    if n > 0 { NoShorts(instruments, net, n - 1); }
  }
}
