/**
  The margin of one account on one event: its exact worst case over every outcome the event
  can settle on and every combination of partial fills of its working orders.
 */
module WorstCase {
  import opened Common
  import opened Payoffs
  import opened Stress

  datatype Position = Position(instrument: nat, qty: int)

  datatype WorkingOrder = WorkingOrder(instrument: nat, qty: int, price: int)

  /** Either only the trades have happened, or the event has resolved at `x`. */
  datatype Scenario = AtTrade | AtOutcome(x: Outcome)

  predicate Possible(book: EventBook, w: Scenario)
    requires book.Valid()
  {
    w.AtOutcome? ==> book.Contractual(w.x)
  }

  function UnitValue(p: Payoff, x: Outcome): int {
    match p.ValueAt(x)
    case Ok(v) => v
    case Err(_) => 0
  }

  function ValuesIn(instruments: seq<Instrument>, w: Scenario): (v: seq<int>)
    ensures |v| == |instruments|
  {
    seq(|instruments|, i requires 0 <= i < |instruments| =>
      if w.AtTrade? then 0 else UnitValue(instruments[i].payoff, w.x))
  }

  function Values(book: EventBook, w: Scenario): (v: seq<int>)
    ensures |v| == |book.instruments|
  {
    ValuesIn(book.instruments, w)
  }

  predicate Known(n: nat, positions: seq<Position>) {
    forall k :: 0 <= k < |positions| ==> positions[k].instrument < n
  }

  /** The signed quantity per instrument. */
  function Net(n: nat, positions: seq<Position>): (r: seq<int>)
    requires Known(n, positions)
    ensures |r| == n
  {
    if positions == [] then Zeros(n)
    else
      var last := positions[|positions| - 1];
      var before := Net(n, positions[..|positions| - 1]);
      before[last.instrument := before[last.instrument] + last.qty]
  }

  predicate Acceptable(book: EventBook, o: WorkingOrder) {
    o.instrument < |book.instruments| && o.qty != 0 && book.instruments[o.instrument].Accepts(o.price)
  }

  predicate AllAcceptable(book: EventBook, orders: seq<WorkingOrder>) {
    forall j :: 0 <= j < |orders| ==> Acceptable(book, orders[j])
  }

  function PriceOrder(book: EventBook, o: WorkingOrder): Priced
    requires o.instrument < |book.instruments|
  {
    Priced(o.instrument, o.qty, book.instruments[o.instrument].payoff.ValueOfPrice(o.price))
  }

  function PriceOrders(book: EventBook, orders: seq<WorkingOrder>): (r: seq<Priced>)
    requires forall j :: 0 <= j < |orders| ==> orders[j].instrument < |book.instruments|
    ensures |r| == |orders| && Fit(|book.instruments|, r)
    ensures forall j :: 0 <= j < |orders| ==> r[j] == PriceOrder(book, orders[j])
  {
    seq(|orders|, j requires 0 <= j < |orders| => PriceOrder(book, orders[j]))
  }

  /** The stress of net positions and orders in scenario `w`. */
  function StressIn(book: EventBook, w: Scenario, net: seq<int>, orders: seq<Priced>): int
    requires |net| == |book.instruments| && Fit(|book.instruments|, orders)
  {
    StressAt(Values(book, w), net, orders)
  }

  /** `m` is the largest stress over every possible scenario, and some scenario reaches it. */
  ghost predicate IsMargin(book: EventBook, net: seq<int>, orders: seq<Priced>, m: int)
    requires book.Valid() && |net| == |book.instruments| && Fit(|book.instruments|, orders)
  {
    && (forall w :: Possible(book, w) ==> StressIn(book, w, net, orders) <= m)
    && (exists w :: Possible(book, w) && StressIn(book, w, net, orders) == m)
  }

  lemma MarginUnique(book: EventBook, net: seq<int>, orders: seq<Priced>, m: int, m': int)
    requires book.Valid() && |net| == |book.instruments| && Fit(|book.instruments|, orders)
    requires IsMargin(book, net, orders, m) && IsMargin(book, net, orders, m')
    ensures m == m'
  {
  }

  lemma TradeStress(book: EventBook, net: seq<int>)
    requires |net| == |book.instruments|
    ensures StressIn(book, AtTrade, net, []) == 0
  {
    DotZeros(net, Values(book, AtTrade), |net|);
  }

  lemma MarginNonNegative(book: EventBook, net: seq<int>, orders: seq<Priced>, m: int)
    requires book.Valid() && |net| == |book.instruments| && Fit(|book.instruments|, orders)
    requires IsMargin(book, net, orders, m)
    ensures m >= 0
  {
    DotZeros(net, Values(book, AtTrade), |net|);
    assert Possible(book, AtTrade);
  }

  // ---------------------------------------------------------------- the law of the engine

  /** What the positions held after the fills receive (positive) or pay at outcome `x`. */
  function SettlementOf(book: EventBook, net: seq<int>, x: Outcome): int
    requires |net| == |book.instruments|
  {
    Dot(net, Values(book, AtOutcome(x)), |net|)
  }

  /** What the positions are paid one by one, each unit what its contract pays. */
  function PaidOut(book: EventBook, positions: seq<Position>, x: Outcome): int
    requires Known(|book.instruments|, positions)
  {
    if positions == [] then 0
    else
      var last := positions[|positions| - 1];
      PaidOut(book, positions[..|positions| - 1], x) + last.qty * UnitValue(book.instruments[last.instrument].payoff, x)
  }

  /** Settling the net quantities pays what the positions are paid one by one. */
  lemma {:induction false} SettlementIsPaidOut(book: EventBook, positions: seq<Position>, x: Outcome)
    requires Known(|book.instruments|, positions)
    ensures SettlementOf(book, Net(|book.instruments|, positions), x) == PaidOut(book, positions, x)
  {
    var n, v := |book.instruments|, Values(book, AtOutcome(x));
    if positions == [] {
      DotZeros(Zeros(n), v, n);
    } else {
      var before, last := positions[..|positions| - 1], positions[|positions| - 1];
      SettlementIsPaidOut(book, before, x);
      DotUpdate(Net(n, before), v, n, last.instrument, last.qty);
    }
  }

  /**
    A holder of `q` units of a range is paid the payout for each if the event settles inside it, and nothing outside.
   */
  lemma RangeHolderPaid(book: EventBook, i: nat, q: int, lo: int, hi: int, x: int)
    requires i < |book.instruments| && book.instruments[i].payoff.BinaryRange?
    requires book.instruments[i].payoff.lo == Some(lo) && book.instruments[i].payoff.hi == Some(hi)
    ensures var p := book.instruments[i].payoff;
            SettlementOf(book, Net(|book.instruments|, [Position(i, q)]), Value(x))
            == if lo <= x <= hi then q * (p.payoutTicks * p.tickValue) else 0
  {
    SettlementIsPaidOut(book, [Position(i, q)], Value(x));
    assert [Position(i, q)][..0] == [];
  }

  /** The cash an account can end up having paid out: premiums, then a settlement it owes. */
  function CashAtRisk(book: EventBook, net: seq<int>, orders: seq<Priced>, fills: seq<int>, x: Outcome): int
    requires |net| == |book.instruments| && Fit(|book.instruments|, orders) && |fills| == |orders|
  {
    Premium(orders, fills) + Max(0, -SettlementOf(book, Filled(net, orders, fills), x))
  }

  /** Whatever part of the working orders fills, and wherever the event resolves, the margin covers it. */
  lemma MarginCoversEveryFill(book: EventBook, net: seq<int>, orders: seq<Priced>, m: int, fills: seq<int>, x: Outcome)
    requires book.Valid() && |net| == |book.instruments| && Fit(|book.instruments|, orders)
    requires IsMargin(book, net, orders, m)
    requires Fills(fills, orders) && book.Contractual(x)
    ensures CashAtRisk(book, net, orders, fills, x) <= m
  {
    var v0, v := Values(book, AtTrade), Values(book, AtOutcome(x));
    assert Possible(book, AtTrade) && Possible(book, AtOutcome(x));
    ObligationWithinStress(v0, net, orders, fills);
    ObligationWithinStress(v, net, orders, fills);
    DotZeros(Filled(net, orders, fills), v0, |net|);
  }

  /** The margin is not a micro-USDC more than that: some fills and some outcome need all of it. */
  lemma MarginIsReached(book: EventBook, net: seq<int>, orders: seq<Priced>, m: int)
    returns (fills: seq<int>, x: Outcome)
    requires book.Valid() && |net| == |book.instruments| && Fit(|book.instruments|, orders)
    requires IsMargin(book, net, orders, m)
    ensures Fills(fills, orders) && book.Contractual(x)
    ensures forall j :: 0 <= j < |orders| ==> fills[j] == 0 || fills[j] == orders[j].qty
    ensures CashAtRisk(book, net, orders, fills, x) == m
  {
    var w :| Possible(book, w) && StressIn(book, w, net, orders) == m;
    var v := Values(book, w);
    fills := WorstFills(v, orders);
    AllOrNothing(v, orders);
    WorstFillsReachStress(v, net, orders);
    if w.AtOutcome? {
      x := w.x;
    } else {
      x := SomeOutcome(book);
      DotZeros(Filled(net, orders, fills), v, |net|);
    }
    MarginCoversEveryFill(book, net, orders, m, fills, x);
  }

  lemma {:induction false} AllOrNothing(v: seq<int>, orders: seq<Priced>)
    requires Fit(|v|, orders)
    ensures forall j :: 0 <= j < |orders| ==> WorstFills(v, orders)[j] == 0 || WorstFills(v, orders)[j] == orders[j].qty
  {
    if orders != [] {
      AllOrNothing(v, orders[..|orders| - 1]);
    }
  }

  /**
    A fill needs no new cash. The margin after a fill of at most the order's quantity, at a
    price no worse than its limit, plus the premium paid, is at most the margin before.
   */
  lemma FillNeedsNoNewCash(book: EventBook, net: seq<int>, orders: seq<Priced>, j: nat, f: int, paid: int, before: int,
                           after: int)
    requires book.Valid() && |net| == |book.instruments| && Fit(|book.instruments|, orders)
    requires j < |orders| && Partial(f, orders[j].qty)
    requires f * paid <= f * orders[j].unit
    requires Fit(|book.instruments|, Replace(orders, j, Rest(orders[j], f)))
    requires IsMargin(book, net, orders, before)
    requires var i := orders[j].inst;
             IsMargin(book, net[i := net[i] + f], Replace(orders, j, Rest(orders[j], f)), after)
    ensures after + f * paid <= before
  {
    var i := orders[j].inst;
    var w :| Possible(book, w)
             && StressIn(book, w, net[i := net[i] + f], Replace(orders, j, Rest(orders[j], f))) == after;
    FillWithinStress(Values(book, w), net, orders, j, f, paid);
  }

  /** Releasing part or all of a working order never raises the margin. */
  lemma ReleaseLowersMargin(book: EventBook, net: seq<int>, orders: seq<Priced>, j: nat, f: int, before: int,
                            after: int)
    requires book.Valid() && |net| == |book.instruments| && Fit(|book.instruments|, orders)
    requires j < |orders| && Partial(f, orders[j].qty)
    requires Fit(|book.instruments|, Replace(orders, j, Rest(orders[j], f)))
    requires IsMargin(book, net, orders, before)
    requires IsMargin(book, net, Replace(orders, j, Rest(orders[j], f)), after)
    ensures after <= before
  {
    var w :| Possible(book, w) && StressIn(book, w, net, Replace(orders, j, Rest(orders[j], f))) == after;
    ShrinkWithinStress(Values(book, w), net, orders, j, f);
  }

  /** Accepting another order never lowers the margin. */
  lemma ReserveRaisesMargin(book: EventBook, net: seq<int>, orders: seq<Priced>, o: Priced, before: int, after: int)
    requires book.Valid() && |net| == |book.instruments| && Fit(|book.instruments|, orders)
    requires o.inst < |book.instruments| && Fit(|book.instruments|, orders + [o])
    requires IsMargin(book, net, orders, before) && IsMargin(book, net, orders + [o], after)
    ensures before <= after
  {
    var w :| Possible(book, w) && StressIn(book, w, net, orders) == before;
    HurtConcat(Values(book, w), orders, [o]);
  }
}
