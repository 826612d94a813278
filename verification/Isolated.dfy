/**
  Isolated margin: how an order's hold is sized, how each of its fills is split into opening and
  closing units, and what the fill commits, credits and releases.
 */
module Isolated {
  import opened Common
  import opened Portfolio

  datatype Kind = Binary | Scalar | OtherKind

  datatype Contract = Contract(kind: Kind, minPrice: int, maxPrice: int, payoutTicks: int, lower: int, upper: int,
                               tickValue: int) {
    /** `payout_ticks` defaults to 100. */
    function Payout(): int { if payoutTicks > 0 then payoutTicks else 100 }

    /** What one unit of open interest is worth in total, long and short side together. */
    function UnitMicro(): int {
      if kind == Binary then Payout() * MICRO_PER_TICK else (upper - lower) * tickValue
    }
  }

  const MICRO_PER_TICK := 10_000

  /** `scalar_lock_micro`. */
  function ScalarLock(c: Contract, isLong: bool, price: int, quantity: int): Option<int> {
    if quantity <= 0 || c.tickValue <= 0 || c.lower >= c.upper then None
    else
      var distance := if isLong then price - c.lower else c.upper - price;
      if distance < 0 then None else Some(distance * quantity * c.tickValue)
  }

  /** What a binary order risks per unit, in ticks: it goes by the action alone. */
  function RiskTicks(c: Contract, action: Action, price: int): int {
    if action == Buy then price else c.maxPrice - price + c.minPrice
  }

  /** `required_hold`: a binary order holds for all its units, a futures order for the opening ones. */
  function RequiredHold(c: Contract, side: Side, action: Action, price: int, count: int, opening: int): Option<int> {
    match c.kind
    case Binary => Some(RiskTicks(c, action, price) * count * MICRO_PER_TICK)
    case Scalar => if opening == 0 then Some(0) else ScalarLock(c, SignedDelta(side, action, 1) > 0, price, opening)
    case OtherKind => None
  }

  /** `fill_hold_amount`: refused unless positive. */
  function FillHoldAmount(c: Contract, side: Side, action: Action, price: int, count: int): Option<int> {
    if price <= 0 || count <= 0 then None
    else
      var amount := match c.kind
        case Binary => Some(RiskTicks(c, action, price) * count * MICRO_PER_TICK)
        case Scalar => ScalarLock(c, SignedDelta(side, action, 1) > 0, price, count)
        case OtherKind => None;
      if amount.Some? && amount.value > 0 then amount else None
  }

  /** `amend_order`: the whole order at its new price and count must need exactly the hold that was placed. */
  predicate AmendAllowed(c: Contract, side: Side, action: Action, hold: int, price: int, count: int) {
    FillHoldAmount(c, side, action, price, count) == Some(hold)
  }

  /** The credit of the closing units; None is an error. */
  function CloseCredit(c: Contract, side: Side, action: Action, price: int, closing: int): Option<int> {
    if closing <= 0 then Some(0)
    else
      var isLong := SignedDelta(side, action, 1) < 0;
      match c.kind
      case Scalar => ScalarLock(c, isLong, price, closing)
      case Binary =>
        var perUnit := if isLong then price else c.Payout() - price;
        if perUnit < 0 then None else Some(perUnit * closing * MICRO_PER_TICK)
      case OtherKind => Some(0)
  }

  /** Pre-trade: the units of an order that reduce the effective position. */
  function ClosingCount(position: int, signedDelta: int, count: int): int {
    if signedDelta < 0 then Min(count, Max(position, 0))
    else if signedDelta > 0 then Min(count, Max(-position, 0))
    else 0
  }

  /** `opening_fill_count`: closing units are used up first, opening ones up to what was reserved. */
  function OpeningFillCount(opening: int, closing: int, prior: int, count: int): int {
    var before, after := Max(prior - closing, 0), Max(prior + count - closing, 0);
    Clamp(Min(after - before, opening - before), 0, count)
  }

  // ---------------------------------------------------------------- the split

  /** The opening units are exactly what the order adds to the size of the position. */
  lemma SplitTracksPosition(position: int, side: Side, action: Action, count: int)
    requires count > 0 && ValidSideAction(side, action)
    ensures var delta := SignedDelta(side, action, count);
            var closing := ClosingCount(position, delta, count);
            && 0 <= closing <= count
            && Abs(position + delta) - Abs(position) == (count - closing) - closing
  {
  }

  function Filled(counts: seq<int>, n: nat): int
    requires n <= |counts|
  {
    if n == 0 then 0 else Filled(counts, n - 1) + counts[n - 1]
  }

  function OpeningTotal(opening: int, closing: int, counts: seq<int>, n: nat): int
    requires n <= |counts|
  {
    if n == 0 then 0
    else OpeningTotal(opening, closing, counts, n - 1)
         + OpeningFillCount(opening, closing, Filled(counts, n - 1), counts[n - 1])
  }

  lemma OpeningStep(opening: int, closing: int, prior: int, count: int)
    requires opening >= 0 && count >= 0
    ensures Min(Max(prior - closing, 0), opening) + OpeningFillCount(opening, closing, prior, count)
            == Min(Max(prior + count - closing, 0), opening)
    ensures 0 <= OpeningFillCount(opening, closing, prior, count) <= count
  {
  }

  /**
    However an order's executions are cut into fills, each opening count is part of
    its fill and they add up to the same.
   */
  lemma {:induction false} OpeningSplitTelescopes(opening: int, closing: int, counts: seq<int>, n: nat)
    requires opening >= 0 && closing >= 0 && n <= |counts| && forall i :: 0 <= i < |counts| ==> counts[i] >= 0
    ensures OpeningTotal(opening, closing, counts, n) == Min(Max(Filled(counts, n) - closing, 0), opening)
    ensures n > 0 ==> 0 <= OpeningFillCount(opening, closing, Filled(counts, n - 1), counts[n - 1]) <= counts[n - 1]
  {
    if n > 0 {
      var prior, count := Filled(counts, n - 1), counts[n - 1];
      OpeningSplitTelescopes(opening, closing, counts, n - 1);
      OpeningStep(opening, closing, prior, count);
      assert Filled(counts, n) == prior + count;
      assert OpeningTotal(opening, closing, counts, n)
             == OpeningTotal(opening, closing, counts, n - 1) + OpeningFillCount(opening, closing, prior, count);
    }
  }

  // ---------------------------------------------------------------- amounts

  /** The party could lose something at this price: it is off the edge of the band on the party's side. */
  predicate OffEdge(c: Contract, side: Side, action: Action, price: int) {
    match c.kind
    case Binary => RiskTicks(c, action, price) > 0
    case Scalar => if SignedDelta(side, action, 1) > 0 then price > c.lower else price < c.upper
    case OtherKind => false
  }

  /**
    A fill of `count` units commits something exactly when its price is off the edge of the band on the party's side.
   */
  lemma HoldAmountAtBandEdge(c: Contract, side: Side, action: Action, price: int, count: int)
    requires price > 0 && count > 0 && (c.kind == Scalar ==> c.tickValue > 0 && c.lower < c.upper)
    ensures FillHoldAmount(c, side, action, price, count).Some? <==> OffEdge(c, side, action, price)
  {
    var distance := if SignedDelta(side, action, 1) > 0 then price - c.lower else c.upper - price;
    Triple(RiskTicks(c, action, price), count, MICRO_PER_TICK);
    Triple(distance, count, c.tickValue);
  }

  lemma Triple(a: int, b: int, d: int)
    ensures b > 0 && d > 0 ==> (a * b * d > 0 <==> a > 0)
  {
    if b > 0 && d > 0 {
      if a > 0 {
        assert a * b > 0;
      } else {
        assert a * b <= 0;
      }
    }
  }

  /**
    A binary party commits its true exposure, price for a buyer and the complement for a seller,
    exactly when its side is the book's own (or the price is the middle of the band).
   */
  lemma RiskIsExposure(c: Contract, side: Side, action: Action, price: int)
    requires c.kind == Binary && c.maxPrice + c.minPrice == c.Payout() && ValidSideAction(side, action)
    ensures RiskTicks(c, action, price) == (if IsBuy(side, action) then price else c.Payout() - price)
            <==> (side == Yes || side == Long) || 2 * price == c.Payout()
  {
  }

  /**
    A hold is exactly what fills at the order's limit commit, however they cut it: all the units of
    a binary order, and of a futures order the opening ones.
   */
  lemma HoldIsWhatFillsCommit(c: Contract, side: Side, action: Action, price: int, count: int, opening: int, a: int,
                              b: int)
    requires price > 0 && (c.kind == Scalar ==> c.tickValue > 0 && c.lower < c.upper)
    requires OffEdge(c, side, action, price) && a > 0 && b > 0
    requires a + b == if c.kind == Binary then count else opening
    ensures var first, second := FillHoldAmount(c, side, action, price, a), FillHoldAmount(c, side, action, price, b);
            && first.Some? && second.Some?
            && RequiredHold(c, side, action, price, count, opening) == Some(first.value + second.value)
    ensures RequiredHold(c, side, action, price, count, opening) == FillHoldAmount(c, side, action, price, a + b)
    ensures c.kind == Scalar ==> RequiredHold(c, side, action, price, count, 0) == Some(0)
  {
    HoldAmountAtBandEdge(c, side, action, price, a);
    HoldAmountAtBandEdge(c, side, action, price, b);
    HoldAmountAtBandEdge(c, side, action, price, a + b);
    var distance := if SignedDelta(side, action, 1) > 0 then price - c.lower else c.upper - price;
    Cut(RiskTicks(c, action, price), a, b, MICRO_PER_TICK);
    Cut(distance, a, b, c.tickValue);
  }

  lemma Cut(k: int, a: int, b: int, m: int)
    ensures k * (a + b) * m == k * a * m + k * b * m
  {
    assert k * (a + b) == k * a + k * b;
  }
}
