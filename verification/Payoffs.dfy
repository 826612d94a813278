/** Outcomes, payoffs and event books: what a contract of an event is worth at settlement. */
module Payoffs {
  import opened Common

  datatype OutcomeKind = Numeric | Categorical

  datatype Outcome = Value(x: int) | Category(name: string) | OtherCategory

  datatype MarginError =
    | InvalidInstrument(ticker: string)
    | OutcomeKindMismatch(ticker: string)
    | UnknownInstrument(index: nat)
    | InvalidPrice(ticker: string, price: int)
    | ZeroQuantity
    | InvalidOutcome(outcome: Outcome)
    | InvalidGrid
    | NotZeroSum(total: int)

  /** The outcomes `{ anchor + n * step }`, intersected with `[min, max]` when those are set. */
  datatype Grid = Grid(step: int, anchor: int, min: Option<int>, max: Option<int>) {
    /** `x` is `anchor` plus a whole number of steps. */
    predicate On(x: int)
      requires step > 0
    {
      (x - anchor) % step == 0
    }

    predicate Contains(x: int)
      requires step > 0
    {
      On(x) && (min.Some? ==> x >= min.value) && (max.Some? ==> x <= max.value)
    }

    predicate Valid() {
      && step > 0
      && (min.Some? && max.Some? ==> min.value <= max.value)
      && (min.Some? ==> On(min.value))
      && (max.Some? ==> On(max.value))
    }

    /** The grid point at or just below `k`, ignoring the bounds. */
    function Below(k: int): int
      requires step > 0
    {
      anchor + (k - anchor) / step * step
    }

    /** The grid point at or just above `k`, ignoring the bounds. */
    function Above(k: int): int
      requires step > 0
    {
      if Below(k) == k then k else Below(k) + step
    }
  }

  const INTEGERS := Grid(1, 0, None, None)

  datatype Payoff =
    | BinaryRange(lo: Option<int>, hi: Option<int>, payoutTicks: int, tickValue: int)
    | BinaryCategory(yesValues: seq<string>, payoutTicks: int, tickValue: int)
    | Banded(lower: int, upper: int, tickValue: int)
  {
    /** Largest settlement value of one long unit. */
    function MaxValue(): int {
      if Banded? then (upper - lower) * tickValue else payoutTicks * tickValue
    }

    /** Settlement value of one long unit at outcome `x`. */
    function ValueAt(x: Outcome): Result<int, MarginError> {
      match (this, x)
      case (BinaryRange(lo, hi, _, _), Value(value)) =>
        var yes := (lo.Some? ==> value >= lo.value) && (hi.Some? ==> value <= hi.value);
        Ok(if yes then MaxValue() else 0)
      case (BinaryCategory(yesValues, _, _), Category(name)) => Ok(if name in yesValues then MaxValue() else 0)
      case (BinaryCategory(_, _, _), OtherCategory) => Ok(0)
      case (Banded(lower, upper, tickValue), Value(value)) =>
        Ok((Clamp(value, lower, upper) - lower) * tickValue)
      case (_, _) => Err(InvalidOutcome(x))
    }

    /** The premium of one unit traded at `price`. */
    function ValueOfPrice(price: int): int {
      if Banded? then (price - lower) * tickValue else price * tickValue
    }
  }

  datatype Instrument = Instrument(ticker: string, payoff: Payoff, minPrice: int, maxPrice: int) {
    predicate Accepts(price: int) { minPrice <= price <= maxPrice }
  }

  function ValidateInstrument(kind: OutcomeKind, item: Instrument): Option<MarginError> {
    if item.minPrice > item.maxPrice then
      Some(InvalidInstrument(item.ticker))
    else
      match (item.payoff, kind)
      case (BinaryRange(lo, hi, payoutTicks, tickValue), Numeric) =>
        if payoutTicks <= 0 || tickValue <= 0
           || (lo.Some? && hi.Some? && lo.value > hi.value)
           || item.minPrice < 0 || item.maxPrice > payoutTicks
        then Some(InvalidInstrument(item.ticker))
        else None
      case (BinaryCategory(yesValues, payoutTicks, tickValue), Categorical) =>
        if payoutTicks <= 0 || tickValue <= 0 || yesValues == []
           || item.minPrice < 0 || item.maxPrice > payoutTicks
        then Some(InvalidInstrument(item.ticker))
        else None
      case (Banded(lower, upper, tickValue), Numeric) =>
        if lower >= upper || tickValue <= 0 || item.minPrice < lower || item.maxPrice > upper
        then Some(InvalidInstrument(item.ticker))
        else None
      case (_, _) => Some(OutcomeKindMismatch(item.ticker))
  }

  datatype EventBook = EventBook(kind: OutcomeKind, instruments: seq<Instrument>, grid: Option<Grid>) {
    /** What `EventBook::new` accepts. */
    predicate Valid() {
      && (forall i :: 0 <= i < |instruments| ==> ValidateInstrument(kind, instruments[i]) == None)
      && (grid.Some? ==> kind == Numeric && grid.value.Valid())
    }

    /** Events without a grid may resolve to any integer. */
    function EffectiveGrid(): (g: Grid)
      requires Valid()
      ensures g.Valid()
    {
      if grid.Some? then grid.value else INTEGERS
    }

    /** The outcomes the event can contractually settle on. */
    predicate Contractual(x: Outcome)
      requires Valid()
    {
      match (kind, x)
      case (Numeric, Value(v)) => grid.Some? ==> grid.value.Contains(v)
      case (Categorical, Category(_)) => true
      case (Categorical, OtherCategory) => true
      case (_, _) => false
    }
  }

  /** `EventBook::new`: refuses the first instrument that does not fit, then a bad grid. */
  method NewBook(kind: OutcomeKind, instruments: seq<Instrument>, grid: Option<Grid>)
    returns (r: Result<EventBook, MarginError>)
    ensures r.Ok? <==> EventBook(kind, instruments, grid).Valid()
    ensures r.Ok? ==> r.value == EventBook(kind, instruments, grid)
    ensures r.Err? && r.error != InvalidGrid ==>
              exists i :: 0 <= i < |instruments| && ValidateInstrument(kind, instruments[i]) == Some(r.error)
                          && forall j :: 0 <= j < i ==> ValidateInstrument(kind, instruments[j]) == None
    ensures r == Err(InvalidGrid) ==>
              && (forall j :: 0 <= j < |instruments| ==> ValidateInstrument(kind, instruments[j]) == None)
              && grid.Some? && (kind != Numeric || !grid.value.Valid())
  {
    for i := 0 to |instruments|
      invariant forall j :: 0 <= j < i ==> ValidateInstrument(kind, instruments[j]) == None
    {
      var problem := ValidateInstrument(kind, instruments[i]);
      if problem.Some? {
        return Err(problem.value);
      }
    }
    if grid.Some? && (kind != Numeric || !grid.value.Valid()) {
      return Err(InvalidGrid);
    }
    r := Ok(EventBook(kind, instruments, grid));
  }

  lemma ProductBounds(a: int, b: int, t: int)
    requires 0 <= a <= b && t >= 0
    ensures 0 <= a * t <= b * t
  {
    assert b * t == a * t + (b - a) * t;
  }

  /** A valid contract pays between nothing and its maximum at every outcome the event can reach. */
  lemma ValueBounds(book: EventBook, i: nat, x: Outcome)
    requires book.Valid() && i < |book.instruments| && book.Contractual(x)
    ensures book.instruments[i].payoff.ValueAt(x).Ok?
    ensures 0 <= book.instruments[i].payoff.ValueAt(x).value <= book.instruments[i].payoff.MaxValue()
  {
    var p := book.instruments[i].payoff;
    assert ValidateInstrument(book.kind, book.instruments[i]) == None;
    match p {
      case Banded(lower, upper, tickValue) =>
        ProductBounds(Clamp(x.x, lower, upper) - lower, upper - lower, tickValue);
      case BinaryRange(_, _, payoutTicks, tickValue) => ProductBounds(0, payoutTicks, tickValue);
      case BinaryCategory(_, payoutTicks, tickValue) => ProductBounds(0, payoutTicks, tickValue);
    }
  }

  /** A price the listing accepts is worth between nothing and the contract's maximum. */
  lemma PriceBounds(book: EventBook, i: nat, price: int)
    requires book.Valid() && i < |book.instruments| && book.instruments[i].Accepts(price)
    ensures 0 <= book.instruments[i].payoff.ValueOfPrice(price) <= book.instruments[i].payoff.MaxValue()
  {
    var p := book.instruments[i].payoff;
    assert ValidateInstrument(book.kind, book.instruments[i]) == None;
    match p {
      case Banded(lower, upper, tickValue) => ProductBounds(price - lower, upper - lower, tickValue);
      case BinaryRange(_, _, payoutTicks, tickValue) => ProductBounds(price, payoutTicks, tickValue);
      case BinaryCategory(_, payoutTicks, tickValue) => ProductBounds(price, payoutTicks, tickValue);
    }
  }

  // ---------------------------------------------------------------- what each contract pays

  /** What a contract pays at a number; ranges and bands are settled on numbers. */
  function PaidAt(p: Payoff, x: int): int
    requires !p.BinaryCategory?
  {
    p.ValueAt(Value(x)).value
  }

  /** A range with neither bound pays its payout whatever the outcome. */
  lemma OpenRangePays(payoutTicks: int, tickValue: int, x: int)
    ensures BinaryRange(None, None, payoutTicks, tickValue).ValueAt(Value(x)) == Ok(payoutTicks * tickValue)
  {
  }

  /** A range cut in two anywhere: the parts together pay what the whole pays, and never both. */
  lemma SplitRangePaysOnce(lo: Option<int>, hi: Option<int>, cut: int, payoutTicks: int, tickValue: int, x: int)
    requires (lo.Some? ==> lo.value <= cut) && (hi.Some? ==> cut < hi.value)
    ensures var below, above := BinaryRange(lo, Some(cut), payoutTicks, tickValue),
                                BinaryRange(Some(cut + 1), hi, payoutTicks, tickValue);
            && PaidAt(below, x) + PaidAt(above, x) == PaidAt(BinaryRange(lo, hi, payoutTicks, tickValue), x)
            && (PaidAt(below, x) == 0 || PaidAt(above, x) == 0)
            && (x > cut ==> PaidAt(below, x) == 0) && (x <= cut ==> PaidAt(above, x) == 0)
  {
  }

  /** Both bounds of a range are part of it, and nothing beyond them is. */
  lemma RangeBoundsInclusive(lo: int, hi: int, payoutTicks: int, tickValue: int)
    requires lo <= hi
    ensures var p := BinaryRange(Some(lo), Some(hi), payoutTicks, tickValue);
            && PaidAt(p, lo) == payoutTicks * tickValue == PaidAt(p, hi)
            && PaidAt(p, lo - 1) == 0 == PaidAt(p, hi + 1)
  {
  }

  /**
    Names put on the list are paid in full and take nothing from those on it; every
    other name, and OTHER, pays nothing.
   */
  lemma CategoryPaysItsNames(names: seq<string>, more: seq<string>, payoutTicks: int, tickValue: int, x: string)
    requires payoutTicks >= 0 && tickValue >= 0
    ensures var p, both := BinaryCategory(names, payoutTicks, tickValue),
                           BinaryCategory(names + more, payoutTicks, tickValue);
            && p.ValueAt(Category(x)).Ok? && both.ValueAt(Category(x)).Ok?
            && p.ValueAt(Category(x)).value <= both.ValueAt(Category(x)).value
            && (x in more ==> both.ValueAt(Category(x)) == Ok(payoutTicks * tickValue))
            && (x !in more ==> both.ValueAt(Category(x)) == p.ValueAt(Category(x)))
            && BinaryCategory([], payoutTicks, tickValue).ValueAt(Category(x)) == Ok(0)
            && both.ValueAt(OtherCategory) == Ok(0)
  {
    ProductBounds(0, payoutTicks, tickValue);
  }

  /**
    A band pays nothing up to its lower end, its width from its upper end on, and a tick more for each step between.
   */
  lemma BandPaysByTheTick(lower: int, upper: int, tickValue: int, x: int)
    requires lower < upper
    ensures var p := Banded(lower, upper, tickValue);
            && (x <= lower ==> PaidAt(p, x) == 0)
            && (x >= upper ==> PaidAt(p, x) == (upper - lower) * tickValue)
            && (lower <= x < upper ==> PaidAt(p, x + 1) == PaidAt(p, x) + tickValue)
  {
  }

  /**
    A futures price is worth what the contract pays if the event settles there; its
    band's ends are worth nothing and everything.
   */
  lemma BandPriceIsItsPayment(lower: int, upper: int, tickValue: int, price: int)
    requires lower <= price <= upper
    ensures Banded(lower, upper, tickValue).ValueOfPrice(price) == PaidAt(Banded(lower, upper, tickValue), price)
  {
  }

  /**
    A binary price and its complement together are one payout, whoever pays which, and a tick is worth the tick value.
   */
  lemma ComplementsPayOnce(p: Payoff, price: int)
    requires !p.Banded?
    ensures p.ValueOfPrice(price) + p.ValueOfPrice(p.payoutTicks - price) == p.payoutTicks * p.tickValue
    ensures p.ValueOfPrice(price + 1) == p.ValueOfPrice(price) + p.tickValue
  {
  }

  /** Every contract that is let in can pay its whole maximum, which is more than nothing. */
  lemma ValidContractCanPay(kind: OutcomeKind, item: Instrument) returns (x: Outcome)
    requires ValidateInstrument(kind, item) == None
    ensures item.payoff.ValueAt(x) == Ok(item.payoff.MaxValue()) && item.payoff.MaxValue() > 0
    ensures kind == Numeric <==> x.Value?
  {
    match item.payoff {
      case BinaryRange(lo, hi, payoutTicks, tickValue) =>
        x := Value(if lo.Some? then lo.value else if hi.Some? then hi.value else 0);
        ProductPositive(payoutTicks, tickValue);
      case BinaryCategory(yesValues, payoutTicks, tickValue) =>
        x := Category(yesValues[0]);
        ProductPositive(payoutTicks, tickValue);
      case Banded(lower, upper, tickValue) =>
        x := Value(upper);
        ProductPositive(upper - lower, tickValue);
    }
  }

  /** The kind of event an outcome belongs to. */
  function KindOf(x: Outcome): OutcomeKind { if x.Value? then Numeric else Categorical }

  lemma PriceSign(a: int, t: int)
    requires t > 0
    ensures a * t >= 0 <==> a >= 0
    ensures a * t > 0 <==> a > 0
  {
    if a > 0 { ProductPositive(a, t); } else if a < 0 { ProductPositive(-a, t); }
  }

  lemma PricesInOrder(a: int, b: int, t: int)
    requires t > 0
    ensures a * t <= b * t <==> a <= b
  {
    PriceSign(b - a, t);
    assert b * t - a * t == (b - a) * t;
  }

  /**
    A contract is let in exactly when its prices make a band, a tick is worth something, every
    price of the band is worth between nothing and the maximum, and some outcome of the event's
    kind pays that maximum.
   */
  lemma LetInExactly(kind: OutcomeKind, item: Instrument)
    ensures var p := item.payoff;
            ValidateInstrument(kind, item) == None <==>
            && item.minPrice <= item.maxPrice && p.tickValue > 0 && p.MaxValue() > 0
            && 0 <= p.ValueOfPrice(item.minPrice) && p.ValueOfPrice(item.maxPrice) <= p.MaxValue()
            && exists x :: KindOf(x) == kind && p.ValueAt(x) == Ok(p.MaxValue())
  {
    var p := item.payoff;
    if ValidateInstrument(kind, item) == None {
      var x := ValidContractCanPay(kind, item);
      assert KindOf(x) == kind;
    }
    if p.tickValue > 0 {
      var t := p.tickValue;
      if p.Banded? {
        PriceSign(p.upper - p.lower, t);
        PriceSign(item.minPrice - p.lower, t);
        PricesInOrder(item.maxPrice - p.lower, p.upper - p.lower, t);
      } else {
        PriceSign(p.payoutTicks, t);
        PriceSign(item.minPrice, t);
        PricesInOrder(item.maxPrice, p.payoutTicks, t);
      }
    }
  }

  lemma ProductPositive(a: int, b: int)
    requires a > 0 && b > 0
    ensures a * b > 0
  {
  }

  /** Premiums grow with the price: a better price for a buyer is never worth more. */
  lemma PriceMonotone(p: Payoff, low: int, high: int)
    requires low <= high && p.tickValue >= 0
    ensures p.ValueOfPrice(low) <= p.ValueOfPrice(high)
  {
    var t := p.tickValue;
    assert (high - low) * t >= 0;
    if p.Banded? {
      assert (high - p.lower) * t == (low - p.lower) * t + (high - low) * t;
    } else {
      assert high * t == low * t + (high - low) * t;
    }
  }

  /** Some outcome is always contractual, so a worst case exists. */
  lemma SomeOutcome(book: EventBook) returns (x: Outcome)
    requires book.Valid()
    ensures book.Contractual(x)
  {
    if book.kind == Categorical {
      x := OtherCategory;
    } else if book.grid.None? {
      x := Value(0);
    } else if book.grid.value.min.Some? {
      x := Value(book.grid.value.min.value);
    } else if book.grid.value.max.Some? {
      x := Value(book.grid.value.max.value);
    } else {
      x := Value(book.grid.value.anchor);
    }
  }
}
