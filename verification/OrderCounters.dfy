/**
  The quantity counters of an order row when fills, cancels and the submitter's own response race:
  which writes the table's check accepts, what a late fill takes back, and the running average price.
 */
module OrderCounters {
  import opened Common

  datatype Status = Pending | Open | Partial | Filled | Cancelled | Rejected | Expired

  /** `reserved` is the order's opening and closing units together, as pre-trade split it. */
  datatype Row = Row(count: int, reserved: int, filled: int, cancelled: int, expired: int, average: int, status: Status)

  datatype Execution = Execution(count: nat, price: nat)

  /** What an order asked for when it was submitted; `ioc` is time-in-force 2. */
  datatype Request = Request(count: nat, ioc: bool)

  function Accounted(r: Row): int { r.filled + r.cancelled + r.expired }

  /** The check on the counters. */
  predicate Lifecycle(r: Row) {
    r.filled >= 0 && r.cancelled >= 0 && r.expired >= 0 && Accounted(r) <= r.count
  }

  /** The checks on the orders table, on counters and reserved units: a write that breaks one fails. */
  predicate Checks(r: Row) { Lifecycle(r) && 0 <= r.reserved <= r.count }

  predicate Working(s: Status) { s.Pending? || s.Open? || s.Partial? }

  function Inserted(count: nat): Row { Row(count, 0, 0, 0, 0, 0, Pending) }

  /** An order past pre-trade: every unit is reserved as opening or closing. */
  function Entered(count: nat): Row { Row(count, count, 0, 0, 0, 0, Pending) }

  /** The running average after `applied` more at `price`, truncated to a whole tick. */
  function NewAverage(average: int, filled: int, applied: int, price: int): int {
    if filled + applied > 0 then TruncDiv(average * filled + applied * price, filled + applied) else 0
  }

  /** `update_order_fill`. */
  function Fill(r: Row, e: Execution): Row {
    var applied := Min(Max(r.count - r.filled, 0), e.count);
    var fromCancelled := Min(r.cancelled, applied);
    var fromExpired := Min(r.expired, Max(applied - fromCancelled, 0));
    var filled := r.filled + applied;
    Row(r.count, r.reserved, filled, r.cancelled - fromCancelled, r.expired - fromExpired,
        NewAverage(r.average, r.filled, applied, e.price),
        if filled >= r.count then Filled else if filled > 0 then Partial else r.status)
  }

  function FillEach(r: Row, es: seq<Execution>): Row {
    if es == [] then r else Fill(FillEach(r, es[..|es| - 1]), es[|es| - 1])
  }

  function Quantity(es: seq<Execution>): nat {
    if es == [] then 0 else Quantity(es[..|es| - 1]) + es[|es| - 1].count
  }

  function Notional(es: seq<Execution>): nat {
    if es == [] then 0 else Notional(es[..|es| - 1]) + es[|es| - 1].count * es[|es| - 1].price
  }

  /** The last write of `persist_fills`: what the submitter's own response says about its order. */
  function Finish(r: Row, asked: Request, quantity: nat, notional: nat): Row {
    var status := if quantity == 0 then (if asked.ioc then Cancelled else Open)
                  else if quantity >= asked.count then Filled
                  else if asked.ioc then Cancelled else Partial;
    var cancelled := if status.Cancelled? then Max(r.count - r.filled, 0) else r.cancelled;
    r.(status := status, cancelled := cancelled, average := if quantity == 0 then r.average else notional / quantity)
  }

  /** The user's cancel, once the engine has taken the order off its book. */
  function Cancel(r: Row): Row {
    if Working(r.status) then r.(status := Cancelled, cancelled := Max(r.count - r.filled, 0)) else r
  }

  /** `mark_pending_cancelled`. */
  function CancelPending(r: Row): Row {
    if r.status.Pending? then r.(status := Cancelled, cancelled := Max(r.count - r.filled - r.expired, 0)) else r
  }

  function Amend(r: Row, count: nat): Row {
    if r.status.Open? || r.status.Partial? then r.(count := count) else r
  }

  // ---------------------------------------------------------------- single writes

  /**
    A fill never breaks the check. It takes back cancelled quantity first, then expired quantity,
    and only then what was still working.
   */
  lemma LateFill(r: Row, e: Execution)
    requires Lifecycle(r)
    ensures var s := Fill(r, e);
            && Lifecycle(s) && s.count == r.count
            && s.filled == Min(r.filled + e.count, r.count)
            && Accounted(s) == Max(Accounted(r), s.filled)
            && s.cancelled <= r.cancelled && s.expired <= r.expired
            && (s.expired < r.expired ==> s.cancelled == 0)
            && (Accounted(s) > Accounted(r) ==> s.cancelled == 0 && s.expired == 0)
  {
  }

  lemma {:induction false} LateFills(r: Row, es: seq<Execution>)
    requires Lifecycle(r)
    ensures var s := FillEach(r, es);
            && Lifecycle(s) && s.count == r.count
            && s.filled == Min(r.filled + Quantity(es), r.count)
            && Accounted(s) == Max(Accounted(r), s.filled) && s.expired <= r.expired
  {
    if es != [] {
      LateFills(r, es[..|es| - 1]);
      LateFill(FillEach(r, es[..|es| - 1]), es[|es| - 1]);
    }
  }

  /** Any fills leave the order filled exactly when they reach its count, and partly filled otherwise. */
  lemma {:induction false} FillsStatus(r: Row, es: seq<Execution>)
    requires Lifecycle(r) && r.count > 0 && Quantity(es) > 0
    ensures var s := FillEach(r, es);
            && (s.status.Filled? <==> r.filled + Quantity(es) >= r.count)
            && (s.status.Partial? <==> r.filled + Quantity(es) < r.count)
  {
    var before := es[..|es| - 1];
    LateFills(r, before);
    if Quantity(before) > 0 { FillsStatus(r, before); }
  }

  /** A user's cancel is written unless the row holds expired quantity: then the check refuses it. */
  lemma CancelAcceptedIff(r: Row)
    requires Checks(r)
    ensures Checks(Cancel(r)) <==> !Working(r.status) || r.expired == 0
    ensures Working(r.status) && r.expired == 0 ==> Accounted(Cancel(r)) == r.count
  {
  }

  /** Cancelling a pending order leaves nothing unaccounted for, expired quantity or not. */
  lemma CancelPendingAccepted(r: Row)
    requires Checks(r)
    ensures Checks(CancelPending(r)) && (r.status.Pending? ==> Accounted(CancelPending(r)) == r.count)
  {
  }

  /**
    The response of an order that is not immediate-or-cancel is always written; of
    one that is, without expired quantity only.
   */
  lemma FinishAcceptedIff(r: Row, asked: Request, quantity: nat, notional: nat)
    requires Checks(r)
    ensures Checks(Finish(r, asked, quantity, notional))
            <==> !(asked.ioc && (quantity == 0 || quantity < asked.count)) || r.expired == 0
  {
  }

  /**
    An amended count is written exactly when it still covers what is filled,
    cancelled and expired, and what was reserved.
   */
  lemma AmendAcceptedIff(r: Row, count: nat)
    requires Checks(r) && (r.status.Open? || r.status.Partial?)
    ensures Checks(Amend(r, count)) <==> Accounted(r) <= count && r.reserved <= count
  {
  }

  /**
    An order that expired before the counters existed: a late fill of part of it
    reopens it, and then it cannot be cancelled.
   */
  lemma ExpiredOrderCannotBeCancelled(r: Row, e: Execution)
    requires Checks(r) && r.status.Expired? && r.cancelled == 0 && 0 < e.count < r.expired
    ensures var s := Fill(r, e); Checks(s) && s.status.Partial? && s.expired > 0 && !Checks(Cancel(s))
  {
    LateFill(r, e);
    CancelAcceptedIff(Fill(r, e));
  }

  // ---------------------------------------------------------------- runs

  datatype Write =
    | Reserve(opening: nat, closing: nat)
    | Hit(e: Execution)
    | Response(es: seq<Execution>, asked: Request)
    | UserCancel
    | PendingCancel
    | AmendTo(count: nat)
    | Reject

  /** A write before the check. */
  function Written(r: Row, w: Write): Row {
    match w
    case Reserve(opening, closing) => r.(reserved := opening + closing)
    case Hit(e) => Fill(r, e)
    case Response(es, asked) => Finish(FillEach(r, es), asked, Quantity(es), Notional(es))
    case UserCancel => Cancel(r)
    case PendingCancel => CancelPending(r)
    case AmendTo(count) => Amend(r, count)
    case Reject => r.(status := Rejected)
  }

  /** A write that breaks a check leaves the row as it was. */
  function Stored(r: Row, w: Write): Row { if Checks(Written(r, w)) then Written(r, w) else r }

  function Run(r: Row, ws: seq<Write>): Row {
    if ws == [] then r else Stored(Run(r, ws[..|ws| - 1]), ws[|ws| - 1])
  }

  /** A count below what is accounted for or reserved, or more reserved than the count. */
  predicate TooShort(r: Row, w: Write) {
    match w
    case AmendTo(count) => (r.status.Open? || r.status.Partial?) && (count < Accounted(r) || count < r.reserved)
    case Reserve(opening, closing) => opening + closing > r.count
    case _ => false
  }

  /** On a row without expired quantity, only such writes are refused. */
  lemma WriteRefusedIff(r: Row, w: Write)
    requires Checks(r) && r.expired == 0
    ensures Checks(Written(r, w)) <==> !TooShort(r, w)
    ensures Written(r, w).expired == 0
  {
    match w
    case Response(es, asked) =>
      LateFills(r, es);
      FillsReserve(r, es);
      FinishAcceptedIff(FillEach(r, es), asked, Quantity(es), Notional(es));
    case Hit(e) => LateFill(r, e);
    case AmendTo(count) => if r.status.Open? || r.status.Partial? { AmendAcceptedIff(r, count); }
    case _ =>
  }

  lemma {:induction false} FillsReserve(r: Row, es: seq<Execution>)
    ensures FillEach(r, es).reserved == r.reserved
  {
    if es != [] { FillsReserve(r, es[..|es| - 1]); }
  }

  /**
    From its insertion on, whatever is written in whatever order, an order keeps all
    checks and holds no expired quantity.
   */
  lemma {:induction false} RunKeepsCounters(count: nat, ws: seq<Write>)
    ensures Checks(Run(Inserted(count), ws)) && Run(Inserted(count), ws).expired == 0
  {
    if ws != [] {
      RunKeepsCounters(count, ws[..|ws| - 1]);
      WriteRefusedIff(Run(Inserted(count), ws[..|ws| - 1]), ws[|ws| - 1]);
    }
  }

  /** In every reachable state a write is refused if and only if it is an amend, or a reservation, that is too short. */
  lemma RunRefusesIff(count: nat, ws: seq<Write>, w: Write)
    ensures var r := Run(Inserted(count), ws); Checks(Written(r, w)) <==> !TooShort(r, w)
  {
    RunKeepsCounters(count, ws);
    WriteRefusedIff(Run(Inserted(count), ws), w);
  }

  // ---------------------------------------------------------------- amends below what was reserved

  predicate NoReserve(ws: seq<Write>) { forall k :: 0 <= k < |ws| ==> !ws[k].Reserve? }

  /** Once its units are reserved, an order's row never counts less than it was entered for. */
  lemma {:induction false} CountNeverFalls(count: nat, ws: seq<Write>)
    requires NoReserve(ws)
    ensures var r := Run(Entered(count), ws); Checks(r) && r.expired == 0 && r.reserved == count <= r.count
  {
    if ws != [] {
      var before, w := ws[..|ws| - 1], ws[|ws| - 1];
      CountNeverFalls(count, before);
      WriteRefusedIff(Run(Entered(count), before), w);
      if w.Response? { FillsReserve(Run(Entered(count), before), w.es); }
    }
  }

  /**
    An order lowered in the engine keeps its count in the row. The engine fills at most the lower
    count, so the row never gets further than partly filled.
   */
  lemma LoweredOrderStaysPartial(count: nat, ws: seq<Write>, n: nat, es: seq<Execution>)
    requires NoReserve(ws) && n < count && Run(Entered(count), ws).status.Open? && Run(Entered(count), ws).filled == 0
    requires 0 < Quantity(es) <= n
    ensures var r := Run(Entered(count), ws);
            && Stored(r, AmendTo(n)) == r && r.count >= count > n
            && FillEach(r, es).filled == Quantity(es) < FillEach(r, es).count && FillEach(r, es).status.Partial?
  {
    var r := Run(Entered(count), ws);
    CountNeverFalls(count, ws);
    AmendAcceptedIff(r, n);
    PartlyFilled(r, es);
  }

  lemma {:induction false} PartlyFilled(r: Row, es: seq<Execution>)
    requires r.filled == 0 && r.status.Open? && Quantity(es) < r.count
    ensures var s := FillEach(r, es);
            s.filled == Quantity(es) && s.count == r.count && s.status == if Quantity(es) > 0 then Partial else Open
  {
    if es != [] { PartlyFilled(r, es[..|es| - 1]); }
  }

  // ---------------------------------------------------------------- status

  /**
    The response decides the status from its own fills alone. It agrees with the counters unless
    other fills, committed before it, complete the order.
   */
  lemma ResponseStatusAgreesIff(r: Row, es: seq<Execution>, asked: Request)
    requires Lifecycle(r) && r.count == asked.count > 0
    ensures var s := Written(r, Response(es, asked));
            (s.status.Filled? <==> s.filled == s.count) <==> !(Quantity(es) < asked.count <= r.filled + Quantity(es))
  {
    LateFills(r, es);
  }

  /**
    The rest of an order is hit after it traded `es` but before that response is
    stored: it ends up filled and marked partial.
   */
  lemma LateResponseReopensFilled(asked: Request, es: seq<Execution>, rest: Execution)
    requires !asked.ioc && 0 < Quantity(es) && 0 < rest.count && Quantity(es) + rest.count == asked.count
    ensures var s := Written(Fill(Inserted(asked.count), rest), Response(es, asked));
            s.filled == s.count && s.status.Partial?
  {
    LateFill(Inserted(asked.count), rest);
    LateFills(Fill(Inserted(asked.count), rest), es);
  }

  // ---------------------------------------------------------------- average price

  /** What the fills of a row are worth at their own prices, as far as they were applied. */
  function Worth(r: Row, es: seq<Execution>): int {
    if es == [] then 0
    else
      var before := FillEach(r, es[..|es| - 1]);
      Worth(r, es[..|es| - 1]) + (Fill(before, es[|es| - 1]).filled - before.filled) * es[|es| - 1].price
  }

  lemma LessByFactor(a: int, b: int, d: int)
    requires d > 0 && a * d < b * d
    ensures a < b
  {
  }

  lemma FloorBetween(num: int, den: int, lo: int, hi: int)
    requires den > 0 && lo * den <= num <= hi * den
    ensures lo <= num / den <= hi
  {
    var q := num / den;
    assert num == q * den + num % den;
    assert (q + 1) * den == q * den + den && (hi + 1) * den == hi * den + den;
    LessByFactor(lo, q + 1, den);
    LessByFactor(q, hi + 1, den);
  }

  lemma Weighted(a: int, f: int, n: int, p: int, lo: int, hi: int)
    requires f >= 0 && n >= 0 && lo <= p <= hi && (f > 0 ==> lo <= a <= hi)
    ensures lo * (f + n) <= a * f + n * p <= hi * (f + n)
  {
    assert lo * f <= a * f <= hi * f;
    assert lo * n <= n * p <= hi * n;
  }

  lemma AverageWithin(average: int, filled: int, applied: int, price: int, lo: nat, hi: nat)
    requires filled >= 0 && applied >= 0 && filled + applied > 0 && lo <= price <= hi
             && (filled > 0 ==> lo <= average <= hi)
    ensures lo <= NewAverage(average, filled, applied, price) <= hi
  {
    Weighted(average, filled, applied, price, lo, hi);
    FloorBetween(average * filled + applied * price, filled + applied, lo, hi);
    assert lo * (filled + applied) >= 0;
  }

  lemma FloorLoses(num: int, den: int)
    requires den > 0 && num >= 0
    ensures TruncDiv(num, den) >= 0 && 0 <= num - TruncDiv(num, den) * den < den
  {
    assert num == num / den * den + num % den;
  }

  lemma AverageLoses(average: int, filled: int, applied: int, price: int)
    requires average >= 0 && filled >= 0 && applied >= 0 && price >= 0
    ensures var a := NewAverage(average, filled, applied, price);
            a >= 0 && 0 <= average * filled + applied * price - a * (filled + applied) <= filled + applied
  {
    assert average * filled >= 0 && applied * price >= 0;
    if filled + applied > 0 { FloorLoses(average * filled + applied * price, filled + applied); }
  }

  lemma LossesAdd(worth: int, a: int, f: int, n: int, p: int, a2: int, k: int)
    requires 0 <= worth - a * f <= k * f && 0 <= a * f + n * p - a2 * (f + n) <= f + n && n >= 0 && k >= 0
    ensures 0 <= worth + n * p - a2 * (f + n) <= (k + 1) * (f + n)
  {
    assert (k + 1) * (f + n) == k * f + k * n + (f + n);
    assert k * n >= 0;
  }

  lemma AverageStep(r: Row, e: Execution, lo: nat, hi: nat)
    requires r.filled >= 0 && lo <= e.price <= hi && (r.filled > 0 ==> lo <= r.average <= hi)
    ensures var s := Fill(r, e); s.filled >= 0 && (s.filled > 0 ==> lo <= s.average <= hi)
  {
    var applied := Min(Max(r.count - r.filled, 0), e.count);
    if r.filled + applied > 0 { AverageWithin(r.average, r.filled, applied, e.price, lo, hi); }
  }

  predicate PricesWithin(es: seq<Execution>, lo: nat, hi: nat) { forall k :: 0 <= k < |es| ==> lo <= es[k].price <= hi }

  lemma {:induction false} FillsBetween(r: Row, es: seq<Execution>, lo: nat, hi: nat)
    requires r.filled >= 0 && PricesWithin(es, lo, hi) && (r.filled > 0 ==> lo <= r.average <= hi)
    ensures var s := FillEach(r, es); s.filled >= 0 && (s.filled > 0 ==> lo <= s.average <= hi)
  {
    if es != [] {
      FillsBetween(r, es[..|es| - 1], lo, hi);
      AverageStep(FillEach(r, es[..|es| - 1]), es[|es| - 1], lo, hi);
    }
  }

  lemma {:induction false} NotionalBetween(es: seq<Execution>, lo: nat, hi: nat)
    requires PricesWithin(es, lo, hi)
    ensures lo * Quantity(es) <= Notional(es) <= hi * Quantity(es)
  {
    if es != [] {
      NotionalBetween(es[..|es| - 1], lo, hi);
      OneMoreBetween(Quantity(es[..|es| - 1]), Notional(es[..|es| - 1]), es[|es| - 1].count, es[|es| - 1].price, lo,
                     hi);
    }
  }

  lemma OneMoreBetween(quantity: int, notional: int, n: nat, p: int, lo: int, hi: int)
    requires lo * quantity <= notional <= hi * quantity && lo <= p <= hi
    ensures lo * (quantity + n) <= notional + n * p <= hi * (quantity + n)
  {
    assert lo * n <= n * p <= hi * n;
    assert lo * (quantity + n) == lo * quantity + lo * n && hi * (quantity + n) == hi * quantity + hi * n;
  }

  lemma ResponseBetween(r: Row, es: seq<Execution>, asked: Request, lo: nat, hi: nat)
    requires r.filled >= 0 && PricesWithin(es, lo, hi) && (r.filled > 0 ==> lo <= r.average <= hi)
    ensures var s := Written(r, Response(es, asked)); s.filled >= 0 && (s.filled > 0 ==> lo <= s.average <= hi)
  {
    FillsBetween(r, es, lo, hi);
    NotionalBetween(es, lo, hi);
    if Quantity(es) > 0 { FloorBetween(Notional(es), Quantity(es), lo, hi); }
  }

  /** Every fill of the run, the response's included, is at a price between `lo` and `hi`. */
  predicate RunPricesWithin(ws: seq<Write>, lo: nat, hi: nat) {
    forall k :: 0 <= k < |ws| ==> WritePricesWithin(ws[k], lo, hi)
  }

  predicate WritePricesWithin(w: Write, lo: nat, hi: nat) {
    match w
    case Hit(e) => lo <= e.price <= hi
    case Response(es, _) => PricesWithin(es, lo, hi)
    case _ => true
  }

  /** In every reachable state, the average price is between the lowest and the highest fill price. */
  lemma {:induction false} AverageBetween(count: nat, ws: seq<Write>, lo: nat, hi: nat)
    requires RunPricesWithin(ws, lo, hi)
    ensures var s := Run(Inserted(count), ws);
            s.filled >= 0 && (s.filled > 0 ==> lo <= s.average <= hi)
  {
    if ws != [] {
      var r, w := Run(Inserted(count), ws[..|ws| - 1]), ws[|ws| - 1];
      AverageBetween(count, ws[..|ws| - 1], lo, hi);
      match w
      case Hit(e) => AverageStep(r, e, lo, hi);
      case Response(es, asked) => ResponseBetween(r, es, asked, lo, hi);
      case _ =>
    }
  }

  // ---------------------------------------------------------------- drift of the average

  /** The average never overstates what was paid, and understates it by at most a tick for each of `fills` fills. */
  predicate Faithful(r: Row, worth: int, fills: int) {
    r.average >= 0 && r.filled >= 0 && 0 <= worth - r.average * r.filled <= fills * r.filled
  }

  lemma DriftStep(r: Row, e: Execution, worth: int, k: nat)
    requires Faithful(r, worth, k)
    ensures Faithful(Fill(r, e), worth + (Fill(r, e).filled - r.filled) * e.price, k + 1)
  {
    var applied := Min(Max(r.count - r.filled, 0), e.count);
    AverageLoses(r.average, r.filled, applied, e.price);
    LossesAdd(worth, r.average, r.filled, applied, e.price, NewAverage(r.average, r.filled, applied, e.price), k);
  }

  lemma {:induction false} FillsDrift(r: Row, es: seq<Execution>, worth: int, k: nat)
    requires Faithful(r, worth, k)
    ensures Faithful(FillEach(r, es), worth + Worth(r, es), k + |es|)
  {
    if es != [] {
      FillsDrift(r, es[..|es| - 1], worth, k);
      DriftStep(FillEach(r, es[..|es| - 1]), es[|es| - 1], worth + Worth(r, es[..|es| - 1]), k + |es| - 1);
    }
  }

  /** Fills that fit the order are applied whole. */
  lemma {:induction false} FillsApplied(r: Row, es: seq<Execution>)
    requires 0 <= r.filled && r.filled + Quantity(es) <= r.count
    ensures FillEach(r, es).filled == r.filled + Quantity(es) && FillEach(r, es).count == r.count
            && Worth(r, es) == Notional(es)
  {
    if es != [] { FillsApplied(r, es[..|es| - 1]); }
  }

  lemma ChargedToAll(worth: int, average: int, before: int, notional: nat, quantity: nat, after: int)
    requires quantity > 0 && after == notional / quantity
    ensures worth + notional - after * (before + quantity) == (worth - after * before) + notional % quantity
  {
    assert notional == after * quantity + notional % quantity;
    assert after * (before + quantity) == after * before + after * quantity;
  }

  /** The response puts the average of its own fills on every fill the row had before. */
  lemma ResponseDrift(r: Row, es: seq<Execution>, asked: Request, worth: int)
    requires 0 <= r.filled && 0 < Quantity(es) && r.filled + Quantity(es) <= r.count
    ensures var s := Written(r, Response(es, asked));
            && s.average == Notional(es) / Quantity(es) && s.filled == r.filled + Quantity(es)
            && Worth(r, es) == Notional(es)
            && worth + Worth(r, es) - s.average * s.filled
               == (worth - s.average * r.filled) + Notional(es) % Quantity(es)
  {
    ResponseRow(r, es, asked);
    ChargedToAll(worth, r.average, r.filled, Notional(es), Quantity(es), Notional(es) / Quantity(es));
  }

  lemma {:induction false} SomeFill(es: seq<Execution>)
    requires Quantity(es) > 0
    ensures |es| >= 1
  {
  }

  lemma WholeFaithful(s: Row, notional: nat, quantity: nat, fills: nat)
    requires quantity > 0 && fills >= 1 && s.average == notional / quantity && s.filled == quantity
    ensures Faithful(s, notional, fills)
  {
    assert notional == notional / quantity * quantity + notional % quantity;
    assert fills * quantity >= quantity;
  }

  lemma NothingPaid(r: Row, worth: int, k: nat)
    requires Faithful(r, worth, k) && r.filled == 0
    ensures worth == 0
  {
  }

  lemma ResponseRow(r: Row, es: seq<Execution>, asked: Request)
    requires 0 <= r.filled && 0 < Quantity(es) && r.filled + Quantity(es) <= r.count
    ensures var s := Written(r, Response(es, asked));
            s.average == Notional(es) / Quantity(es) && s.filled == r.filled + Quantity(es)
                && Worth(r, es) == Notional(es)
  {
    FillsApplied(r, es);
  }

  lemma FirstResponseFaithful(r: Row, es: seq<Execution>, asked: Request, worth: int, k: nat)
    requires Faithful(r, worth, k) && r.filled == 0 && 0 < Quantity(es) <= r.count
    ensures Faithful(Written(r, Response(es, asked)), worth + Worth(r, es), k + |es|)
  {
    NothingPaid(r, worth, k);
    ResponseRow(r, es, asked);
    SomeFill(es);
    WholeFaithful(Written(r, Response(es, asked)), Notional(es), Quantity(es), k + |es|);
  }

  predicate ResponseFaithful(r: Row, worth: int, k: nat, es: seq<Execution>, asked: Request) {
    Faithful(Written(r, Response(es, asked)), worth + Worth(r, es), k + |es|)
  }

  /**
    A row with room keeps a faithful average under every response that fits it if
    and only if no fill was stored before.
   */
  lemma ResponseKeepsAverageIff(r: Row, worth: int, k: nat)
    requires Faithful(r, worth, k) && r.filled < r.count
    ensures (forall es, asked :: 0 < Quantity(es) && r.filled + Quantity(es) <= r.count ==>
                                 ResponseFaithful(r, worth, k, es, asked))
            <==> r.filled == 0
  {
    if r.filled == 0 {
      forall es, asked | 0 < Quantity(es) && r.filled + Quantity(es) <= r.count
          ensures ResponseFaithful(r, worth, k, es, asked) {
        FirstResponseFaithful(r, es, asked, worth, k);
      }
    } else {
      assert worth >= 0 by { assert r.average * r.filled >= 0; }
      var es, asked := [Execution(1, worth + 1)], Request(1, false);
      OneExecution(es[0]);
      ResponseDrift(r, es, asked, worth);
      assert (worth + 1) * r.filled >= worth + 1;
      assert !ResponseFaithful(r, worth, k, es, asked);
    }
  }

  lemma OneExecution(e: Execution)
    ensures Quantity([e]) == e.count && Notional([e]) == e.count * e.price
  {
    assert [e][..0] == [];
  }

  /** What the fills of a write are worth, and how many there are. */
  function WriteWorth(r: Row, w: Write): int {
    match w
    case Hit(e) => (Fill(r, e).filled - r.filled) * e.price
    case Response(es, _) => Worth(r, es)
    case _ => 0
  }

  function WriteFills(w: Write): nat {
    match w
    case Hit(_) => 1
    case Response(es, _) => |es|
    case _ => 0
  }

  function RunWorth(r: Row, ws: seq<Write>): int {
    if ws == [] then 0 else RunWorth(r, ws[..|ws| - 1]) + WriteWorth(Run(r, ws[..|ws| - 1]), ws[|ws| - 1])
  }

  function RunFills(ws: seq<Write>): nat {
    if ws == [] then 0 else RunFills(ws[..|ws| - 1]) + WriteFills(ws[|ws| - 1])
  }

  /** Responses with fills are stored before any other fill, and fit the order. */
  predicate ResponsesFirst(r: Row, ws: seq<Write>) {
    forall k :: 0 <= k < |ws| && ws[k].Response? && Quantity(ws[k].es) > 0 ==>
                  Run(r, ws[..k]).filled == 0 && Quantity(ws[k].es) <= Run(r, ws[..k]).count
  }

  lemma WriteFaithful(r: Row, w: Write, worth: int, k: nat)
    requires Faithful(r, worth, k)
    requires w.Response? && Quantity(w.es) > 0 ==> r.filled == 0 && Quantity(w.es) <= r.count
    ensures Faithful(Written(r, w), worth + WriteWorth(r, w), k + WriteFills(w))
  {
    match w
    case Hit(e) => DriftStep(r, e, worth, k);
    case Response(es, asked) =>
      if Quantity(es) > 0 { FirstResponseFaithful(r, es, asked, worth, k); } else { FillsDrift(r, es, worth, k); }
    case _ =>
  }

  /** A refused write was no fill. */
  lemma StoredFaithful(count: nat, ws: seq<Write>, r: Row, w: Write, worth: int, k: nat)
    requires r == Run(Inserted(count), ws) && Faithful(r, worth, k)
    requires w.Response? && Quantity(w.es) > 0 ==> r.filled == 0 && Quantity(w.es) <= r.count
    ensures Faithful(Stored(r, w), worth + WriteWorth(r, w), k + WriteFills(w))
  {
    RunRefusesIff(count, ws, w);
    WriteFaithful(r, w, worth, k);
  }

  lemma OneMoreFaithful(ws: seq<Write>, r0: Row, s: Row, worth: int, fills: nat)
    requires ws != [] && s == Stored(Run(r0, ws[..|ws| - 1]), ws[|ws| - 1]) && Faithful(s, worth, fills)
    requires worth == RunWorth(r0, ws[..|ws| - 1]) + WriteWorth(Run(r0, ws[..|ws| - 1]), ws[|ws| - 1])
    requires fills == RunFills(ws[..|ws| - 1]) + WriteFills(ws[|ws| - 1])
    ensures Faithful(Run(r0, ws), RunWorth(r0, ws), RunFills(ws))
  {
    assert Run(r0, ws) == s && RunWorth(r0, ws) == worth && RunFills(ws) == fills;
  }

  lemma EarlierFirst(r: Row, ws: seq<Write>)
    requires ResponsesFirst(r, ws) && ws != []
    ensures var before, w := ws[..|ws| - 1], ws[|ws| - 1];
            && ResponsesFirst(r, before)
            && (w.Response? && Quantity(w.es) > 0 ==>
                Run(r, before).filled == 0 && Quantity(w.es) <= Run(r, before).count)
  {
    assert forall j :: 0 <= j < |ws| - 1 ==> ws[..|ws| - 1][..j] == ws[..j];
  }

  /** In every run that stores its response first, the average is faithful to the fills, to a tick a fill. */
  lemma {:induction false} AverageDrift(count: nat, ws: seq<Write>)
    requires ResponsesFirst(Inserted(count), ws)
    ensures Faithful(Run(Inserted(count), ws), RunWorth(Inserted(count), ws), RunFills(ws))
  {
    if ws != [] {
      var before, w := ws[..|ws| - 1], ws[|ws| - 1];
      var r, worth, fills := Run(Inserted(count), before), RunWorth(Inserted(count), before), RunFills(before);
      EarlierFirst(Inserted(count), ws);
      AverageDrift(count, before);
      StoredFaithful(count, before, r, w, worth, fills);
      OneMoreFaithful(ws, Inserted(count), Stored(r, w), worth + WriteWorth(r, w), fills + WriteFills(w));
    }
  }

  /**
    Otherwise it is not: the rest of an order is hit for `n` at `p` before its own
    `m` at `q` are stored, and all of it is carried at `q`.
   */
  lemma LateResponseMovesAverage(count: nat, n: nat, p: nat, m: nat, q: nat, asked: Request)
    requires n > 0 && m > 0 && n + m <= count
    ensures var ws := [Hit(Execution(n, p)), Response([Execution(m, q)], asked)];
            var s := Run(Inserted(count), ws);
            && s.filled == n + m && s.average == q && RunWorth(Inserted(count), ws) == n * p + m * q
            && RunWorth(Inserted(count), ws) - s.average * s.filled == n * (p - q)
  {
    var hit, response := Hit(Execution(n, p)), Response([Execution(m, q)], asked);
    var r := Fill(Inserted(count), Execution(n, p));
    WriteRefusedIff(Inserted(count), hit);
    WriteRefusedIff(r, response);
    TwoWrites(Inserted(count), hit, response);
    OneExecution(Execution(m, q));
    ResponseDrift(r, [Execution(m, q)], asked, n * p);
    Undone(m, q);
    assert n * p + m * q - q * (n + m) == n * (p - q);
  }

  lemma TwoWrites(r: Row, first: Write, second: Write)
    ensures Run(r, [first, second]) == Stored(Stored(r, first), second)
    ensures RunWorth(r, [first, second]) == WriteWorth(r, first) + WriteWorth(Stored(r, first), second)
  {
    assert [first, second][..1] == [first] && [first][..0] == [];
    assert Run(r, [first]) == Stored(r, first) && RunWorth(r, [first]) == WriteWorth(r, first);
  }

  lemma Undone(m: nat, q: nat)
    requires m > 0
    ensures m * q / m == q
  {
    FloorBetween(m * q, m, q, q);
  }

  // ---------------------------------------------------------------- the table

  lemma OneMore(r: Row, es: seq<Execution>, k: nat)
    requires k < |es|
    ensures FillEach(r, es[..k + 1]) == Fill(FillEach(r, es[..k]), es[k])
    ensures Quantity(es[..k + 1]) == Quantity(es[..k]) + es[k].count
    ensures Notional(es[..k + 1]) == Notional(es[..k]) + es[k].count * es[k].price
  {
    assert es[..k + 1][..k] == es[..k] && es[..k + 1][k] == es[k];
  }

  class OrderTable {
    var row: Row

    constructor (count: nat)
      ensures row == Inserted(count)
    {
      row := Inserted(count);
    }

    /** `update_order_fill` as one statement; it cannot fail. */
    method UpdateFill(e: Execution)
      requires Lifecycle(row)
      modifies this
      ensures row == Fill(old(row), e) && Lifecycle(row)
    {
      LateFill(row, e);
      var applied := Min(Max(row.count - row.filled, 0), e.count);
      var fromCancelled := Min(row.cancelled, applied);
      var fromExpired := Min(row.expired, Max(applied - fromCancelled, 0));
      var filled := row.filled + applied;
      var average := NewAverage(row.average, row.filled, applied, e.price);
      var status := if filled >= row.count then Filled else if filled > 0 then Partial else row.status;
      row := Row(row.count, row.reserved, filled, row.cancelled - fromCancelled, row.expired - fromExpired, average,
                 status);
    }

    /** The loop of `persist_fills` over the taker's own fills. */
    method FillAll(es: seq<Execution>) returns (quantity: nat, notional: nat)
      requires Lifecycle(row)
      modifies this
      ensures Lifecycle(row) && row == FillEach(old(row), es) && quantity == Quantity(es) && notional == Notional(es)
    {
      quantity, notional := 0, 0;
      for k := 0 to |es|
        invariant Lifecycle(row) && row == FillEach(old(row), es[..k])
        invariant quantity == Quantity(es[..k]) && notional == Notional(es[..k])
      {
        OneMore(old(row), es, k);
        UpdateFill(es[k]);
        quantity := quantity + es[k].count;
        notional := notional + es[k].count * es[k].price;
      }
      assert es[..|es|] == es;
    }

    /**
      `persist_fills` for the order of the response: its fills, then the write from their total, in one transaction.
     */
    method PersistFills(es: seq<Execution>, asked: Request) returns (ok: bool)
      requires Checks(row)
      modifies this
      ensures ok <==> Checks(Written(old(row), Response(es, asked)))
      ensures row == Stored(old(row), Response(es, asked))
    {
      var before := row;
      var quantity, notional := FillAll(es);
      var after := Close(row, asked, quantity, notional);
      ok := Checks(after);
      row := if ok then after else before;
    }

    /** The write behind an amendment the engine has taken; the engine keeps it even if this fails. */
    method AmendCount(count: nat) returns (ok: bool)
      requires Checks(row)
      modifies this
      ensures ok <==> Checks(Written(old(row), AmendTo(count)))
      ensures row == Stored(old(row), AmendTo(count))
    {
      ok := true;
      if row.status.Open? || row.status.Partial? {
        ok := row.filled + row.cancelled + row.expired <= count && row.reserved <= count;
        if ok {
          row := row.(count := count);
        }
      }
    }
  }

  /** The two forms of the write behind the loop, with and without fills of the order's own. */
  method Close(r: Row, asked: Request, quantity: nat, notional: nat) returns (after: Row)
    ensures after == Finish(r, asked, quantity, notional)
  {
    after := r;
    if quantity == 0 {
      after := after.(status := if asked.ioc then Cancelled else Open);
    } else {
      var status := if quantity >= asked.count then Filled else if asked.ioc then Cancelled else Partial;
      after := after.(average := notional / quantity, status := status);
    }
    if after.status.Cancelled? {
      after := after.(cancelled := Max(after.count - after.filled, 0));
    }
  }
}
