/**
  The escrow of an isolated contract: what its UNSETTLED_TRADES account holds after any sequence
  of fills, against the positions those fills leave.
 */
module Escrow {
  import opened Common
  import opened Portfolio
  import opened Ledger
  import opened LedgerRuns
  import opened Isolated

  /**
    An order as it was entered behind the first `placed` trades: `seen` is the effective position
    the pre-trade check read, which decides the split, and `hold` what was placed for it, if anything.
    `count` is what it was entered and split for, `amended` what it is worked for: the same, unless
    an amendment changed it before the first fill. An amendment leaves the split as it is.
   */
  datatype Order = Order(user: nat, side: Side, action: Action, count: int, amended: int, placed: nat, seen: int,
                         hold: Option<nat>) {
    function Closing(): int { ClosingCount(seen, SignedDelta(side, action, count), count) }

    function Opening(): int { count - Closing() }
  }

  /** One fill: the orders of its two parties, and which of them is the maker. */
  datatype Trade = Trade(fill: nat, buyer: nat, seller: nat, price: int, count: int, buyerIsMaker: bool)

  const UNSETTLED := House("LIAB:HOUSE:UNSETTLED_TRADES")

  /** Orders on the book's own side: a NO or SHORT order is entered as its complement. */
  predicate Normalised(orders: seq<Order>, t: Trade) {
    && t.buyer < |orders| && t.seller < |orders| && t.count > 0
    && (orders[t.buyer].side == Yes || orders[t.buyer].side == Long) && orders[t.buyer].action == Buy
    && (orders[t.seller].side == Yes || orders[t.seller].side == Long) && orders[t.seller].action == Sell
  }

  predicate AllNormalised(orders: seq<Order>, trades: seq<Trade>) {
    && (forall k :: 0 <= k < |trades| ==> Normalised(orders, trades[k]))
    && (forall o :: 0 <= o < |orders| ==> orders[o].count > 0)
  }

  /** The units of an order filled by the first `n` trades. */
  function Prior(trades: seq<Trade>, order: nat, n: nat): int
    requires n <= |trades|
  {
    if n == 0 then 0
    else Prior(trades, order, n - 1)
         + if trades[n - 1].buyer == order || trades[n - 1].seller == order then trades[n - 1].count else 0
  }

  function OpeningOf(orders: seq<Order>, trades: seq<Trade>, k: nat, order: nat): int
    requires k < |trades| && order < |orders|
  {
    OpeningFillCount(orders[order].Opening(), orders[order].Closing(), Prior(trades, order, k), trades[k].count)
  }

  // ---------------------------------------------------------------- one party, on the ledger

  /** The postings of one party: the opening part commits its hold, which it needs, and the closing part is credited. */
  function PartyOps(c: Contract, o: Order, fill: nat, maker: bool, price: int, count: int,
                    opening: int): Option<seq<Op>> {
    var commit := if opening > 0 then FillHoldAmount(c, o.side, o.action, price, opening) else Some(0);
    var credit := CloseCredit(c, o.side, o.action, price, count - opening);
    if commit.None? || credit.None? || (opening > 0 && o.hold.None?) then None
    else
      Some((if opening > 0 then [Commit(FillHoldKey(fill, maker), o.hold.value, commit.value, 0, UNSETTLED, [])]
            else [])
           + if credit.value > 0 then
               [Post(FillCloseKey(fill, maker),
                     [Entry(UNSETTLED, DR, credit.value), Entry(Cash(o.user), CR, credit.value)])]
             else [])
  }

  /** `post_fill`: maker first, then taker. */
  function TradeOps(c: Contract, orders: seq<Order>, trades: seq<Trade>, k: nat): Option<seq<Op>>
    requires k < |trades| && trades[k].buyer < |orders| && trades[k].seller < |orders|
  {
    var t := trades[k];
    var buyer := PartyOps(c, orders[t.buyer], t.fill, t.buyerIsMaker, t.price, t.count,
                          OpeningOf(orders, trades, k, t.buyer));
    var seller := PartyOps(c, orders[t.seller], t.fill, !t.buyerIsMaker, t.price, t.count,
                           OpeningOf(orders, trades, k, t.seller));
    if buyer.None? || seller.None? then None
    else Some(if t.buyerIsMaker then buyer.value + seller.value else seller.value + buyer.value)
  }

  /** What an operation adds to the escrow account when the ledger carries it out. */
  function EscrowOf(op: Op): int {
    match op
    case Commit(_, _, commit, _, _, _) => commit
    case Post(_, entries) => Delta(entries, UNSETTLED)
    case _ => 0
  }

  function EscrowSum(ops: seq<Op>): int {
    if ops == [] then 0 else EscrowSum(ops[..|ops| - 1]) + EscrowOf(ops[|ops| - 1])
  }

  lemma {:induction false} EscrowSumConcat(a: seq<Op>, b: seq<Op>)
    ensures EscrowSum(a + b) == EscrowSum(a) + EscrowSum(b)
  {
    if b == [] {
      assert a + b == a;
    } else {
      EscrowSumConcat(a, b[..|b| - 1]);
      assert (a + b)[..|a + b| - 1] == a + b[..|b| - 1];
    }
  }

  lemma OneEscrow(op: Op)
    ensures EscrowSum([op]) == EscrowOf(op)
  {
    assert [op][..0] == [];
  }

  lemma CreditEscrow(user: nat, amount: int)
    ensures Delta([Entry(UNSETTLED, DR, amount), Entry(Cash(user), CR, amount)], UNSETTLED) == -amount
  {
    PairBalanced(UNSETTLED, Cash(user), amount);
  }

  /** A party adds what its opening units commit and takes out what its closing units are credited. */
  lemma PartyEscrow(c: Contract, o: Order, fill: nat, maker: bool, price: int, count: int, opening: int)
    requires PartyOps(c, o, fill, maker, price, count, opening).Some?
    ensures EscrowSum(PartyOps(c, o, fill, maker, price, count, opening).value)
            == (if opening > 0 then FillHoldAmount(c, o.side, o.action, price, opening).value else 0)
               - Max(CloseCredit(c, o.side, o.action, price, count - opening).value, 0)
  {
    var commit := if opening > 0 then FillHoldAmount(c, o.side, o.action, price, opening).value else 0;
    var credit := CloseCredit(c, o.side, o.action, price, count - opening).value;
    TwoPostings(o, fill, maker, commit, credit, opening);
  }

  lemma TwoPostings(o: Order, fill: nat, maker: bool, commit: int, credit: int, opening: int)
    requires if opening > 0 then o.hold.Some? else commit == 0
    ensures var first := if opening > 0 then [Commit(FillHoldKey(fill, maker), o.hold.value, commit, 0, UNSETTLED, [])]
            else [];
            var second := if credit > 0 then
                            [Post(FillCloseKey(fill, maker),
                                  [Entry(UNSETTLED, DR, credit), Entry(Cash(o.user), CR, credit)])]
                          else [];
            EscrowSum(first + second) == commit - Max(credit, 0)
  {
    var first := if opening > 0 then [Commit(FillHoldKey(fill, maker), o.hold.value, commit, 0, UNSETTLED, [])] else [];
    var second := if credit > 0 then
                    [Post(FillCloseKey(fill, maker), [Entry(UNSETTLED, DR, credit), Entry(Cash(o.user), CR, credit)])]
                  else [];
    EscrowSumConcat(first, second);
    CreditEscrow(o.user, credit);
    if opening > 0 { OneEscrow(first[0]); }
    if credit > 0 { OneEscrow(second[0]); }
  }

  // ---------------------------------------------------------------- one fill

  /** What the splits make of the change of open interest: opening units less closing units. */
  function OpenedBy(orders: seq<Order>, trades: seq<Trade>, k: nat): int
    requires k < |trades| && trades[k].buyer < |orders| && trades[k].seller < |orders|
  {
    OpeningOf(orders, trades, k, trades[k].buyer) + OpeningOf(orders, trades, k, trades[k].seller) - trades[k].count
  }

  /** How far a binary band is from symmetric; a futures band has nothing to be off by. */
  function Skew(c: Contract): int {
    if c.kind == Binary then (c.maxPrice + c.minPrice - c.Payout()) * MICRO_PER_TICK else 0
  }

  /** The arithmetic of a binary fill: `b` and `s` units opened by buyer and seller. */
  lemma BinaryFill(payout: int, top: int, price: int, n: int, b: int, s: int, m: int)
    ensures price * b * m - (payout - price) * (n - b) * m + (top - price) * s * m - price * (n - s) * m
            == payout * m * (b + s - n) + (top - payout) * m * s
  {
    var q := payout - price;
    calc {
      price * b * m - q * (n - b) * m + (top - price) * s * m - price * (n - s) * m;
      { assert (top - price) * s == q * s + (top - payout) * s; Spread3(q * s, (top - payout) * s, m); }
      price * b * m - q * (n - b) * m + q * s * m + (top - payout) * s * m - price * (n - s) * m;
      { assert price * b == price * n - price * (n - b); Spread3(price * n, -(price * (n - b)), m); }
      price * n * m - price * (n - b) * m - q * (n - b) * m + q * s * m + (top - payout) * s * m - price * (n - s) * m;
    }
    BinaryParts(payout, price, n, b, s, m);
    assert (top - payout) * s * m == (top - payout) * m * s;
  }

  lemma Spread3(a: int, b: int, m: int)
    ensures (a + b) * m == a * m + b * m
  {
  }

  lemma BinaryParts(payout: int, price: int, n: int, b: int, s: int, m: int)
    ensures var q := payout - price;
            price * n * m - price * (n - b) * m - q * (n - b) * m + q * s * m - price * (n - s) * m
                == payout * m * (b + s - n)
  {
    var q := payout - price;
    assert price * (n - s) == price * n - price * s;
    Spread3(price * n, -(price * s), m);
    assert q * s + price * s == payout * s;
    Spread3(q * s, price * s, m);
    assert q * (n - b) + price * (n - b) == payout * (n - b);
    Spread3(q * (n - b), price * (n - b), m);
    assert payout * m * (b + s - n) == payout * s * m - payout * (n - b) * m by {
      assert payout * s - payout * (n - b) == payout * (b + s - n);
      Spread3(payout * s, -(payout * (n - b)), m);
      assert payout * (b + s - n) * m == payout * m * (b + s - n);
    }
  }

  /** One party's escrow: `risk` per opening unit in, `value` per closing unit out. */
  lemma PartyAmounts(c: Contract, o: Order, fill: nat, maker: bool, price: int, count: int, opening: int, risk: int,
                     value: int, m: int)
    requires PartyOps(c, o, fill, maker, price, count, opening).Some? && 0 <= opening <= count
    requires opening > 0 ==> FillHoldAmount(c, o.side, o.action, price, opening) == Some(risk * opening * m)
    requires count > opening ==> CloseCredit(c, o.side, o.action, price, count - opening)
                                 == Some(value * (count - opening) * m)
    requires value * (count - opening) * m >= 0
    ensures EscrowSum(PartyOps(c, o, fill, maker, price, count, opening).value)
            == risk * opening * m - value * (count - opening) * m
  {
    PartyEscrow(c, o, fill, maker, price, count, opening);
  }

  lemma NonNegativeProduct(a: int, b: int, d: int)
    requires a >= 0 && b >= 0 && d >= 0
    ensures a * b * d >= 0
  {
    assert a * b >= 0;
  }

  /** The ticks one opening unit puts in and one closing unit takes out, and what a tick is worth. */
  function RiskOf(c: Contract, action: Action, price: int): int {
    if c.kind == Binary then RiskTicks(c, action, price) else if action == Buy then price - c.lower else c.upper - price
  }

  function ValueOf(c: Contract, action: Action, price: int): int {
    if c.kind == Binary then if action == Sell then price else c.Payout() - price
    else if action == Sell then price - c.lower else c.upper - price
  }

  function TickOf(c: Contract): int { if c.kind == Binary then MICRO_PER_TICK else c.tickValue }

  /** A normalised order commits its risk and is credited its value. */
  lemma OrderAmounts(c: Contract, o: Order, price: int, opening: int, closing: int)
    requires (o.side == Yes || o.side == Long) && (o.action == Buy || o.action == Sell) && c.kind != OtherKind
    ensures opening > 0 && FillHoldAmount(c, o.side, o.action, price, opening).Some? ==>
              FillHoldAmount(c, o.side, o.action, price, opening).value
                  == RiskOf(c, o.action, price) * opening * TickOf(c)
    ensures closing > 0 && CloseCredit(c, o.side, o.action, price, closing).Some? ==>
              && ValueOf(c, o.action, price) >= 0 && TickOf(c) > 0
              && CloseCredit(c, o.side, o.action, price, closing).value
                 == ValueOf(c, o.action, price) * closing * TickOf(c)
  {
  }

  lemma OrderEscrow(c: Contract, o: Order, fill: nat, maker: bool, price: int, count: int, opening: int)
    requires PartyOps(c, o, fill, maker, price, count, opening).Some? && 0 <= opening <= count
    requires (o.side == Yes || o.side == Long) && (o.action == Buy || o.action == Sell) && c.kind != OtherKind
    ensures EscrowSum(PartyOps(c, o, fill, maker, price, count, opening).value)
            == RiskOf(c, o.action, price) * opening * TickOf(c)
               - ValueOf(c, o.action, price) * (count - opening) * TickOf(c)
  {
    var risk, value, m := RiskOf(c, o.action, price), ValueOf(c, o.action, price), TickOf(c);
    OrderAmounts(c, o, price, opening, count - opening);
    if count > opening { NonNegativeProduct(value, count - opening, m); }
    PartyAmounts(c, o, fill, maker, price, count, opening, risk, value, m);
  }

  /** What the two parties put in and take out. */
  lemma FillArithmetic(c: Contract, price: int, n: int, b: int, s: int)
    requires c.kind != OtherKind
    ensures var m := TickOf(c);
            RiskOf(c, Buy, price) * b * m - ValueOf(c, Buy, price) * (n - b) * m
            + (RiskOf(c, Sell, price) * s * m - ValueOf(c, Sell, price) * (n - s) * m)
            == c.UnitMicro() * (b + s - n) + Skew(c) * s
  {
    if c.kind == Binary {
      BinaryFill(c.Payout(), c.maxPrice + c.minPrice, price, n, b, s, MICRO_PER_TICK);
    } else {
      BinaryFill(c.upper - c.lower, c.upper - c.lower, price - c.lower, n, b, s, c.tickValue);
    }
  }

  lemma TwoOrders(c: Contract, buyer: Order, seller: Order, fill: nat, maker: bool, price: int, n: int, b: int, s: int)
    requires c.kind != OtherKind && 0 <= b <= n && 0 <= s <= n
    requires (buyer.side == Yes || buyer.side == Long) && buyer.action == Buy
    requires (seller.side == Yes || seller.side == Long) && seller.action == Sell
    requires PartyOps(c, buyer, fill, maker, price, n, b).Some? && PartyOps(c, seller, fill, !maker, price, n, s).Some?
    ensures EscrowSum(PartyOps(c, buyer, fill, maker, price, n, b).value)
            + EscrowSum(PartyOps(c, seller, fill, !maker, price, n, s).value)
            == c.UnitMicro() * (b + s - n) + Skew(c) * s
  {
    OrderEscrow(c, buyer, fill, maker, price, n, b);
    OrderEscrow(c, seller, fill, !maker, price, n, s);
    FillArithmetic(c, price, n, b, s);
  }

  /** Whether an amount is `unit` per unit of interest plus `skew` per short opened. */
  predicate IsWorth(amount: int, unit: int, interest: int, skew: int, shorts: int) {
    amount == unit * interest + skew * shorts
  }

  /** A posting worth the `n`-th trade's interest. */
  predicate WorthTrade(orders: seq<Order>, trades: seq<Trade>, n: nat, amount: int, unit: int, skew: int)
    requires n < |trades| && AllNormalised(orders, trades) && Normalised(orders, trades[n])
  {
    IsWorth(amount, unit, OpenedBy(orders, trades, n), skew, OpeningOf(orders, trades, n, trades[n].seller))
  }

  /** Two postings, in whichever order the maker comes. */
  lemma EitherOrder(first: seq<Op>, second: seq<Op>, maker: bool)
    ensures EscrowSum(if maker then first + second else second + first) == EscrowSum(first) + EscrowSum(second)
  {
    EscrowSumConcat(first, second);
    EscrowSumConcat(second, first);
  }

  /** The fill's postings, whatever it opens and closes, follow the splits at the full payout. */
  lemma SplitEscrow(c: Contract, orders: seq<Order>, trades: seq<Trade>, k: nat)
    requires AllNormalised(orders, trades) && k < |trades| && c.kind != OtherKind
    requires Normalised(orders, trades[k]) && TradeOps(c, orders, trades, k).Some?
    ensures WorthTrade(orders, trades, k, EscrowSum(TradeOps(c, orders, trades, k).value), c.UnitMicro(), Skew(c))
  {
    var t := trades[k];
    var b, s := OpeningOf(orders, trades, k, t.buyer), OpeningOf(orders, trades, k, t.seller);
    OpeningWithin(orders, trades, k, t.buyer);
    OpeningWithin(orders, trades, k, t.seller);
    EitherOrder(PartyOps(c, orders[t.buyer], t.fill, t.buyerIsMaker, t.price, t.count, b).value,
                PartyOps(c, orders[t.seller], t.fill, !t.buyerIsMaker, t.price, t.count, s).value, t.buyerIsMaker);
    TwoOrders(c, orders[t.buyer], orders[t.seller], t.fill, t.buyerIsMaker, t.price, t.count, b, s);
  }

  lemma OpeningWithin(orders: seq<Order>, trades: seq<Trade>, k: nat, order: nat)
    requires k < |trades| && order < |orders| && orders[order].count > 0 && trades[k].count > 0
    ensures 0 <= OpeningOf(orders, trades, k, order) <= trades[k].count
  {
    OpeningStep(orders[order].Opening(), orders[order].Closing(), Prior(trades, order, k), trades[k].count);
  }

  // ---------------------------------------------------------------- every run

  /** Open units by the splits after the first `n` trades. */
  function SplitInterest(orders: seq<Order>, trades: seq<Trade>, n: nat): int
    requires n <= |trades| && AllNormalised(orders, trades)
  {
    if n == 0 then 0 else SplitInterest(orders, trades, n - 1) + OpenedBy(orders, trades, n - 1)
  }

  /** The units that sellers have ever opened. */
  function ShortsOpened(orders: seq<Order>, trades: seq<Trade>, n: nat): int
    requires n <= |trades| && AllNormalised(orders, trades)
  {
    if n == 0 then 0 else ShortsOpened(orders, trades, n - 1) + OpeningOf(orders, trades, n - 1, trades[n - 1].seller)
  }

  /** Every trade's postings can be made out: no opening at the edge of a band, none without a hold. */
  predicate Postable(c: Contract, orders: seq<Order>, trades: seq<Trade>)
    requires AllNormalised(orders, trades)
  {
    forall k :: 0 <= k < |trades| ==> Normalised(orders, trades[k]) && TradeOps(c, orders, trades, k).Some?
  }

  function Postings(c: Contract, orders: seq<Order>, trades: seq<Trade>): (p: seq<seq<Op>>)
    requires AllNormalised(orders, trades) && Postable(c, orders, trades)
    ensures |p| == |trades|
  {
    seq(|trades|, k requires 0 <= k < |trades| && Normalised(orders, trades[k])
        && TradeOps(c, orders, trades, k).Some? =>
      TradeOps(c, orders, trades, k).value)
  }

  function Flatten(postings: seq<seq<Op>>): seq<Op> {
    if postings == [] then [] else Flatten(postings[..|postings| - 1]) + postings[|postings| - 1]
  }

  function EscrowTotal(postings: seq<seq<Op>>): int {
    if postings == [] then 0 else EscrowTotal(postings[..|postings| - 1]) + EscrowSum(postings[|postings| - 1])
  }

  lemma {:induction false} FlattenTotal(postings: seq<seq<Op>>)
    ensures EscrowSum(Flatten(postings)) == EscrowTotal(postings)
  {
    if postings != [] {
      FlattenTotal(postings[..|postings| - 1]);
      EscrowSumConcat(Flatten(postings[..|postings| - 1]), postings[|postings| - 1]);
    }
  }

  lemma WorthAdds(a: int, b: int, unit: int, long: int, more: int, skew: int, shorts: int, s: int)
    requires IsWorth(a, unit, long, skew, shorts) && IsWorth(b, unit, more, skew, s)
    ensures IsWorth(a + b, unit, long + more, skew, shorts + s)
  {
  }

  lemma NoWorth(unit: int, skew: int)
    ensures IsWorth(0, unit, 0, skew, 0)
  {
  }

  lemma OneMoreTrade(orders: seq<Order>, trades: seq<Trade>, n: nat, total: int, amount: int, unit: int, skew: int)
    requires n < |trades| && AllNormalised(orders, trades) && Normalised(orders, trades[n])
    requires IsWorth(total, unit, SplitInterest(orders, trades, n), skew, ShortsOpened(orders, trades, n))
    requires WorthTrade(orders, trades, n, amount, unit, skew)
    ensures IsWorth(total + amount, unit, SplitInterest(orders, trades, n + 1), skew,
                    ShortsOpened(orders, trades, n + 1))
  {
    WorthAdds(total, amount, unit, SplitInterest(orders, trades, n), OpenedBy(orders, trades, n),
              skew, ShortsOpened(orders, trades, n), OpeningOf(orders, trades, n, trades[n].seller));
  }

  /** Postings worth their interest one by one are worth it in total. */
  lemma {:induction false} EscrowFollowsInterest(orders: seq<Order>, trades: seq<Trade>, postings: seq<seq<Op>>,
                                                 unit: int, skew: int)
    requires |postings| <= |trades| && AllNormalised(orders, trades)
    requires forall k :: 0 <= k < |trades| ==> Normalised(orders, trades[k])
    requires forall k :: 0 <= k < |postings| ==> WorthTrade(orders, trades, k, EscrowSum(postings[k]), unit, skew)
    ensures IsWorth(EscrowTotal(postings), unit, SplitInterest(orders, trades, |postings|), skew,
                    ShortsOpened(orders, trades, |postings|))
  {
    if postings == [] {
      NoWorth(unit, skew);
    } else {
      var n := |postings| - 1;
      EscrowFollowsInterest(orders, trades, postings[..n], unit, skew);
      OneMoreTrade(orders, trades, n, EscrowTotal(postings[..n]), EscrowSum(postings[n]), unit, skew);
    }
  }

  // ---------------------------------------------------------------- on the ledger

  /** The ledger takes every operation, each under a key it has not seen. */
  predicate AllNew(s: State, ops: seq<Op>) {
    ops == [] || (AllNew(s, ops[..|ops| - 1])
                  && Accepted(Run(s, ops[..|ops| - 1]), ops[|ops| - 1])
                  && !Recognised(Run(s, ops[..|ops| - 1]), ops[|ops| - 1]))
  }

  /** The two kinds of postings a fill makes. */
  predicate FillOp(op: Op) {
    (op.Post? || (op.Commit? && op.commit > 0 && op.release == 0 && op.destination == UNSETTLED && op.extra == []))
  }

  lemma OpMovesEscrow(s: State, op: Op)
    requires Sound(s) && FillOp(op) && Accepted(s, op) && !Recognised(s, op)
    ensures Balance(Step(s, op).rows, UNSETTLED) == Balance(s.rows, UNSETTLED) + EscrowOf(op)
  {
    AcceptedMovesMoneyUnlessRecognised(s, op);
    match op {
      case Post(key, entries) => PostSound(s, key, entries);
      case Commit(key, hold, commit, release, destination, extra) =>
        CommitSound(s, key, hold, commit, release, destination, extra);
        var user := s.holds[hold].user;
        PairBalanced(Holds(user), UNSETTLED, commit);
        assert CommitEntries(user, commit, 0, UNSETTLED, [])
               == [Entry(Holds(user), DR, commit), Entry(UNSETTLED, CR, commit)];
    }
  }

  lemma {:induction false} OpsMoveEscrow(s: State, ops: seq<Op>)
    requires Sound(s) && AllNew(s, ops) && AllFillOps(ops)
    ensures Balance(Run(s, ops).rows, UNSETTLED) == Balance(s.rows, UNSETTLED) + EscrowSum(ops)
  {
    if ops != [] {
      var n := |ops| - 1;
      OpsMoveEscrow(s, ops[..n]);
      RunSound(s, ops[..n]);
      OpMovesEscrow(Run(s, ops[..n]), ops[n]);
    }
  }

  predicate AllFillOps(ops: seq<Op>) { forall i :: 0 <= i < |ops| ==> FillOp(ops[i]) }

  lemma PartyFillOps(c: Contract, o: Order, fill: nat, maker: bool, price: int, count: int, opening: int)
    requires PartyOps(c, o, fill, maker, price, count, opening).Some?
    ensures AllFillOps(PartyOps(c, o, fill, maker, price, count, opening).value)
  {
  }

  lemma FillOpsConcat(a: seq<Op>, b: seq<Op>)
    requires AllFillOps(a) && AllFillOps(b)
    ensures AllFillOps(a + b)
  {
  }

  lemma TradeFillOps(c: Contract, orders: seq<Order>, trades: seq<Trade>, k: nat)
    requires k < |trades| && trades[k].buyer < |orders| && trades[k].seller < |orders|
             && TradeOps(c, orders, trades, k).Some?
    ensures AllFillOps(TradeOps(c, orders, trades, k).value)
  {
    var t := trades[k];
    var b, s := OpeningOf(orders, trades, k, t.buyer), OpeningOf(orders, trades, k, t.seller);
    PartyFillOps(c, orders[t.buyer], t.fill, t.buyerIsMaker, t.price, t.count, b);
    PartyFillOps(c, orders[t.seller], t.fill, !t.buyerIsMaker, t.price, t.count, s);
    var first := PartyOps(c, orders[t.buyer], t.fill, t.buyerIsMaker, t.price, t.count, b).value;
    var second := PartyOps(c, orders[t.seller], t.fill, !t.buyerIsMaker, t.price, t.count, s).value;
    FillOpsConcat(first, second);
    FillOpsConcat(second, first);
  }

  lemma {:induction false} FlattenFillOps(postings: seq<seq<Op>>)
    requires forall k :: 0 <= k < |postings| ==> AllFillOps(postings[k])
    ensures AllFillOps(Flatten(postings))
  {
    if postings != [] {
      FlattenFillOps(postings[..|postings| - 1]);
      FillOpsConcat(Flatten(postings[..|postings| - 1]), postings[|postings| - 1]);
    }
  }

  /** Whatever the fills open and close, the ledger's escrow follows the splits. */
  lemma EscrowFollowsSplits(c: Contract, orders: seq<Order>, trades: seq<Trade>, s: State)
    requires AllNormalised(orders, trades) && c.kind != OtherKind && Postable(c, orders, trades)
    requires Sound(s) && AllNew(s, Flatten(Postings(c, orders, trades)))
    ensures var grown := Balance(Run(s, Flatten(Postings(c, orders, trades))).rows, UNSETTLED)
                         - Balance(s.rows, UNSETTLED);
            && grown == EscrowTotal(Postings(c, orders, trades))
            && IsWorth(grown, c.UnitMicro(), SplitInterest(orders, trades, |trades|), Skew(c),
                       ShortsOpened(orders, trades, |trades|))
  {
    var postings := Postings(c, orders, trades);
    forall k: nat | k < |trades|
      ensures WorthTrade(orders, trades, k, EscrowSum(postings[k]), c.UnitMicro(), Skew(c))
      ensures AllFillOps(postings[k])
    {
      SplitEscrow(c, orders, trades, k);
      TradeFillOps(c, orders, trades, k);
    }
    EscrowFollowsInterest(orders, trades, postings, c.UnitMicro(), Skew(c));
    FlattenTotal(postings);
    FlattenFillOps(postings);
    OpsMoveEscrow(s, Flatten(postings));
  }

  // ---------------------------------------------------------------- positions

  /** Units the user has bought and sold in the first `n` trades. */
  function Bought(orders: seq<Order>, trades: seq<Trade>, user: nat, n: nat): int
    requires n <= |trades| && AllNormalised(orders, trades)
  {
    if n == 0 then 0
    else Bought(orders, trades, user, n - 1)
         + if orders[trades[n - 1].buyer].user == user then trades[n - 1].count else 0
  }

  function Sold(orders: seq<Order>, trades: seq<Trade>, user: nat, n: nat): int
    requires n <= |trades| && AllNormalised(orders, trades)
  {
    if n == 0 then 0
    else Sold(orders, trades, user, n - 1)
         + if orders[trades[n - 1].seller].user == user then trades[n - 1].count else 0
  }

  function Position(orders: seq<Order>, trades: seq<Trade>, user: nat, n: nat): int
    requires n <= |trades| && AllNormalised(orders, trades)
  {
    Bought(orders, trades, user, n) - Sold(orders, trades, user, n)
  }

  /** Units held long, and short, by the first `users` users after `n` trades. */
  function OpenLong(orders: seq<Order>, trades: seq<Trade>, n: nat, users: nat): int
    requires n <= |trades| && AllNormalised(orders, trades)
  {
    if users == 0 then 0 else OpenLong(orders, trades, n, users - 1) + Max(Position(orders, trades, users - 1, n), 0)
  }

  function OpenShort(orders: seq<Order>, trades: seq<Trade>, n: nat, users: nat): int
    requires n <= |trades| && AllNormalised(orders, trades)
  {
    if users == 0 then 0 else OpenShort(orders, trades, n, users - 1) + Max(-Position(orders, trades, users - 1, n), 0)
  }

  predicate UsersBelow(orders: seq<Order>, users: nat) { forall o :: 0 <= o < |orders| ==> orders[o].user < users }

  /** What the `k`-th trade takes off its buyer's short position and then off its seller's long one. */
  function BuyerCloses(orders: seq<Order>, trades: seq<Trade>, k: nat): int
    requires k < |trades| && AllNormalised(orders, trades)
  {
    ClosingCount(Position(orders, trades, orders[trades[k].buyer].user, k), trades[k].count, trades[k].count)
  }

  function SellerCloses(orders: seq<Order>, trades: seq<Trade>, k: nat): int
    requires k < |trades| && AllNormalised(orders, trades)
  {
    var user := orders[trades[k].seller].user;
    ClosingCount(Bought(orders, trades, user, k + 1) - Sold(orders, trades, user, k), -trades[k].count, trades[k].count)
  }

  /** Units that close a position and are not split as closing, less units split as closing that close none. */
  function Misjudged(orders: seq<Order>, trades: seq<Trade>, k: nat): int
    requires k < |trades| && AllNormalised(orders, trades)
  {
    OpenedBy(orders, trades, k) - (trades[k].count - BuyerCloses(orders, trades, k) - SellerCloses(orders, trades, k))
  }

  function MisjudgedTotal(orders: seq<Order>, trades: seq<Trade>, n: nat): int
    requires n <= |trades| && AllNormalised(orders, trades)
  {
    if n == 0 then 0 else MisjudgedTotal(orders, trades, n - 1) + Misjudged(orders, trades, n - 1)
  }

  /** How far a user's long position grows in the `k`-th trade. */
  function LongGrowth(orders: seq<Order>, trades: seq<Trade>, k: nat, user: nat): int
    requires k < |trades| && AllNormalised(orders, trades)
  {
    Max(Position(orders, trades, user, k + 1), 0) - Max(Position(orders, trades, user, k), 0)
  }

  lemma {:induction false} GrowthOfTwo(orders: seq<Order>, trades: seq<Trade>, k: nat, users: nat)
    requires k < |trades| && AllNormalised(orders, trades)
    ensures var b, s := orders[trades[k].buyer].user, orders[trades[k].seller].user;
            OpenLong(orders, trades, k + 1, users) - OpenLong(orders, trades, k, users)
            == (if b < users then LongGrowth(orders, trades, k, b) else 0)
               + (if s < users && s != b then LongGrowth(orders, trades, k, s) else 0)
  {
    if users > 0 { GrowthOfTwo(orders, trades, k, users - 1); }
  }

  /** Open interest grows by a trade's units less those that close a position, a user trading with itself included. */
  lemma InterestStep(orders: seq<Order>, trades: seq<Trade>, k: nat, users: nat)
    requires k < |trades| && AllNormalised(orders, trades) && UsersBelow(orders, users)
    ensures OpenLong(orders, trades, k + 1, users) - OpenLong(orders, trades, k, users)
            == trades[k].count - BuyerCloses(orders, trades, k) - SellerCloses(orders, trades, k)
  {
    GrowthOfTwo(orders, trades, k, users);
  }

  /** The splits follow open interest except for what they misjudge. */
  lemma {:induction false} SplitsFollowPositions(orders: seq<Order>, trades: seq<Trade>, n: nat, users: nat)
    requires n <= |trades| && AllNormalised(orders, trades) && UsersBelow(orders, users)
    ensures SplitInterest(orders, trades, n) == OpenLong(orders, trades, n, users) + MisjudgedTotal(orders, trades, n)
  {
    if n == 0 {
      NothingOpen(orders, trades, users);
    } else {
      SplitsFollowPositions(orders, trades, n - 1, users);
      InterestStep(orders, trades, n - 1, users);
    }
  }

  lemma {:induction false} NothingOpen(orders: seq<Order>, trades: seq<Trade>, users: nat)
    requires AllNormalised(orders, trades)
    ensures OpenLong(orders, trades, 0, users) == 0
  {
    if users > 0 { NothingOpen(orders, trades, users - 1); }
  }

  function PositionTotal(orders: seq<Order>, trades: seq<Trade>, n: nat, users: nat): int
    requires n <= |trades| && AllNormalised(orders, trades)
  {
    if users == 0 then 0 else PositionTotal(orders, trades, n, users - 1) + Position(orders, trades, users - 1, n)
  }

  lemma {:induction false} PositionsMove(orders: seq<Order>, trades: seq<Trade>, k: nat, users: nat)
    requires k < |trades| && AllNormalised(orders, trades)
    ensures PositionTotal(orders, trades, k + 1, users)
            == PositionTotal(orders, trades, k, users)
               + (if orders[trades[k].buyer].user < users then trades[k].count else 0)
               - (if orders[trades[k].seller].user < users then trades[k].count else 0)
  {
    if users > 0 { PositionsMove(orders, trades, k, users - 1); }
  }

  lemma {:induction false} PositionsCancel(orders: seq<Order>, trades: seq<Trade>, n: nat, users: nat)
    requires n <= |trades| && AllNormalised(orders, trades) && UsersBelow(orders, users)
    ensures PositionTotal(orders, trades, n, users) == 0
  {
    if n == 0 {
      NoPositions(orders, trades, users);
    } else {
      PositionsCancel(orders, trades, n - 1, users);
      PositionsMove(orders, trades, n - 1, users);
    }
  }

  lemma {:induction false} NoPositions(orders: seq<Order>, trades: seq<Trade>, users: nat)
    requires AllNormalised(orders, trades)
    ensures PositionTotal(orders, trades, 0, users) == 0
  {
    if users > 0 { NoPositions(orders, trades, users - 1); }
  }

  lemma {:induction false} LongLessShort(orders: seq<Order>, trades: seq<Trade>, n: nat, users: nat)
    requires n <= |trades| && AllNormalised(orders, trades)
    ensures OpenLong(orders, trades, n, users) - OpenShort(orders, trades, n, users)
            == PositionTotal(orders, trades, n, users)
  {
    if users > 0 { LongLessShort(orders, trades, n, users - 1); }
  }

  /** After any trades, as many units are held long as short. */
  lemma LongIsShort(orders: seq<Order>, trades: seq<Trade>, n: nat, users: nat)
    requires n <= |trades| && AllNormalised(orders, trades) && UsersBelow(orders, users)
    ensures OpenLong(orders, trades, n, users) == OpenShort(orders, trades, n, users)
  {
    PositionsCancel(orders, trades, n, users);
    LongLessShort(orders, trades, n, users);
  }

  /** One fill's postings follow the change of positions, but for the skew and for what the splits misjudge. */
  lemma FillEscrow(c: Contract, orders: seq<Order>, trades: seq<Trade>, k: nat, users: nat)
    requires AllNormalised(orders, trades) && k < |trades| && c.kind != OtherKind && UsersBelow(orders, users)
    requires TradeOps(c, orders, trades, k).Some?
    ensures EscrowSum(TradeOps(c, orders, trades, k).value)
            == c.UnitMicro() * (OpenLong(orders, trades, k + 1, users) - OpenLong(orders, trades, k, users)
                                + Misjudged(orders, trades, k))
               + Skew(c) * OpeningOf(orders, trades, k, trades[k].seller)
  {
    SplitEscrow(c, orders, trades, k);
    InterestStep(orders, trades, k, users);
  }

  lemma Distributed(a: int, b: int, d: int)
    ensures a * (b + d) == a * b + a * d
  {
  }

  /**
    Escrow conservation. Once the postings of any sequence of fills are on the ledger, the escrow
    account has grown by the full payout of the units users hold long, plus the skew for every
    unit opened short, plus the payout of what the splits misjudged. With a symmetric band it
    equals open interest exactly when those errors cancel.
   */
  lemma EscrowConserved(c: Contract, orders: seq<Order>, trades: seq<Trade>, s: State, users: nat)
    requires AllNormalised(orders, trades) && c.kind != OtherKind && Postable(c, orders, trades)
             && UsersBelow(orders, users)
    requires Sound(s) && AllNew(s, Flatten(Postings(c, orders, trades)))
    ensures var n := |trades|;
            var grown := Balance(Run(s, Flatten(Postings(c, orders, trades))).rows, UNSETTLED)
                         - Balance(s.rows, UNSETTLED);
            var open, errors, shorts := OpenLong(orders, trades, n, users), MisjudgedTotal(orders, trades, n),
                                        ShortsOpened(orders, trades, n);
            && grown == c.UnitMicro() * open + c.UnitMicro() * errors + Skew(c) * shorts
            && (Skew(c) == 0 || shorts == 0 ==> (grown == c.UnitMicro() * open <==> c.UnitMicro() == 0 || errors == 0))
            && (errors == 0 ==> (grown == c.UnitMicro() * open <==> Skew(c) == 0 || shorts == 0))
  {
    var n := |trades|;
    var errors := MisjudgedTotal(orders, trades, n);
    EscrowFollowsSplits(c, orders, trades, s);
    SplitsFollowPositions(orders, trades, n, users);
    Distributed(c.UnitMicro(), OpenLong(orders, trades, n, users), errors);
    ZeroProduct(Skew(c), ShortsOpened(orders, trades, n));
    ZeroProduct(c.UnitMicro(), errors);
  }

  lemma {:induction false} ZeroTotals(orders: seq<Order>, trades: seq<Trade>, n: nat)
    requires n <= |trades| && AllNormalised(orders, trades)
             && forall k: nat :: k < n ==> Misjudged(orders, trades, k) == 0
    ensures MisjudgedTotal(orders, trades, n) == 0
  {
    if n > 0 { ZeroTotals(orders, trades, n - 1); }
  }

  /** With a symmetric band, escrow is open interest after every trade if and only if no trade's splits misjudge it. */
  lemma EscrowRightThroughoutIff(c: Contract, orders: seq<Order>, trades: seq<Trade>, users: nat)
    requires AllNormalised(orders, trades) && c.kind != OtherKind && Postable(c, orders, trades)
             && UsersBelow(orders, users)
    requires Skew(c) == 0 && c.UnitMicro() != 0
    ensures (forall n: nat :: n <= |trades| ==>
                                EscrowTotal(Postings(c, orders, trades)[..n])
                                    == c.UnitMicro() * OpenLong(orders, trades, n, users))
            <==> forall k: nat :: k < |trades| ==> Misjudged(orders, trades, k) == 0
  {
    PostingsWorth(c, orders, trades);
    RightThroughoutIff(Postings(c, orders, trades), orders, trades, users, c.UnitMicro());
  }

  lemma RightThroughoutIff(postings: seq<seq<Op>>, orders: seq<Order>, trades: seq<Trade>, users: nat, unit: int)
    requires AllNormalised(orders, trades) && |postings| == |trades| && AllWorth(postings, orders, trades, unit, 0)
    requires unit != 0 && UsersBelow(orders, users)
    ensures (forall n: nat :: n <= |trades| ==> EscrowTotal(postings[..n]) == unit * OpenLong(orders, trades, n, users))
            <==> forall k: nat :: k < |trades| ==> Misjudged(orders, trades, k) == 0
  {
    forall n: nat | n <= |trades|
      ensures EscrowTotal(postings[..n]) == unit * OpenLong(orders, trades, n, users)
              <==> MisjudgedTotal(orders, trades, n) == 0
    {
      EscrowAfter(postings, orders, trades, n, users, unit);
    }
    if forall n: nat :: n <= |trades| ==> MisjudgedTotal(orders, trades, n) == 0 {
      forall k: nat | k < |trades| ensures Misjudged(orders, trades, k) == 0 {
        assert MisjudgedTotal(orders, trades, k + 1) == 0 && MisjudgedTotal(orders, trades, k) == 0;
      }
    }
    if forall k: nat :: k < |trades| ==> Misjudged(orders, trades, k) == 0 {
      forall n: nat | n <= |trades| ensures MisjudgedTotal(orders, trades, n) == 0 { ZeroTotals(orders, trades, n); }
    }
  }

  lemma WorthIff(amount: int, unit: int, open: int, errors: int, shorts: int)
    requires IsWorth(amount, unit, open + errors, 0, shorts) && unit != 0
    ensures amount == unit * open <==> errors == 0
  {
    Distributed(unit, open, errors);
    ZeroProduct(unit, errors);
  }

  predicate AllWorth(postings: seq<seq<Op>>, orders: seq<Order>, trades: seq<Trade>, unit: int, skew: int)
    requires AllNormalised(orders, trades) && |postings| <= |trades|
  {
    forall k: nat :: k < |postings| ==> WorthTrade(orders, trades, k, EscrowSum(postings[k]), unit, skew)
  }

  lemma PostingsWorth(c: Contract, orders: seq<Order>, trades: seq<Trade>)
    requires AllNormalised(orders, trades) && c.kind != OtherKind && Postable(c, orders, trades)
    ensures AllWorth(Postings(c, orders, trades), orders, trades, c.UnitMicro(), Skew(c))
  {
    forall k: nat | k < |trades|
      ensures WorthTrade(orders, trades, k, EscrowSum(Postings(c, orders, trades)[k]), c.UnitMicro(), Skew(c))
    {
      SplitEscrow(c, orders, trades, k);
    }
  }

  /** What the first `n` postings come to equals open interest exactly when nothing is misjudged in total. */
  lemma EscrowAfter(postings: seq<seq<Op>>, orders: seq<Order>, trades: seq<Trade>, n: nat, users: nat, unit: int)
    requires AllNormalised(orders, trades) && |postings| == |trades| && AllWorth(postings, orders, trades, unit, 0)
    requires n <= |trades| && unit != 0 && UsersBelow(orders, users)
    ensures EscrowTotal(postings[..n]) == unit * OpenLong(orders, trades, n, users)
            <==> MisjudgedTotal(orders, trades, n) == 0
  {
    EscrowFollowsInterest(orders, trades, postings[..n], unit, 0);
    SplitsFollowPositions(orders, trades, n, users);
    WorthIff(EscrowTotal(postings[..n]), unit, OpenLong(orders, trades, n, users), MisjudgedTotal(orders, trades, n),
             ShortsOpened(orders, trades, n));
  }

  // ---------------------------------------------------------------- when a split is right

  /** What `n` units of an order close by its split, when `prior` units filled before. */
  function SplitCloses(opening: int, closing: int, prior: int, n: int): int {
    n - OpeningFillCount(opening, closing, prior, n)
  }

  /**
    An order of `count` units was split against a position of `held` units it could close. When a
    fill of `n` more comes, `prior` of its units have filled, and its user's other orders have taken
    away `away` of those units and added `back`: the split counts as closing what the fill closes.
   */
  predicate SplitRightAt(held: int, count: int, prior: int, n: int, away: int, back: int) {
    var closing := Min(count, Max(held, 0));
    SplitCloses(count - closing, closing, prior, n) == Min(n, Max(held + back - away - prior, 0))
  }

  /**
    Right at every fill of an order amended to `amended` units, whatever part of up
    to `away` and `back` units has filled by then.
   */
  ghost predicate SplitAlwaysRight(held: int, count: int, amended: int, away: int, back: int) {
    forall prior, n, a, b :: 0 <= prior && 0 < n && prior + n <= amended && 0 <= a <= away && 0 <= b <= back ==>
                               SplitRightAt(held, count, prior, n, a, b)
  }

  /**
    What can be known when the order starts to fill: the position covers all of it whatever is taken
    away; or it was not amended upwards, and it never has anything to close or nobody moves the position.
   */
  predicate SplitSafe(held: int, count: int, amended: int, away: int, back: int) {
    held - away >= amended || (amended <= count && (held + back <= 0 || (away == 0 && back == 0)))
  }

  lemma SafeSplit(held: int, count: int, amended: int, away: int, back: int, prior: int, n: int, a: int, b: int)
    requires count > 0 && SplitSafe(held, count, amended, away, back)
    requires 0 <= prior && 0 < n && prior + n <= amended && 0 <= a <= away && 0 <= b <= back
    ensures SplitRightAt(held, count, prior, n, a, b)
  {
  }

  /** An order's split is right for every way it and the orders beside it can fill if and only if it was safe. */
  lemma SplitRightIff(held: int, count: int, amended: int, away: int, back: int)
    requires count > 0 && amended > 0 && away >= 0 && back >= 0
    ensures SplitAlwaysRight(held, count, amended, away, back) <==> SplitSafe(held, count, amended, away, back)
  {
    if SplitSafe(held, count, amended, away, back) {
      forall prior, n, a, b | 0 <= prior && 0 < n && prior + n <= amended && 0 <= a <= away && 0 <= b <= back
        ensures SplitRightAt(held, count, prior, n, a, b)
      {
        SafeSplit(held, count, amended, away, back, prior, n, a, b);
      }
    } else if amended > count {
      assert !SplitRightAt(held, count, amended - 1, 1, away, 0);
    } else if held <= 0 {
      assert !SplitRightAt(held, count, 0, 1, 0, 1 - held);
    } else if held >= amended || away > 0 {
      assert !SplitRightAt(held, count, Min(held, amended) - 1, 1, away, 0);
    } else {
      assert !SplitRightAt(held, count, held, 1, 0, 1);
    }
  }

  /**
    An order that nothing moves the position under is split right if and only if it
    was not amended above its entry and its position.
   */
  lemma AmendedAloneIff(held: int, count: int, amended: int)
    requires count > 0 && amended > 0
    ensures SplitAlwaysRight(held, count, amended, 0, 0) <==> amended <= Max(count, held)
  {
    SplitRightIff(held, count, amended, 0, 0);
  }

  /**
    The order was split against its user's position behind its first `placed`
    trades, and filled from then on up to what it was amended to.
   */
  predicate EnteredProperly(orders: seq<Order>, trades: seq<Trade>, o: nat)
    requires o < |orders| && AllNormalised(orders, trades)
  {
    && orders[o].placed <= |trades|
    && orders[o].seen == Position(orders, trades, orders[o].user, orders[o].placed)
    && Prior(trades, o, orders[o].placed) == 0 && Prior(trades, o, |trades|) <= orders[o].amended
  }

  /** Units the user's other orders have moved the same way as the order, and the other way, since it was placed. */
  function SameWay(orders: seq<Order>, trades: seq<Trade>, o: nat, n: nat): int
    requires o < |orders| && n <= |trades| && orders[o].placed <= |trades| && AllNormalised(orders, trades)
  {
    var user, placed := orders[o].user, orders[o].placed;
    (if orders[o].action == Buy then Bought(orders, trades, user, n) - Bought(orders, trades, user, placed)
     else Sold(orders, trades, user, n) - Sold(orders, trades, user, placed)) - Prior(trades, o, n)
  }

  function OtherWay(orders: seq<Order>, trades: seq<Trade>, o: nat, n: nat): int
    requires o < |orders| && n <= |trades| && orders[o].placed <= |trades| && AllNormalised(orders, trades)
  {
    var user, placed := orders[o].user, orders[o].placed;
    if orders[o].action == Buy then Sold(orders, trades, user, n) - Sold(orders, trades, user, placed)
    else Bought(orders, trades, user, n) - Bought(orders, trades, user, placed)
  }

  /** The position the order could close when it was placed. */
  function Held(o: Order): int { if o.action == Buy then -o.seen else o.seen }

  lemma {:induction false} PriorGrows(trades: seq<Trade>, o: nat, m: nat, n: nat)
    requires m <= n <= |trades| && forall k :: 0 <= k < |trades| ==> trades[k].count > 0
    ensures 0 <= Prior(trades, o, m) <= Prior(trades, o, n)
  {
    if n > m { PriorGrows(trades, o, m, n - 1); } else if m > 0 { PriorGrows(trades, o, m - 1, m - 1); }
  }

  /** Both only grow, from nothing where the order was placed. */
  lemma {:induction false} WaysGrow(orders: seq<Order>, trades: seq<Trade>, o: nat, m: nat, n: nat)
    requires AllNormalised(orders, trades) && o < |orders| && EnteredProperly(orders, trades, o)
             && orders[o].placed <= m <= n <= |trades|
    requires (orders[o].side == Yes || orders[o].side == Long) && (orders[o].action == Buy || orders[o].action == Sell)
    ensures 0 <= SameWay(orders, trades, o, m) <= SameWay(orders, trades, o, n)
    ensures 0 <= OtherWay(orders, trades, o, m) <= OtherWay(orders, trades, o, n)
  {
    if n > m {
      WaysGrow(orders, trades, o, m, n - 1);
      WayStep(orders, trades, o, n - 1);
    } else if m > orders[o].placed {
      WaysGrow(orders, trades, o, m - 1, m - 1);
      WayStep(orders, trades, o, m - 1);
    }
  }

  lemma WayStep(orders: seq<Order>, trades: seq<Trade>, o: nat, k: nat)
    requires AllNormalised(orders, trades) && k < |trades| && o < |orders| && orders[o].placed <= |trades|
    requires orders[o].action == Buy || orders[o].action == Sell
    ensures SameWay(orders, trades, o, k) <= SameWay(orders, trades, o, k + 1)
    ensures OtherWay(orders, trades, o, k) <= OtherWay(orders, trades, o, k + 1)
  {
    assert Normalised(orders, trades[k]);
  }

  /** Every order saw its user's position, and was safe against all that its user's other orders filled from then on. */
  ghost predicate AllSafe(orders: seq<Order>, trades: seq<Trade>)
    requires AllNormalised(orders, trades)
  {
    forall o: nat :: o < |orders| ==>
                       && EnteredProperly(orders, trades, o)
                       && SplitSafe(Held(orders[o]), orders[o].count, orders[o].amended,
                                    SameWay(orders, trades, o, |trades|), OtherWay(orders, trades, o, |trades|))
  }

  /** An order that has filled nothing is in none of the trades so far. */
  lemma NoneBefore(trades: seq<Trade>, o: nat, m: nat, k: nat)
    requires m <= |trades| && k < |trades| && forall i :: 0 <= i < |trades| ==> trades[i].count > 0
    requires Prior(trades, o, m) == 0
    ensures k < m ==> trades[k].buyer != o && trades[k].seller != o
  {
    if k < m {
      PriorGrows(trades, o, k + 1, m);
      PriorGrows(trades, o, k, k + 1);
    }
  }

  /** A leg of `n` units at `position`, the order's own fills and its user's others accounted for. */
  lemma LegRight(o: Order, prior: int, n: int, position: int, away: int, back: int, allAway: int, allBack: int)
    requires (o.side == Yes || o.side == Long) && (o.action == Buy || o.action == Sell) && o.count > 0
    requires SplitSafe(Held(o), o.count, o.amended, allAway, allBack) && 0 <= away <= allAway && 0 <= back <= allBack
    requires 0 <= prior && 0 < n && prior + n <= o.amended
    requires (if o.action == Buy then -position else position) == Held(o) + back - away - prior
    ensures n - OpeningFillCount(o.Opening(), o.Closing(), prior, n)
            == ClosingCount(position, if o.action == Buy then n else -n, n)
  {
    SafeSplit(Held(o), o.count, o.amended, allAway, allBack, prior, n, away, back);
  }

  /** A fill of an order comes behind its placement and fits its count. */
  lemma LegFacts(trades: seq<Trade>, k: nat, o: nat, placed: nat, count: int)
    requires k < |trades| && placed <= |trades| && forall i :: 0 <= i < |trades| ==> trades[i].count > 0
    requires Prior(trades, o, placed) == 0 && Prior(trades, o, |trades|) <= count
             && (o == trades[k].buyer || o == trades[k].seller)
    ensures placed <= k && 0 <= Prior(trades, o, k) && Prior(trades, o, k) + trades[k].count <= count
  {
    NoneBefore(trades, o, placed, k);
    PriorGrows(trades, o, k, k + 1);
    PriorGrows(trades, o, k + 1, |trades|);
  }

  lemma BuyerLegRight(orders: seq<Order>, trades: seq<Trade>, k: nat)
    requires AllNormalised(orders, trades) && k < |trades| && AllSafe(orders, trades)
    ensures trades[k].count - OpeningOf(orders, trades, k, trades[k].buyer) == BuyerCloses(orders, trades, k)
  {
    var i := trades[k].buyer;
    var o := orders[i];
    assert Normalised(orders, trades[k]) && EnteredProperly(orders, trades, i);
    LegFacts(trades, k, i, o.placed, o.amended);
    WaysGrow(orders, trades, i, k, |trades|);
    LegRight(o, Prior(trades, i, k), trades[k].count, Position(orders, trades, o.user, k),
             SameWay(orders, trades, i, k),
             OtherWay(orders, trades, i, k), SameWay(orders, trades, i, |trades|),
                 OtherWay(orders, trades, i, |trades|));
  }

  /** Where the seller's leg finds its user: behind the buyer's leg, which may be the same user's. */
  lemma SellerFinds(orders: seq<Order>, trades: seq<Trade>, k: nat)
    requires AllNormalised(orders, trades) && k < |trades| && EnteredProperly(orders, trades, trades[k].seller)
    requires orders[trades[k].seller].placed <= k && orders[trades[k].seller].action == Sell
    ensures var i := trades[k].seller;
            Bought(orders, trades, orders[i].user, k + 1) - Sold(orders, trades, orders[i].user, k)
            == Held(orders[i]) + OtherWay(orders, trades, i, k + 1) - SameWay(orders, trades, i, k)
               - Prior(trades, i, k)
  {
  }

  lemma SellerLegSafe(orders: seq<Order>, trades: seq<Trade>, k: nat, i: nat)
    requires AllNormalised(orders, trades) && k < |trades| && i == trades[k].seller < |orders|
             && EnteredProperly(orders, trades, i)
    requires (orders[i].side == Yes || orders[i].side == Long) && orders[i].action == Sell
    requires SplitSafe(Held(orders[i]), orders[i].count, orders[i].amended, SameWay(orders, trades, i, |trades|),
                       OtherWay(orders, trades, i, |trades|))
    ensures trades[k].count - OpeningOf(orders, trades, k, i) == SellerCloses(orders, trades, k)
  {
    var o := orders[i];
    LegFacts(trades, k, i, o.placed, o.amended);
    WaysGrow(orders, trades, i, k, |trades|);
    WaysGrow(orders, trades, i, k + 1, |trades|);
    SellerFinds(orders, trades, k);
    LegRight(o, Prior(trades, i, k), trades[k].count,
             Bought(orders, trades, o.user, k + 1) - Sold(orders, trades, o.user, k),
             SameWay(orders, trades, i, k), OtherWay(orders, trades, i, k + 1),
             SameWay(orders, trades, i, |trades|), OtherWay(orders, trades, i, |trades|));
  }

  lemma SellerLegRight(orders: seq<Order>, trades: seq<Trade>, k: nat)
    requires AllNormalised(orders, trades) && k < |trades| && AllSafe(orders, trades)
    ensures trades[k].count - OpeningOf(orders, trades, k, trades[k].seller) == SellerCloses(orders, trades, k)
  {
    assert Normalised(orders, trades[k]) && EnteredProperly(orders, trades, trades[k].seller);
    SellerLegSafe(orders, trades, k, trades[k].seller);
  }

  lemma {:induction false} NothingMisjudged(orders: seq<Order>, trades: seq<Trade>, n: nat)
    requires AllNormalised(orders, trades) && n <= |trades| && AllSafe(orders, trades)
    ensures MisjudgedTotal(orders, trades, n) == 0
  {
    if n > 0 {
      NothingMisjudged(orders, trades, n - 1);
      BuyerLegRight(orders, trades, n - 1);
      SellerLegRight(orders, trades, n - 1);
    }
  }

  /** While every order is safe, escrow is open interest at full payout, but for the skew. */
  lemma SafeOrdersConserveEscrow(c: Contract, orders: seq<Order>, trades: seq<Trade>, s: State, users: nat)
    requires AllNormalised(orders, trades) && c.kind != OtherKind && Postable(c, orders, trades)
             && UsersBelow(orders, users)
    requires Sound(s) && AllNew(s, Flatten(Postings(c, orders, trades))) && AllSafe(orders, trades)
    ensures var grown := Balance(Run(s, Flatten(Postings(c, orders, trades))).rows, UNSETTLED)
                         - Balance(s.rows, UNSETTLED);
            grown == c.UnitMicro() * OpenLong(orders, trades, |trades|, users)
                + Skew(c) * ShortsOpened(orders, trades, |trades|)
  {
    EscrowConserved(c, orders, trades, s, users);
    NothingMisjudged(orders, trades, |trades|);
    ZeroProduct(c.UnitMicro(), MisjudgedTotal(orders, trades, |trades|));
  }

  /**
    A user long `q` offers the same units twice: each order sees them, neither needs
    a hold for a future, and both sell.
   */
  function OfferedTwice(q: int, h: nat, price: int): (seq<Order>, seq<Trade>) {
    ([Order(0, Long, Buy, q, q, 0, 0, Some(h)), Order(1, Long, Sell, q, q, 0, 0, Some(h + 1)),
      Order(0, Long, Sell, q, q, 1, q, None), Order(0, Long, Sell, q, q, 1, q, None),
      Order(2, Long, Buy, 2 * q, 2 * q, 1, 0, Some(h + 2))],
     [Trade(0, 0, 1, price, q, true), Trade(1, 4, 2, price, q, true), Trade(2, 4, 3, price, q, true)])
  }

  lemma OfferedPositions(q: int, h: nat, price: int, u: nat)
    requires q > 0
    ensures var (orders, trades) := OfferedTwice(q, h, price);
            && AllNormalised(orders, trades)
            && Position(orders, trades, u, 0) == 0
            && Position(orders, trades, u, 1) == (if u == 0 then q else if u == 1 then -q else 0)
            && Position(orders, trades, u, 3) == if u == 0 || u == 1 then -q else if u == 2 then 2 * q else 0
  {
    var (orders, trades) := OfferedTwice(q, h, price);
    assert orders[trades[0].buyer].user == 0 && orders[trades[1].buyer].user == 2 && orders[trades[2].buyer].user == 2;
    assert orders[trades[0].seller].user == 1 && orders[trades[1].seller].user == 0
           && orders[trades[2].seller].user == 0;
    assert Bought(orders, trades, u, 0) == 0 && Sold(orders, trades, u, 0) == 0;
    assert Bought(orders, trades, u, 1) == if u == 0 then q else 0;
    assert Sold(orders, trades, u, 1) == if u == 1 then q else 0;
    assert Bought(orders, trades, u, 2) == if u == 0 || u == 2 then q else 0;
    assert Sold(orders, trades, u, 2) == if u == 0 || u == 1 then q else 0;
  }

  lemma OfferedFills(q: int, h: nat, price: int, o: nat)
    requires q > 0 && o < 5
    ensures var (orders, trades) := OfferedTwice(q, h, price);
            && Prior(trades, o, 0) == 0 && Prior(trades, o, 1) == (if o <= 1 then q else 0)
            && Prior(trades, o, 2) == (if o <= 2 || o == 4 then q else 0)
            && Prior(trades, o, 3) == if o == 4 then 2 * q else q
  {
    var (orders, trades) := OfferedTwice(q, h, price);
    assert Prior(trades, o, 1) == if o <= 1 then q else 0;
    assert Prior(trades, o, 2) == if o <= 2 || o == 4 then q else 0;
  }

  /**
    All three trades are posted, `2 * q` units are open, and the payout of `q` of
    them is missing, though every order saw the right position.
   */
  lemma TwoClosingOrdersEmptyEscrow(c: Contract, q: int, h: nat, price: int)
    requires q > 0 && c.kind == Scalar && c.tickValue > 0 && 0 <= c.lower < price < c.upper
    ensures var (orders, trades) := OfferedTwice(q, h, price);
            && AllNormalised(orders, trades) && UsersBelow(orders, 3) && Postable(c, orders, trades)
            && (forall o: nat :: o < |orders| ==> EnteredProperly(orders, trades, o))
            && RequiredHold(c, Long, Sell, price, q, orders[2].Opening()) == Some(0)
            && OpenLong(orders, trades, 3, 3) == 2 * q && MisjudgedTotal(orders, trades, 3) == -q
  {
    var (orders, trades) := OfferedTwice(q, h, price);
    OfferedEntered(q, h, price);
    OfferedSplits(c, q, h, price);
    OfferedOpen(q, h, price);
    SplitsFollowPositions(orders, trades, 3, 3);
  }

  lemma OfferedEntered(q: int, h: nat, price: int)
    requires q > 0
    ensures var (orders, trades) := OfferedTwice(q, h, price);
            AllNormalised(orders, trades) && UsersBelow(orders, 3)
                && forall o: nat :: o < |orders| ==> EnteredProperly(orders, trades, o)
  {
    var (orders, trades) := OfferedTwice(q, h, price);
    forall o: nat | o < |orders| ensures EnteredProperly(orders, trades, o) {
      OfferedFills(q, h, price, o);
      OfferedPositions(q, h, price, orders[o].user);
    }
  }

  lemma OfferedOpen(q: int, h: nat, price: int)
    requires q > 0
    ensures var (orders, trades) := OfferedTwice(q, h, price);
            AllNormalised(orders, trades) && OpenLong(orders, trades, 3, 3) == 2 * q
  {
    var (orders, trades) := OfferedTwice(q, h, price);
    OfferedPositions(q, h, price, 0);
    OfferedPositions(q, h, price, 1);
    OfferedPositions(q, h, price, 2);
    assert OpenLong(orders, trades, 3, 0) == 0 && OpenLong(orders, trades, 3, 1) == 0
           && OpenLong(orders, trades, 3, 2) == 0;
  }

  lemma OfferedSplits(c: Contract, q: int, h: nat, price: int)
    requires q > 0 && c.kind == Scalar && c.tickValue > 0 && 0 <= c.lower < price < c.upper
    ensures var (orders, trades) := OfferedTwice(q, h, price);
            && AllNormalised(orders, trades) && Postable(c, orders, trades)
            && SplitInterest(orders, trades, 3) == q
  {
    var (orders, trades) := OfferedTwice(q, h, price);
    forall o: nat | o < 5 ensures Prior(trades, o, 0) == 0 { OfferedFills(q, h, price, o); }
    OfferedFills(q, h, price, 2);
    OfferedFills(q, h, price, 3);
    OfferedFills(q, h, price, 4);
    assert OpeningOf(orders, trades, 0, 0) == q && OpeningOf(orders, trades, 0, 1) == q;
    assert OpeningOf(orders, trades, 1, 4) == q && OpeningOf(orders, trades, 1, 2) == 0;
    assert OpeningOf(orders, trades, 2, 4) == q && OpeningOf(orders, trades, 2, 3) == 0;
    HoldAmountAtBandEdge(c, Long, Buy, price, q);
    HoldAmountAtBandEdge(c, Long, Sell, price, q);
    forall k: nat | k < 3 ensures TradeOps(c, orders, trades, k).Some? {}
    assert SplitInterest(orders, trades, 1) == q && SplitInterest(orders, trades, 2) == q;
  }

  /** A flat user's order for `count` units, amended to `amended`, filled by an order entered for as many. */
  function AmendedUp(count: int, amended: int, h: nat, price: int): (seq<Order>, seq<Trade>) {
    ([Order(0, Yes, Buy, count, amended, 0, 0, Some(h)), Order(1, Yes, Sell, amended, amended, 0, 0, Some(h + 1))],
     [Trade(0, 0, 1, price, amended, true)])
  }

  lemma AmendedSplits(count: int, amended: int, h: nat, price: int)
    requires 0 < count < amended
    ensures var (orders, trades) := AmendedUp(count, amended, h, price);
            && AllNormalised(orders, trades) && UsersBelow(orders, 2)
            && OpeningOf(orders, trades, 0, 0) == count && OpeningOf(orders, trades, 0, 1) == amended
            && EnteredProperly(orders, trades, 0) && EnteredProperly(orders, trades, 1)
            && SameWay(orders, trades, 0, 1) == 0 == OtherWay(orders, trades, 0, 1)
  {
    var (orders, trades) := AmendedUp(count, amended, h, price);
    assert orders[trades[0].buyer].user == 0 && orders[trades[0].seller].user == 1;
    assert forall o :: Prior(trades, o, 0) == 0;
    assert Prior(trades, 0, 1) == amended && Prior(trades, 1, 1) == amended;
    assert Bought(orders, trades, 0, 1) == amended && Sold(orders, trades, 0, 1) == 0;
  }

  /**
    An order amended upwards drains escrow with no other order beside it. The amendment is allowed,
    because more units at a lower price need the same hold, but the split still opens only what the
    order was entered for: `amended` units are open, and the payout of what lies above `count` is missing.
   */
  lemma AmendedOrderDrainsEscrow(c: Contract, count: int, limit: int, amended: int, price: int, h: nat)
    requires c.kind == Binary && 0 < count < amended && 0 < price < c.Payout() && limit * count == price * amended
    requires c.maxPrice + c.minPrice > price
    ensures RequiredHold(c, Yes, Buy, limit, count, count).Some?
    ensures AmendAllowed(c, Yes, Buy, RequiredHold(c, Yes, Buy, limit, count, count).value, price, amended)
    ensures var (orders, trades) := AmendedUp(count, amended, h, price);
            && AllNormalised(orders, trades) && UsersBelow(orders, 2) && Postable(c, orders, trades)
            && EnteredProperly(orders, trades, 0)
            && SameWay(orders, trades, 0, 1) == 0 == OtherWay(orders, trades, 0, 1)
            && OpenLong(orders, trades, 1, 2) == amended && MisjudgedTotal(orders, trades, 1) == count - amended
            && EscrowSum(TradeOps(c, orders, trades, 0).value) == c.UnitMicro() * count + Skew(c) * amended
  {
    var (orders, trades) := AmendedUp(count, amended, h, price);
    AmendedSplits(count, amended, h, price);
    SameHold(limit, count, price, amended);
    HoldAmountAtBandEdge(c, Yes, Buy, price, count);
    HoldAmountAtBandEdge(c, Yes, Sell, price, amended);
    assert TradeOps(c, orders, trades, 0).Some?;
    AmendedOpen(count, amended, h, price);
    SplitEscrow(c, orders, trades, 0);
  }

  lemma SameHold(limit: int, count: int, price: int, amended: int)
    requires limit * count == price * amended && price > 0 && amended > 0
    ensures limit * count * MICRO_PER_TICK == price * amended * MICRO_PER_TICK > 0
  {
    assert price * amended > 0;
  }

  lemma AmendedOpen(count: int, amended: int, h: nat, price: int)
    requires 0 < count < amended
    ensures var (orders, trades) := AmendedUp(count, amended, h, price);
            && AllNormalised(orders, trades)
            && OpenLong(orders, trades, 1, 2) == amended && MisjudgedTotal(orders, trades, 1) == count - amended
  {
    var (orders, trades) := AmendedUp(count, amended, h, price);
    AmendedSplits(count, amended, h, price);
    assert Position(orders, trades, 0, 1) == amended && Position(orders, trades, 1, 1) == -amended;
    assert OpenLong(orders, trades, 1, 0) == 0 && OpenLong(orders, trades, 1, 1) == amended;
    SplitsFollowPositions(orders, trades, 1, 2);
    assert SplitInterest(orders, trades, 0) == 0;
  }

  lemma ZeroProduct(a: int, b: int)
    ensures a * b == 0 <==> a == 0 || b == 0
  {
    if a > 0 && b > 0 { assert a * b > 0; }
    if a > 0 && b < 0 { assert a * b < 0; }
    if a < 0 && b > 0 { assert a * b < 0; }
    if a < 0 && b < 0 { assert a * b > 0; }
  }
}
