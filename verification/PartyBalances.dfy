/**
  Where the money of an isolated fill goes, account by account: a party's hold pays for what the
  party opens, the escrow pays the party for what it closes, and nobody else is touched.
 */
module PartyBalances {
  import opened Common
  import opened Ledger
  import opened LedgerRuns
  import opened LedgerEffects
  import opened Isolated
  import opened Escrow
  import opened OrderHolds
  import opened IsolatedServices

  /** What a party's opening units commit. */
  function CommitOf(c: Contract, o: Order, price: int, opening: int): int {
    if opening <= 0 then 0
    else
      match FillHoldAmount(c, o.side, o.action, price, opening)
      case Some(amount) => amount
      case None => 0
  }

  /** What a party's closing units are credited. */
  function CreditOf(c: Contract, o: Order, price: int, closing: int): int {
    match CloseCredit(c, o.side, o.action, price, closing)
    case Some(amount) => Max(amount, 0)
    case None => 0
  }

  /** What a party does to an account: the holder's HOLDS pay the commit, and the escrow pays the user the credit. */
  function PartyShare(user: UserId, holder: UserId, commit: int, credit: int, a: Account): int {
    if a == Holds(holder) then -commit
    else if a == UNSETTLED then commit - credit
    else if a == Cash(user) then credit
    else 0
  }

  /** Whose hold it is; the party's user when it has none. */
  function HolderOf(s: State, o: Order): UserId {
    if o.hold.Some? && o.hold.value < |s.holds| then s.holds[o.hold.value].user else o.user
  }

  lemma CommitPartMoves(s: State, c: Contract, o: Order, fill: nat, maker: bool, price: int, opening: int, a: Account)
    requires Sound(s) && CommitPart(s, c, o, fill, maker, price, opening).1 == Done
             && FillHoldKey(fill, maker) !in s.ops
    ensures var t := CommitPart(s, c, o, fill, maker, price, opening).0;
            && Sound(t) && |t.holds| == |s.holds| && t.keys.Keys <= s.keys.Keys + {FillHoldKey(fill, maker)}
            && HolderOf(t, o) == HolderOf(s, o)
            && Balance(t.rows, a)
               == Balance(s.rows, a) + Share(Holds(HolderOf(s, o)), UNSETTLED, CommitOf(c, o, price, opening), a)
  {
    if opening > 0 {
      var amount := FillHoldAmount(c, o.side, o.action, price, opening).value;
      var key := FillHoldKey(fill, maker);
      CommitSound(s, key, o.hold.value, amount, 0, UNSETTLED, []);
      CommitMovesOut(s, key, o.hold.value, amount, 0, UNSETTLED, [], a);
    }
  }

  lemma CreditPartMoves(s: State, c: Contract, o: Order, fill: nat, maker: bool, price: int, closing: int, a: Account)
    requires Sound(s) && CreditPart(s, c, o, fill, maker, price, closing).1 == Done
    requires FillCloseKey(fill, maker) !in s.keys
    ensures var t := CreditPart(s, c, o, fill, maker, price, closing).0;
            && Sound(t) && t.holds == s.holds
            && Balance(t.rows, a)
               == Balance(s.rows, a) + Share(UNSETTLED, Cash(o.user), CreditOf(c, o, price, closing), a)
  {
    var credit := CloseCredit(c, o.side, o.action, price, closing).value;
    if credit > 0 {
      PostSound(s, FillCloseKey(fill, maker), [Entry(UNSETTLED, DR, credit), Entry(Cash(o.user), CR, credit)]);
      PairMoves(s, FillCloseKey(fill, maker), UNSETTLED, Cash(o.user), credit);
    }
  }

  /**
    A party posted for the first time: its user's CASH rises by the closing credit, the HOLDS of
    its hold's user fall by the commit, the escrow takes in the difference, and no other
    account moves.
   */
  lemma PartyMoves(s: State, c: Contract, o: Order, fill: nat, maker: bool, price: int, count: int, opening: int,
                   a: Account)
    requires Sound(s) && PartyStep(s, c, o, fill, maker, price, count, opening).1 == Done
    requires FillHoldKey(fill, maker) !in s.ops && FillCloseKey(fill, maker) !in s.keys
    ensures var t := PartyStep(s, c, o, fill, maker, price, count, opening).0;
            var holder, commit, credit := HolderOf(s, o), CommitOf(c, o, price, opening),
                                          CreditOf(c, o, price, count - opening);
            Sound(t) && Balance(t.rows, a) - Balance(s.rows, a) == PartyShare(o.user, holder, commit, credit, a)
  {
    var middle := CommitPart(s, c, o, fill, maker, price, opening).0;
    PartyParts(s, c, o, fill, maker, price, count, opening);
    CommitPartMoves(s, c, o, fill, maker, price, opening, a);
    CreditPartMoves(middle, c, o, fill, maker, price, count - opening, a);
    ShareOfParty(o.user, HolderOf(s, o), CommitOf(c, o, price, opening), CreditOf(c, o, price, count - opening), a);
  }

  lemma PartyParts(s: State, c: Contract, o: Order, fill: nat, maker: bool, price: int, count: int, opening: int)
    requires PartyStep(s, c, o, fill, maker, price, count, opening).1 == Done
    ensures var (middle, r) := CommitPart(s, c, o, fill, maker, price, opening);
            && r == Done && PartyStep(s, c, o, fill, maker, price, count, opening)
                            == CreditPart(middle, c, o, fill, maker, price, count - opening)
  {
  }

  lemma ShareOfParty(user: UserId, holder: UserId, commit: int, credit: int, a: Account)
    ensures Share(Holds(holder), UNSETTLED, commit, a) + Share(UNSETTLED, Cash(user), credit, a)
            == PartyShare(user, holder, commit, credit, a)
  {
  }

  // ---------------------------------------------------------------- when it is posted

  function HoldOf(op: Op): set<nat> { if op.Commit? then {op.hold} else {} }

  /** The operation's key is new, and its hold, or its accounts, are there to pay. */
  predicate Fits(s: State, op: Op) {
    match op
    case Commit(key, hold, commit, _, _, _) =>
      && key != Blank && key !in s.ops && hold < |s.holds| && s.holds[hold].active
      && 0 < commit <= s.holds[hold].Remaining()
    case Post(key, entries) =>
      && key != Blank && key !in s.keys && |entries| == 2 && entries[0].amount > 0 && entries[1].account.Cash?
      && entries == [Entry(UNSETTLED, DR, entries[0].amount), Entry(entries[1].account, CR, entries[0].amount)]
      && UNSETTLED in s.accounts && entries[1].account in s.accounts
    case _ => false
  }

  /** From `s` to `t` only these keys were used and only these holds drawn on, and no account was lost. */
  predicate Later(s: State, t: State, keys: set<Key>, holds: set<nat>) {
    && s.accounts <= t.accounts && |t.holds| == |s.holds|
    && t.ops.Keys <= s.ops.Keys + keys && t.keys.Keys <= s.keys.Keys + keys
    && forall h :: 0 <= h < |s.holds| && h !in holds ==> t.holds[h] == s.holds[h]
  }

  lemma FitsLater(s: State, t: State, keys: set<Key>, holds: set<nat>, op: Op)
    requires Later(s, t, keys, holds) && Fits(s, op) && KeyOf(op) !in keys && HoldOf(op) !! holds
    ensures Fits(t, op)
  {
    if op.Commit? { assert op.hold in HoldOf(op); }
  }

  lemma CommitTaken(s: State, op: Op)
    requires Orderly(s) && FillOp(op) && op.Commit? && Fits(s, op)
    ensures Accepted(s, op) && !Recognised(s, op)
    ensures Later(s, Step(s, op), {KeyOf(op)}, HoldOf(op))
  {
    CommitAccepted(s, op.key, op.hold, op.commit);
  }

  lemma PostTaken(s: State, op: Op)
    requires Sound(s) && op.Post? && Fits(s, op)
    ensures Accepted(s, op) && !Recognised(s, op)
    ensures Later(s, Step(s, op), {KeyOf(op)}, {})
  {
    PairAccepted(s, op.key, UNSETTLED, op.entries[1].account, op.entries[0].amount);
    PairMoves(s, op.key, UNSETTLED, op.entries[1].account, op.entries[0].amount);
  }

  lemma FitOrderly(s: State, op: Op)
    requires Orderly(s) && FillOp(op) && Fits(s, op)
    ensures Orderly(Step(s, op))
  {
    StepOrderly(s, op);
  }

  /** Operations that use different keys and draw on different holds. */
  predicate Apart(ops: seq<Op>) {
    forall i, j :: 0 <= i < j < |ops| ==> KeyOf(ops[i]) != KeyOf(ops[j]) && HoldOf(ops[i]) !! HoldOf(ops[j])
  }

  function KeysOf(ops: seq<Op>): set<Key> { set i | 0 <= i < |ops| :: KeyOf(ops[i]) }

  function HoldsOf(ops: seq<Op>): set<nat> { set i, h | 0 <= i < |ops| && h in HoldOf(ops[i]) :: h }

  /** Operations that fit one ledger and are apart are all taken, one after the other. */
  lemma {:induction false} AllTaken(s: State, ops: seq<Op>)
    requires Orderly(s) && AllFillOps(ops) && Apart(ops) && forall i :: 0 <= i < |ops| ==> Fits(s, ops[i])
    ensures AllNew(s, ops) && Orderly(Run(s, ops)) && Later(s, Run(s, ops), KeysOf(ops), HoldsOf(ops))
  {
    if ops != [] {
      var n := |ops| - 1;
      AllTaken(s, ops[..n]);
      LastTaken(s, Run(s, ops[..n]), ops);
    }
  }

  lemma LastTaken(s: State, t: State, ops: seq<Op>)
    requires ops != [] && Orderly(t) && AllFillOps(ops) && Apart(ops) && Fits(s, ops[|ops| - 1])
    requires Later(s, t, KeysOf(ops[..|ops| - 1]), HoldsOf(ops[..|ops| - 1]))
    ensures var op := ops[|ops| - 1];
            && Accepted(t, op) && !Recognised(t, op) && Orderly(Step(t, op))
            && Later(s, Step(t, op), KeysOf(ops), HoldsOf(ops))
  {
    var op := ops[|ops| - 1];
    FitsLater(s, t, KeysOf(ops[..|ops| - 1]), HoldsOf(ops[..|ops| - 1]), op);
    if op.Commit? { CommitTaken(t, op); } else { PostTaken(t, op); }
    FitOrderly(t, op);
    StillLater(s, t, Step(t, op), ops);
  }

  lemma StillLater(s: State, t: State, u: State, ops: seq<Op>)
    requires ops != [] && Later(s, t, KeysOf(ops[..|ops| - 1]), HoldsOf(ops[..|ops| - 1]))
    requires var op := ops[|ops| - 1]; Later(t, u, {KeyOf(op)}, HoldOf(op))
    ensures Later(s, u, KeysOf(ops), HoldsOf(ops))
  {
    var n := |ops| - 1;
    assert KeysOf(ops[..n]) <= KeysOf(ops) && KeyOf(ops[n]) in KeysOf(ops) by {
      forall key | key in KeysOf(ops[..n]) ensures key in KeysOf(ops) {
        var i :| 0 <= i < n && KeyOf(ops[..n][i]) == key;
        assert KeyOf(ops[i]) == key;
      }
    }
    assert HoldsOf(ops[..n]) <= HoldsOf(ops) && HoldOf(ops[n]) <= HoldsOf(ops) by {
      forall h | h in HoldsOf(ops[..n]) ensures h in HoldsOf(ops) {
        var i :| 0 <= i < n && h in HoldOf(ops[..n][i]);
        assert h in HoldOf(ops[i]);
      }
    }
  }

  /** Everything a party needs to be posted: keys nobody used, a hold that can pay for what it opens, its accounts. */
  predicate PartyReady(s: State, c: Contract, o: Order, fill: nat, maker: bool, price: int, count: int, opening: int) {
    && FillHoldKey(fill, maker) !in s.ops && FillCloseKey(fill, maker) !in s.keys
    && UNSETTLED in s.accounts && Cash(o.user) in s.accounts
    && PartyOps(c, o, fill, maker, price, count, opening).Some?
    && (opening > 0 ==> o.hold.value < |s.holds| && s.holds[o.hold.value].active
                        && CommitOf(c, o, price, opening) <= s.holds[o.hold.value].Remaining())
  }

  /** The party's postings fit the ledger, draw on no hold but the party's own, and are made under its own keys. */
  lemma PartyFits(s: State, c: Contract, o: Order, fill: nat, maker: bool, price: int, count: int, opening: int)
    requires PartyReady(s, c, o, fill, maker, price, count, opening)
    ensures var ops := PartyOps(c, o, fill, maker, price, count, opening).value;
            && AllFillOps(ops) && Apart(ops)
            && forall i :: 0 <= i < |ops| ==>
                             && Fits(s, ops[i])
                             && (KeyOf(ops[i]) == FillHoldKey(fill, maker)
                                 || KeyOf(ops[i]) == FillCloseKey(fill, maker))
                             && HoldOf(ops[i]) <= if opening > 0 then {o.hold.value} else {}
  {
    PartyFillOps(c, o, fill, maker, price, count, opening);
  }

  /**
    A fill posted for the first time, with holds that can pay for what its parties open, is taken
    whole, whoever is the maker.
   */
  lemma TradeTaken(s: State, c: Contract, orders: seq<Order>, trades: seq<Trade>, k: nat)
    requires Orderly(s) && k < |trades| && trades[k].buyer < |orders| && trades[k].seller < |orders|
    requires var t := trades[k];
             && PartyReady(s, c, orders[t.buyer], t.fill, t.buyerIsMaker, t.price, t.count,
                           OpeningOf(orders, trades, k, t.buyer))
             && PartyReady(s, c, orders[t.seller], t.fill, !t.buyerIsMaker, t.price, t.count,
                           OpeningOf(orders, trades, k, t.seller))
             && (OpeningOf(orders, trades, k, t.buyer) > 0 && OpeningOf(orders, trades, k, t.seller) > 0 ==>
                   orders[t.buyer].hold != orders[t.seller].hold)
    ensures TradeOps(c, orders, trades, k).Some? && AllNew(s, TradeOps(c, orders, trades, k).value)
  {
    var t := trades[k];
    var buyer, seller := orders[t.buyer], orders[t.seller];
    var b, d := OpeningOf(orders, trades, k, t.buyer), OpeningOf(orders, trades, k, t.seller);
    if t.buyerIsMaker {
      MakerAndTaker(s, c, buyer, seller, t.fill, t.price, t.count, b, d);
    } else {
      MakerAndTaker(s, c, seller, buyer, t.fill, t.price, t.count, d, b);
    }
  }

  lemma MakerAndTaker(s: State, c: Contract, maker: Order, taker: Order, fill: nat, price: int, count: int, mo: int,
                      to: int)
    requires Orderly(s) && PartyReady(s, c, maker, fill, true, price, count, mo)
             && PartyReady(s, c, taker, fill, false, price, count, to)
    requires mo > 0 && to > 0 ==> maker.hold != taker.hold
    ensures AllNew(s, PartyOps(c, maker, fill, true, price, count, mo).value
                      + PartyOps(c, taker, fill, false, price, count, to).value)
  {
    PartyFits(s, c, maker, fill, true, price, count, mo);
    PartyFits(s, c, taker, fill, false, price, count, to);
    BothTaken(s, PartyOps(c, maker, fill, true, price, count, mo).value,
              PartyOps(c, taker, fill, false, price, count, to).value);
  }

  lemma BothTaken(s: State, first: seq<Op>, second: seq<Op>)
    requires Orderly(s) && AllFillOps(first) && AllFillOps(second) && Apart(first) && Apart(second)
    requires forall i :: 0 <= i < |first| ==> Fits(s, first[i])
    requires forall i :: 0 <= i < |second| ==> Fits(s, second[i])
    requires forall i, j :: 0 <= i < |first| && 0 <= j < |second| ==>
                              KeyOf(first[i]) != KeyOf(second[j]) && HoldOf(first[i]) !! HoldOf(second[j])
    ensures AllNew(s, first + second)
  {
    FillOpsConcat(first, second);
    AllTaken(s, first + second);
  }

  // ---------------------------------------------------------------- every run of trades

  /** What an operation adds to a user's CASH when the ledger carries it out. */
  function CashOf(op: Op, user: UserId): int {
    match op
    case Post(_, entries) => Delta(entries, Cash(user))
    case _ => 0
  }

  function CashSum(ops: seq<Op>, user: UserId): int {
    if ops == [] then 0 else CashSum(ops[..|ops| - 1], user) + CashOf(ops[|ops| - 1], user)
  }

  lemma {:induction false} CashConcat(a: seq<Op>, b: seq<Op>, user: UserId)
    ensures CashSum(a + b, user) == CashSum(a, user) + CashSum(b, user)
  {
    if b == [] {
      assert a + b == a;
    } else {
      CashConcat(a, b[..|b| - 1], user);
      assert (a + b)[..|a + b| - 1] == a + b[..|b| - 1];
    }
  }

  lemma OneCash(op: Op, user: UserId)
    ensures CashSum([op], user) == CashOf(op, user)
  {
    assert [op][..0] == [];
  }

  lemma OpMovesCash(s: State, op: Op, user: UserId)
    requires Sound(s) && FillOp(op) && Accepted(s, op) && !Recognised(s, op)
    ensures Balance(Step(s, op).rows, Cash(user)) == Balance(s.rows, Cash(user)) + CashOf(op, user)
  {
    AcceptedMovesMoneyUnlessRecognised(s, op);
    match op {
      case Post(key, entries) => PostSound(s, key, entries);
      case Commit(key, hold, commit, release, into, extra) =>
        CommitMovesOut(s, key, hold, commit, release, into, extra, Cash(user));
    }
  }

  lemma {:induction false} OpsMoveCash(s: State, ops: seq<Op>, user: UserId)
    requires Sound(s) && AllNew(s, ops) && AllFillOps(ops)
    ensures Balance(Run(s, ops).rows, Cash(user)) == Balance(s.rows, Cash(user)) + CashSum(ops, user)
  {
    if ops != [] {
      var n := |ops| - 1;
      OpsMoveCash(s, ops[..n], user);
      RunSound(s, ops[..n]);
      OpMovesCash(Run(s, ops[..n]), ops[n], user);
    }
  }

  /** A party's postings pay its own user what its closing units are worth, and nobody else. */
  lemma PartyCash(c: Contract, o: Order, fill: nat, maker: bool, price: int, count: int, opening: int, user: UserId)
    requires PartyOps(c, o, fill, maker, price, count, opening).Some?
    ensures CashSum(PartyOps(c, o, fill, maker, price, count, opening).value, user)
            == if user == o.user then CreditOf(c, o, price, count - opening) else 0
  {
    var commit := if opening > 0 then FillHoldAmount(c, o.side, o.action, price, opening).value else 0;
    var credit := CloseCredit(c, o.side, o.action, price, count - opening).value;
    TwoCash(o, fill, maker, commit, credit, opening, user);
  }

  lemma TwoCash(o: Order, fill: nat, maker: bool, commit: int, credit: int, opening: int, user: UserId)
    requires opening > 0 ==> o.hold.Some?
    ensures var first := if opening > 0 then [Commit(FillHoldKey(fill, maker), o.hold.value, commit, 0, UNSETTLED, [])]
            else [];
            var second := if credit > 0 then
                            [Post(FillCloseKey(fill, maker),
                                  [Entry(UNSETTLED, DR, credit), Entry(Cash(o.user), CR, credit)])]
                          else [];
            CashSum(first + second, user) == if user == o.user then Max(credit, 0) else 0
  {
    var first := if opening > 0 then [Commit(FillHoldKey(fill, maker), o.hold.value, commit, 0, UNSETTLED, [])] else [];
    var second := if credit > 0 then
                    [Post(FillCloseKey(fill, maker), [Entry(UNSETTLED, DR, credit), Entry(Cash(o.user), CR, credit)])]
                  else [];
    CashConcat(first, second, user);
    PairBalanced(UNSETTLED, Cash(o.user), credit);
    if opening > 0 { OneCash(first[0], user); }
    if credit > 0 { OneCash(second[0], user); }
  }

  /** What the closing units of one order of a trade are credited. */
  function TradeCredit(c: Contract, orders: seq<Order>, trades: seq<Trade>, k: nat, order: nat): int
    requires k < |trades| && order < |orders|
  {
    CreditOf(c, orders[order], trades[k].price, trades[k].count - OpeningOf(orders, trades, k, order))
  }

  function TradeCommit(c: Contract, orders: seq<Order>, trades: seq<Trade>, k: nat, order: nat): int
    requires k < |trades| && order < |orders|
  {
    CommitOf(c, orders[order], trades[k].price, OpeningOf(orders, trades, k, order))
  }

  predicate Parties(orders: seq<Order>, trades: seq<Trade>) {
    forall k :: 0 <= k < |trades| ==> trades[k].buyer < |orders| && trades[k].seller < |orders|
  }

  /** What a user was credited by the first `n` trades, for every order of the user that closed units. */
  function CreditedTo(c: Contract, orders: seq<Order>, trades: seq<Trade>, n: nat, user: UserId): int
    requires n <= |trades| && Parties(orders, trades)
  {
    if n == 0 then 0
    else
      var t := trades[n - 1];
      CreditedTo(c, orders, trades, n - 1, user)
      + (if orders[t.buyer].user == user then TradeCredit(c, orders, trades, n - 1, t.buyer) else 0)
      + (if orders[t.seller].user == user then TradeCredit(c, orders, trades, n - 1, t.seller) else 0)
  }

  /** What holds committed to the escrow, less what it credited, over the first `n` trades. */
  function EscrowNet(c: Contract, orders: seq<Order>, trades: seq<Trade>, n: nat): int
    requires n <= |trades| && Parties(orders, trades)
  {
    if n == 0 then 0
    else
      var t := trades[n - 1];
      EscrowNet(c, orders, trades, n - 1)
      + TradeCommit(c, orders, trades, n - 1, t.buyer) + TradeCommit(c, orders, trades, n - 1, t.seller)
      - TradeCredit(c, orders, trades, n - 1, t.buyer) - TradeCredit(c, orders, trades, n - 1, t.seller)
  }

  /** The postings of one side of a trade. */
  function SideOps(c: Contract, orders: seq<Order>, trades: seq<Trade>, k: nat, order: nat,
                   maker: bool): Option<seq<Op>>
    requires k < |trades| && order < |orders|
  {
    PartyOps(c, orders[order], trades[k].fill, maker, trades[k].price, trades[k].count,
             OpeningOf(orders, trades, k, order))
  }

  /** What the escrow gains from a party is what the party commits less what it is credited. */
  lemma PartyNet(c: Contract, o: Order, fill: nat, maker: bool, price: int, count: int, opening: int)
    requires PartyOps(c, o, fill, maker, price, count, opening).Some?
    ensures EscrowSum(PartyOps(c, o, fill, maker, price, count, opening).value)
            == CommitOf(c, o, price, opening) - CreditOf(c, o, price, count - opening)
  {
    PartyEscrow(c, o, fill, maker, price, count, opening);
  }

  lemma SideCash(c: Contract, orders: seq<Order>, trades: seq<Trade>, k: nat, order: nat, maker: bool, user: UserId)
    requires k < |trades| && order < |orders| && SideOps(c, orders, trades, k, order, maker).Some?
    ensures CashSum(SideOps(c, orders, trades, k, order, maker).value, user)
            == if orders[order].user == user then TradeCredit(c, orders, trades, k, order) else 0
  {
    var t := trades[k];
    PartyCash(c, orders[order], t.fill, maker, t.price, t.count, OpeningOf(orders, trades, k, order), user);
  }

  lemma SideNet(c: Contract, orders: seq<Order>, trades: seq<Trade>, k: nat, order: nat, maker: bool)
    requires k < |trades| && order < |orders| && SideOps(c, orders, trades, k, order, maker).Some?
    ensures EscrowSum(SideOps(c, orders, trades, k, order, maker).value)
            == TradeCommit(c, orders, trades, k, order) - TradeCredit(c, orders, trades, k, order)
  {
    var t := trades[k];
    PartyNet(c, orders[order], t.fill, maker, t.price, t.count, OpeningOf(orders, trades, k, order));
  }

  lemma TradeIsSides(c: Contract, orders: seq<Order>, trades: seq<Trade>, k: nat)
    requires k < |trades| && trades[k].buyer < |orders| && trades[k].seller < |orders|
    requires TradeOps(c, orders, trades, k).Some?
    ensures var buyer := SideOps(c, orders, trades, k, trades[k].buyer, trades[k].buyerIsMaker);
            var seller := SideOps(c, orders, trades, k, trades[k].seller, !trades[k].buyerIsMaker);
            && buyer.Some? && seller.Some?
            && TradeOps(c, orders, trades, k).value
               == if trades[k].buyerIsMaker then buyer.value + seller.value else seller.value + buyer.value
  {
  }

  lemma EitherCash(first: seq<Op>, second: seq<Op>, maker: bool, user: UserId)
    ensures CashSum(if maker then first + second else second + first, user)
            == CashSum(first, user) + CashSum(second, user)
  {
    CashConcat(first, second, user);
    CashConcat(second, first, user);
  }

  lemma TradeShares(c: Contract, orders: seq<Order>, trades: seq<Trade>, k: nat, user: UserId)
    requires k < |trades| && trades[k].buyer < |orders| && trades[k].seller < |orders|
    requires TradeOps(c, orders, trades, k).Some?
    ensures var t, ops := trades[k], TradeOps(c, orders, trades, k).value;
            && CashSum(ops, user)
               == (if orders[t.buyer].user == user then TradeCredit(c, orders, trades, k, t.buyer) else 0)
                  + (if orders[t.seller].user == user then TradeCredit(c, orders, trades, k, t.seller) else 0)
            && EscrowSum(ops)
               == TradeCommit(c, orders, trades, k, t.buyer) + TradeCommit(c, orders, trades, k, t.seller)
                  - TradeCredit(c, orders, trades, k, t.buyer) - TradeCredit(c, orders, trades, k, t.seller)
  {
    var t := trades[k];
    TradeIsSides(c, orders, trades, k);
    var buyer := SideOps(c, orders, trades, k, t.buyer, t.buyerIsMaker).value;
    var seller := SideOps(c, orders, trades, k, t.seller, !t.buyerIsMaker).value;
    SideCash(c, orders, trades, k, t.buyer, t.buyerIsMaker, user);
    SideCash(c, orders, trades, k, t.seller, !t.buyerIsMaker, user);
    SideNet(c, orders, trades, k, t.buyer, t.buyerIsMaker);
    SideNet(c, orders, trades, k, t.seller, !t.buyerIsMaker);
    EitherCash(buyer, seller, t.buyerIsMaker, user);
    EitherOrder(buyer, seller, t.buyerIsMaker);
  }

  lemma {:induction false} RunShares(c: Contract, orders: seq<Order>, trades: seq<Trade>, n: nat,
                                     postings: seq<seq<Op>>, user: UserId)
    requires Parties(orders, trades) && n == |postings| <= |trades|
    requires forall k :: 0 <= k < n ==> TradeOps(c, orders, trades, k) == Some(postings[k])
    ensures CashSum(Flatten(postings), user) == CreditedTo(c, orders, trades, n, user)
    ensures EscrowTotal(postings) == EscrowNet(c, orders, trades, n)
  {
    if n > 0 {
      RunShares(c, orders, trades, n - 1, postings[..n - 1], user);
      CashConcat(Flatten(postings[..n - 1]), postings[n - 1], user);
      TradeShares(c, orders, trades, n - 1, user);
    }
  }

  /**
    Over any trades, each user's CASH rises by what the user's own closing units are credited, and
    the escrow by what the opening units commit less all those credits: what it loses, the
    closers get.
   */
  lemma ClosersArePaid(c: Contract, orders: seq<Order>, trades: seq<Trade>, s: State, user: UserId)
    requires AllNormalised(orders, trades) && c.kind != OtherKind && Postable(c, orders, trades)
    requires Sound(s) && AllNew(s, Flatten(Postings(c, orders, trades)))
    ensures Parties(orders, trades)
    ensures var t, n := Run(s, Flatten(Postings(c, orders, trades))), |trades|;
            && Balance(t.rows, Cash(user)) == Balance(s.rows, Cash(user)) + CreditedTo(c, orders, trades, n, user)
            && Balance(t.rows, UNSETTLED) == Balance(s.rows, UNSETTLED) + EscrowNet(c, orders, trades, n)
  {
    var postings := Postings(c, orders, trades);
    forall k: nat | k < |trades| ensures AllFillOps(postings[k]) {
      assert Normalised(orders, trades[k]);
      TradeFillOps(c, orders, trades, k);
    }
    FlattenFillOps(postings);
    OpsMoveCash(s, Flatten(postings), user);
    RunShares(c, orders, trades, |trades|, postings, user);
    EscrowFollowsSplits(c, orders, trades, s);
  }

  /** What the users are credited, added up. */
  function CreditedAll(c: Contract, orders: seq<Order>, trades: seq<Trade>, n: nat, users: nat): int
    requires n <= |trades| && Parties(orders, trades)
  {
    if users == 0 then 0
    else CreditedAll(c, orders, trades, n, users - 1) + CreditedTo(c, orders, trades, n, users - 1)
  }

  function CommittedAll(c: Contract, orders: seq<Order>, trades: seq<Trade>, n: nat): int
    requires n <= |trades| && Parties(orders, trades)
  {
    if n == 0 then 0
    else CommittedAll(c, orders, trades, n - 1) + TradeCommit(c, orders, trades, n - 1, trades[n - 1].buyer)
         + TradeCommit(c, orders, trades, n - 1, trades[n - 1].seller)
  }

  lemma {:induction false} OneMoreCredited(c: Contract, orders: seq<Order>, trades: seq<Trade>, n: nat, users: nat)
    requires n < |trades| && Parties(orders, trades)
    ensures var t := trades[n];
            CreditedAll(c, orders, trades, n + 1, users)
            == CreditedAll(c, orders, trades, n, users)
               + (if orders[t.buyer].user < users then TradeCredit(c, orders, trades, n, t.buyer) else 0)
               + (if orders[t.seller].user < users then TradeCredit(c, orders, trades, n, t.seller) else 0)
  {
    if users > 0 { OneMoreCredited(c, orders, trades, n, users - 1); }
  }

  lemma {:induction false} NothingCredited(c: Contract, orders: seq<Order>, trades: seq<Trade>, users: nat)
    requires Parties(orders, trades)
    ensures CreditedAll(c, orders, trades, 0, users) == 0
  {
    if users > 0 { NothingCredited(c, orders, trades, users - 1); }
  }

  lemma OneMoreNet(c: Contract, orders: seq<Order>, trades: seq<Trade>, n: nat)
    requires n < |trades| && Parties(orders, trades)
    ensures var t := trades[n];
            EscrowNet(c, orders, trades, n + 1) - EscrowNet(c, orders, trades, n)
            == CommittedAll(c, orders, trades, n + 1) - CommittedAll(c, orders, trades, n)
               - TradeCredit(c, orders, trades, n, t.buyer) - TradeCredit(c, orders, trades, n, t.seller)
  {
  }

  /** The escrow's change is what was committed less what all users together were credited. */
  lemma {:induction false} EscrowPaysClosers(c: Contract, orders: seq<Order>, trades: seq<Trade>, n: nat, users: nat)
    requires n <= |trades| && Parties(orders, trades) && UsersBelow(orders, users)
    ensures EscrowNet(c, orders, trades, n)
            == CommittedAll(c, orders, trades, n) - CreditedAll(c, orders, trades, n, users)
  {
    if n == 0 {
      NothingCredited(c, orders, trades, users);
    } else {
      EscrowPaysClosers(c, orders, trades, n - 1, users);
      OneMoreCredited(c, orders, trades, n - 1, users);
      OneMoreNet(c, orders, trades, n - 1);
    }
  }
}
