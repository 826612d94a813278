/**
  Cross-margin execution on one event: what reserving an order, releasing one, applying a fill
  and reconciling a margin account do to the margin tables and the ledger.

  A request first plans one ledger posting and one table update from the state it loads under
  the users' locks. Then the ledger posts, and only after that the tables commit; a crash in
  between leaves the ledger ahead.
 */
module MarginExec {
  import opened Common
  import opened Payoffs
  import opened WorstCase
  import opened Engine
  import opened Portfolio
  import opened Ledger

  /** The event whose accounts are modelled. */
  const EVENT: nat := 0

  datatype Setup = Setup(book: EventBook, portfolio: bool, enabled: bool)

  /** A row of `risk.margin_orders`: `remaining` is signed, positive when the order buys. */
  datatype Reserved = Reserved(id: nat, ticker: nat, remaining: int, price: int, lastSeq: int)

  /** One account's margin state on the event; tickers are indexes into the event's book. */
  datatype Acct = Acct(net: seq<int>, orders: seq<Reserved>, posted: int, version: nat)

  /** The margin tables, one account per user, and the ledger. `seen` is history: the order ids ever reserved. */
  datatype World = World(accts: seq<Acct>, applied: set<nat>, ledger: State, seen: set<nat>)

  datatype Request =
    | Reserve(user: nat, order: nat, ticker: nat, side: Side, action: Action, price: int, count: int)
    | ReleaseOrder(user: nat, order: nat, keep: int, globalSeq: int)
    | Fill(fill: nat, globalSeq: int, ticker: nat, price: int, count: int,
           maker: nat, makerOrder: nat, makerSide: Side, makerAction: Action,
           taker: nat, takerOrder: nat, takerSide: Side, takerAction: Action)
    | Reconcile(user: nat)

  datatype Reply =
    | Approved(before: int, after: int)
    | AlreadyReleased
    | Applied
    | Duplicate
    | Reconciled
    | InStep
    | RejectedNotEnabled
    | RejectedNotPortfolio
    | RejectedIneligible
    | RejectedStale
    | RejectedInsufficient(before: int, after: int)
    | BadArgument
    | NotFound
    | Precondition
    | LedgerFailed

  /** Either an answer that changes nothing, or one ledger posting followed by one table update. */
  datatype Plan =
    | Stop(reply: Reply)
    | Go(key: Key, entries: seq<Entry>, accts: seq<Acct>, applied: set<nat>, seen: set<nat>, reply: Reply,
         refused: Reply)

  // ---------------------------------------------------------------- margin of an account

  function Working(orders: seq<Reserved>): (r: seq<WorkingOrder>)
    ensures |r| == |orders|
  {
    seq(|orders|, j requires 0 <= j < |orders| => WorkingOrder(orders[j].ticker, orders[j].remaining, orders[j].price))
  }

  predicate Priceable(book: EventBook, a: Acct) {
    |a.net| == |book.instruments| && AllAcceptable(book, Working(a.orders))
  }

  /** `margin_for`, when the engine accepts the orders. */
  ghost function Required(book: EventBook, a: Acct): (m: int)
    requires book.Valid() && Priceable(book, a)
    ensures IsMargin(book, a.net, PriceOrders(book, Working(a.orders)), m) && m >= 0
  {
    MarginOf(book, a.net, PriceOrders(book, Working(a.orders)))
  }

  // ---------------------------------------------------------------- orders of an account

  predicate Has(orders: seq<Reserved>, id: nat) { exists j :: 0 <= j < |orders| && orders[j].id == id }

  /** The index of the first order with this id. */
  function Find(orders: seq<Reserved>, id: nat): (j: nat)
    requires Has(orders, id)
    ensures j < |orders| && orders[j].id == id && forall k :: 0 <= k < j ==> orders[k].id != id
  {
    if orders[0].id == id then 0
    else assert Has(orders[1..], id) by {
           var j :| 0 <= j < |orders| && orders[j].id == id;
           assert orders[1..][j - 1].id == id;
         }
         1 + Find(orders[1..], id)
  }

  /** The order with `keep` units left on its side, or dropped when `keep` is not positive. */
  function Keep(orders: seq<Reserved>, j: nat, keep: int, seqNo: int): seq<Reserved>
    requires j < |orders|
  {
    if keep <= 0 then orders[..j] + orders[j + 1..]
    else orders[j := orders[j].(remaining := keep * Sign(orders[j].remaining),
                                             lastSeq := Max(orders[j].lastSeq, seqNo))]
  }

  // ---------------------------------------------------------------- postings

  /** CASH to MARGIN when `delta` is positive, back when negative. */
  function MoveEntries(user: nat, delta: int): seq<Entry> {
    if delta == 0 then []
    else if delta > 0 then [Entry(Cash(user), DR, delta), Entry(Margin(user, EVENT), CR, delta)]
    else [Entry(Margin(user, EVENT), DR, -delta), Entry(Cash(user), CR, -delta)]
  }

  datatype FillParty = FillParty(user: nat, marginDelta: int, premiumIn: int, premiumOut: int)

  /** The accounts of the parties, each once, in the order they are first met. */
  function Touched(parties: seq<FillParty>): seq<Account> {
    if parties == [] then []
    else
      var before := Touched(parties[..|parties| - 1]);
      var user := parties[|parties| - 1].user;
      if Margin(user, EVENT) in before then before else before + [Margin(user, EVENT), Cash(user)]
  }

  /** What one party does to an account. */
  function PartyDelta(p: FillParty, a: Account): int {
    if a == Margin(p.user, EVENT) then p.marginDelta
    else if a == Cash(p.user) then p.premiumIn - p.premiumOut - p.marginDelta
    else 0
  }

  function NetOf(parties: seq<FillParty>, a: Account): int {
    if parties == [] then 0 else NetOf(parties[..|parties| - 1], a) + PartyDelta(parties[|parties| - 1], a)
  }

  /** One entry per account whose net movement is not zero. */
  function NetEntries(parties: seq<FillParty>, accounts: seq<Account>): seq<Entry> {
    if accounts == [] then []
    else
      var a := accounts[|accounts| - 1];
      var net := NetOf(parties, a);
      NetEntries(parties, accounts[..|accounts| - 1])
      + if net > 0 then [Entry(a, CR, net)] else if net < 0 then [Entry(a, DR, -net)] else []
  }

  function ClearingPair(premium: int): seq<Entry> {
    if premium > 0 then [Entry(Clearing(EVENT), CR, premium), Entry(Clearing(EVENT), DR, premium)] else []
  }

  /** `fill_entries`: refuses a fill that does not net to zero. */
  function FillEntries(parties: seq<FillParty>, premium: int): Result<seq<Entry>, ()> {
    var entries := NetEntries(parties, Touched(parties));
    if TotalOf(entries) != 0 then Err(()) else Ok(entries + ClearingPair(premium))
  }

  // ---------------------------------------------------------------- plans

  ghost function PlanReserve(setup: Setup, w: World, r: Request): Plan
    requires setup.book.Valid() && r.Reserve?
  {
    if r.user >= |w.accts| || r.count <= 0 || !ValidSideAction(r.side, r.action) then Stop(BadArgument)
    else if !setup.enabled then Stop(RejectedNotEnabled)
    else if r.ticker >= |setup.book.instruments| then Stop(NotFound)
    else if !setup.portfolio then Stop(RejectedNotPortfolio)
    else
      var a := w.accts[r.user];
      if Has(a.orders, r.order) then Stop(Approved(a.posted, a.posted))
      else
        var (qty, price) := StoredUnitOrder(r.side, r.action, r.price, r.count);
        var b := a.(orders := a.orders + [Reserved(r.order, r.ticker, qty, price, 0)]);
        if !Priceable(setup.book, b) then Stop(RejectedIneligible)
        else
          var after := Required(setup.book, b);
          Go(ReserveKey(r.order), MoveEntries(r.user, after - a.posted),
             w.accts[r.user := b.(posted := after, version := a.version + 1)], w.applied, w.seen + {r.order},
             Approved(a.posted, after), RejectedInsufficient(a.posted, after))
  }

  ghost function PlanRelease(setup: Setup, w: World, r: Request): Plan
    requires setup.book.Valid() && r.ReleaseOrder?
  {
    if r.user >= |w.accts| || r.keep < 0 then Stop(BadArgument)
    else
      var a := w.accts[r.user];
      if !Has(a.orders, r.order) then Stop(AlreadyReleased)
      else
        var j := Find(a.orders, r.order);
        var o := a.orders[j];
        if r.globalSeq < o.lastSeq then Stop(RejectedStale)
        else
          var b := a.(orders := Keep(a.orders, j, Min(r.keep, Abs(o.remaining)), o.lastSeq));
          if !Priceable(setup.book, b) then Stop(Precondition)
          else
            var after := Required(setup.book, b);
            Go(ReleaseKey(r.order, a.version), MoveEntries(r.user, after - a.posted),
               w.accts[r.user := b.(posted := after, version := a.version + 1)], w.applied, w.seen,
               Approved(a.posted, after), Precondition)
  }

  /** One leg of a fill: the position moves, and the order, if still reserved, shrinks. */
  function ApplyLeg(a: Acct, ticker: nat, order: nat, qty: int, count: int, globalSeq: int): Acct
    requires ticker < |a.net|
  {
    var b := a.(net := a.net[ticker := a.net[ticker] + qty]);
    if !Has(b.orders, order) then b
    else
      var j := Find(b.orders, order);
      b.(orders := Keep(b.orders, j, Abs(b.orders[j].remaining) - count, globalSeq))
  }

  function MakerQty(r: Request): int
    requires r.Fill?
  {
    StoredUnitOrder(r.makerSide, r.makerAction, r.price, r.count).0
  }

  function TakerQty(r: Request): int
    requires r.Fill?
  {
    StoredUnitOrder(r.takerSide, r.takerAction, r.price, r.count).0
  }

  predicate Sized(book: EventBook, accts: seq<Acct>) {
    forall u :: 0 <= u < |accts| ==> |accts[u].net| == |book.instruments|
  }

  /** Both legs, maker first; the same account when maker and taker are one user. */
  function AfterLegs(accts: seq<Acct>, r: Request): (t: seq<Acct>)
    requires r.Fill? && r.maker < |accts| && r.taker < |accts|
    requires r.ticker < |accts[r.maker].net| && r.ticker < |accts[r.taker].net|
    ensures |t| == |accts|
  {
    var s := accts[r.maker := ApplyLeg(accts[r.maker], r.ticker, r.makerOrder, MakerQty(r), r.count, r.globalSeq)];
    s[r.taker := ApplyLeg(s[r.taker], r.ticker, r.takerOrder, TakerQty(r), r.count, r.globalSeq)]
  }

  function LegPremium(qty: int, premium: int): (int, int) { if qty > 0 then (0, premium) else (premium, 0) }

  /** The user's party entry: its margin change and the premiums of its legs. */
  function PartyOf(r: Request, user: nat, marginDelta: int, premium: int): FillParty
    requires r.Fill?
  {
    var (makerIn, makerOut) := if user == r.maker then LegPremium(MakerQty(r), premium) else (0, 0);
    var (takerIn, takerOut) := if user == r.taker then LegPremium(TakerQty(r), premium) else (0, 0);
    FillParty(user, marginDelta, makerIn + takerIn, makerOut + takerOut)
  }

  /** The users of a fill, sorted and without repetition. */
  function FillUsers(r: Request): seq<nat>
    requires r.Fill?
  {
    if r.maker == r.taker then [r.maker] else if r.maker < r.taker then [r.maker, r.taker] else [r.taker, r.maker]
  }

  /** The account after the fill, at its new margin. */
  ghost function Remargined(book: EventBook, a: Acct): Acct
    requires book.Valid() && Priceable(book, a)
  {
    a.(posted := Required(book, a), version := a.version + 1)
  }

  ghost function FillParties(book: EventBook, before: seq<Acct>, after: seq<Acct>, r: Request,
                             premium: int): seq<FillParty>
    requires book.Valid() && r.Fill? && r.maker < |before| == |after| && r.taker < |before|
    requires Priceable(book, after[r.maker]) && Priceable(book, after[r.taker])
  {
    var users := FillUsers(r);
    var first := PartyOf(r, users[0], Required(book, after[users[0]]) - before[users[0]].posted, premium);
    if |users| == 1 then [first]
    else [first, PartyOf(r, users[1], Required(book, after[users[1]]) - before[users[1]].posted, premium)]
  }

  ghost function PlanFill(setup: Setup, w: World, r: Request): Plan
    requires setup.book.Valid() && r.Fill? && Sized(setup.book, w.accts)
  {
    var book := setup.book;
    if r.maker >= |w.accts| || r.taker >= |w.accts| || r.count <= 0 || r.price <= 0
       || !ValidSideAction(r.makerSide, r.makerAction) || !ValidSideAction(r.takerSide, r.takerAction)
    then Stop(BadArgument)
    else if r.ticker >= |book.instruments| then Stop(NotFound)
    else if !setup.portfolio then Stop(Precondition)
    else if MakerQty(r) != -TakerQty(r) then Stop(BadArgument)
    else if !book.instruments[r.ticker].Accepts(r.price) then Stop(Precondition)
    else if r.fill in w.applied then Stop(Duplicate)
    else
      var premium := book.instruments[r.ticker].payoff.ValueOfPrice(r.price) * r.count;
      var s := AfterLegs(w.accts, r);
      if !Priceable(book, s[r.maker]) || !Priceable(book, s[r.taker]) then Stop(Precondition)
      else
        var entries := FillEntries(FillParties(book, w.accts, s, r, premium), premium);
        if entries.Err? then Stop(Precondition)
        else
          var t := s[r.maker := Remargined(book, s[r.maker])];
          Go(FillKey(r.fill), entries.value, t[r.taker := Remargined(book, s[r.taker])],
             w.applied + {r.fill}, w.seen, Applied, Precondition)
  }

  /** The reconciler's second sighting: move the difference between the tables and the ledger. */
  function PlanReconcile(w: World, r: Request): Plan
    requires r.Reconcile?
  {
    if r.user >= |w.accts| then Stop(BadArgument)
    else
      var a := w.accts[r.user];
      var current := Balance(w.ledger.rows, Margin(r.user, EVENT));
      if a.posted == current then Stop(InStep)
      else
        Go(ReconcileKey(r.user, a.version, current), MoveEntries(r.user, a.posted - current),
           w.accts, w.applied, w.seen, Reconciled, Precondition)
  }

  ghost function PlanOf(setup: Setup, w: World, r: Request): Plan
    requires setup.book.Valid() && Sized(setup.book, w.accts)
  {
    match r
    case Reserve(_, _, _, _, _, _, _) => PlanReserve(setup, w, r)
    case ReleaseOrder(_, _, _, _) => PlanRelease(setup, w, r)
    case Fill(_, _, _, _, _, _, _, _, _, _, _, _, _) => PlanFill(setup, w, r)
    case Reconcile(_) => PlanReconcile(w, r)
  }

  // ---------------------------------------------------------------- execution

  /** `post_ledger`: nothing is posted for an empty plan. */
  function LedgerStep(ledger: State, key: Key, entries: seq<Entry>): (State, Result<(), Error>) {
    if entries == [] then (ledger, Ok(()))
    else
      var (after, r) := PostTransaction(ledger, key, entries);
      (after, if r.Ok? then Ok(()) else Err(r.error))
  }

  /** The whole request: ledger first, then the tables. A refused posting changes nothing. */
  function Execute(w: World, plan: Plan): (World, Reply) {
    if plan.Stop? then (w, plan.reply)
    else
      var (ledger, r) := LedgerStep(w.ledger, plan.key, plan.entries);
      if r.Ok? then (World(plan.accts, plan.applied, ledger, plan.seen), plan.reply)
      else (w, if r.error == InsufficientFunds then plan.refused else LedgerFailed)
  }

  /** A crash after the ledger post: the tables roll back. */
  function Crash(w: World, plan: Plan): World {
    if plan.Stop? then w else w.(ledger := LedgerStep(w.ledger, plan.key, plan.entries).0)
  }
}
