/**
  What every run of reserves, releases, fills and other ledger activity keeps: each MARGIN
  balance is what the account must lock, CLEARING is empty, user money is never negative and
  open interest nets to zero. No fill of a reserved order is ever refused for money.
 */
module MarginRuns {
  import opened Common
  import opened Payoffs
  import opened Stress
  import opened WorstCase
  import opened Ledger
  import opened LedgerRuns
  import opened MarginExec
  import opened FillPostings

  /** The positions of the first `n` accounts in one contract, added up. */
  function OpenInterest(accts: seq<Acct>, ticker: nat, n: nat): int
    requires n <= |accts| && forall u :: 0 <= u < |accts| ==> ticker < |accts[u].net|
  {
    if n == 0 then 0 else OpenInterest(accts, ticker, n - 1) + accts[n - 1].net[ticker]
  }

  predicate IdsSeen(accts: seq<Acct>, seen: set<nat>) {
    forall u, j :: 0 <= u < |accts| && 0 <= j < |accts[u].orders| ==> accts[u].orders[j].id in seen
  }

  predicate IdsUnique(accts: seq<Acct>) {
    forall u, j, u', j' | 0 <= u < |accts| && 0 <= j < |accts[u].orders| && 0 <= u' < |accts|
        && 0 <= j' < |accts[u'].orders| ::
      accts[u].orders[j].id == accts[u'].orders[j'].id ==> u == u' && j == j'
  }

  /** Whoever has order `o` reserved is past version `v`. */
  predicate VersionsAbove(accts: seq<Acct>, o: nat, v: nat) {
    forall u, j :: 0 <= u < |accts| && 0 <= j < |accts[u].orders| ==>
                     (accts[u].orders[j].id == o ==> v < accts[u].version)
  }

  /** No key of a posting still to come has been used. */
  ghost predicate KeysFresh(w: World) {
    && (forall o: nat :: ReserveKey(o) in w.ledger.keys ==> o in w.seen)
    && (forall o: nat, v: nat :: ReleaseKey(o, v) in w.ledger.keys ==> o in w.seen && VersionsAbove(w.accts, o, v))
    && (forall f: nat :: FillKey(f) in w.ledger.keys ==> f in w.applied)
    && (forall u: nat :: SettleKey(u) !in w.ledger.keys)
  }

  /** The account's tables and its MARGIN balance agree with what it must lock. */
  ghost predicate Funded(book: EventBook, ledger: State, user: nat, a: Acct)
    requires book.Valid()
  {
    && Priceable(book, a) && a.posted == Required(book, a)
    && Balance(ledger.rows, Margin(user, EVENT)) == a.posted
    && Cash(user) in ledger.accounts
  }

  predicate FlatInterest(book: EventBook, accts: seq<Acct>)
    requires Sized(book, accts)
  {
    forall t :: 0 <= t < |book.instruments| ==> OpenInterest(accts, t, |accts|) == 0
  }

  /** The invariants of the design, as `margin_invariants` checks them, with the required margin. */
  ghost predicate Inv(setup: Setup, w: World) {
    && setup.book.Valid() && Sized(setup.book, w.accts)
    && Sound(w.ledger)
    && (forall u :: 0 <= u < |w.accts| ==> Funded(setup.book, w.ledger, u, w.accts[u]))
    && Balance(w.ledger.rows, Clearing(EVENT)) == 0
    && FlatInterest(setup.book, w.accts)
    && IdsSeen(w.accts, w.seen) && IdsUnique(w.accts) && KeysFresh(w)
  }

  /** The leg's order is still reserved for at least this fill, at a limit no worse than its price. */
  predicate Covered(a: Acct, ticker: nat, order: nat, qty: int, price: int) {
    && Has(a.orders, order)
    && var o := a.orders[Find(a.orders, order)];
       && o.ticker == ticker && Partial(qty, o.remaining)
       && (qty > 0 ==> price <= o.price) && (qty < 0 ==> price >= o.price)
  }

  /**
    What the callers arrange: an order id is not reserved again after it has left, and a fill
    arrives while both of its orders are still reserved (the release worker waits for that).
   */
  predicate Guard(w: World, r: Request) {
    match r
    case Reserve(user, order, _, _, _, _, _) =>
      order !in w.seen || (user < |w.accts| && Has(w.accts[user].orders, order))
    case ReleaseOrder(_, _, _, _) => true
    case Fill(fill, _, ticker, price, _, maker, makerOrder, _, _, taker, takerOrder, _, _) =>
      fill in w.applied
      || (maker < |w.accts| && taker < |w.accts|
          && Covered(w.accts[maker], ticker, makerOrder, MakerQty(r), price)
          && Covered(w.accts[taker], ticker, takerOrder, TakerQty(r), price))
    case Reconcile(_) => true
  }

  // ---------------------------------------------------------------- one account's orders

  /** Keeping less of an order is what module Stress calls replacing it by its rest. */
  lemma KeepIsReplace(book: EventBook, orders: seq<Reserved>, j: nat, keep: int, seqNo: int)
    requires AllAcceptable(book, Working(orders)) && j < |orders| && keep <= Abs(orders[j].remaining)
    ensures AllAcceptable(book, Working(Keep(orders, j, keep, seqNo)))
    ensures var priced := PriceOrders(book, Working(orders));
            var f := orders[j].remaining - Max(0, keep) * Sign(orders[j].remaining);
            && Partial(f, orders[j].remaining)
            && PriceOrders(book, Working(Keep(orders, j, keep, seqNo))) == Replace(priced, j, Rest(priced[j], f))
  {
    var q := orders[j].remaining;
    assert Acceptable(book, Working(orders)[j]);
    var kept := Keep(orders, j, keep, seqNo);
    var f := q - Max(0, keep) * Sign(q);
    assert Max(0, keep) * Sign(q) == if q > 0 then Max(0, keep) else -Max(0, keep);
    forall k | 0 <= k < |kept| ensures Acceptable(book, Working(kept)[k]) {
      if keep <= 0 {
        assert kept[k] == if k < j then orders[k] else orders[k + 1];
        assert Acceptable(book, Working(orders)[if k < j then k else k + 1]);
      } else {
        assert Acceptable(book, Working(orders)[k]);
      }
    }
  }

  lemma RequiredIs(book: EventBook, a: Acct, m: int)
    requires book.Valid() && Priceable(book, a)
    requires IsMargin(book, a.net, PriceOrders(book, Working(a.orders)), m)
    ensures Required(book, a) == m
  {
    MarginUnique(book, a.net, PriceOrders(book, Working(a.orders)), m, Required(book, a));
  }

  /** Keeping less of one order never raises what the account must lock. */
  lemma KeepLowersRequired(book: EventBook, a: Acct, j: nat, keep: int, seqNo: int)
    requires book.Valid() && Priceable(book, a) && j < |a.orders| && keep <= Abs(a.orders[j].remaining)
    ensures var b := a.(orders := Keep(a.orders, j, keep, seqNo));
            Priceable(book, b) && Required(book, b) <= Required(book, a)
  {
    KeepIsReplace(book, a.orders, j, keep, seqNo);
    var b := a.(orders := Keep(a.orders, j, keep, seqNo));
    var f := a.orders[j].remaining - Max(0, keep) * Sign(a.orders[j].remaining);
    ReleaseLowersMargin(book, a.net, PriceOrders(book, Working(a.orders)), j, f, Required(book, a), Required(book, b));
  }

  /** The leg's price is no worse than its order's limit. */
  lemma PaidWithinLimit(p: Payoff, qty: int, price: int, limit: int)
    requires p.tickValue >= 0 && (qty > 0 ==> price <= limit) && (qty < 0 ==> price >= limit)
    ensures qty * p.ValueOfPrice(price) <= qty * p.ValueOfPrice(limit)
  {
    if qty > 0 {
      PriceMonotone(p, price, limit);
      ScaleUp(qty, p.ValueOfPrice(price), p.ValueOfPrice(limit));
    } else if qty < 0 {
      PriceMonotone(p, limit, price);
      ScaleDown(qty, p.ValueOfPrice(price), p.ValueOfPrice(limit));
    }
  }

  /** A covered leg takes its order to what module Stress calls its rest. */
  lemma LegIsRest(book: EventBook, a: Acct, ticker: nat, order: nat, qty: int, price: int, count: int, seqNo: int)
    requires book.Valid() && Priceable(book, a) && ticker < |book.instruments|
    requires Covered(a, ticker, order, qty, price) && Abs(qty) == count && count > 0
    ensures var b, j := ApplyLeg(a, ticker, order, qty, count, seqNo), Find(a.orders, order);
            && Priceable(book, b) && b.net == a.net[ticker := a.net[ticker] + qty]
            && var priced := PriceOrders(book, Working(a.orders));
               PriceOrders(book, Working(b.orders)) == Replace(priced, j, Rest(priced[j], qty))
  {
    var j := Find(a.orders, order);
    var o := a.orders[j];
    KeepIsReplace(book, a.orders, j, Abs(o.remaining) - count, seqNo);
    assert o.remaining - Max(0, Abs(o.remaining) - count) * Sign(o.remaining) == qty;
  }

  /**
    A covered leg: the new requirement and the premium the leg pays (negative when it is
    received) stay within the old requirement.
   */
  lemma LegNeedsNoNewCash(book: EventBook, a: Acct, ticker: nat, order: nat, qty: int, price: int, count: int,
                          seqNo: int)
    requires book.Valid() && Priceable(book, a) && ticker < |book.instruments|
    requires Covered(a, ticker, order, qty, price) && Abs(qty) == count && count > 0
    ensures var b := ApplyLeg(a, ticker, order, qty, count, seqNo);
            && Priceable(book, b)
            && Required(book, b) + qty * book.instruments[ticker].payoff.ValueOfPrice(price) <= Required(book, a)
  {
    LegIsRest(book, a, ticker, order, qty, price, count, seqNo);
    var j := Find(a.orders, order);
    var b, priced := ApplyLeg(a, ticker, order, qty, count, seqNo), PriceOrders(book, Working(a.orders));
    var payoff := book.instruments[ticker].payoff;
    assert ValidateInstrument(book.kind, book.instruments[ticker]) == None;
    PaidWithinLimit(payoff, qty, price, a.orders[j].price);
    FillNeedsNoNewCash(book, a.net, priced, j, qty, payoff.ValueOfPrice(price), Required(book, a), Required(book, b));
  }

  lemma ScaleUp(q: int, a: int, b: int)
    requires q >= 0 && a <= b
    ensures q * a <= q * b
  {
  }

  lemma ScaleDown(q: int, a: int, b: int)
    requires q <= 0 && a >= b
    ensures q * a <= q * b
  {
  }

  /** Another order of the same account stays covered when one leg is applied. */
  lemma OtherLegStaysCovered(a: Acct, ticker: nat, order: nat, qty: int, count: int, seqNo: int,
                             other: nat, otherQty: int, price: int)
    requires ticker < |a.net| && order != other && Has(a.orders, order) && Covered(a, ticker, other, otherQty, price)
    requires forall j, k :: 0 <= j < |a.orders| && 0 <= k < |a.orders| && a.orders[j].id == a.orders[k].id ==> j == k
    ensures Covered(ApplyLeg(a, ticker, order, qty, count, seqNo), ticker, other, otherQty, price)
  {
    var j, i := Find(a.orders, order), Find(a.orders, other);
    var kept := ApplyLeg(a, ticker, order, qty, count, seqNo).orders;
    var keep := Abs(a.orders[j].remaining) - count;
    var i' := if keep <= 0 && j < i then i - 1 else i;
    assert kept[i'] == a.orders[i];
    var k := Find(kept, other);
    assert kept[k] == a.orders[i] by {
      var k' := if keep <= 0 && k >= j then k + 1 else k;
      assert a.orders[k'].id == other;
      assert k' == i;
    }
  }

  // ---------------------------------------------------------------- one account changes

  lemma {:induction false} InterestUpdate(accts: seq<Acct>, ticker: nat, n: nat, u: nat, b: Acct)
    requires n <= |accts| && u < |accts| && forall k :: 0 <= k < |accts| ==> ticker < |accts[k].net|
    requires ticker < |b.net|
    ensures OpenInterest(accts[u := b], ticker, n)
            == OpenInterest(accts, ticker, n) + if u < n then b.net[ticker] - accts[u].net[ticker] else 0
  {
    if n > 0 { InterestUpdate(accts, ticker, n - 1, u, b); }
  }

  /** The ledger after `delta` moved from the user's CASH to its MARGIN. */
  ghost predicate Moved(s: State, t: State, user: nat, delta: int) {
    && Sound(t) && s.accounts <= t.accounts
    && forall a :: Balance(t.rows, a) == Balance(s.rows, a)
                   + if a == Margin(user, EVENT) then delta else if a == Cash(user) then -delta else 0
  }

  /** Re-margining one account from a matching ledger move keeps the money invariants. */
  lemma AccountMoved(setup: Setup, w: World, user: nat, b: Acct, t: State)
    requires Inv(setup, w) && user < |w.accts|
    requires b.net == w.accts[user].net && Priceable(setup.book, b) && b.posted == Required(setup.book, b)
    requires Moved(w.ledger, t, user, b.posted - w.accts[user].posted)
    ensures var accts := w.accts[user := b];
            && Sized(setup.book, accts) && FlatInterest(setup.book, accts)
            && (forall u :: 0 <= u < |accts| ==> Funded(setup.book, t, u, accts[u]))
            && Balance(t.rows, Clearing(EVENT)) == 0
  {
    var accts := w.accts[user := b];
    forall u | 0 <= u < |accts| ensures Funded(setup.book, t, u, accts[u]) {
      assert Funded(setup.book, w.ledger, u, w.accts[u]);
    }
    forall k | 0 <= k < |setup.book.instruments| ensures OpenInterest(accts, k, |accts|) == 0 {
      InterestUpdate(w.accts, k, |w.accts|, user, b);
    }
  }

  /** The state after a reserve the ledger accepted. */
  lemma ReservedKeepsInv(setup: Setup, w: World, user: nat, order: nat, o: Reserved, b: Acct, t: State)
    requires Inv(setup, w) && user < |w.accts| && order !in w.seen && o.id == order
    requires b.net == w.accts[user].net && b.orders == w.accts[user].orders + [o]
             && b.version == w.accts[user].version + 1
    requires Priceable(setup.book, b) && b.posted == Required(setup.book, b)
    requires Moved(w.ledger, t, user, b.posted - w.accts[user].posted)
    requires t.keys.Keys <= w.ledger.keys.Keys + {ReserveKey(order)}
    ensures Inv(setup, World(w.accts[user := b], w.applied, t, w.seen + {order}))
  {
    AccountMoved(setup, w, user, b, t);
    AppendedIds(w.accts, w.seen, user, b, o);
    AppendedKeys(w, t, user, b, ReserveKey(order), w.accts[user := b], w.seen + {order});
  }

  /** What the plan of a reserve is, without its definition. */
  ghost predicate PlansReserve(setup: Setup, w: World, r: Request, plan: Plan)
    requires setup.book.Valid() && r.Reserve?
  {
    && plan.Go? && r.user < |w.accts| && |plan.accts| == |w.accts|
    && var a, b := w.accts[r.user], plan.accts[r.user];
       && plan.key == ReserveKey(r.order) && plan.entries == MoveEntries(r.user, b.posted - a.posted)
       && plan.accts == w.accts[r.user := b] && plan.applied == w.applied && plan.seen == w.seen + {r.order}
       && |b.orders| == |a.orders| + 1 && b.orders == a.orders + [b.orders[|a.orders|]]
       && b.orders[|a.orders|].id == r.order
       && b.net == a.net && b.version == a.version + 1
       && Priceable(setup.book, b) && b.posted == Required(setup.book, b)
       && !Has(a.orders, r.order)
       && plan.reply == Approved(a.posted, b.posted) && plan.refused == RejectedInsufficient(a.posted, b.posted)
  }

  lemma ReservePlanned(setup: Setup, w: World, r: Request)
    requires setup.book.Valid() && r.Reserve? && PlanReserve(setup, w, r).Go?
    ensures PlansReserve(setup, w, r, PlanReserve(setup, w, r))
  {
  }

  lemma MoveIsMoved(s: State, key: Key, user: nat, delta: int)
    requires Sound(s) && key != Blank && key !in s.keys && Cash(user) in s.accounts
    ensures var (t, r) := LedgerStep(s, key, MoveEntries(user, delta));
            r.Ok? ==> Moved(s, t, user, delta) && t.keys.Keys <= s.keys.Keys + {key}
  {
    MoveStep(s, key, user, delta);
  }

  lemma ExecuteIs(w: World, plan: Plan)
    requires plan.Go?
    ensures var (t, r) := LedgerStep(w.ledger, plan.key, plan.entries);
            Execute(w, plan).0 == if r.Ok? then World(plan.accts, plan.applied, t, plan.seen) else w
  {
  }

  lemma ReserveStepKeepsInv(setup: Setup, w: World, r: Request, plan: Plan)
    requires Inv(setup, w) && r.Reserve? && PlansReserve(setup, w, r, plan) && r.order !in w.seen
    ensures Inv(setup, Execute(w, plan).0)
  {
    var a, b := w.accts[r.user], plan.accts[r.user];
    assert Funded(setup.book, w.ledger, r.user, a);
    ExecuteIs(w, plan);
    MoveIsMoved(w.ledger, plan.key, r.user, b.posted - a.posted);
    var (t, posted) := LedgerStep(w.ledger, plan.key, plan.entries);
    if posted.Ok? { ReservedKeepsInv(setup, w, r.user, r.order, b.orders[|a.orders|], b, t); }
  }

  lemma ReserveKeepsInv(setup: Setup, w: World, r: Request)
    requires Inv(setup, w) && r.Reserve? && Guard(w, r)
    ensures Inv(setup, Execute(w, PlanReserve(setup, w, r)).0)
  {
    if PlanReserve(setup, w, r).Go? {
      ReservePlanned(setup, w, r);
      ReserveStepKeepsInv(setup, w, r, PlanReserve(setup, w, r));
    }
  }

  lemma AppendedIds(accts: seq<Acct>, seen: set<nat>, user: nat, b: Acct, o: Reserved)
    requires IdsSeen(accts, seen) && IdsUnique(accts) && user < |accts|
    requires b.orders == accts[user].orders + [o] && o.id !in seen
    ensures IdsSeen(accts[user := b], seen + {o.id}) && IdsUnique(accts[user := b])
  {
    var next := accts[user := b];
    forall u, j | 0 <= u < |next| && 0 <= j < |next[u].orders|
      ensures next[u].orders[j].id in seen + {o.id}
      ensures next[u].orders[j].id == o.id <==> u == user && j == |accts[user].orders|
    {
      if u != user || j < |accts[user].orders| { assert next[u].orders[j] == accts[u].orders[j]; }
    }
    forall u, j, u', j' | 0 <= u < |next| && 0 <= j < |next[u].orders| && 0 <= u' < |next|
        && 0 <= j' < |next[u'].orders|
      ensures next[u].orders[j].id == next[u'].orders[j'].id ==> u == u' && j == j'
    {
      if next[u].orders[j].id != o.id && next[u'].orders[j'].id != o.id {
        assert next[u].orders[j] == accts[u].orders[j] && next[u'].orders[j'] == accts[u'].orders[j'];
      }
    }
  }

  lemma AppendedKeys(w: World, t: State, user: nat, b: Acct, key: Key, accts: seq<Acct>, seen: set<nat>)
    requires KeysFresh(w) && IdsSeen(w.accts, w.seen) && user < |w.accts| && key.ReserveKey? && key.order !in w.seen
    requires t.keys.Keys <= w.ledger.keys.Keys + {key} && accts == w.accts[user := b] && seen == w.seen + {key.order}
    requires |b.orders| == |w.accts[user].orders| + 1 && b.orders[..|w.accts[user].orders|] == w.accts[user].orders
    requires b.orders[|w.accts[user].orders|].id == key.order && b.version == w.accts[user].version + 1
    ensures KeysFresh(World(accts, w.applied, t, seen))
  {
    forall o: nat, v: nat | ReleaseKey(o, v) in t.keys ensures o in seen && VersionsAbove(accts, o, v) {
      assert ReleaseKey(o, v) in w.ledger.keys;
      forall u, j | 0 <= u < |accts| && 0 <= j < |accts[u].orders|
        ensures accts[u].orders[j].id == o ==> v < accts[u].version
      {
        if u != user || j < |w.accts[user].orders| { assert accts[u].orders[j] == w.accts[u].orders[j]; }
      }
    }
  }

  // ---------------------------------------------------------------- orders shrink

  /** `b` holds the account's orders, at most one of them kept smaller or dropped. */
  ghost predicate Shrunk(a: Acct, b: Acct) {
    b.orders == a.orders
    || exists j: nat, keep: int, seqNo: int :: j < |a.orders| && b.orders == Keep(a.orders, j, keep, seqNo)
  }

  /** Where each kept order was before. */
  function SourceOf(j: nat, keep: int, k: nat): nat { if keep <= 0 && k >= j then k + 1 else k }

  lemma ShrunkSource(accts: seq<Acct>, user: nat, b: Acct, j: nat, keep: int, seqNo: int, u: nat, k: nat)
    requires user < |accts| && j < |accts[user].orders| && b.orders == Keep(accts[user].orders, j, keep, seqNo)
    requires u < |accts| && k < |accts[user := b][u].orders|
    ensures var k' := if u == user then SourceOf(j, keep, k) else k;
            k' < |accts[u].orders| && accts[user := b][u].orders[k].id == accts[u].orders[k'].id
  {
  }

  /** Shrinking orders keeps ids known and unique, and versions above those of used release keys. */
  lemma ShrunkIds(accts: seq<Acct>, seen: set<nat>, user: nat, b: Acct)
    requires IdsSeen(accts, seen) && IdsUnique(accts) && user < |accts| && Shrunk(accts[user], b)
    ensures IdsSeen(accts[user := b], seen) && IdsUnique(accts[user := b])
  {
    var next := accts[user := b];
    if b.orders == accts[user].orders {
      assert forall u :: 0 <= u < |next| ==> next[u].orders == accts[u].orders;
    } else {
      var j, keep, seqNo :| 0 <= j < |accts[user].orders| && b.orders == Keep(accts[user].orders, j, keep, seqNo);
      forall u: nat, k: nat | u < |next| && k < |next[u].orders| ensures next[u].orders[k].id in seen {
        ShrunkSource(accts, user, b, j, keep, seqNo, u, k);
      }
      forall u: nat, k: nat, u': nat, m: nat | u < |next| && k < |next[u].orders| && u' < |next|
          && m < |next[u'].orders|
        ensures next[u].orders[k].id == next[u'].orders[m].id ==> u == u' && k == m
      {
        ShrunkSource(accts, user, b, j, keep, seqNo, u, k);
        ShrunkSource(accts, user, b, j, keep, seqNo, u', m);
      }
    }
  }

  lemma ShrunkVersions(accts: seq<Acct>, user: nat, b: Acct, o: nat, v: nat)
    requires user < |accts| && Shrunk(accts[user], b) && b.version >= accts[user].version
    requires VersionsAbove(accts, o, v)
    ensures VersionsAbove(accts[user := b], o, v)
  {
    var next := accts[user := b];
    if b.orders != accts[user].orders {
      var j, keep, seqNo :| 0 <= j < |accts[user].orders| && b.orders == Keep(accts[user].orders, j, keep, seqNo);
      forall u: nat, k: nat | u < |next| && k < |next[u].orders|
          ensures next[u].orders[k].id == o ==> v < next[u].version {
        ShrunkSource(accts, user, b, j, keep, seqNo, u, k);
      }
    }
  }

  // ---------------------------------------------------------------- release

  /** A release plans a move of zero or less, which the MARGIN account can always pay. */
  lemma ReleaseAccepted(setup: Setup, w: World, r: Request)
    requires Inv(setup, w) && r.ReleaseOrder? && PlanRelease(setup, w, r).Go?
    ensures var plan := PlanRelease(setup, w, r);
            && plan.accts[r.user].posted <= w.accts[r.user].posted
            && plan.key !in w.ledger.keys
            && LedgerStep(w.ledger, plan.key, plan.entries).1.Ok?
            && Execute(w, plan).1 == plan.reply
  {
    var plan := PlanRelease(setup, w, r);
    var a := w.accts[r.user];
    var j := Find(a.orders, r.order);
    assert Funded(setup.book, w.ledger, r.user, a);
    KeepLowersRequired(setup.book, a, j, Min(r.keep, Abs(a.orders[j].remaining)), a.orders[j].lastSeq);
    assert w.accts[r.user].orders[j].id == r.order && !VersionsAbove(w.accts, r.order, a.version);
    BalanceIsFold(w.ledger.rows, Cash(r.user));
    MoveStep(w.ledger, plan.key, r.user, plan.accts[r.user].posted - a.posted);
  }

  lemma ReleasedKeys(w: World, t: State, user: nat, b: Acct, plan: Plan, order: nat)
    requires KeysFresh(w) && IdsUnique(w.accts) && IdsSeen(w.accts, w.seen) && user < |w.accts| && plan.Go?
    requires plan.key == ReleaseKey(order, w.accts[user].version) && Has(w.accts[user].orders, order)
    requires t.keys.Keys <= w.ledger.keys.Keys + {plan.key}
    requires plan.accts == w.accts[user := b] && plan.applied == w.applied && plan.seen == w.seen
    requires Shrunk(w.accts[user], b) && b.version == w.accts[user].version + 1
    ensures KeysFresh(World(plan.accts, plan.applied, t, plan.seen))
  {
    var at := Find(w.accts[user].orders, order);
    ShrunkIds(w.accts, w.seen, user, b);
    forall o: nat, v: nat | ReleaseKey(o, v) in t.keys ensures o in plan.seen && VersionsAbove(plan.accts, o, v) {
      if ReleaseKey(o, v) in w.ledger.keys {
        ShrunkVersions(w.accts, user, b, o, v);
      } else {
        forall u, j | 0 <= u < |plan.accts| && 0 <= j < |plan.accts[u].orders|
          ensures plan.accts[u].orders[j].id == o ==> v < plan.accts[u].version
        {
          if u != user { assert w.accts[u].orders[j] == plan.accts[u].orders[j]; }
        }
      }
    }
  }

  lemma ReleaseKeepsInv(setup: Setup, w: World, r: Request)
    requires Inv(setup, w) && r.ReleaseOrder?
    ensures Inv(setup, Execute(w, PlanRelease(setup, w, r)).0)
  {
    var plan := PlanRelease(setup, w, r);
    if plan.Go? {
      var a, b := w.accts[r.user], plan.accts[r.user];
      ReleaseAccepted(setup, w, r);
      assert Funded(setup.book, w.ledger, r.user, a);
      MoveStep(w.ledger, plan.key, r.user, b.posted - a.posted);
      var t := LedgerStep(w.ledger, plan.key, plan.entries).0;
      AccountMoved(setup, w, r.user, b, t);
      ShrunkIds(w.accts, w.seen, r.user, b);
      ReleasedKeys(w, t, r.user, b, plan, r.order);
    }
  }
}
