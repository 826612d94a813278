/** Whole runs of the exchange: margin requests interleaved with everything else the ledger does. */
module Exchange {
  import opened Common
  import opened Payoffs
  import opened WorstCase
  import opened Ledger
  import opened LedgerRuns
  import opened MarginExec
  import opened FillPostings
  import opened MarginRuns
  import opened FillRuns

  datatype Event = Do(request: Request) | Elsewhere(op: Op)

  predicate ForeignKey(key: Key) {
    !key.ReserveKey? && !key.ReleaseKey? && !key.FillKey? && !key.ReconcileKey? && !key.SettleKey?
  }

  predicate OfEvent(a: Account) { (a.Margin? && a.event == EVENT) || a == Clearing(EVENT) }

  predicate AvoidsEvent(entries: seq<Entry>) {
    forall i :: 0 <= i < |entries| ==> !OfEvent(entries[i].account)
  }

  /** Deposits, withdrawals, holds and other events' margin: anything but this event's accounts and keys. */
  predicate Foreign(op: Op) {
    match op
    case Post(key, entries) => ForeignKey(key) && AvoidsEvent(entries)
    case Place(key, _, _) => ForeignKey(key)
    case Release(key, _, _) => ForeignKey(key)
    case Commit(key, _, _, _, destination, extra) => ForeignKey(key) && !OfEvent(destination) && AvoidsEvent(extra)
    case Credit(_, _, _) => true
  }

  ghost function Next(setup: Setup, w: World, e: Event): World
    requires setup.book.Valid() && Sized(setup.book, w.accts)
  {
    match e
    case Do(request) => Execute(w, PlanOf(setup, w, request)).0
    case Elsewhere(op) => w.(ledger := Step(w.ledger, op))
  }

  /** What the callers arrange for each event of a run. */
  ghost predicate Allowed(w: World, e: Event) {
    match e
    case Do(request) => Guard(w, request)
    case Elsewhere(op) => Foreign(op)
  }

  /** `worlds` is a run: each state follows from the one before by an allowed event. */
  ghost predicate IsRun(setup: Setup, worlds: seq<World>, events: seq<Event>) {
    && setup.book.Valid() && |worlds| == |events| + 1
    && forall k :: 0 <= k < |events| ==>
                     && Sized(setup.book, worlds[k].accts) && Allowed(worlds[k], events[k])
                     && worlds[k + 1] == Next(setup, worlds[k], events[k])
  }

  // ---------------------------------------------------------------- the rest of the ledger

  /** What a foreign operation can do to what the invariants look at. */
  ghost predicate Untouched(s: State, t: State, key: Key) {
    && Sound(t) && s.accounts <= t.accounts && t.keys.Keys <= s.keys.Keys + {key}
    && forall a :: OfEvent(a) ==> Balance(t.rows, a) == Balance(s.rows, a)
  }

  lemma AvoidsDelta(entries: seq<Entry>)
    requires AvoidsEvent(entries)
    ensures forall a :: OfEvent(a) ==> Delta(entries, a) == 0
  {
    forall a | OfEvent(a) ensures Delta(entries, a) == 0 { UnnamedDelta(entries, a); }
  }

  lemma CommitAvoids(user: UserId, commit: int, release: int, destination: Account, extra: seq<Entry>)
    requires !OfEvent(destination) && AvoidsEvent(extra)
    ensures AvoidsEvent(CommitEntries(user, commit, release, destination, extra))
  {
  }

  lemma ForeignCommit(s: State, key: Key, hold: nat, commit: int, release: int, destination: Account, extra: seq<Entry>)
    requires Sound(s) && !OfEvent(destination) && AvoidsEvent(extra)
    ensures Untouched(s, CommitHold(s, key, hold, commit, release, destination, extra).0, key)
  {
    CommitSound(s, key, hold, commit, release, destination, extra);
    if hold < |s.holds| {
      CommitAvoids(s.holds[hold].user, commit, release, destination, extra);
      AvoidsDelta(CommitEntries(s.holds[hold].user, commit, release, destination, extra));
    }
  }

  lemma ForeignRelease(s: State, key: Key, hold: nat, amount: int)
    requires Sound(s)
    ensures Untouched(s, ReleaseHold(s, key, hold, amount).0, key)
  {
    ReleaseSound(s, key, hold, amount);
    if hold < |s.holds| { AvoidsDelta(ReleaseEntries(s.holds[hold].user, amount)); }
  }

  lemma ForeignPost(s: State, key: Key, entries: seq<Entry>)
    requires Sound(s) && AvoidsEvent(entries)
    ensures Untouched(s, PostTransaction(s, key, entries).0, key)
  {
    PostSound(s, key, entries);
    AvoidsDelta(entries);
  }

  lemma ForeignPlace(s: State, key: Key, user: UserId, amount: int)
    requires Sound(s)
    ensures Untouched(s, PlaceHold(s, key, user, amount).0, key)
  {
    PlaceSound(s, key, user, amount);
    AvoidsDelta(PlaceEntries(user, amount));
  }

  lemma ForeignCredit(s: State, nonce: nat, user: UserId, amount: int)
    requires Sound(s)
    ensures Untouched(s, Deposit(s, nonce, user, amount).0, DepositKey(nonce))
  {
    DepositSound(s, nonce, user, amount);
    AvoidsDelta(DepositEntries(user, amount));
  }

  lemma ForeignStep(s: State, op: Op)
    requires Sound(s) && Foreign(op)
    ensures Untouched(s, Step(s, op), KeyOf(op))
  {
    match op {
      case Post(key, entries) => ForeignPost(s, key, entries);
      case Place(key, user, amount) => ForeignPlace(s, key, user, amount);
      case Release(key, hold, amount) => ForeignRelease(s, key, hold, amount);
      case Commit(key, hold, commit, release, destination, extra) =>
        ForeignCommit(s, key, hold, commit, release, destination, extra);
      case Credit(nonce, user, amount) => ForeignCredit(s, nonce, user, amount);
    }
  }

  lemma ForeignKeepsInv(setup: Setup, w: World, op: Op)
    requires Inv(setup, w) && Foreign(op)
    ensures Inv(setup, w.(ledger := Step(w.ledger, op)))
  {
    ForeignStep(w.ledger, op);
    UntouchedKeepsInv(setup, w, Step(w.ledger, op), KeyOf(op));
  }

  lemma UntouchedKeepsInv(setup: Setup, w: World, t: State, key: Key)
    requires Inv(setup, w) && ForeignKey(key) && Untouched(w.ledger, t, key)
    ensures Inv(setup, w.(ledger := t))
  {
    forall u | 0 <= u < |w.accts| ensures Funded(setup.book, t, u, w.accts[u]) {
      assert Funded(setup.book, w.ledger, u, w.accts[u]);
    }
  }

  // ---------------------------------------------------------------- every step, every run

  lemma StepKeepsInv(setup: Setup, w: World, e: Event)
    requires Inv(setup, w) && Allowed(w, e)
    ensures Inv(setup, Next(setup, w, e))
  {
    match e {
      case Elsewhere(op) => ForeignKeepsInv(setup, w, op);
      case Do(request) =>
        match request {
          case Reserve(_, _, _, _, _, _, _) => ReserveKeepsInv(setup, w, request);
          case ReleaseOrder(_, _, _, _) => ReleaseKeepsInv(setup, w, request);
          case Fill(_, _, _, _, _, _, _, _, _, _, _, _, _) => FillKeepsInv(setup, w, request);
          case Reconcile(user) => ReconcileFindsNothing(setup, w, user);
        }
    }
  }

  /** While nothing crashed, the reconciler finds every account in step. */
  lemma ReconcileFindsNothing(setup: Setup, w: World, user: nat)
    requires Inv(setup, w)
    ensures PlanReconcile(w, Reconcile(user)) == Stop(if user < |w.accts| then InStep else BadArgument)
  {
    if user < |w.accts| { assert Funded(setup.book, w.ledger, user, w.accts[user]); }
  }

  /** Accounts with no position and no order. */
  function Blanks(book: EventBook, n: nat): seq<Acct> {
    seq(n, _ => Acct(Zeros(|book.instruments|), [], 0, 0))
  }

  /** Before trading: `n` users with CASH accounts, and a ledger this event has not used. */
  ghost predicate Opening(setup: Setup, w: World, n: nat) {
    && setup.book.Valid() && w == World(Blanks(setup.book, n), {}, w.ledger, {})
    && Sound(w.ledger) && (forall u :: 0 <= u < n ==> Cash(u) in w.ledger.accounts)
    && (forall a :: OfEvent(a) ==> Balance(w.ledger.rows, a) == 0)
    && (forall key :: key in w.ledger.keys ==> ForeignKey(key))
  }

  lemma BlankNeedsNothing(book: EventBook, a: Acct)
    requires book.Valid() && a.net == Zeros(|book.instruments|) && a.orders == []
    ensures Priceable(book, a) && Required(book, a) == 0
  {
    var priced := PriceOrders(book, Working(a.orders));
    forall w | Possible(book, w) ensures StressIn(book, w, a.net, priced) == 0 {
      DotZeros(a.net, Values(book, w), |a.net|);
    }
    assert Possible(book, AtTrade) && StressIn(book, AtTrade, a.net, priced) == 0;
    RequiredIs(book, a, 0);
  }

  lemma {:induction false} BlankInterest(book: EventBook, accts: seq<Acct>, t: nat, n: nat)
    requires n <= |accts| && forall u :: 0 <= u < |accts| ==> t < |accts[u].net| && accts[u].net[t] == 0
    ensures OpenInterest(accts, t, n) == 0
  {
    if n > 0 { BlankInterest(book, accts, t, n - 1); }
  }

  lemma OpeningKeepsInv(setup: Setup, w: World, n: nat)
    requires Opening(setup, w, n)
    ensures Inv(setup, w)
  {
    forall u | 0 <= u < |w.accts| ensures Funded(setup.book, w.ledger, u, w.accts[u]) {
      BlankNeedsNothing(setup.book, w.accts[u]);
      assert OfEvent(Margin(u, EVENT));
    }
    forall t | 0 <= t < |setup.book.instruments| ensures OpenInterest(w.accts, t, |w.accts|) == 0 {
      BlankInterest(setup.book, w.accts, t, |w.accts|);
    }
  }

  /** Every reachable state keeps the invariants. */
  lemma {:induction false} RunKeepsInv(setup: Setup, worlds: seq<World>, events: seq<Event>, n: nat, k: nat)
    requires IsRun(setup, worlds, events) && Opening(setup, worlds[0], n) && k < |worlds|
    ensures Inv(setup, worlds[k])
  {
    if k == 0 {
      OpeningKeepsInv(setup, worlds[0], n);
    } else {
      RunKeepsInv(setup, worlds, events, n, k - 1);
      StepKeepsInv(setup, worlds[k - 1], events[k - 1]);
    }
  }

  /** What `margin_invariants` reads out of a state: drift, overdrafts, CLEARING and open interest. */
  ghost predicate NoViolations(setup: Setup, w: World)
    requires Sized(setup.book, w.accts)
  {
    && (forall u :: 0 <= u < |w.accts| ==> Balance(w.ledger.rows, Margin(u, EVENT)) == w.accts[u].posted)
    && (forall a :: NonNegative(a) ==> Balance(w.ledger.rows, a) >= 0)
    && Balance(w.ledger.rows, Clearing(EVENT)) == 0
    && FlatInterest(setup.book, w.accts)
  }

  /** So `margin_invariants` reports nothing, and each account has posted its exact worst case. */
  lemma RunHasNoViolations(setup: Setup, worlds: seq<World>, events: seq<Event>, n: nat, k: nat)
    requires IsRun(setup, worlds, events) && Opening(setup, worlds[0], n) && k < |worlds|
    ensures Sized(setup.book, worlds[k].accts) && NoViolations(setup, worlds[k])
    ensures forall u :: 0 <= u < |worlds[k].accts| ==>
                          && Priceable(setup.book, worlds[k].accts[u])
                          && worlds[k].accts[u].posted == Required(setup.book, worlds[k].accts[u])
  {
    RunKeepsInv(setup, worlds, events, n, k);
    var w := worlds[k];
    forall u | 0 <= u < |w.accts| ensures Funded(setup.book, w.ledger, u, w.accts[u]) {}
    forall a ensures NonNegative(a) ==> Balance(w.ledger.rows, a) >= 0 { BalanceIsFold(w.ledger.rows, a); }
  }

  /** A fill the callers let through is applied, or a duplicate, or was never valid. */
  lemma GuardedFillApplied(setup: Setup, w: World, r: Request)
    requires Inv(setup, w) && r.Fill? && Guard(w, r) && PlanFill(setup, w, r).Go?
    ensures var (after, reply) := Execute(w, PlanFill(setup, w, r));
            reply == Applied && after.applied == w.applied + {r.fill}
  {
    PlannedIsFresh(setup, w, r);
    DueFillApplied(setup, w, r);
  }

  /** So no fill of a run is refused. */
  lemma NoFillIsRefused(setup: Setup, worlds: seq<World>, events: seq<Event>, n: nat, k: nat)
    requires IsRun(setup, worlds, events) && Opening(setup, worlds[0], n) && k < |events|
    requires events[k].Do? && events[k].request.Fill?
    ensures var plan := PlanOf(setup, worlds[k], events[k].request);
            plan.Go? ==> Execute(worlds[k], plan).1 == Applied
                         && worlds[k + 1].applied == worlds[k].applied + {events[k].request.fill}
  {
    RunKeepsInv(setup, worlds, events, n, k);
    if PlanFill(setup, worlds[k], events[k].request).Go? { GuardedFillApplied(setup, worlds[k], events[k].request); }
  }

  // ---------------------------------------------------------------- reserving

  /**
    An order is accepted exactly when the user's cash covers the rise of its margin, and the
    rise is never negative. Accepted or refused, cash plus margin stays what it was.
   */
  lemma ReserveDecidedByCash(setup: Setup, w: World, r: Request)
    requires Inv(setup, w) && r.Reserve? && Guard(w, r) && PlanReserve(setup, w, r).Go?
    ensures var plan := PlanReserve(setup, w, r);
            var before, after := w.accts[r.user].posted, plan.accts[r.user].posted;
            var (w', reply) := Execute(w, plan);
            && before <= after
            && reply == (if after - before <= Balance(w.ledger.rows, Cash(r.user)) then Approved(before, after)
                         else RejectedInsufficient(before, after))
            && (reply.RejectedInsufficient? ==> w' == w)
            && Balance(w'.ledger.rows, Cash(r.user)) + Balance(w'.ledger.rows, Margin(r.user, EVENT))
               == Balance(w.ledger.rows, Cash(r.user)) + Balance(w.ledger.rows, Margin(r.user, EVENT))
  {
    var plan := PlanReserve(setup, w, r);
    var a, b := w.accts[r.user], plan.accts[r.user];
    assert Funded(setup.book, w.ledger, r.user, a);
    ReserveRaisesRequired(setup.book, a, b);
    MoveStep(w.ledger, plan.key, r.user, b.posted - a.posted);
  }

  lemma ReserveRaisesRequired(book: EventBook, a: Acct, b: Acct)
    requires book.Valid() && Priceable(book, a) && Priceable(book, b) && a.net == b.net
    requires |b.orders| == |a.orders| + 1 && b.orders[..|a.orders|] == a.orders
    ensures Required(book, a) <= Required(book, b)
  {
    var before, after := PriceOrders(book, Working(a.orders)), PriceOrders(book, Working(b.orders));
    var last := |a.orders|;
    assert after == before + [after[last]];
    assert Acceptable(book, Working(b.orders)[last]);
    ReserveRaisesMargin(book, a.net, before, after[last], Required(book, a), Required(book, b));
  }
}
