/**
  Crashes between a ledger post and its table update: how far the ledger can drift from the
  tables, what a retry and the reconciler repair, and what they do not.
 */
module MarginCrash {
  import opened Common
  import opened Portfolio
  import opened Ledger
  import opened LedgerRuns
  import opened MarginExec
  import opened FillPostings
  import opened FillRuns

  ghost predicate Shaped(setup: Setup, w: World) {
    setup.book.Valid() && Sized(setup.book, w.accts) && Sound(w.ledger)
  }

  /** How far the user's MARGIN balance is ahead of the tables. */
  function Drift(w: World, user: nat): int
    requires user < |w.accts|
  {
    Balance(w.ledger.rows, Margin(user, EVENT)) - w.accts[user].posted
  }

  /** What the plan's table update adds to the user's posted margin. */
  function Change(w: World, plan: Plan, user: nat): int
    requires user < |w.accts| && (plan.Go? ==> |plan.accts| == |w.accts|)
  {
    if plan.Stop? then 0 else plan.accts[user].posted - w.accts[user].posted
  }

  // ---------------------------------------------------------------- one posting

  /** Whether the ledger takes the plan's posting, now or under a key it already knows. */
  predicate Taken(w: World, plan: Plan) {
    plan.Go? && LedgerStep(w.ledger, plan.key, plan.entries).1.Ok?
  }

  /** Whether the ledger already knows the plan's key, so that posting again moves nothing. */
  predicate Known(w: World, plan: Plan) { plan.Go? && plan.entries != [] && plan.key in w.ledger.keys }

  lemma LedgerStepEffect(s: State, key: Key, entries: seq<Entry>)
    requires Sound(s)
    ensures var (t, r) := LedgerStep(s, key, entries);
            && Sound(t) && s.keys.Keys <= t.keys.Keys <= s.keys.Keys + {key} && s.accounts <= t.accounts
            && (r.Err? || entries == [] || key in s.keys ==> t == s)
            && (r.Ok? && entries != [] ==> key in t.keys)
            && forall a :: Balance(t.rows, a)
                           == Balance(s.rows, a) + if r.Ok? && key !in s.keys then Delta(entries, a) else 0
  {
    if entries != [] && key !in s.keys && PostTransaction(s, key, entries).1.Ok? { PostEffect(s, key, entries); }
  }

  /** Reserve, release and fill post to each MARGIN account exactly what they write to the tables. */
  lemma EntriesMatchTables(setup: Setup, w: World, r: Request, user: nat)
    requires setup.book.Valid() && Sized(setup.book, w.accts) && !r.Reconcile? && user < |w.accts|
    ensures var plan := PlanOf(setup, w, r);
            plan.Go? ==> |plan.accts| == |w.accts| && Delta(plan.entries, Margin(user, EVENT)) == Change(w, plan, user)
  {
    if PlanOf(setup, w, r).Go? {
      match r {
        case Reserve(_, _, _, _, _, _, _) => ReserveMatches(setup, w, r, user);
        case ReleaseOrder(_, _, _, _) => ReleaseMatches(setup, w, r, user);
        case Fill(_, _, _, _, _, _, _, _, _, _, _, _, _) => FillMatches(setup, w, r, user);
      }
    }
  }

  lemma ReserveMatches(setup: Setup, w: World, r: Request, user: nat)
    requires setup.book.Valid() && r.Reserve? && user < |w.accts| && PlanReserve(setup, w, r).Go?
    ensures var plan := PlanReserve(setup, w, r);
            |plan.accts| == |w.accts| && Delta(plan.entries, Margin(user, EVENT)) == Change(w, plan, user)
  {
    MoveDelta(r.user, PlanReserve(setup, w, r).accts[r.user].posted - w.accts[r.user].posted);
  }

  lemma ReleaseMatches(setup: Setup, w: World, r: Request, user: nat)
    requires setup.book.Valid() && r.ReleaseOrder? && user < |w.accts| && PlanRelease(setup, w, r).Go?
    ensures var plan := PlanRelease(setup, w, r);
            |plan.accts| == |w.accts| && Delta(plan.entries, Margin(user, EVENT)) == Change(w, plan, user)
  {
    MoveDelta(r.user, PlanRelease(setup, w, r).accts[r.user].posted - w.accts[r.user].posted);
  }

  lemma FillPlanMatches(setup: Setup, w: World, r: Request, plan: Plan, user: nat)
    requires Repriced(setup, w, r) && PlansFill(setup, w, r, plan) && user < |w.accts|
    ensures Delta(plan.entries, Margin(user, EVENT)) == Change(w, plan, user)
  {
    NetIs(setup, w, r, Margin(user, EVENT));
    FillEntriesEffect(PartiesOf(setup, w, r), UnitPaid(setup, r) * r.count, Margin(user, EVENT));
  }

  lemma FillMatches(setup: Setup, w: World, r: Request, user: nat)
    requires setup.book.Valid() && Sized(setup.book, w.accts) && r.Fill? && user < |w.accts|
             && PlanFill(setup, w, r).Go?
    ensures var plan := PlanFill(setup, w, r);
            |plan.accts| == |w.accts| && Delta(plan.entries, Margin(user, EVENT)) == Change(w, plan, user)
  {
    PlannedIsFresh(setup, w, r);
    FillPlanMatches(setup, w, r, PlanFill(setup, w, r), user);
  }

  // ---------------------------------------------------------------- drift

  datatype Event = Finished(request: Request) | Crashed(request: Request)

  ghost function Next(setup: Setup, w: World, e: Event): World
    requires setup.book.Valid() && Sized(setup.book, w.accts)
  {
    var plan := PlanOf(setup, w, e.request);
    if e.Finished? then Execute(w, plan).0 else Crash(w, plan)
  }

  /**
    What the event adds to a user's drift: a crash after a new posting leaves it orphaned; a
    request finished under a known key writes its tables without a posting; the reconciler
    moves the difference back.
   */
  ghost function Orphaned(setup: Setup, w: World, e: Event, user: nat): int
    requires setup.book.Valid() && Sized(setup.book, w.accts) && user < |w.accts|
  {
    var r, plan := e.request, PlanOf(setup, w, e.request);
    if !Taken(w, plan) then 0
    else if r.Reconcile? then if Known(w, plan) || r.user != user then 0 else -Drift(w, user)
    else if e.Crashed? then if Known(w, plan) then 0 else Change(w, plan, user)
    else if Known(w, plan) then -Change(w, plan, user) else 0
  }

  /** A plan whose posting matches its table update, finished or crashed. */
  lemma PlanDrift(w: World, plan: Plan, user: nat)
    requires Sound(w.ledger) && plan.Go? && |plan.accts| == |w.accts| && user < |w.accts|
    requires Delta(plan.entries, Margin(user, EVENT)) == Change(w, plan, user)
    ensures |Execute(w, plan).0.accts| == |w.accts|
    ensures Drift(Execute(w, plan).0, user)
            == Drift(w, user) - if Taken(w, plan) && Known(w, plan) then Change(w, plan, user) else 0
    ensures Drift(Crash(w, plan), user)
            == Drift(w, user) + if Taken(w, plan) && !Known(w, plan) then Change(w, plan, user) else 0
  {
    LedgerStepEffect(w.ledger, plan.key, plan.entries);
  }

  /** A plan that leaves the tables alone moves the drift by its posting, crashed or not. */
  lemma PostingDrift(w: World, plan: Plan, user: nat, d: int)
    requires Sound(w.ledger) && plan.Go? && plan.accts == w.accts && user < |w.accts|
    requires Delta(plan.entries, Margin(user, EVENT)) == d
    ensures Execute(w, plan).0.accts == w.accts
    ensures Drift(Execute(w, plan).0, user) == Drift(w, user) + if Taken(w, plan) && !Known(w, plan) then d else 0
    ensures Drift(Crash(w, plan), user) == Drift(w, user) + if Taken(w, plan) && !Known(w, plan) then d else 0
  {
    LedgerStepEffect(w.ledger, plan.key, plan.entries);
  }

  /** The reconciler's posting, whether or not the pass then crashes. */
  lemma ReconcileDrift(w: World, r: Request, user: nat)
    requires Sound(w.ledger) && r.Reconcile? && user < |w.accts| && PlanReconcile(w, r).Go?
    ensures var plan := PlanReconcile(w, r);
            var moved := if !Taken(w, plan) || Known(w, plan) || r.user != user then 0 else -Drift(w, user);
            && Execute(w, plan).0.accts == w.accts
            && Drift(Execute(w, plan).0, user) == Drift(w, user) + moved
            && Drift(Crash(w, plan), user) == Drift(w, user) + moved
  {
    var plan := PlanReconcile(w, r);
    MoveDelta(r.user, -Drift(w, r.user));
    PostingDrift(w, plan, user, if r.user == user then -Drift(w, user) else 0);
  }

  lemma StepDrift(setup: Setup, w: World, e: Event, user: nat)
    requires Shaped(setup, w) && user < |w.accts|
    ensures var w' := Next(setup, w, e);
            |w'.accts| == |w.accts| && Drift(w', user) == Drift(w, user) + Orphaned(setup, w, e, user)
  {
    var r, plan := e.request, PlanOf(setup, w, e.request);
    if plan.Go? {
      if r.Reconcile? {
        ReconcileDrift(w, r, user);
      } else {
        EntriesMatchTables(setup, w, r, user);
        PlanDrift(w, plan, user);
      }
    }
  }

  lemma FillSized(setup: Setup, w: World, r: Request)
    requires setup.book.Valid() && Sized(setup.book, w.accts) && r.Fill? && PlanFill(setup, w, r).Go?
    ensures |PlanFill(setup, w, r).accts| == |w.accts| && Sized(setup.book, PlanFill(setup, w, r).accts)
  {
    PlannedIsFresh(setup, w, r);
  }

  lemma PlanSized(setup: Setup, w: World, r: Request)
    requires setup.book.Valid() && Sized(setup.book, w.accts) && PlanOf(setup, w, r).Go?
    ensures |PlanOf(setup, w, r).accts| == |w.accts| && Sized(setup.book, PlanOf(setup, w, r).accts)
  {
    if r.Fill? { FillSized(setup, w, r); }
  }

  lemma SizedStep(setup: Setup, w: World, e: Event)
    requires Shaped(setup, w)
    ensures Shaped(setup, Next(setup, w, e)) && |Next(setup, w, e).accts| == |w.accts|
  {
    var plan := PlanOf(setup, w, e.request);
    if plan.Go? {
      PlanSized(setup, w, e.request);
      LedgerStepEffect(w.ledger, plan.key, plan.entries);
    }
  }

  ghost predicate IsHistory(setup: Setup, worlds: seq<World>, events: seq<Event>) {
    && setup.book.Valid() && |worlds| == |events| + 1
    && (forall k :: 0 <= k < |worlds| ==> Sized(setup.book, worlds[k].accts))
    && forall k :: 0 <= k < |events| ==> worlds[k + 1] == Next(setup, worlds[k], events[k])
  }

  ghost function OrphanedUpTo(setup: Setup, worlds: seq<World>, events: seq<Event>, user: nat, k: nat): int
    requires IsHistory(setup, worlds, events) && k <= |events|
    requires forall i :: 0 <= i < |worlds| ==> user < |worlds[i].accts|
  {
    if k == 0 then 0
    else OrphanedUpTo(setup, worlds, events, user, k - 1) + Orphaned(setup, worlds[k - 1], events[k - 1], user)
  }

  /** Whatever crashes, retries and reconciliations happen, the drift is the sum of what they orphaned. */
  lemma {:induction false} DriftIsOrphaned(setup: Setup, worlds: seq<World>, events: seq<Event>, user: nat, k: nat)
    requires IsHistory(setup, worlds, events) && k <= |events| && Sound(worlds[0].ledger)
    requires forall i :: 0 <= i < |worlds| ==> user < |worlds[i].accts|
    ensures Sound(worlds[k].ledger)
    ensures Drift(worlds[k], user) == Drift(worlds[0], user) + OrphanedUpTo(setup, worlds, events, user, k)
  {
    if k > 0 {
      DriftIsOrphaned(setup, worlds, events, user, k - 1);
      SizedStep(setup, worlds[k - 1], events[k - 1]);
      StepDrift(setup, worlds[k - 1], events[k - 1], user);
    }
  }

  // ---------------------------------------------------------------- retries

  /** The users whose accounts the request locks. */
  function Involved(r: Request): set<nat> {
    match r
    case Reserve(user, _, _, _, _, _, _) => {user}
    case ReleaseOrder(user, _, _, _) => {user}
    case Fill(_, _, _, _, _, maker, _, _, _, taker, _, _, _) => {maker, taker}
    case Reconcile(user) => {user}
  }

  /** What a request adds to the applied fills and to the history. */
  function NewFills(r: Request): set<nat> { if r.Fill? then {r.fill} else {} }

  function NewOrders(r: Request): set<nat> { if r.Reserve? then {r.order} else {} }

  /** `w` and `v` look the same to `r`. */
  predicate SameView(r: Request, w: World, v: World) {
    && |w.accts| == |v.accts|
    && (forall u :: u in Involved(r) && u < |w.accts| ==> w.accts[u] == v.accts[u])
    && (r.Fill? ==> (r.fill in w.applied <==> r.fill in v.applied))
    && (r.Reconcile? ==> w.ledger == v.ledger)
  }

  /** The same posting and the same new accounts for the users involved; everyone else stays. */
  predicate SamePlan(r: Request, w: World, p: Plan, v: World, q: Plan) {
    if p.Stop? then q == p
    else
      && q.Go? && p.key == q.key && p.entries == q.entries && p.reply == q.reply && p.refused == q.refused
      && |p.accts| == |q.accts| == |w.accts| == |v.accts|
      && (forall u :: 0 <= u < |w.accts| ==>
                        if u in Involved(r) then p.accts[u] == q.accts[u]
                        else p.accts[u] == w.accts[u] && q.accts[u] == v.accts[u])
      && p.applied == w.applied + NewFills(r) && q.applied == v.applied + NewFills(r)
      && p.seen == w.seen + NewOrders(r) && q.seen == v.seen + NewOrders(r)
  }

  lemma ReserveIsLocal(setup: Setup, r: Request, w: World, v: World)
    requires setup.book.Valid() && SameView(r, w, v) && r.Reserve?
    ensures SamePlan(r, w, PlanReserve(setup, w, r), v, PlanReserve(setup, v, r))
  {
    assert r.user in Involved(r);
  }

  lemma ReleaseIsLocal(setup: Setup, r: Request, w: World, v: World)
    requires setup.book.Valid() && SameView(r, w, v) && r.ReleaseOrder?
    ensures SamePlan(r, w, PlanRelease(setup, w, r), v, PlanRelease(setup, v, r))
  {
    assert r.user in Involved(r);
  }

  lemma ReconcileIsLocal(r: Request, w: World, v: World)
    requires SameView(r, w, v) && r.Reconcile?
    ensures SamePlan(r, w, PlanReconcile(w, r), v, PlanReconcile(v, r))
  {
    assert r.user in Involved(r);
  }

  lemma LegsAreLocal(r: Request, w: seq<Acct>, v: seq<Acct>)
    requires r.Fill? && r.maker < |w| == |v| && r.taker < |w| && w[r.maker] == v[r.maker] && w[r.taker] == v[r.taker]
    requires r.ticker < |w[r.maker].net| && r.ticker < |w[r.taker].net|
    ensures AfterLegs(w, r)[r.maker] == AfterLegs(v, r)[r.maker] && AfterLegs(w, r)[r.taker] == AfterLegs(v, r)[r.taker]
  {
  }

  lemma FillIsLocal(setup: Setup, r: Request, w: World, v: World)
    requires setup.book.Valid() && Sized(setup.book, w.accts) && Sized(setup.book, v.accts) && SameView(r, w, v)
             && r.Fill?
    ensures SamePlan(r, w, PlanFill(setup, w, r), v, PlanFill(setup, v, r))
  {
    assert r.maker in Involved(r) && r.taker in Involved(r);
    if r.maker < |w.accts| && r.taker < |w.accts| && r.ticker < |setup.book.instruments| {
      LegsAreLocal(r, w.accts, v.accts);
      if Fresh(setup, w, r) && Repriced(setup, w, r) {
        FreshIsLocal(setup, r, w, v);
      } else {
        StopIsLocal(setup, r, w, v);
      }
    }
  }

  lemma NeedIsLocal(setup: Setup, r: Request, w: World, v: World, user: nat)
    requires Repriced(setup, w, r) && Repriced(setup, v, r) && (user == r.maker || user == r.taker)
    requires w.accts[user] == v.accts[user] && AfterLegs(w.accts, r)[user] == AfterLegs(v.accts, r)[user]
    ensures Need(setup, w, r, user) == Need(setup, v, r, user)
    ensures Remargined(setup.book, AfterLegs(w.accts, r)[user]) == Remargined(setup.book, AfterLegs(v.accts, r)[user])
  {
  }

  lemma PlansFillIsLocal(setup: Setup, r: Request, w: World, v: World, p: Plan, q: Plan)
    requires Repriced(setup, w, r) && Repriced(setup, v, r) && PlansFill(setup, w, r, p) && PlansFill(setup, v, r, q)
    requires SameView(r, w, v) && w.accts[r.maker] == v.accts[r.maker] && w.accts[r.taker] == v.accts[r.taker]
    requires AfterLegs(w.accts, r)[r.maker] == AfterLegs(v.accts, r)[r.maker]
    requires AfterLegs(w.accts, r)[r.taker] == AfterLegs(v.accts, r)[r.taker]
    ensures SamePlan(r, w, p, v, q)
  {
    NeedIsLocal(setup, r, w, v, r.maker);
    NeedIsLocal(setup, r, w, v, r.taker);
  }

  lemma FreshIsLocal(setup: Setup, r: Request, w: World, v: World)
    requires Fresh(setup, w, r) && Repriced(setup, w, r) && Fresh(setup, v, r) && Repriced(setup, v, r)
    requires SameView(r, w, v) && w.accts[r.maker] == v.accts[r.maker] && w.accts[r.taker] == v.accts[r.taker]
    requires AfterLegs(w.accts, r)[r.maker] == AfterLegs(v.accts, r)[r.maker]
    requires AfterLegs(w.accts, r)[r.taker] == AfterLegs(v.accts, r)[r.taker]
    ensures SamePlan(r, w, PlanFill(setup, w, r), v, PlanFill(setup, v, r))
  {
    PlanOfFresh(setup, w, r);
    PlanOfFresh(setup, v, r);
    PlansFillIsLocal(setup, r, w, v, PlanFill(setup, w, r), PlanFill(setup, v, r));
  }

  lemma StopIsLocal(setup: Setup, r: Request, w: World, v: World)
    requires setup.book.Valid() && Sized(setup.book, w.accts) && Sized(setup.book, v.accts) && SameView(r, w, v)
             && r.Fill?
    requires r.maker < |w.accts| && r.taker < |w.accts| && r.ticker < |setup.book.instruments|
    requires !(Fresh(setup, w, r) && Repriced(setup, w, r))
    requires AfterLegs(w.accts, r)[r.maker] == AfterLegs(v.accts, r)[r.maker]
    requires AfterLegs(w.accts, r)[r.taker] == AfterLegs(v.accts, r)[r.taker]
    ensures PlanFill(setup, w, r).Stop? && PlanFill(setup, v, r) == PlanFill(setup, w, r)
  {
  }

  /** A plan depends only on the accounts it locks. */
  lemma PlanIsLocal(setup: Setup, r: Request, w: World, v: World)
    requires setup.book.Valid() && Sized(setup.book, w.accts) && Sized(setup.book, v.accts) && SameView(r, w, v)
    ensures SamePlan(r, w, PlanOf(setup, w, r), v, PlanOf(setup, v, r))
  {
    match r {
      case Reserve(_, _, _, _, _, _, _) => ReserveIsLocal(setup, r, w, v);
      case ReleaseOrder(_, _, _, _) => ReleaseIsLocal(setup, r, w, v);
      case Fill(_, _, _, _, _, _, _, _, _, _, _, _, _) => FillIsLocal(setup, r, w, v);
      case Reconcile(_) => ReconcileIsLocal(r, w, v);
    }
  }

  /**
    `behind` crashed after posting `r`'s plan and `ahead` did not: they differ in that table update, answered `reply`.
   */
  ghost predicate Lagging(setup: Setup, r: Request, reply: Reply, behind: World, ahead: World) {
    && setup.book.Valid() && Sized(setup.book, behind.accts) && Sized(setup.book, ahead.accts) && !r.Reconcile?
    && var plan := PlanOf(setup, behind, r);
       && plan.Go? && plan.reply == reply && (plan.entries == [] || plan.key in behind.ledger.keys)
       && LedgerStep(behind.ledger, plan.key, plan.entries) == (behind.ledger, Ok(()))
       && ahead == World(plan.accts, plan.applied, behind.ledger, plan.seen)
  }

  lemma SameTablesSamePlan(r: Request, w: World, p: Plan, c: World, q: Plan)
    requires SamePlan(r, w, p, c, q) && c.accts == w.accts && c.applied == w.applied && c.seen == w.seen
    ensures q == p
  {
    if p.Go? { assert q.accts == p.accts; }
  }

  lemma PostedAgain(s: State, key: Key, entries: seq<Entry>, t: State)
    requires Sound(s) && LedgerStep(s, key, entries) == (t, Ok(()))
    ensures Sound(t) && LedgerStep(t, key, entries) == (t, Ok(())) && (entries == [] || key in t.keys)
  {
    LedgerStepEffect(s, key, entries);
  }

  /** A crash leaves exactly this gap. */
  lemma CrashLags(setup: Setup, w: World, r: Request)
    requires Shaped(setup, w) && !r.Reconcile? && Taken(w, PlanOf(setup, w, r))
    ensures var plan := PlanOf(setup, w, r); Lagging(setup, r, plan.reply, Crash(w, plan), Execute(w, plan).0)
  {
    var plan := PlanOf(setup, w, r);
    PostedAgain(w.ledger, plan.key, plan.entries, LedgerStep(w.ledger, plan.key, plan.entries).0);
    PlanIsLocal(setup, r, w, Crash(w, plan));
    SameTablesSamePlan(r, w, plan, Crash(w, plan), PlanOf(setup, Crash(w, plan), r));
    SizedStep(setup, w, Finished(r));
  }

  /** Requests of other users neither see the gap nor change it. */
  predicate Apart(r: Request, other: Request) {
    Involved(r) !! Involved(other) && NewFills(r) !! NewFills(other)
  }

  lemma OtherStepKeepsLag(setup: Setup, r: Request, reply: Reply, other: Request, behind: World, ahead: World)
    requires Lagging(setup, r, reply, behind, ahead) && Apart(r, other) && Sound(behind.ledger)
    ensures Lagging(setup, r, reply, Next(setup, behind, Finished(other)), Next(setup, ahead, Finished(other)))
    ensures Sound(Next(setup, behind, Finished(other)).ledger)
  {
    var plan, q, q' := PlanOf(setup, behind, r), PlanOf(setup, behind, other), PlanOf(setup, ahead, other);
    PlanIsLocal(setup, r, behind, behind);
    PlanIsLocal(setup, other, behind, ahead);
    if q.Go? {
      LedgerStepEffect(behind.ledger, q.key, q.entries);
      LagAfter(setup, r, reply, other, behind, ahead, q, q');
    }
  }

  /** Two updates of different accounts commute. */
  lemma UpdatesCommute(r: Request, other: Request, behind: World, ahead: World, p: Plan, q: Plan, q': Plan,
                       behind': World, p': Plan)
    requires Apart(r, other) && p.Go? && q.Go? && q'.Go?
    requires ahead == World(p.accts, p.applied, behind.ledger, p.seen)
    requires SamePlan(r, behind, p, behind, p) && SamePlan(other, behind, q, ahead, q')
    requires behind' == World(q.accts, q.applied, behind'.ledger, q.seen) && SamePlan(r, behind, p, behind', p')
    ensures p'.Go? && p'.accts == q'.accts && p'.applied == q'.applied && p'.seen == q'.seen
  {
    forall u | 0 <= u < |p'.accts| ensures p'.accts[u] == q'.accts[u] {
      assert !(u in Involved(r) && u in Involved(other));
    }
  }

  lemma LagAfter(setup: Setup, r: Request, reply: Reply, other: Request, behind: World, ahead: World, q: Plan, q': Plan)
    requires Lagging(setup, r, reply, behind, ahead) && Apart(r, other) && Sound(behind.ledger) && q.Go?
    requires q == PlanOf(setup, behind, other) && q' == PlanOf(setup, ahead, other)
             && SamePlan(other, behind, q, ahead, q')
    requires SamePlan(r, behind, PlanOf(setup, behind, r), behind, PlanOf(setup, behind, r))
    ensures Lagging(setup, r, reply, Execute(behind, q).0, Execute(ahead, q').0)
  {
    var plan := PlanOf(setup, behind, r);
    var (t, posted) := LedgerStep(behind.ledger, q.key, q.entries);
    LedgerStepEffect(behind.ledger, q.key, q.entries);
    if posted.Ok? {
      var behind' := World(q.accts, q.applied, t, q.seen);
      PlanSized(setup, behind, other);
      PlanSized(setup, ahead, other);
      ViewAfter(r, other, behind, behind', q, ahead, q');
      PlanIsLocal(setup, r, behind, behind');
      UpdatesCommute(r, other, behind, ahead, plan, q, q', behind', PlanOf(setup, behind', r));
      KnownKeyPostsNothing(behind.ledger, t, plan.key, plan.entries);
    }
  }

  lemma ViewAfter(r: Request, other: Request, behind: World, behind': World, q: Plan, ahead: World, q': Plan)
    requires Apart(r, other) && !r.Reconcile? && q.Go? && SamePlan(other, behind, q, ahead, q')
    requires behind' == World(q.accts, q.applied, behind'.ledger, q.seen)
    ensures SameView(r, behind, behind')
  {
    forall u | u in Involved(r) && u < |behind.accts| ensures behind.accts[u] == behind'.accts[u] {
      assert u !in Involved(other);
    }
    if r.Fill? { assert r.fill in NewFills(r) && r.fill !in NewFills(other); }
  }

  lemma KnownKeyPostsNothing(s: State, t: State, key: Key, entries: seq<Entry>)
    requires LedgerStep(s, key, entries) == (s, Ok(())) && (entries == [] || key in s.keys)
             && s.keys.Keys <= t.keys.Keys
    ensures LedgerStep(t, key, entries) == (t, Ok(()))
  {
  }

  /** A run of finished requests. */
  ghost function RunAll(setup: Setup, w: World, rs: seq<Request>): World
    requires setup.book.Valid()
  {
    if rs == [] then w
    else
      var before := RunAll(setup, w, rs[..|rs| - 1]);
      if Sized(setup.book, before.accts) then Next(setup, before, Finished(rs[|rs| - 1])) else before
  }

  lemma {:induction false} OthersKeepLag(setup: Setup, r: Request, reply: Reply, behind: World, ahead: World,
                                         rs: seq<Request>)
    requires Lagging(setup, r, reply, behind, ahead) && Sound(behind.ledger)
    requires forall k :: 0 <= k < |rs| ==> Apart(r, rs[k])
    ensures Lagging(setup, r, reply, RunAll(setup, behind, rs), RunAll(setup, ahead, rs))
            && Sound(RunAll(setup, behind, rs).ledger)
  {
    if rs != [] {
      var n := |rs| - 1;
      OthersKeepLag(setup, r, reply, behind, ahead, rs[..n]);
      OtherStepKeepsLag(setup, r, reply, rs[n], RunAll(setup, behind, rs[..n]), RunAll(setup, ahead, rs[..n]));
    }
  }

  /**
    A crash and a later retry are invisible: after any requests of other users in between, the
    retry reaches exactly the state of the run that never crashed, and gives the same answer.
   */
  lemma RetryReachesUninterrupted(setup: Setup, w: World, r: Request, rs: seq<Request>)
    requires Shaped(setup, w) && !r.Reconcile? && Taken(w, PlanOf(setup, w, r))
    requires forall k :: 0 <= k < |rs| ==> Apart(r, rs[k])
    ensures var plan := PlanOf(setup, w, r);
            var crashed := RunAll(setup, Crash(w, plan), rs);
            && Sized(setup.book, crashed.accts)
            && Execute(crashed, PlanOf(setup, crashed, r))
               == (RunAll(setup, Execute(w, plan).0, rs), Execute(w, plan).1)
  {
    var plan := PlanOf(setup, w, r);
    CrashLags(setup, w, r);
    LedgerStepEffect(w.ledger, plan.key, plan.entries);
    OthersKeepLag(setup, r, plan.reply, Crash(w, plan), Execute(w, plan).0, rs);
    PlanIsLocal(setup, r, w, Crash(w, plan));
  }

  // ---------------------------------------------------------------- the reconciler

  ghost predicate Reconcilable(setup: Setup, w: World, user: nat) {
    Shaped(setup, w) && user < |w.accts| && w.accts[user].posted >= 0 && Cash(user) in w.ledger.accounts
  }

  function KeyFor(w: World, user: nat): Key
    requires user < |w.accts|
  {
    ReconcileKey(user, w.accts[user].version, Balance(w.ledger.rows, Margin(user, EVENT)))
  }

  ghost function Reconciling(w: World, user: nat): World { Execute(w, PlanReconcile(w, Reconcile(user))).0 }

  lemma ReconcilingIs(c: World, user: nat)
    requires user < |c.accts| && Drift(c, user) != 0
    ensures Reconciling(c, user) == c.(ledger :=
                                       LedgerStep(c.ledger, KeyFor(c, user), MoveEntries(user, -Drift(c, user))).0)
  {
  }

  /**
    A reconciliation closes the drift exactly when there is none, or its key is new and the
    user's cash covers what is missing. It moves money only between the user's CASH and MARGIN.
   */
  lemma ReconcileClosesDrift(setup: Setup, w: World, user: nat)
    requires Reconcilable(setup, w, user)
    ensures var w' := Reconciling(w, user);
            && w'.accts == w.accts && Sound(w'.ledger)
            && (Drift(w', user) == 0 <==>
                Drift(w, user) == 0
                || (KeyFor(w, user) !in w.ledger.keys && -Drift(w, user) <= Balance(w.ledger.rows, Cash(user))))
            && (Drift(w', user) != 0 ==> w' == w)
            && Balance(w'.ledger.rows, Cash(user)) + Balance(w'.ledger.rows, Margin(user, EVENT))
               == Balance(w.ledger.rows, Cash(user)) + Balance(w.ledger.rows, Margin(user, EVENT))
            && forall a :: a != Cash(user) && a != Margin(user, EVENT) ==>
                           Balance(w'.ledger.rows, a) == Balance(w.ledger.rows, a)
  {
    if Drift(w, user) != 0 {
      ReconcilingIs(w, user);
      MoveUnderKey(w.ledger, KeyFor(w, user), user, -Drift(w, user));
      MoveDecidesDrift(w, LedgerStep(w.ledger, KeyFor(w, user), MoveEntries(user, -Drift(w, user))).0, user,
                       KeyFor(w, user) !in w.ledger.keys && -Drift(w, user) <= Balance(w.ledger.rows, Cash(user)));
    }
  }

  lemma MoveDecidesDrift(w: World, t: State, user: nat, moved: bool)
    requires user < |w.accts| && Drift(w, user) != 0 && (!moved ==> t == w.ledger)
    requires forall a :: Balance(t.rows, a) == Balance(w.ledger.rows, a)
                         + if !moved then 0 else if a == Margin(user, EVENT) then -Drift(w, user)
                             else if a == Cash(user) then Drift(w, user) else 0
    ensures var w' := w.(ledger := t);
            && (Drift(w', user) == 0 <==> moved) && (!moved ==> w' == w)
            && Balance(t.rows, Cash(user)) + Balance(t.rows, Margin(user, EVENT))
               == Balance(w.ledger.rows, Cash(user)) + Balance(w.ledger.rows, Margin(user, EVENT))
            && forall a :: a != Cash(user) && a != Margin(user, EVENT) ==>
                           Balance(t.rows, a) == Balance(w.ledger.rows, a)
  {
  }

  /** A move of `delta` takes place exactly when the key is new and the payer can pay. */
  lemma MoveUnderKey(s: State, key: Key, user: nat, delta: int)
    requires Sound(s) && key != Blank && delta != 0 && Cash(user) in s.accounts
    requires -Balance(s.rows, Margin(user, EVENT)) <= delta
    ensures var (t, r) := LedgerStep(s, key, MoveEntries(user, delta));
            var moved := key !in s.keys && delta <= Balance(s.rows, Cash(user));
            && Sound(t) && (!moved ==> t == s)
            && (key in s.keys ==> r.Ok?) && (key !in s.keys ==> (r.Ok? <==> moved))
            && forall a :: Balance(t.rows, a) == Balance(s.rows, a)
                           + if !moved then 0 else if a == Margin(user, EVENT) then delta
                               else if a == Cash(user) then -delta else 0
  {
    if key in s.keys {
      MoveDelta(user, delta);
    } else {
      MoveStep(s, key, user, delta);
    }
  }

  /** The state after a request crashed between its posting and its commit. */
  ghost function Crashing(setup: Setup, w: World, r: Request): World
    requires setup.book.Valid() && Sized(setup.book, w.accts)
  {
    Crash(w, PlanOf(setup, w, r))
  }

  /** The same reserve of another order id. */
  function Renamed(r: Request, order: nat): Request
    requires r.Reserve?
  {
    Reserve(r.user, order, r.ticker, r.side, r.action, r.price, r.count)
  }

  /** The same reserve under another order id plans the same posting and the same change. */
  lemma OtherIdSamePlan(setup: Setup, w: World, v: World, r: Request, order: nat)
    requires setup.book.Valid() && r.Reserve? && PlanReserve(setup, w, r).Go? && v.accts == w.accts
    requires r.user < |w.accts| && !Has(w.accts[r.user].orders, order)
    ensures var p, q := PlanReserve(setup, w, r), PlanReserve(setup, v, Renamed(r, order));
            q.Go? && q.key == ReserveKey(order) && q.entries == p.entries && |q.accts| == |p.accts| == |w.accts|
            && q.accts[r.user].posted == p.accts[r.user].posted
  {
    var a := w.accts[r.user];
    var (qty, price) := StoredUnitOrder(r.side, r.action, r.price, r.count);
    assert Working(a.orders + [Reserved(order, r.ticker, qty, price, 0)])
           == Working(a.orders + [Reserved(r.order, r.ticker, qty, price, 0)]);
  }

  /** A reserve the user can pay for, whose posting the ledger has not seen. */
  ghost predicate Payable(setup: Setup, w: World, r: Request) {
    && Shaped(setup, w) && r.Reserve? && r.user < |w.accts| && PlanReserve(setup, w, r).Go?
    && Cash(r.user) in w.ledger.accounts && 0 <= w.accts[r.user].posted <= Balance(w.ledger.rows, Margin(r.user, EVENT))
    && 0 < Change(w, PlanReserve(setup, w, r), r.user) <= Balance(w.ledger.rows, Cash(r.user))
    && ReserveKey(r.order) !in w.ledger.keys
  }

  /** `c` is `w` with `change` moved from the user's CASH to its MARGIN under `key`. */
  ghost predicate MovedUnder(setup: Setup, w: World, user: nat, key: Key, change: int, c: World) {
    && c.accts == w.accts && user < |w.accts| && Shaped(setup, c) && Cash(user) in c.ledger.accounts
    && c.ledger.keys.Keys == w.ledger.keys.Keys + {key}
    && Balance(c.ledger.rows, Margin(user, EVENT)) == Balance(w.ledger.rows, Margin(user, EVENT)) + change
    && Balance(c.ledger.rows, Cash(user)) == Balance(w.ledger.rows, Cash(user)) - change
  }

  /** It crashes after its posting: the amount has left CASH, and all of it is drift. */
  lemma PayableOrphans(setup: Setup, w: World, r: Request, change: int)
    requires Payable(setup, w, r) && change == Change(w, PlanReserve(setup, w, r), r.user)
    ensures MovedUnder(setup, w, r.user, ReserveKey(r.order), change, Crashing(setup, w, r))
  {
    var plan := PlanReserve(setup, w, r);
    assert plan.entries == MoveEntries(r.user, change);
    MoveUnderKey(w.ledger, plan.key, r.user, change);
    LedgerStepEffect(w.ledger, plan.key, plan.entries);
  }

  /** The correction of a drift the user's MARGIN account shows too much of. */
  lemma CorrectionEffect(setup: Setup, c: World, user: nat, key: Key, drift: int)
    requires Reconcilable(setup, c, user) && drift == Drift(c, user) > 0 && key == KeyFor(c, user)
             && key !in c.ledger.keys
    ensures MovedUnder(setup, c, user, key, -drift, Reconciling(c, user))
  {
    ReconcilingIs(c, user);
    BalanceIsFold(c.ledger.rows, Cash(user));
    MoveUnderKey(c.ledger, key, user, -drift);
    LedgerStepEffect(c.ledger, key, MoveEntries(user, -drift));
  }

  /** The account once the first reserve has crashed and been corrected: everything as it was, but two keys taken. */
  lemma CorrectedIsPayable(setup: Setup, w: World, r: Request, order: nat, c: World, fixed: World)
    requires Payable(setup, w, r) && Payable(setup, w, Renamed(r, order)) && r.order != order && Drift(w, r.user) == 0
    requires MovedUnder(setup, w, r.user, ReserveKey(r.order), Change(w, PlanReserve(setup, w, r), r.user), c)
    requires MovedUnder(setup, c, r.user, KeyFor(c, r.user), -Change(w, PlanReserve(setup, w, r), r.user), fixed)
    requires !Has(w.accts[r.user].orders, order)
    ensures Payable(setup, fixed, Renamed(r, order)) && Drift(fixed, r.user) == 0
            && KeyFor(c, r.user) in fixed.ledger.keys
    ensures Change(fixed, PlanReserve(setup, fixed, Renamed(r, order)), r.user)
            == Change(w, PlanReserve(setup, w, r), r.user)
  {
    OtherIdSamePlan(setup, w, fixed, r, order);
  }

  lemma NotReserved(setup: Setup, w: World, r: Request)
    requires Payable(setup, w, r)
    ensures !Has(w.accts[r.user].orders, r.order)
  {
  }

  /** The key of a correction when MARGIN is ahead of the tables by `change`. */
  function KeyAhead(w: World, user: nat, change: int): Key
    requires user < |w.accts|
  {
    ReconcileKey(user, w.accts[user].version, w.accts[user].posted + change)
  }

  /** Back in step after a crash and its correction, with the second reserve still to come. */
  ghost predicate BackInStep(setup: Setup, w: World, r: Request, change: int, fixed: World) {
    && Payable(setup, fixed, r) && fixed.accts == w.accts && Drift(fixed, r.user) == 0
    && Change(fixed, PlanReserve(setup, fixed, r), r.user) == change && KeyAhead(w, r.user, change) in fixed.ledger.keys
  }

  lemma FirstCrash(setup: Setup, w: World, r: Request, order: nat, change: int)
    requires Payable(setup, w, r) && Payable(setup, w, Renamed(r, order)) && r.order != order && Drift(w, r.user) == 0
    requires change == Change(w, PlanReserve(setup, w, r), r.user) && KeyAhead(w, r.user, change) !in w.ledger.keys
    ensures BackInStep(setup, w, Renamed(r, order), change, Reconciling(Crashing(setup, w, r), r.user))
  {
    var c := Crashing(setup, w, r);
    PayableOrphans(setup, w, r, change);
    CorrectionEffect(setup, c, r.user, KeyAhead(w, r.user, change), change);
    NotReserved(setup, w, Renamed(r, order));
    CorrectedIsPayable(setup, w, r, order, c, Reconciling(c, r.user));
  }

  /** A drift whose key the ledger knows is never corrected. */
  lemma SecondCrash(setup: Setup, w: World, r: Request, change: int, fixed: World)
    requires r.Reserve? && r.user < |w.accts| && BackInStep(setup, w, r, change, fixed)
    ensures var again := Crashing(setup, fixed, r);
            |again.accts| == |w.accts| && Drift(again, r.user) == change && Reconciling(again, r.user) == again
  {
    PayableOrphans(setup, fixed, r, change);
    KnownKeyNotCorrected(setup, Crashing(setup, fixed, r), r.user);
  }

  lemma KnownKeyNotCorrected(setup: Setup, again: World, user: nat)
    requires Reconcilable(setup, again, user) && Drift(again, user) > 0 && KeyFor(again, user) in again.ledger.keys
    ensures Reconciling(again, user) == again
  {
    ReconcileClosesDrift(setup, again, user);
  }

  /**
    Not every drift is corrected. From an account in step, a reserve the user can pay for crashes
    after its posting and is corrected; the same reserve under another order id crashes too and
    leaves the same balance at the same version. The second correction reuses the first one's key,
    so the ledger answers without moving money, now and at every later pass, and the drift stays.
   */
  lemma SecondCrashDefeatsReconciler(setup: Setup, w: World, r: Request, order: nat)
    requires Payable(setup, w, r) && Payable(setup, w, Renamed(r, order)) && r.order != order && Drift(w, r.user) == 0
    requires KeyAhead(w, r.user, Change(w, PlanReserve(setup, w, r), r.user)) !in w.ledger.keys
    ensures var fixed := Reconciling(Crashing(setup, w, r), r.user);
            && fixed.accts == w.accts && Drift(fixed, r.user) == 0 && Shaped(setup, fixed)
            && var again := Crashing(setup, fixed, Renamed(r, order));
               && |again.accts| == |w.accts| && Drift(again, r.user) == Change(w, PlanReserve(setup, w, r), r.user) > 0
               && Reconciling(again, r.user) == again
  {
    var change := Change(w, PlanReserve(setup, w, r), r.user);
    FirstCrash(setup, w, r, order, change);
    SecondCrash(setup, w, Renamed(r, order), change, Reconciling(Crashing(setup, w, r), r.user));
  }

  /**
    Reserve keys carry no version. Reserving an order id again after it was released answers
    "approved" and writes the tables, but moves no money: the whole requirement is missing from
    the MARGIN account.
   */
  lemma ReusedOrderIdLocksNothing(setup: Setup, w: World, r: Request)
    requires Shaped(setup, w) && r.Reserve? && ReserveKey(r.order) in w.ledger.keys
    requires PlanReserve(setup, w, r).Go?
    ensures var plan := PlanReserve(setup, w, r);
            var (w', reply) := Execute(w, plan);
            && (plan.entries != [] ==> reply == plan.reply && reply.Approved? && w'.ledger == w.ledger)
            && (plan.entries != [] ==> Drift(w', r.user) == Drift(w, r.user) - Change(w, plan, r.user)
                                       && Change(w, plan, r.user) != 0)
  {
    var plan := PlanReserve(setup, w, r);
    MoveDelta(r.user, Change(w, plan, r.user));
  }

  lemma FillBalances(setup: Setup, w: World, r: Request, plan: Plan)
    requires Repriced(setup, w, r) && PlansFill(setup, w, r, plan)
    ensures plan.key != Blank && WellFormed(plan.entries) && Balanced(plan.entries)
  {
    NetIs(setup, w, r, Clearing(EVENT));
    FillEntriesEffect(PartiesOf(setup, w, r), UnitPaid(setup, r) * r.count, Clearing(EVENT));
  }

  /** A posting that is not empty is one the ledger accepts again under its key. */
  lemma PlansBalance(setup: Setup, w: World, r: Request)
    requires Shaped(setup, w) && !r.Reconcile? && PlanOf(setup, w, r).Go?
    ensures var plan := PlanOf(setup, w, r); plan.key != Blank && WellFormed(plan.entries) && Balanced(plan.entries)
  {
    match r {
      case Reserve(_, _, _, _, _, _, _) => MoveDelta(r.user, Change(w, PlanReserve(setup, w, r), r.user));
      case ReleaseOrder(_, _, _, _) => MoveDelta(r.user, Change(w, PlanRelease(setup, w, r), r.user));
      case Fill(_, _, _, _, _, _, _, _, _, _, _, _, _) =>
        PlannedIsFresh(setup, w, r);
        FillBalances(setup, w, r, PlanFill(setup, w, r));
    }
  }

  /**
    A reserve, release or fill that is carried out leaves a user's drift as it was if and only if
    its ledger key is new, its posting is empty or the user's margin does not change. For a reserve
    or release of the user the last two are the same.
   */
  lemma DriftKeptIff(setup: Setup, w: World, r: Request, user: nat)
    requires Shaped(setup, w) && !r.Reconcile? && user < |w.accts| && PlanOf(setup, w, r).Go?
    ensures var plan := PlanOf(setup, w, r);
            && |plan.accts| == |w.accts| == |Execute(w, plan).0.accts|
            && (Drift(Execute(w, plan).0, user) == Drift(w, user)
                <==> plan.key !in w.ledger.keys || plan.entries == [] || Change(w, plan, user) == 0)
            && (!r.Fill? && r.user == user ==> (plan.entries == [] <==> Change(w, plan, user) == 0))
  {
    var plan := PlanOf(setup, w, r);
    EntriesMatchTables(setup, w, r, user);
    PlansBalance(setup, w, r);
    PlanDrift(w, plan, user);
  }
}
