/** Where a settlement ends, and that crashes do not change it. */
module SettlementResume {
  import opened Common
  import opened Payoffs
  import opened WorstCase
  import opened Ledger
  import opened LedgerRuns
  import opened MarginExec
  import opened MarginRuns
  import opened Exchange
  import opened Settlement
  import opened SettlementRuns
  import opened SettlementSafety

  // ---------------------------------------------------------------- CLEARING

  lemma {:induction false} SameNets(a: seq<Line>, b: seq<Line>)
    requires |a| == |b| && forall i :: 0 <= i < |a| ==> a[i].net == b[i].net
    ensures LineTotal(a) == LineTotal(b)
  {
    if a != [] { SameNets(a[..|a| - 1], b[..|b| - 1]); }
  }

  /** The nets of the lines among the first `n` that are released, or that are not. */
  function NetWhere(ledger: State, lines: seq<Line>, released: bool, n: nat): int
    requires n <= |lines|
  {
    if n == 0 then 0
    else NetWhere(ledger, lines, released, n - 1)
         + if Released(ledger, lines[n - 1]) == released then lines[n - 1].net else 0
  }

  lemma {:induction false} NetsSplit(ledger: State, lines: seq<Line>, n: nat)
    requires n <= |lines|
    ensures LineTotal(lines[..n]) == NetWhere(ledger, lines, true, n) + NetWhere(ledger, lines, false, n)
    ensures MovedTo(ledger, lines, Clearing(EVENT), n) == -NetWhere(ledger, lines, true, n)
  {
    if n > 0 {
      NetsSplit(ledger, lines, n - 1);
      assert lines[..n][..n - 1] == lines[..n - 1];
    }
  }

  lemma {:induction false} NetsSigned(ledger: State, lines: seq<Line>, released: bool, sign: int, n: nat)
    requires n <= |lines| && (sign == 1 || sign == -1)
    requires forall i :: 0 <= i < |lines| && Released(ledger, lines[i]) == released ==> sign * lines[i].net >= 0
    ensures sign * NetWhere(ledger, lines, released, n) >= 0
  {
    if n > 0 { NetsSigned(ledger, lines, released, sign, n - 1); }
  }

  /** Lines released in order of their nets, which cancel in total, have collected at least what they paid. */
  lemma LosersFirst(planned: seq<Line>, lines: seq<Line>, ledger: State)
    requires Progressed(planned, lines, ledger) && LineTotal(lines) == 0
    ensures MovedTo(ledger, lines, Clearing(EVENT), |lines|) >= 0
  {
    NetsSplit(ledger, lines, |lines|);
    assert lines[..|lines|] == lines;
    if exists j :: 0 <= j < |lines| && !Released(ledger, lines[j]) && lines[j].net < 0 {
      var j :| 0 <= j < |lines| && !Released(ledger, lines[j]) && lines[j].net < 0;
      forall i | 0 <= i < |lines| && Released(ledger, lines[i]) ensures lines[i].net <= 0 {
        assert Ahead(ledger, lines[i], lines[j]);
      }
      NetsSigned(ledger, lines, true, -1, |lines|);
    } else {
      NetsSigned(ledger, lines, false, 1, |lines|);
    }
  }

  /** CLEARING is funded before it pays: it is never negative at any point of a settlement. */
  lemma ClearingNeverNegative(setup: Setup, w0: World, x: Outcome, p: Process)
    requires Quiet(setup, w0, x) && Underway(setup, w0, x, p)
    ensures Balance(p.at.world.ledger.rows, Clearing(EVENT)) >= 0
  {
    var planned := PlanLines(setup.book, w0.accts, x);
    PlannedLines(setup, w0, x);
    SameNets(p.at.lines.value, planned);
    LosersFirst(planned, p.at.lines.value, p.at.world.ledger);
  }

  // ---------------------------------------------------------------- the end

  /** Not CLEARING, nor the MARGIN on the event or the CASH of any of the first `n` users. */
  predicate Elsewhere(a: Account, n: nat) {
    a != Clearing(EVENT) && !(a.Margin? && a.event == EVENT && a.user < n) && !(a.Cash? && a.user < n)
  }

  /**
    The settled event: every account flat with nothing posted, MARGIN and CLEARING empty, each
    user paid its released margin and what its positions are worth at `x`, no other balance moved.
   */
  ghost predicate Settled(setup: Setup, w0: World, x: Outcome, t: Progress)
    requires setup.book.Valid() && Sized(setup.book, w0.accts)
  {
    var w := t.world;
    && t.completed && |w.accts| == |w0.accts| && Sound(w.ledger)
    && (forall u :: 0 <= u < |w.accts| ==>
                      && w.accts[u].net == Zeros(|setup.book.instruments|) && w.accts[u].orders == []
                      && w.accts[u].posted == 0
                      && Balance(w.ledger.rows, Margin(u, EVENT)) == 0
                      && Balance(w.ledger.rows, Cash(u))
                         == Balance(w0.ledger.rows, Cash(u)) + w0.accts[u].posted
                            + SettlementOf(setup.book, w0.accts[u].net, x))
    && Balance(w.ledger.rows, Clearing(EVENT)) == 0
    && forall a :: Elsewhere(a, |w0.accts|) ==> Balance(w.ledger.rows, a) == Balance(w0.ledger.rows, a)
  }

  lemma {:induction false} OtherAccountsUnmoved(ledger: State, lines: seq<Line>, a: Account, n: nat)
    requires n <= |lines|
    requires forall i :: 0 <= i < |lines| ==> a != Margin(lines[i].user, EVENT) && a != Cash(lines[i].user)
    requires a != Clearing(EVENT)
    ensures MovedTo(ledger, lines, a, n) == 0
  {
    if n > 0 { OtherAccountsUnmoved(ledger, lines, a, n - 1); }
  }

  /** A listed account once its line is marked. */
  lemma ListedAccountSettled(w0: World, ledger: State, lines: seq<Line>, i: nat)
    requires LedgerMatches(w0, ledger, lines) && i < |lines| && lines[i].posted
    requires forall j, k :: 0 <= j < k < |lines| ==> lines[j].user != lines[k].user
    ensures var l := lines[i];
            && Balance(ledger.rows, Margin(l.user, EVENT)) == Balance(w0.ledger.rows, Margin(l.user, EVENT)) - l.margin
            && Balance(ledger.rows, Cash(l.user)) == Balance(w0.ledger.rows, Cash(l.user)) + l.margin + l.net
  {
    MovedByOwnLine(ledger, lines, i, Margin(lines[i].user, EVENT), |lines|);
    MovedByOwnLine(ledger, lines, i, Cash(lines[i].user), |lines|);
  }

  /** An account without a line is not touched. */
  lemma UnlistedAccountKept(w0: World, ledger: State, lines: seq<Line>, u: nat)
    requires LedgerMatches(w0, ledger, lines) && !Planned(lines, u)
    ensures Balance(ledger.rows, Margin(u, EVENT)) == Balance(w0.ledger.rows, Margin(u, EVENT))
    ensures Balance(ledger.rows, Cash(u)) == Balance(w0.ledger.rows, Cash(u))
  {
    assert forall i :: 0 <= i < |lines| ==> lines[i].user != u;
    OtherAccountsUnmoved(ledger, lines, Margin(u, EVENT), |lines|);
    OtherAccountsUnmoved(ledger, lines, Cash(u), |lines|);
  }

  /** What the plan says about one account. */
  lemma PlanOfAccount(setup: Setup, w0: World, x: Outcome, u: nat)
    requires Quiet(setup, w0, x) && u < |w0.accts|
    ensures Balance(w0.ledger.rows, Margin(u, EVENT)) == w0.accts[u].posted
    ensures var planned := PlanLines(setup.book, w0.accts, x);
            && (!Planned(planned, u) ==> w0.accts[u].posted == 0 && SettlementOf(setup.book, w0.accts[u].net, x) == 0)
            && forall i :: 0 <= i < |planned| && planned[i].user == u ==>
                             planned[i].margin == w0.accts[u].posted
                                 && planned[i].net == SettlementOf(setup.book, w0.accts[u].net, x)
  {
    var planned := PlanLines(setup.book, w0.accts, x);
    PlanFacts(setup.book, w0.accts, x);
    PostedCoversNet(setup, w0, x, u);
    assert Funded(setup.book, w0.ledger, u, w0.accts[u]);
    if !Planned(planned, u) { ClosedOwesNothing(setup.book, w0.accts[u], x); }
    forall i | 0 <= i < |planned| && planned[i].user == u ensures LineOf(setup.book, w0.accts, x, planned[i]) {}
  }

  /** Every line is marked and everything matches the plan. */
  ghost predicate AllMarked(w0: World, w: World, planned: seq<Line>, lines: seq<Line>) {
    Progressed(planned, lines, w.ledger) && TablesMatch(w0, w, lines) && LedgerMatches(w0, w.ledger, lines)
        && !Pending(lines)
  }

  lemma MarkedAccountSettled(w0: World, w: World, planned: seq<Line>, lines: seq<Line>, u: nat, net: int)
    requires AllMarked(w0, w, planned, lines) && u < |w0.accts|
    requires Balance(w0.ledger.rows, Margin(u, EVENT)) == w0.accts[u].posted
    requires !Planned(planned, u) ==> w0.accts[u].posted == 0 && net == 0
    requires forall i :: 0 <= i < |planned| && planned[i].user == u ==>
                         planned[i].margin == w0.accts[u].posted && planned[i].net == net
    ensures w.accts[u].posted == 0 && Balance(w.ledger.rows, Margin(u, EVENT)) == 0
    ensures Balance(w.ledger.rows, Cash(u)) == Balance(w0.ledger.rows, Cash(u)) + w0.accts[u].posted + net
  {
    SameUsersPlanned(planned, lines, u);
    if Planned(lines, u) {
      var i :| 0 <= i < |lines| && lines[i].user == u;
      ListedAccountSettled(w0, w.ledger, lines, i);
      assert planned[i].user == u && lines[i].posted;
    } else {
      UnlistedAccountKept(w0, w.ledger, lines, u);
    }
  }

  lemma AccountSettled(setup: Setup, w0: World, x: Outcome, w: World, lines: seq<Line>, u: nat)
    requires Quiet(setup, w0, x) && AllMarked(w0, w, PlanLines(setup.book, w0.accts, x), lines) && u < |w0.accts|
    ensures && w.accts[u].posted == 0
            && Balance(w.ledger.rows, Margin(u, EVENT)) == 0
            && Balance(w.ledger.rows, Cash(u)) == Balance(w0.ledger.rows, Cash(u)) + w0.accts[u].posted
                                                  + SettlementOf(setup.book, w0.accts[u].net, x)
  {
    PlanOfAccount(setup, w0, x, u);
    MarkedAccountSettled(w0, w, PlanLines(setup.book, w0.accts, x), lines, u,
                         SettlementOf(setup.book, w0.accts[u].net, x));
  }

  lemma ClearingSettled(planned: seq<Line>, lines: seq<Line>, ledger: State)
    requires Progressed(planned, lines, ledger) && !Pending(lines) && LineTotal(planned) == 0
    ensures MovedTo(ledger, lines, Clearing(EVENT), |lines|) == 0
  {
    SameNets(lines, planned);
    NetsSplit(ledger, lines, |lines|);
    NetsSigned(ledger, lines, false, 1, |lines|);
    NetsSigned(ledger, lines, false, -1, |lines|);
    assert lines[..|lines|] == lines;
  }

  lemma ElsewhereUnmoved(w0: World, ledger: State, lines: seq<Line>, n: nat)
    requires LedgerMatches(w0, ledger, lines) && forall i :: 0 <= i < |lines| ==> lines[i].user < n
    ensures forall a :: Elsewhere(a, n) ==> Balance(ledger.rows, a) == Balance(w0.ledger.rows, a)
  {
    forall a | Elsewhere(a, n) ensures Balance(ledger.rows, a) == Balance(w0.ledger.rows, a) {
      OtherAccountsUnmoved(ledger, lines, a, |lines|);
    }
  }

  lemma AccountsSettled(setup: Setup, w0: World, x: Outcome, w: World, lines: seq<Line>)
    requires Quiet(setup, w0, x) && AllMarked(w0, w, PlanLines(setup.book, w0.accts, x), lines)
    ensures forall u :: 0 <= u < |w0.accts| ==>
                          && w.accts[u].posted == 0 && Balance(w.ledger.rows, Margin(u, EVENT)) == 0
                          && Balance(w.ledger.rows, Cash(u)) == Balance(w0.ledger.rows, Cash(u)) + w0.accts[u].posted
                                                                + SettlementOf(setup.book, w0.accts[u].net, x)
  {
    forall u: nat | u < |w0.accts|
      ensures w.accts[u].posted == 0 && Balance(w.ledger.rows, Margin(u, EVENT)) == 0
      ensures Balance(w.ledger.rows, Cash(u)) == Balance(w0.ledger.rows, Cash(u)) + w0.accts[u].posted
                                                 + SettlementOf(setup.book, w0.accts[u].net, x)
    {
      AccountSettled(setup, w0, x, w, lines, u);
    }
  }

  /** Once every line is marked, CLEARING is empty and the settlement completes. */
  lemma FinishSucceeds(setup: Setup, w0: World, x: Outcome, p: Process)
    requires Quiet(setup, w0, x) && Underway(setup, w0, x, p) && !Pending(p.at.lines.value)
    ensures FinishStep(setup, p).Ok? && Settled(setup, w0, x, FinishStep(setup, p).value.at)
  {
    var lines, ledger := p.at.lines.value, p.at.world.ledger;
    PlannedLines(setup, w0, x);
    ClearingSettled(PlanLines(setup.book, w0.accts, x), lines, ledger);
    AccountsSettled(setup, w0, x, p.at.world, lines);
    ElsewhereUnmoved(w0, ledger, lines, |w0.accts|);
  }

  // ---------------------------------------------------------------- every step

  /** How many steps are left. */
  function Measure(p: Process): nat {
    if p.at.completed || p.at.lines.None? then 0
    else 2 * PendingCount(p.at.lines.value) + if p.sent && Pending(p.at.lines.value) then 0 else 1
  }

  lemma {:induction false} NoneCounted(lines: seq<Line>)
    ensures Pending(lines) <==> PendingCount(lines) > 0
  {
    if lines != [] {
      var n := |lines| - 1;
      NoneCounted(lines[..n]);
      if Pending(lines[..n]) {
        var i :| 0 <= i < n && !lines[..n][i].posted;
        assert !lines[i].posted;
      }
      if Pending(lines) && lines[n].posted {
        var i :| 0 <= i < |lines| && !lines[i].posted;
        assert !lines[..n][i].posted;
      }
    }
  }

  lemma NoRefusal(setup: Setup, w0: World, x: Outcome, p: Process, call: Call)
    requires Quiet(setup, w0, x) && Underway(setup, w0, x, p) && Proper(setup, call)
    ensures Refusal(setup, p.at.world.accts, call) == None
  {
  }

  /** Underway, or settled and done. */
  ghost predicate Sane(setup: Setup, w0: World, x: Outcome, p: Process)
    requires setup.book.Valid() && Sized(setup.book, w0.accts)
  {
    if p.at.completed then Settled(setup, w0, x, p.at) && !p.sent else Underway(setup, w0, x, p)
  }

  lemma PostNearer(setup: Setup, w0: World, x: Outcome, p: Process)
    requires Quiet(setup, w0, x) && Underway(setup, w0, x, p) && Pending(p.at.lines.value) && !p.sent
    ensures var r := PostStep(p, p.at.lines.value[First(p.at.lines.value)]);
            r.Ok? && Sane(setup, w0, x, r.value) && Measure(r.value) == Measure(p) - 1
  {
    PostStepSucceeds(setup, w0, x, p);
  }

  lemma MarkNearer(setup: Setup, w0: World, x: Outcome, p: Process)
    requires Sized(setup.book, w0.accts) && setup.book.Valid() && Underway(setup, w0, x, p) && p.sent
    ensures var q := MarkStep(p, p.at.lines.value, First(p.at.lines.value));
            Sane(setup, w0, x, q) && Measure(q) == Measure(p) - 1
  {
    var lines := p.at.lines.value;
    MarkStepKeeps(setup, w0, x, p);
    CountMark(lines, First(lines));
    NoneCounted(lines);
    NoneCounted(lines[First(lines) := lines[First(lines)].(posted := true)]);
  }

  lemma FinishNearer(setup: Setup, w0: World, x: Outcome, p: Process)
    requires Quiet(setup, w0, x) && Underway(setup, w0, x, p) && !Pending(p.at.lines.value)
    ensures FinishStep(setup, p).Ok? && Sane(setup, w0, x, FinishStep(setup, p).value)
    ensures Measure(FinishStep(setup, p).value) == Measure(p) - 1
  {
    FinishSucceeds(setup, w0, x, p);
    NoneCounted(p.at.lines.value);
  }

  /** What a proper call does next. */
  lemma AdvanceIs(setup: Setup, w0: World, x: Outcome, p: Process, call: Call)
    requires Quiet(setup, w0, x) && Underway(setup, w0, x, p) && Proper(setup, call)
    ensures Workable(setup, p)
    ensures var lines := p.at.lines.value;
            Advance(setup, p, call) == if !Pending(lines) then FinishStep(setup, p)
                                       else if !p.sent then PostStep(p, lines[First(lines)])
                                       else Ok(MarkStep(p, lines, First(lines)))
  {
    NoRefusal(setup, w0, x, p, call);
  }

  /** Every step of every proper call succeeds, keeps the books in order, and brings the end one step nearer. */
  lemma AdvanceSucceeds(setup: Setup, w0: World, x: Outcome, p: Process, call: Call)
    requires Quiet(setup, w0, x) && Underway(setup, w0, x, p) && Proper(setup, call)
    ensures Workable(setup, p) && Advance(setup, p, call).Ok?
    ensures Sane(setup, w0, x, Advance(setup, p, call).value)
            && Measure(Advance(setup, p, call).value) == Measure(p) - 1
  {
    AdvanceIs(setup, w0, x, p, call);
    if !Pending(p.at.lines.value) {
      FinishNearer(setup, w0, x, p);
    } else if !p.sent {
      PostNearer(setup, w0, x, p);
    } else {
      MarkNearer(setup, w0, x, p);
    }
  }

  // ---------------------------------------------------------------- crashes

  /** What can happen to a settlement: a call makes one step, or crashes. */
  datatype Move = Go(call: Call) | Crash

  /** One move; a crash loses what only the running call knew. */
  function Make(setup: Setup, r: Result<Process, Problem>, move: Move): (next: Result<Process, Problem>)
    requires r.Ok? ==> Workable(setup, r.value)
    ensures next.Ok? ==> Workable(setup, next.value)
  {
    match move
    case Crash => if r.Err? then r else Ok(r.value.(sent := false))
    case Go(call) => Then(setup, r, call)
  }

  function After(setup: Setup, p: Process, moves: seq<Move>): (r: Result<Process, Problem>)
    requires Workable(setup, p)
    ensures r.Ok? ==> Workable(setup, r.value)
  {
    if moves == [] then Ok(p) else Make(setup, After(setup, p, moves[..|moves| - 1]), moves[|moves| - 1])
  }

  ghost predicate ProperMoves(setup: Setup, moves: seq<Move>)
    requires setup.book.Valid()
  {
    forall k :: 0 <= k < |moves| && moves[k].Go? ==> Proper(setup, moves[k].call)
  }

  lemma {:induction false} StepsFromFront(setup: Setup, p: Process, q: Process, call: Call, n: nat)
    requires Workable(setup, p) && Advance(setup, p, call) == Ok(q) && Workable(setup, q)
    ensures Steps(setup, p, call, n + 1) == Steps(setup, q, call, n)
  {
    if n == 0 {
      assert Steps(setup, p, call, 1) == Then(setup, Steps(setup, p, call, 0), call);
    } else {
      StepsFromFront(setup, p, q, call, n - 1);
      assert Steps(setup, p, call, n + 1) == Then(setup, Steps(setup, p, call, n), call);
      assert Steps(setup, q, call, n) == Then(setup, Steps(setup, q, call, n - 1), call);
    }
  }

  lemma StepsNearer(setup: Setup, p: Process, q: Process, call: Call)
    requires Workable(setup, p) && Advance(setup, p, call) == Ok(q) && Workable(setup, q)
             && Measure(q) + 1 == Measure(p)
    ensures Steps(setup, p, call, Measure(p)) == Steps(setup, q, call, Measure(q))
  {
    StepsFromFront(setup, p, q, call, Measure(q));
  }

  /** One step of a call leaves the same steps to do, less one. */
  lemma OneStepNearer(setup: Setup, w0: World, x: Outcome, p: Process, call: Call)
    requires Quiet(setup, w0, x) && Underway(setup, w0, x, p) && Proper(setup, call)
    ensures Workable(setup, p) && Advance(setup, p, call).Ok?
    ensures var q := Advance(setup, p, call).value;
            && Sane(setup, w0, x, q) && Measure(q) < Measure(p) && Workable(setup, q)
            && Steps(setup, p, call, Measure(p)) == Steps(setup, q, call, Measure(q))
  {
    AdvanceSucceeds(setup, w0, x, p, call);
    StepStaysWorkable(setup, p, call);
    StepsNearer(setup, p, Advance(setup, p, call).value, call);
  }

  /** Left alone, a call completes in exactly `Measure` steps. */
  lemma {:induction false} CallCompletes(setup: Setup, w0: World, x: Outcome, p: Process, call: Call)
    requires Quiet(setup, w0, x) && Sane(setup, w0, x, p) && Workable(setup, p) && Proper(setup, call)
    ensures Steps(setup, p, call, Measure(p)).Ok?
    ensures var end := Steps(setup, p, call, Measure(p)).value; Settled(setup, w0, x, end.at) && !end.sent
    decreases Measure(p)
  {
    if !p.at.completed {
      OneStepNearer(setup, w0, x, p, call);
      CallCompletes(setup, w0, x, Advance(setup, p, call).value, call);
    }
  }

  /** A crash between a posting and its mark costs one repeated posting and nothing else. */
  lemma CrashLosesNothing(setup: Setup, w0: World, x: Outcome, p: Process, call: Call)
    requires Quiet(setup, w0, x) && Underway(setup, w0, x, p) && Proper(setup, call)
    ensures var crashed := p.(sent := false);
            && Underway(setup, w0, x, crashed) && Workable(setup, crashed) && Workable(setup, p)
            && Steps(setup, crashed, call, Measure(crashed)) == Steps(setup, p, call, Measure(p))
  {
    var crashed := p.(sent := false);
    assert Underway(setup, w0, x, crashed);
    if p.sent { RepeatedStep(setup, w0, x, p, call); }
  }

  lemma RepeatedStep(setup: Setup, w0: World, x: Outcome, p: Process, call: Call)
    requires Quiet(setup, w0, x) && Underway(setup, w0, x, p.(sent := false)) && Underway(setup, w0, x, p) && p.sent
    requires Proper(setup, call)
    ensures var crashed := p.(sent := false);
            && Workable(setup, crashed) && Workable(setup, p) && Measure(crashed) == Measure(p) + 1
            && Steps(setup, crashed, call, Measure(p) + 1) == Steps(setup, p, call, Measure(p))
  {
    var crashed := p.(sent := false);
    NoRefusal(setup, w0, x, crashed, call);
    PostStepSucceeds(setup, w0, x, crashed);
    assert Advance(setup, crashed, call) == Ok(p);
    StepsFromFront(setup, crashed, p, call, Measure(p));
  }

  /** Two proper calls step alike once the lines are planned: only the first outcome matters. */
  lemma CallsAgree(setup: Setup, w0: World, x: Outcome, p: Process, call: Call, other: Call)
    requires Quiet(setup, w0, x) && Underway(setup, w0, x, p) && Proper(setup, call) && Proper(setup, other)
    ensures Workable(setup, p) && Advance(setup, p, call) == Advance(setup, p, other)
  {
    NoRefusal(setup, w0, x, p, call);
    NoRefusal(setup, w0, x, p, other);
  }

  /** Either underway towards `end`, or there. */
  ghost predicate Toward(setup: Setup, w0: World, x: Outcome, q: Process, call: Call, end: Process)
    requires Quiet(setup, w0, x) && Proper(setup, call)
  {
    if q.at.completed then q == end
    else Underway(setup, w0, x, q) && Workable(setup, q) && Steps(setup, q, call, Measure(q)) == Ok(end)
  }

  lemma StepStaysToward(setup: Setup, w0: World, x: Outcome, q: Process, call: Call, end: Process, other: Call)
    requires Quiet(setup, w0, x) && Proper(setup, call) && Proper(setup, other) && !q.at.completed
    requires Toward(setup, w0, x, q, call, end) && Workable(setup, q)
    ensures Advance(setup, q, other).Ok? && Toward(setup, w0, x, Advance(setup, q, other).value, call, end)
  {
    CallsAgree(setup, w0, x, q, call, other);
    OneStepNearer(setup, w0, x, q, call);
  }

  lemma MoveStaysToward(setup: Setup, w0: World, x: Outcome, q: Process, call: Call, end: Process, move: Move)
    requires Quiet(setup, w0, x) && Proper(setup, call) && (move.Go? ==> Proper(setup, move.call))
    requires Toward(setup, w0, x, q, call, end) && Workable(setup, q) && !end.sent
    ensures Make(setup, Ok(q), move).Ok? && Toward(setup, w0, x, Make(setup, Ok(q), move).value, call, end)
  {
    if !q.at.completed {
      match move {
        case Crash => CrashLosesNothing(setup, w0, x, q, call);
        case Go(other) => StepStaysToward(setup, w0, x, q, call, end, other);
      }
    }
  }

  lemma {:induction false} MovesStayToward(setup: Setup, w0: World, x: Outcome, p: Process, call: Call, end: Process,
                                           moves: seq<Move>)
    requires Quiet(setup, w0, x) && Proper(setup, call) && ProperMoves(setup, moves)
    requires Toward(setup, w0, x, p, call, end) && Workable(setup, p) && !end.sent
    ensures After(setup, p, moves).Ok? && Toward(setup, w0, x, After(setup, p, moves).value, call, end)
  {
    if moves != [] {
      var n := |moves| - 1;
      MovesStayToward(setup, w0, x, p, call, end, moves[..n]);
      MoveStaysToward(setup, w0, x, After(setup, p, moves[..n]).value, call, end, moves[n]);
    }
  }

  /**
    Settlement of a quiet event. Whatever calls and crashes follow the planning, with whatever
    outcomes the later calls name, no step fails, and letting one more call finish gives exactly
    the state of a single call that never crashed: the settled event at the first outcome.
   */
  lemma SettlementIsResumable(setup: Setup, w0: World, first: Call, moves: seq<Move>, last: Call)
    requires Quiet(setup, w0, first.outcome) && Proper(setup, first) && Proper(setup, last) && ProperMoves(setup, moves)
    ensures var p0 := Process(Progress(w0, None, false), false);
            && Workable(setup, p0) && Advance(setup, p0, first).Ok?
            && var p1 := Advance(setup, p0, first).value;
               && Workable(setup, p1) && Steps(setup, p1, first, Measure(p1)).Ok? && After(setup, p1, moves).Ok?
               && var end, q := Steps(setup, p1, first, Measure(p1)).value, After(setup, p1, moves).value;
                  && Settled(setup, w0, first.outcome, end.at)
                  && Steps(setup, q, last, Measure(q)) == Ok(end)
  {
    var x := first.outcome;
    PlanningSucceeds(setup, w0, first);
    JustPlanned(setup, w0, x);
    var p1 := Advance(setup, Process(Progress(w0, None, false), false), first).value;
    UnderwayIsWorkable(setup, w0, x, p1);
    CallCompletes(setup, w0, x, p1, first);
    var end := Steps(setup, p1, first, Measure(p1)).value;
    MovesStayToward(setup, w0, x, p1, first, end, moves);
    var q := After(setup, p1, moves).value;
    if !q.at.completed { SameSteps(setup, w0, x, q, first, last); }
  }

  lemma {:induction false} SameSteps(setup: Setup, w0: World, x: Outcome, p: Process, call: Call, other: Call)
    requires Quiet(setup, w0, x) && Underway(setup, w0, x, p) && Proper(setup, call) && Proper(setup, other)
    ensures Workable(setup, p) && Steps(setup, p, call, Measure(p)) == Steps(setup, p, other, Measure(p))
    decreases Measure(p)
  {
    CallsAgree(setup, w0, x, p, call, other);
    OneStepNearer(setup, w0, x, p, call);
    OneStepNearer(setup, w0, x, p, other);
    var q := Advance(setup, p, call).value;
    if !q.at.completed { SameSteps(setup, w0, x, q, call, other); }
  }

  /** On the way there the invariants that matter hold at every step: no step fails and CLEARING stays funded. */
  lemma EveryStepIsSafe(setup: Setup, w0: World, first: Call, moves: seq<Move>)
    requires Quiet(setup, w0, first.outcome) && Proper(setup, first) && ProperMoves(setup, moves)
    ensures var p1 := Process(Progress(w0, Some(PlanLines(setup.book, w0.accts, first.outcome)), false), false);
            && Workable(setup, p1) && After(setup, p1, moves).Ok?
            && Balance(After(setup, p1, moves).value.at.world.ledger.rows, Clearing(EVENT)) >= 0
  {
    var x := first.outcome;
    JustPlanned(setup, w0, x);
    var p1 := Process(Progress(w0, Some(PlanLines(setup.book, w0.accts, x)), false), false);
    UnderwayIsWorkable(setup, w0, x, p1);
    CallCompletes(setup, w0, x, p1, first);
    MovesStayToward(setup, w0, x, p1, first, Steps(setup, p1, first, Measure(p1)).value, moves);
    var q := After(setup, p1, moves).value;
    if !q.at.completed { ClearingNeverNegative(setup, w0, x, q); }
  }

  /**
    From the first order to the last payment: any run of the exchange that leaves no order
    reserved can be settled at any outcome the event can resolve to.
   */
  lemma EveryRunSettles(setup: Setup, worlds: seq<World>, events: seq<Event>, n: nat, call: Call)
    requires IsRun(setup, worlds, events) && Opening(setup, worlds[0], n)
    requires setup.portfolio && setup.book.instruments != [] && Proper(setup, call)
    requires var w := worlds[|events|]; forall u :: 0 <= u < |w.accts| ==> w.accts[u].orders == []
    ensures var w := worlds[|events|];
            var p0 := Process(Progress(w, None, false), false);
            && Workable(setup, p0)
            && exists steps: nat :: Steps(setup, p0, call, steps).Ok?
                                    && Settled(setup, w, call.outcome, Steps(setup, p0, call, steps).value.at)
  {
    RunKeepsInv(setup, worlds, events, n, |events|);
    var w := worlds[|events|];
    var p0 := Process(Progress(w, None, false), false);
    SettlementIsResumable(setup, w, call, [], call);
    var p1 := Advance(setup, p0, call).value;
    StepsFromFront(setup, p0, p1, call, Measure(p1));
  }
}
