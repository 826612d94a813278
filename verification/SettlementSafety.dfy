/**
  Settlement from any quiet state the margin service can reach, under any crashes: it never
  fails, keeps CLEARING funded, pays each account exactly what the outcome says, and ends in
  the same state as a run without crashes.
 */
module SettlementSafety {
  import opened Common
  import opened Payoffs
  import opened WorstCase
  import opened Ledger
  import opened LedgerRuns
  import opened MarginExec
  import opened FillPostings
  import opened MarginRuns
  import opened Settlement
  import opened SettlementRuns

  /** A state the margin service reaches once the event is quiet, before any settlement. */
  ghost predicate Quiet(setup: Setup, w: World, x: Outcome) {
    && Inv(setup, w) && setup.portfolio && setup.book.instruments != [] && setup.book.Contractual(x)
    && (forall u :: 0 <= u < |w.accts| ==> w.accts[u].orders == [])
  }

  /** A call the checks let through. */
  predicate Proper(setup: Setup, call: Call)
    requires setup.book.Valid()
  {
    call.closed && call.active == 0 && call.unapplied == 0 && setup.book.Contractual(call.outcome)
  }

  // ---------------------------------------------------------------- money moved so far

  predicate Keyed(ledger: State, l: Line) { SettleKey(l.user) in ledger.keys }

  predicate Empty(l: Line) { l.margin == 0 && l.net == 0 }

  /** Whether the line's posting has reached the ledger, or never will because it is empty. */
  predicate Released(ledger: State, l: Line) { l.posted || Keyed(ledger, l) }

  /** What the first `n` lines have moved to account `a`. */
  function MovedTo(ledger: State, lines: seq<Line>, a: Account, n: nat): int
    requires n <= |lines|
  {
    if n == 0 then 0
    else MovedTo(ledger, lines, a, n - 1) + if Released(ledger, lines[n - 1]) then LineAmount(lines[n - 1], a) else 0
  }

  lemma {:induction false} NothingMoved(ledger: State, lines: seq<Line>, a: Account, n: nat)
    requires n <= |lines|
    requires forall i :: 0 <= i < n ==> !Released(ledger, lines[i]) || LineAmount(lines[i], a) == 0
    ensures MovedTo(ledger, lines, a, n) == 0
  {
    if n > 0 { NothingMoved(ledger, lines, a, n - 1); }
  }

  /** A user account is moved by its own line only. */
  lemma {:induction false} MovedByOwnLine(ledger: State, lines: seq<Line>, i: nat, a: Account, n: nat)
    requires i < n <= |lines| && forall j, k :: 0 <= j < k < |lines| ==> lines[j].user != lines[k].user
    requires a == Margin(lines[i].user, EVENT) || a == Cash(lines[i].user)
    ensures MovedTo(ledger, lines, a, n) == if Released(ledger, lines[i]) then LineAmount(lines[i], a) else 0
  {
    if i < n - 1 {
      MovedByOwnLine(ledger, lines, i, a, n - 1);
    } else {
      NothingMoved(ledger, lines, a, n - 1);
    }
  }

  /** Posting one more line moves its amounts. */
  lemma {:induction false} MovedStep(s: State, t: State, lines: seq<Line>, h: nat, a: Account, n: nat)
    requires h < |lines| && n <= |lines| && !Released(s, lines[h]) && Keyed(t, lines[h])
    requires forall i :: 0 <= i < |lines| && i != h ==> Released(t, lines[i]) == Released(s, lines[i])
    ensures MovedTo(t, lines, a, n) == MovedTo(s, lines, a, n) + if h < n then LineAmount(lines[h], a) else 0
  {
    if n > 0 { MovedStep(s, t, lines, h, a, n - 1); }
  }

  /** Marking a line that is keyed or empty moves nothing. */
  lemma {:induction false} MovedMark(s: State, lines: seq<Line>, h: nat, a: Account, n: nat)
    requires h < |lines| && n <= |lines| && (Keyed(s, lines[h]) || Empty(lines[h]))
    ensures MovedTo(s, lines[h := lines[h].(posted := true)], a, n) == MovedTo(s, lines, a, n)
  {
    if n > 0 { MovedMark(s, lines, h, a, n - 1); }
  }

  // ---------------------------------------------------------------- the state of a settlement

  /** One line has been released and the other has not been marked: it must come later. */
  predicate Ahead(ledger: State, l: Line, m: Line) { Released(ledger, l) && !m.posted }

  /** The lines as planned, some of them marked, in the order of their nets. */
  ghost predicate Progressed(planned: seq<Line>, lines: seq<Line>, ledger: State) {
    && |lines| == |planned|
    && (forall i :: 0 <= i < |lines| ==> lines[i] == planned[i].(posted := lines[i].posted))
    && (forall i :: 0 <= i < |lines| && lines[i].posted ==> Keyed(ledger, lines[i]) || Empty(lines[i]))
    && (forall i, j :: 0 <= i < |lines| && 0 <= j < |lines| && Ahead(ledger, lines[i], lines[j]) && i != j ==>
                       Before(lines, i, j))
    && (forall i, j :: 0 <= i < j < |lines| ==> lines[i].user != lines[j].user)
    && (forall i :: 0 <= i < |lines| ==> Covers(lines[i]))
  }

  /** The tables: marked accounts have nothing posted, the others what was planned. */
  ghost predicate TablesMatch(w0: World, w: World, lines: seq<Line>) {
    && |w.accts| == |w0.accts|
    && (forall u :: 0 <= u < |w.accts| ==> w.accts[u].net == w0.accts[u].net && w.accts[u].orders == [])
    && (forall i :: 0 <= i < |lines| ==> lines[i].user < |w.accts|
                                         && lines[i].margin == w0.accts[lines[i].user].posted
                                         && w.accts[lines[i].user].posted
                                            == if lines[i].posted then 0 else lines[i].margin)
    && (forall u: nat :: u < |w.accts| && !Planned(lines, u) ==> w.accts[u] == w0.accts[u])
  }

  /** The ledger: where it was, plus what the released lines moved. */
  ghost predicate LedgerMatches(w0: World, ledger: State, lines: seq<Line>) {
    && Sound(ledger) && w0.ledger.accounts <= ledger.accounts
    && ledger.keys.Keys <= w0.ledger.keys.Keys + (set l | l in lines :: SettleKey(l.user))
    && forall a :: Balance(ledger.rows, a) == Balance(w0.ledger.rows, a) + MovedTo(ledger, lines, a, |lines|)
  }

  /** A settlement of `w0` at `x` that has been planned and is not completed. */
  ghost predicate Underway(setup: Setup, w0: World, x: Outcome, p: Process)
    requires Sized(setup.book, w0.accts)
  {
    && !p.at.completed && p.at.lines.Some? && p.at.world.applied == w0.applied && p.at.world.seen == w0.seen
    && Progressed(PlanLines(setup.book, w0.accts, x), p.at.lines.value, p.at.world.ledger)
    && TablesMatch(w0, p.at.world, p.at.lines.value)
    && LedgerMatches(w0, p.at.world.ledger, p.at.lines.value)
    && (p.sent ==> Pending(p.at.lines.value)
                   && var l := p.at.lines.value[First(p.at.lines.value)];
                      Keyed(p.at.world.ledger, l) || Empty(l))
  }

  lemma UnderwayIsWorkable(setup: Setup, w0: World, x: Outcome, p: Process)
    requires Quiet(setup, w0, x) && Underway(setup, w0, x, p)
    ensures Workable(setup, p)
  {
  }

  // ---------------------------------------------------------------- planning

  /** The worst case of an account without orders covers whatever it owes. */
  lemma PostedCoversNet(setup: Setup, w0: World, x: Outcome, u: nat)
    requires Quiet(setup, w0, x) && u < |w0.accts|
    ensures w0.accts[u].posted >= 0 && -SettlementOf(setup.book, w0.accts[u].net, x) <= w0.accts[u].posted
  {
    var a := w0.accts[u];
    assert Funded(setup.book, w0.ledger, u, a);
    var priced := PriceOrders(setup.book, Working(a.orders));
    assert priced == [];
    assert Possible(setup.book, AtOutcome(x));
    assert StressIn(setup.book, AtOutcome(x), a.net, priced) <= a.posted;
  }

  lemma PlannedLines(setup: Setup, w0: World, x: Outcome)
    requires Quiet(setup, w0, x)
    ensures var lines := PlanLines(setup.book, w0.accts, x);
            && (forall i :: 0 <= i < |lines| ==>
                              lines[i].user < |w0.accts| && lines[i].margin == w0.accts[lines[i].user].posted
                              && Covers(lines[i]) && !Released(w0.ledger, lines[i]))
            && (forall i, j :: 0 <= i < j < |lines| ==> lines[i].user != lines[j].user)
            && LineTotal(lines) == 0 && LineTotal(PositionLines(setup.book, w0.accts, x, |w0.accts|)) == 0
  {
    var lines := PlanLines(setup.book, w0.accts, x);
    PlanFacts(setup.book, w0.accts, x);
    NetsCancel(setup.book, w0.accts, x);
    forall i | 0 <= i < |lines|
      ensures lines[i].user < |w0.accts| && lines[i].margin == w0.accts[lines[i].user].posted
      ensures Covers(lines[i]) && !Released(w0.ledger, lines[i])
    {
      assert LineOf(setup.book, w0.accts, x, lines[i]);
      PostedCoversNet(setup, w0, x, lines[i].user);
    }
  }

  /** Right after planning nothing has moved. */
  lemma JustPlanned(setup: Setup, w0: World, x: Outcome)
    requires Quiet(setup, w0, x)
    ensures Underway(setup, w0, x, Process(Progress(w0, Some(PlanLines(setup.book, w0.accts, x)), false), false))
  {
    var lines := PlanLines(setup.book, w0.accts, x);
    PlannedLines(setup, w0, x);
    PlanFacts(setup.book, w0.accts, x);
    forall a ensures MovedTo(w0.ledger, lines, a, |lines|) == 0 { NothingMoved(w0.ledger, lines, a, |lines|); }
    assert Progressed(lines, lines, w0.ledger) && TablesMatch(w0, w0, lines) && LedgerMatches(w0, w0.ledger, lines);
  }

  /** The checks pass and the nets cancel, so planning cannot fail. */
  lemma PlanningSucceeds(setup: Setup, w0: World, call: Call)
    requires Quiet(setup, w0, call.outcome) && Proper(setup, call)
    ensures Advance(setup, Process(Progress(w0, None, false), false), call)
            == Ok(Process(Progress(w0, Some(PlanLines(setup.book, w0.accts, call.outcome)), false), false))
  {
    PlannedLines(setup, w0, call.outcome);
  }

  // ---------------------------------------------------------------- posting one line

  lemma FirstIsFirst(planned: seq<Line>, lines: seq<Line>, ledger: State, h: nat)
    requires Progressed(planned, lines, ledger) && Pending(lines) && h == First(lines)
    ensures forall i :: 0 <= i < |lines| && !lines[i].posted && Keyed(ledger, lines[i]) ==> i == h
  {
    forall i | 0 <= i < |lines| && !lines[i].posted && Keyed(ledger, lines[i]) ensures i == h {
      assert Ahead(ledger, lines[i], lines[h]);
    }
  }

  /** Before its posting a pending line's margin is all there; after it, none of it is. */
  lemma HeadBalance(setup: Setup, w0: World, x: Outcome, p: Process, h: nat)
    requires Quiet(setup, w0, x) && Underway(setup, w0, x, p) && h < |p.at.lines.value| && !p.at.lines.value[h].posted
    ensures var l, ledger := p.at.lines.value[h], p.at.world.ledger;
            Balance(ledger.rows, Margin(l.user, EVENT)) == if Keyed(ledger, l) then 0 else l.margin
  {
    var lines := p.at.lines.value;
    assert Funded(setup.book, w0.ledger, lines[h].user, w0.accts[lines[h].user]);
    MovedByOwnLine(p.at.world.ledger, lines, h, Margin(lines[h].user, EVENT), |lines|);
  }

  /** Posting under a known key, or nothing at all, leaves the ledger as it is. */
  lemma RepeatedPosting(ledger: State, l: Line)
    requires Covers(l) && (Keyed(ledger, l) || Empty(l))
    ensures var entries := SettlementEntries(l.user, l.margin, l.net);
            entries.Ok? && LedgerStep(ledger, SettleKey(l.user), entries.value) == (ledger, Ok(()))
  {
    LineDelta(l, Clearing(EVENT));
  }

  /** The first posting of a line is always accepted. */
  lemma FirstPosting(ledger: State, l: Line)
    requires Sound(ledger) && Covers(l) && !Empty(l) && !Keyed(ledger, l) && Cash(l.user) in ledger.accounts
    requires Balance(ledger.rows, Margin(l.user, EVENT)) == l.margin
    ensures var entries := SettlementEntries(l.user, l.margin, l.net);
            && entries.Ok?
            && var (t, r) := LedgerStep(ledger, SettleKey(l.user), entries.value);
               && r.Ok? && Sound(t) && ledger.accounts <= t.accounts
               && t.keys.Keys == ledger.keys.Keys + {SettleKey(l.user)}
               && forall a :: Balance(t.rows, a) == Balance(ledger.rows, a) + LineAmount(l, a)
  {
    LineDelta(l, Clearing(EVENT));
    var entries := SettlementEntries(l.user, l.margin, l.net).value;
    forall a
      ensures Delta(entries, a) == LineAmount(l, a)
      ensures NonNegative(a) ==> forall n :: 0 <= n <= |entries| ==>
                                             Balance(ledger.rows, a) + Delta(entries[..n], a) >= 0
    {
      LineDelta(l, a);
      BalanceIsFold(ledger.rows, a);
    }
    PostAccepted(ledger, SettleKey(l.user), entries);
    PostEffect(ledger, SettleKey(l.user), entries);
  }

  /** `t` is `s` after the head line's first posting. */
  ghost predicate Posted(s: State, t: State, l: Line) {
    && Sound(t) && s.accounts <= t.accounts && t.keys.Keys == s.keys.Keys + {SettleKey(l.user)}
    && forall a :: Balance(t.rows, a) == Balance(s.rows, a) + LineAmount(l, a)
  }

  lemma PostedProgressed(planned: seq<Line>, lines: seq<Line>, s: State, t: State, h: nat)
    requires Progressed(planned, lines, s) && Pending(lines) && h == First(lines) && !Keyed(s, lines[h])
             && Posted(s, t, lines[h])
    ensures Progressed(planned, lines, t)
  {
    forall i, j | 0 <= i < |lines| && 0 <= j < |lines| && Ahead(t, lines[i], lines[j]) && i != j
        ensures Before(lines, i, j) {
      if i != h { assert Ahead(s, lines[i], lines[j]); }
    }
  }

  lemma PostedLedger(w0: World, lines: seq<Line>, s: State, t: State, h: nat)
    requires LedgerMatches(w0, s, lines) && h < |lines| && !Released(s, lines[h]) && Posted(s, t, lines[h])
    requires forall i, j :: 0 <= i < j < |lines| ==> lines[i].user != lines[j].user
    ensures LedgerMatches(w0, t, lines)
  {
    assert lines[h] in lines;
    forall a ensures Balance(t.rows, a) == Balance(w0.ledger.rows, a) + MovedTo(t, lines, a, |lines|) {
      MovedStep(s, t, lines, h, a, |lines|);
    }
  }

  /** After the head line's first posting everything still matches. */
  lemma PostedMatches(setup: Setup, w0: World, x: Outcome, p: Process, h: nat, t: State)
    requires Sized(setup.book, w0.accts) && Underway(setup, w0, x, p)
    requires Pending(p.at.lines.value) && h == First(p.at.lines.value)
    requires !Keyed(p.at.world.ledger, p.at.lines.value[h]) && Posted(p.at.world.ledger, t, p.at.lines.value[h])
    ensures Underway(setup, w0, x, Process(p.at.(world := p.at.world.(ledger := t)), true))
  {
    var lines, s := p.at.lines.value, p.at.world.ledger;
    PostedProgressed(PlanLines(setup.book, w0.accts, x), lines, s, t, h);
    PostedLedger(w0, lines, s, t, h);
    assert TablesMatch(w0, p.at.world.(ledger := t), lines);
  }

  lemma PostStepSucceeds(setup: Setup, w0: World, x: Outcome, p: Process)
    requires Quiet(setup, w0, x) && Underway(setup, w0, x, p) && !p.sent && Pending(p.at.lines.value)
    ensures var l := p.at.lines.value[First(p.at.lines.value)];
            && PostStep(p, l).Ok? && Underway(setup, w0, x, PostStep(p, l).value) && PostStep(p, l).value.sent
            && PostStep(p, l).value.at.lines == p.at.lines
            && (Keyed(p.at.world.ledger, l) || Empty(l) ==> PostStep(p, l).value == p.(sent := true))
  {
    var h := First(p.at.lines.value);
    var l, ledger := p.at.lines.value[h], p.at.world.ledger;
    HeadBalance(setup, w0, x, p, h);
    if Keyed(ledger, l) || Empty(l) {
      RepeatedPosting(ledger, l);
    } else {
      assert Funded(setup.book, w0.ledger, l.user, w0.accts[l.user]);
      FirstPosting(ledger, l);
      var t := LedgerStep(ledger, SettleKey(l.user), SettlementEntries(l.user, l.margin, l.net).value).0;
      PostedMatches(setup, w0, x, p, h, t);
    }
  }

  // ---------------------------------------------------------------- marking one line

  lemma MarkedProgressed(planned: seq<Line>, lines: seq<Line>, ledger: State, h: nat)
    requires Progressed(planned, lines, ledger) && Pending(lines) && h == First(lines)
    requires Keyed(ledger, lines[h]) || Empty(lines[h])
    ensures Progressed(planned, lines[h := lines[h].(posted := true)], ledger)
  {
    var next := lines[h := lines[h].(posted := true)];
    FirstIsFirst(planned, lines, ledger, h);
    forall i, j | 0 <= i < |next| && 0 <= j < |next| && Ahead(ledger, next[i], next[j]) && i != j
        ensures Before(next, i, j) {
      if i == h { assert Before(lines, h, j); } else { assert Ahead(ledger, lines[i], lines[j]); }
    }
  }

  lemma SameUsersPlanned(a: seq<Line>, b: seq<Line>, u: nat)
    requires |a| == |b| && forall i :: 0 <= i < |a| ==> a[i].user == b[i].user
    ensures Planned(a, u) ==> Planned(b, u)
  {
    if Planned(a, u) {
      var i :| 0 <= i < |a| && a[i].user == u;
      assert b[i].user == u;
    }
  }

  lemma MarkedTables(w0: World, w: World, lines: seq<Line>, h: nat, a: Acct)
    requires TablesMatch(w0, w, lines) && h < |lines| && !lines[h].posted
    requires forall i, j :: 0 <= i < j < |lines| ==> lines[i].user != lines[j].user
    requires a.net == w0.accts[lines[h].user].net && a.orders == [] && a.posted == 0
    ensures TablesMatch(w0, w.(accts := w.accts[lines[h].user := a]), lines[h := lines[h].(posted := true)])
  {
    var next := lines[h := lines[h].(posted := true)];
    forall u: nat ensures !Planned(next, u) ==> !Planned(lines, u) && u != lines[h].user {
      SameUsersPlanned(lines, next, u);
      assert next[h].user == u ==> Planned(next, u);
    }
  }

  lemma MarkedLedger(w0: World, ledger: State, lines: seq<Line>, h: nat)
    requires LedgerMatches(w0, ledger, lines) && h < |lines| && (Keyed(ledger, lines[h]) || Empty(lines[h]))
    ensures LedgerMatches(w0, ledger, lines[h := lines[h].(posted := true)])
  {
    var next := lines[h := lines[h].(posted := true)];
    forall c ensures MovedTo(ledger, next, c, |next|) == MovedTo(ledger, lines, c, |lines|) {
      MovedMark(ledger, lines, h, c, |lines|);
    }
    forall l | l in lines ensures SettleKey(l.user) in set m | m in next :: SettleKey(m.user) {
      var i :| 0 <= i < |lines| && lines[i] == l;
      assert next[i] in next && next[i].user == l.user;
    }
  }

  lemma MarkStepKeeps(setup: Setup, w0: World, x: Outcome, p: Process)
    requires Sized(setup.book, w0.accts) && Underway(setup, w0, x, p) && p.sent
    ensures Underway(setup, w0, x, MarkStep(p, p.at.lines.value, First(p.at.lines.value)))
  {
    var lines, h := p.at.lines.value, First(p.at.lines.value);
    var a := p.at.world.accts[lines[h].user];
    MarkedProgressed(PlanLines(setup.book, w0.accts, x), lines, p.at.world.ledger, h);
    MarkedTables(w0, p.at.world, lines, h, a.(posted := 0, version := a.version + 1));
    MarkedLedger(w0, p.at.world.ledger, lines, h);
  }
}
