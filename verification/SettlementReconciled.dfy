/**
  Settlement with the reconciler running beside it. Between a line's posting and its mark the tables
  still show the margin the ledger has released, so a correction in between moves the user's cash
  back to MARGIN. The settlement does not notice: it completes, and the money stays there until a
  later correction.
 */
module SettlementReconciled {
  import opened Common
  import opened Payoffs
  import opened WorstCase
  import opened Ledger
  import opened LedgerRuns
  import opened MarginExec
  import opened MarginRuns
  import opened MarginCrash
  import opened Settlement
  import opened SettlementRuns
  import opened SettlementSafety
  import R = SettlementResume

  /** What can happen: a move of the settlement, or the reconciler correcting one account. */
  datatype Turn = Settle(move: R.Move) | Correct(user: nat)

  function Corrected(p: Process, user: nat): Process {
    p.(at := p.at.(world := Execute(p.at.world, PlanReconcile(p.at.world, Reconcile(user))).0))
  }

  lemma CorrectedWorkable(setup: Setup, p: Process, user: nat)
    requires Workable(setup, p)
    ensures Workable(setup, Corrected(p, user))
  {
  }

  function TakeTurn(setup: Setup, r: Result<Process, Problem>, turn: Turn): (next: Result<Process, Problem>)
    requires r.Ok? ==> Workable(setup, r.value)
    ensures next.Ok? ==> Workable(setup, next.value)
  {
    match turn
    case Settle(move) => R.Make(setup, r, move)
    case Correct(user) => if r.Err? then r else CorrectedWorkable(setup, r.value, user); Ok(Corrected(r.value, user))
  }

  function Turns(setup: Setup, p: Process, turns: seq<Turn>): (r: Result<Process, Problem>)
    requires Workable(setup, p)
    ensures r.Ok? ==> Workable(setup, r.value)
  {
    if turns == [] then Ok(p) else TakeTurn(setup, Turns(setup, p, turns[..|turns| - 1]), turns[|turns| - 1])
  }

  /** The settlement's own moves among the turns. */
  function MovesOf(turns: seq<Turn>): seq<R.Move> {
    if turns == [] then []
    else
      var last := turns[|turns| - 1];
      MovesOf(turns[..|turns| - 1]) + if last.Settle? then [last.move] else []
  }

  ghost predicate ProperTurns(setup: Setup, turns: seq<Turn>)
    requires setup.book.Valid()
  {
    forall k :: 0 <= k < |turns| && turns[k].Settle? && turns[k].move.Go? ==> Proper(setup, turns[k].move.call)
  }

  /** Whether the correction finds a difference, has a key the ledger does not know, and cash to move. */
  predicate Moves(w: World, user: nat) {
    && user < |w.accts| && Drift(w, user) != 0 && KeyFor(w, user) !in w.ledger.keys
    && -Drift(w, user) <= Balance(w.ledger.rows, Cash(user))
  }

  function Toggled(kept: set<nat>, user: nat): set<nat> { if user in kept then kept - {user} else kept + {user} }

  /**
    The users whose released margin sits in MARGIN again: each correction that moves
    money puts it there or takes it back.
   */
  function KeptBack(setup: Setup, p: Process, turns: seq<Turn>): set<nat>
    requires Workable(setup, p)
  {
    if turns == [] then {}
    else
      var n := |turns| - 1;
      var before, kept := Turns(setup, p, turns[..n]), KeptBack(setup, p, turns[..n]);
      if turns[n].Correct? && before.Ok?
          && Moves(before.value.at.world, turns[n].user) then Toggled(kept, turns[n].user) else kept
  }

  // ---------------------------------------------------------------- beside the undisturbed settlement

  /** What the users in `kept` have more or less in an account. */
  function Extra(accts: seq<Acct>, kept: set<nat>, a: Account): int {
    if a.Margin? && a.event == EVENT && a.user in kept && a.user < |accts| then accts[a.user].posted
    else if a.Cash? && a.user in kept && a.user < |accts| then -accts[a.user].posted
    else 0
  }

  /** `t` is `s` with the margins of the users in `kept` moved back, under the reconciler's keys. */
  ghost predicate Beside(w0: World, s: State, t: State, kept: set<nat>) {
    && Sound(t) && w0.ledger.accounts <= t.accounts && s.keys.Keys <= t.keys.Keys
    && (forall k :: k in t.keys ==> k in s.keys || k.ReconcileKey?)
    && (forall u :: u in kept ==> u < |w0.accts| && w0.accts[u].posted > 0 && SettleKey(u) in s.keys)
    && forall a :: Balance(t.rows, a) == Balance(s.rows, a) + Extra(w0.accts, kept, a)
  }

  /** The disturbed settlement `q` beside the undisturbed `p`. */
  ghost predicate Related(w0: World, p: Process, q: Process, kept: set<nat>) {
    && q == p.(at := p.at.(world := p.at.world.(ledger := q.at.world.ledger)))
    && Beside(w0, p.at.world.ledger, q.at.world.ledger, kept)
  }

  // ---------------------------------------------------------------- the settlement's steps

  /** A line whose posting the ledger knows, or that has none. */
  lemma PostsAgain(p: Process, l: Line)
    requires Covers(l) && (Keyed(p.at.world.ledger, l) || Empty(l))
    requires var b := Balance(p.at.world.ledger.rows, Margin(l.user, EVENT)); b == 0 || b == l.margin
    ensures PostStep(p, l) == Ok(p.(sent := true))
  {
    RepeatedPosting(p.at.world.ledger, l);
  }

  lemma PostsFirst(p: Process, l: Line)
    requires Sound(p.at.world.ledger) && Covers(l) && !Empty(l) && !Keyed(p.at.world.ledger, l)
             && Cash(l.user) in p.at.world.ledger.accounts
    requires Balance(p.at.world.ledger.rows, Margin(l.user, EVENT)) == l.margin
    ensures PostStep(p, l).Ok? && Posted(p.at.world.ledger, PostStep(p, l).value.at.world.ledger, l)
    ensures var r := PostStep(p, l).value; r == Process(p.at.(world := p.at.world.(ledger := r.at.world.ledger)), true)
  {
    FirstPosting(p.at.world.ledger, l);
  }

  lemma PostedBeside(w0: World, s: State, t: State, kept: set<nat>, l: Line, s': State, t': State)
    requires Beside(w0, s, t, kept) && Posted(s, s', l) && Posted(t, t', l)
    ensures Beside(w0, s', t', kept)
  {
  }

  lemma BalanceBeside(w0: World, s: State, t: State, kept: set<nat>, l: Line)
    requires Beside(w0, s, t, kept) && l.user < |w0.accts| && l.margin == w0.accts[l.user].posted
    requires Balance(s.rows, Margin(l.user, EVENT)) == if Keyed(s, l) then 0 else l.margin
    ensures Keyed(t, l) <==> Keyed(s, l)
    ensures var b := Balance(t.rows, Margin(l.user, EVENT));
            if Keyed(s, l) then b == 0 || b == l.margin else b == l.margin
  {
  }

  lemma PostBeside(setup: Setup, w0: World, x: Outcome, p: Process, q: Process, kept: set<nat>, l: Line)
    requires Quiet(setup, w0, x) && Underway(setup, w0, x, p) && !p.sent && Pending(p.at.lines.value)
             && Related(w0, p, q, kept)
    requires l == p.at.lines.value[First(p.at.lines.value)]
    ensures PostStep(p, l).Ok? && PostStep(q, l).Ok? && Related(w0, PostStep(p, l).value, PostStep(q, l).value, kept)
  {
    var s, t := p.at.world.ledger, q.at.world.ledger;
    HeadBalance(setup, w0, x, p, First(p.at.lines.value));
    BalanceBeside(w0, s, t, kept, l);
    if Keyed(s, l) || Empty(l) {
      PostsAgain(p, l);
      PostsAgain(q, l);
    } else {
      assert Funded(setup.book, w0.ledger, l.user, w0.accts[l.user]);
      PostsFirst(p, l);
      PostsFirst(q, l);
      PostedBeside(w0, s, t, kept, l, PostStep(p, l).value.at.world.ledger, PostStep(q, l).value.at.world.ledger);
    }
  }

  lemma MarkBeside(w0: World, p: Process, q: Process, kept: set<nat>, lines: seq<Line>, i: nat)
    requires Related(w0, p, q, kept) && i < |lines| && lines[i].user < |p.at.world.accts|
    ensures Related(w0, MarkStep(p, lines, i), MarkStep(q, lines, i), kept)
  {
  }

  lemma FinishBeside(setup: Setup, w0: World, p: Process, q: Process, kept: set<nat>)
    requires Related(w0, p, q, kept) && FinishStep(setup, p).Ok?
    ensures FinishStep(setup, q).Ok? && Related(w0, FinishStep(setup, p).value, FinishStep(setup, q).value, kept)
  {
    assert Extra(w0.accts, kept, Clearing(EVENT)) == 0;
  }

  lemma WorkableBeside(setup: Setup, w0: World, p: Process, q: Process, kept: set<nat>)
    requires Workable(setup, p) && Related(w0, p, q, kept)
    ensures Workable(setup, q)
  {
  }

  /** What a proper call does next beside an undisturbed one. */
  lemma AdvanceBesideIs(setup: Setup, w0: World, x: Outcome, p: Process, q: Process, kept: set<nat>, call: Call)
    requires Quiet(setup, w0, x) && Underway(setup, w0, x, p) && Proper(setup, call) && Related(w0, p, q, kept)
             && Workable(setup, q)
    ensures var lines := p.at.lines.value;
            Advance(setup, q, call) == if !Pending(lines) then FinishStep(setup, q)
                                       else if !p.sent then PostStep(q, lines[First(lines)])
                                       else Ok(MarkStep(q, lines, First(lines)))
  {
    R.NoRefusal(setup, w0, x, p, call);
  }

  /** A step of the settlement is the same step beside it. */
  lemma AdvanceBeside(setup: Setup, w0: World, x: Outcome, p: Process, q: Process, kept: set<nat>, call: Call)
    requires Quiet(setup, w0, x) && Underway(setup, w0, x, p) && Proper(setup, call) && Related(w0, p, q, kept)
    ensures Workable(setup, p) && Workable(setup, q) && Advance(setup, p, call).Ok? && Advance(setup, q, call).Ok?
    ensures Related(w0, Advance(setup, p, call).value, Advance(setup, q, call).value, kept)
  {
    R.AdvanceIs(setup, w0, x, p, call);
    R.AdvanceSucceeds(setup, w0, x, p, call);
    WorkableBeside(setup, w0, p, q, kept);
    AdvanceBesideIs(setup, w0, x, p, q, kept, call);
    var lines := p.at.lines.value;
    if !Pending(lines) {
      FinishBeside(setup, w0, p, q, kept);
    } else if !p.sent {
      PostBeside(setup, w0, x, p, q, kept, lines[First(lines)]);
    } else {
      MarkBeside(w0, p, q, kept, lines, First(lines));
    }
  }

  // ---------------------------------------------------------------- a correction

  /**
    An account in an undisturbed settlement: released and marked, or released and not yet marked,
    or not released. Only in the second phase do the tables and the ledger differ.
   */
  predicate LineReleased(w0: World, w: World, u: nat)
    requires u < |w.accts| == |w0.accts|
  {
    Balance(w.ledger.rows, Margin(u, EVENT)) == 0
    && (w.accts[u].posted == 0 || (w.accts[u].posted == w0.accts[u].posted > 0 && SettleKey(u) in w.ledger.keys))
  }

  predicate Phased(w0: World, w: World, u: nat)
    requires u < |w.accts| == |w0.accts|
  {
    LineReleased(w0, w, u)
    || (Balance(w.ledger.rows, Margin(u, EVENT)) == w.accts[u].posted == w0.accts[u].posted
        && SettleKey(u) !in w.ledger.keys)
  }

  lemma ListedPhased(setup: Setup, w0: World, x: Outcome, p: Process, i: nat)
    requires Quiet(setup, w0, x) && Underway(setup, w0, x, p) && i < |p.at.lines.value|
    requires var u := p.at.lines.value[i].user;
             u < |w0.accts| && Balance(w0.ledger.rows, Margin(u, EVENT)) == w0.accts[u].posted >= 0
    ensures Phased(w0, p.at.world, p.at.lines.value[i].user)
  {
    var lines, w := p.at.lines.value, p.at.world;
    if lines[i].posted {
      R.ListedAccountSettled(w0, w.ledger, lines, i);
    } else {
      HeadBalance(setup, w0, x, p, i);
    }
  }

  lemma UnlistedPhased(setup: Setup, w0: World, x: Outcome, p: Process, u: nat)
    requires Sized(setup.book, w0.accts) && Underway(setup, w0, x, p) && u < |w0.accts| && !Planned(p.at.lines.value, u)
    requires Balance(w0.ledger.rows, Margin(u, EVENT)) == w0.accts[u].posted == 0
    ensures Phased(w0, p.at.world, u)
  {
    R.UnlistedAccountKept(w0, p.at.world.ledger, p.at.lines.value, u);
  }

  lemma UnderwayPhased(setup: Setup, w0: World, x: Outcome, p: Process, u: nat)
    requires Quiet(setup, w0, x) && Underway(setup, w0, x, p) && u < |w0.accts|
    ensures |p.at.world.accts| == |w0.accts| && w0.accts[u].posted >= 0 && Phased(w0, p.at.world, u)
  {
    var lines := p.at.lines.value;
    R.PlanOfAccount(setup, w0, x, u);
    PostedCoversNet(setup, w0, x, u);
    SameUsersPlanned(PlanLines(setup.book, w0.accts, x), lines, u);
    if Planned(lines, u) {
      var i :| 0 <= i < |lines| && lines[i].user == u;
      ListedPhased(setup, w0, x, p, i);
    } else {
      UnlistedPhased(setup, w0, x, p, u);
    }
  }

  lemma SanePhased(setup: Setup, w0: World, x: Outcome, p: Process, u: nat)
    requires Quiet(setup, w0, x) && R.Sane(setup, w0, x, p) && u < |w0.accts|
    ensures |p.at.world.accts| == |w0.accts| && w0.accts[u].posted >= 0 && Phased(w0, p.at.world, u)
  {
    if p.at.completed { PostedCoversNet(setup, w0, x, u); } else { UnderwayPhased(setup, w0, x, p, u); }
  }

  /** `t` is `s` after a correction of the user's MARGIN by `delta`. */
  ghost predicate Shifted(s: State, t: State, user: nat, delta: int) {
    && Sound(t) && s.accounts <= t.accounts && s.keys.Keys <= t.keys.Keys
    && (forall k :: k in t.keys ==> k in s.keys || k.ReconcileKey?)
    && forall a :: Balance(t.rows, a) == Balance(s.rows, a)
                                         + if a == Margin(user, EVENT) then delta else if a == Cash(user) then -delta
                                             else 0
  }

  lemma MoveShifts(s: State, key: Key, user: nat, delta: int)
    requires Sound(s) && key.ReconcileKey? && delta != 0 && Cash(user) in s.accounts
    requires -Balance(s.rows, Margin(user, EVENT)) <= delta
    ensures var t := LedgerStep(s, key, MoveEntries(user, delta)).0;
            if key !in s.keys && delta <= Balance(s.rows, Cash(user)) then Shifted(s, t, user, delta) else t == s
  {
    MoveUnderKey(s, key, user, delta);
    LedgerStepEffect(s, key, MoveEntries(user, delta));
  }

  /** A correction moves the whole difference, or nothing at all. */
  lemma CorrectionShifts(w: World, user: nat)
    requires Sound(w.ledger) && (user < |w.accts| ==> w.accts[user].posted >= 0 && Cash(user) in w.ledger.accounts)
    ensures var t := Execute(w, PlanReconcile(w, Reconcile(user))).0;
            if Moves(w, user) then t == w.(ledger := t.ledger) && Shifted(w.ledger, t.ledger, user, -Drift(w, user))
            else t == w
  {
    if user < |w.accts| && Drift(w, user) != 0 {
      ReconcilingIs(w, user);
      MoveShifts(w.ledger, KeyFor(w, user), user, -Drift(w, user));
    }
  }

  /** Money moves into MARGIN only behind a released line, and out of it only if it was moved in. */
  lemma ShiftBeside(w0: World, s: State, t: State, kept: set<nat>, user: nat, w: World, t': State)
    requires Beside(w0, s, t, kept) && user < |w.accts| == |w0.accts| && w0.accts[user].posted >= 0
    requires w.ledger == s && Phased(w0, w, user)
    requires var drift := Balance(t.rows, Margin(user, EVENT)) - w.accts[user].posted;
             drift != 0 && Shifted(t, t', user, -drift)
    ensures Beside(w0, s, t', Toggled(kept, user))
  {
    var kept' := Toggled(kept, user);
    var drift := Balance(t.rows, Margin(user, EVENT)) - w.accts[user].posted;
    assert if user in kept then drift == w0.accts[user].posted else drift == -w0.accts[user].posted;
    forall a ensures Balance(t'.rows, a) == Balance(s.rows, a) + Extra(w0.accts, kept', a) {}
  }

  lemma CorrectBeside(setup: Setup, w0: World, x: Outcome, p: Process, q: Process, kept: set<nat>, user: nat)
    requires Quiet(setup, w0, x) && R.Sane(setup, w0, x, p) && Related(w0, p, q, kept)
    ensures Related(w0, p, Corrected(q, user), if Moves(q.at.world, user) then Toggled(kept, user) else kept)
  {
    var w := q.at.world;
    if user < |w.accts| {
      SanePhased(setup, w0, x, p, user);
      assert Funded(setup.book, w0.ledger, user, w0.accts[user]);
    } else {
      assert |p.at.world.accts| == |w0.accts|;
    }
    CorrectionShifts(w, user);
    if Moves(w, user) {
      ShiftBeside(w0, p.at.world.ledger, w.ledger, kept, user, p.at.world, Corrected(q, user).at.world.ledger);
    }
  }

  // ---------------------------------------------------------------- all turns

  lemma MoveBeside(setup: Setup, w0: World, x: Outcome, p: Process, q: Process, kept: set<nat>, move: R.Move)
    requires Quiet(setup, w0, x) && R.Sane(setup, w0, x, p) && Workable(setup, p) && Related(w0, p, q, kept)
    requires move.Go? ==> Proper(setup, move.call)
    ensures Workable(setup, q) && R.Make(setup, Ok(p), move).Ok? && R.Make(setup, Ok(q), move).Ok?
    ensures Related(w0, R.Make(setup, Ok(p), move).value, R.Make(setup, Ok(q), move).value, kept)
  {
    WorkableBeside(setup, w0, p, q, kept);
    if move.Go? && !p.at.completed {
      AdvanceBeside(setup, w0, x, p, q, kept, move.call);
    }
  }

  /** One turn: what it does to the undisturbed settlement, and to who has margin back. */
  function Undisturbed(setup: Setup, r: Result<Process, Problem>, turn: Turn): Result<Process, Problem>
    requires r.Ok? ==> Workable(setup, r.value)
  {
    if turn.Settle? then R.Make(setup, r, turn.move) else r
  }

  function KeptNext(q: Process, kept: set<nat>, turn: Turn): set<nat> {
    if turn.Correct? && Moves(q.at.world, turn.user) then Toggled(kept, turn.user) else kept
  }

  lemma TurnBeside(setup: Setup, w0: World, x: Outcome, p: Process, q: Process, kept: set<nat>, turn: Turn)
    requires Quiet(setup, w0, x) && R.Sane(setup, w0, x, p) && Workable(setup, p) && Workable(setup, q)
             && Related(w0, p, q, kept)
    requires turn.Settle? && turn.move.Go? ==> Proper(setup, turn.move.call)
    ensures Undisturbed(setup, Ok(p), turn).Ok? && TakeTurn(setup, Ok(q), turn).Ok?
    ensures Related(w0, Undisturbed(setup, Ok(p), turn).value, TakeTurn(setup, Ok(q), turn).value,
                    KeptNext(q, kept, turn))
  {
    if turn.Settle? {
      MoveBeside(setup, w0, x, p, q, kept, turn.move);
    } else {
      CorrectBeside(setup, w0, x, p, q, kept, turn.user);
    }
  }

  /** At every move so far the settlement was in order. */
  ghost predicate AlwaysSane(setup: Setup, w0: World, x: Outcome, p: Process, moves: seq<R.Move>)
    requires Workable(setup, p) && Sized(setup.book, w0.accts)
  {
    && R.After(setup, p, moves).Ok? && R.Sane(setup, w0, x, R.After(setup, p, moves).value)
    && (moves != [] ==> AlwaysSane(setup, w0, x, p, moves[..|moves| - 1]))
  }

  /** Undisturbed, the settlement stays in order. */
  lemma {:induction false} MovesSane(setup: Setup, w0: World, x: Outcome, p: Process, moves: seq<R.Move>)
    requires Quiet(setup, w0, x) && Underway(setup, w0, x, p) && Workable(setup, p) && R.ProperMoves(setup, moves)
    ensures AlwaysSane(setup, w0, x, p, moves)
  {
    if moves != [] {
      var n := |moves| - 1;
      MovesSane(setup, w0, x, p, moves[..n]);
      MoveSane(setup, w0, x, R.After(setup, p, moves[..n]).value, moves[n]);
    }
  }

  lemma MoveSane(setup: Setup, w0: World, x: Outcome, p: Process, move: R.Move)
    requires Quiet(setup, w0, x) && R.Sane(setup, w0, x, p) && Workable(setup, p)
             && (move.Go? ==> Proper(setup, move.call))
    ensures R.Make(setup, Ok(p), move).Ok? && R.Sane(setup, w0, x, R.Make(setup, Ok(p), move).value)
  {
    if move.Go? && !p.at.completed { R.AdvanceSucceeds(setup, w0, x, p, move.call); }
  }

  lemma {:induction false} MovesProper(setup: Setup, turns: seq<Turn>)
    requires setup.book.Valid() && ProperTurns(setup, turns)
    ensures R.ProperMoves(setup, MovesOf(turns))
  {
    if turns != [] { MovesProper(setup, turns[..|turns| - 1]); }
  }

  lemma OneMoreMove(setup: Setup, p: Process, moves: seq<R.Move>, move: R.Move)
    requires Workable(setup, p)
    ensures R.After(setup, p, moves + [move]) == R.Make(setup, R.After(setup, p, moves), move)
  {
    assert (moves + [move])[..|moves|] == moves;
  }

  lemma MovesExtend(setup: Setup, p: Process, turns: seq<Turn>, turn: Turn)
    requires Workable(setup, p)
    ensures R.After(setup, p, MovesOf(turns + [turn])) == Undisturbed(setup, R.After(setup, p, MovesOf(turns)), turn)
  {
    assert (turns + [turn])[..|turns|] == turns;
    if turn.Settle? {
      OneMoreMove(setup, p, MovesOf(turns), turn.move);
    } else {
      assert MovesOf(turns + [turn]) == MovesOf(turns);
    }
  }

  lemma TurnsExtend(setup: Setup, p: Process, turns: seq<Turn>, turn: Turn)
    requires Workable(setup, p) && Turns(setup, p, turns).Ok?
    ensures Turns(setup, p, turns + [turn]) == TakeTurn(setup, Turns(setup, p, turns), turn)
    ensures KeptBack(setup, p, turns + [turn])
            == KeptNext(Turns(setup, p, turns).value, KeptBack(setup, p, turns), turn)
  {
    assert (turns + [turn])[..|turns|] == turns;
  }

  /** At every turn so far the two settlements were side by side. */
  ghost predicate SideBySide(setup: Setup, w0: World, p: Process, turns: seq<Turn>)
    requires Workable(setup, p)
  {
    && R.After(setup, p, MovesOf(turns)).Ok? && Turns(setup, p, turns).Ok?
    && Related(w0, R.After(setup, p, MovesOf(turns)).value, Turns(setup, p, turns).value, KeptBack(setup, p, turns))
    && (turns != [] ==> SideBySide(setup, w0, p, turns[..|turns| - 1]))
  }

  lemma OneMoreTurn(setup: Setup, w0: World, x: Outcome, p: Process, turns: seq<Turn>, turn: Turn, all: seq<Turn>)
    requires Quiet(setup, w0, x) && Workable(setup, p) && all == turns + [turn]
    requires turn.Settle? && turn.move.Go? ==> Proper(setup, turn.move.call)
    requires SideBySide(setup, w0, p, turns) && AlwaysSane(setup, w0, x, p, MovesOf(turns))
    ensures SideBySide(setup, w0, p, all)
  {
    MovesExtend(setup, p, turns, turn);
    TurnsExtend(setup, p, turns, turn);
    TurnBeside(setup, w0, x, R.After(setup, p, MovesOf(turns)).value, Turns(setup, p, turns).value,
               KeptBack(setup, p, turns), turn);
    assert all[..|all| - 1] == turns;
  }

  /**
    Whatever the reconciler does in between, the settlement makes the same steps, and only the money it moved differs.
   */
  lemma {:induction false} TurnsBeside(setup: Setup, w0: World, x: Outcome, p: Process, turns: seq<Turn>)
    requires Quiet(setup, w0, x) && Underway(setup, w0, x, p) && Workable(setup, p) && ProperTurns(setup, turns)
    ensures SideBySide(setup, w0, p, turns)
  {
    if turns == [] {
      SameBeside(setup, w0, x, p);
    } else {
      var before, turn := turns[..|turns| - 1], turns[|turns| - 1];
      TurnsBeside(setup, w0, x, p, before);
      MovesProper(setup, before);
      MovesSane(setup, w0, x, p, MovesOf(before));
      OneMoreTurn(setup, w0, x, p, before, turn, turns);
    }
  }

  lemma SameBeside(setup: Setup, w0: World, x: Outcome, p: Process)
    requires Quiet(setup, w0, x) && Underway(setup, w0, x, p)
    ensures Related(w0, p, p, {})
  {
  }

  // ---------------------------------------------------------------- the end

  lemma {:induction false} CompletesBeside(setup: Setup, w0: World, x: Outcome, p: Process, q: Process, kept: set<nat>,
                                           call: Call)
    requires Quiet(setup, w0, x) && R.Sane(setup, w0, x, p) && Workable(setup, p) && Proper(setup, call)
             && Related(w0, p, q, kept)
    ensures Workable(setup, q) && R.Measure(q) == R.Measure(p)
    ensures Steps(setup, p, call, R.Measure(p)).Ok? && Steps(setup, q, call, R.Measure(q)).Ok?
    ensures Related(w0, Steps(setup, p, call, R.Measure(p)).value, Steps(setup, q, call, R.Measure(q)).value, kept)
    decreases R.Measure(p)
  {
    WorkableBeside(setup, w0, p, q, kept);
    if !p.at.completed {
      R.OneStepNearer(setup, w0, x, p, call);
      AdvanceBeside(setup, w0, x, p, q, kept, call);
      var p', q' := Advance(setup, p, call).value, Advance(setup, q, call).value;
      CompletesBeside(setup, w0, x, p', q', kept, call);
      R.AdvanceSucceeds(setup, w0, x, p, call);
      R.StepsFromFront(setup, q, q', call, R.Measure(q'));
    }
  }

  /** Settled, but for the margins of the users in `kept`, which are in MARGIN instead of CASH. */
  ghost predicate SettledBut(setup: Setup, w0: World, x: Outcome, t: Progress, kept: set<nat>)
    requires setup.book.Valid() && Sized(setup.book, w0.accts)
  {
    var w := t.world;
    && t.completed && |w.accts| == |w0.accts| && Sound(w.ledger)
    && (forall u :: u in kept ==> u < |w0.accts| && w0.accts[u].posted > 0)
    && (forall u: nat :: u < |w.accts| ==>
                           && w.accts[u].net == Zeros(|setup.book.instruments|) && w.accts[u].orders == []
                           && w.accts[u].posted == 0
                           && var held := if u in kept then w0.accts[u].posted else 0;
                              && Balance(w.ledger.rows, Margin(u, EVENT)) == held
                              && Balance(w.ledger.rows, Cash(u))
                                 == Balance(w0.ledger.rows, Cash(u)) + w0.accts[u].posted
                                    + SettlementOf(setup.book, w0.accts[u].net, x) - held)
    && Balance(w.ledger.rows, Clearing(EVENT)) == 0
    && forall a :: R.Elsewhere(a, |w0.accts|) ==> Balance(w.ledger.rows, a) == Balance(w0.ledger.rows, a)
  }

  lemma SettledBeside(setup: Setup, w0: World, x: Outcome, p: Process, q: Process, kept: set<nat>)
    requires setup.book.Valid() && Sized(setup.book, w0.accts) && R.Settled(setup, w0, x, p.at)
             && Related(w0, p, q, kept)
    ensures SettledBut(setup, w0, x, q.at, kept)
  {
    forall a | R.Elsewhere(a, |w0.accts|) ensures Extra(w0.accts, kept, a) == 0 {}
  }

  lemma NothingKept(setup: Setup, w0: World, x: Outcome, t: Progress, kept: set<nat>)
    requires setup.book.Valid() && Sized(setup.book, w0.accts) && SettledBut(setup, w0, x, t, kept)
    ensures R.Settled(setup, w0, x, t) <==> kept == {}
  {
    forall u: nat | u in kept ensures u < |w0.accts| && Balance(t.world.ledger.rows, Margin(u, EVENT)) != 0 {}
    assert kept == {} <==> forall u: nat :: u !in kept;
  }

  /**
    Any mix of calls, crashes and corrections: no step of the settlement fails, and letting a call
    finish completes it. The event is then settled exactly if every correction that moved a user's
    money was undone by another one; otherwise that user's margin sits in MARGIN, and a later
    correction under a new key gives it back.
   */
  lemma SettledIffNothingKept(setup: Setup, w0: World, first: Call, turns: seq<Turn>, last: Call)
    requires Quiet(setup, w0, first.outcome) && Proper(setup, first) && Proper(setup, last) && ProperTurns(setup, turns)
    ensures var p1 := Process(Progress(w0, Some(PlanLines(setup.book, w0.accts, first.outcome)), false), false);
            && Workable(setup, p1) && Turns(setup, p1, turns).Ok?
            && var q, kept := Turns(setup, p1, turns).value, KeptBack(setup, p1, turns);
               && Steps(setup, q, last, R.Measure(q)).Ok?
               && var end := Steps(setup, q, last, R.Measure(q)).value;
                  && SettledBut(setup, w0, first.outcome, end.at, kept)
                  && (R.Settled(setup, w0, first.outcome, end.at) <==> kept == {})
  {
    var x := first.outcome;
    var p1 := Process(Progress(w0, Some(PlanLines(setup.book, w0.accts, x)), false), false);
    JustPlanned(setup, w0, x);
    UnderwayIsWorkable(setup, w0, x, p1);
    TurnsBeside(setup, w0, x, p1, turns);
    MovesProper(setup, turns);
    MovesSane(setup, w0, x, p1, MovesOf(turns));
    var p, q, kept := R.After(setup, p1, MovesOf(turns)).value, Turns(setup, p1, turns).value,
                      KeptBack(setup, p1, turns);
    CompletesBeside(setup, w0, x, p, q, kept, last);
    R.CallCompletes(setup, w0, x, p, last);
    SettledBeside(setup, w0, x, Steps(setup, p, last, R.Measure(p)).value, Steps(setup, q, last, R.Measure(q)).value,
                  kept);
    NothingKept(setup, w0, x, Steps(setup, q, last, R.Measure(q)).value.at, kept);
  }

  // ---------------------------------------------------------------- when a correction moves money

  ghost predicate Planning(setup: Setup, w0: World, first: Call) {
    Quiet(setup, w0, first.outcome) && Proper(setup, first)
  }

  /** The settlement just planned. */
  function PlannedAt(setup: Setup, w0: World, x: Outcome): Process
    requires Sized(setup.book, w0.accts)
  {
    Process(Progress(w0, Some(PlanLines(setup.book, w0.accts, x)), false), false)
  }

  /**
    What decides a correction: a margin already moved back is given back once the line is marked;
    one not moved back is moved back between posting and mark, if the cash covers it. Either needs a new key.
   */
  predicate Due(w: World, kept: set<nat>, u: nat)
    requires u < |w.accts|
  {
    KeyFor(w, u) !in w.ledger.keys
    && if u in kept then w.accts[u].posted == 0
       else SettleKey(u) in w.ledger.keys && 0 < w.accts[u].posted <= Balance(w.ledger.rows, Cash(u))
  }

  lemma MovesIffDue(w0: World, p: Process, q: Process, kept: set<nat>, u: nat)
    requires Related(w0, p, q, kept) && u < |w0.accts| == |p.at.world.accts|
    requires w0.accts[u].posted >= 0 && Phased(w0, p.at.world, u)
    ensures Moves(q.at.world, u) <==> Due(q.at.world, kept, u)
  {
    BalanceIsFold(q.at.world.ledger.rows, Cash(u));
  }

  /** The settlement after the turns, and who has margin back. */
  lemma TurnsReach(setup: Setup, w0: World, first: Call, turns: seq<Turn>)
    requires Planning(setup, w0, first) && ProperTurns(setup, turns)
    ensures Workable(setup, PlannedAt(setup, w0, first.outcome))
            && Turns(setup, PlannedAt(setup, w0, first.outcome), turns).Ok?
    ensures |Turns(setup, PlannedAt(setup, w0, first.outcome), turns).value.at.world.accts| == |w0.accts|
  {
    var x := first.outcome;
    JustPlanned(setup, w0, x);
    UnderwayIsWorkable(setup, w0, x, PlannedAt(setup, w0, x));
    TurnsBeside(setup, w0, x, PlannedAt(setup, w0, x), turns);
    MovesProper(setup, turns);
    MovesSane(setup, w0, x, PlannedAt(setup, w0, x), MovesOf(turns));
  }

  /** At any turn, whatever came before, a correction moves money if and only if it is due. */
  lemma CorrectionMovesIff(setup: Setup, w0: World, first: Call, turns: seq<Turn>, u: nat)
    requires Planning(setup, w0, first) && ProperTurns(setup, turns) && u < |w0.accts|
    ensures var p1 := PlannedAt(setup, w0, first.outcome);
            && Workable(setup, p1) && Turns(setup, p1, turns).Ok?
            && var w := Turns(setup, p1, turns).value.at.world;
               |w.accts| == |w0.accts| && (Moves(w, u) <==> Due(w, KeptBack(setup, p1, turns), u))
  {
    var x := first.outcome;
    var p1 := PlannedAt(setup, w0, x);
    TurnsReach(setup, w0, first, turns);
    JustPlanned(setup, w0, x);
    TurnsBeside(setup, w0, x, p1, turns);
    MovesProper(setup, turns);
    MovesSane(setup, w0, x, p1, MovesOf(turns));
    SanePhased(setup, w0, x, R.After(setup, p1, MovesOf(turns)).value, u);
    MovesIffDue(w0, R.After(setup, p1, MovesOf(turns)).value, Turns(setup, p1, turns).value, KeptBack(setup, p1, turns),
                u);
  }

  /** Behind the mark, a correction under a new key gives the margin back. */
  lemma CorrectionGivesBack(setup: Setup, w0: World, first: Call, turns: seq<Turn>, u: nat)
    requires Planning(setup, w0, first) && ProperTurns(setup, turns) && u < |w0.accts|
    requires Workable(setup, PlannedAt(setup, w0, first.outcome))
             && Turns(setup, PlannedAt(setup, w0, first.outcome), turns).Ok?
    requires u in KeptBack(setup, PlannedAt(setup, w0, first.outcome), turns)
    requires var w := Turns(setup, PlannedAt(setup, w0, first.outcome), turns).value.at.world;
             u < |w.accts| && w.accts[u].posted == 0 && KeyFor(w, u) !in w.ledger.keys
    ensures var p1 := PlannedAt(setup, w0, first.outcome);
            KeptBack(setup, p1, turns + [Correct(u)]) == KeptBack(setup, p1, turns) - {u}
  {
    CorrectionMovesIff(setup, w0, first, turns, u);
    TurnsExtend(setup, PlannedAt(setup, w0, first.outcome), turns, Correct(u));
  }

  // ---------------------------------------------------------------- a crash in the window

  /** The first line is posted, the call crashes before the mark, and the reconciler turns to the line's user. */
  function CrashInWindow(call: Call, u: nat): seq<Turn> { [Settle(R.Go(call)), Settle(R.Crash), Correct(u)] }

  /** The ledger and the tables in the window: the margin is released, and its cash is there. */
  ghost predicate InWindow(w0: World, l: Line, w: World) {
    && l.user < |w.accts| == |w0.accts| && w.accts == w0.accts && l.margin == w0.accts[l.user].posted
    && SettleKey(l.user) in w.ledger.keys && w.ledger.keys.Keys == w0.ledger.keys.Keys + {SettleKey(l.user)}
    && Balance(w.ledger.rows, Margin(l.user, EVENT)) == 0
    && Balance(w.ledger.rows, Cash(l.user)) == Balance(w0.ledger.rows, Cash(l.user)) + l.margin + l.net
  }

  lemma FirstLine(setup: Setup, w0: World, x: Outcome, l: Line)
    requires Quiet(setup, w0, x) && l in PlanLines(setup.book, w0.accts, x)
    ensures l.user < |w0.accts| && l.margin == w0.accts[l.user].posted && Covers(l) && !Keyed(w0.ledger, l)
    ensures Cash(l.user) in w0.ledger.accounts && Balance(w0.ledger.rows, Margin(l.user, EVENT)) == l.margin
  {
    PlannedLines(setup, w0, x);
    assert Funded(setup.book, w0.ledger, l.user, w0.accts[l.user]);
  }

  lemma PostedInWindow(w0: World, l: Line, p: Process)
    requires p.at.world == w0 && l.user < |w0.accts| && l.margin == w0.accts[l.user].posted > 0 && Covers(l)
             && !Keyed(w0.ledger, l)
    requires Sound(w0.ledger) && Cash(l.user) in w0.ledger.accounts
             && Balance(w0.ledger.rows, Margin(l.user, EVENT)) == l.margin
    ensures PostStep(p, l).Ok? && InWindow(w0, l, PostStep(p, l).value.at.world)
  {
    PostsFirst(p, l);
  }

  lemma WindowReached(setup: Setup, w0: World, call: Call, l: Line)
    requires Planning(setup, w0, call) && Pending(PlanLines(setup.book, w0.accts, call.outcome))
    requires l == PlanLines(setup.book, w0.accts, call.outcome)[First(PlanLines(setup.book, w0.accts, call.outcome))]
             && l.margin > 0
    ensures var p1 := PlannedAt(setup, w0, call.outcome);
            && Workable(setup, p1) && Advance(setup, p1, call).Ok?
            && InWindow(w0, l, Advance(setup, p1, call).value.at.world)
  {
    var x := call.outcome;
    FirstLine(setup, w0, x, l);
    PostedInWindow(w0, l, PlannedAt(setup, w0, x));
    JustPlanned(setup, w0, x);
    R.AdvanceIs(setup, w0, x, PlannedAt(setup, w0, x), call);
  }

  lemma WindowTurns(setup: Setup, p1: Process, call: Call, u: nat)
    requires Workable(setup, p1) && Advance(setup, p1, call).Ok?
    ensures var before := [Settle(R.Go(call)), Settle(R.Crash)];
            && Turns(setup, p1, before) == Ok(Advance(setup, p1, call).value.(sent := false))
            && KeptBack(setup, p1, before) == {}
            && before + [Correct(u)] == CrashInWindow(call, u)
  {
    var none: seq<Turn> := [];
    assert Turns(setup, p1, none) == Ok(p1) && KeptBack(setup, p1, none) == {};
    TurnsExtend(setup, p1, none, Settle(R.Go(call)));
    assert none + [Settle(R.Go(call))] == [Settle(R.Go(call))];
    TurnsExtend(setup, p1, [Settle(R.Go(call))], Settle(R.Crash));
    assert [Settle(R.Go(call))] + [Settle(R.Crash)] == [Settle(R.Go(call)), Settle(R.Crash)];
  }

  /**
    So a settlement can end unsettled: after a crash behind its first posting, the correction keeps
    the user's margin back if and only if the ledger does not know its key and the user's cash
    before the settlement covers what the user owes.
   */
  lemma CrashInWindowKeepsMargin(setup: Setup, w0: World, call: Call, l: Line)
    requires Planning(setup, w0, call) && Pending(PlanLines(setup.book, w0.accts, call.outcome))
    requires l == PlanLines(setup.book, w0.accts, call.outcome)[First(PlanLines(setup.book, w0.accts, call.outcome))]
             && l.margin > 0
    ensures l.user < |w0.accts| && Workable(setup, PlannedAt(setup, w0, call.outcome))
    ensures KeptBack(setup, PlannedAt(setup, w0, call.outcome), CrashInWindow(call, l.user))
            == if ReconcileKey(l.user, w0.accts[l.user].version, 0) !in w0.ledger.keys
                  && -l.net <= Balance(w0.ledger.rows, Cash(l.user)) then {l.user} else {}
  {
    var p1 := PlannedAt(setup, w0, call.outcome);
    var before := [Settle(R.Go(call)), Settle(R.Crash)];
    WindowReached(setup, w0, call, l);
    WindowTurns(setup, p1, call, l.user);
    CorrectionMovesIff(setup, w0, call, before, l.user);
    TurnsExtend(setup, p1, before, Correct(l.user));
    assert Toggled({}, l.user) == {l.user};
  }
}
