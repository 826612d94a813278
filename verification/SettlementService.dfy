/** settlement-svc's event pass, proved to be the steps of module Settlement. */
module SettlementServices {
  import opened Common
  import opened Payoffs
  import opened WorstCase
  import opened EventMargins
  import opened Ledger
  import opened LedgerServices
  import opened MarginExec
  import opened MarginRuns
  import opened RiskServices
  import opened Settlement

  /** `settlement_entries`, branch by branch. */
  method BuildSettlementEntries(user: nat, margin: int, net: int) returns (r: Result<seq<Entry>, ()>)
    ensures r == SettlementEntries(user, margin, net)
  {
    if margin < 0 {
      return Err(());
    }
    if net < 0 && -net > margin {
      return Err(());
    }
    var entries: seq<Entry> := [];
    if margin > 0 {
      entries := entries + [Entry(Margin(user, EVENT), DR, margin)];
    }
    ghost var release := entries;
    if net < 0 {
      entries := entries + [Entry(Clearing(EVENT), CR, -net)];
      if margin + net > 0 {
        entries := entries + [Entry(Cash(user), CR, margin + net)];
      }
      assert entries == release + ([Entry(Clearing(EVENT), CR, -net)]
                                   + if margin + net > 0 then [Entry(Cash(user), CR, margin + net)] else []);
    } else if net > 0 {
      entries := entries + [Entry(Clearing(EVENT), DR, net)];
      entries := entries + [Entry(Cash(user), CR, margin + net)];
      assert entries == release + [Entry(Clearing(EVENT), DR, net), Entry(Cash(user), CR, margin + net)];
    } else if margin > 0 {
      entries := entries + [Entry(Cash(user), CR, margin)];
    }
    assert release == if margin > 0 then [Entry(Margin(user, EVENT), DR, margin)] else [];
    assert release + [] == release;
    r := Ok(entries);
  }

  /** The open interest of every contract, or the first that does not net to zero. */
  method CheckOpenInterest(book: EventBook, accts: seq<Acct>) returns (flat: bool)
    requires Sized(book, accts)
    ensures flat <==> FlatInterest(book, accts)
  {
    for t := 0 to |book.instruments|
      invariant forall k :: 0 <= k < t ==> OpenInterest(accts, k, |accts|) == 0
    {
      var sum := 0;
      for u := 0 to |accts|
        invariant sum == OpenInterest(accts, t, u)
      {
        sum := sum + accts[u].net[t];
      }
      if sum != 0 {
        return false;
      }
    }
    flat := true;
  }

  /** Whether the account holds a position. */
  method IsOpen(a: Acct) returns (open: bool)
    ensures open <==> Open(a)
  {
    for t := 0 to |a.net|
      invariant forall k :: 0 <= k < t ==> a.net[k] == 0
    {
      if a.net[t] != 0 {
        return true;
      }
    }
    open := false;
  }

  /** The first `n` accounts that hold a position, with their positions. */
  ghost predicate Holders(book: EventBook, accts: seq<Acct>, x: Outcome, n: nat, users: seq<nat>,
                          accounts: seq<seq<Position>>)
    requires Sized(book, accts) && n <= |accts|
  {
    && |users| == |accounts| == |PositionLines(book, accts, x, n)|
    && forall k :: 0 <= k < |users| ==>
                     && users[k] < |accts| && Known(|book.instruments|, accounts[k])
                     && Net(|book.instruments|, accounts[k]) == accts[users[k]].net
                     && PositionLines(book, accts, x, n)[k]
                        == Line(users[k], SettlementOf(book, accts[users[k]].net, x), accts[users[k]].posted, false)
  }

  lemma AllPositions(net: seq<int>)
    ensures Known(|net|, PositionsOf(net, |net|)) && Net(|net|, PositionsOf(net, |net|)) == net
  {
    PositionsNet(net, |net|);
    assert Masked(net, |net|) == net;
  }

  lemma HolderAdded(book: EventBook, accts: seq<Acct>, x: Outcome, n: nat, users: seq<nat>,
                    accounts: seq<seq<Position>>, positions: seq<Position>)
    requires Sized(book, accts) && n < |accts| && Holders(book, accts, x, n, users, accounts) && Open(accts[n])
    requires Known(|book.instruments|, positions) && Net(|book.instruments|, positions) == accts[n].net
    ensures Holders(book, accts, x, n + 1, users + [n], accounts + [positions])
  {
  }

  lemma HolderSkipped(book: EventBook, accts: seq<Acct>, x: Outcome, n: nat)
    requires Sized(book, accts) && n < |accts| && !Open(accts[n])
    ensures PositionLines(book, accts, x, n + 1) == PositionLines(book, accts, x, n)
  {
  }

  method ListHolders(book: EventBook, accts: seq<Acct>, ghost x: Outcome)
    returns (users: seq<nat>, accounts: seq<seq<Position>>)
    requires Sized(book, accts)
    ensures Holders(book, accts, x, |accts|, users, accounts)
  {
    users, accounts := [], [];
    for u := 0 to |accts|
      invariant Holders(book, accts, x, u, users, accounts)
    {
      var open := IsOpen(accts[u]);
      if open {
        AllPositions(accts[u].net);
        HolderAdded(book, accts, x, u, users, accounts, PositionsOf(accts[u].net, |accts[u].net|));
        users := users + [u];
        accounts := accounts + [PositionsOf(accts[u].net, |accts[u].net|)];
      } else {
        HolderSkipped(book, accts, x, u);
      }
    }
  }

  lemma {:induction false} TotalsAgree(book: EventBook, accts: seq<Acct>, x: Outcome, users: seq<nat>,
                                       accounts: seq<seq<Position>>, lines: seq<Line>)
    requires Sized(book, accts) && |users| == |accounts| == |lines|
    requires forall k :: 0 <= k < |lines| ==>
                           && users[k] < |accts| && Known(|book.instruments|, accounts[k])
                           && Net(|book.instruments|, accounts[k]) == accts[users[k]].net
                           && lines[k].net == SettlementOf(book, accts[users[k]].net, x)
    ensures SettlementTotal(book, accounts, x) == LineTotal(lines)
  {
    if lines != [] {
      var n := |lines| - 1;
      TotalsAgree(book, accts, x, users[..n], accounts[..n], lines[..n]);
    }
  }

  /** One line per holder, at its net. */
  method HolderLines(book: EventBook, accts: seq<Acct>, ghost x: Outcome, users: seq<nat>,
                     ghost accounts: seq<seq<Position>>, nets: seq<int>)
    returns (lines: seq<Line>)
    requires Sized(book, accts) && Holders(book, accts, x, |accts|, users, accounts) && |nets| == |users|
    requires forall k :: 0 <= k < |nets| ==> nets[k] == SettlementOf(book, accts[users[k]].net, x)
    ensures lines == PositionLines(book, accts, x, |accts|)
  {
    lines := [];
    ghost var planned := PositionLines(book, accts, x, |accts|);
    for k := 0 to |users|
      invariant lines == planned[..k]
    {
      lines := lines + [Line(users[k], nets[k], accts[users[k]].posted, false)];
    }
  }

  /** Then one line per account that holds margin but no position. */
  method AddMarginLines(accts: seq<Acct>, first: seq<Line>) returns (lines: seq<Line>)
    ensures lines == first + MarginLines(accts, |accts|)
  {
    lines := first;
    for u := 0 to |accts|
      invariant lines == first + MarginLines(accts, u)
    {
      var open := IsOpen(accts[u]);
      if !open && accts[u].posted > 0 {
        lines := lines + [Line(u, 0, accts[u].posted, false)];
      }
    }
  }

  /** The planned lines: accounts with positions first, then those that only hold margin. */
  method PlanAll(book: EventBook, accts: seq<Acct>, x: Outcome) returns (r: Result<seq<Line>, Problem>)
    requires book.Valid() && book.Contractual(x) && Sized(book, accts)
    ensures r == if !FlatInterest(book, accts) then Err(OpenInterestLeft)
                 else if LineTotal(PositionLines(book, accts, x, |accts|)) != 0 then Err(NetsDoNotCancel)
                 else Ok(PlanLines(book, accts, x))
  {
    var flat := CheckOpenInterest(book, accts);
    if !flat {
      return Err(OpenInterestLeft);
    }
    var users, accounts := ListHolders(book, accts, x);
    TotalsAgree(book, accts, x, users, accounts, PositionLines(book, accts, x, |accts|));
    var nets := SettleAccounts(book, accounts, x);
    if nets.Err? {
      return Err(NetsDoNotCancel);
    }
    var lines := HolderLines(book, accts, x, users, accounts, nets.value);
    lines := AddMarginLines(accts, lines);
    r := Ok(lines);
  }

  /** The pending line that comes first, if any line is pending. */
  method NextLine(lines: seq<Line>) returns (next: Option<nat>)
    ensures next.Some? <==> Pending(lines)
    ensures next.Some? ==> next.value == First(lines)
  {
    next := None;
    for k := 0 to |lines|
      invariant next.Some? <==> Pending(lines[..k])
      invariant next.Some? ==> next.value == First(lines[..k])
    {
      var before, upto := lines[..k], lines[..k + 1];
      assert upto[..k] == before;
      PendingStep(lines, k);
      if !lines[k].posted && (next.None? || lines[k].net < lines[next.value].net) {
        next := Some(k);
      }
    }
    assert lines[..|lines|] == lines;
  }

  lemma PendingStep(lines: seq<Line>, k: nat)
    requires k < |lines|
    ensures Pending(lines[..k + 1]) <==> Pending(lines[..k]) || !lines[k].posted
  {
    if Pending(lines[..k]) {
      var i :| 0 <= i < k && !lines[..k][i].posted;
      assert !lines[..k + 1][i].posted;
    }
    if !lines[k].posted { assert !lines[..k + 1][k].posted; }
    if Pending(lines[..k + 1]) && lines[k].posted {
      var i :| 0 <= i < k + 1 && !lines[..k + 1][i].posted;
      assert !lines[..k][i].posted;
    }
  }

  class Settler {
    const setup: Setup
    const ledger: LedgerService
    var accts: seq<Acct>
    var lines: Option<seq<Line>>
    var completed: bool
    ghost var applied: set<nat>
    ghost var seen: set<nat>

    constructor (setup: Setup, ledger: LedgerService, accts: seq<Acct>, ghost applied: set<nat>, ghost seen: set<nat>)
      ensures this.setup == setup && this.ledger == ledger
      ensures Now() == Progress(World(accts, applied, ledger.Tables(), seen), None, false)
    {
      this.setup, this.ledger, this.accts := setup, ledger, accts;
      this.lines, this.completed, this.applied, this.seen := None, false, applied, seen;
    }

    ghost function Now(): Progress
      reads this, ledger
    {
      Progress(World(accts, applied, ledger.Tables(), seen), lines, completed)
    }

    ghost predicate Valid(sent: bool)
      reads this, ledger
    {
      Workable(setup, Process(Now(), sent))
    }

    /** Posts one line, unless its margin is neither as planned nor already released. */
    method PostLine(l: Line) returns (r: Result<(), Problem>)
      modifies ledger
      ensures r.Ok? ==> PostStep(old(Process(Now(), false)), l) == Ok(Process(Now(), true))
      ensures r.Err? ==> Now() == old(Now()) && PostStep(old(Process(Now(), false)), l) == Err(r.error)
    {
      var balance := Balance(ledger.rows, Margin(l.user, EVENT));
      if balance != l.margin && balance != 0 {
        return Err(MarginDrift(l.user));
      }
      var entries := BuildSettlementEntries(l.user, l.margin, l.net);
      if entries.Err? {
        return Err(OwesTooMuch(l.user));
      }
      if entries.value != [] {
        var posted := ledger.Post(SettleKey(l.user), entries.value);
        if posted.Err? {
          return Err(PostingFailed(posted.error));
        }
      }
      r := Ok(());
    }

    /** The snapshot: positions, amounts and margins are written down before anything is posted. */
    method WriteLines(call: Call) returns (r: Result<(), Problem>)
      requires Valid(false) && !completed && lines.None? && Refusal(setup, accts, call) == None
      modifies this`lines
      ensures r.Ok? ==> lines.Some? && Advance(setup, old(Process(Now(), false)), call) == Ok(Process(Now(), false))
      ensures r.Err? ==> Now() == old(Now()) && Advance(setup, Process(Now(), false), call) == Err(r.error)
    {
      var planned := PlanAll(setup.book, accts, call.outcome);
      if planned.Err? {
        return Err(planned.error);
      }
      lines := Some(planned.value);
      r := Ok(());
    }

    /** One line of the loop: post it, then mark it and zero the account's margin row. */
    method SettleLine(call: Call, i: nat) returns (r: Result<(), Problem>)
      requires Valid(false) && !completed && lines.Some? && Pending(lines.value) && i == First(lines.value)
      requires Refusal(setup, accts, call) == None
      modifies this, ledger
      ensures r.Ok? ==> lines.Some? && !completed && Refusal(setup, accts, call) == None
                        && PendingCount(lines.value) < old(PendingCount(lines.value))
                        && exists q :: Advance(setup, old(Process(Now(), false)), call) == Ok(q) && Workable(setup, q)
                                       && Advance(setup, q, call) == Ok(Process(Now(), false))
      ensures r.Err? ==> Now() == old(Now()) && Advance(setup, Process(Now(), false), call) == Err(r.error)
    {
      ghost var p := Process(Now(), false);
      var posted := PostLine(lines.value[i]);
      if posted.Err? {
        return Err(posted.error);
      }
      ghost var q := Process(Now(), true);
      assert Advance(setup, p, call) == Ok(q);
      StepStaysWorkable(setup, p, call);
      var user := lines.value[i].user;
      CountMark(lines.value, i);
      lines := Some(lines.value[i := lines.value[i].(posted := true)]);
      accts := accts[user := accts[user].(posted := 0, version := accts[user].version + 1)];
      assert Advance(setup, q, call) == Ok(Process(Now(), false));
      r := Ok(());
    }

    /** The last commit: CLEARING must be empty, then the positions are cleared. */
    method Complete(call: Call) returns (r: Result<(), Problem>)
      requires Valid(false) && !completed && lines.Some? && !Pending(lines.value) && Refusal(setup, accts, call) == None
      modifies this`accts, this`completed
      ensures r.Ok? ==> completed && Advance(setup, old(Process(Now(), false)), call) == Ok(Process(Now(), false))
      ensures r.Err? ==> Now() == old(Now()) && Advance(setup, Process(Now(), false), call) == Err(r.error)
    {
      if Balance(ledger.rows, Clearing(EVENT)) != 0 {
        return Err(ClearingLeft);
      }
      accts := Cleared(setup.book, accts);
      completed := true;
      r := Ok(());
    }

    /** `settle_event`: the steps of one call, from wherever an earlier call stopped. */
    method SettleEvent(call: Call) returns (r: Result<(), Problem>)
      requires Valid(false)
      modifies this, ledger
      ensures r.Ok? ==> completed && Reached(setup, old(Now()), call, Process(Now(), false))
      ensures r.Err? ==> Stuck(setup, old(Now()), call, Now(), r.error)
    {
      ghost var p0 := Process(Now(), false);
      assert Steps(setup, p0, call, 0) == Ok(p0);
      if completed {
        return Ok(());
      }
      var refusal := Refusal(setup, accts, call);
      if refusal.Some? {
        return Err(refusal.value);
      }
      ghost var k: nat := 0;
      if lines.None? {
        r := WriteLines(call);
        if r.Err? {
          return;
        }
        OneStep(setup, p0, call, 0, p0);
        k := 1;
      }
      var next := NextLine(lines.value);
      while next.Some?
        invariant lines.Some? && !completed && Refusal(setup, accts, call) == None
        invariant Steps(setup, p0, call, k) == Ok(Process(Now(), false))
        invariant next.Some? <==> Pending(lines.value)
        invariant next.Some? ==> next.value == First(lines.value)
        decreases PendingCount(lines.value)
      {
        ghost var p := Process(Now(), false);
        r := SettleLine(call, next.value);
        if r.Err? {
          return;
        }
        ghost var q :| Advance(setup, p, call) == Ok(q) && Workable(setup, q)
            && Advance(setup, q, call) == Ok(Process(Now(), false));
        OneStep(setup, p0, call, k, p);
        OneStep(setup, p0, call, k + 1, q);
        k := k + 2;
        next := NextLine(lines.value);
      }
      ghost var p := Process(Now(), false);
      r := Complete(call);
      if r.Ok? { OneStep(setup, p0, call, k, p); }
    }
  }

  /** Some number of steps of the call lead from `from` to `q`. */
  ghost predicate Reached(setup: Setup, from: Progress, call: Call, q: Process)
    requires Workable(setup, Process(from, false))
  {
    exists n: nat :: Steps(setup, Process(from, false), call, n) == Ok(q)
  }

  /** Some number of steps lead to `at`, where the next one fails. */
  ghost predicate Stuck(setup: Setup, from: Progress, call: Call, at: Progress, problem: Problem)
    requires Workable(setup, Process(from, false))
  {
    exists n: nat :: Steps(setup, Process(from, false), call, n) == Ok(Process(at, false))
                     && Workable(setup, Process(at, false)) && Advance(setup, Process(at, false), call) == Err(problem)
  }

  lemma OneStep(setup: Setup, p0: Process, call: Call, n: nat, p: Process)
    requires Workable(setup, p0) && Steps(setup, p0, call, n) == Ok(p)
    ensures Workable(setup, p) && Steps(setup, p0, call, n + 1) == Advance(setup, p, call)
    ensures Advance(setup, p, call).Ok? ==> Workable(setup, Advance(setup, p, call).value)
  {
    if Advance(setup, p, call).Ok? { StepStaysWorkable(setup, p, call); }
  }
}
