/**
  Settling a whole event. A call plans one line per account, posts the lines one by one, losers
  first, and then clears the positions. Every step is one commit or one ledger posting, and the
  service may crash after any of them; the next call resumes from what was written down.
 */
module Settlement {
  import opened Common
  import opened Payoffs
  import opened WorstCase
  import opened Ledger
  import opened MarginExec
  import opened MarginRuns

  datatype Line = Line(user: nat, net: int, margin: int, posted: bool)

  /** What survives a crash: the tables and the ledger, the planned lines, and whether all is done. */
  datatype Progress = Progress(world: World, lines: Option<seq<Line>>, completed: bool)

  /** A running call: `sent` says the current line's posting was made by this call. */
  datatype Process = Process(at: Progress, sent: bool)

  /** One call: the outcome, and what the other services' tables say about the event. */
  datatype Call = Call(outcome: Outcome, closed: bool, active: nat, unapplied: nat)

  datatype Problem =
    | NotPortfolio
    | NoContracts
    | NotClosed
    | BadOutcome
    | ActiveOrders
    | MarginReserved
    | UnappliedFills
    | OpenInterestLeft
    | NetsDoNotCancel
    | MarginDrift(user: nat)
    | OwesTooMuch(user: nat)
    | PostingFailed(error: Error)
    | ClearingLeft

  // ---------------------------------------------------------------- postings

  /** `settlement_entries`: releases the margin and settles the net against CLEARING. */
  function SettlementEntries(user: nat, margin: int, net: int): Result<seq<Entry>, ()> {
    if margin < 0 || (net < 0 && -net > margin) then Err(())
    else
      var release := if margin > 0 then [Entry(Margin(user, EVENT), DR, margin)] else [];
      Ok(release
         + if net < 0 then
             [Entry(Clearing(EVENT), CR, -net)] + if margin + net > 0 then [Entry(Cash(user), CR, margin + net)] else []
           else if net > 0 then [Entry(Clearing(EVENT), DR, net), Entry(Cash(user), CR, margin + net)]
           else if margin > 0 then [Entry(Cash(user), CR, margin)]
           else [])
  }

  // ---------------------------------------------------------------- plan

  predicate Open(a: Acct) { exists t :: 0 <= t < |a.net| && a.net[t] != 0 }

  function PositionLines(book: EventBook, accts: seq<Acct>, x: Outcome, n: nat): seq<Line>
    requires Sized(book, accts) && n <= |accts|
  {
    if n == 0 then []
    else
      var a := accts[n - 1];
      PositionLines(book, accts, x, n - 1)
          + if Open(a) then [Line(n - 1, SettlementOf(book, a.net, x), a.posted, false)] else []
  }

  /** Accounts that hold margin but no position. */
  function MarginLines(accts: seq<Acct>, n: nat): seq<Line>
    requires n <= |accts|
  {
    if n == 0 then []
    else
      var a := accts[n - 1];
      MarginLines(accts, n - 1) + if !Open(a) && a.posted > 0 then [Line(n - 1, 0, a.posted, false)] else []
  }

  function PlanLines(book: EventBook, accts: seq<Acct>, x: Outcome): seq<Line>
    requires Sized(book, accts)
  {
    PositionLines(book, accts, x, |accts|) + MarginLines(accts, |accts|)
  }

  function LineTotal(lines: seq<Line>): int {
    if lines == [] then 0 else LineTotal(lines[..|lines| - 1]) + lines[|lines| - 1].net
  }

  // ---------------------------------------------------------------- order of posting

  /** ORDER BY net ASC, id ASC. */
  predicate Before(lines: seq<Line>, i: nat, j: nat)
    requires i < |lines| && j < |lines|
  {
    lines[i].net < lines[j].net || (lines[i].net == lines[j].net && i < j)
  }

  predicate Pending(lines: seq<Line>) { exists i :: 0 <= i < |lines| && !lines[i].posted }

  function PendingCount(lines: seq<Line>): nat {
    if lines == [] then 0 else PendingCount(lines[..|lines| - 1]) + if lines[|lines| - 1].posted then 0 else 1
  }

  lemma {:induction false} CountMark(lines: seq<Line>, h: nat)
    requires h < |lines| && !lines[h].posted
    ensures PendingCount(lines[h := lines[h].(posted := true)]) == PendingCount(lines) - 1
  {
    var n := |lines| - 1;
    var next := lines[h := lines[h].(posted := true)];
    if h < n {
      CountMark(lines[..n], h);
      assert next[..n] == lines[..n][h := lines[h].(posted := true)];
    } else {
      assert next[..n] == lines[..n];
    }
  }

  /** The pending line that comes first. */
  function First(lines: seq<Line>): (i: nat)
    requires Pending(lines)
    ensures i < |lines| && !lines[i].posted
    ensures forall j :: 0 <= j < |lines| && !lines[j].posted && j != i ==> Before(lines, i, j)
  {
    var n := |lines| - 1;
    var rest := lines[..n];
    if Pending(rest) then
      var i := First(rest);
      assert forall j :: 0 <= j < n ==> rest[j] == lines[j];
      assert forall j :: 0 <= j < n && !lines[j].posted && j != i ==> Before(rest, i, j);
      if !lines[n].posted && lines[n].net < lines[i].net then n else i
    else
      assert forall j :: 0 <= j < n ==> rest[j] == lines[j];
      n
  }

  // ---------------------------------------------------------------- one step of a call

  /** The checks every call makes before it touches anything. */
  function Refusal(setup: Setup, accts: seq<Acct>, call: Call): Option<Problem>
    requires setup.book.Valid()
  {
    if !setup.portfolio then Some(NotPortfolio)
    else if setup.book.instruments == [] then Some(NoContracts)
    else if !call.closed then Some(NotClosed)
    else if !setup.book.Contractual(call.outcome) then Some(BadOutcome)
    else if call.active != 0 then Some(ActiveOrders)
    else if exists u :: 0 <= u < |accts| && accts[u].orders != [] then Some(MarginReserved)
    else if call.unapplied != 0 then Some(UnappliedFills)
    else None
  }

  function PlanStep(setup: Setup, p: Process, call: Call): Result<Process, Problem>
    requires setup.book.Valid() && Sized(setup.book, p.at.world.accts)
  {
    var w := p.at.world;
    if !FlatInterest(setup.book, w.accts) then Err(OpenInterestLeft)
    else if LineTotal(PositionLines(setup.book, w.accts, call.outcome, |w.accts|)) != 0 then Err(NetsDoNotCancel)
    else Ok(p.(at := p.at.(lines := Some(PlanLines(setup.book, w.accts, call.outcome)))))
  }

  /** Posts the line unless its margin is neither as planned nor already released. */
  function PostStep(p: Process, l: Line): Result<Process, Problem> {
    var w := p.at.world;
    var balance := Balance(w.ledger.rows, Margin(l.user, EVENT));
    if balance != l.margin && balance != 0 then Err(MarginDrift(l.user))
    else
      var entries := SettlementEntries(l.user, l.margin, l.net);
      if entries.Err? then Err(OwesTooMuch(l.user))
      else
        var (t, r) := LedgerStep(w.ledger, SettleKey(l.user), entries.value);
        if r.Err? then Err(PostingFailed(r.error))
        else Ok(Process(p.at.(world := w.(ledger := t)), true))
  }

  /** Marks the line and zeroes the account's margin row. */
  function MarkStep(p: Process, lines: seq<Line>, i: nat): Process
    requires i < |lines| && lines[i].user < |p.at.world.accts|
  {
    var w, user := p.at.world, lines[i].user;
    var a := w.accts[user];
    var marked := w.(accts := w.accts[user := a.(posted := 0, version := a.version + 1)]);
    Process(Progress(marked, Some(lines[i := lines[i].(posted := true)]), false), false)
  }

  function Cleared(book: EventBook, accts: seq<Acct>): (r: seq<Acct>)
    ensures |r| == |accts|
  {
    seq(|accts|, u requires 0 <= u < |accts| => accts[u].(net := Zeros(|book.instruments|)))
  }

  function FinishStep(setup: Setup, p: Process): Result<Process, Problem> {
    var w := p.at.world;
    if Balance(w.ledger.rows, Clearing(EVENT)) != 0 then Err(ClearingLeft)
    else Ok(Process(p.at.(world := w.(accts := Cleared(setup.book, w.accts)), completed := true), false))
  }

  /** What a call can work on: every line names an account. */
  predicate Workable(setup: Setup, p: Process) {
    && setup.book.Valid() && Sized(setup.book, p.at.world.accts)
    && (p.at.lines.Some? ==> forall i :: 0 <= i < |p.at.lines.value| ==> p.at.lines.value[i].user < |p.at.world.accts|)
  }

  function Advance(setup: Setup, p: Process, call: Call): Result<Process, Problem>
    requires Workable(setup, p)
  {
    if p.at.completed then Ok(p)
    else if Refusal(setup, p.at.world.accts, call).Some? then Err(Refusal(setup, p.at.world.accts, call).value)
    else if p.at.lines.None? then PlanStep(setup, p, call)
    else
      var lines := p.at.lines.value;
      if !Pending(lines) then FinishStep(setup, p)
      else if !p.sent then PostStep(p, lines[First(lines)])
      else Ok(MarkStep(p, lines, First(lines)))
  }

  lemma {:induction false} PositionLineUsers(book: EventBook, accts: seq<Acct>, x: Outcome, n: nat)
    requires Sized(book, accts) && n <= |accts|
    ensures forall i :: 0 <= i < |PositionLines(book, accts, x, n)| ==> PositionLines(book, accts, x, n)[i].user < n
  {
    if n > 0 { PositionLineUsers(book, accts, x, n - 1); }
  }

  lemma {:induction false} MarginLineUsers(accts: seq<Acct>, n: nat)
    requires n <= |accts|
    ensures forall i :: 0 <= i < |MarginLines(accts, n)| ==> MarginLines(accts, n)[i].user < n
  {
    if n > 0 { MarginLineUsers(accts, n - 1); }
  }

  /** Whatever a step does, the next one can go on from there. */
  lemma StepStaysWorkable(setup: Setup, p: Process, call: Call)
    requires Workable(setup, p) && Advance(setup, p, call).Ok?
    ensures Workable(setup, Advance(setup, p, call).value)
  {
    PositionLineUsers(setup.book, p.at.world.accts, call.outcome, |p.at.world.accts|);
    MarginLineUsers(p.at.world.accts, |p.at.world.accts|);
  }

  /** One more step, unless something failed before. */
  function Then(setup: Setup, r: Result<Process, Problem>, call: Call): (next: Result<Process, Problem>)
    requires r.Ok? ==> Workable(setup, r.value)
    ensures next.Ok? ==> Workable(setup, next.value)
  {
    if r.Err? then r
    else
      var next := Advance(setup, r.value, call);
      assert next.Ok? ==> Workable(setup, next.value) by {
        if next.Ok? { StepStaysWorkable(setup, r.value, call); }
      }
      next
  }

  /** `n` steps of one call, stopping at an error. */
  function Steps(setup: Setup, p: Process, call: Call, n: nat): (r: Result<Process, Problem>)
    requires Workable(setup, p)
    ensures r.Ok? ==> Workable(setup, r.value)
  {
    if n == 0 then Ok(p) else Then(setup, Steps(setup, p, call, n - 1), call)
  }
}
