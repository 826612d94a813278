/**
  The life of one isolated order's hold: it covers everything the order's fills commit, the
  ledger accepts every commit and the release of the remainder in any order, and at the end the
  hold is used up to the last micro-USDC and closed.
 */
module OrderHolds {
  import opened Common
  import opened Portfolio
  import opened Ledger
  import opened LedgerRuns
  import opened Isolated
  import opened Escrow

  /** An executed part of an order: price and count, in sequence order. */
  datatype Execution = Execution(price: int, count: int)

  /** The order as it fills: its limit and count, amended or not, and the split and hold decided when it was entered. */
  datatype Terms = Terms(side: Side, action: Action, limit: int, count: int, opening: int, closing: int, hold: int)

  function Counts(executions: seq<Execution>): (c: seq<int>)
    ensures |c| == |executions|
  {
    seq(|executions|, i requires 0 <= i < |executions| => executions[i].count)
  }

  function FilledUp(executions: seq<Execution>): int { Filled(Counts(executions), |executions|) }

  function OpeningAt(o: Terms, executions: seq<Execution>, i: nat): int
    requires i < |executions|
  {
    OpeningFillCount(o.opening, o.closing, Filled(Counts(executions), i), executions[i].count)
  }

  /**
    What the `i`-th execution is to commit from the hold; None is an error, of its
    posting and of the remainder's release.
   */
  function CommitAmount(c: Contract, o: Terms, executions: seq<Execution>, i: nat): Option<int>
    requires i < |executions|
  {
    if OpeningAt(o, executions, i) <= 0 then Some(0)
    else FillHoldAmount(c, o.side, o.action, executions[i].price, OpeningAt(o, executions, i))
  }

  predicate Committable(c: Contract, o: Terms, executions: seq<Execution>, n: nat)
    requires n <= |executions|
  {
    forall i :: 0 <= i < n ==> CommitAmount(c, o, executions, i).Some?
  }

  function CommitOf(c: Contract, o: Terms, executions: seq<Execution>, i: nat): int
    requires i < |executions|
  {
    match CommitAmount(c, o, executions, i)
    case Some(amount) => amount
    case None => 0
  }

  /** `release_order_remainder` adds these up. */
  function Committed(c: Contract, o: Terms, executions: seq<Execution>, n: nat): int
    requires n <= |executions|
  {
    if n == 0 then 0 else Committed(c, o, executions, n - 1) + CommitOf(c, o, executions, n - 1)
  }

  datatype Failure = InvalidHoldAmount

  /**
    The loop that adds up what the fills committed, and what is left to release; the
    first amount that cannot be made out is an error.
   */
  method Remainder(c: Contract, o: Terms, executions: seq<Execution>, hold: int) returns (release: Result<int, Failure>)
    ensures release == if Committable(c, o, executions, |executions|) then
                         Ok(hold - Committed(c, o, executions, |executions|))
                       else
                         Err(InvalidHoldAmount)
  {
    var committed, prior := 0, 0;
    for i := 0 to |executions|
      invariant Committable(c, o, executions, i)
      invariant committed == Committed(c, o, executions, i) && prior == Filled(Counts(executions), i)
    {
      var opening := OpeningFillCount(o.opening, o.closing, prior, executions[i].count);
      assert opening == OpeningAt(o, executions, i);
      if opening > 0 {
        var amount := FillHoldAmount(c, o.side, o.action, executions[i].price, opening);
        if amount.None? {
          assert CommitAmount(c, o, executions, i) == None;
          return Err(InvalidHoldAmount);
        }
        committed := committed + amount.value;
      }
      prior := prior + executions[i].count;
    }
    release := Ok(hold - committed);
  }

  /** The release is computed exactly when no execution that opens is at the edge of the band on the order's side. */
  lemma CommittableIff(c: Contract, o: Terms, executions: seq<Execution>, n: nat)
    requires n <= |executions| && (c.kind == Scalar ==> c.tickValue > 0 && c.lower < c.upper)
    requires forall i :: 0 <= i < n ==> executions[i].price > 0
    ensures Committable(c, o, executions, n)
            <==> forall i :: 0 <= i < n && OpeningAt(o, executions, i) > 0 ==>
                             OffEdge(c, o.side, o.action, executions[i].price)
  {
    forall i | 0 <= i < n && OpeningAt(o, executions, i) > 0
      ensures CommitAmount(c, o, executions, i).Some? <==> OffEdge(c, o.side, o.action, executions[i].price)
    {
      HoldAmountAtBandEdge(c, o.side, o.action, executions[i].price, OpeningAt(o, executions, i));
    }
  }

  // ---------------------------------------------------------------- amendments

  /** The order as pre-trade accepts it: split for its whole count, with a hold sized at its limit. */
  predicate Entered(c: Contract, o: Terms) {
    o.count == o.opening + o.closing && RequiredHold(c, o.side, o.action, o.limit, o.count, o.opening) == Some(o.hold)
  }

  /** A price and a count asked for before the first fill. */
  datatype Amendment = Amendment(price: int, count: int)

  /** An amendment changes limit and count, or is refused; split and hold stay. */
  function Amended(c: Contract, o: Terms, a: Amendment): Terms {
    if AmendAllowed(c, o.side, o.action, o.hold, a.price, a.count) then o.(limit := a.price, count := a.count) else o
  }

  function AmendedEach(c: Contract, o: Terms, amendments: seq<Amendment>): Terms {
    if amendments == [] then o
    else Amended(c, AmendedEach(c, o, amendments[..|amendments| - 1]), amendments[|amendments| - 1])
  }

  /** What fits the hold: the order as entered, or one that may fill up to a count the hold is sized for. */
  predicate Fits(c: Contract, o: Terms) {
    Entered(c, o) || AmendAllowed(c, o.side, o.action, o.hold, o.limit, o.count)
  }

  /** Whatever amendments are asked for, the order keeps its side, split and hold, and fits the hold. */
  lemma {:induction false} AmendmentsFit(c: Contract, o: Terms, amendments: seq<Amendment>)
    requires Entered(c, o)
    ensures var t := AmendedEach(c, o, amendments); Fits(c, t) && t == o.(limit := t.limit, count := t.count)
  {
    if amendments != [] { AmendmentsFit(c, o, amendments[..|amendments| - 1]); }
  }

  // ---------------------------------------------------------------- the hold covers the fills

  /**
    What pre-trade, amendments and matching guarantee: a normalised order that fits
    its hold, filled up to its count at its limit or better.
   */
  predicate Proper(c: Contract, o: Terms, executions: seq<Execution>) {
    && (o.side == Yes || o.side == Long) && (o.action == Buy || o.action == Sell) && c.kind != OtherKind
    && o.opening >= 0 && o.closing >= 0 && Fits(c, o)
    && (o.count == o.opening + o.closing || FilledUp(executions) <= o.count)
    && (c.kind == Scalar ==> c.tickValue > 0 && c.lower < c.upper) && RiskOf(c, o.action, o.limit) >= 0
    && forall i :: 0 <= i < |executions| ==>
                     && executions[i].count >= 0
                     && if o.action == Buy then executions[i].price <= o.limit else executions[i].price >= o.limit
  }

  lemma {:induction false} FilledNonNegative(counts: seq<int>, n: nat)
    requires n <= |counts| && forall i :: 0 <= i < |counts| ==> counts[i] >= 0
    ensures Filled(counts, n) >= 0
  {
    if n > 0 { FilledNonNegative(counts, n - 1); }
  }

  lemma {:induction false} FilledGrows(counts: seq<int>, m: nat, n: nat)
    requires m <= n <= |counts| && forall i :: 0 <= i < |counts| ==> counts[i] >= 0
    ensures Filled(counts, m) <= Filled(counts, n)
  {
    if m < n { FilledGrows(counts, m, n - 1); }
  }

  lemma LowerRisk(risk: int, worst: int, units: int, m: int)
    requires risk <= worst && units >= 0 && m >= 0
    ensures risk * units * m <= worst * units * m
  {
    assert risk * units <= worst * units;
  }

  /** One execution commits at most its opening units at the limit's risk. */
  lemma CommitWithinLimit(c: Contract, o: Terms, executions: seq<Execution>, i: nat)
    requires Proper(c, o, executions) && i < |executions|
    ensures var opening := OpeningFillCount(o.opening, o.closing, Filled(Counts(executions), i), executions[i].count);
            0 <= CommitOf(c, o, executions, i) <= RiskOf(c, o.action, o.limit) * opening * TickOf(c)
  {
    var prior, e := Filled(Counts(executions), i), executions[i];
    var opening := OpeningFillCount(o.opening, o.closing, prior, e.count);
    OpeningStep(o.opening, o.closing, prior, e.count);
    NonNegativeProduct(RiskOf(c, o.action, o.limit), opening, TickOf(c));
    if opening > 0 {
      OrderAmounts(c, Order(0, o.side, o.action, o.count, o.count, 0, 0, None), e.price, opening, 0);
      LowerRisk(RiskOf(c, o.action, e.price), RiskOf(c, o.action, o.limit), opening, TickOf(c));
    }
  }

  lemma AddUnits(risk: int, a: int, b: int, m: int, before: int, here: int)
    requires before <= risk * a * m && here <= risk * b * m
    ensures before + here <= risk * (a + b) * m
  {
    assert risk * (a + b) == risk * a + risk * b;
    Spread3(risk * a, risk * b, m);
  }

  /** What the first `n` executions commit, against the opening units they use. */
  predicate Within(c: Contract, o: Terms, executions: seq<Execution>, n: nat)
    requires n <= |executions|
  {
    0 <= Committed(c, o, executions, n)
    <= RiskOf(c, o.action, o.limit) * OpeningTotal(o.opening, o.closing, Counts(executions), n) * TickOf(c)
  }

  lemma WithinStep(c: Contract, o: Terms, executions: seq<Execution>, n: nat)
    requires Proper(c, o, executions) && n < |executions| && Within(c, o, executions, n)
    ensures Within(c, o, executions, n + 1)
  {
    var opening := OpeningFillCount(o.opening, o.closing, Filled(Counts(executions), n), executions[n].count);
    CommitWithinLimit(c, o, executions, n);
    AddUnits(RiskOf(c, o.action, o.limit), OpeningTotal(o.opening, o.closing, Counts(executions), n), opening,
             TickOf(c),
             Committed(c, o, executions, n), CommitOf(c, o, executions, n));
  }

  lemma {:induction false} CommitsWithinOpening(c: Contract, o: Terms, executions: seq<Execution>, n: nat)
    requires Proper(c, o, executions) && n <= |executions|
    ensures Within(c, o, executions, n)
  {
    if n > 0 {
      CommitsWithinOpening(c, o, executions, n - 1);
      WithinStep(c, o, executions, n - 1);
    }
  }

  lemma MoreUnits(risk: int, a: int, b: int, m: int)
    requires risk >= 0 && a <= b && m >= 0
    ensures risk * a * m <= risk * b * m
  {
    assert risk * a <= risk * b;
  }

  /** Opening units are part of what fills, and no more than were reserved. */
  lemma OpeningWithinFills(o: Terms, executions: seq<Execution>, n: nat)
    requires n <= |executions| && o.opening >= 0 && o.closing >= 0
             && forall i :: 0 <= i < |executions| ==> executions[i].count >= 0
    ensures 0 <= OpeningTotal(o.opening, o.closing, Counts(executions), n) <= Min(o.opening, FilledUp(executions))
  {
    var counts := Counts(executions);
    OpeningSplitTelescopes(o.opening, o.closing, counts, n);
    FilledNonNegative(counts, n);
    FilledGrows(counts, n, |counts|);
  }

  /** An order that was amended commits at most what its hold was checked for. */
  lemma AmendedHoldCovers(c: Contract, o: Terms, total: int)
    requires (o.side == Yes || o.side == Long) && (o.action == Buy || o.action == Sell) && c.kind != OtherKind
    requires AmendAllowed(c, o.side, o.action, o.hold, o.limit, o.count) && 0 <= total <= o.count && TickOf(c) >= 0
    requires RiskOf(c, o.action, o.limit) >= 0
    ensures RiskOf(c, o.action, o.limit) * total * TickOf(c) <= o.hold
  {
    OrderAmounts(c, Order(0, o.side, o.action, o.count, o.count, 0, 0, None), o.limit, o.count, 0);
    MoreUnits(RiskOf(c, o.action, o.limit), total, o.count, TickOf(c));
  }

  lemma EnteredHoldCovers(c: Contract, o: Terms, total: int)
    requires (o.side == Yes || o.side == Long) && (o.action == Buy || o.action == Sell) && c.kind != OtherKind
    requires Entered(c, o) && 0 <= total <= o.opening && o.closing >= 0 && TickOf(c) >= 0
             && RiskOf(c, o.action, o.limit) >= 0
    ensures RiskOf(c, o.action, o.limit) * total * TickOf(c) <= o.hold
  {
    MoreUnits(RiskOf(c, o.action, o.limit), total, o.opening, TickOf(c));
    MoreUnits(RiskOf(c, o.action, o.limit), o.opening, o.count, TickOf(c));
  }

  /** The hold placed at entry covers whatever the order's fills commit, amended or not and however it fills. */
  lemma HoldCoversFills(c: Contract, o: Terms, executions: seq<Execution>, n: nat)
    requires Proper(c, o, executions) && n <= |executions|
    ensures 0 <= Committed(c, o, executions, n) <= o.hold
  {
    var total := OpeningTotal(o.opening, o.closing, Counts(executions), n);
    CommitsWithinOpening(c, o, executions, n);
    OpeningWithinFills(o, executions, n);
    if Entered(c, o) {
      EnteredHoldCovers(c, o, total);
    } else {
      AmendedHoldCovers(c, o, total);
    }
  }

  // ---------------------------------------------------------------- on the ledger

  /** The ledger as runs of operations that move HOLDS money only through holds leave it. */
  ghost predicate Orderly(s: State) {
    && Sound(s) && HoldsMatch(s)
    && forall h :: 0 <= h < |s.holds| ==> Cash(s.holds[h].user) in s.accounts && Holds(s.holds[h].user) in s.accounts
  }

  /** The next state knows the accounts of the holds it has, old and new. */
  predicate Grows(s: State, t: State) {
    && s.accounts <= t.accounts && |s.holds| <= |t.holds|
    && forall h :: 0 <= h < |t.holds| ==>
                     if h < |s.holds| then t.holds[h].user == s.holds[h].user
                     else Cash(t.holds[h].user) in t.accounts && Holds(t.holds[h].user) in t.accounts
  }

  lemma CommitGrows(s: State, key: Key, hold: nat, commit: int, release: int, destination: Account, extra: seq<Entry>)
    ensures Grows(s, CommitHold(s, key, hold, commit, release, destination, extra).0)
  {
  }

  lemma PlaceGrows(s: State, key: Key, user: UserId, amount: int)
    ensures Grows(s, PlaceHold(s, key, user, amount).0)
  {
  }

  lemma AccountsGrow(s: State, op: Op)
    ensures Grows(s, Step(s, op))
  {
    match op {
      case Place(key, user, amount) => PlaceGrows(s, key, user, amount);
      case Commit(key, hold, commit, release, destination, extra) =>
        CommitGrows(s, key, hold, commit, release, destination, extra);
      case _ =>
    }
  }

  lemma StepOrderly(s: State, op: Op)
    requires Orderly(s) && HoldsOnlyByHolds(op)
    ensures Orderly(Step(s, op))
  {
    StepSound(s, op);
    StepHoldsMatch(s, op);
    AccountsGrow(s, op);
  }

  lemma {:induction false} RunOrderly(ops: seq<Op>)
    requires forall i :: 0 <= i < |ops| ==> HoldsOnlyByHolds(ops[i])
    ensures Orderly(Run(EMPTY, ops))
  {
    if ops != [] {
      RunOrderly(ops[..|ops| - 1]);
      StepOrderly(Run(EMPTY, ops[..|ops| - 1]), ops[|ops| - 1]);
    }
  }

  lemma {:induction false} HeldAtLeast(holds: seq<Hold>, h: nat)
    requires h < |holds| && forall i :: 0 <= i < |holds| ==> SoundHold(holds[i])
    ensures HeldTotal(holds, holds[h].user) >= holds[h].Remaining()
  {
    var n := |holds| - 1;
    if h < n {
      HeldAtLeast(holds[..n], h);
    } else {
      HeldNonNegative(holds[..n], holds[h].user);
    }
  }

  lemma {:induction false} HeldNonNegative(holds: seq<Hold>, user: UserId)
    requires forall i :: 0 <= i < |holds| ==> SoundHold(holds[i])
    ensures HeldTotal(holds, user) >= 0
  {
    if holds != [] { HeldNonNegative(holds[..|holds| - 1], user); }
  }

  /** Money an active hold still keeps back can be moved out of HOLDS. */
  lemma MoveOutAccepted(s: State, key: Key, hold: nat, destination: Account, amount: int)
    requires Orderly(s) && hold < |s.holds| && 0 < amount <= s.holds[hold].Remaining() && !destination.Holds?
    ensures Append(s.rows, TxFor(s, key),
                   [Entry(Holds(s.holds[hold].user), DR, amount), Entry(destination, CR, amount)]).Ok?
  {
    HeldAtLeast(s.holds, hold);
    PairSucceeds(s.rows, TxFor(s, key), Holds(s.holds[hold].user), destination, amount);
  }

  /** A commit within the remainder, under a new key, is accepted and only changes that hold's row. */
  lemma CommitAccepted(s: State, key: Key, hold: nat, amount: int)
    requires Orderly(s) && key != Blank && key !in s.ops && hold < |s.holds| && s.holds[hold].active
    requires 0 < amount <= s.holds[hold].Remaining()
    ensures var (t, r) := CommitHold(s, key, hold, amount, 0, UNSETTLED, []);
            r.Ok? && t.holds == s.holds[hold := UpdateHold(s.holds[hold], amount, 0)]
                && t.ops.Keys == s.ops.Keys + {key}
  {
    var user := s.holds[hold].user;
    var entries := [Entry(Holds(user), DR, amount), Entry(UNSETTLED, CR, amount)];
    assert CommitEntries(user, amount, 0, UNSETTLED, []) == entries;
    MoveOutAccepted(s, key, hold, UNSETTLED, amount);
    PairBalanced(Holds(user), UNSETTLED, amount);
    assert AccountsOf(entries) <= s.accounts + {UNSETTLED};
  }

  lemma ReleaseAccepted(s: State, key: Key, hold: nat, amount: int)
    requires Orderly(s) && key != Blank && key !in s.ops && hold < |s.holds| && s.holds[hold].active
    requires 0 < amount <= s.holds[hold].Remaining()
    ensures var (t, r) := ReleaseHold(s, key, hold, amount);
            r.Ok? && t.holds == s.holds[hold := UpdateHold(s.holds[hold], 0, amount)]
                && t.ops.Keys == s.ops.Keys + {key}
  {
    var user := s.holds[hold].user;
    var entries := ReleaseEntries(user, amount);
    MoveOutAccepted(s, key, hold, Cash(user), amount);
    assert AccountsOf(entries) <= s.accounts;
  }

  // ---------------------------------------------------------------- every interleaving

  /** One commit of a finished order: its key and its positive amount. */
  datatype Posting = Posting(key: Key, amount: int)

  function PostedSum(postings: seq<Posting>, n: nat): int
    requires n <= |postings|
  {
    if n == 0 then 0 else PostedSum(postings, n - 1) + postings[n - 1].amount
  }

  /** The postings of a finished order, and the rest of its hold to give back. */
  predicate Finished(amount: int, postings: seq<Posting>, rest: Posting) {
    && (forall i :: 0 <= i < |postings| ==>
                    postings[i].amount > 0 && postings[i].key != Blank && postings[i].key != rest.key)
    && (forall i, j :: 0 <= i < j < |postings| ==> postings[i].key != postings[j].key)
    && rest.key != Blank && rest.amount >= 0 && PostedSum(postings, |postings|) + rest.amount == amount
  }

  /** What happens next: the order's next commit, the release of its rest, or anything else. */
  datatype Turn = PostNext | GiveBack | Other(op: Op)

  /** How far the order has come: commits made, and whether the rest was given back. */
  datatype Progress = Progress(ledger: State, posted: nat, given: bool)

  predicate Touches(op: Op, hold: nat) {
    (op.Release? && op.hold == hold) || (op.Commit? && op.hold == hold)
  }

  /** A turn that can come now; other operations leave the hold and the order's keys alone. */
  predicate Possible(p: Progress, turn: Turn, hold: nat, postings: seq<Posting>, rest: Posting) {
    match turn
    case PostNext => p.posted < |postings|
    case GiveBack => !p.given && rest.amount > 0
    case Other(op) =>
      && HoldsOnlyByHolds(op) && !Touches(op, hold) && KeyOf(op) != rest.key
      && forall i :: 0 <= i < |postings| ==> postings[i].key != KeyOf(op)
  }

  function PostTurn(p: Progress, hold: nat, next: Posting): (Progress, bool) {
    var (t, r) := CommitHold(p.ledger, next.key, hold, next.amount, 0, UNSETTLED, []);
    (Progress(t, p.posted + 1, p.given), r.Ok?)
  }

  function Take(p: Progress, turn: Turn, hold: nat, postings: seq<Posting>, rest: Posting): (Progress, bool)
    requires Possible(p, turn, hold, postings, rest)
  {
    match turn
    case PostNext => PostTurn(p, hold, postings[p.posted])
    case GiveBack =>
      var (t, r) := ReleaseHold(p.ledger, rest.key, hold, rest.amount);
      (Progress(t, p.posted, true), r.Ok?)
    case Other(op) => (p.(ledger := Step(p.ledger, op)), true)
  }

  /** A hold with this much committed and released, closed once nothing remains. */
  function Row(user: UserId, amount: int, committed: int, released: int): Hold {
    Hold(user, amount, committed, released, committed + released < amount)
  }

  /** The hold's row says exactly what was committed and given back, and open keys are unused. */
  ghost predicate Tracks(p: Progress, hold: nat, user: UserId, amount: int, postings: seq<Posting>, rest: Posting) {
    && hold < |p.ledger.holds| && p.posted <= |postings|
    && p.ledger.holds[hold] == Row(user, amount, PostedSum(postings, p.posted), if p.given then rest.amount else 0)
    && (forall i :: p.posted <= i < |postings| ==> postings[i].key !in p.ledger.ops)
    && (!p.given ==> rest.key !in p.ledger.ops)
  }

  lemma {:induction false} PostedSumGrows(postings: seq<Posting>, m: nat, n: nat)
    requires m <= n <= |postings| && forall i :: 0 <= i < |postings| ==> postings[i].amount > 0
    ensures 0 <= PostedSum(postings, m) <= PostedSum(postings, n)
    ensures m < n ==> PostedSum(postings, m) < PostedSum(postings, n)
  {
    if n > 0 { PostedSumGrows(postings, Min(m, n - 1), n - 1); }
  }

  /** The parts of the ledger an operation on another hold leaves alone. */
  predicate Spares(s: State, t: State, hold: nat, key: Key) {
    hold < |s.holds| && hold < |t.holds| && t.holds[hold] == s.holds[hold] && t.ops.Keys <= s.ops.Keys + {key}
  }

  lemma CommitSpares(s: State, key: Key, other: nat, commit: int, release: int, destination: Account, extra: seq<Entry>,
                     hold: nat)
    requires hold < |s.holds| && other != hold
    ensures Spares(s, CommitHold(s, key, other, commit, release, destination, extra).0, hold, key)
  {
  }

  lemma ReleaseSpares(s: State, key: Key, other: nat, amount: int, hold: nat)
    requires hold < |s.holds| && other != hold
    ensures Spares(s, ReleaseHold(s, key, other, amount).0, hold, key)
  {
  }

  lemma PlaceSpares(s: State, key: Key, user: UserId, amount: int, hold: nat)
    requires hold < |s.holds|
    ensures Spares(s, PlaceHold(s, key, user, amount).0, hold, key)
  {
  }

  lemma PostSpares(s: State, key: Key, entries: seq<Entry>, hold: nat)
    requires hold < |s.holds|
    ensures Spares(s, PostTransaction(s, key, entries).0, hold, key)
  {
  }

  lemma CreditSpares(s: State, nonce: nat, user: UserId, amount: int, hold: nat)
    requires hold < |s.holds|
    ensures Spares(s, Deposit(s, nonce, user, amount).0, hold, DepositKey(nonce))
  {
  }

  lemma OtherLeavesHold(s: State, op: Op, hold: nat)
    requires hold < |s.holds| && !Touches(op, hold)
    ensures Spares(s, Step(s, op), hold, KeyOf(op))
  {
    match op {
      case Post(key, entries) => PostSpares(s, key, entries, hold);
      case Place(key, user, amount) => PlaceSpares(s, key, user, amount, hold);
      case Release(key, other, amount) => ReleaseSpares(s, key, other, amount, hold);
      case Commit(key, other, commit, release, destination, extra) =>
        CommitSpares(s, key, other, commit, release, destination, extra, hold);
      case Credit(nonce, user, amount) => CreditSpares(s, nonce, user, amount, hold);
    }
  }

  /** Where the next commit leaves the hold's row. */
  lemma NextRow(amount: int, postings: seq<Posting>, rest: Posting, posted: nat, given: bool)
    requires Finished(amount, postings, rest) && posted < |postings|
    ensures var released := if given then rest.amount else 0;
            var h := Row(0, amount, PostedSum(postings, posted), released);
            && h.active && 0 < postings[posted].amount <= h.Remaining()
            && UpdateHold(h, postings[posted].amount, 0) == Row(0, amount, PostedSum(postings, posted + 1), released)
  {
    PostedSumGrows(postings, posted, |postings|);
    PostedSumGrows(postings, posted + 1, |postings|);
  }

  /** The next commit fits what the hold still keeps back, under a key not used yet. */
  lemma HeadFits(p: Progress, hold: nat, user: UserId, amount: int, postings: seq<Posting>, rest: Posting)
    requires Finished(amount, postings, rest) && Tracks(p, hold, user, amount, postings, rest) && p.posted < |postings|
    ensures var next, h := postings[p.posted], p.ledger.holds[hold];
            next.key != Blank && next.key !in p.ledger.ops && h.active && 0 < next.amount <= h.Remaining()
  {
    NextRow(amount, postings, rest, p.posted, p.given);
  }

  /** A ledger that differs by the next commit still tracks the order. */
  lemma TracksNext(p: Progress, t: State, hold: nat, user: UserId, amount: int, postings: seq<Posting>, rest: Posting)
    requires Finished(amount, postings, rest) && Tracks(p, hold, user, amount, postings, rest) && p.posted < |postings|
    requires t.holds == p.ledger.holds[hold := UpdateHold(p.ledger.holds[hold], postings[p.posted].amount, 0)]
    requires t.ops.Keys == p.ledger.ops.Keys + {postings[p.posted].key}
    ensures Tracks(Progress(t, p.posted + 1, p.given), hold, user, amount, postings, rest)
  {
    NextRow(amount, postings, rest, p.posted, p.given);
  }

  lemma PostTurnIs(p: Progress, hold: nat, next: Posting)
    requires Orderly(p.ledger) && next.key != Blank && next.key !in p.ledger.ops && hold < |p.ledger.holds|
    requires p.ledger.holds[hold].active && 0 < next.amount <= p.ledger.holds[hold].Remaining()
    ensures var (q, ok) := PostTurn(p, hold, next);
            && ok && q == Progress(q.ledger, p.posted + 1, p.given)
            && q.ledger.holds == p.ledger.holds[hold := UpdateHold(p.ledger.holds[hold], next.amount, 0)]
            && q.ledger.ops.Keys == p.ledger.ops.Keys + {next.key}
  {
    CommitAccepted(p.ledger, next.key, hold, next.amount);
  }

  lemma CommitTracked(p: Progress, hold: nat, user: UserId, amount: int, postings: seq<Posting>, rest: Posting,
                      next: Posting)
    requires Finished(amount, postings, rest) && Orderly(p.ledger) && Tracks(p, hold, user, amount, postings, rest)
    requires p.posted < |postings| && next == postings[p.posted]
    ensures PostTurn(p, hold, next).1 && Tracks(PostTurn(p, hold, next).0, hold, user, amount, postings, rest)
  {
    HeadFits(p, hold, user, amount, postings, rest);
    PostTurnIs(p, hold, next);
    TracksNext(p, PostTurn(p, hold, next).0.ledger, hold, user, amount, postings, rest);
  }

  lemma GiveBackTracked(p: Progress, hold: nat, user: UserId, amount: int, postings: seq<Posting>, rest: Posting)
    requires Finished(amount, postings, rest) && Orderly(p.ledger) && Tracks(p, hold, user, amount, postings, rest)
    requires !p.given && rest.amount > 0
    ensures var (q, ok) := Take(p, GiveBack, hold, postings, rest); ok && Tracks(q, hold, user, amount, postings, rest)
  {
    PostedSumGrows(postings, p.posted, |postings|);
    ReleaseAccepted(p.ledger, rest.key, hold, rest.amount);
  }

  lemma OtherKeepsTrack(p: Progress, op: Op, hold: nat, user: UserId, amount: int, postings: seq<Posting>,
                        rest: Posting)
    requires Tracks(p, hold, user, amount, postings, rest) && Possible(p, Other(op), hold, postings, rest)
    ensures Tracks(p.(ledger := Step(p.ledger, op)), hold, user, amount, postings, rest)
  {
    OtherLeavesHold(p.ledger, op, hold);
  }

  /** Whatever the turn, the ledger accepts it and the hold's row stays exact. */
  lemma TurnAccepted(p: Progress, turn: Turn, hold: nat, user: UserId, amount: int, postings: seq<Posting>,
                     rest: Posting)
    requires Finished(amount, postings, rest) && Orderly(p.ledger) && Tracks(p, hold, user, amount, postings, rest)
    requires Possible(p, turn, hold, postings, rest)
    ensures var (q, ok) := Take(p, turn, hold, postings, rest); ok && Tracks(q, hold, user, amount, postings, rest)
  {
    match turn {
      case PostNext => CommitTracked(p, hold, user, amount, postings, rest, postings[p.posted]);
      case GiveBack => GiveBackTracked(p, hold, user, amount, postings, rest);
      case Other(op) => OtherKeepsTrack(p, op, hold, user, amount, postings, rest);
    }
  }

  /** Every turn is one ledger operation that moves HOLDS money only through a hold. */
  function OpOf(p: Progress, turn: Turn, hold: nat, postings: seq<Posting>, rest: Posting): Op
    requires Possible(p, turn, hold, postings, rest)
  {
    match turn
    case PostNext => Commit(postings[p.posted].key, hold, postings[p.posted].amount, 0, UNSETTLED, [])
    case GiveBack => Release(rest.key, hold, rest.amount)
    case Other(op) => op
  }

  lemma TurnIsOp(p: Progress, turn: Turn, hold: nat, postings: seq<Posting>, rest: Posting)
    requires Possible(p, turn, hold, postings, rest)
    ensures Take(p, turn, hold, postings, rest).0.ledger == Step(p.ledger, OpOf(p, turn, hold, postings, rest))
    ensures HoldsOnlyByHolds(OpOf(p, turn, hold, postings, rest))
  {
  }

  /** A run of turns. */
  ghost predicate IsTurns(states: seq<Progress>, turns: seq<Turn>, hold: nat, postings: seq<Posting>, rest: Posting) {
    && |states| == |turns| + 1
    && forall k :: 0 <= k < |turns| ==>
                     Possible(states[k], turns[k], hold, postings, rest)
                         && states[k + 1] == Take(states[k], turns[k], hold, postings, rest).0
  }

  lemma {:induction false} TurnsTrack(states: seq<Progress>, turns: seq<Turn>, hold: nat, user: UserId, amount: int,
                                      postings: seq<Posting>, rest: Posting, k: nat)
    requires IsTurns(states, turns, hold, postings, rest) && k < |states|
    requires Finished(amount, postings, rest) && Orderly(states[0].ledger)
             && Tracks(states[0], hold, user, amount, postings, rest)
    ensures Orderly(states[k].ledger) && Tracks(states[k], hold, user, amount, postings, rest)
    ensures k > 0 ==> Take(states[k - 1], turns[k - 1], hold, postings, rest).1
  {
    if k > 0 {
      TurnsTrack(states, turns, hold, user, amount, postings, rest, k - 1);
      TurnAccepted(states[k - 1], turns[k - 1], hold, user, amount, postings, rest);
      TurnIsOp(states[k - 1], turns[k - 1], hold, postings, rest);
      StepOrderly(states[k - 1].ledger, OpOf(states[k - 1], turns[k - 1], hold, postings, rest));
    }
  }

  /**
    Hold conservation. Let the commits of a finished order's fills and the release of the rest
    come in any order, with anything else in between: every one is accepted, and once all have
    come the hold is used up exactly and closed, so a fill that turns up later is refused.
   */
  lemma HoldIsConserved(states: seq<Progress>, turns: seq<Turn>, hold: nat, user: UserId, amount: int,
                        postings: seq<Posting>, rest: Posting, late: Posting)
    requires IsTurns(states, turns, hold, postings, rest) && Finished(amount, postings, rest)
    requires Orderly(states[0].ledger) && Tracks(states[0], hold, user, amount, postings, rest)
    requires states[|turns|].posted == |postings| && (states[|turns|].given || rest.amount == 0)
    ensures forall k :: 0 <= k < |turns| ==> Take(states[k], turns[k], hold, postings, rest).1
    ensures var t := states[|turns|].ledger;
            && hold < |t.holds| && !t.holds[hold].active && t.holds[hold].committed + t.holds[hold].released == amount
            && (late.key != Blank && late.key !in t.ops && late.amount > 0 ==>
                  CommitHold(t, late.key, hold, late.amount, 0, UNSETTLED, []) == (t, Err(HoldNotActive)))
  {
    forall k: nat | k < |turns| ensures Take(states[k], turns[k], hold, postings, rest).1 {
      TurnsTrack(states, turns, hold, user, amount, postings, rest, k + 1);
    }
    TurnsTrack(states, turns, hold, user, amount, postings, rest, |turns|);
  }

  lemma PlacedOrderly(ops: seq<Op>, key: Key, user: UserId, amount: int)
    requires forall i :: 0 <= i < |ops| ==> HoldsOnlyByHolds(ops[i])
    ensures Orderly(PlaceHold(Run(EMPTY, ops), key, user, amount).0)
  {
    RunOrderly(ops);
    StepOrderly(Run(EMPTY, ops), Place(key, user, amount));
  }

  /** A hold just placed has committed and released nothing. */
  lemma PlacedTracks(s: State, key: Key, user: UserId, amount: int, postings: seq<Posting>, rest: Posting)
    requires amount > 0 && PlaceHold(s, key, user, amount).1.Ok? && key !in s.ops
    requires var t := PlaceHold(s, key, user, amount).0;
             (forall i :: 0 <= i < |postings| ==> postings[i].key !in t.ops) && rest.key !in t.ops
    ensures var (t, placed) := PlaceHold(s, key, user, amount);
            Tracks(Progress(t, 0, false), placed.value, user, amount, postings, rest)
  {
  }

  /**
    From the empty ledger on: after any run of other operations a hold is placed, and the order's
    commits and its remainder are taken in any order and in between anything else.
   */
  lemma PlacedHoldIsConserved(ops: seq<Op>, key: Key, states: seq<Progress>, turns: seq<Turn>, user: UserId,
                              amount: int,
                              postings: seq<Posting>, rest: Posting, late: Posting)
    requires forall i :: 0 <= i < |ops| ==> HoldsOnlyByHolds(ops[i])
    requires amount > 0 && PlaceHold(Run(EMPTY, ops), key, user, amount).1.Ok? && key !in Run(EMPTY, ops).ops
    requires var (t, placed) := PlaceHold(Run(EMPTY, ops), key, user, amount);
             && |states| > 0 && states[0] == Progress(t, 0, false)
             && (forall i :: 0 <= i < |postings| ==> postings[i].key !in t.ops) && rest.key !in t.ops
             && IsTurns(states, turns, placed.value, postings, rest)
    requires Finished(amount, postings, rest) && states[|turns|].posted == |postings|
             && (states[|turns|].given || rest.amount == 0)
    ensures var hold := PlaceHold(Run(EMPTY, ops), key, user, amount).1.value;
            && (forall k :: 0 <= k < |turns| ==> Take(states[k], turns[k], hold, postings, rest).1)
            && var t := states[|turns|].ledger;
               && hold < |t.holds| && !t.holds[hold].active
               && t.holds[hold].committed + t.holds[hold].released == amount
               && (late.key != Blank && late.key !in t.ops && late.amount > 0 ==>
                     CommitHold(t, late.key, hold, late.amount, 0, UNSETTLED, []) == (t, Err(HoldNotActive)))
  {
    var hold := PlaceHold(Run(EMPTY, ops), key, user, amount).1.value;
    PlacedOrderly(ops, key, user, amount);
    PlacedTracks(Run(EMPTY, ops), key, user, amount, postings, rest);
    HoldIsConserved(states, turns, hold, user, amount, postings, rest, late);
  }

  // ---------------------------------------------------------------- an order's own postings

  /** The commits of an order's executions, skipping those that open nothing. */
  function PostingsOf(c: Contract, o: Terms, executions: seq<Execution>, keys: seq<Key>, n: nat): seq<Posting>
    requires n <= |executions| == |keys|
  {
    if n == 0 then []
    else
      var amount := CommitOf(c, o, executions, n - 1);
      PostingsOf(c, o, executions, keys, n - 1) + if amount > 0 then [Posting(keys[n - 1], amount)] else []
  }

  lemma PostedAppend(postings: seq<Posting>, p: Posting)
    ensures PostedSum(postings + [p], |postings| + 1) == PostedSum(postings, |postings|) + p.amount
  {
    PostedPrefix(postings, [p], |postings|);
  }

  lemma {:induction false} PostedPrefix(postings: seq<Posting>, more: seq<Posting>, n: nat)
    requires n <= |postings|
    ensures PostedSum(postings + more, n) == PostedSum(postings, n)
  {
    if n > 0 { PostedPrefix(postings, more, n - 1); }
  }

  /** The postings of the first `n` executions: positive, under distinct keys of theirs, adding up. */
  ghost predicate Posts(c: Contract, o: Terms, executions: seq<Execution>, keys: seq<Key>, n: nat, p: seq<Posting>)
    requires n <= |executions| == |keys|
  {
    && PostedSum(p, |p|) == Committed(c, o, executions, n)
    && (forall i :: 0 <= i < |p| ==> p[i].amount > 0 && p[i].key in keys[..n])
    && (forall i, j :: 0 <= i < j < |p| ==> p[i].key != p[j].key)
  }

  lemma PostsStep(c: Contract, o: Terms, executions: seq<Execution>, keys: seq<Key>, n: nat, p: seq<Posting>)
    requires n < |executions| == |keys| && Posts(c, o, executions, keys, n, p) && CommitOf(c, o, executions, n) >= 0
    requires forall i, j :: 0 <= i < j < |keys| ==> keys[i] != keys[j]
    ensures var amount := CommitOf(c, o, executions, n);
            Posts(c, o, executions, keys, n + 1, p + if amount > 0 then [Posting(keys[n], amount)] else [])
  {
    var amount := CommitOf(c, o, executions, n);
    assert keys[..n + 1] == keys[..n] + [keys[n]];
    if amount > 0 {
      PostedAppend(p, Posting(keys[n], amount));
      assert keys[n] !in keys[..n];
    } else {
      assert p + [] == p;
    }
  }

  lemma {:induction false} PostingsFacts(c: Contract, o: Terms, executions: seq<Execution>, keys: seq<Key>, n: nat)
    requires Proper(c, o, executions) && n <= |executions| == |keys|
    requires forall i, j :: 0 <= i < j < |keys| ==> keys[i] != keys[j]
    ensures Posts(c, o, executions, keys, n, PostingsOf(c, o, executions, keys, n))
  {
    if n > 0 {
      PostingsFacts(c, o, executions, keys, n - 1);
      CommitWithinLimit(c, o, executions, n - 1);
      PostsStep(c, o, executions, keys, n - 1, PostingsOf(c, o, executions, keys, n - 1));
    }
  }

  /**
    An order, amended or not, ends in postings and a remainder that together are its hold,
    as long as every amount can be made out: no opening execution at the edge of the band.
   */
  lemma OrderFinishes(c: Contract, o: Terms, executions: seq<Execution>, keys: seq<Key>, order: nat)
    requires Proper(c, o, executions) && |keys| == |executions|
             && forall i, j :: 0 <= i < j < |keys| ==> keys[i] != keys[j]
    requires forall i :: 0 <= i < |keys| ==> keys[i].FillHoldKey?
    requires forall i :: 0 <= i < |executions| ==>
                           executions[i].price > 0 && (OpeningAt(o, executions, i) > 0 ==>
                                                       OffEdge(c, o.side, o.action, executions[i].price))
    ensures var n := |executions|;
            && Committable(c, o, executions, n)
            && Finished(o.hold, PostingsOf(c, o, executions, keys, n),
                        Posting(RemainderKey(order), o.hold - Committed(c, o, executions, n)))
  {
    CommittableIff(c, o, executions, |executions|);
    HoldCoversFills(c, o, executions, |executions|);
    PostingsFacts(c, o, executions, keys, |executions|);
  }

  /** An opening execution at the edge is never posted, and neither is the remainder behind it. */
  lemma EdgeExecutionStuck(c: Contract, o: Terms, executions: seq<Execution>, i: nat, party: Order, fill: nat,
                           maker: bool)
    requires i < |executions| && executions[i].price > 0 && (c.kind == Scalar ==> c.tickValue > 0 && c.lower < c.upper)
    requires party.side == o.side && party.action == o.action
    requires OpeningAt(o, executions, i) > 0 && !OffEdge(c, o.side, o.action, executions[i].price)
    ensures PartyOps(c, party, fill, maker, executions[i].price, executions[i].count, OpeningAt(o, executions, i))
            == None
    ensures !Committable(c, o, executions, |executions|)
  {
    HoldAmountAtBandEdge(c, o.side, o.action, executions[i].price, OpeningAt(o, executions, i));
    assert CommitAmount(c, o, executions, i) == None;
  }

  /** For instance a futures order to sell that opens, and meets a bid at the top of the band. */
  lemma SaleAtTheTopIsStuck(c: Contract, limit: int, count: int)
    requires c.kind == Scalar && c.tickValue > 0 && 0 <= c.lower < limit < c.upper && count > 0
    ensures var hold := RequiredHold(c, Long, Sell, limit, count, count);
            && hold.Some? && hold.value > 0
            && var o, executions := Terms(Long, Sell, limit, count, count, 0, hold.value), [Execution(c.upper, count)];
               Entered(c, o) && Proper(c, o, executions) && !Committable(c, o, executions, 1)
  {
    Triple(c.upper - limit, count, c.tickValue);
    var hold := RequiredHold(c, Long, Sell, limit, count, count).value;
    var o, executions := Terms(Long, Sell, limit, count, count, 0, hold), [Execution(c.upper, count)];
    assert OpeningAt(o, executions, 0) == count;
    CommittableIff(c, o, executions, 1);
  }
}
