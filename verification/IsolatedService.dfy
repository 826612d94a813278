/** order-router's posting of one isolated fill, proved to be the operations of module Escrow. */
module IsolatedServices {
  import opened Common
  import opened Ledger
  import opened LedgerRuns
  import opened LedgerServices
  import opened Isolated
  import opened Escrow

  datatype Outcome = Done | HoldMissing | BadAmount | Refused(error: Error)

  function OutcomeOf(r: Result<nat, Error>): Outcome { if r.Ok? then Done else Refused(r.error) }

  function CommitPart(s: State, c: Contract, o: Order, fill: nat, maker: bool,
                      price: int, opening: int): (State, Outcome) {
    if opening <= 0 then (s, Done)
    else if o.hold.None? then (s, HoldMissing)
    else
      match FillHoldAmount(c, o.side, o.action, price, opening)
      case None => (s, BadAmount)
      case Some(amount) =>
        var (t, r) := CommitHold(s, FillHoldKey(fill, maker), o.hold.value, amount, 0, UNSETTLED, []);
        (t, OutcomeOf(r))
  }

  function CreditPart(s: State, c: Contract, o: Order, fill: nat, maker: bool,
                      price: int, closing: int): (State, Outcome) {
    match CloseCredit(c, o.side, o.action, price, closing)
    case None => (s, BadAmount)
    case Some(amount) =>
      if amount <= 0 then (s, Done)
      else
        var (t, r) := PostTransaction(s, FillCloseKey(fill, maker),
                                      [Entry(UNSETTLED, DR, amount), Entry(Cash(o.user), CR, amount)]);
        (t, OutcomeOf(r))
  }

  /** One party: the opening part first; an error stops there. */
  function PartyStep(s: State, c: Contract, o: Order, fill: nat, maker: bool, price: int, count: int,
                     opening: int): (State, Outcome) {
    var (t, r) := CommitPart(s, c, o, fill, maker, price, opening);
    if r != Done then (t, r) else CreditPart(t, c, o, fill, maker, price, count - opening)
  }

  class FillPoster {
    const ledger: LedgerService

    constructor (ledger: LedgerService)
      ensures this.ledger == ledger
    {
      this.ledger := ledger;
    }

    /** `post_fill_party`. */
    method PostFillParty(c: Contract, o: Order, fill: nat, maker: bool, price: int, count: int, opening: int)
      returns (r: Outcome)
      modifies ledger
      ensures (ledger.Tables(), r) == PartyStep(old(ledger.Tables()), c, o, fill, maker, price, count, opening)
    {
      if opening > 0 {
        if o.hold.None? {
          return HoldMissing;
        }
        var amount := FillHoldAmount(c, o.side, o.action, price, opening);
        if amount.None? {
          return BadAmount;
        }
        var committed := ledger.CommitHold(FillHoldKey(fill, maker), o.hold.value, amount.value, 0, UNSETTLED, []);
        if committed.Err? {
          return Refused(committed.error);
        }
      }
      var closing := count - opening;
      var credit := CloseCredit(c, o.side, o.action, price, closing);
      if credit.None? {
        return BadAmount;
      }
      if credit.value > 0 {
        var posted := ledger.Post(FillCloseKey(fill, maker),
                                  [Entry(UNSETTLED, DR, credit.value), Entry(Cash(o.user), CR, credit.value)]);
        if posted.Err? {
          return Refused(posted.error);
        }
      }
      r := Done;
    }
  }

  // ---------------------------------------------------------------- what it comes to

  lemma RunOne(s: State, op: Op)
    ensures Run(s, [op]) == Step(s, op)
  {
    assert [op][..0] == [];
  }

  lemma RunTwo(s: State, a: Op, b: Op)
    ensures Run(s, [a] + [b]) == Step(Step(s, a), b)
  {
    RunOne(s, a);
    assert ([a] + [b])[..1] == [a];
  }

  /** A party that is done has made exactly the operations the escrow equation counts. */
  lemma DonePartyRan(s: State, c: Contract, o: Order, fill: nat, maker: bool, price: int, count: int, opening: int)
    requires PartyStep(s, c, o, fill, maker, price, count, opening).1 == Done
    ensures PartyOps(c, o, fill, maker, price, count, opening).Some?
    ensures PartyStep(s, c, o, fill, maker, price, count, opening).0
            == Run(s, PartyOps(c, o, fill, maker, price, count, opening).value)
  {
    var ops := PartyOps(c, o, fill, maker, price, count, opening).value;
    if |ops| == 1 {
      assert ops == [ops[0]];
      RunOne(s, ops[0]);
    } else if |ops| == 2 {
      assert ops == [ops[0]] + [ops[1]];
      RunTwo(s, ops[0], ops[1]);
    }
  }

  lemma CommitRepeats(s: State, key: Key, hold: nat, amount: int)
    requires CommitHold(s, key, hold, amount, 0, UNSETTLED, []).1.Ok?
    ensures key in CommitHold(s, key, hold, amount, 0, UNSETTLED, []).0.ops && amount > 0 && key != Blank
  {
  }

  lemma PostRepeats(s: State, key: Key, entries: seq<Entry>)
    requires PostTransaction(s, key, entries).1.Ok?
    ensures var t := PostTransaction(s, key, entries).0;
            && key in t.keys && t.ops == s.ops
            && PostTransaction(t, key, entries).0 == t && PostTransaction(t, key, entries).1.Ok?
  {
  }

  lemma KnownCommit(s: State, key: Key, hold: nat, amount: int)
    requires key in s.ops && amount > 0 && key != Blank
    ensures CommitHold(s, key, hold, amount, 0, UNSETTLED, []).0 == s
            && CommitHold(s, key, hold, amount, 0, UNSETTLED, []).1.Ok?
  {
  }

  /** The worker may post a party again after any failure behind it: what is posted stays posted once. */
  lemma PartyPostedOnce(s: State, c: Contract, o: Order, fill: nat, maker: bool, price: int, count: int, opening: int)
    requires PartyStep(s, c, o, fill, maker, price, count, opening).1 == Done
    ensures var t := PartyStep(s, c, o, fill, maker, price, count, opening).0;
            PartyStep(t, c, o, fill, maker, price, count, opening) == (t, Done)
  {
    var (middle, _) := CommitPart(s, c, o, fill, maker, price, opening);
    var credit := CloseCredit(c, o.side, o.action, price, count - opening).value;
    var entries := [Entry(UNSETTLED, DR, credit), Entry(Cash(o.user), CR, credit)];
    if credit > 0 { PostRepeats(middle, FillCloseKey(fill, maker), entries); }
    var t := PartyStep(s, c, o, fill, maker, price, count, opening).0;
    if opening > 0 {
      var amount := FillHoldAmount(c, o.side, o.action, price, opening).value;
      CommitRepeats(s, FillHoldKey(fill, maker), o.hold.value, amount);
      KnownCommit(t, FillHoldKey(fill, maker), o.hold.value, amount);
    }
  }
}
