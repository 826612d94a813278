/** risk-svc's margin tables and the methods that update them, proved against module MarginExec. */
module RiskServices {
  import opened Common
  import opened Payoffs
  import opened WorstCase
  import opened EventMargins
  import opened Portfolio
  import opened Ledger
  import opened LedgerServices
  import opened MarginExec
  import opened FillPostings
  import opened MarginRuns
  import opened Reconciler

  // ---------------------------------------------------------------- margin of one account

  /** The positions that are not flat. */
  function PositionsOf(net: seq<int>, n: nat): (p: seq<Position>)
    requires n <= |net|
  {
    if n == 0 then []
    else PositionsOf(net, n - 1) + if net[n - 1] != 0 then [Position(n - 1, net[n - 1])] else []
  }

  /** The first `n` positions, the rest flat. */
  function Masked(net: seq<int>, n: nat): seq<int> {
    seq(|net|, i requires 0 <= i < |net| => if i < n then net[i] else 0)
  }

  lemma NetAppended(n: nat, positions: seq<Position>, p: Position)
    requires Known(n, positions) && p.instrument < n
    ensures Known(n, positions + [p])
    ensures Net(n, positions + [p]) == Net(n, positions)[p.instrument := Net(n, positions)[p.instrument] + p.qty]
  {
    assert (positions + [p])[..|positions|] == positions;
  }

  /** Leaving out flat positions does not change the net. */
  lemma {:induction false} PositionsNet(net: seq<int>, n: nat)
    requires n <= |net|
    ensures Known(|net|, PositionsOf(net, n)) && Net(|net|, PositionsOf(net, n)) == Masked(net, n)
  {
    if n > 0 {
      PositionsNet(net, n - 1);
      MaskStep(net, n - 1);
      AppendPosition(net, PositionsOf(net, n - 1), Masked(net, n - 1), n - 1);
      assert PositionsOf(net, n) == PositionsOf(net, n - 1)
             + if net[n - 1] != 0 then [Position(n - 1, net[n - 1])] else [];
    }
  }

  lemma AppendPosition(net: seq<int>, before: seq<Position>, mask: seq<int>, i: nat)
    requires i < |net| == |mask| && mask[i] == 0 && Known(|net|, before) && Net(|net|, before) == mask
    ensures var all := before + if net[i] != 0 then [Position(i, net[i])] else [];
            Known(|net|, all) && Net(|net|, all) == mask[i := net[i]]
  {
    if net[i] != 0 {
      NetAppended(|net|, before, Position(i, net[i]));
    } else {
      assert before + [] == before && mask[i := 0] == mask;
    }
  }

  lemma MaskStep(net: seq<int>, n: nat)
    requires n < |net|
    ensures Masked(net, n)[n] == 0 && Masked(net, n + 1) == Masked(net, n)[n := net[n]]
    ensures net[n] == 0 ==> Masked(net, n + 1) == Masked(net, n)
  {
  }

  /** `margin_for`, by the engine. */
  method MarginFor(book: EventBook, a: Acct) returns (r: Result<int, MarginError>)
    requires book.Valid() && |a.net| == |book.instruments|
    ensures r.Ok? <==> Priceable(book, a)
    ensures r.Ok? ==> r.value == Required(book, a)
  {
    var positions: seq<Position> := [];
    for k := 0 to |a.net|
      invariant positions == PositionsOf(a.net, k)
    {
      if a.net[k] != 0 { positions := positions + [Position(k, a.net[k])]; }
    }
    PositionsNet(a.net, |a.net|);
    assert Masked(a.net, |a.net|) == a.net;
    if positions == [] && a.orders == [] {
      FlatNeedsNothing(book, a);
      return Ok(0);
    }
    var computed := ComputeEventMargin(book, positions, Working(a.orders));
    if computed.Err? {
      PositionsKnown(|book.instruments|, positions);
      OrdersListed(book, Working(a.orders));
      return Err(computed.error);
    }
    RequiredIs(book, a, computed.value.margin);
    r := Ok(computed.value.margin);
  }

  lemma FlatNeedsNothing(book: EventBook, a: Acct)
    requires book.Valid() && |a.net| == |book.instruments| && PositionsOf(a.net, |a.net|) == [] && a.orders == []
    ensures Priceable(book, a) && Required(book, a) == 0
  {
    PositionsNet(a.net, |a.net|);
    assert Masked(a.net, |a.net|) == a.net;
    var priced := PriceOrders(book, Working(a.orders));
    forall w | Possible(book, w) ensures StressIn(book, w, a.net, priced) == 0 {
      DotZeros(a.net, Values(book, w), |a.net|);
    }
    assert Possible(book, AtTrade) && StressIn(book, AtTrade, a.net, priced) == 0;
    RequiredIs(book, a, 0);
  }

  // ---------------------------------------------------------------- one fill

  /** The index of the order in the list, or its length. */
  method IndexOf(orders: seq<Reserved>, id: nat) returns (j: nat)
    ensures j <= |orders| && (j < |orders| <==> Has(orders, id))
    ensures j < |orders| ==> j == Find(orders, id)
  {
    j := 0;
    while j < |orders| && orders[j].id != id
      invariant j <= |orders| && forall k :: 0 <= k < j ==> orders[k].id != id
    {
      j := j + 1;
    }
  }

  method Leg(before: Acct, ticker: nat, order: nat, qty: int, count: int, globalSeq: int) returns (a: Acct)
    requires ticker < |before.net|
    ensures a == ApplyLeg(before, ticker, order, qty, count, globalSeq)
  {
    a := before.(net := before.net[ticker := before.net[ticker] + qty]);
    var j := IndexOf(a.orders, order);
    if j < |a.orders| {
      var o := a.orders[j];
      var remaining := Abs(o.remaining) - count;
      if remaining <= 0 {
        a := a.(orders := a.orders[..j] + a.orders[j + 1..]);
      } else {
        var rest := o.(remaining := remaining * Sign(o.remaining), lastSeq := Max(o.lastSeq, globalSeq));
        a := a.(orders := a.orders[j := rest]);
      }
    }
  }

  /** One user's party: the leg that gains units pays the premium. */
  method PartyFor(r: Request, user: nat, marginDelta: int, premium: int) returns (p: FillParty)
    requires r.Fill?
    ensures p == PartyOf(r, user, marginDelta, premium)
  {
    var legs := [(r.maker, MakerQty(r)), (r.taker, TakerQty(r))];
    var premiumIn, premiumOut := 0, 0;
    for k := 0 to 2
      invariant (premiumIn, premiumOut) ==
                ((if k > 0 && user == r.maker then LegPremium(MakerQty(r), premium).0 else 0)
                 + (if k > 1 && user == r.taker then LegPremium(TakerQty(r), premium).0 else 0),
                 (if k > 0 && user == r.maker then LegPremium(MakerQty(r), premium).1 else 0)
                 + (if k > 1 && user == r.taker then LegPremium(TakerQty(r), premium).1 else 0))
    {
      if legs[k].0 == user {
        if legs[k].1 > 0 { premiumOut := premiumOut + premium; } else { premiumIn := premiumIn + premium; }
      }
    }
    p := FillParty(user, marginDelta, premiumIn, premiumOut);
  }

  /** The nets so far, one for each account met. */
  ghost predicate Accumulated(nets: map<Account, int>, met: seq<Account>, parties: seq<FillParty>) {
    && met == Touched(parties)
    && (forall a :: a in nets <==> a in met)
    && forall a :: a in nets ==> nets[a] == NetOf(parties, a)
  }

  /** What one more party adds to the nets and to the accounts met. */
  lemma OneMoreParty(done: seq<FillParty>, p: FillParty)
    ensures var margin, cash := Margin(p.user, EVENT), Cash(p.user);
            && (margin in Touched(done) <==> cash in Touched(done))
            && Touched(done + [p]) == (if margin in Touched(done) then Touched(done)
                                       else Touched(done) + [margin, cash])
            && (margin !in Touched(done) ==> NetOf(done, margin) == 0 && NetOf(done, cash) == 0)
    ensures forall a :: NetOf(done + [p], a) == NetOf(done, a) + PartyDelta(p, a)
  {
    assert (done + [p])[..|done|] == done;
    TouchedOnce(done);
    if Margin(p.user, EVENT) !in Touched(done) {
      UntouchedNet(done, Margin(p.user, EVENT));
      UntouchedNet(done, Cash(p.user));
    }
  }

  /** One more party: its accounts are entered if new, and its movements added. */
  method AddParty(before: map<Account, int>, met: seq<Account>, p: FillParty, ghost done: seq<FillParty>)
    returns (nets: map<Account, int>, met': seq<Account>)
    requires Accumulated(before, met, done)
    ensures Accumulated(nets, met', done + [p])
  {
    OneMoreParty(done, p);
    nets, met' := before, met;
    var margin, cash := Margin(p.user, EVENT), Cash(p.user);
    if margin !in nets {
      nets := nets[margin := 0][cash := 0];
      met' := met + [margin, cash];
    }
    nets := nets[margin := nets[margin] + p.marginDelta];
    nets := nets[cash := nets[cash] + (p.premiumIn - p.premiumOut - p.marginDelta)];
  }

  /** Each account's net movement, accumulated party by party, and the accounts as they are met. */
  method AccumulateNets(parties: seq<FillParty>) returns (nets: map<Account, int>, met: seq<Account>)
    ensures Accumulated(nets, met, parties)
  {
    nets, met := map[], [];
    for k := 0 to |parties|
      invariant Accumulated(nets, met, parties[..k])
    {
      assert parties[..k + 1] == parties[..k] + [parties[k]];
      nets, met := AddParty(nets, met, parties[k], parties[..k]);
    }
    assert parties[..|parties|] == parties;
  }

  lemma OneMoreNet(parties: seq<FillParty>, accounts: seq<Account>, k: nat)
    requires k < |accounts|
    ensures var net := NetOf(parties, accounts[k]);
            NetEntries(parties, accounts[..k + 1])
            == NetEntries(parties, accounts[..k])
               + if net > 0 then [Entry(accounts[k], CR, net)] else if net < 0 then [Entry(accounts[k], DR, -net)]
                   else []
  {
    assert accounts[..k + 1][..k] == accounts[..k];
  }

  lemma TotalAppended(entries: seq<Entry>, e: Entry)
    ensures TotalOf(entries + [e]) == TotalOf(entries) + e.Signed()
  {
    assert (entries + [e])[..|entries|] == entries;
  }

  /** One entry per account that moves, and their total. */
  method WriteEntries(parties: seq<FillParty>, nets: map<Account, int>, met: seq<Account>)
    returns (entries: seq<Entry>, total: int)
    requires forall a :: a in met ==> a in nets && nets[a] == NetOf(parties, a)
    ensures entries == NetEntries(parties, met) && total == TotalOf(entries)
  {
    entries, total := [], 0;
    for k := 0 to |met|
      invariant entries == NetEntries(parties, met[..k]) && total == TotalOf(entries)
    {
      var net := nets[met[k]];
      OneMoreNet(parties, met, k);
      if net != 0 {
        var e := Entry(met[k], if net > 0 then CR else DR, Abs(net));
        TotalAppended(entries, e);
        entries := entries + [e];
        total := total + net;
      }
    }
    assert met[..|met|] == met;
  }

  /** `fill_entries`: refused unless the parties net to zero; CLEARING records the premium passing through. */
  method BuildFillEntries(parties: seq<FillParty>, premium: int) returns (r: Result<seq<Entry>, ()>)
    ensures r == FillEntries(parties, premium)
  {
    var nets, met := AccumulateNets(parties);
    var entries, total := WriteEntries(parties, nets, met);
    if total != 0 {
      return Err(());
    }
    var pair: seq<Entry> := [];
    if premium > 0 {
      pair := [Entry(Clearing(EVENT), CR, premium), Entry(Clearing(EVENT), DR, premium)];
    }
    r := Ok(entries + pair);
  }

  /** The accounts after both legs, maker first. */
  method BothLegs(accts: seq<Acct>, r: Request) returns (states: seq<Acct>)
    requires r.Fill? && r.maker < |accts| && r.taker < |accts|
    requires r.ticker < |accts[r.maker].net| && r.ticker < |accts[r.taker].net|
    ensures states == AfterLegs(accts, r)
  {
    var maker := Leg(accts[r.maker], r.ticker, r.makerOrder, MakerQty(r), r.count, r.globalSeq);
    states := accts[r.maker := maker];
    var taker := Leg(states[r.taker], r.ticker, r.takerOrder, TakerQty(r), r.count, r.globalSeq);
    states := states[r.taker := taker];
  }

  /** The order keeps `keep` units, or goes. */
  method Shrink(state: Acct, j: nat, keep: nat) returns (a: Acct)
    requires j < |state.orders|
    ensures a == state.(orders := Keep(state.orders, j, keep, state.orders[j].lastSeq))
  {
    var o := state.orders[j];
    if keep == 0 {
      a := state.(orders := state.orders[..j] + state.orders[j + 1..]);
    } else {
      a := state.(orders := state.orders[j := o.(remaining := keep * Sign(o.remaining))]);
    }
  }

  lemma ReleasePlanned(setup: Setup, w: World, r: Request, b: Acct)
    requires setup.book.Valid() && r.ReleaseOrder? && r.user < |w.accts| && r.keep >= 0
    requires var a := w.accts[r.user];
             && Has(a.orders, r.order)
             && var o := a.orders[Find(a.orders, r.order)];
                r.globalSeq >= o.lastSeq
                && b == a.(orders := Keep(a.orders, Find(a.orders, r.order), Min(r.keep, Abs(o.remaining)), o.lastSeq))
    ensures PlanRelease(setup, w, r)
            == if !Priceable(setup.book, b) then Stop(Precondition)
               else
                 var a, after := w.accts[r.user], Required(setup.book, b);
                 Go(ReleaseKey(r.order, a.version), MoveEntries(r.user, after - a.posted),
                    w.accts[r.user := b.(posted := after, version := a.version + 1)], w.applied, w.seen,
                    Approved(a.posted, after), Precondition)
  {
  }

  lemma FillPlanned(setup: Setup, w: World, r: Request, premium: int)
    requires setup.book.Valid() && Sized(setup.book, w.accts) && r.Fill?
    requires r.maker < |w.accts| && r.taker < |w.accts| && r.count > 0 && r.price > 0
    requires ValidSideAction(r.makerSide, r.makerAction) && ValidSideAction(r.takerSide, r.takerAction)
    requires r.ticker < |setup.book.instruments| && setup.portfolio && MakerQty(r) == -TakerQty(r)
    requires setup.book.instruments[r.ticker].Accepts(r.price) && r.fill !in w.applied
    requires premium == setup.book.instruments[r.ticker].payoff.ValueOfPrice(r.price) * r.count
    ensures var s := AfterLegs(w.accts, r);
            PlanFill(setup, w, r)
            == if !Priceable(setup.book, s[r.maker]) || !Priceable(setup.book, s[r.taker]) then Stop(Precondition)
               else
                 var entries := FillEntries(FillParties(setup.book, w.accts, s, r, premium), premium);
                 if entries.Err? then Stop(Precondition)
                 else
                   var t := s[r.maker := Remargined(setup.book, s[r.maker])];
                   Go(FillKey(r.fill), entries.value, t[r.taker := Remargined(setup.book, s[r.taker])],
                      w.applied + {r.fill}, w.seen, Applied, Precondition)
  {
  }

  // ---------------------------------------------------------------- the service

  class RiskService {
    const setup: Setup
    const ledger: LedgerService
    var accts: seq<Acct>
    var applied: set<nat>
    ghost var seen: set<nat>

    constructor (setup: Setup, ledger: LedgerService, accts: seq<Acct>)
      ensures this.setup == setup && this.ledger == ledger
      ensures Now() == World(accts, {}, ledger.Tables(), {})
    {
      this.setup, this.ledger, this.accts, applied, seen := setup, ledger, accts, {}, {};
    }

    ghost function Now(): World
      reads this, ledger
    {
      World(accts, applied, ledger.Tables(), seen)
    }

    ghost predicate Valid()
      reads this, ledger
    {
      setup.book.Valid() && Sized(setup.book, accts)
    }

    /** `post_ledger`. */
    method PostLedger(key: Key, entries: seq<Entry>) returns (r: Result<(), Error>)
      modifies ledger
      ensures (ledger.Tables(), r) == LedgerStep(old(ledger.Tables()), key, entries)
    {
      if entries == [] {
        return Ok(());
      }
      var posted := ledger.Post(key, entries);
      r := if posted.Ok? then Ok(()) else Err(posted.error);
    }

    /** Ledger first, then the tables: a refused posting rolls the tables back. */
    method Perform(key: Key, entries: seq<Entry>, next: seq<Acct>, fills: set<nat>, ghost orders: set<nat>,
                   reply: Reply, refused: Reply)
      returns (result: Reply)
      modifies this, ledger
      ensures (Now(), result) == Execute(old(Now()), Go(key, entries, next, fills, orders, reply, refused))
    {
      var posted := PostLedger(key, entries);
      if posted.Err? {
        return if posted.error == InsufficientFunds then refused else LedgerFailed;
      }
      accts, applied, seen := next, fills, orders;
      result := reply;
    }

    method ReserveOrder(r: Request) returns (reply: Reply)
      requires Valid() && r.Reserve?
      modifies this, ledger
      ensures (Now(), reply) == Execute(old(Now()), PlanReserve(setup, old(Now()), r))
    {
      if r.user >= |accts| || r.count <= 0 || !ValidSideAction(r.side, r.action) { return BadArgument; }
      if !setup.enabled { return RejectedNotEnabled; }
      if r.ticker >= |setup.book.instruments| { return NotFound; }
      if !setup.portfolio { return RejectedNotPortfolio; }
      var state := accts[r.user];
      var j := IndexOf(state.orders, r.order);
      if j < |state.orders| { return Approved(state.posted, state.posted); }
      var before := state.posted;
      var (qty, price) := StoredUnitOrder(r.side, r.action, r.price, r.count);
      state := state.(orders := state.orders + [Reserved(r.order, r.ticker, qty, price, 0)]);
      var after := MarginFor(setup.book, state);
      if after.Err? { return RejectedIneligible; }
      var next := accts[r.user := state.(posted := after.value, version := state.version + 1)];
      reply := Perform(ReserveKey(r.order), MoveEntries(r.user, after.value - before), next, applied, seen + {r.order},
                       Approved(before, after.value), RejectedInsufficient(before, after.value));
    }

    method ReleaseOrder(r: Request) returns (reply: Reply)
      requires Valid() && r.ReleaseOrder?
      modifies this, ledger
      ensures (Now(), reply) == Execute(old(Now()), PlanRelease(setup, old(Now()), r))
    {
      if r.user >= |accts| || r.keep < 0 { return BadArgument; }
      var state := accts[r.user];
      var j := IndexOf(state.orders, r.order);
      if j == |state.orders| { return AlreadyReleased; }
      if r.globalSeq < state.orders[j].lastSeq { return RejectedStale; }
      reply := ReleaseFound(r, j);
    }

    /** The rest of a release, once the order is found and the request is not stale. */
    method ReleaseFound(r: Request, j: nat) returns (reply: Reply)
      requires Valid() && r.ReleaseOrder? && r.user < |accts| && r.keep >= 0
      requires Has(accts[r.user].orders, r.order) && j == Find(accts[r.user].orders, r.order)
      requires r.globalSeq >= accts[r.user].orders[j].lastSeq
      modifies this, ledger
      ensures (Now(), reply) == Execute(old(Now()), PlanRelease(setup, old(Now()), r))
    {
      var state := accts[r.user];
      var before, version := state.posted, state.version;
      state := Shrink(state, j, Min(r.keep, Abs(state.orders[j].remaining)));
      ReleasePlanned(setup, Now(), r, state);
      var after := MarginFor(setup.book, state);
      if after.Err? { return Precondition; }
      var next := accts[r.user := state.(posted := after.value, version := version + 1)];
      assert PlanRelease(setup, Now(), r)
             == Go(ReleaseKey(r.order, version), MoveEntries(r.user, after.value - before), next,
                                                applied, seen, Approved(before, after.value), Precondition);
      reply := Perform(ReleaseKey(r.order, version), MoveEntries(r.user, after.value - before), next, applied, seen,
                       Approved(before, after.value), Precondition);
    }

    method ApplyFill(r: Request) returns (reply: Reply)
      requires Valid() && r.Fill?
      modifies this, ledger
      ensures (Now(), reply) == Execute(old(Now()), PlanFill(setup, old(Now()), r))
    {
      if r.maker >= |accts| || r.taker >= |accts| || r.count <= 0 || r.price <= 0
         || !ValidSideAction(r.makerSide, r.makerAction) || !ValidSideAction(r.takerSide, r.takerAction)
      {
        return BadArgument;
      }
      if r.ticker >= |setup.book.instruments| { return NotFound; }
      if !setup.portfolio { return Precondition; }
      if MakerQty(r) != -TakerQty(r) { return BadArgument; }
      var instrument := setup.book.instruments[r.ticker];
      if !instrument.Accepts(r.price) { return Precondition; }
      if r.fill in applied { return Duplicate; }
      var premium := instrument.payoff.ValueOfPrice(r.price) * r.count;
      FillPlanned(setup, Now(), r, premium);
      var prepared := PrepareFill(r, premium);
      if prepared.None? { return Precondition; }
      reply := Perform(FillKey(r.fill), prepared.value.0, prepared.value.1, applied + {r.fill}, seen, Applied,
                       Precondition);
    }

    /** The posting and the new tables of a valid fill, if both parties can be re-margined. */
    method PrepareFill(r: Request, premium: int) returns (prepared: Option<(seq<Entry>, seq<Acct>)>)
      requires Valid() && r.Fill? && r.maker < |accts| && r.taker < |accts| && r.ticker < |setup.book.instruments|
      ensures var s := AfterLegs(accts, r);
              if !Priceable(setup.book, s[r.maker]) || !Priceable(setup.book, s[r.taker]) then prepared == None
              else
                var entries := FillEntries(FillParties(setup.book, accts, s, r, premium), premium);
                var t := s[r.maker := Remargined(setup.book, s[r.maker])];
                prepared == if entries.Err? then None
                            else Some((entries.value, t[r.taker := Remargined(setup.book, s[r.taker])]))
    {
      var states := BothLegs(accts, r);
      LegsKeepSize(accts, r);
      var makerMargin := MarginFor(setup.book, states[r.maker]);
      var takerMargin := MarginFor(setup.book, states[r.taker]);
      if makerMargin.Err? || takerMargin.Err? { return None; }
      var entries := EntriesFor(setup.book, r, accts, states, makerMargin.value, takerMargin.value, premium);
      if entries.Err? { return None; }
      var maker, taker := states[r.maker], states[r.taker];
      states := states[r.maker := maker.(posted := makerMargin.value, version := maker.version + 1)];
      states := states[r.taker := taker.(posted := takerMargin.value, version := taker.version + 1)];
      prepared := Some((entries.value, states));
    }

    /** The entries of a fill, from the parties' new margins. */
    static method EntriesFor(book: EventBook, r: Request, before: seq<Acct>, after: seq<Acct>, makerMargin: int,
                             takerMargin: int, premium: int)
      returns (entries: Result<seq<Entry>, ()>)
      requires book.Valid() && r.Fill? && r.maker < |before| == |after| && r.taker < |before|
      requires Priceable(book, after[r.maker]) && Priceable(book, after[r.taker])
      requires makerMargin == Required(book, after[r.maker]) && takerMargin == Required(book, after[r.taker])
      ensures entries == FillEntries(FillParties(book, before, after, r, premium), premium)
    {
      var parties := Parties(r, before, makerMargin, takerMargin, premium);
      assert parties == FillParties(book, before, after, r, premium);
      entries := BuildFillEntries(parties, premium);
    }

    static lemma LegsKeepSize(accts: seq<Acct>, r: Request)
      requires r.Fill? && r.maker < |accts| && r.taker < |accts|
      requires r.ticker < |accts[r.maker].net| && r.ticker < |accts[r.taker].net|
      ensures forall u :: 0 <= u < |accts| ==> |AfterLegs(accts, r)[u].net| == |accts[u].net|
    {
    }

    /** The parties of the fill, one per user, in user order. */
    static method Parties(r: Request, before: seq<Acct>, makerMargin: int, takerMargin: int, premium: int)
      returns (parties: seq<FillParty>)
      requires r.Fill? && r.maker < |before| && r.taker < |before|
               && (r.maker == r.taker ==> makerMargin == takerMargin)
      ensures |parties| == |FillUsers(r)|
      ensures forall k :: 0 <= k < |parties| ==>
                            var user := FillUsers(r)[k];
                            var margin := if user == r.maker then makerMargin else takerMargin;
                            parties[k] == PartyOf(r, user, margin - before[user].posted, premium)
    {
      var users := FillUsers(r);
      parties := [];
      for k := 0 to |users|
        invariant |parties| == k
        invariant forall i :: 0 <= i < k ==>
                                var user := users[i];
                                var margin := if user == r.maker then makerMargin else takerMargin;
                                parties[i] == PartyOf(r, user, margin - before[user].posted, premium)
      {
        var user := users[k];
        var p := PartyFor(r, user, (if user == r.maker then makerMargin else takerMargin) - before[user].posted,
                          premium);
        parties := parties + [p];
      }
    }

    /** The correction of one account, under its lock and from fresh state. */
    method ReconcileOne(user: nat) returns (reply: Reply)
      requires user < |accts|
      modifies ledger
      ensures (Now(), reply) == Execute(old(Now()), PlanReconcile(old(Now()), Reconcile(user)))
    {
      var current := Balance(ledger.rows, Margin(user, EVENT));
      var diff := accts[user].posted - current;
      if diff == 0 { return InStep; }
      var posted := PostLedger(ReconcileKey(user, accts[user].version, current), MoveEntries(user, diff));
      if posted.Err? { return if posted.error == InsufficientFunds then Precondition else LedgerFailed; }
      reply := Reconciled;
    }

    /** `reconcile_margin`: one pass over all accounts, from one snapshot of tables and ledger. */
    method ReconcileMargin(suspects: map<nat, int>) returns (next: map<nat, int>, found: seq<nat>)
      modifies ledger
      ensures Now() == PassUpTo(old(Now()), old(Now()), suspects, |old(accts)|)
      ensures next == SuspectsAfter(old(Now()), suspects)
      ensures forall u: nat :: u in found <==> u < |old(accts)| && Drifting(old(Now()), u)
    {
      var rows := ledger.rows;
      ghost var first := Now();
      next, found := suspects, [];
      for u := 0 to |accts|
        invariant Now() == PassUpTo(first, first, suspects, u) && accts == first.accts
        invariant Sighted(first, suspects, u, next, found)
      {
        var balance := Balance(rows, Margin(u, EVENT));
        SightedStep(first, suspects, u, next, found);
        if accts[u].posted != balance {
          found := found + [u];
          if u !in next || next[u] != balance {
            next := next[u := balance];
          } else {
            var reply := ReconcileOne(u);
            next := next - {u};
          }
        }
      }
      SightedAll(first, suspects, next, found);
      next := map v | v in next && v in found :: next[v];
    }
  }
}
