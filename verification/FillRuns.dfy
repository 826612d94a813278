/**
  A fill whose two orders are still reserved is never refused, and keeps the invariants of
  module MarginRuns. Maker and taker may be one user.
 */
module FillRuns {
  import opened Common
  import opened Payoffs
  import opened Portfolio
  import opened Ledger
  import opened LedgerRuns
  import opened MarginExec
  import opened FillPostings
  import opened MarginRuns

  /** A fill that reaches the ledger: valid and not applied before. */
  ghost predicate Fresh(setup: Setup, w: World, r: Request) {
    && r.Fill? && setup.book.Valid() && Sized(setup.book, w.accts) && setup.portfolio
    && r.maker < |w.accts| && r.taker < |w.accts| && r.count > 0 && r.price > 0
    && ValidSideAction(r.makerSide, r.makerAction) && ValidSideAction(r.takerSide, r.takerAction)
    && MakerQty(r) == -TakerQty(r)
    && r.ticker < |setup.book.instruments| && setup.book.instruments[r.ticker].Accepts(r.price)
    && r.fill !in w.applied
  }

  /** A fresh fill whose two orders are still reserved. */
  ghost predicate Due(setup: Setup, w: World, r: Request) {
    && Fresh(setup, w, r)
    && Covered(w.accts[r.maker], r.ticker, r.makerOrder, MakerQty(r), r.price)
    && Covered(w.accts[r.taker], r.ticker, r.takerOrder, TakerQty(r), r.price)
  }

  function UnitPaid(setup: Setup, r: Request): int
    requires r.Fill? && r.ticker < |setup.book.instruments|
  {
    setup.book.instruments[r.ticker].payoff.ValueOfPrice(r.price)
  }

  /** What the user gains in units over the legs of the fill. */
  function Gained(r: Request, user: nat): int
    requires r.Fill?
  {
    (if user == r.maker then MakerQty(r) else 0) + (if user == r.taker then TakerQty(r) else 0)
  }

  // ---------------------------------------------------------------- the margin of each party

  /** Two users: each leg is one account's. */
  lemma TwoPartiesNeedNoNewCash(setup: Setup, w: World, r: Request)
    requires Inv(setup, w) && Due(setup, w, r) && r.maker != r.taker
    ensures LegOf(setup.book, w.accts[r.maker], AfterLegs(w.accts, r)[r.maker], MakerQty(r) * UnitPaid(setup, r))
    ensures LegOf(setup.book, w.accts[r.taker], AfterLegs(w.accts, r)[r.taker], TakerQty(r) * UnitPaid(setup, r))
  {
    var maker, taker := w.accts[r.maker], w.accts[r.taker];
    assert Funded(setup.book, w.ledger, r.maker, maker) && Funded(setup.book, w.ledger, r.taker, taker);
    LegNeedsNoNewCash(setup.book, maker, r.ticker, r.makerOrder, MakerQty(r), r.price, r.count, r.globalSeq);
    LegNeedsNoNewCash(setup.book, taker, r.ticker, r.takerOrder, TakerQty(r), r.price, r.count, r.globalSeq);
  }

  /** The account can be re-margined, and what it needs plus the premium paid is within what it had posted. */
  ghost predicate LegOf(book: EventBook, a: Acct, b: Acct, paid: int)
    requires book.Valid()
  {
    Priceable(book, b) && Required(book, b) + paid <= a.posted
  }

  /** One user on both sides: the second leg starts from the first one's account. */
  lemma BothLegsOfOne(book: EventBook, a: Acct, r: Request)
    requires book.Valid() && Priceable(book, a) && r.Fill? && r.ticker < |book.instruments| && r.count > 0
    requires a.posted == Required(book, a) && MakerQty(r) == -TakerQty(r) && r.makerOrder != r.takerOrder
    requires Covered(a, r.ticker, r.makerOrder, MakerQty(r), r.price)
    requires var middle := ApplyLeg(a, r.ticker, r.makerOrder, MakerQty(r), r.count, r.globalSeq);
             Covered(middle, r.ticker, r.takerOrder, TakerQty(r), r.price)
    ensures var middle := ApplyLeg(a, r.ticker, r.makerOrder, MakerQty(r), r.count, r.globalSeq);
            LegOf(book, a, ApplyLeg(middle, r.ticker, r.takerOrder, TakerQty(r), r.count, r.globalSeq), 0)
  {
    var middle := ApplyLeg(a, r.ticker, r.makerOrder, MakerQty(r), r.count, r.globalSeq);
    LegNeedsNoNewCash(book, a, r.ticker, r.makerOrder, MakerQty(r), r.price, r.count, r.globalSeq);
    LegNeedsNoNewCash(book, middle, r.ticker, r.takerOrder, TakerQty(r), r.price, r.count, r.globalSeq);
    Opposite(MakerQty(r), book.instruments[r.ticker].payoff.ValueOfPrice(r.price));
  }

  lemma SelfTradeNeedsNoNewCash(setup: Setup, w: World, r: Request)
    requires Inv(setup, w) && Due(setup, w, r) && r.maker == r.taker
    ensures LegOf(setup.book, w.accts[r.maker], AfterLegs(w.accts, r)[r.maker], 0)
  {
    var a := w.accts[r.maker];
    assert Funded(setup.book, w.ledger, r.maker, a);
    SelfTradeOrdersDiffer(a, r);
    OneAccountIdsUnique(w.accts, r.maker);
    OtherLegStaysCovered(a, r.ticker, r.makerOrder, MakerQty(r), r.count, r.globalSeq, r.takerOrder, TakerQty(r),
                         r.price);
    BothLegsOfOne(setup.book, a, r);
  }

  /** A valid fill after which both parties can be re-margined. */
  ghost predicate Repriced(setup: Setup, w: World, r: Request) {
    && r.Fill? && setup.book.Valid() && r.maker < |w.accts| && r.taker < |w.accts| && r.count > 0
    && r.ticker < |setup.book.instruments|
    && r.ticker < |w.accts[r.maker].net| && r.ticker < |w.accts[r.taker].net|
    && MakerQty(r) == -TakerQty(r)
    && Priceable(setup.book, AfterLegs(w.accts, r)[r.maker]) && Priceable(setup.book, AfterLegs(w.accts, r)[r.taker])
  }

  /** Neither party needs cash it did not have locked. */
  ghost predicate Payable(setup: Setup, w: World, r: Request) {
    && Repriced(setup, w, r)
    && LegOf(setup.book, w.accts[r.maker], AfterLegs(w.accts, r)[r.maker], Gained(r, r.maker) * UnitPaid(setup, r))
    && LegOf(setup.book, w.accts[r.taker], AfterLegs(w.accts, r)[r.taker], Gained(r, r.taker) * UnitPaid(setup, r))
  }

  /** A fill needs no new cash. */
  lemma DueIsPayable(setup: Setup, w: World, r: Request)
    requires Inv(setup, w) && Due(setup, w, r)
    ensures Payable(setup, w, r)
  {
    assert |w.accts[r.maker].net| == |setup.book.instruments| && |w.accts[r.taker].net| == |setup.book.instruments|;
    if r.maker == r.taker {
      SelfTradeNeedsNoNewCash(setup, w, r);
      assert Gained(r, r.maker) == 0 && Gained(r, r.taker) == 0;
    } else {
      TwoPartiesNeedNoNewCash(setup, w, r);
      assert Gained(r, r.maker) == MakerQty(r) && Gained(r, r.taker) == TakerQty(r);
    }
  }

  lemma Opposite(q: int, v: int)
    ensures q * v + (-q) * v == 0
  {
  }

  lemma SelfTradeOrdersDiffer(a: Acct, r: Request)
    requires r.Fill? && r.count > 0 && MakerQty(r) == -TakerQty(r)
    requires Covered(a, r.ticker, r.makerOrder, MakerQty(r), r.price)
             && Covered(a, r.ticker, r.takerOrder, TakerQty(r), r.price)
    ensures r.makerOrder != r.takerOrder
  {
  }

  lemma OneAccountIdsUnique(accts: seq<Acct>, u: nat)
    requires IdsUnique(accts) && u < |accts|
    ensures forall j, k | 0 <= j < |accts[u].orders| && 0 <= k < |accts[u].orders| ::
              accts[u].orders[j].id == accts[u].orders[k].id ==> j == k
  {
  }

  // ---------------------------------------------------------------- the posting

  lemma NetOfOne(p: FillParty, a: Account)
    ensures NetOf([p], a) == PartyDelta(p, a)
    ensures PremiumTotal([p]) == p.premiumIn - p.premiumOut
  {
    assert [p][..0] == [];
  }

  lemma NetOfTwo(p: FillParty, q: FillParty, a: Account)
    ensures NetOf([p, q], a) == PartyDelta(p, a) + PartyDelta(q, a)
    ensures PremiumTotal([p, q]) == p.premiumIn - p.premiumOut + q.premiumIn - q.premiumOut
  {
    assert [p, q][..1] == [p];
    NetOfOne(p, a);
  }

  /** The parties of a fill whose margins move by these amounts. */
  function PartiesAt(r: Request, makerDelta: int, takerDelta: int, premium: int): seq<FillParty>
    requires r.Fill?
  {
    var maker, taker := PartyOf(r, r.maker, makerDelta, premium), PartyOf(r, r.taker, takerDelta, premium);
    if r.maker == r.taker then [maker] else if r.maker < r.taker then [maker, taker] else [taker, maker]
  }

  lemma PremiumOfLeg(qty: int, paid: int, count: int)
    requires count > 0 && (qty == count || qty == -count)
    ensures LegPremium(qty, paid * count).0 - LegPremium(qty, paid * count).1 == -(qty * paid)
  {
  }

  /** What the user's margin moves by in the fill. */
  function DeltaAt(r: Request, user: nat, makerDelta: int, takerDelta: int): int
    requires r.Fill?
  {
    if user == r.maker then makerDelta else if user == r.taker then takerDelta else 0
  }

  /** Premiums net to zero, each party's margin moves by its delta and its cash by the rest of its premium. */
  lemma PartiesNet(r: Request, makerDelta: int, takerDelta: int, paid: int, a: Account)
    requires r.Fill? && r.count > 0 && MakerQty(r) == -TakerQty(r) && (r.maker == r.taker ==> makerDelta == takerDelta)
    ensures var parties := PartiesAt(r, makerDelta, takerDelta, paid * r.count);
            && PremiumTotal(parties) == 0
            && (Listed(parties, a) ==> (a.Cash? || a.Margin?) && (a.user == r.maker || a.user == r.taker))
            && NetOf(parties, a) == match a
                                    case Margin(u, e) => if e == EVENT then DeltaAt(r, u, makerDelta, takerDelta) else 0
                                    case Cash(u) => -(Gained(r, u) * paid) - DeltaAt(r, u, makerDelta, takerDelta)
                                    case _ => 0
  {
    var parties := PartiesAt(r, makerDelta, takerDelta, paid * r.count);
    PremiumOfLeg(MakerQty(r), paid, r.count);
    PremiumOfLeg(TakerQty(r), paid, r.count);
    Opposite(MakerQty(r), paid);
    if r.maker == r.taker {
      NetOfOne(parties[0], a);
    } else {
      NetOfTwo(parties[0], parties[1], a);
    }
  }

  /** How far the user's requirement is from what it has posted, once both legs are applied. */
  ghost function Need(setup: Setup, w: World, r: Request, user: nat): int
    requires Repriced(setup, w, r) && (user == r.maker || user == r.taker)
  {
    Required(setup.book, AfterLegs(w.accts, r)[user]) - w.accts[user].posted
  }

  ghost function PartiesOf(setup: Setup, w: World, r: Request): seq<FillParty>
    requires Repriced(setup, w, r)
  {
    PartiesAt(r, Need(setup, w, r, r.maker), Need(setup, w, r, r.taker), UnitPaid(setup, r) * r.count)
  }

  /** What the fill posts to an account. */
  ghost function PostedTo(setup: Setup, w: World, r: Request, a: Account): int
    requires Repriced(setup, w, r)
  {
    var makerNeed, takerNeed := Need(setup, w, r, r.maker), Need(setup, w, r, r.taker);
    match a
    case Margin(u, e) => if e == EVENT then DeltaAt(r, u, makerNeed, takerNeed) else 0
    case Cash(u) => -(Gained(r, u) * UnitPaid(setup, r)) - DeltaAt(r, u, makerNeed, takerNeed)
    case _ => 0
  }

  lemma PartiesAgree(setup: Setup, w: World, r: Request)
    requires Repriced(setup, w, r)
    ensures FillParties(setup.book, w.accts, AfterLegs(w.accts, r), r, UnitPaid(setup, r) * r.count)
            == PartiesOf(setup, w, r)
  {
  }

  lemma EntriesOk(setup: Setup, w: World, r: Request)
    requires Repriced(setup, w, r)
    ensures FillEntries(PartiesOf(setup, w, r), UnitPaid(setup, r) * r.count).Ok?
  {
    PartiesNet(r, Need(setup, w, r, r.maker), Need(setup, w, r, r.taker), UnitPaid(setup, r), Clearing(EVENT));
    FillEntriesRefused(PartiesOf(setup, w, r), UnitPaid(setup, r) * r.count);
  }

  /** The plan of a fresh fill. */
  lemma PlanOfFresh(setup: Setup, w: World, r: Request)
    requires Fresh(setup, w, r) && Repriced(setup, w, r)
    ensures PlansFill(setup, w, r, PlanFill(setup, w, r))
  {
    PartiesAgree(setup, w, r);
    EntriesOk(setup, w, r);
  }

  /** What the plan of a fresh fill is, without its definition. */
  ghost predicate PlansFill(setup: Setup, w: World, r: Request, plan: Plan)
    requires Repriced(setup, w, r)
  {
    && plan.Go? && plan.key == FillKey(r.fill) && plan.reply == Applied && plan.refused == Precondition
    && plan.applied == w.applied + {r.fill} && plan.seen == w.seen
    && FillEntries(PartiesOf(setup, w, r), UnitPaid(setup, r) * r.count) == Ok(plan.entries)
    && Remade(setup, w, r, plan.accts)
  }

  /** Every account after the fill: the two parties re-margined, the others as they were. */
  ghost predicate Remade(setup: Setup, w: World, r: Request, next: seq<Acct>)
    requires Repriced(setup, w, r)
  {
    var s := AfterLegs(w.accts, r);
    && |next| == |w.accts|
    && forall u :: 0 <= u < |w.accts| ==>
                     if u == r.maker || u == r.taker
                     then Priceable(setup.book, s[u]) && next[u] == Remargined(setup.book, s[u])
                     else next[u] == w.accts[u]
  }

  /** A fill that is planned at all is fresh, and both parties can be re-margined. */
  lemma PlannedIsFresh(setup: Setup, w: World, r: Request)
    requires setup.book.Valid() && Sized(setup.book, w.accts) && r.Fill? && PlanFill(setup, w, r).Go?
    ensures Fresh(setup, w, r) && Repriced(setup, w, r) && PlansFill(setup, w, r, PlanFill(setup, w, r))
  {
    assert Fresh(setup, w, r) && Repriced(setup, w, r);
    PlanOfFresh(setup, w, r);
  }

  lemma NeedBounds(setup: Setup, w: World, r: Request, user: nat)
    requires Payable(setup, w, r) && (user == r.maker || user == r.taker)
    ensures -w.accts[user].posted <= Need(setup, w, r, user) <= -(Gained(r, user) * UnitPaid(setup, r))
  {
  }

  /** Neither party's cash would go below zero. */
  ghost predicate Affordable(setup: Setup, w: World, r: Request)
    requires Repriced(setup, w, r)
  {
    && Balance(w.ledger.rows, Cash(r.maker)) + PostedTo(setup, w, r, Cash(r.maker)) >= 0
    && Balance(w.ledger.rows, Cash(r.taker)) + PostedTo(setup, w, r, Cash(r.taker)) >= 0
  }

  /** A fill of reserved orders leaves each party's cash where it was or higher. */
  lemma PayableCash(setup: Setup, w: World, r: Request, user: nat)
    requires Payable(setup, w, r)
    ensures PostedTo(setup, w, r, Cash(user)) >= 0
  {
    NeedBounds(setup, w, r, r.maker);
    NeedBounds(setup, w, r, r.taker);
  }

  lemma NetIs(setup: Setup, w: World, r: Request, a: Account)
    requires Repriced(setup, w, r)
    ensures var parties := PartiesOf(setup, w, r);
            && PremiumTotal(parties) == 0 && NetOf(parties, a) == PostedTo(setup, w, r, a)
            && (Listed(parties, a) ==> a.Margin? || a == Cash(r.maker) || a == Cash(r.taker))
  {
    PartiesNet(r, Need(setup, w, r, r.maker), Need(setup, w, r, r.taker), UnitPaid(setup, r), a);
  }

  lemma NetIsPayable(setup: Setup, w: World, r: Request, a: Account)
    requires RunningBalances(w.ledger.rows) && Repriced(setup, w, r) && Affordable(setup, w, r) && NonNegative(a)
    requires Balance(w.ledger.rows, Margin(r.maker, EVENT)) == w.accts[r.maker].posted
    requires Balance(w.ledger.rows, Margin(r.taker, EVENT)) == w.accts[r.taker].posted
    ensures Balance(w.ledger.rows, a) >= 0 && Balance(w.ledger.rows, a) + PostedTo(setup, w, r, a) >= 0
  {
    BalanceIsFold(w.ledger.rows, a);
    assert Need(setup, w, r, r.maker) >= -w.accts[r.maker].posted;
    assert Need(setup, w, r, r.taker) >= -w.accts[r.taker].posted;
  }

  /** Where the ledger stands after the fill. */
  ghost predicate Paid(setup: Setup, w: World, r: Request, t: State)
    requires Repriced(setup, w, r)
  {
    && Sound(t) && w.ledger.accounts <= t.accounts
    && t.keys.Keys <= w.ledger.keys.Keys + {FillKey(r.fill)}
    && forall a :: Balance(t.rows, a) == Balance(w.ledger.rows, a) + PostedTo(setup, w, r, a)
  }

  lemma EntriesAccepted(s: State, key: Key, parties: seq<FillParty>, premium: int)
    requires Sound(s) && key != Blank && key !in s.keys && PremiumTotal(parties) == 0
    requires forall a :: NonNegative(a) ==> Balance(s.rows, a) >= 0 && Balance(s.rows, a) + NetOf(parties, a) >= 0
    requires forall a :: Listed(parties, a) ==> a in s.accounts || Lazy(a)
    ensures FillEntries(parties, premium).Ok?
    ensures var (t, r) := LedgerStep(s, key, FillEntries(parties, premium).value);
            && r.Ok? && Sound(t) && s.accounts <= t.accounts && t.keys.Keys <= s.keys.Keys + {key}
            && forall a :: Balance(t.rows, a) == Balance(s.rows, a) + NetOf(parties, a)
  {
    FillEntriesEffect(parties, premium, Clearing(EVENT));
    var entries := FillEntries(parties, premium).value;
    forall a
      ensures Delta(entries, a) == NetOf(parties, a)
      ensures NonNegative(a) ==> forall n :: 0 <= n <= |entries| ==> Balance(s.rows, a) + Delta(entries[..n], a) >= 0
    {
      FillEntriesEffect(parties, premium, a);
    }
    if entries != [] {
      PostAccepted(s, key, entries);
      PostEffect(s, key, entries);
    }
  }

  lemma EntriesRefused(s: State, key: Key, parties: seq<FillParty>, premium: int, a: Account)
    requires Sound(s) && key != Blank && key !in s.keys && PremiumTotal(parties) == 0
    requires forall c :: Listed(parties, c) ==> c in s.accounts || Lazy(c)
    requires NonNegative(a) && Balance(s.rows, a) + NetOf(parties, a) < 0
    ensures FillEntries(parties, premium).Ok?
    ensures LedgerStep(s, key, FillEntries(parties, premium).value) == (s, Err(InsufficientFunds))
  {
    FillEntriesEffect(parties, premium, a);
    var entries := FillEntries(parties, premium).value;
    BalanceIsFold(s.rows, a);
    AppendRefusesOverdraft(s.rows, TxFor(s, key), entries, a);
    AppendError(s.rows, TxFor(s, key), entries);
  }

  /** The ledger takes a fresh fill's posting exactly when both parties can afford it. */
  lemma FreshFillPosted(setup: Setup, w: World, r: Request, plan: Plan)
    requires Inv(setup, w) && Repriced(setup, w, r) && PlansFill(setup, w, r, plan) && r.fill !in w.applied
    ensures var (t, posted) := LedgerStep(w.ledger, plan.key, plan.entries);
            if Affordable(setup, w, r) then posted.Ok? && Paid(setup, w, r, t)
            else posted == Err(InsufficientFunds) && t == w.ledger
  {
    var parties, premium := PartiesOf(setup, w, r), UnitPaid(setup, r) * r.count;
    assert Funded(setup.book, w.ledger, r.maker, w.accts[r.maker]);
    assert Funded(setup.book, w.ledger, r.taker, w.accts[r.taker]);
    forall a
      ensures PremiumTotal(parties) == 0 && NetOf(parties, a) == PostedTo(setup, w, r, a)
      ensures Listed(parties, a) ==> a in w.ledger.accounts || Lazy(a)
    {
      NetIs(setup, w, r, a);
    }
    NetIs(setup, w, r, Clearing(EVENT));
    if Affordable(setup, w, r) {
      forall a | NonNegative(a) ensures Balance(w.ledger.rows, a) >= 0
          && Balance(w.ledger.rows, a) + NetOf(parties, a) >= 0 {
        NetIsPayable(setup, w, r, a);
      }
      EntriesAccepted(w.ledger, FillKey(r.fill), parties, premium);
    } else if Balance(w.ledger.rows, Cash(r.maker)) + PostedTo(setup, w, r, Cash(r.maker)) < 0 {
      EntriesRefused(w.ledger, FillKey(r.fill), parties, premium, Cash(r.maker));
    } else {
      EntriesRefused(w.ledger, FillKey(r.fill), parties, premium, Cash(r.taker));
    }
  }

  // ---------------------------------------------------------------- the invariants

  lemma {:induction false} SameInterest(a: seq<Acct>, b: seq<Acct>, ticker: nat, n: nat)
    requires n <= |a| == |b| && forall u :: 0 <= u < |a| ==> ticker < |a[u].net| && a[u].net == b[u].net
    ensures OpenInterest(a, ticker, n) == OpenInterest(b, ticker, n)
  {
    if n > 0 { SameInterest(a, b, ticker, n - 1); }
  }

  /** The units one party gains the other gives up. */
  lemma LegsNetToZero(accts: seq<Acct>, r: Request, ticker: nat)
    requires r.Fill? && r.maker < |accts| && r.taker < |accts| && MakerQty(r) == -TakerQty(r)
    requires forall u :: 0 <= u < |accts| ==> ticker < |accts[u].net| && r.ticker < |accts[u].net|
    ensures forall u :: 0 <= u < |accts| ==> |AfterLegs(accts, r)[u].net| == |accts[u].net|
    ensures OpenInterest(AfterLegs(accts, r), ticker, |accts|) == OpenInterest(accts, ticker, |accts|)
  {
    var a := ApplyLeg(accts[r.maker], r.ticker, r.makerOrder, MakerQty(r), r.count, r.globalSeq);
    var s := accts[r.maker := a];
    var b := ApplyLeg(s[r.taker], r.ticker, r.takerOrder, TakerQty(r), r.count, r.globalSeq);
    InterestUpdate(accts, ticker, |accts|, r.maker, a);
    InterestUpdate(s, ticker, |accts|, r.taker, b);
  }

  lemma FillKeepsMoney(setup: Setup, w: World, r: Request, next: seq<Acct>, t: State)
    requires Inv(setup, w) && Repriced(setup, w, r) && Remade(setup, w, r, next) && Paid(setup, w, r, t)
    ensures Sized(setup.book, next)
    ensures forall u :: 0 <= u < |next| ==> Funded(setup.book, t, u, next[u])
    ensures Balance(t.rows, Clearing(EVENT)) == 0
  {
    forall u | 0 <= u < |next| ensures Funded(setup.book, t, u, next[u]) {
      if u == r.maker || u == r.taker {
        PartyFunded(setup, w, r, next, t, u);
      } else {
        assert Funded(setup.book, w.ledger, u, w.accts[u]);
      }
    }
  }

  lemma PartyFunded(setup: Setup, w: World, r: Request, next: seq<Acct>, t: State, u: nat)
    requires Inv(setup, w) && Repriced(setup, w, r) && Remade(setup, w, r, next) && Paid(setup, w, r, t)
    requires u == r.maker || u == r.taker
    ensures u < |next| && Funded(setup.book, t, u, next[u])
  {
    assert Funded(setup.book, w.ledger, u, w.accts[u]);
    RemarginedRequired(setup.book, AfterLegs(w.accts, r)[u]);
    assert PostedTo(setup, w, r, Margin(u, EVENT)) == Need(setup, w, r, u);
  }

  lemma RemarginedRequired(book: EventBook, a: Acct)
    requires book.Valid() && Priceable(book, a)
    ensures var b := Remargined(book, a); Priceable(book, b) && b.posted == Required(book, b)
  {
  }

  lemma FillKeepsInterest(setup: Setup, w: World, r: Request, next: seq<Acct>)
    requires setup.book.Valid() && Sized(setup.book, w.accts) && FlatInterest(setup.book, w.accts)
    requires Repriced(setup, w, r) && Remade(setup, w, r, next)
    ensures Sized(setup.book, next) && FlatInterest(setup.book, next)
  {
    var s := AfterLegs(w.accts, r);
    assert forall u :: 0 <= u < |next| ==> next[u].net == s[u].net;
    forall k | 0 <= k < |setup.book.instruments| ensures |next| == |s| && OpenInterest(next, k, |next|) == 0 {
      LegsNetToZero(w.accts, r, k);
      SameInterest(next, s, k, |next|);
    }
  }

  lemma LegShrinks(a: Acct, ticker: nat, order: nat, qty: int, count: int, seqNo: int)
    requires ticker < |a.net|
    ensures var b := ApplyLeg(a, ticker, order, qty, count, seqNo); Shrunk(a, b) && b.version == a.version
  {
  }

  lemma SameOrdersSameIds(a: seq<Acct>, b: seq<Acct>, seen: set<nat>)
    requires |a| == |b| && forall u :: 0 <= u < |a| ==> a[u].orders == b[u].orders
    requires IdsSeen(a, seen) && IdsUnique(a)
    ensures IdsSeen(b, seen) && IdsUnique(b)
  {
  }

  lemma FillKeepsIds(setup: Setup, w: World, r: Request, next: seq<Acct>)
    requires IdsSeen(w.accts, w.seen) && IdsUnique(w.accts)
    requires Repriced(setup, w, r) && Remade(setup, w, r, next)
    ensures IdsSeen(next, w.seen) && IdsUnique(next)
  {
    var a := ApplyLeg(w.accts[r.maker], r.ticker, r.makerOrder, MakerQty(r), r.count, r.globalSeq);
    var s := w.accts[r.maker := a];
    LegShrinks(w.accts[r.maker], r.ticker, r.makerOrder, MakerQty(r), r.count, r.globalSeq);
    ShrunkIds(w.accts, w.seen, r.maker, a);
    LegShrinks(s[r.taker], r.ticker, r.takerOrder, TakerQty(r), r.count, r.globalSeq);
    ShrunkIds(s, w.seen, r.taker, AfterLegs(w.accts, r)[r.taker]);
    SameOrdersSameIds(AfterLegs(w.accts, r), next, w.seen);
  }

  lemma LaterVersions(a: seq<Acct>, b: seq<Acct>, o: nat, v: nat)
    requires |a| == |b| && forall u :: 0 <= u < |a| ==> a[u].orders == b[u].orders && a[u].version <= b[u].version
    requires VersionsAbove(a, o, v)
    ensures VersionsAbove(b, o, v)
  {
  }

  lemma FillKeepsVersions(setup: Setup, w: World, r: Request, next: seq<Acct>, o: nat, v: nat)
    requires Repriced(setup, w, r) && Remade(setup, w, r, next) && VersionsAbove(w.accts, o, v)
    ensures VersionsAbove(next, o, v)
  {
    var a := ApplyLeg(w.accts[r.maker], r.ticker, r.makerOrder, MakerQty(r), r.count, r.globalSeq);
    var s := w.accts[r.maker := a];
    LegShrinks(w.accts[r.maker], r.ticker, r.makerOrder, MakerQty(r), r.count, r.globalSeq);
    ShrunkVersions(w.accts, r.maker, a, o, v);
    LegShrinks(s[r.taker], r.ticker, r.takerOrder, TakerQty(r), r.count, r.globalSeq);
    ShrunkVersions(s, r.taker, AfterLegs(w.accts, r)[r.taker], o, v);
    LaterVersions(AfterLegs(w.accts, r), next, o, v);
  }

  lemma FillKeepsKeys(setup: Setup, w: World, r: Request, next: seq<Acct>, t: State)
    requires KeysFresh(w) && Repriced(setup, w, r) && Remade(setup, w, r, next)
    requires t.keys.Keys <= w.ledger.keys.Keys + {FillKey(r.fill)}
    ensures KeysFresh(World(next, w.applied + {r.fill}, t, w.seen))
  {
    forall o: nat, v: nat | ReleaseKey(o, v) in t.keys ensures o in w.seen && VersionsAbove(next, o, v) {
      assert ReleaseKey(o, v) in w.ledger.keys;
      FillKeepsVersions(setup, w, r, next, o, v);
    }
    forall o: nat | ReserveKey(o) in t.keys ensures o in w.seen {
      assert ReserveKey(o) in w.ledger.keys;
    }
    forall f: nat | FillKey(f) in t.keys ensures f in w.applied + {r.fill} {
      assert FillKey(f) in w.ledger.keys || f == r.fill;
    }
  }

  lemma FillExecuted(setup: Setup, w: World, r: Request, plan: Plan)
    requires Inv(setup, w) && Repriced(setup, w, r) && PlansFill(setup, w, r, plan) && r.fill !in w.applied
    ensures var (after, reply) := Execute(w, plan);
            && Inv(setup, after)
            && if Affordable(setup, w, r) then
                 reply == Applied && after.applied == w.applied + {r.fill} && Paid(setup, w, r, after.ledger)
               else
                 reply == Precondition && after == w
  {
    FreshFillPosted(setup, w, r, plan);
    ExecuteIs(w, plan);
    if Affordable(setup, w, r) {
      var t := LedgerStep(w.ledger, plan.key, plan.entries).0;
      FillKeepsMoney(setup, w, r, plan.accts, t);
      FillKeepsInterest(setup, w, r, plan.accts);
      FillKeepsIds(setup, w, r, plan.accts);
      FillKeepsKeys(setup, w, r, plan.accts, t);
    }
  }

  /**
    A fresh fill is applied exactly when both parties can afford it, and then keeps every
    invariant; otherwise it is refused and changes nothing.
   */
  lemma FillAppliedIffAffordable(setup: Setup, w: World, r: Request)
    requires Inv(setup, w) && Fresh(setup, w, r) && Repriced(setup, w, r)
    ensures var (after, reply) := Execute(w, PlanFill(setup, w, r));
            && Inv(setup, after)
            && if Affordable(setup, w, r) then
                 reply == Applied && after.applied == w.applied + {r.fill} && Paid(setup, w, r, after.ledger)
               else
                 reply == Precondition && after == w
  {
    PlanOfFresh(setup, w, r);
    FillExecuted(setup, w, r, PlanFill(setup, w, r));
  }

  /**
    The fill proof: while both orders are reserved for it, a fill is always applied and neither
    party's cash falls.
   */
  lemma DueFillApplied(setup: Setup, w: World, r: Request)
    requires Inv(setup, w) && Due(setup, w, r)
    ensures var (after, reply) := Execute(w, PlanFill(setup, w, r));
            && reply == Applied && Inv(setup, after) && after.applied == w.applied + {r.fill}
            && forall u :: Balance(after.ledger.rows, Cash(u)) >= Balance(w.ledger.rows, Cash(u))
  {
    DueIsAffordable(setup, w, r);
    FillAppliedIffAffordable(setup, w, r);
  }

  lemma DueIsAffordable(setup: Setup, w: World, r: Request)
    requires Inv(setup, w) && Due(setup, w, r)
    ensures Repriced(setup, w, r) && Affordable(setup, w, r)
    ensures forall u :: PostedTo(setup, w, r, Cash(u)) >= 0
  {
    DueIsPayable(setup, w, r);
    BalanceIsFold(w.ledger.rows, Cash(r.maker));
    BalanceIsFold(w.ledger.rows, Cash(r.taker));
    forall u ensures PostedTo(setup, w, r, Cash(u)) >= 0 { PayableCash(setup, w, r, u); }
  }

  /** Each user's cash and margin together move by the premiums of its legs and nothing else. */
  lemma FillMovesPremium(setup: Setup, w: World, r: Request, user: nat)
    requires Inv(setup, w) && Due(setup, w, r)
    ensures var t := Execute(w, PlanFill(setup, w, r)).0.ledger;
            Balance(t.rows, Cash(user)) + Balance(t.rows, Margin(user, EVENT))
            == Balance(w.ledger.rows, Cash(user)) + Balance(w.ledger.rows, Margin(user, EVENT))
               - Gained(r, user) * UnitPaid(setup, r)
  {
    DueIsAffordable(setup, w, r);
    FillAppliedIffAffordable(setup, w, r);
    PaidMovesPremium(setup, w, r, Execute(w, PlanFill(setup, w, r)).0.ledger, user);
  }

  lemma PaidMovesPremium(setup: Setup, w: World, r: Request, t: State, user: nat)
    requires Repriced(setup, w, r) && Paid(setup, w, r, t)
    ensures Balance(t.rows, Cash(user)) + Balance(t.rows, Margin(user, EVENT))
            == Balance(w.ledger.rows, Cash(user)) + Balance(w.ledger.rows, Margin(user, EVENT))
               - Gained(r, user) * UnitPaid(setup, r)
  {
  }

  /**
    Why the worker waits: a buyer with nothing locked and no cash is refused, whatever the
    order once was.
   */
  lemma UnreservedBuyerRefused(setup: Setup, w: World, r: Request)
    requires Inv(setup, w) && Fresh(setup, w, r) && Repriced(setup, w, r) && r.maker != r.taker
    requires TakerQty(r) > 0 && UnitPaid(setup, r) > 0
    requires w.accts[r.taker].posted == 0 && Balance(w.ledger.rows, Cash(r.taker)) == 0
    ensures Execute(w, PlanFill(setup, w, r)) == (w, Precondition)
  {
    FillAppliedIffAffordable(setup, w, r);
    assert Need(setup, w, r, r.taker) >= 0;
    Product(TakerQty(r), UnitPaid(setup, r));
  }

  lemma Product(a: int, b: int)
    requires a > 0 && b > 0
    ensures a * b > 0
  {
  }

  lemma FillKeepsInv(setup: Setup, w: World, r: Request)
    requires Inv(setup, w) && r.Fill? && Guard(w, r)
    ensures Inv(setup, Execute(w, PlanFill(setup, w, r)).0)
  {
    if PlanFill(setup, w, r).Go? {
      PlannedIsFresh(setup, w, r);
      DueFillApplied(setup, w, r);
    }
  }
}
