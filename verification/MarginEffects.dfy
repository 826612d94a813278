/**
  What reserves, releases and fills leave in the margin tables, said without their plans: the
  order that joined, the order that shrank, the position that moved, and everything else as
  it was.
 */
module MarginEffects {
  import opened Common
  import opened Payoffs
  import opened Stress
  import opened WorstCase
  import opened Standalone
  import opened Portfolio
  import opened Ledger
  import opened LedgerRuns
  import opened MarginExec
  import opened FillPostings
  import opened MarginRuns
  import opened FillRuns
  import opened Exchange

  /** Every account but this user's is as it was, and the user's version is one further. */
  predicate OnlyUser(before: seq<Acct>, after: seq<Acct>, user: nat) {
    && |after| == |before| && user < |before| && after[user].version == before[user].version + 1
    && forall u :: 0 <= u < |before| && u != user ==> after[u] == before[u]
  }

  // ---------------------------------------------------------------- reserving

  /** `orders` with one more at the end, for `delta` units at `price`, that no fill has met yet. */
  predicate OrderJoined(orders: seq<Reserved>, after: seq<Reserved>, id: nat, ticker: nat, delta: int, price: int) {
    && |after| == |orders| + 1 && (forall j :: 0 <= j < |orders| ==> after[j] == orders[j])
    && var o := after[|orders|];
       o.id == id && o.ticker == ticker && o.remaining == delta && o.price == price && o.lastSeq == 0
  }

  /**
    An order is approved for all of its units: it joins the account's orders with its whole
    signed count at its price, and the margin it is answered with is what the account posts.
   */
  lemma ReserveAddsOrder(setup: Setup, w: World, r: Request)
    requires setup.book.Valid() && r.Reserve?
    ensures var (after, reply) := Execute(w, PlanReserve(setup, w, r));
            reply.Approved? ==>
              && r.user < |w.accts| && r.count > 0
              && if Has(w.accts[r.user].orders, r.order) then after == w
                 else
                   && OnlyUser(w.accts, after.accts, r.user)
                   && var a, b := w.accts[r.user], after.accts[r.user];
                      && b.net == a.net
                      && OrderJoined(a.orders, b.orders, r.order, r.ticker, SignedDelta(r.side, r.action, r.count),
                                     r.price)
                      && reply == Approved(a.posted, b.posted)
                      && Priceable(setup.book, b) && b.posted == Required(setup.book, b)
  {
  }

  /** Of an order that has joined, exactly the fills of no more than its count at its limit or better are covered. */
  lemma JoinedIsCovered(a: Acct, b: Acct, r: Request, n: int, price: int)
    requires r.Reserve? && r.count > 0 && n > 0 && !Has(a.orders, r.order)
    requires OrderJoined(a.orders, b.orders, r.order, r.ticker, SignedDelta(r.side, r.action, r.count), r.price)
    ensures Covered(b, r.ticker, r.order, SignedDelta(r.side, r.action, n), price)
            <==> n <= r.count && (if SignedDelta(r.side, r.action, n) > 0 then price <= r.price else price >= r.price)
  {
    assert b.orders[|a.orders|].id == r.order;
    assert forall k :: 0 <= k < |a.orders| ==> b.orders[k] == a.orders[k] && a.orders[k].id != r.order;
    assert Find(b.orders, r.order) == |a.orders|;
  }

  /** An account that holds nothing and has one order. */
  predicate Lone(book: EventBook, b: Acct, ticker: nat, delta: int, price: int) {
    && b.net == Zeros(|book.instruments|) && ticker < |book.instruments|
    && |b.orders| == 1 && b.orders[0].ticker == ticker && b.orders[0].remaining == delta && b.orders[0].price == price
  }

  lemma LoneStress(book: EventBook, b: Acct, ticker: nat, delta: int, price: int, w: Scenario)
    requires Lone(book, b, ticker, delta, price) && Priceable(book, b)
    ensures StressIn(book, w, b.net, PriceOrders(book, Working(b.orders)))
            == Max(0, delta * (book.instruments[ticker].payoff.ValueOfPrice(price) - Values(book, w)[ticker]))
  {
    DotZeros(b.net, Values(book, w), |b.net|);
    var priced := PriceOrders(book, Working(b.orders));
    assert priced == [Priced(ticker, delta, book.instruments[ticker].payoff.ValueOfPrice(price))];
    HurtOne(Values(book, w), priced[0]);
  }

  /** A lone buying order locks its whole premium: the contract may pay nothing. */
  lemma LoneBuyLocksPremium(book: EventBook, b: Acct, ticker: nat, count: int, price: int)
    requires book.Valid() && count > 0 && Lone(book, b, ticker, count, price) && Priceable(book, b)
    ensures Required(book, b) == count * book.instruments[ticker].payoff.ValueOfPrice(price)
  {
    var unit := book.instruments[ticker].payoff.ValueOfPrice(price);
    assert Acceptable(book, Working(b.orders)[0]);
    PriceBounds(book, ticker, price);
    var m, priced := count * unit, PriceOrders(book, Working(b.orders));
    forall w | Possible(book, w) ensures StressIn(book, w, b.net, priced) <= m {
      LoneStress(book, b, ticker, count, price, w);
      if w.AtOutcome? { ValueBounds(book, ticker, w.x); }
      BuyHurtsAtMost(count, unit, Values(book, w)[ticker]);
    }
    LoneStress(book, b, ticker, count, price, AtTrade);
    BuyHurtsAtMost(count, unit, 0);
    assert Possible(book, AtTrade) && StressIn(book, AtTrade, b.net, priced) == m;
    RequiredIs(book, b, m);
  }

  lemma BuyHurtsAtMost(count: int, unit: int, v: int)
    requires count > 0 && unit >= 0 && v >= 0
    ensures Max(0, count * (unit - v)) <= count * unit && Max(0, count * (unit - 0)) == count * unit
  {
    assert count * (unit - v) == count * unit - count * v;
    assert count * v >= 0 && count * unit >= 0;
  }

  /** A lone selling order locks what its premium leaves of the contract's maximum, when some outcome pays that. */
  lemma LoneSellLocksRest(book: EventBook, b: Acct, ticker: nat, count: int, price: int, x: Outcome)
    requires book.Valid() && count > 0 && Lone(book, b, ticker, -count, price) && Priceable(book, b)
    requires var p := book.instruments[ticker].payoff; book.Contractual(x) && p.ValueAt(x) == Ok(p.MaxValue())
    ensures var p := book.instruments[ticker].payoff;
            Required(book, b) == count * (p.MaxValue() - p.ValueOfPrice(price))
  {
    var unit, most := book.instruments[ticker].payoff.ValueOfPrice(price), book.instruments[ticker].payoff.MaxValue();
    assert Acceptable(book, Working(b.orders)[0]);
    PriceBounds(book, ticker, price);
    var m, priced := count * (most - unit), PriceOrders(book, Working(b.orders));
    forall w | Possible(book, w) ensures StressIn(book, w, b.net, priced) <= m {
      LoneStress(book, b, ticker, -count, price, w);
      if w.AtOutcome? { ValueBounds(book, ticker, w.x); }
      SellHurtsAtMost(count, unit, Values(book, w)[ticker], most);
    }
    LoneStress(book, b, ticker, -count, price, AtOutcome(x));
    SellHurtsAtMost(count, unit, most, most);
    assert Possible(book, AtOutcome(x)) && StressIn(book, AtOutcome(x), b.net, priced) == m;
    RequiredIs(book, b, m);
  }

  lemma SellHurtsAtMost(count: int, unit: int, v: int, most: int)
    requires count > 0 && 0 <= unit <= most && 0 <= v <= most
    ensures Max(0, -count * (unit - v)) <= count * (most - unit)
    ensures Max(0, -count * (unit - most)) == count * (most - unit)
  {
    assert -count * (unit - v) == count * (v - unit);
    assert count * (most - unit) - count * (v - unit) == count * (most - v);
    assert count * (most - v) >= 0 && count * (most - unit) >= 0;
    assert -count * (unit - most) == count * (most - unit);
  }

  lemma Commute(a: int, b: int)
    ensures a * b == b * a
  {
  }

  lemma LonePriced(book: EventBook, b: Acct, ticker: nat, delta: int, price: int)
    requires Lone(book, b, ticker, delta, price) && Priceable(book, b)
    ensures PriceOrders(book, Working(b.orders))
            == [Priced(ticker, delta, book.instruments[ticker].payoff.ValueOfPrice(price))]
  {
  }

  lemma LoneStandalone(instruments: seq<Instrument>, net: seq<int>, i: nat, delta: int, unit: int)
    requires |net| == |instruments| && i < |net| && delta != 0 && forall j :: 0 <= j < |net| ==> net[j] == 0
    ensures StandaloneOf(instruments, net, [Priced(i, delta, unit)])
            == if delta > 0 then delta * unit else -delta * (instruments[i].payoff.MaxValue() - unit)
  {
    var orders := [Priced(i, delta, unit)];
    Commute(unit, delta);
    Commute(instruments[i].payoff.MaxValue() - unit, -delta);
    assert orders[..0] == [];
    assert Units(orders) == Abs(delta);
    OneContractStandalone(instruments, net, orders, i, delta > 0, unit);
  }

  /** For a lone order separate margin is exactly the worst case. */
  lemma LoneOrderLocksTheSame(book: EventBook, b: Acct, ticker: nat, delta: int, price: int, x: Outcome)
    requires book.Valid() && delta != 0 && Lone(book, b, ticker, delta, price) && Priceable(book, b)
    requires var p := book.instruments[ticker].payoff; book.Contractual(x) && p.ValueAt(x) == Ok(p.MaxValue())
    ensures StandaloneOf(book.instruments, b.net, PriceOrders(book, Working(b.orders))) == Required(book, b)
  {
    LonePriced(book, b, ticker, delta, price);
    LoneStandalone(book.instruments, b.net, ticker, delta, book.instruments[ticker].payoff.ValueOfPrice(price));
    if delta > 0 {
      LoneBuyLocksPremium(book, b, ticker, delta, price);
    } else {
      LoneSellLocksRest(book, b, ticker, -delta, price, x);
    }
  }

  predicate Empty(a: Acct) { a.orders == [] && forall t :: 0 <= t < |a.net| ==> a.net[t] == 0 }

  /**
    A user with no position and no order may buy exactly what the user's cash pays for, unit
    by unit; an approved order takes its whole premium out of CASH into MARGIN.
   */
  lemma EmptyAccountBuys(setup: Setup, w: World, r: Request)
    requires Inv(setup, w) && r.Reserve? && r.order !in w.seen && r.user < |w.accts| && Empty(w.accts[r.user])
    requires setup.enabled && setup.portfolio && r.count > 0 && ValidSideAction(r.side, r.action)
    requires r.ticker < |setup.book.instruments| && setup.book.instruments[r.ticker].Accepts(r.price)
    requires SignedDelta(r.side, r.action, r.count) > 0
    ensures var (after, reply) := Execute(w, PlanReserve(setup, w, r));
            var premium := r.count * setup.book.instruments[r.ticker].payoff.ValueOfPrice(r.price);
            var cash := Balance(w.ledger.rows, Cash(r.user));
            && (reply.Approved? <==> premium <= cash)
            && (reply.Approved? ==>
                  && Balance(after.ledger.rows, Cash(r.user)) == cash - premium
                  && Balance(after.ledger.rows, Margin(r.user, EVENT)) == premium)
            && (!reply.Approved? ==> after == w && reply == RejectedInsufficient(0, premium))
  {
    var plan := PlanReserve(setup, w, r);
    EmptyPlanned(setup, w, r);
    ReservePlanned(setup, w, r);
    LoneBuyLocksPremium(setup.book, plan.accts[r.user], r.ticker, r.count, r.price);
    EmptyHasNothingPosted(setup, w, r.user);
    EmptyPlanPays(w, r, plan, plan.accts[r.user].posted);
  }

  lemma EmptyHasNothingPosted(setup: Setup, w: World, user: nat)
    requires Inv(setup, w) && user < |w.accts| && Empty(w.accts[user])
    ensures w.accts[user].posted == 0 && Balance(w.ledger.rows, Margin(user, EVENT)) == 0
    ensures Cash(user) in w.ledger.accounts
  {
    assert Funded(setup.book, w.ledger, user, w.accts[user]);
    assert w.accts[user].net == Zeros(|setup.book.instruments|);
    BlankNeedsNothing(setup.book, w.accts[user]);
  }

  lemma EmptyPlanPays(w: World, r: Request, plan: Plan, premium: int)
    requires r.Reserve? && Sound(w.ledger) && plan.Go? && plan.key !in w.ledger.keys && plan.key == ReserveKey(r.order)
    requires plan.entries == MoveEntries(r.user, premium) && premium >= 0
    requires plan.reply == Approved(0, premium) && plan.refused == RejectedInsufficient(0, premium)
    requires Balance(w.ledger.rows, Margin(r.user, EVENT)) == 0 && Cash(r.user) in w.ledger.accounts
    ensures var (after, reply) := Execute(w, plan);
            var cash := Balance(w.ledger.rows, Cash(r.user));
            && (reply.Approved? <==> premium <= cash)
            && (reply.Approved? ==>
                  && Balance(after.ledger.rows, Cash(r.user)) == cash - premium
                  && Balance(after.ledger.rows, Margin(r.user, EVENT)) == premium)
            && (!reply.Approved? ==> after == w && reply == RejectedInsufficient(0, premium))
  {
    MoveStep(w.ledger, plan.key, r.user, premium);
  }

  lemma EmptyPlanned(setup: Setup, w: World, r: Request)
    requires setup.book.Valid() && Sized(setup.book, w.accts)
    requires r.Reserve? && r.user < |w.accts| && Empty(w.accts[r.user])
    requires setup.enabled && setup.portfolio && r.count > 0 && ValidSideAction(r.side, r.action)
    requires r.ticker < |setup.book.instruments| && setup.book.instruments[r.ticker].Accepts(r.price)
    ensures var plan := PlanReserve(setup, w, r);
            && plan.Go? && r.user < |plan.accts| && w.accts[r.user].net == Zeros(|setup.book.instruments|)
            && Lone(setup.book, plan.accts[r.user], r.ticker, SignedDelta(r.side, r.action, r.count), r.price)
  {
    assert w.accts[r.user].net == Zeros(|setup.book.instruments|);
  }

  // ---------------------------------------------------------------- what is left of an order

  /** `rest` is what stays of `o` when `n` of its units are kept: nothing, or the same order for `n` units. */
  predicate Leaves(o: Reserved, n: int, rest: seq<Reserved>) {
    if n <= 0 then rest == []
    else
      && |rest| == 1 && rest[0].id == o.id && rest[0].ticker == o.ticker && rest[0].price == o.price
      && Abs(rest[0].remaining) == n && (rest[0].remaining > 0 <==> o.remaining > 0)
  }

  /** The first order `id` gives way to `rest`; the other orders stay, in order. */
  predicate Replaced(before: seq<Reserved>, after: seq<Reserved>, id: nat, rest: seq<Reserved>)
    requires Has(before, id)
  {
    var j := Find(before, id);
    after == before[..j] + rest + before[j + 1..]
  }

  function RestAt(after: seq<Reserved>, j: nat, n: int): seq<Reserved> {
    if n <= 0 || j >= |after| then [] else [after[j]]
  }

  lemma KeepLeaves(orders: seq<Reserved>, id: nat, n: int, seqNo: int)
    requires Has(orders, id) && orders[Find(orders, id)].remaining != 0
    ensures var j := Find(orders, id);
            var after := Keep(orders, j, n, seqNo);
            var rest := RestAt(after, j, n);
            && Replaced(orders, after, id, rest) && Leaves(orders[j], n, rest)
            && (n > 0 ==> rest[0].lastSeq == Max(orders[j].lastSeq, seqNo))
  {
    var j := Find(orders, id);
    if n > 0 { SignedUnits(n, orders[j].remaining); }
  }

  lemma SignedUnits(n: int, q: int)
    requires n > 0 && q != 0
    ensures Abs(n * Sign(q)) == n && (n * Sign(q) > 0 <==> q > 0)
  {
  }

  // ---------------------------------------------------------------- releasing

  /** The release is no older than the last fill its order met. */
  predicate Stale(w: World, r: Request) {
    && r.ReleaseOrder? && r.user < |w.accts| && r.keep >= 0 && Has(w.accts[r.user].orders, r.order)
    && var o := w.accts[r.user].orders[Find(w.accts[r.user].orders, r.order)];
       r.globalSeq < o.lastSeq
  }

  /** A release is answered as stale exactly when it is older than the last fill of its order, and changes nothing. */
  lemma StaleReleaseRefused(setup: Setup, w: World, r: Request)
    requires setup.book.Valid() && r.ReleaseOrder?
    ensures Execute(w, PlanRelease(setup, w, r)).1 == RejectedStale <==> Stale(w, r)
    ensures Stale(w, r) ==> Execute(w, PlanRelease(setup, w, r)).0 == w
  {
  }

  /**
    A release that is not stale keeps the units asked for, or the whole order when that is
    less, and touches no other order, no position and no other account.
   */
  lemma ReleaseKeepsAsked(setup: Setup, w: World, r: Request)
    requires Inv(setup, w) && r.ReleaseOrder? && r.user < |w.accts| && r.keep >= 0 && !Stale(w, r)
    requires Has(w.accts[r.user].orders, r.order)
    ensures var (after, reply) := Execute(w, PlanRelease(setup, w, r));
            && reply.Approved? && OnlyUser(w.accts, after.accts, r.user)
            && var a, b := w.accts[r.user], after.accts[r.user];
               var o := a.orders[Find(a.orders, r.order)];
               && b.net == a.net && Priceable(setup.book, b) && b.posted == Required(setup.book, b)
               && exists rest: seq<Reserved> ::
                    Replaced(a.orders, b.orders, r.order, rest) && Leaves(o, Min(r.keep, Abs(o.remaining)), rest)
  {
    var a := w.accts[r.user];
    var j := Find(a.orders, r.order);
    assert Funded(setup.book, w.ledger, r.user, a);
    assert Acceptable(setup.book, Working(a.orders)[j]);
    var n := Min(r.keep, Abs(a.orders[j].remaining));
    KeepLowersRequired(setup.book, a, j, n, a.orders[j].lastSeq);
    ReleaseAccepted(setup, w, r);
    KeepLeaves(a.orders, r.order, n, a.orders[j].lastSeq);
    var b := PlanRelease(setup, w, r).accts[r.user];
    assert Replaced(a.orders, b.orders, r.order, RestAt(b.orders, j, n));
  }

  // ---------------------------------------------------------------- filling

  /** One account before and after one leg of a fill of `count` units. */
  ghost predicate LegDone(a: Acct, b: Acct, ticker: nat, order: nat, delta: int, count: int, seqNo: int)
    requires ticker < |a.net|
  {
    && |b.net| == |a.net| && b.net[ticker] == a.net[ticker] + delta
    && (forall t :: 0 <= t < |a.net| && t != ticker ==> b.net[t] == a.net[t])
    && if !Has(a.orders, order) then b.orders == a.orders
       else
         var o := a.orders[Find(a.orders, order)];
         exists rest: seq<Reserved> ::
           && Replaced(a.orders, b.orders, order, rest) && Leaves(o, Abs(o.remaining) - count, rest)
           && (rest != [] ==> rest[0].lastSeq == Max(o.lastSeq, seqNo))
  }

  lemma LegIsDone(a: Acct, ticker: nat, order: nat, delta: int, count: int, seqNo: int)
    requires ticker < |a.net| && (Has(a.orders, order) ==> a.orders[Find(a.orders, order)].remaining != 0)
    ensures LegDone(a, ApplyLeg(a, ticker, order, delta, count, seqNo), ticker, order, delta, count, seqNo)
  {
    if Has(a.orders, order) {
      var j := Find(a.orders, order);
      var n := Abs(a.orders[j].remaining) - count;
      var b := ApplyLeg(a, ticker, order, delta, count, seqNo);
      KeepLeaves(a.orders, order, n, seqNo);
      assert Replaced(a.orders, b.orders, order, RestAt(b.orders, j, n));
    }
  }

  lemma PriceableRemain(book: EventBook, a: Acct, order: nat)
    requires Priceable(book, a) && Has(a.orders, order)
    ensures a.orders[Find(a.orders, order)].remaining != 0
  {
    assert Acceptable(book, Working(a.orders)[Find(a.orders, order)]);
  }

  /** Both legs of a fill between two users, and everyone else as before. */
  ghost predicate BothDone(accts: seq<Acct>, next: seq<Acct>, r: Request)
    requires r.Fill? && r.maker < |accts| && r.taker < |accts|
    requires r.ticker < |accts[r.maker].net| && r.ticker < |accts[r.taker].net|
  {
    && |next| == |accts|
    && LegDone(accts[r.maker], next[r.maker], r.ticker, r.makerOrder,
               SignedDelta(r.makerSide, r.makerAction, r.count), r.count, r.globalSeq)
    && LegDone(accts[r.taker], next[r.taker], r.ticker, r.takerOrder,
               SignedDelta(r.takerSide, r.takerAction, r.count), r.count, r.globalSeq)
    && forall u :: 0 <= u < |accts| && u != r.maker && u != r.taker ==> next[u] == accts[u]
  }

  lemma MakerLegDone(setup: Setup, w: World, r: Request)
    requires Inv(setup, w) && Fresh(setup, w, r)
    ensures var a := w.accts[r.maker];
            LegDone(a, ApplyLeg(a, r.ticker, r.makerOrder, MakerQty(r), r.count, r.globalSeq), r.ticker, r.makerOrder,
                    SignedDelta(r.makerSide, r.makerAction, r.count), r.count, r.globalSeq)
  {
    var a := w.accts[r.maker];
    assert Funded(setup.book, w.ledger, r.maker, a);
    if Has(a.orders, r.makerOrder) { PriceableRemain(setup.book, a, r.makerOrder); }
    SignRulesAgree(r.makerSide, r.makerAction, r.count, r.price);
    LegIsDone(a, r.ticker, r.makerOrder, MakerQty(r), r.count, r.globalSeq);
  }

  lemma TakerLegDone(setup: Setup, w: World, r: Request)
    requires Inv(setup, w) && Fresh(setup, w, r)
    ensures var a := w.accts[r.taker];
            LegDone(a, ApplyLeg(a, r.ticker, r.takerOrder, TakerQty(r), r.count, r.globalSeq), r.ticker, r.takerOrder,
                    SignedDelta(r.takerSide, r.takerAction, r.count), r.count, r.globalSeq)
  {
    var a := w.accts[r.taker];
    assert Funded(setup.book, w.ledger, r.taker, a);
    if Has(a.orders, r.takerOrder) { PriceableRemain(setup.book, a, r.takerOrder); }
    SignRulesAgree(r.takerSide, r.takerAction, r.count, r.price);
    LegIsDone(a, r.ticker, r.takerOrder, TakerQty(r), r.count, r.globalSeq);
  }

  /** Margins and versions are no part of what a leg does. */
  lemma SameTables(a: Acct, s: Acct, b: Acct, ticker: nat, order: nat, delta: int, count: int, seqNo: int)
    requires ticker < |a.net| && LegDone(a, s, ticker, order, delta, count, seqNo)
    requires b.net == s.net && b.orders == s.orders
    ensures LegDone(a, b, ticker, order, delta, count, seqNo)
  {
    if Has(a.orders, order) {
      var o := a.orders[Find(a.orders, order)];
      var rest: seq<Reserved> :| Replaced(a.orders, s.orders, order, rest)
                                 && Leaves(o, Abs(o.remaining) - count, rest)
                                 && (rest != [] ==> rest[0].lastSeq == Max(o.lastSeq, seqNo));
      assert Replaced(a.orders, b.orders, order, rest);
    }
  }

  lemma RemadeIsDone(setup: Setup, w: World, r: Request, next: seq<Acct>)
    requires Inv(setup, w) && Fresh(setup, w, r) && Repriced(setup, w, r) && Remade(setup, w, r, next)
    requires r.maker != r.taker
    ensures BothDone(w.accts, next, r)
  {
    var s := AfterLegs(w.accts, r);
    MakerLegDone(setup, w, r);
    SameTables(w.accts[r.maker], s[r.maker], next[r.maker], r.ticker, r.makerOrder,
               SignedDelta(r.makerSide, r.makerAction, r.count), r.count, r.globalSeq);
    TakerLegDone(setup, w, r);
    SameTables(w.accts[r.taker], s[r.taker], next[r.taker], r.ticker, r.takerOrder,
               SignedDelta(r.takerSide, r.takerAction, r.count), r.count, r.globalSeq);
  }

  /**
    A fill between two users moves each position by its own signed count, takes the count off
    each order on its own side, and touches nobody else.
   */
  lemma FillMovesBoth(setup: Setup, w: World, r: Request)
    requires Inv(setup, w) && r.Fill? && r.maker != r.taker
    ensures var (after, reply) := Execute(w, PlanFill(setup, w, r));
            reply == Applied ==>
              && r.maker < |w.accts| && r.taker < |w.accts| && r.ticker < |setup.book.instruments|
              && BothDone(w.accts, after.accts, r)
  {
    var plan := PlanFill(setup, w, r);
    if plan.Go? {
      PlannedIsFresh(setup, w, r);
      PlannedMovesBoth(setup, w, r, plan);
    }
  }

  lemma PlannedMovesBoth(setup: Setup, w: World, r: Request, plan: Plan)
    requires Inv(setup, w) && Fresh(setup, w, r) && Repriced(setup, w, r) && PlansFill(setup, w, r, plan)
    requires r.maker != r.taker
    ensures Execute(w, plan).1 == Applied ==> BothDone(w.accts, Execute(w, plan).0.accts, r)
  {
    RemadeIsDone(setup, w, r, plan.accts);
    ExecuteIs(w, plan);
  }

  /** So a release older than a fill its order survived is stale. */
  lemma FillMakesReleaseStale(setup: Setup, w: World, r: Request, release: Request)
    requires Inv(setup, w) && r.Fill? && r.maker != r.taker && r.maker < |w.accts|
    requires Execute(w, PlanFill(setup, w, r)).1 == Applied && Has(w.accts[r.maker].orders, r.makerOrder)
    requires r.count < Abs(w.accts[r.maker].orders[Find(w.accts[r.maker].orders, r.makerOrder)].remaining)
    requires release.ReleaseOrder? && release.user == r.maker && release.order == r.makerOrder && release.keep >= 0
    requires release.globalSeq < r.globalSeq
    ensures var after := Execute(w, PlanFill(setup, w, r)).0;
            Execute(after, PlanRelease(setup, after, release)) == (after, RejectedStale)
  {
    var after := Execute(w, PlanFill(setup, w, r)).0;
    FillMovesBoth(setup, w, r);
    SurvivorRemembers(w.accts[r.maker], after.accts[r.maker], r.ticker, r.makerOrder,
                      SignedDelta(r.makerSide, r.makerAction, r.count), r.count, r.globalSeq);
    StaleReleaseRefused(setup, after, release);
  }

  lemma SurvivorRemembers(a: Acct, b: Acct, ticker: nat, order: nat, delta: int, count: int, seqNo: int)
    requires ticker < |a.net| && LegDone(a, b, ticker, order, delta, count, seqNo) && Has(a.orders, order)
    requires count < Abs(a.orders[Find(a.orders, order)].remaining)
    ensures Has(b.orders, order) && b.orders[Find(b.orders, order)].lastSeq >= seqNo
    ensures Abs(b.orders[Find(b.orders, order)].remaining) == Abs(a.orders[Find(a.orders, order)].remaining) - count
  {
    var j := Find(a.orders, order);
    var o := a.orders[j];
    var rest: seq<Reserved> :| Replaced(a.orders, b.orders, order, rest)
                               && Leaves(o, Abs(o.remaining) - count, rest)
                               && (rest != [] ==> rest[0].lastSeq == Max(o.lastSeq, seqNo));
    assert b.orders[j] == rest[0];
    assert forall k :: 0 <= k < j ==> b.orders[k] == a.orders[k] && a.orders[k].id != order;
    assert Find(b.orders, order) == j;
  }
}
