/**
  What a subscriber shows against the engine's own book. The engine announces a book only when its
  depth tracker notices a change, so a level behind the best 25 can change without a word.
 */
module BookFeeds {
  import opened Common
  import opened Matching
  import opened OrderBooks
  import opened BookStream
  import opened MatchingEngines

  /** The snapshot `apply_snapshot` takes: the best `limit` levels of each side. */
  function SnapshotOf(b: BookState, limit: nat): Depth {
    map level | level in DepthOf(b) && level.price >= 0
        && |BetterPrices(level.bid, SideOf(b, level.bid), level.price)| < limit :: DepthOf(b)[level]
  }

  /** What was last announced at the level is what the book has. */
  predicate LevelInStep(m: Market, level: Level) { QtyAt(m.previous, level) == BookQty(m.book, level) }

  ghost predicate InStep(m: Market) { forall level :: LevelInStep(m, level) }

  /**
    A subscription to a market: the snapshot is taken in state `m`, the deltas from the `a`-th on are
    buffered until the `j`-th, and it has received everything published up to state `later`.
   */
  function Shown(snapshot: Depth, m: Market, a: nat, j: nat, later: Market): Depth
    requires a <= j <= |later.deltas|
  {
    ClientDepth(snapshot, m.contractSeq, later.deltas, a, j, |later.deltas|)
  }

  predicate DeltaSent(m: Market, j: nat, later: Market, level: Level)
    requires Extends(m, later) && j <= |later.deltas|
  {
    Touches(later.deltas[Min(|m.deltas|, j)..], level)
  }

  /** The counter of the snapshot splits the stream of deltas where the snapshot was taken. */
  lemma SnapshotSplits(m: Market, later: Market)
    requires MarketOk(m) && Extends(m, later)
    ensures SplitsAt(later.deltas, m.contractSeq, |m.deltas|)
  {
    forall i | 0 <= i < |m.deltas| ensures later.deltas[i].seqNo <= m.contractSeq {
      assert later.deltas[i] == m.deltas[i];
    }
  }

  /**
    Level by level, exactly: the subscriber shows the book's quantity if and only if, a delta for the
    level having been sent, its last one still holds, or, none having been sent, the snapshot does.
   */
  lemma SubscriberSeesIff(snapshot: Depth, m: Market, a: nat, j: nat, later: Market, level: Level)
    requires MarketOk(m) && MarketOk(later) && Extends(m, later) && a <= |m.deltas| && a <= j <= |later.deltas|
    ensures QtyAt(Shown(snapshot, m, a, j, later), level) == BookQty(later.book, level)
            <==> if DeltaSent(m, j, later, level) then LevelInStep(later, level)
                 else QtyAt(snapshot, level) == BookQty(later.book, level)
  {
    SnapshotSplits(m, later);
    var t := |later.deltas|;
    assert later.deltas[..t] == later.deltas
           && later.deltas[Min(|m.deltas|, j)..t] == later.deltas[Min(|m.deltas|, j)..];
    LevelShown(snapshot, m.contractSeq, later.deltas, |m.deltas|, a, j, t, level);
  }

  /**
    A subscriber that joined with a full snapshot while the engine was in step shows the whole book
    if and only if the engine is in step where it stands, older deltas sent after the snapshot included.
   */
  lemma StreamConvergesIff(snapshot: Depth, m: Market, a: nat, j: nat, later: Market)
    requires MarketOk(m) && MarketOk(later) && Extends(m, later) && a <= |m.deltas| && a <= j <= |later.deltas|
    requires InStep(m) && forall level :: QtyAt(snapshot, level) == BookQty(m.book, level)
    ensures (forall level :: QtyAt(Shown(snapshot, m, a, j, later), level) == BookQty(later.book, level))
            <==> InStep(later)
  {
    forall level ensures QtyAt(Shown(snapshot, m, a, j, later), level) == BookQty(later.book, level)
        <==> LevelInStep(later, level) {
      SubscriberSeesIff(snapshot, m, a, j, later, level);
      if !DeltaSent(m, j, later, level) { UnsentStays(m, j, later, level); }
      assert LevelInStep(m, level);
    }
  }

  /** A level that no delta touches is announced as it was where the snapshot was taken. */
  lemma UnsentStays(m: Market, j: nat, later: Market, level: Level)
    requires MarketOk(m) && MarketOk(later) && Extends(m, later) && j <= |later.deltas|
             && !DeltaSent(m, j, later, level)
    ensures QtyAt(later.previous, level) == QtyAt(m.previous, level)
  {
    var p, t := |m.deltas|, |later.deltas|;
    TouchesLonger(later.deltas, Min(p, j), p, t, level);
    assert later.deltas[Min(p, j)..t] == later.deltas[Min(p, j)..];
    UntouchedStays(later.deltas, p, t, level);
    assert later.deltas[..p] == m.deltas && later.deltas[..t] == later.deltas;
  }

  /** A level the snapshot does not carry stays wrong while the book has it and no delta for it is sent. */
  lemma CutLevelStaysWrong(m: Market, limit: nat, a: nat, j: nat, later: Market, level: Level)
    requires MarketOk(m) && MarketOk(later) && Extends(m, later) && a <= |m.deltas| && a <= j <= |later.deltas|
    requires level !in SnapshotOf(m.book, limit) && !DeltaSent(m, j, later, level) && BookQty(later.book, level) != 0
    ensures QtyAt(Shown(SnapshotOf(m.book, limit), m, a, j, later), level) != BookQty(later.book, level)
  {
    SubscriberSeesIff(SnapshotOf(m.book, limit), m, a, j, later, level);
  }

  // ---------------------------------------------------------------- when the engine stays in step

  /**
    After an operation the engine is in step if and only if it noticed something, or
    the book is what it announced last.
   */
  lemma NotifyInStepIff(m: Market, book: BookState, events: nat, noticed: bool)
    ensures InStep(Notify(m, book, events, noticed))
            <==> noticed || forall level :: QtyAt(m.previous, level) == BookQty(book, level)
  {
    var after := Notify(m, book, events, noticed);
    if noticed {
      forall level ensures LevelInStep(after, level) { DepthShows(book, level); }
    } else {
      assert forall level :: LevelInStep(after, level) <==> QtyAt(m.previous, level) == BookQty(book, level);
    }
  }

  /** At most 25 prices on either side. */
  predicate Shallow(b: BookState) { |Prices(b.bids)| <= TRACKED && |Prices(b.asks)| <= TRACKED }

  lemma SmallerSet(a: set<nat>, b: set<nat>)
    requires a <= b
    ensures |a| <= |b|
  {
    assert b == a + (b - a);
  }

  /** In a side of at most 25 prices every one of them is visible. */
  lemma AllVisible(bid: bool, side: seq<Resting>, price: nat)
    requires |Prices(side)| <= TRACKED && price in Prices(side)
    ensures Visible(bid, side, price)
  {
    SmallerSet(BetterPrices(bid, side, price), Prices(side) - {price});
  }

  lemma SameBetter(bid: bool, before: seq<Resting>, after: seq<Resting>, price: nat)
    requires Prices(after) == Prices(before) + {price}
    ensures BetterPrices(bid, before, price) == BetterPrices(bid, after, price)
  {
  }

  lemma InsertPrices(ask: bool, side: seq<Resting>, e: Resting)
    requires Sorted(ask, side) && Positive(side) && e.qty > 0
    ensures Prices(Insert(ask, side, e)) == Prices(side) + {e.price}
  {
    InsertKeepsSorted(ask, side, e);
    forall p ensures p in Prices(Insert(ask, side, e)) <==> p in Prices(side) + {e.price} {
      if p in Prices(side) {
        var x :| x in side && x.price == p;
        assert x in Insert(ask, side, e);
      }
      if p == e.price { assert e in Insert(ask, side, e); }
    }
  }

  /** An order that rests without trading in a shallow book is noticed. */
  lemma RestingNoticed(b: BookState, o: Incoming, e: Resting)
    requires GoodBook(b) && e.qty > 0 && e.price == o.price
    requires Shallow(if o.buy then b.(bids := Insert(false, b.bids, e)) else b.(asks := Insert(true, b.asks, e)))
    ensures Visible(o.buy, SideOf(b, o.buy), o.price)
  {
    var side := SideOf(b, o.buy);
    var after := Insert(!o.buy, side, e);
    InsertPrices(!o.buy, side, e);
    AllVisible(o.buy, after, o.price);
    SameBetter(o.buy, side, after, o.price);
  }

  lemma CancelInShallowNoticed(b: BookState, buy: bool, id: nat)
    requires Shallow(b) && Rests(b, buy, id)
    ensures CancelNoticed(b, buy, id)
  {
    var side := SideOf(b, buy);
    var e :| e in side && e.id == id;
    assert e.price in Prices(side);
    AllVisible(buy, side, e.price);
  }

  lemma SubmitStaysInStep(m: Market, o: Incoming, terms: Terms)
    requires MarketOk(m) && InStep(m) && o.qty > 0
             && Precheck(o, Opposite(m.book, o.buy), terms.fok, terms.postOnly, terms.stp) == None
    requires Shallow(SubmitMarket(m, o, terms).book)
    ensures InStep(SubmitMarket(m, o, terms))
  {
    var immediate := terms.ioc || terms.fok;
    var (trades, after, left) := Walk(o, Opposite(m.book, o.buy), o.qty);
    var book := Submitted(m.book, o, terms).0;
    var noticed := AddNoticed(m.book, o, immediate, trades);
    NotifyInStepIff(m, book, SubmitEvents(m, o, terms), noticed);
    if trades == [] {
      NoTradesNoChange(o, Opposite(m.book, o.buy));
      if immediate {
        assert book == m.book;
        forall level ensures QtyAt(m.previous, level) == BookQty(book, level) { assert LevelInStep(m, level); }
      } else {
        RestingNoticed(m.book, o, Resting(o.id, o.user, o.price, o.qty));
      }
    }
  }

  /** A walk that trades nothing leaves the book and the order whole. */
  lemma NoTradesNoChange(o: Incoming, book: seq<Resting>)
    requires Positive(book)
    ensures Walk(o, book, o.qty).0 == [] ==> Walk(o, book, o.qty) == ([], book, o.qty)
  {
    if book != [] && o.qty > 0 && Meets(o, book[0].price) {
      var n := if book[0].qty <= o.qty then book[0].qty else o.qty;
      assert |Walk(o, book, o.qty).0| == 1 + |Walk(o, book[1..], o.qty - n).0|;
    }
  }

  lemma CancelStaysInStep(m: Market, buy: bool, id: nat)
    requires InStep(m) && Shallow(m.book) && Rests(m.book, buy, id)
    ensures InStep(CancelMarket(m, buy, id))
  {
    CancelInShallowNoticed(m.book, buy, id);
    NotifyInStepIff(m, Cancelled(m.book, id), 1, true);
  }

  lemma AmendStaysInStep(m: Market, o: Incoming)
    requires MarketOk(m) && InStep(m) && o.qty > 0 && Shallow(m.book) && Rests(m.book, o.buy, o.id)
    requires !Crosses(o, Opposite(m.book, o.buy)) && Shallow(AmendMarket(m, o).book)
    ensures InStep(AmendMarket(m, o))
  {
    AddedKeepsBook(m.book, o);
    CancelInShallowNoticed(m.book, o.buy, o.id);
    var off := Notify(m, Cancelled(m.book, o.id), 0, true);
    RestingNoticed(off.book, o, Resting(o.id, o.user, o.price, o.qty));
    NotifyInStepIff(off, Added(off.book, o), 0, true);
    var on := Notify(off, Added(off.book, o), 0, true);
    assert AmendMarket(m, o) == on.(contractSeq := on.contractSeq + 1);
    assert forall level :: LevelInStep(AmendMarket(m, o), level) == LevelInStep(on, level);
  }

  ghost predicate AllInStep(e: Engine) { forall t :: t in e.markets ==> InStep(e.markets[t]) }

  predicate AllShallow(e: Engine) { forall t :: t in e.markets ==> Shallow(e.markets[t].book) }

  lemma WithMarketInStep(e: Engine, ticker: nat, m: Market, orders: map<nat, OrderRecord>)
    requires AllInStep(e) && ticker in e.markets && e.markets[ticker].contractSeq <= m.contractSeq && InStep(m)
    ensures AllInStep(WithMarket(e, ticker, m, orders))
  {
  }

  lemma SubmitInStep(e: Engine, r: Request)
    requires EngineOk(e) && AllInStep(e) && r.SubmitOrder? && AllShallow(SubmitTo(e, r).0)
    ensures AllInStep(SubmitTo(e, r).0)
  {
    if SubmitProblem(e, r) == None {
      var o, m := IncomingOf(r), e.markets[r.ticker.value];
      assert SubmitTo(e, r).0.markets[r.ticker.value] == SubmitMarket(m, o, r.terms);
      SubmitStaysInStep(m, o, r.terms);
      var orders := e.orders[o.id := OrderRecord(o.user, r.ticker.value, o.buy, o.price, o.qty, 0)];
      WithMarketInStep(e, r.ticker.value, SubmitMarket(m, o, r.terms),
                       WithFills(orders, o.id, Walk(o, Opposite(m.book, o.buy), o.qty).0));
    }
  }

  lemma CancelInStep(e: Engine, id: nat)
    requires AllInStep(e) && AllShallow(e)
    ensures AllInStep(CancelIn(e, id).0)
  {
    if CancelProblem(e, id) == None {
      var order := e.orders[id];
      CancelStaysInStep(e.markets[order.ticker], order.buy, id);
      WithMarketInStep(e, order.ticker, CancelMarket(e.markets[order.ticker], order.buy, id), e.orders);
    }
  }

  lemma AmendInStep(e: Engine, r: Request)
    requires EngineOk(e) && AllInStep(e) && AllShallow(e) && r.AmendOrder? && AllShallow(AmendIn(e, r).0)
    ensures AllInStep(AmendIn(e, r).0)
  {
    if AmendProblem(e, r) == None {
      var order := e.orders[r.id];
      var o := Incoming(r.id, order.user, order.buy, r.price, r.count);
      assert AmendIn(e, r).0.markets[order.ticker] == AmendMarket(e.markets[order.ticker], o);
      AmendStaysInStep(e.markets[order.ticker], o);
      WithMarketInStep(e, order.ticker, AmendMarket(e.markets[order.ticker], o),
                       e.orders[r.id := order.(price := r.price, qty := r.count)]);
    }
  }

  lemma AddBookInStep(e: Engine, r: Request)
    requires AllInStep(e) && r.AddBook?
    ensures AllInStep(AddBookTo(e, r).0)
  {
    var m := Market(r.minPrice, r.maxPrice, false, BookState([], []), map[], 0, []);
    assert forall level :: LevelInStep(m, level);
  }

  lemma CloseBookInStep(e: Engine, r: Request)
    requires AllInStep(e) && r.CloseBook?
    ensures AllInStep(CloseBookOf(e, r).0)
  {
    if CloseBookOf(e, r).1 == Done {
      var m := e.markets[r.ticker.value];
      var closed := m.(closed := true, contractSeq := m.contractSeq + 1);
      assert forall level :: LevelInStep(closed, level) == LevelInStep(m, level);
      WithMarketInStep(e, r.ticker.value, closed, e.orders);
    }
  }

  lemma ApplyStaysInStep(e: Engine, r: Request)
    requires EngineOk(e) && AllInStep(e) && AllShallow(e) && AllShallow(Apply(e, r).0)
    ensures AllInStep(Apply(e, r).0)
  {
    match r
    case AddBook(_, _, _, _) => AddBookInStep(e, r);
    case CloseBook(_) => CloseBookInStep(e, r);
    case SubmitOrder(_, _, _, _, _, _, _, _) => SubmitInStep(e, r);
    case CancelOrder(id) => CancelInStep(e, id);
    case AmendOrder(_, _, _) => AmendInStep(e, r);
  }

  /** While no side ever has more than 25 prices, what is announced is the book, after every command. */
  lemma {:induction false} ShallowRunInStep(rs: seq<Request>)
    requires forall k :: 0 <= k <= |rs| ==> AllShallow(RunEngine(FRESH, rs[..k]))
    ensures AllInStep(RunEngine(FRESH, rs))
  {
    if rs != [] {
      var n := |rs| - 1;
      var before := rs[..n];
      forall k | 0 <= k <= n ensures AllShallow(RunEngine(FRESH, before[..k])) { assert before[..k] == rs[..k]; }
      ShallowRunInStep(before);
      RunKeeps(FRESH, before);
      assert rs[..n] == before && rs[..|rs|] == rs;
      assert AllShallow(RunEngine(FRESH, rs[..n])) && AllShallow(RunEngine(FRESH, rs[..|rs|]));
      ApplyStaysInStep(RunEngine(FRESH, before), rs[n]);
    }
  }

  /** A snapshot of 25 levels carries a shallow book whole. */
  lemma ShallowSnapshot(b: BookState, level: Level)
    requires Shallow(b)
    ensures QtyAt(SnapshotOf(b, TRACKED), level) == BookQty(b, level)
  {
    DepthShows(b, level);
    if level in DepthOf(b) {
      var side := SideOf(b, level.bid);
      assert level.price in Prices(side);
      AllVisible(level.bid, side, level.price);
    }
  }

  /**
    So a subscriber to a market of at most 25 prices a side shows the engine's book after any run:
    the snapshot taken after `rs[..i]`, every delta received up to the end.
   */
  lemma ShallowBooksConverge(rs: seq<Request>, i: nat, ticker: nat, a: nat, j: nat)
    requires i <= |rs| && forall k :: 0 <= k <= |rs| ==> AllShallow(RunEngine(FRESH, rs[..k]))
    requires ticker in RunEngine(FRESH, rs[..i]).markets
    ensures var m := RunEngine(FRESH, rs[..i]).markets[ticker];
            ticker in RunEngine(FRESH, rs).markets
            && var later := RunEngine(FRESH, rs).markets[ticker];
            a <= |m.deltas| && a <= j <= |later.deltas| ==>
              forall level :: QtyAt(Shown(SnapshotOf(m.book, TRACKED), m, a, j, later), level)
                              == BookQty(later.book, level)
  {
    var e := RunEngine(FRESH, rs[..i]);
    RunKeeps(FRESH, rs[..i]);
    RunOn(FRESH, rs, i);
    RunKeeps(e, rs[i..]);
    forall k | 0 <= k <= i ensures AllShallow(RunEngine(FRESH, rs[..i][..k])) { assert rs[..i][..k] == rs[..k]; }
    ShallowRunInStep(rs[..i]);
    ShallowRunInStep(rs);
    var m, later := e.markets[ticker], RunEngine(FRESH, rs).markets[ticker];
    assert AllShallow(e);
    forall level ensures QtyAt(SnapshotOf(m.book, TRACKED), level) == BookQty(m.book, level) {
      ShallowSnapshot(m.book, level);
    }
    if a <= |m.deltas| && a <= j <= |later.deltas| { StreamConvergesIff(SnapshotOf(m.book, TRACKED), m, a, j, later); }
  }

  /** A run with one more command goes on from wherever the run without it ends. */
  lemma OneMore(e: Engine, f: Engine, rs: seq<Request>, later: seq<Request>, r: Request)
    requires RunEngine(e, rs) == RunEngine(f, later)
    ensures RunEngine(e, rs + [r]) == RunEngine(f, later + [r])
  {
    assert (rs + [r])[..|rs|] == rs && (later + [r])[..|later|] == later;
  }

  lemma {:induction false} RunOn(e: Engine, rs: seq<Request>, i: nat)
    requires i <= |rs|
    ensures RunEngine(e, rs) == RunEngine(RunEngine(e, rs[..i]), rs[i..])
    decreases |rs|
  {
    if i == |rs| {
      assert rs[..i] == rs && rs[i..] == [];
    } else {
      var n := |rs| - 1;
      RunOn(e, rs[..n], i);
      assert rs[..n][..i] == rs[..i] && rs[..n] + [rs[n]] == rs && rs[..n][i..] + [rs[n]] == rs[i..];
      OneMore(e, RunEngine(e, rs[..i]), rs[..n], rs[..n][i..], rs[n]);
    }
  }

  // ---------------------------------------------------------------- deeper books

  lemma InsertQty(ask: bool, side: seq<Resting>, e: Resting, price: int)
    ensures TotalAt(Insert(ask, side, e), price) == TotalAt(side, price) + if e.price == price then e.qty else 0
  {
    var i := InsertSplits(ask, side, e);
    TotalConcat(side[..i] + [e], side[i..], price);
    TotalConcat(side[..i], [e], price);
    TotalConcat(side[..i], side[i..], price);
    assert side[..i] + side[i..] == side;
    assert [e][..0] == [];
  }

  lemma {:induction false} InsertSplits(ask: bool, side: seq<Resting>, e: Resting) returns (i: nat)
    ensures i <= |side| && Insert(ask, side, e) == side[..i] + [e] + side[i..]
  {
    if side != [] && if ask then side[0].price <= e.price else side[0].price >= e.price {
      var k := InsertSplits(ask, side[1..], e);
      i := k + 1;
      assert side[..i] == [side[0]] + side[1..][..k] && side[i..] == side[1..][k..];
      Regroup([side[0]], side[1..][..k] + [e], side[i..]);
      Regroup([side[0]], side[1..][..k], [e]);
    } else {
      i := 0;
      assert side[..0] + [e] == [e] && side[0..] == side;
    }
  }

  lemma {:induction false} TotalConcat(a: seq<Resting>, b: seq<Resting>, price: int)
    ensures TotalAt(a + b, price) == TotalAt(a, price) + TotalAt(b, price)
  {
    if b == [] {
      assert a + b == a;
    } else {
      TotalConcat(a, b[..|b| - 1], price);
      LastApart(a, b);
      assert (a + b)[..|a + b| - 1] == a + b[..|b| - 1];
    }
  }

  /** An order that rests alone at a price behind 25 better ones is not announced. */
  lemma DeepOrderUnannounced(m: Market, o: Incoming, terms: Terms)
    requires MarketOk(m) && o.qty > 0 && o.price > 0 && !terms.ioc && !terms.fok
    requires !Crosses(o, Opposite(m.book, o.buy))
    requires |BetterPrices(o.buy, SideOf(m.book, o.buy), o.price)| >= TRACKED
             && o.price !in Prices(SideOf(m.book, o.buy))
    ensures var after := SubmitMarket(m, o, terms);
            && after.deltas == m.deltas && after.previous == m.previous
            && BookQty(after.book, Level(o.buy, o.price)) == o.qty
  {
    var side, opposite := SideOf(m.book, o.buy), Opposite(m.book, o.buy);
    CrossesIffOpen(o, opposite);
    PostOnlyExactly(o, opposite);
    NoTradesNoChange(o, opposite);
    assert MeetsOwn(o, opposite) ==> Crosses(o, opposite) by { MeetsOwnIff(o, opposite); NothingMeets(o, opposite); }
    assert !AddNoticed(m.book, o, false, []);
    InsertQty(!o.buy, side, Resting(o.id, o.user, o.price, o.qty), o.price);
    forall e | e in side ensures e.price != o.price { assert e.price in Prices(side); }
    NothingAt(side, o.price);
  }

  /** A subscriber that was right, with a full snapshot, is then wrong at that level until the engine announces it. */
  lemma DeepOrderMissing(m: Market, o: Incoming, terms: Terms, a: nat, j: nat)
    requires MarketOk(m) && InStep(m) && o.qty > 0 && o.price > 0 && !terms.ioc && !terms.fok && a <= j <= |m.deltas|
    requires !Crosses(o, Opposite(m.book, o.buy))
    requires |BetterPrices(o.buy, SideOf(m.book, o.buy), o.price)| >= TRACKED
             && o.price !in Prices(SideOf(m.book, o.buy))
    ensures var after, level := SubmitMarket(m, o, terms), Level(o.buy, o.price);
            && after.deltas == m.deltas
            && QtyAt(Shown(DepthOf(m.book), m, a, j, after), level) == 0 != BookQty(after.book, level)
  {
    var after, level := SubmitMarket(m, o, terms), Level(o.buy, o.price);
    DeepOrderUnannounced(m, o, terms);
    SubmitMarketKeeps(m, o, terms);
    SnapshotSplits(m, after);
    var t := |after.deltas|;
    assert after.deltas[..t] == after.deltas;
    LevelShown(DepthOf(m.book), m.contractSeq, after.deltas, t, a, j, t, level);
    DepthShows(m.book, level);
    var side := SideOf(m.book, o.buy);
    forall e | e in side ensures e.price != o.price { assert e.price in Prices(side); }
    NothingAt(side, o.price);
    assert LevelInStep(m, level);
  }

  /**
    Cancelling the only order at such a price is not announced either: a subscriber
    whose snapshot had it keeps showing it.
   */
  lemma DeepCancelLeavesPhantom(m: Market, buy: bool, e: Resting, a: nat, j: nat)
    requires MarketOk(m) && e in SideOf(m.book, buy) && a <= |m.deltas| == j
    requires |BetterPrices(buy, SideOf(m.book, buy), e.price)| >= TRACKED
    requires forall x :: x in SideOf(m.book, buy) && (x.price == e.price || x.id == e.id) ==> x == e
    ensures var after, level := CancelMarket(m, buy, e.id), Level(buy, e.price);
            && after.deltas == m.deltas
            && QtyAt(Shown(DepthOf(m.book), m, a, j, after), level) > 0 == BookQty(after.book, level)
  {
    var after, level := CancelMarket(m, buy, e.id), Level(buy, e.price);
    var side := SideOf(m.book, buy);
    assert !CancelNoticed(m.book, buy, e.id);
    CancelMarketKeeps(m, buy, e.id);
    SnapshotSplits(m, after);
    var t := |after.deltas|;
    assert after.deltas[..t] == after.deltas && after.deltas[t..t] == [];
    LevelShown(DepthOf(m.book), m.contractSeq, after.deltas, t, a, j, t, level);
    DepthShows(m.book, level);
    RestingTotal(side, e, e.price);
    RemoveKeepsSorted(!buy, side, e.id);
    RemovedGone(side, e.id);
    forall x | x in Remove(side, e.id) ensures x.price != e.price {}
    NothingAt(Remove(side, e.id), e.price);
  }

  lemma {:induction false} RestingTotal(side: seq<Resting>, e: Resting, price: nat)
    requires Positive(side) && e in side && e.price == price
    ensures TotalAt(side, price) > 0
  {
    var n := |side| - 1;
    TotalNonNegative(side[..n], price);
    if side[n] != e {
      assert side == side[..n] + [side[n]];
      RestingTotal(side[..n], e, price);
    }
  }

  lemma {:induction false} TotalNonNegative(side: seq<Resting>, price: int)
    ensures TotalAt(side, price) >= 0
  {
    if side != [] { TotalNonNegative(side[..|side| - 1], price); }
  }

  lemma {:induction false} RemovedGone(side: seq<Resting>, id: nat)
    ensures forall x :: x in Remove(side, id) ==> x.id != id && x in side
  {
    if side != [] { RemovedGone(side[1..], id); }
  }

  /** `n` asks of one unit at rising prices. */
  function Ladder(n: nat): seq<Resting> { seq(n, i requires 0 <= i < n => Resting(i, 0, 101 + i, 1)) }

  lemma {:induction false} LadderPrices(n: nat)
    ensures |Prices(Ladder(n))| == n && forall p :: p in Prices(Ladder(n)) <==> 101 <= p < 101 + n
  {
    if n > 0 {
      LadderPrices(n - 1);
      assert Ladder(n) == Ladder(n - 1) + [Resting(n - 1, 0, 100 + n, 1)];
      assert Prices(Ladder(n)) == Prices(Ladder(n - 1)) + {100 + n} by {
        forall p ensures p in Prices(Ladder(n)) <==> p in Prices(Ladder(n - 1)) + {100 + n} {
          if 101 <= p < 101 + n { assert Ladder(n)[p - 101].price == p && Ladder(n)[p - 101] in Ladder(n); }
        }
      }
    } else {
      assert Prices(Ladder(0)) == {};
    }
  }

  /** Such books exist: behind 25 asks, a further one at a worse price. */
  lemma DeepBookExists(price: nat)
    requires price > 126
    ensures var b := BookState([], Ladder(TRACKED));
            GoodBook(b) && |BetterPrices(false, b.asks, price)| == TRACKED && price !in Prices(b.asks)
  {
    LadderPrices(TRACKED);
    assert BetterPrices(false, Ladder(TRACKED), price) == Prices(Ladder(TRACKED));
  }
}
