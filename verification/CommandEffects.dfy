/**
  What one command does to the orders: to the one it names, to those it trades with, and to all
  the others; and how the engine's event counter follows its markets' counters.
 */
module CommandEffects {
  import opened Common
  import opened Matching
  import opened OrderBooks
  import opened MatchingEngines
  import opened TimePriority

  // ---------------------------------------------------------------- the order a command names

  /** What rests of an order: one entry with its name, user and price. */
  predicate RestsFor(b: BookState, bid: bool, x: Resting) { x in SideOf(b, bid) }

  lemma {:induction false} InsertMembers(ask: bool, side: seq<Resting>, e: Resting)
    ensures e in Insert(ask, side, e)
    ensures forall x :: x in Insert(ask, side, e) <==> x in side || x == e
  {
    if side != [] {
      InsertMembers(ask, side[1..], e);
      assert side == [side[0]] + side[1..];
    }
  }

  /** An accepted order's record counts `filled`, and the rest of it rests unless the order may not. */
  predicate Disposed(o: Incoming, t: nat, terms: Terms, filled: int, orders: map<nat, OrderRecord>, c: BookState) {
    && 0 <= filled <= o.qty
    && o.id in orders && orders[o.id] == OrderRecord(o.user, t, o.buy, o.price, o.qty, filled)
    && var stays := filled < o.qty && !terms.ioc && !terms.fok;
       && (Rests(c, o.buy, o.id) <==> stays)
       && (stays ==> RestsFor(c, o.buy, Resting(o.id, o.user, o.price, o.qty - filled)))
  }

  /**
    An accepted order is filled with as much as is open to it; what is left rests at its price,
    unless the order was immediate or all-or-none.
   */
  lemma SubmitOutcome(e: Engine, places: map<nat, nat>, n: nat, r: Request)
    requires Orderly(e, places, n) && r.SubmitOrder? && Apply(e, r).1 == Done
    ensures var o, t, after := IncomingOf(r), r.ticker.value, Apply(e, r).0;
            && t in e.markets && t in after.markets && o.id !in e.orders
            && Disposed(o, t, r.terms, Min(o.qty, Open(o, Opposite(e.markets[t].book, o.buy))), after.orders,
                        after.markets[t].book)
  {
    var o, t := IncomingOf(r), r.ticker.value;
    AcceptedDisposed(e, places, n, o, r.terms, t);
  }

  lemma AcceptedDisposed(e: Engine, places: map<nat, nat>, n: nat, o: Incoming, terms: Terms, t: nat)
    requires Orderly(e, places, n) && t in e.markets && o.id !in e.orders
    requires Precheck(o, Opposite(e.markets[t].book, o.buy), terms.fok, terms.postOnly, terms.stp) == None
    ensures var after := Accepted(e, t, o, terms);
            && t in after.markets
            && Disposed(o, t, terms, Min(o.qty, Open(o, Opposite(e.markets[t].book, o.buy))), after.orders,
                        after.markets[t].book)
  {
    MarketOrderly(e, places, n, t);
    SubmitRecord(e.markets[t].book, o, terms, e.orders, t);
    AcceptedIs(e, t, o, terms);
  }

  lemma AcceptedIs(e: Engine, t: nat, o: Incoming, terms: Terms)
    requires t in e.markets
    ensures var b, after := e.markets[t].book, Accepted(e, t, o, terms);
            var rec := OrderRecord(o.user, t, o.buy, o.price, o.qty, 0);
            && after.markets.Keys == e.markets.Keys && after.markets[t].book == Submitted(b, o, terms).0
            && after.orders == WithFills(e.orders[o.id := rec], o.id, Walk(o, Opposite(b, o.buy), o.qty).0)
            && forall u :: u in e.markets && u != t ==> after.markets[u] == e.markets[u]
  {
  }

  lemma SubmitRecord(b: BookState, o: Incoming, terms: Terms, orders: map<nat, OrderRecord>, ticker: nat)
    requires GoodBook(b) && MarketAgrees(b, orders, ticker) && o.id !in orders
    requires Precheck(o, Opposite(b, o.buy), terms.fok, terms.postOnly, terms.stp) == None
    ensures var rec := OrderRecord(o.user, ticker, o.buy, o.price, o.qty, 0);
            var after := WithFills(orders[o.id := rec], o.id, Walk(o, Opposite(b, o.buy), o.qty).0);
            Disposed(o, ticker, terms, Min(o.qty, Open(o, Opposite(b, o.buy))), after, Submitted(b, o, terms).0)
  {
    var book := SideOf(b, !o.buy);
    var rec := OrderRecord(o.user, ticker, o.buy, o.price, o.qty, 0);
    assert SideAgrees(book, orders, ticker, !o.buy) && SideAgrees(SideOf(b, o.buy), orders, ticker, o.buy);
    TakerCounts(o, book, orders[o.id := rec], rec);
    RestPart(b, o, terms);
  }

  lemma RestPart(b: BookState, o: Incoming, terms: Terms)
    requires Precheck(o, Opposite(b, o.buy), terms.fok, terms.postOnly, terms.stp) == None
    requires forall i :: 0 <= i < |SideOf(b, o.buy)| ==> SideOf(b, o.buy)[i].id != o.id
    ensures var c := Submitted(b, o, terms).0;
            var filled := Min(o.qty, Open(o, Opposite(b, o.buy)));
            var stays := filled < o.qty && !terms.ioc && !terms.fok;
            && (Rests(c, o.buy, o.id) <==> stays)
            && (stays ==> RestsFor(c, o.buy, Resting(o.id, o.user, o.price, o.qty - filled)))
  {
    var own, left := SideOf(b, o.buy), Walk(o, Opposite(b, o.buy), o.qty).2;
    var e := Resting(o.id, o.user, o.price, left);
    WalkFills(o, Opposite(b, o.buy), o.qty);
    InsertMembers(!o.buy, own, e);
    var side := SideOf(Submitted(b, o, terms).0, o.buy);
    assert side == if left > 0 && !terms.ioc && !terms.fok then Insert(!o.buy, own, e) else own;
    if left > 0 && !terms.ioc && !terms.fok {
      assert e in side;
    } else {
      forall x | x in side ensures x.id != o.id { var i :| 0 <= i < |own| && own[i] == x; }
    }
  }

  lemma TakerCounts(o: Incoming, book: seq<Resting>, orders: map<nat, OrderRecord>, rec: OrderRecord)
    requires Positive(book) && DistinctIds(book) && forall i :: 0 <= i < |book| ==> book[i].id != o.id
    requires o.id in orders && orders[o.id] == rec && rec.filled == 0
    ensures var filled := WithFills(orders, o.id, Walk(o, book, o.qty).0);
            o.id in filled && filled[o.id] == rec.(filled := Min(o.qty, Open(o, book)))
  {
    var (trades, after, left) := Walk(o, book, o.qty);
    var k, n := WalkTakesFront(o, book, o.qty);
    TakenIsTraded(book, trades, after, k, n, o.id);
    RecordsCount(orders, o.id, trades, o.id);
    WalkFills(o, book, o.qty);
  }

  /** A cancelled order rests no more; its record, with what it was filled, stays. */
  lemma CancelOutcome(e: Engine, places: map<nat, nat>, n: nat, id: nat)
    requires Orderly(e, places, n) && Apply(e, CancelOrder(id)).1 == Done
    ensures var after := Apply(e, CancelOrder(id)).0;
            && id in e.orders && e.orders[id].ticker in e.markets && e.orders[id].ticker in after.markets
            && after.orders == e.orders
            && Rests(e.markets[e.orders[id].ticker].book, e.orders[id].buy, id)
            && forall bid :: !Rests(after.markets[e.orders[id].ticker].book, bid, id)
  {
    var t := e.orders[id].ticker;
    MarketOrderly(e, places, n, t);
    var b := e.markets[t].book;
    CancelledSides(b, id, e.orders, t, places);
    forall bid ensures !Rests(Cancelled(b, id), bid, id) {
      forall x | x in SideOf(Cancelled(b, id), bid) ensures x.id != id {
        var i :| 0 <= i < |SideOf(Cancelled(b, id), bid)| && SideOf(Cancelled(b, id), bid)[i] == x;
      }
    }
  }

  /** An amended order, which nothing had filled, rests at its new price for its new quantity. */
  lemma AmendOutcome(e: Engine, r: Request)
    requires r.AmendOrder? && Apply(e, r).1 == Done
    ensures var after := Apply(e, r).0;
            && r.id in e.orders && r.id in after.orders && r.price > 0 && r.count > 0
            && var order := e.orders[r.id];
               && order.filled == 0 && after.orders[r.id] == order.(price := r.price, qty := r.count)
               && order.ticker in after.markets
               && RestsFor(after.markets[order.ticker].book, order.buy,
                           Resting(r.id, order.user, r.price, r.count))
  {
    var order := e.orders[r.id];
    var o := Incoming(r.id, order.user, order.buy, r.price, r.count);
    var c := Cancelled(e.markets[order.ticker].book, r.id);
    InsertMembers(!order.buy, SideOf(c, order.buy), Resting(r.id, order.user, r.price, r.count));
    assert AmendedIn(e, o).markets[order.ticker].book == Added(c, o);
  }

  // ---------------------------------------------------------------- the others

  /** The order a command names. */
  function Named(r: Request): Option<nat> {
    match r
    case CancelOrder(id) => Some(id)
    case _ => PlacedBy(r)
  }

  lemma {:induction false} RemoveMembers(side: seq<Resting>, id: nat, x: Resting)
    requires x in side && x.id != id
    ensures x in Remove(side, id)
  {
    assert side == [side[0]] + side[1..];
    if x != side[0] { RemoveMembers(side[1..], id, x); }
  }

  lemma NotTaken(book: seq<Resting>, trades: seq<Trade>, after: seq<Resting>, k: nat, n: nat, i: nat)
    requires Positive(book) && TakesFront(book, trades, after, k, n) && i < |book| && Taken(book, k, n, i) == 0
    ensures book[i] in after
  {
    assert i >= k && (n > 0 ==> i > k);
    assert after[i - k] == book[i];
  }

  /** What a walk does not take units of stays as it is. */
  lemma WalkLeaves(o: Incoming, book: seq<Resting>, i: nat, orders: map<nat, OrderRecord>)
    requires Positive(book) && DistinctIds(book) && i < |book| && book[i].id in orders && book[i].id != o.id
    requires var filled := WithFills(orders, o.id, Walk(o, book, o.qty).0);
             book[i].id in filled && filled[book[i].id].filled == orders[book[i].id].filled
    ensures book[i] in Walk(o, book, o.qty).1
  {
    var (trades, after, left) := Walk(o, book, o.qty);
    var k, n := WalkTakesFront(o, book, o.qty);
    TakenIsTraded(book, trades, after, k, n, o.id);
    RecordsCount(orders, o.id, trades, book[i].id);
    NotTaken(book, trades, after, k, n, i);
  }

  lemma SubmitLeaves(e: Engine, places: map<nat, nat>, n: nat, o: Incoming, terms: Terms, t: nat, ticker: nat,
                     bid: bool, i: nat)
    requires Orderly(e, places, n) && t in e.markets && ticker in e.markets && o.id !in e.orders
    requires i < |SideOf(e.markets[ticker].book, bid)|
    requires var x, after := SideOf(e.markets[ticker].book, bid)[i], Accepted(e, t, o, terms);
             x.id in e.orders && x.id in after.orders && after.orders[x.id].filled == e.orders[x.id].filled
    ensures RestsFor(Accepted(e, t, o, terms).markets[ticker].book, bid, SideOf(e.markets[ticker].book, bid)[i])
  {
    AcceptedIs(e, t, o, terms);
    if t == ticker {
      MarketOrderly(e, places, n, t);
      assert SideAgrees(SideOf(e.markets[t].book, bid), e.orders, ticker, bid);
      BookLeaves(e.markets[t].book, o, terms, e.orders, t, bid, i);
    }
  }

  lemma BookLeaves(b: BookState, o: Incoming, terms: Terms, orders: map<nat, OrderRecord>, t: nat, bid: bool, i: nat)
    requires GoodBook(b) && SideAgrees(SideOf(b, bid), orders, t, bid) && o.id !in orders && i < |SideOf(b, bid)|
    requires var rec, x := OrderRecord(o.user, t, o.buy, o.price, o.qty, 0), SideOf(b, bid)[i];
             var filled := WithFills(orders[o.id := rec], o.id, Walk(o, Opposite(b, o.buy), o.qty).0);
             x.id in filled && filled[x.id].filled == orders[x.id].filled
    ensures RestsFor(Submitted(b, o, terms).0, bid, SideOf(b, bid)[i])
  {
    var side := SideOf(b, bid);
    SubmittedSides(b, o, terms);
    if bid == o.buy {
      InsertMembers(!o.buy, side, Resting(o.id, o.user, o.price, Walk(o, SideOf(b, !o.buy), o.qty).2));
    } else {
      WalkLeaves(o, side, i, orders[o.id := OrderRecord(o.user, t, o.buy, o.price, o.qty, 0)]);
    }
  }

  /** A command moves no order but the one it names and those it fills. */
  lemma OthersStay(e: Engine, places: map<nat, nat>, n: nat, r: Request, ticker: nat, bid: bool, i: nat)
    requires Orderly(e, places, n) && ticker in e.markets && i < |SideOf(e.markets[ticker].book, bid)|
    requires var x := SideOf(e.markets[ticker].book, bid)[i];
             && Named(r) != Some(x.id) && x.id in e.orders && x.id in Apply(e, r).0.orders
             && Apply(e, r).0.orders[x.id].filled == e.orders[x.id].filled
    ensures ticker in Apply(e, r).0.markets
    ensures RestsFor(Apply(e, r).0.markets[ticker].book, bid, SideOf(e.markets[ticker].book, bid)[i])
  {
    var side := SideOf(e.markets[ticker].book, bid);
    var x := side[i];
    assert x in side;
    match r
    case AddBook(_, _, _, _) =>
    case CloseBook(_) =>
    case SubmitOrder(_, _, _, _, _, _, _, _) =>
      if SubmitProblem(e, r) == None {
        SubmitLeaves(e, places, n, IncomingOf(r), r.terms, r.ticker.value, ticker, bid, i);
      }
    case CancelOrder(id) => RemoveMembers(side, id, x);
    case AmendOrder(_, _, _) => AmendLeaves(e, r, ticker, bid, x);
  }

  lemma AmendLeaves(e: Engine, r: Request, ticker: nat, bid: bool, x: Resting)
    requires r.AmendOrder? && ticker in e.markets && x in SideOf(e.markets[ticker].book, bid) && x.id != r.id
    ensures ticker in Apply(e, r).0.markets && RestsFor(Apply(e, r).0.markets[ticker].book, bid, x)
  {
    if AmendProblem(e, r) == None && e.orders[r.id].ticker == ticker {
      var order, b := e.orders[r.id], e.markets[ticker].book;
      var c := Cancelled(b, r.id);
      RemoveMembers(SideOf(b, bid), r.id, x);
      InsertMembers(!order.buy, SideOf(c, order.buy), Resting(r.id, order.user, r.price, r.count));
      assert AmendIn(e, r).0.markets[ticker].book
             == Added(c, Incoming(r.id, order.user, order.buy, r.price, r.count));
    }
  }

  // ---------------------------------------------------------------- numbering

  /** The event counters of the markets with tickers below `n`, added up. */
  function SeqsBelow(markets: map<nat, Market>, n: nat): nat {
    if n == 0 then 0
    else SeqsBelow(markets, n - 1) + if n - 1 in markets then markets[n - 1].contractSeq else 0
  }

  lemma {:induction false} SeqsUpdate(markets: map<nat, Market>, t: nat, m: Market, n: nat)
    ensures SeqsBelow(markets[t := m], n)
            == SeqsBelow(markets, n)
               + if t < n then m.contractSeq - (if t in markets then markets[t].contractSeq else 0) else 0
  {
    if n > 0 { SeqsUpdate(markets, t, m, n - 1); }
  }

  ghost predicate CountsAll(e: Engine) {
    forall n: nat :: (forall t :: t in e.markets ==> t < n) ==> e.globalSeq == SeqsBelow(e.markets, n)
  }

  lemma MarketCounted(e: Engine, t: nat, m: Market, orders: map<nat, OrderRecord>)
    requires CountsAll(e) && t in e.markets && e.markets[t].contractSeq <= m.contractSeq
    ensures CountsAll(WithMarket(e, t, m, orders))
  {
    var after := WithMarket(e, t, m, orders);
    forall n: nat | forall u :: u in after.markets ==> u < n ensures after.globalSeq == SeqsBelow(after.markets, n) {
      assert forall u :: u in e.markets ==> u in after.markets;
      SeqsUpdate(e.markets, t, m, n);
    }
  }

  lemma ApplyCounts(e: Engine, r: Request)
    requires EngineOk(e) && CountsAll(e)
    ensures CountsAll(Apply(e, r).0)
  {
    match r
    case AddBook(_, _, _, _) =>
      var after := Apply(e, r).0;
      forall n: nat | forall u :: u in after.markets ==> u < n
        ensures after.globalSeq == SeqsBelow(after.markets, n)
      {
        assert forall u :: u in e.markets ==> u in after.markets;
        if after != e { SeqsUpdate(e.markets, r.ticker.value, after.markets[r.ticker.value], n); }
      }
    case CloseBook(_) =>
      if CloseBookOf(e, r).1 == Done {
        var m := e.markets[r.ticker.value];
        MarketCounted(e, r.ticker.value, m.(closed := true, contractSeq := m.contractSeq + 1), e.orders);
      }
    case SubmitOrder(_, _, _, _, _, _, _, _) =>
      if SubmitProblem(e, r) == None {
        var after, t := Apply(e, r).0, r.ticker.value;
        MarketCounted(e, t, after.markets[t], after.orders);
      }
    case CancelOrder(id) =>
      if CancelProblem(e, id) == None {
        var after, t := Apply(e, r).0, e.orders[id].ticker;
        MarketCounted(e, t, after.markets[t], after.orders);
      }
    case AmendOrder(_, _, _) =>
      if AmendProblem(e, r) == None {
        var after, t := Apply(e, r).0, e.orders[r.id].ticker;
        MarketCounted(e, t, after.markets[t], after.orders);
      }
  }

  /** Over every run the global counter is the sum of the markets' counters: each event is counted once in both. */
  lemma {:induction false} RunCounts(rs: seq<Request>)
    ensures CountsAll(RunEngine(FRESH, rs))
  {
    if rs == [] {
      forall n: nat ensures SeqsBelow(FRESH.markets, n) == 0 { NothingCounted(n); }
    } else {
      RunCounts(rs[..|rs| - 1]);
      RunKeeps(FRESH, rs[..|rs| - 1]);
      ApplyCounts(RunEngine(FRESH, rs[..|rs| - 1]), rs[|rs| - 1]);
    }
  }

  lemma {:induction false} NothingCounted(n: nat)
    ensures SeqsBelow(map[], n) == 0
  {
    if n > 0 { NothingCounted(n - 1); }
  }

  /**
    An accepted order takes one number for itself, one for each of its trades, one if its rest is
    cancelled at once, and one for each level it is announced to change.
   */
  lemma SubmitNumbers(e: Engine, r: Request)
    requires r.SubmitOrder? && Apply(e, r).1 == Done
    ensures var o, t, after := IncomingOf(r), r.ticker.value, Apply(e, r).0;
            && t in e.markets && t in after.markets && e.markets[t].deltas <= after.markets[t].deltas
            && var m := e.markets[t];
               var announced := |after.markets[t].deltas| - |m.deltas|;
               var traded := |Walk(o, Opposite(m.book, o.buy), o.qty).0|;
               var dropped := (r.terms.ioc || r.terms.fok) && Open(o, Opposite(m.book, o.buy)) < o.qty;
               after.globalSeq - e.globalSeq == 1 + traded + (if dropped then 1 else 0) + announced
               == after.markets[t].contractSeq - m.contractSeq
  {
    var o, t := IncomingOf(r), r.ticker.value;
    MarketNumbers(e.markets[t], o, r.terms);
    var m := SubmitMarket(e.markets[t], o, r.terms);
    assert Apply(e, r).0.markets[t] == m;
  }

  lemma MarketNumbers(m: Market, o: Incoming, terms: Terms)
    ensures var after := SubmitMarket(m, o, terms);
            && m.deltas <= after.deltas
            && after.contractSeq - m.contractSeq
               == 1 + |Walk(o, Opposite(m.book, o.buy), o.qty).0|
                  + (if (terms.ioc || terms.fok) && Open(o, Opposite(m.book, o.buy)) < o.qty then 1 else 0)
                  + |after.deltas| - |m.deltas|
  {
    WalkFills(o, Opposite(m.book, o.buy), o.qty);
  }

  // ---------------------------------------------------------------- bands and closed books

  predicate InBand(side: seq<Resting>, low: int, high: int) {
    forall x :: x in side ==> x.price > 0 && low <= x.price <= high
  }

  predicate BookInBand(b: BookState, low: int, high: int) { InBand(b.bids, low, high) && InBand(b.asks, low, high) }

  /** Every resting price is in its market's band. */
  ghost predicate BooksInBand(e: Engine) {
    forall t :: t in e.markets ==> BookInBand(e.markets[t].book, e.markets[t].minPrice, e.markets[t].maxPrice)
  }

  /** The markets later: none is gone, none has another band, and none that was closed is open. */
  ghost predicate SameRules(e: Engine, later: Engine) {
    forall t :: t in e.markets ==>
                  && t in later.markets && later.markets[t].minPrice == e.markets[t].minPrice
                  && later.markets[t].maxPrice == e.markets[t].maxPrice
                  && (e.markets[t].closed ==> later.markets[t].closed)
  }

  lemma SubmitInBand(b: BookState, o: Incoming, terms: Terms, low: int, high: int)
    requires GoodBook(b) && BookInBand(b, low, high) && o.price > 0 && low <= o.price <= high
    ensures BookInBand(Submitted(b, o, terms).0, low, high)
  {
    var book, own := SideOf(b, !o.buy), SideOf(b, o.buy);
    var (trades, after, left) := Walk(o, book, o.qty);
    WalkKeepsSorted(o, book, o.qty);
    forall x | x in after ensures x.price > 0 && low <= x.price <= high {
      assert HasPrice(book, x.price);
      var i :| 0 <= i < |book| && book[i].price == x.price;
      assert book[i] in book;
    }
    InsertMembers(!o.buy, own, Resting(o.id, o.user, o.price, left));
    SubmittedSides(b, o, terms);
  }

  lemma {:induction false} RemoveWithin(side: seq<Resting>, id: nat)
    ensures forall x :: x in Remove(side, id) ==> x in side
  {
    if side != [] {
      RemoveWithin(side[1..], id);
      assert side == [side[0]] + side[1..];
    }
  }

  lemma CancelInBand(b: BookState, id: nat, low: int, high: int)
    requires BookInBand(b, low, high)
    ensures BookInBand(Cancelled(b, id), low, high)
  {
    RemoveWithin(b.bids, id);
    RemoveWithin(b.asks, id);
  }

  lemma AddedInBand(b: BookState, o: Incoming, low: int, high: int)
    requires BookInBand(b, low, high) && o.price > 0 && low <= o.price <= high
    ensures BookInBand(Added(b, o), low, high)
  {
    InsertMembers(!o.buy, SideOf(b, o.buy), Resting(o.id, o.user, o.price, o.qty));
  }

  lemma MarketInBand(e: Engine, t: nat, m: Market, orders: map<nat, OrderRecord>)
    requires BooksInBand(e) && t in e.markets && e.markets[t].contractSeq <= m.contractSeq
    requires m.minPrice == e.markets[t].minPrice && m.maxPrice == e.markets[t].maxPrice
    requires (e.markets[t].closed ==> m.closed) && BookInBand(m.book, m.minPrice, m.maxPrice)
    ensures BooksInBand(WithMarket(e, t, m, orders)) && SameRules(e, WithMarket(e, t, m, orders))
  {
  }

  lemma ApplyInBand(e: Engine, r: Request)
    requires EngineOk(e) && BooksInBand(e)
    ensures BooksInBand(Apply(e, r).0) && SameRules(e, Apply(e, r).0)
  {
    match r
    case AddBook(_, _, _, _) =>
    case CloseBook(_) =>
      if CloseBookOf(e, r).1 == Done {
        var m := e.markets[r.ticker.value];
        MarketInBand(e, r.ticker.value, m.(closed := true, contractSeq := m.contractSeq + 1), e.orders);
      }
    case SubmitOrder(_, _, _, _, _, _, _, _) =>
      if SubmitProblem(e, r) == None { SubmitKeepsBand(e, r.ticker.value, IncomingOf(r), r.terms); }
    case CancelOrder(id) =>
      if CancelProblem(e, id) == None {
        var order := e.orders[id];
        var m := e.markets[order.ticker];
        CancelInBand(m.book, id, m.minPrice, m.maxPrice);
        MarketInBand(e, order.ticker, CancelMarket(m, order.buy, id), e.orders);
      }
    case AmendOrder(_, _, _) =>
      if AmendProblem(e, r) == None {
        AmendKeepsBand(e, Incoming(r.id, e.orders[r.id].user, e.orders[r.id].buy, r.price, r.count));
      }
  }

  lemma SubmitKeepsBand(e: Engine, t: nat, o: Incoming, terms: Terms)
    requires EngineOk(e) && BooksInBand(e) && t in e.markets
    requires o.price > 0 && e.markets[t].minPrice <= o.price <= e.markets[t].maxPrice
    ensures BooksInBand(Accepted(e, t, o, terms)) && SameRules(e, Accepted(e, t, o, terms))
  {
    var m := e.markets[t];
    assert MarketOk(m);
    SubmitInBand(m.book, o, terms, m.minPrice, m.maxPrice);
    MarketInBand(e, t, SubmitMarket(m, o, terms), Accepted(e, t, o, terms).orders);
  }

  lemma AmendKeepsBand(e: Engine, o: Incoming)
    requires BooksInBand(e) && o.id in e.orders && e.orders[o.id].ticker in e.markets
    requires o.price > 0 && e.markets[e.orders[o.id].ticker].minPrice <= o.price
             <= e.markets[e.orders[o.id].ticker].maxPrice
    ensures BooksInBand(AmendedIn(e, o)) && SameRules(e, AmendedIn(e, o))
  {
    var t := e.orders[o.id].ticker;
    var m := e.markets[t];
    CancelInBand(m.book, o.id, m.minPrice, m.maxPrice);
    AddedInBand(Cancelled(m.book, o.id), o, m.minPrice, m.maxPrice);
    MarketInBand(e, t, AmendMarket(m, o), AmendedIn(e, o).orders);
  }

  /** Over every run each resting price is positive and in its market's band, whichever commands were refused. */
  lemma {:induction false} RunInBand(rs: seq<Request>)
    ensures BooksInBand(RunEngine(FRESH, rs))
  {
    if rs != [] {
      RunInBand(rs[..|rs| - 1]);
      RunKeeps(FRESH, rs[..|rs| - 1]);
      ApplyInBand(RunEngine(FRESH, rs[..|rs| - 1]), rs[|rs| - 1]);
    }
  }

  /** A closed book takes no order and no amendment any more; cancels go on. */
  lemma ClosedBookTakesNothing(e: Engine, r: Request)
    requires r.SubmitOrder? || r.AmendOrder?
    requires r.SubmitOrder? ==> r.ticker.Some? && r.ticker.value in e.markets && e.markets[r.ticker.value].closed
    requires r.AmendOrder? ==>
               r.id in e.orders && e.orders[r.id].ticker in e.markets && e.markets[e.orders[r.id].ticker].closed
    ensures Apply(e, r).0 == e && Apply(e, r).1 != Done
    ensures r.AmendOrder? && Rests(e.markets[e.orders[r.id].ticker].book, e.orders[r.id].buy, r.id) ==>
              Apply(e, CancelOrder(r.id)).1 == Done
  {
  }
}
