/** The engine's state and the methods that change it, proved against module MatchingEngines. */
module EngineServices {
  import opened Common
  import opened Matching
  import opened OrderBooks
  import opened BookStream
  import opened MatchingEngines
  import opened BookFeeds

  lemma PricesStep(side: seq<Resting>, k: nat)
    requires k < |side|
    ensures Prices(side[..k + 1]) == Prices(side[..k]) + {side[k].price}
  {
    assert side[..k + 1] == side[..k] + [side[k]];
    forall p ensures p in Prices(side[..k + 1]) <==> p in Prices(side[..k]) + {side[k].price} {
      if p == side[k].price { assert side[k] in side[..k + 1]; }
      if p in Prices(side[..k]) {
        var e :| e in side[..k] && e.price == p;
        assert e in side[..k + 1];
      }
    }
  }

  lemma TotalStep(side: seq<Resting>, k: nat, price: int)
    requires k < |side|
    ensures TotalAt(side[..k + 1], price)
            == TotalAt(side[..k], price) + if side[k].price == price then side[k].qty else 0
  {
    assert side[..k + 1][..k] == side[..k];
  }

  lemma UnlistedTotal(side: seq<Resting>, price: nat)
    requires price !in Prices(side)
    ensures TotalAt(side, price) == 0
  {
    forall e | e in side ensures e.price != price { assert e.price in Prices(side); }
    NothingAt(side, price);
  }

  /** The levels of one side at these prices. */
  function LevelsAt(side: seq<Resting>, bid: bool, prices: set<nat>): Depth {
    map p | p in prices :: Level(bid, p) := TotalAt(side, p)
  }

  lemma LevelOfSide(side: seq<Resting>, bid: bool, prices: set<nat>, level: Level)
    ensures level in LevelsAt(side, bid, prices) <==> level.bid == bid && level.price >= 0 && level.price in prices
    ensures level in LevelsAt(side, bid, prices) ==> LevelsAt(side, bid, prices)[level] == TotalAt(side, level.price)
  {
    if level.price >= 0 { assert level == Level(level.bid, level.price); }
  }

  lemma SameDepth(d: Depth, e: Depth)
    requires forall level: Level :: (level in d <==> level in e) && (level in d ==> d[level] == e[level])
    ensures d == e
  {
  }

  lemma SideDepthStep(side: seq<Resting>, bid: bool, k: nat, d: Depth, next: Depth)
    requires k < |side| && d == SideDepth(side[..k], bid) && next == SideDepth(side[..k + 1], bid)
    ensures var level := Level(bid, side[k].price); next == d[level := QtyAt(d, level) + side[k].qty]
  {
    var here := Level(bid, side[k].price);
    var stepped := d[here := QtyAt(d, here) + side[k].qty];
    PricesStep(side, k);
    forall level: Level ensures (level in next <==> level in stepped)
        && (level in next ==> next[level] == stepped[level]) {
      LevelStep(side, bid, k, level);
    }
    SameDepth(next, stepped);
  }

  lemma LevelStep(side: seq<Resting>, bid: bool, k: nat, level: Level)
    requires k < |side|
    ensures var d, next, here := SideDepth(side[..k], bid), SideDepth(side[..k + 1], bid), Level(bid, side[k].price);
            && (level in next <==> level in d || level == here)
            && (level in next ==> next[level] == QtyAt(d, level) + if level == here then side[k].qty else 0)
  {
    PricesStep(side, k);
    LevelOfSide(side[..k], bid, Prices(side[..k]), level);
    LevelOfSide(side[..k + 1], bid, Prices(side[..k + 1]), level);
    TotalStep(side, k, level.price);
    if level.price >= 0 && level.price !in Prices(side[..k]) { UnlistedTotal(side[..k], level.price); }
    assert SideDepth(side[..k], bid) == LevelsAt(side[..k], bid, Prices(side[..k]));
    assert SideDepth(side[..k + 1], bid) == LevelsAt(side[..k + 1], bid, Prices(side[..k + 1]));
  }

  /** The totals of one side, entry by entry. */
  method TotalsOf(side: seq<Resting>, bid: bool) returns (d: Depth)
    ensures d == SideDepth(side, bid)
  {
    d := map[];
    for k := 0 to |side|
      invariant d == SideDepth(side[..k], bid)
    {
      SideDepthStep(side, bid, k, d, SideDepth(side[..k + 1], bid));
      var level := Level(bid, side[k].price);
      d := d[level := QtyAt(d, level) + side[k].qty];
    }
    assert side[..|side|] == side;
  }

  /** The end of a book operation. */
  method NotifyMarket(m: Market, book: BookState, events: nat, noticed: bool) returns (r: Market)
    ensures r == Notify(m, book, events, noticed)
  {
    var seqNo := m.contractSeq + events;
    r := m.(book := book, contractSeq := seqNo);
    if noticed {
      var bids := TotalsOf(book.bids, true);
      var asks := TotalsOf(book.asks, false);
      var deltas := EmitLevels(m.previous, bids + asks, seqNo);
      r := r.(previous := bids + asks, contractSeq := seqNo + |deltas|, deltas := m.deltas + deltas);
    }
  }

  /** A prechecked order is matched, and what is left rests or is cut. */
  method SubmitToBook(b: BookState, o: Incoming, terms: Terms) returns (book: BookState, trades: seq<Trade>, left: nat)
    requires GoodBook(b) && Precheck(o, Opposite(b, o.buy), terms.fok, terms.postOnly, terms.stp) == None
    ensures book == Submitted(b, o, terms).0 && trades == Walk(o, Opposite(b, o.buy), o.qty).0
            && left == Walk(o, Opposite(b, o.buy), o.qty).2
  {
    var after;
    trades, after, left := Match(o, Opposite(b, o.buy), terms.fok);
    book := if o.buy then b.(asks := after) else b.(bids := after);
    if left > 0 && !(terms.ioc || terms.fok) {
      var side := OrderBook.InsertLoop(!o.buy, SideOf(book, o.buy), Resting(o.id, o.user, o.price, left));
      book := if o.buy then book.(bids := side) else book.(asks := side);
    }
  }

  /** Prechecked orders: matched, rested or cut, and announced. */
  method AddToMarket(m: Market, o: Incoming, terms: Terms) returns (r: Market, trades: seq<Trade>)
    requires GoodBook(m.book) && Precheck(o, Opposite(m.book, o.buy), terms.fok, terms.postOnly, terms.stp) == None
    ensures r == SubmitMarket(m, o, terms) && trades == Walk(o, Opposite(m.book, o.buy), o.qty).0
  {
    var book, left;
    book, trades, left := SubmitToBook(m.book, o, terms);
    var immediate := terms.ioc || terms.fok;
    var events := 1 + |trades| + if immediate && left > 0 then 1 else 0;
    r := NotifyMarket(m, book, events, AddNoticed(m.book, o, immediate, trades));
  }

  predicate OnePrice(side: seq<Resting>, i: nat, k: nat, price: nat)
    requires i <= k <= |side|
  {
    forall x :: i <= x < k ==> side[x].price == price
  }

  lemma TotalFrom(side: seq<Resting>, i: nat, k: nat, price: nat)
    requires i <= k < |side| && side[k].price == price
    ensures TotalAt(side[i..k + 1], price) == TotalAt(side[i..k], price) + side[k].qty
  {
    assert side[i..k + 1] == side[i..k] + [side[k]] && side[i..k + 1][..k - i] == side[i..k];
  }

  lemma GroupEnds(side: seq<Resting>, bid: bool, i: nat, k: nat, price: nat)
    requires i < k <= |side| && Sorted(!bid, side) && side[i].price == price && (k < |side| ==> side[k].price != price)
    ensures forall y :: k <= y < |side| ==> side[y].price != price
  {
  }

  /** The orders at one price, from the first of them on: where they end and what they have together. */
  method LevelAt(side: seq<Resting>, bid: bool, i: nat) returns (k: nat, total: int)
    requires i < |side| && Sorted(!bid, side) && Boundary(side, i)
    ensures i < k <= |side| && Boundary(side, k) && total == TotalAt(side, side[i].price)
    ensures Prices(side[..k]) == Prices(side[..i]) + {side[i].price} && side[i].price !in Prices(side[..i])
  {
    var price := side[i].price;
    total, k := 0, i;
    assert side[i..i] == [];
    while k < |side| && side[k].price == price
      invariant i <= k <= |side| && total == TotalAt(side[i..k], price) && OnePrice(side, i, k, price)
    {
      TotalFrom(side, i, k, price);
      total := total + side[k].qty;
      k := k + 1;
    }
    GroupEnds(side, bid, i, k, price);
    GroupTotal(side, i, k, price);
    GroupPrices(side, i, k, price);
  }

  lemma LevelsAtMore(side: seq<Resting>, bid: bool, prices: set<nat>, price: nat)
    ensures LevelsAt(side, bid, prices)[Level(bid, price) := TotalAt(side, price)]
            == LevelsAt(side, bid, prices + {price})
  {
    var d, next := LevelsAt(side, bid, prices)[Level(bid, price) := TotalAt(side, price)],
                   LevelsAt(side, bid, prices + {price});
    assert d.Keys == next.Keys;
    forall level | level in d ensures d[level] == next[level] {}
  }

  /** The first `count` levels of the side, which end before the `i`-th entry. */
  predicate FirstLevels(side: seq<Resting>, bid: bool, i: nat, count: nat, d: Depth)
    requires i <= |side|
  {
    Boundary(side, i) && count == |Prices(side[..i])| && d == LevelsAt(side, bid, Prices(side[..i]))
  }

  lemma OneMoreLevel(side: seq<Resting>, bid: bool, i: nat, k: nat, count: nat, d: Depth, total: int)
    requires i < k <= |side| && FirstLevels(side, bid, i, count, d) && Boundary(side, k)
             && total == TotalAt(side, side[i].price)
    requires Prices(side[..k]) == Prices(side[..i]) + {side[i].price} && side[i].price !in Prices(side[..i])
    ensures FirstLevels(side, bid, k, count + 1, d[Level(bid, side[i].price) := total])
  {
    LevelsAtMore(side, bid, Prices(side[..i]), side[i].price);
  }

  lemma NoLevels(side: seq<Resting>, bid: bool)
    ensures FirstLevels(side, bid, 0, 0, map[])
  {
    assert Prices(side[..0]) == {};
  }

  /** `apply_snapshot` of one side: price by price, best first, at most `limit` of them. */
  method SnapshotSide(side: seq<Resting>, bid: bool, limit: nat) returns (d: Depth)
    requires Sorted(!bid, side)
    ensures d == LevelsAt(side, bid, Nearest(side, bid, limit))
  {
    d := map[];
    var at, count := 0, 0;
    NoLevels(side, bid);
    while at < |side| && count < limit
      invariant at <= |side| && count <= limit && FirstLevels(side, bid, at, count, d)
      decreases |side| - at
    {
      var k, total := LevelAt(side, bid, at);
      OneMoreLevel(side, bid, at, k, count, d, total);
      d := d[Level(bid, side[at].price) := total];
      at, count := k, count + 1;
    }
    FirstAreNearest(side, bid, at, limit);
  }

  function Nearest(side: seq<Resting>, bid: bool, limit: nat): set<nat> {
    set p | p in Prices(side) && |BetterPrices(bid, side, p)| < limit
  }

  /** The prices before a boundary are the best there are. */
  lemma FirstAreNearest(side: seq<Resting>, bid: bool, i: nat, limit: nat)
    requires Sorted(!bid, side) && i <= |side| && Boundary(side, i) && |Prices(side[..i])| <= limit
    requires i == |side| || |Prices(side[..i])| == limit
    ensures Prices(side[..i]) == Nearest(side, bid, limit)
  {
    forall p: nat ensures p in Prices(side[..i]) <==> p in Nearest(side, bid, limit) {
      if p in Prices(side[..i]) {
        FirstPrices(side, bid, i, p);
      } else if p in Prices(side) {
        LaterPrices(side, bid, i, p);
      }
    }
  }

  lemma FirstPrices(side: seq<Resting>, bid: bool, i: nat, p: nat)
    requires Sorted(!bid, side) && i <= |side| && Boundary(side, i) && p in Prices(side[..i])
    ensures p in Prices(side) && |BetterPrices(bid, side, p)| < |Prices(side[..i])|
  {
    var e :| e in side[..i] && e.price == p;
    var x :| 0 <= x < i && side[..i][x] == e;
    assert side[x] in side;
    forall q | q in BetterPrices(bid, side, p) ensures q in Prices(side[..i]) - {p} {
      var f :| f in side && f.price == q;
      var y :| 0 <= y < |side| && side[y] == f;
      assert y < x;
      assert side[..i][y] == f;
    }
    SmallerSet(BetterPrices(bid, side, p), Prices(side[..i]) - {p});
  }

  lemma EarlierPrice(side: seq<Resting>, i: nat, x: nat)
    requires i <= |side| && x < i
    ensures side[x].price in Prices(side[..i])
  {
    assert side[..i][x] == side[x];
  }

  lemma LaterPrices(side: seq<Resting>, bid: bool, i: nat, p: nat)
    requires Sorted(!bid, side) && i <= |side| && Boundary(side, i) && p in Prices(side) && p !in Prices(side[..i])
    ensures i < |side| && |BetterPrices(bid, side, p)| >= |Prices(side[..i])|
  {
    var e :| e in side && e.price == p;
    var x :| 0 <= x < |side| && side[x] == e;
    forall y | 0 <= y < i ensures side[y].price in Prices(side[..i]) { EarlierPrice(side, i, y); }
    forall q | q in Prices(side[..i]) ensures q in BetterPrices(bid, side, p) {
      var f :| f in side[..i] && f.price == q;
      var y :| 0 <= y < i && side[..i][y] == f;
      assert side[y] in side && side[y].price != side[x].price;
    }
    SmallerSet(Prices(side[..i]), BetterPrices(bid, side, p));
  }

  /** No price continues across `i`. */
  predicate Boundary(side: seq<Resting>, i: nat)
    requires i <= |side|
  {
    forall x, y :: 0 <= x < i <= y < |side| ==> side[x].price != side[y].price
  }

  lemma {:induction false} OtherPrices(side: seq<Resting>, price: int)
    requires forall x :: 0 <= x < |side| ==> side[x].price != price
    ensures TotalAt(side, price) == 0
  {
    if side != [] { OtherPrices(side[..|side| - 1], price); }
  }

  lemma GroupTotal(side: seq<Resting>, i: nat, k: nat, price: nat)
    requires i < k <= |side| && Boundary(side, i) && OnePrice(side, i, k, price)
    requires forall y :: k <= y < |side| ==> side[y].price != price
    ensures TotalAt(side, price) == TotalAt(side[i..k], price)
  {
    assert forall x :: 0 <= x < i ==> side[x].price != side[i].price;
    TotalConcat(side[..i], side[i..k], price);
    TotalConcat(side[..i] + side[i..k], side[k..], price);
    OtherPrices(side[..i], price);
    OtherPrices(side[k..], price);
    assert side[..i] + side[i..k] + side[k..] == side;
  }

  lemma GroupPrices(side: seq<Resting>, i: nat, k: nat, price: nat)
    requires i < k <= |side| && Boundary(side, i) && OnePrice(side, i, k, price)
    requires forall y :: k <= y < |side| ==> side[y].price != price
    ensures Boundary(side, k) && Prices(side[..k]) == Prices(side[..i]) + {price} && price !in Prices(side[..i])
  {
    assert side[i].price == price;
    forall p ensures p in Prices(side[..k]) <==> p in Prices(side[..i]) + {price} {
      if p in Prices(side[..k]) {
        var e :| e in side[..k] && e.price == p;
        var x :| 0 <= x < k && side[..k][x] == e;
        if x < i { assert side[..i][x] == e; }
      }
      if p in Prices(side[..i]) {
        var e :| e in side[..i] && e.price == p;
        var x :| 0 <= x < i && side[..i][x] == e;
        assert side[..k][x] == e;
      }
      if p == price { assert side[..k][i].price == price; }
    }
  }

  function NearSide(b: BookState, bid: bool, limit: nat): Depth {
    LevelsAt(SideOf(b, bid), bid, Nearest(SideOf(b, bid), bid, limit))
  }

  lemma LevelOfDepth(b: BookState, level: Level)
    ensures level in DepthOf(b) <==> level.price >= 0 && level.price in Prices(SideOf(b, level.bid))
    ensures level in DepthOf(b) ==> DepthOf(b)[level] == BookQty(b, level)
  {
    LevelOfSide(b.bids, true, Prices(b.bids), level);
    LevelOfSide(b.asks, false, Prices(b.asks), level);
    assert SideDepth(b.bids, true) == LevelsAt(b.bids, true, Prices(b.bids));
    assert SideDepth(b.asks, false) == LevelsAt(b.asks, false, Prices(b.asks));
  }

  lemma LevelOfSnapshot(b: BookState, limit: nat, level: Level)
    ensures level in SnapshotOf(b, limit) <==> level in NearSide(b, level.bid, limit)
    ensures level !in NearSide(b, !level.bid, limit)
    ensures level in SnapshotOf(b, limit) ==> SnapshotOf(b, limit)[level] == NearSide(b, level.bid, limit)[level]
  {
    LevelOfDepth(b, level);
    LevelOfSide(SideOf(b, level.bid), level.bid, Nearest(SideOf(b, level.bid), level.bid, limit), level);
    LevelOfSide(SideOf(b, !level.bid), !level.bid, Nearest(SideOf(b, !level.bid), !level.bid, limit), level);
  }

  lemma SidesTogether(b: BookState, limit: nat, bids: Depth, asks: Depth, all: Depth)
    requires bids == NearSide(b, true, limit) && asks == NearSide(b, false, limit) && all == SnapshotOf(b, limit)
    ensures bids + asks == all
  {
    forall level: Level ensures (level in bids + asks <==> level in all)
        && (level in all ==> (bids + asks)[level] == all[level]) {
      LevelOfSnapshot(b, limit, level);
    }
    SameDepth(all, bids + asks);
  }

  /** `apply_snapshot`: at most 25 levels a side, whatever is asked for. */
  method Snapshot(b: BookState, depth: int) returns (d: Depth)
    requires GoodBook(b)
    ensures d == SnapshotOf(b, if depth <= 0 || depth > TRACKED then TRACKED else depth)
  {
    var limit: nat := if depth <= 0 || depth > TRACKED then TRACKED else depth;
    var bids := SnapshotSide(b.bids, true, limit);
    var asks := SnapshotSide(b.asks, false, limit);
    SidesTogether(b, limit, bids, asks, SnapshotOf(b, limit));
    d := bids + asks;
  }

  class MatchingEngine {
    var markets: map<nat, Market>
    var orders: map<nat, OrderRecord>
    var globalSeq: nat

    constructor ()
      ensures Valid() && State() == FRESH
    {
      markets, orders, globalSeq := map[], map[], 0;
    }

    ghost function State(): Engine
      reads this
    {
      Engine(markets, orders, globalSeq)
    }

    ghost predicate Valid()
      reads this
    {
      EngineOk(State())
    }

    /** Stores a market after an operation; its new events count once in it and once in all. */
    method Store(ticker: nat, m: Market)
      requires ticker in markets && markets[ticker].contractSeq <= m.contractSeq
      modifies this`markets, this`globalSeq
      ensures State() == WithMarket(old(State()), ticker, m, orders)
    {
      globalSeq := globalSeq + (m.contractSeq - markets[ticker].contractSeq);
      markets := markets[ticker := m];
    }

    /** `on_fill` for each trade of the order. */
    method RecordFills(taker: nat, trades: seq<Trade>)
      modifies this`orders
      ensures orders == WithFills(old(orders), taker, trades)
    {
      for k := 0 to |trades|
        invariant orders == WithFills(old(orders), taker, trades[..k])
      {
        assert trades[..k + 1][..k] == trades[..k];
        orders := WithFill(WithFill(orders, taker, trades[k].qty), trades[k].maker, trades[k].qty);
      }
      assert trades[..|trades|] == trades;
    }

    method AddBook(r: Request) returns (code: Code)
      requires Valid() && r.AddBook?
      modifies this
      ensures Valid() && (State(), code) == AddBookTo(old(State()), r)
    {
      AddBookKeeps(State(), r);
      if r.ticker.None? || r.tickSize <= 0 || r.minPrice < 0 || r.maxPrice < r.minPrice {
        return InvalidBook;
      }
      if r.ticker.value in markets {
        return BookExists;
      }
      markets := markets[r.ticker.value := Market(r.minPrice, r.maxPrice, false, BookState([], []), map[], 0, [])];
      code := Done;
    }

    method CloseBook(r: Request) returns (code: Code)
      requires Valid() && r.CloseBook?
      modifies this
      ensures Valid() && (State(), code) == CloseBookOf(old(State()), r)
    {
      CloseBookKeeps(State(), r);
      if r.ticker.None? || r.ticker.value !in markets {
        return BookNotFound;
      }
      var m := markets[r.ticker.value];
      if m.closed {
        return BookAlreadyClosed;
      }
      Store(r.ticker.value, m.(closed := true, contractSeq := m.contractSeq + 1));
      code := Done;
    }

    /** The checks before an order reaches the book, in the engine's order. */
    method CheckSubmit(r: Request) returns (problem: Option<Code>)
      requires r.SubmitOrder?
      ensures problem == SubmitProblem(State(), r)
    {
      if r.name.None? || r.user.None? || r.ticker.None? {
        return Some(InvalidOrder);
      }
      if r.name.value in orders {
        return Some(OrderExists);
      }
      if r.ticker.value !in markets {
        return Some(BookNotFound);
      }
      var m := markets[r.ticker.value];
      if m.closed {
        return Some(BookClosed);
      }
      if r.count <= 0 || r.price <= 0 || !r.sided {
        return Some(InvalidOrder);
      }
      if r.price < m.minPrice || r.price > m.maxPrice {
        return Some(PriceOutOfBounds);
      }
      var reject := PrecheckLoop(IncomingOf(r), Opposite(m.book, r.buy), r.terms.fok, r.terms.postOnly, r.terms.stp);
      problem := if reject.Some? then Some(Refused(reject.value)) else None;
    }

    /** An order that passed the checks reaches the book; its record counts every fill. */
    method Accept(ticker: nat, o: Incoming, terms: Terms)
      requires ticker in markets && GoodBook(markets[ticker].book)
      requires Precheck(o, Opposite(markets[ticker].book, o.buy), terms.fok, terms.postOnly, terms.stp) == None
      modifies this
      ensures State() == Accepted(old(State()), ticker, o, terms)
    {
      var m := markets[ticker];
      var after, trades := AddToMarket(m, o, terms);
      orders := orders[o.id := OrderRecord(o.user, ticker, o.buy, o.price, o.qty, 0)];
      RecordFills(o.id, trades);
      Store(ticker, after);
    }

    method SubmitOrder(r: Request) returns (code: Code)
      requires Valid() && r.SubmitOrder?
      modifies this
      ensures Valid() && (State(), code) == SubmitTo(old(State()), r)
    {
      SubmitKeeps(State(), r);
      code := Done;
      var problem := CheckSubmit(r);
      if problem.Some? {
        code := problem.value;
      } else {
        Accept(r.ticker.value, IncomingOf(r), r.terms);
      }
    }

    method CancelOrder(id: nat) returns (code: Code)
      requires Valid()
      modifies this
      ensures Valid() && (State(), code) == CancelIn(old(State()), id)
    {
      CancelKeeps(State(), id);
      if id !in orders {
        return OrderNotFound;
      }
      var order := orders[id];
      if order.ticker !in markets {
        return BookNotFound;
      }
      var m := markets[order.ticker];
      if !Rests(m.book, order.buy, id) {
        return OrderNotOpen;
      }
      CancelMarketKeeps(m, order.buy, id);
      var after := NotifyMarket(m, Cancelled(m.book, id), 1, CancelNoticed(m.book, order.buy, id));
      Store(order.ticker, after);
      code := Done;
    }

    method CheckAmend(r: Request) returns (problem: Option<Code>)
      requires r.AmendOrder?
      ensures problem == AmendProblem(State(), r)
    {
      if r.id !in orders {
        return Some(OrderNotFound);
      }
      var order := orders[r.id];
      if order.ticker !in markets || markets[order.ticker].closed {
        return Some(BookNotOpen);
      }
      var m := markets[order.ticker];
      if r.price <= 0 || r.count <= 0 || r.count < order.filled {
        return Some(InvalidAmend);
      }
      if r.price < m.minPrice || r.price > m.maxPrice {
        return Some(PriceOutOfBounds);
      }
      if order.filled != 0 {
        return Some(AmendPartial);
      }
      var crosses := CrossesLoop(Incoming(r.id, order.user, order.buy, r.price, r.count), Opposite(m.book, order.buy));
      problem := if crosses then Some(AmendMatches) else if !Rests(m.book, order.buy, r.id) then Some(OrderNotOpen)
          else None;
    }

    /** An amendment that passed the checks. */
    method Amend(o: Incoming)
      requires o.id in orders && orders[o.id].ticker in markets
      modifies this
      ensures State() == AmendedIn(old(State()), o)
    {
      var order := orders[o.id];
      var after := AmendBook(markets[order.ticker], o);
      orders := orders[o.id := order.(price := o.price, qty := o.qty)];
      Store(order.ticker, after);
    }

    method AmendOrder(r: Request) returns (code: Code)
      requires Valid() && r.AmendOrder?
      modifies this
      ensures Valid() && (State(), code) == AmendIn(old(State()), r)
    {
      AmendKeeps(State(), r);
      code := Done;
      var problem := CheckAmend(r);
      if problem.Some? {
        code := problem.value;
      } else {
        Amend(Incoming(r.id, orders[r.id].user, orders[r.id].buy, r.price, r.count));
      }
    }

    /** Off the book and on again, with the deltas of each, and one event behind them. */
    static method AmendBook(m: Market, o: Incoming) returns (r: Market)
      ensures r == AmendMarket(m, o)
    {
      var off := NotifyMarket(m, Cancelled(m.book, o.id), 0, CancelNoticed(m.book, o.buy, o.id));
      var side := OrderBook.InsertLoop(!o.buy, SideOf(off.book, o.buy), Resting(o.id, o.user, o.price, o.qty));
      var book := if o.buy then off.book.(bids := side) else off.book.(asks := side);
      var on := NotifyMarket(off, book, 0, AddNoticed(off.book, o, false, []));
      r := on.(contractSeq := on.contractSeq + 1);
    }
  }
}
