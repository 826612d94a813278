/**
  The engine: its markets and orders, its sequence counters, and the depth deltas it publishes. A
  market's book keeps every level, but only a change the 25-level depth tracker notices is announced.
 */
module MatchingEngines {
  import opened Common
  import opened Matching
  import opened OrderBooks
  import opened BookStream

  /** `previous` is the depth as last announced, `deltas` everything published for the market. */
  datatype Market = Market(minPrice: int, maxPrice: int, closed: bool, book: BookState, previous: Depth,
                           contractSeq: nat, deltas: seq<Delta>)

  datatype OrderRecord = OrderRecord(user: nat, ticker: nat, buy: bool, price: nat, qty: nat, filled: nat)

  datatype Engine = Engine(markets: map<nat, Market>, orders: map<nat, OrderRecord>, globalSeq: nat)

  const FRESH := Engine(map[], map[], 0)

  /** Names are None when the request leaves them empty; `sided` says whether side and action are given. */
  datatype Request =
    | AddBook(ticker: Option<nat>, tickSize: int, minPrice: int, maxPrice: int)
    | CloseBook(ticker: Option<nat>)
    | SubmitOrder(name: Option<nat>, user: Option<nat>, ticker: Option<nat>, price: int, count: int, sided: bool,
                  buy: bool, terms: Terms)
    | CancelOrder(id: nat)
    | AmendOrder(id: nat, price: int, count: int)

  datatype Code =
    | Done | InvalidBook | BookExists | BookNotFound | BookAlreadyClosed | InvalidOrder | OrderExists | BookClosed
    | PriceOutOfBounds | Refused(reject: Reject) | OrderNotFound | OrderNotOpen | BookNotOpen | InvalidAmend
    | AmendPartial | AmendMatches

  // ---------------------------------------------------------------- depth

  const TRACKED: nat := 25

  function Prices(side: seq<Resting>): set<nat> { set e | e in side :: e.price }

  function TotalAt(side: seq<Resting>, price: int): int {
    if side == [] then 0
    else TotalAt(side[..|side| - 1], price) + if side[|side| - 1].price == price then side[|side| - 1].qty else 0
  }

  function SideOf(b: BookState, bid: bool): seq<Resting> { if bid then b.bids else b.asks }

  /** What the book has at a level. */
  function BookQty(b: BookState, level: Level): int { TotalAt(SideOf(b, level.bid), level.price) }

  function SideDepth(side: seq<Resting>, bid: bool): Depth {
    map p | p in Prices(side) :: Level(bid, p) := TotalAt(side, p)
  }

  function DepthOf(b: BookState): Depth { SideDepth(b.bids, true) + SideDepth(b.asks, false) }

  lemma {:induction false} NothingAt(side: seq<Resting>, price: int)
    requires forall e :: e in side ==> e.price != price
    ensures TotalAt(side, price) == 0
  {
    if side != [] {
      assert side[|side| - 1] in side;
      NothingAt(side[..|side| - 1], price);
    }
  }

  lemma DepthShows(b: BookState, level: Level)
    ensures QtyAt(DepthOf(b), level) == BookQty(b, level)
  {
    if level !in DepthOf(b) {
      var side := SideOf(b, level.bid);
      forall e | e in side ensures e.price != level.price {
        assert e.price in Prices(side);
        assert Level(level.bid, e.price) in SideDepth(side, level.bid);
      }
      NothingAt(side, level.price);
    }
  }

  /** The occupied prices that are better than this one. */
  function BetterPrices(bid: bool, side: seq<Resting>, price: nat): set<nat> {
    set p | p in Prices(side) && if bid then p > price else p < price
  }

  /** The tracker holds the best 25 prices of a side; what it pushes behind them it does not report. */
  predicate Visible(bid: bool, side: seq<Resting>, price: nat) { |BetterPrices(bid, side, price)| < TRACKED }

  /**
    Whether the tracker notices an accepted order: it trades, its own price is visible, or it is an
    immediate order whose cancelled rest leaves others at its price.
   */
  predicate AddNoticed(b: BookState, o: Incoming, immediate: bool, trades: seq<Trade>) {
    trades != [] || Visible(o.buy, SideOf(b, o.buy), o.price) || (immediate && o.price in Prices(SideOf(b, o.buy)))
  }

  /** Whether it notices a cancel: at a visible price, or at one where other orders stay. */
  predicate CancelNoticed(b: BookState, buy: bool, id: nat) {
    exists e :: e in SideOf(b, buy) && e.id == id
                && (Visible(buy, SideOf(b, buy), e.price)
                    || exists x :: x in SideOf(b, buy) && x.id != id && x.price == e.price)
  }

  /**
    The end of a book operation: `events` of its own are numbered, and then, if it
    was noticed, what changed since last time.
   */
  ghost function Notify(m: Market, book: BookState, events: nat, noticed: bool): Market {
    var seqNo := m.contractSeq + events;
    if !noticed then m.(book := book, contractSeq := seqNo)
    else
      var deltas := DeltasFor(m.previous, DepthOf(book), seqNo);
      m.(book := book, previous := DepthOf(book), contractSeq := seqNo + |deltas|, deltas := m.deltas + deltas)
  }

  // ---------------------------------------------------------------- commands

  function WithFill(orders: map<nat, OrderRecord>, id: nat, qty: nat): map<nat, OrderRecord> {
    if id in orders then orders[id := orders[id].(filled := orders[id].filled + qty)] else orders
  }

  /** `on_fill` for each trade: both orders have more filled. */
  function WithFills(orders: map<nat, OrderRecord>, taker: nat, trades: seq<Trade>): map<nat, OrderRecord> {
    if trades == [] then orders
    else
      var t := trades[|trades| - 1];
      WithFill(WithFill(WithFills(orders, taker, trades[..|trades| - 1]), taker, t.qty), t.maker, t.qty)
  }

  /** The engine with one market changed; every event counts once in the market and once in all. */
  function WithMarket(e: Engine, ticker: nat, m: Market, orders: map<nat, OrderRecord>): Engine
    requires ticker in e.markets && e.markets[ticker].contractSeq <= m.contractSeq
  {
    Engine(e.markets[ticker := m], orders, e.globalSeq + (m.contractSeq - e.markets[ticker].contractSeq))
  }

  function SubmitProblem(e: Engine, r: Request): Option<Code>
    requires r.SubmitOrder?
  {
    if r.name.None? || r.user.None? || r.ticker.None? then Some(InvalidOrder)
    else if r.name.value in e.orders then Some(OrderExists)
    else if r.ticker.value !in e.markets then Some(BookNotFound)
    else
      var m := e.markets[r.ticker.value];
      if m.closed then Some(BookClosed)
      else if r.count <= 0 || r.price <= 0 || !r.sided then Some(InvalidOrder)
      else if r.price < m.minPrice || r.price > m.maxPrice then Some(PriceOutOfBounds)
      else
        var o := Incoming(r.name.value, r.user.value, r.buy, r.price, r.count);
        match Precheck(o, Opposite(m.book, r.buy), r.terms.fok, r.terms.postOnly, r.terms.stp)
        case Some(reject) => Some(Refused(reject))
        case None => None
  }

  function IncomingOf(r: Request): Incoming
    requires r.SubmitOrder? && r.name.Some? && r.user.Some? && r.price > 0 && r.count > 0
  {
    Incoming(r.name.value, r.user.value, r.buy, r.price, r.count)
  }

  /** Accepted, filled, and, for an immediate order with something left, cancelled. */
  function SubmitEvents(m: Market, o: Incoming, terms: Terms): nat {
    var (trades, _, left) := Walk(o, Opposite(m.book, o.buy), o.qty);
    1 + |trades| + if (terms.ioc || terms.fok) && left > 0 then 1 else 0
  }

  ghost function SubmitMarket(m: Market, o: Incoming, terms: Terms): Market {
    var trades := Walk(o, Opposite(m.book, o.buy), o.qty).0;
    Notify(m, Submitted(m.book, o, terms).0, SubmitEvents(m, o, terms),
           AddNoticed(m.book, o, terms.ioc || terms.fok, trades))
  }

  /** An order that passed the checks: the book's answer to it, and a record that counts its fills. */
  ghost function Accepted(e: Engine, ticker: nat, o: Incoming, terms: Terms): Engine
    requires ticker in e.markets
  {
    var m := e.markets[ticker];
    var trades := Walk(o, Opposite(m.book, o.buy), o.qty).0;
    var orders := e.orders[o.id := OrderRecord(o.user, ticker, o.buy, o.price, o.qty, 0)];
    WithMarket(e, ticker, SubmitMarket(m, o, terms), WithFills(orders, o.id, trades))
  }

  /** `apply_submit_order`. */
  ghost function SubmitTo(e: Engine, r: Request): (Engine, Code)
    requires r.SubmitOrder?
  {
    var problem := SubmitProblem(e, r);
    if problem.Some? then (e, problem.value) else (Accepted(e, r.ticker.value, IncomingOf(r), r.terms), Done)
  }

  ghost function CancelMarket(m: Market, buy: bool, id: nat): Market {
    Notify(m, Cancelled(m.book, id), 1, CancelNoticed(m.book, buy, id))
  }

  function CancelProblem(e: Engine, id: nat): Option<Code> {
    if id !in e.orders then Some(OrderNotFound)
    else if e.orders[id].ticker !in e.markets then Some(BookNotFound)
    else if !Rests(e.markets[e.orders[id].ticker].book, e.orders[id].buy, id) then Some(OrderNotOpen)
    else None
  }

  /** `apply_cancel_order`. */
  ghost function CancelIn(e: Engine, id: nat): (Engine, Code) {
    var problem := CancelProblem(e, id);
    if problem.Some? then (e, problem.value)
    else
      var order := e.orders[id];
      (WithMarket(e, order.ticker, CancelMarket(e.markets[order.ticker], order.buy, id), e.orders), Done)
  }

  function Added(b: BookState, o: Incoming): BookState {
    var e := Resting(o.id, o.user, o.price, o.qty);
    if o.buy then b.(bids := Insert(false, b.bids, e)) else b.(asks := Insert(true, b.asks, e))
  }

  /** A cancel and an addition, each noticed or not on its own, and one event for the amendment. */
  ghost function AmendMarket(m: Market, o: Incoming): Market {
    var off := Notify(m, Cancelled(m.book, o.id), 0, CancelNoticed(m.book, o.buy, o.id));
    var on := Notify(off, Added(off.book, o), 0, AddNoticed(off.book, o, false, []));
    on.(contractSeq := on.contractSeq + 1)
  }

  function AmendProblem(e: Engine, r: Request): Option<Code>
    requires r.AmendOrder?
  {
    if r.id !in e.orders then Some(OrderNotFound)
    else
      var order := e.orders[r.id];
      if order.ticker !in e.markets || e.markets[order.ticker].closed then Some(BookNotOpen)
      else
        var m := e.markets[order.ticker];
        if r.price <= 0 || r.count <= 0 || r.count < order.filled then Some(InvalidAmend)
        else if r.price < m.minPrice || r.price > m.maxPrice then Some(PriceOutOfBounds)
        else if order.filled != 0 then Some(AmendPartial)
        else if Crosses(Incoming(r.id, order.user, order.buy, r.price, r.count), Opposite(m.book, order.buy))
            then Some(AmendMatches)
        else if !Rests(m.book, order.buy, r.id) then Some(OrderNotOpen)
        else None
  }

  /** An amendment that passed the checks: the order loses its place and has its new price and quantity. */
  ghost function AmendedIn(e: Engine, o: Incoming): Engine
    requires o.id in e.orders && e.orders[o.id].ticker in e.markets
  {
    var order := e.orders[o.id];
    WithMarket(e, order.ticker, AmendMarket(e.markets[order.ticker], o),
               e.orders[o.id := order.(price := o.price, qty := o.qty)])
  }

  /** `apply_amend_order`. */
  ghost function AmendIn(e: Engine, r: Request): (Engine, Code)
    requires r.AmendOrder?
  {
    var problem := AmendProblem(e, r);
    if problem.Some? then (e, problem.value)
    else (AmendedIn(e, Incoming(r.id, e.orders[r.id].user, e.orders[r.id].buy, r.price, r.count)), Done)
  }

  function AddBookTo(e: Engine, r: Request): (Engine, Code)
    requires r.AddBook?
  {
    if r.ticker.None? || r.tickSize <= 0 || r.minPrice < 0 || r.maxPrice < r.minPrice then (e, InvalidBook)
    else if r.ticker.value in e.markets then (e, BookExists)
    else (e.(markets := e.markets[r.ticker.value :=
                                  Market(r.minPrice, r.maxPrice, false, BookState([], []), map[], 0, [])]), Done)
  }

  function CloseBookOf(e: Engine, r: Request): (Engine, Code)
    requires r.CloseBook?
  {
    if r.ticker.None? || r.ticker.value !in e.markets then (e, BookNotFound)
    else
      var m := e.markets[r.ticker.value];
      if m.closed then (e, BookAlreadyClosed)
      else (WithMarket(e, r.ticker.value, m.(closed := true, contractSeq := m.contractSeq + 1), e.orders), Done)
  }

  ghost function Apply(e: Engine, r: Request): (Engine, Code) {
    match r
    case AddBook(_, _, _, _) => AddBookTo(e, r)
    case CloseBook(_) => CloseBookOf(e, r)
    case SubmitOrder(_, _, _, _, _, _, _, _) => SubmitTo(e, r)
    case CancelOrder(id) => CancelIn(e, id)
    case AmendOrder(_, _, _) => AmendIn(e, r)
  }

  ghost function RunEngine(e: Engine, rs: seq<Request>): Engine {
    if rs == [] then e else Apply(RunEngine(e, rs[..|rs| - 1]), rs[|rs| - 1]).0
  }

  // ---------------------------------------------------------------- what every command keeps

  predicate Rising(deltas: seq<Delta>) { forall i, j :: 0 <= i < j < |deltas| ==> deltas[i].seqNo < deltas[j].seqNo }

  /** A sound book, and a stream that adds up to what was last announced, numbered within the counter. */
  ghost predicate MarketOk(m: Market) {
    && GoodBook(m.book)
    && (forall level :: QtyAt(ApplyAll(map[], m.deltas), level) == QtyAt(m.previous, level))
    && Rising(m.deltas) && forall i :: 0 <= i < |m.deltas| ==> m.deltas[i].seqNo <= m.contractSeq
  }

  ghost predicate EngineOk(e: Engine) { forall t :: t in e.markets ==> MarketOk(e.markets[t]) }

  /** The market later: nothing published is taken back, and what is new is numbered higher. */
  predicate Extends(m: Market, later: Market) {
    && m.deltas <= later.deltas && m.contractSeq <= later.contractSeq
    && forall i :: |m.deltas| <= i < |later.deltas| ==> later.deltas[i].seqNo > m.contractSeq
  }

  lemma ExtendsOn(a: Market, b: Market, c: Market)
    requires Extends(a, b) && Extends(b, c)
    ensures Extends(a, c)
  {
    forall i | |a.deltas| <= i < |c.deltas| ensures c.deltas[i].seqNo > a.contractSeq {
      if i < |b.deltas| { assert c.deltas[i] == b.deltas[i]; }
    }
  }

  lemma AnnounceMore(previous: Depth, deltas: seq<Delta>, more: seq<Delta>, level: Level)
    requires QtyAt(ApplyAll(map[], deltas), level) == QtyAt(previous, level)
    ensures QtyAt(ApplyAll(map[], deltas + more), level) == QtyAt(ApplyAll(previous, more), level)
  {
    ApplyConcat(map[], deltas, more);
    LastDecides(ApplyAll(map[], deltas), more, level);
    LastDecides(previous, more, level);
  }

  lemma NumberedHigher(deltas: seq<Delta>, more: seq<Delta>, from: nat)
    requires Rising(deltas) && forall i :: 0 <= i < |deltas| ==> deltas[i].seqNo <= from
    requires forall i :: 0 <= i < |more| ==> more[i].seqNo == from + 1 + i
    ensures Rising(deltas + more) && forall i :: 0 <= i < |deltas + more| ==> (deltas + more)[i].seqNo <= from + |more|
    ensures forall i :: |deltas| <= i < |deltas + more| ==> (deltas + more)[i].seqNo > from
  {
  }

  lemma NotifyKeeps(m: Market, book: BookState, events: nat, noticed: bool)
    requires MarketOk(m) && GoodBook(book)
    ensures MarketOk(Notify(m, book, events, noticed)) && Extends(m, Notify(m, book, events, noticed))
  {
    if noticed {
      var seqNo := m.contractSeq + events;
      var current := DepthOf(book);
      var more := DeltasFor(m.previous, current, seqNo);
      DeltasAreChanges(m.previous, current, seqNo);
      NumberedHigher(m.deltas, more, seqNo);
      AllAnnounced(m.previous, m.deltas, more, current);
    }
  }

  lemma AllAnnounced(previous: Depth, deltas: seq<Delta>, more: seq<Delta>, current: Depth)
    requires forall level :: QtyAt(ApplyAll(map[], deltas), level) == QtyAt(previous, level)
    requires forall level :: QtyAt(ApplyAll(previous, more), level) == QtyAt(current, level)
    ensures forall level :: QtyAt(ApplyAll(map[], deltas + more), level) == QtyAt(current, level)
  {
    forall level ensures QtyAt(ApplyAll(map[], deltas + more), level) == QtyAt(current, level) {
      AnnounceMore(previous, deltas, more, level);
    }
  }

  lemma SubmitMarketKeeps(m: Market, o: Incoming, terms: Terms)
    requires MarketOk(m)
    ensures MarketOk(SubmitMarket(m, o, terms)) && Extends(m, SubmitMarket(m, o, terms))
  {
    SubmitKeepsBook(m.book, o, terms);
    NotifyKeeps(m, Submitted(m.book, o, terms).0, SubmitEvents(m, o, terms),
                AddNoticed(m.book, o, terms.ioc || terms.fok, Walk(o, Opposite(m.book, o.buy), o.qty).0));
  }

  lemma CancelMarketKeeps(m: Market, buy: bool, id: nat)
    requires MarketOk(m)
    ensures MarketOk(CancelMarket(m, buy, id)) && Extends(m, CancelMarket(m, buy, id))
  {
    CancelKeepsBook(m.book, id);
    NotifyKeeps(m, Cancelled(m.book, id), 1, CancelNoticed(m.book, buy, id));
  }

  lemma AddedKeepsBook(b: BookState, o: Incoming)
    requires GoodBook(b) && o.qty > 0 && !Crosses(o, Opposite(b, o.buy))
    ensures GoodBook(Cancelled(b, o.id)) && GoodBook(Added(Cancelled(b, o.id), o))
  {
    CancelKeepsBook(b, o.id);
    CrossesIffOpen(o, Opposite(b, o.buy));
    NothingMeets(o, Opposite(b, o.buy));
    RemoveKeepsSorted(true, b.asks, o.id);
    RemoveKeepsSorted(false, b.bids, o.id);
    RestingKeepsBook(Cancelled(b, o.id), o, Resting(o.id, o.user, o.price, o.qty));
  }

  lemma AmendMarketKeeps(m: Market, o: Incoming)
    requires MarketOk(m) && o.qty > 0 && !Crosses(o, Opposite(m.book, o.buy))
    ensures MarketOk(AmendMarket(m, o)) && Extends(m, AmendMarket(m, o))
  {
    AddedKeepsBook(m.book, o);
    var off := Notify(m, Cancelled(m.book, o.id), 0, CancelNoticed(m.book, o.buy, o.id));
    NotifyKeeps(m, Cancelled(m.book, o.id), 0, CancelNoticed(m.book, o.buy, o.id));
    NotifyKeeps(off, Added(off.book, o), 0, AddNoticed(off.book, o, false, []));
    ExtendsOn(m, off, Notify(off, Added(off.book, o), 0, AddNoticed(off.book, o, false, [])));
  }

  /** Every market of the engine before is there after, and extends it. */
  predicate AllExtend(e: Engine, later: Engine) {
    forall t :: t in e.markets ==> t in later.markets && Extends(e.markets[t], later.markets[t])
  }

  lemma WithMarketKeeps(e: Engine, ticker: nat, m: Market, orders: map<nat, OrderRecord>)
    requires EngineOk(e) && ticker in e.markets && MarketOk(m) && Extends(e.markets[ticker], m)
    ensures EngineOk(WithMarket(e, ticker, m, orders)) && AllExtend(e, WithMarket(e, ticker, m, orders))
  {
  }

  lemma SubmitKeeps(e: Engine, r: Request)
    requires EngineOk(e) && r.SubmitOrder?
    ensures EngineOk(SubmitTo(e, r).0) && AllExtend(e, SubmitTo(e, r).0)
  {
    if SubmitProblem(e, r) == None {
      var o, m := IncomingOf(r), e.markets[r.ticker.value];
      SubmitMarketKeeps(m, o, r.terms);
      var orders := e.orders[o.id := OrderRecord(o.user, r.ticker.value, o.buy, o.price, o.qty, 0)];
      WithMarketKeeps(e, r.ticker.value, SubmitMarket(m, o, r.terms),
                      WithFills(orders, o.id, Walk(o, Opposite(m.book, o.buy), o.qty).0));
    }
  }

  lemma CancelKeeps(e: Engine, id: nat)
    requires EngineOk(e)
    ensures EngineOk(CancelIn(e, id).0) && AllExtend(e, CancelIn(e, id).0)
  {
    if CancelProblem(e, id) == None {
      var order := e.orders[id];
      CancelMarketKeeps(e.markets[order.ticker], order.buy, id);
      WithMarketKeeps(e, order.ticker, CancelMarket(e.markets[order.ticker], order.buy, id), e.orders);
    }
  }

  lemma AmendKeeps(e: Engine, r: Request)
    requires EngineOk(e) && r.AmendOrder?
    ensures EngineOk(AmendIn(e, r).0) && AllExtend(e, AmendIn(e, r).0)
  {
    if AmendProblem(e, r) == None {
      var order := e.orders[r.id];
      var o := Incoming(r.id, order.user, order.buy, r.price, r.count);
      AmendMarketKeeps(e.markets[order.ticker], o);
      WithMarketKeeps(e, order.ticker, AmendMarket(e.markets[order.ticker], o),
                      e.orders[r.id := order.(price := r.price, qty := r.count)]);
    }
  }

  lemma AddBookKeeps(e: Engine, r: Request)
    requires EngineOk(e) && r.AddBook?
    ensures EngineOk(AddBookTo(e, r).0) && AllExtend(e, AddBookTo(e, r).0)
  {
    if AddBookTo(e, r).1 == Done {
      NewMarketOk(r.minPrice, r.maxPrice);
      NewMarketKeeps(e, r.ticker.value, Market(r.minPrice, r.maxPrice, false, BookState([], []), map[], 0, []));
    }
    SameExtends(e);
  }

  lemma SameExtends(e: Engine)
    ensures AllExtend(e, e)
  {
  }

  lemma NewMarketKeeps(e: Engine, ticker: nat, m: Market)
    requires EngineOk(e) && ticker !in e.markets && MarketOk(m)
    ensures var after := e.(markets := e.markets[ticker := m]); EngineOk(after) && AllExtend(e, after)
  {
    SameExtends(e);
  }

  lemma NewMarketOk(minPrice: int, maxPrice: int)
    ensures MarketOk(Market(minPrice, maxPrice, false, BookState([], []), map[], 0, []))
  {
  }

  lemma CloseBookKeeps(e: Engine, r: Request)
    requires EngineOk(e) && r.CloseBook?
    ensures EngineOk(CloseBookOf(e, r).0) && AllExtend(e, CloseBookOf(e, r).0)
  {
    if CloseBookOf(e, r).1 == Done {
      var m := e.markets[r.ticker.value];
      WithMarketKeeps(e, r.ticker.value, m.(closed := true, contractSeq := m.contractSeq + 1), e.orders);
    }
  }

  /** Every command keeps every market sound and only adds to what is published. */
  lemma ApplyKeeps(e: Engine, r: Request)
    requires EngineOk(e)
    ensures EngineOk(Apply(e, r).0) && AllExtend(e, Apply(e, r).0)
  {
    match r
    case AddBook(_, _, _, _) => AddBookKeeps(e, r);
    case CloseBook(_) => CloseBookKeeps(e, r);
    case SubmitOrder(_, _, _, _, _, _, _, _) => SubmitKeeps(e, r);
    case CancelOrder(id) => CancelKeeps(e, id);
    case AmendOrder(_, _, _) => AmendKeeps(e, r);
  }

  lemma {:induction false} RunKeeps(e: Engine, rs: seq<Request>)
    requires EngineOk(e)
    ensures EngineOk(RunEngine(e, rs)) && AllExtend(e, RunEngine(e, rs))
  {
    if rs != [] {
      var before := RunEngine(e, rs[..|rs| - 1]);
      RunKeeps(e, rs[..|rs| - 1]);
      ApplyKeeps(before, rs[|rs| - 1]);
      var after := RunEngine(e, rs);
      forall t | t in e.markets ensures t in after.markets && Extends(e.markets[t], after.markets[t]) {
        ExtendsOn(e.markets[t], before.markets[t], after.markets[t]);
      }
    }
  }
}
