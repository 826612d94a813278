/**
  Price and time priority over whole runs of the engine. Orders at one price stand in the order
  of the commands that put them there, an order's record and its place in the book always add up,
  and no order is filled at all while one ahead of it has anything left.
 */
module TimePriority {
  import opened Common
  import opened Matching
  import opened OrderBooks
  import opened MatchingEngines

  predicate DistinctIds(side: seq<Resting>) { forall i, j :: 0 <= i < j < |side| ==> side[i].id != side[j].id }

  // ---------------------------------------------------------------- a walk takes the front

  /** A walk takes all of the first `k` entries and then `n` units, less than all, of the next. */
  predicate TakesFront(book: seq<Resting>, trades: seq<Trade>, after: seq<Resting>, k: nat, n: nat) {
    && k <= |book| && (n > 0 ==> k < |book| && n < book[k].qty)
    && trades == FilledAll(book[..k]) + (if n == 0 then [] else [Trade(book[k].id, book[k].user, book[k].price, n)])
    && after == if n == 0 then book[k..] else [book[k].(qty := book[k].qty - n)] + book[k + 1..]
  }

  lemma {:induction false} WalkTakesFront(o: Incoming, book: seq<Resting>, qty: nat) returns (k: nat, n: nat)
    requires Positive(book)
    ensures TakesFront(book, Walk(o, book, qty).0, Walk(o, book, qty).1, k, n)
  {
    if book == [] || qty == 0 || !Meets(o, book[0].price) {
      k, n := 0, 0;
      NothingTaken(book);
    } else if qty < book[0].qty {
      k, n := 0, qty;
      PartOfFirst(o, book, qty);
    } else {
      k, n := WalkTakesFront(o, book[1..], qty - book[0].qty);
      AllOfFirst(o, book, qty, k, n);
      k := k + 1;
    }
  }

  lemma NothingTaken(book: seq<Resting>)
    ensures TakesFront(book, [], book, 0, 0)
  {
    assert FilledAll(book[..0]) == [];
  }

  lemma AllOfFirst(o: Incoming, book: seq<Resting>, qty: nat, k: nat, n: nat)
    requires book != [] && 0 < book[0].qty <= qty && Meets(o, book[0].price)
    requires var (trades, after, _) := Walk(o, book[1..], qty - book[0].qty); TakesFront(book[1..], trades, after, k, n)
    ensures TakesFront(book, Walk(o, book, qty).0, Walk(o, book, qty).1, k + 1, n)
  {
    assert book == [book[0]] + book[1..];
    WalkFirst(o, book[0], book[1..], qty);
    var (trades, after, left) := Walk(o, book[1..], qty - book[0].qty);
    TakesFirst(book, trades, after, k, n);
  }

  lemma TakesFirst(book: seq<Resting>, trades: seq<Trade>, after: seq<Resting>, k: nat, n: nat)
    requires book != [] && book[0].qty > 0 && TakesFront(book[1..], trades, after, k, n)
    ensures TakesFront(book, [Trade(book[0].id, book[0].user, book[0].price, book[0].qty)] + trades, after, k + 1, n)
  {
    var head, tail := [Trade(book[0].id, book[0].user, book[0].price, book[0].qty)], book[1..];
    assert book[..k + 1][1..] == tail[..k] && book[k + 1..] == tail[k..];
    assert FilledAll(book[..k + 1]) == head + FilledAll(tail[..k]);
    if n == 0 {
      assert trades == FilledAll(tail[..k]);
      assert head + trades == FilledAll(book[..k + 1]) + [];
    } else {
      assert book[k + 1] == tail[k] && book[k + 2..] == tail[k + 1..];
      Regroup(head, FilledAll(tail[..k]), [Trade(tail[k].id, tail[k].user, tail[k].price, n)]);
    }
  }

  lemma PartOfFirst(o: Incoming, book: seq<Resting>, qty: nat)
    requires book != [] && 0 < qty < book[0].qty && Meets(o, book[0].price)
    ensures TakesFront(book, Walk(o, book, qty).0, Walk(o, book, qty).1, 0, qty)
  {
    assert book == [book[0]] + book[1..];
    WalkLast(o, book[0], book[1..], qty);
    assert FilledAll(book[..0]) == [];
  }

  // ---------------------------------------------------------------- who traded how much

  /** The quantity the resting order `id` traded. */
  function TradedWith(trades: seq<Trade>, id: nat): nat {
    if trades == [] then 0
    else TradedWith(trades[..|trades| - 1], id)
         + if trades[|trades| - 1].maker == id then trades[|trades| - 1].qty else 0
  }

  lemma WithLast(trades: seq<Trade>, t: Trade, id: nat)
    ensures TradedWith(trades + [t], id) == TradedWith(trades, id) + if t.maker == id then t.qty else 0
  {
    assert (trades + [t])[..|trades|] == trades;
  }

  lemma {:induction false} TradedLast(trades: seq<Trade>, t: Trade)
    ensures Traded(trades + [t]) == Traded(trades) + t.qty
  {
    if trades == [] {
      assert trades + [t] == [t];
    } else {
      assert (trades + [t])[1..] == trades[1..] + [t];
      TradedLast(trades[1..], t);
    }
  }

  /** Each record counts what its own order traded, the taker's all of it. */
  lemma {:induction false} RecordsCount(orders: map<nat, OrderRecord>, taker: nat, trades: seq<Trade>, id: nat)
    requires id in orders
    ensures id in WithFills(orders, taker, trades)
    ensures WithFills(orders, taker, trades)[id]
            == orders[id].(filled := orders[id].filled + TradedWith(trades, id)
                                     + if id == taker then Traded(trades) else 0)
  {
    if trades != [] {
      var n := |trades| - 1;
      RecordsCount(orders, taker, trades[..n], id);
      assert trades == trades[..n] + [trades[n]];
      TradedLast(trades[..n], trades[n]);
    }
  }

  /** What entry `i` traded when the first `k` entries were taken, and `n` units of the next. */
  function Taken(book: seq<Resting>, k: nat, n: nat, i: nat): nat
    requires i < |book|
  {
    if i < k then book[i].qty else if i == k then n else 0
  }

  lemma {:induction false} FrontTrades(book: seq<Resting>, k: nat, id: nat)
    requires k <= |book| && DistinctIds(book) && Positive(book)
    ensures forall i :: 0 <= i < |book| ==> TradedWith(FilledAll(book[..k]), book[i].id) == Taken(book, k, 0, i)
    ensures (forall i :: 0 <= i < |book| ==> book[i].id != id) ==> TradedWith(FilledAll(book[..k]), id) == 0
  {
    if k == 0 {
      assert FilledAll(book[..0]) == [];
    } else {
      FrontTrades(book, k - 1, id);
      var e := book[k - 1];
      assert book[..k] == book[..k - 1] + [e];
      FilledAllAppend(book[..k - 1], e);
      var before, last := FilledAll(book[..k - 1]), Trade(e.id, e.user, e.price, e.qty);
      forall i | 0 <= i < |book| ensures TradedWith(FilledAll(book[..k]), book[i].id) == Taken(book, k, 0, i) {
        WithLast(before, last, book[i].id);
      }
      WithLast(before, last, id);
    }
  }

  lemma TakenIsTraded(book: seq<Resting>, trades: seq<Trade>, after: seq<Resting>, k: nat, n: nat, id: nat)
    requires DistinctIds(book) && Positive(book) && TakesFront(book, trades, after, k, n)
    ensures forall i :: 0 <= i < |book| ==> TradedWith(trades, book[i].id) == Taken(book, k, n, i)
    ensures (forall i :: 0 <= i < |book| ==> book[i].id != id) ==> TradedWith(trades, id) == 0
  {
    FrontTrades(book, k, id);
    var front := FilledAll(book[..k]);
    if n == 0 {
      assert front + [] == front;
    } else {
      var last := Trade(book[k].id, book[k].user, book[k].price, n);
      forall i | 0 <= i < |book| ensures TradedWith(trades, book[i].id) == Taken(book, k, n, i) {
        WithLast(front, last, book[i].id);
      }
      WithLast(front, last, id);
    }
  }

  // ---------------------------------------------------------------- records and places

  /** The record of a resting order: its own market, side, user and price, and what is not filled rests. */
  predicate RecordOf(r: OrderRecord, x: Resting, ticker: nat, bid: bool) {
    r.user == x.user && r.ticker == ticker && r.buy == bid && r.price == x.price && r.filled + x.qty == r.qty
  }

  predicate SideAgrees(side: seq<Resting>, orders: map<nat, OrderRecord>, ticker: nat, bid: bool) {
    && DistinctIds(side)
    && forall i :: 0 <= i < |side| ==> side[i].id in orders && RecordOf(orders[side[i].id], side[i], ticker, bid)
  }

  /** Every order rests at most once, where its record says, with what its record has unfilled. */
  ghost predicate RecordsAgree(e: Engine) {
    forall t, bid :: t in e.markets ==> SideAgrees(SideOf(e.markets[t].book, bid), e.orders, t, bid)
  }

  /** Entries at one price stand in the order in which `places` says they were put there. */
  predicate InTurn(side: seq<Resting>, places: map<nat, nat>) {
    && (forall i :: 0 <= i < |side| ==> side[i].id in places)
    && forall i, j :: 0 <= i < j < |side| && side[i].price == side[j].price ==> places[side[i].id] < places[side[j].id]
  }

  ghost predicate QueuesInTurn(e: Engine, places: map<nat, nat>) {
    forall t, bid :: t in e.markets ==> InTurn(SideOf(e.markets[t].book, bid), places)
  }

  // ---------------------------------------------------------------- one side changes

  /** Where an order goes: behind everything as good as it, and ahead of all that is worse. */
  lemma {:induction false} InsertSpot(ask: bool, side: seq<Resting>, e: Resting) returns (i: nat)
    requires Sorted(ask, side)
    ensures i <= |side| && Insert(ask, side, e) == side[..i] + [e] + side[i..]
    ensures forall j :: i <= j < |side| ==> side[j].price != e.price
  {
    if side == [] {
      i := 0;
    } else if if ask then side[0].price <= e.price else side[0].price >= e.price {
      assert Sorted(ask, side[1..]);
      i := InsertSpot(ask, side[1..], e);
      SpotAfterFirst(ask, side, e, i);
      i := i + 1;
    } else {
      i := 0;
      assert side[..0] + [e] + side[0..] == [e] + side;
    }
  }

  lemma SpotAfterFirst(ask: bool, side: seq<Resting>, e: Resting, i: nat)
    requires side != [] && if ask then side[0].price <= e.price else side[0].price >= e.price
    requires i < |side| && Insert(ask, side[1..], e) == side[1..][..i] + [e] + side[1..][i..]
    requires forall j :: i <= j < |side| - 1 ==> side[1..][j].price != e.price
    ensures Insert(ask, side, e) == side[..i + 1] + [e] + side[i + 1..]
    ensures forall j :: i + 1 <= j < |side| ==> side[j].price != e.price
  {
    assert side[..i + 1] == [side[0]] + side[1..][..i] && side[i + 1..] == side[1..][i..];
    forall j | i + 1 <= j < |side| ensures side[j].price != e.price { assert side[j] == side[1..][j - 1]; }
  }

  /** A new order is placed later than all that rest, and stands behind those at its price. */
  lemma InsertInTurn(ask: bool, side: seq<Resting>, e: Resting, places: map<nat, nat>)
    requires Sorted(ask, side) && InTurn(side, places) && e.id in places
    requires forall i :: 0 <= i < |side| ==> places[side[i].id] < places[e.id]
    ensures InTurn(Insert(ask, side, e), places)
  {
    var i := InsertSpot(ask, side, e);
    var all := side[..i] + [e] + side[i..];
    forall j, k | 0 <= j < k < |all| && all[j].price == all[k].price
      ensures all[j].id in places && all[k].id in places && places[all[j].id] < places[all[k].id]
    {
      if j < i && k > i { assert all[k] == side[k - 1]; }
      if j >= i + 1 { assert all[j] == side[j - 1] && all[k] == side[k - 1]; }
    }
  }

  lemma InsertAgrees(ask: bool, side: seq<Resting>, e: Resting, orders: map<nat, OrderRecord>, ticker: nat)
    requires Sorted(ask, side) && SideAgrees(side, orders, ticker, !ask)
    requires e.id in orders && RecordOf(orders[e.id], e, ticker, !ask)
    requires forall i :: 0 <= i < |side| ==> side[i].id != e.id
    ensures SideAgrees(Insert(ask, side, e), orders, ticker, !ask)
  {
    var i := InsertSpot(ask, side, e);
    var all := side[..i] + [e] + side[i..];
    forall j, k | 0 <= j < k < |all| ensures all[j].id != all[k].id {
      if k > i { assert all[k] == side[k - 1]; }
      if j > i { assert all[j] == side[j - 1]; }
    }
  }

  /** Where an order stood that is taken off; the length when it was not there. */
  lemma {:induction false} RemoveSpot(side: seq<Resting>, id: nat) returns (i: nat)
    requires DistinctIds(side)
    ensures i <= |side| && forall j :: 0 <= j < |side| && j != i ==> side[j].id != id
    ensures i == |side| ==> Remove(side, id) == side
    ensures i < |side| ==> side[i].id == id && Remove(side, id) == side[..i] + side[i + 1..]
  {
    if side == [] {
      i := 0;
    } else {
      var tail := side[1..];
      assert side == [side[0]] + tail;
      i := RemoveSpot(tail, id);
      if side[0].id == id {
        assert forall j :: 0 <= j < |tail| ==> tail[j] == side[j + 1] && tail[j].id != id;
        assert Remove(side, id) == tail && side[..0] + side[1..] == tail;
        assert forall j :: 0 < j < |side| ==> side[j] == tail[j - 1];
        i := 0;
      } else {
        LaterSpot(side, id, i);
        i := i + 1;
      }
    }
  }

  lemma LaterSpot(side: seq<Resting>, id: nat, i: nat)
    requires side != [] && side[0].id != id && i < |side|
    requires forall j :: 0 <= j < |side| - 1 && j != i ==> side[1..][j].id != id
    requires i == |side| - 1 ==> Remove(side[1..], id) == side[1..]
    requires i < |side| - 1 ==> Remove(side[1..], id) == side[1..][..i] + side[1..][i + 1..]
    ensures forall j :: 0 <= j < |side| && j != i + 1 ==> side[j].id != id
    ensures i + 1 == |side| ==> Remove(side, id) == side
    ensures i + 1 < |side| ==> Remove(side, id) == side[..i + 1] + side[i + 2..]
  {
    forall j | 0 < j < |side| && j != i + 1 ensures side[j].id != id { assert side[j] == side[1..][j - 1]; }
    assert Remove(side, id) == [side[0]] + Remove(side[1..], id);
    if i + 1 < |side| {
      assert side[..i + 1] == [side[0]] + side[1..][..i] && side[i + 2..] == side[1..][i + 1..];
    }
  }

  /** Where each order that stays stood before. */
  function Before(i: nat, j: nat): nat { if j < i then j else j + 1 }

  lemma RemoveKeepsTurn(side: seq<Resting>, id: nat, places: map<nat, nat>)
    requires DistinctIds(side) && InTurn(side, places)
    ensures InTurn(Remove(side, id), places)
  {
    var i := RemoveSpot(side, id);
    var rest := Remove(side, id);
    if i < |side| { assert forall j :: 0 <= j < |rest| ==> rest[j] == side[Before(i, j)]; }
  }

  lemma RemoveAgrees(side: seq<Resting>, id: nat, orders: map<nat, OrderRecord>, ticker: nat, bid: bool)
    requires SideAgrees(side, orders, ticker, bid)
    ensures SideAgrees(Remove(side, id), orders, ticker, bid)
    ensures forall j :: 0 <= j < |Remove(side, id)| ==> Remove(side, id)[j].id != id && Remove(side, id)[j] in side
  {
    var i := RemoveSpot(side, id);
    var rest := Remove(side, id);
    if i < |side| { assert forall j :: 0 <= j < |rest| ==> rest[j] == side[Before(i, j)] && Before(i, j) != i; }
  }

  /** A walk leaves what stood behind what it took, in the same order. */
  lemma WalkKeepsTurn(o: Incoming, book: seq<Resting>, qty: nat, places: map<nat, nat>)
    requires Positive(book) && InTurn(book, places)
    ensures InTurn(Walk(o, book, qty).1, places)
  {
    var k, n := WalkTakesFront(o, book, qty);
    var after := Walk(o, book, qty).1;
    assert forall i :: 0 <= i < |after| ==> after[i].id == book[k + i].id && after[i].price == book[k + i].price;
  }

  /** What a walk leaves agrees with the records the fills leave. */
  lemma WalkAgrees(o: Incoming, book: seq<Resting>, qty: nat, orders: map<nat, OrderRecord>, taker: nat, ticker: nat,
                   bid: bool)
    requires Positive(book) && SideAgrees(book, orders, ticker, bid)
    requires forall i :: 0 <= i < |book| ==> book[i].id != taker
    ensures var (trades, after, _) := Walk(o, book, qty);
            SideAgrees(after, WithFills(orders, taker, trades), ticker, bid)
  {
    var (trades, after, left) := Walk(o, book, qty);
    var k, n := WalkTakesFront(o, book, qty);
    TakenIsTraded(book, trades, after, k, n, taker);
    var filled := WithFills(orders, taker, trades);
    forall i | 0 <= i < |after|
      ensures after[i].id == book[k + i].id && after[i].id in filled
              && RecordOf(filled[after[i].id], after[i], ticker, bid)
    {
      assert after[i].qty == book[k + i].qty - Taken(book, k, n, k + i);
      RecordsCount(orders, taker, trades, book[k + i].id);
    }
  }

  // ---------------------------------------------------------------- a whole submit

  /** Fills touch no record but the taker's and those of the orders they trade with. */
  lemma OthersUnfilled(o: Incoming, book: seq<Resting>, qty: nat, orders: map<nat, OrderRecord>, id: nat)
    requires Positive(book) && DistinctIds(book) && id in orders && id != o.id
    requires forall i :: 0 <= i < |book| ==> book[i].id != id
    ensures var filled := WithFills(orders, o.id, Walk(o, book, qty).0); id in filled && filled[id] == orders[id]
  {
    var (trades, after, left) := Walk(o, book, qty);
    var k, n := WalkTakesFront(o, book, qty);
    TakenIsTraded(book, trades, after, k, n, id);
    RecordsCount(orders, o.id, trades, id);
  }

  lemma SideUnfilled(o: Incoming, book: seq<Resting>, orders: map<nat, OrderRecord>, side: seq<Resting>, ticker: nat,
                     bid: bool, filled: map<nat, OrderRecord>)
    requires Positive(book) && DistinctIds(book) && SideAgrees(side, orders, ticker, bid)
    requires filled == WithFills(orders, o.id, Walk(o, book, o.qty).0)
    requires forall i :: 0 <= i < |side| ==> side[i].id != o.id
    requires forall i, j :: 0 <= i < |side| && 0 <= j < |book| ==> side[i].id != book[j].id
    ensures SideAgrees(side, filled, ticker, bid)
  {
    forall i | 0 <= i < |side| ensures side[i].id in filled && RecordOf(filled[side[i].id], side[i], ticker, bid) {
      OthersUnfilled(o, book, o.qty, orders, side[i].id);
    }
  }

  /** The taker's record counts all that was traded, so what is left is what rests. */
  lemma TakerRecord(o: Incoming, book: seq<Resting>, orders: map<nat, OrderRecord>, ticker: nat)
    requires Positive(book) && DistinctIds(book) && forall i :: 0 <= i < |book| ==> book[i].id != o.id
    requires o.id in orders && orders[o.id] == OrderRecord(o.user, ticker, o.buy, o.price, o.qty, 0)
    ensures var (trades, _, left) := Walk(o, book, o.qty);
            var filled := WithFills(orders, o.id, trades);
            o.id in filled && RecordOf(filled[o.id], Resting(o.id, o.user, o.price, left), ticker, o.buy)
  {
    var (trades, after, left) := Walk(o, book, o.qty);
    var k, n := WalkTakesFront(o, book, o.qty);
    TakenIsTraded(book, trades, after, k, n, o.id);
    RecordsCount(orders, o.id, trades, o.id);
    WalkFills(o, book, o.qty);
  }

  /** No entry of this side has the id of an order recorded elsewhere. */
  lemma SidesApart(side: seq<Resting>, other: seq<Resting>, orders: map<nat, OrderRecord>, t: nat, bid: bool, t': nat,
                   bid': bool)
    requires SideAgrees(side, orders, t, bid) && SideAgrees(other, orders, t', bid') && (t != t' || bid != bid')
    ensures forall i, j :: 0 <= i < |side| && 0 <= j < |other| ==> side[i].id != other[j].id
  {
  }

  lemma OtherRecord(side: seq<Resting>, orders: map<nat, OrderRecord>, t: nat, bid: bool, id: nat, r: OrderRecord)
    requires SideAgrees(side, orders, t, bid) && forall i :: 0 <= i < |side| ==> side[i].id != id
    ensures SideAgrees(side, orders[id := r], t, bid)
  {
  }

  lemma Elsewhere(side: seq<Resting>, places: map<nat, nat>, id: nat, n: nat)
    requires InTurn(side, places) && forall i :: 0 <= i < |side| ==> side[i].id != id
    ensures InTurn(side, places[id := n])
  {
  }

  predicate Placed(places: map<nat, nat>, n: nat) { forall id :: id in places ==> places[id] < n }

  /** The two sides of a market after an accepted order. */
  ghost predicate MarketAgrees(b: BookState, orders: map<nat, OrderRecord>, ticker: nat) {
    SideAgrees(b.bids, orders, ticker, true) && SideAgrees(b.asks, orders, ticker, false)
  }

  predicate BookInTurn(b: BookState, places: map<nat, nat>) { InTurn(b.bids, places) && InTurn(b.asks, places) }

  lemma SubmitBook(b: BookState, o: Incoming, terms: Terms, orders: map<nat, OrderRecord>, ticker: nat,
                   filled: map<nat, OrderRecord>)
    requires GoodBook(b) && MarketAgrees(b, orders, ticker) && o.id in orders
    requires orders[o.id] == OrderRecord(o.user, ticker, o.buy, o.price, o.qty, 0)
    requires forall bid, i :: 0 <= i < |SideOf(b, bid)| ==> SideOf(b, bid)[i].id != o.id
    requires filled == WithFills(orders, o.id, Walk(o, Opposite(b, o.buy), o.qty).0)
    requires Precheck(o, Opposite(b, o.buy), terms.fok, terms.postOnly, terms.stp) == None
    ensures MarketAgrees(Submitted(b, o, terms).0, filled, ticker)
  {
    var book, own := SideOf(b, !o.buy), SideOf(b, o.buy);
    WalkAgrees(o, book, o.qty, orders, o.id, ticker, !o.buy);
    SidesApart(own, book, orders, ticker, o.buy, ticker, !o.buy);
    SideUnfilled(o, book, orders, own, ticker, o.buy, filled);
    TakerRecord(o, book, orders, ticker);
    InsertAgrees(!o.buy, own, Resting(o.id, o.user, o.price, Walk(o, book, o.qty).2), filled, ticker);
  }

  /** A submit leaves the other side as it was or walked, and its own side as it was or with one more. */
  lemma SubmittedSides(b: BookState, o: Incoming, terms: Terms)
    ensures var c, own := Submitted(b, o, terms).0, SideOf(b, o.buy);
            var (_, after, left) := Walk(o, Opposite(b, o.buy), o.qty);
            && (SideOf(c, !o.buy) == Opposite(b, o.buy) || SideOf(c, !o.buy) == after)
            && (SideOf(c, o.buy) == own
                || SideOf(c, o.buy) == Insert(!o.buy, own, Resting(o.id, o.user, o.price, left)))
  {
  }

  lemma BothInTurn(b: BookState, buy: bool, places: map<nat, nat>)
    requires InTurn(SideOf(b, buy), places) && InTurn(SideOf(b, !buy), places)
    ensures BookInTurn(b, places)
  {
  }

  lemma SubmitTurn(b: BookState, o: Incoming, terms: Terms, places: map<nat, nat>, n: nat)
    requires GoodBook(b) && BookInTurn(b, places) && Placed(places, n)
    requires forall bid, i :: 0 <= i < |SideOf(b, bid)| ==> SideOf(b, bid)[i].id != o.id
    ensures BookInTurn(Submitted(b, o, terms).0, places[o.id := n])
  {
    var book, own := SideOf(b, !o.buy), SideOf(b, o.buy);
    assert InTurn(book, places) && InTurn(own, places) && Positive(book) && Sorted(!o.buy, own);
    WalkTurn(o, book, places, n);
    InsertTurn(own, Resting(o.id, o.user, o.price, Walk(o, book, o.qty).2), places, n, !o.buy);
    SubmittedSides(b, o, terms);
    BothInTurn(Submitted(b, o, terms).0, o.buy, places[o.id := n]);
  }

  lemma WalkTurn(o: Incoming, book: seq<Resting>, places: map<nat, nat>, n: nat)
    requires Positive(book) && InTurn(book, places) && forall i :: 0 <= i < |book| ==> book[i].id != o.id
    ensures InTurn(book, places[o.id := n]) && InTurn(Walk(o, book, o.qty).1, places[o.id := n])
  {
    Elsewhere(book, places, o.id, n);
    WalkKeepsTurn(o, book, o.qty, places[o.id := n]);
  }

  lemma InsertTurn(own: seq<Resting>, e: Resting, places: map<nat, nat>, n: nat, ask: bool)
    requires Sorted(ask, own) && InTurn(own, places) && Placed(places, n)
    requires forall i :: 0 <= i < |own| ==> own[i].id != e.id
    ensures InTurn(own, places[e.id := n]) && InTurn(Insert(ask, own, e), places[e.id := n])
  {
    Elsewhere(own, places, e.id, n);
    InsertInTurn(ask, own, e, places[e.id := n]);
  }

  // ---------------------------------------------------------------- every command

  /** All an accepted order needs to know of the engine. */
  ghost predicate Orderly(e: Engine, places: map<nat, nat>, n: nat) {
    EngineOk(e) && RecordsAgree(e) && QueuesInTurn(e, places) && Placed(places, n)
  }

  lemma MarketOrderly(e: Engine, places: map<nat, nat>, n: nat, t: nat)
    requires Orderly(e, places, n) && t in e.markets
    ensures GoodBook(e.markets[t].book) && MarketAgrees(e.markets[t].book, e.orders, t)
    ensures BookInTurn(e.markets[t].book, places)
  {
    assert MarketOk(e.markets[t]);
    assert SideAgrees(SideOf(e.markets[t].book, true), e.orders, t, true);
    assert SideAgrees(SideOf(e.markets[t].book, false), e.orders, t, false);
    assert InTurn(SideOf(e.markets[t].book, true), places) && InTurn(SideOf(e.markets[t].book, false), places);
  }

  /** One market and the records change; the other markets' orders keep their records and places. */
  lemma OneMarketChanges(e: Engine, ticker: nat, m: Market, orders: map<nat, OrderRecord>, places: map<nat, nat>)
    requires ticker in e.markets && e.markets[ticker].contractSeq <= m.contractSeq
    requires MarketAgrees(m.book, orders, ticker) && BookInTurn(m.book, places)
    requires forall t, bid :: t in e.markets && t != ticker ==>
                                && SideAgrees(SideOf(e.markets[t].book, bid), orders, t, bid)
                                && InTurn(SideOf(e.markets[t].book, bid), places)
    ensures var after := WithMarket(e, ticker, m, orders); RecordsAgree(after) && QueuesInTurn(after, places)
  {
  }

  lemma NewId(e: Engine, id: nat)
    requires RecordsAgree(e) && id !in e.orders
    ensures forall t, bid, i :: t in e.markets && 0 <= i < |SideOf(e.markets[t].book, bid)| ==>
                                  SideOf(e.markets[t].book, bid)[i].id != id
  {
    forall t, bid, i | t in e.markets && 0 <= i < |SideOf(e.markets[t].book, bid)|
      ensures SideOf(e.markets[t].book, bid)[i].id != id
    {
      assert SideAgrees(SideOf(e.markets[t].book, bid), e.orders, t, bid);
    }
  }

  /** Another market's side beside an accepted order. */
  lemma SubmitElsewhere(e: Engine, places: map<nat, nat>, n: nat, o: Incoming, ticker: nat, t: nat, bid: bool,
                        rec: OrderRecord)
    requires Orderly(e, places, n) && ticker in e.markets && o.id !in e.orders && t in e.markets && t != ticker
    ensures var book, side := Opposite(e.markets[ticker].book, o.buy), SideOf(e.markets[t].book, bid);
            && SideAgrees(side, WithFills(e.orders[o.id := rec], o.id, Walk(o, book, o.qty).0), t, bid)
            && InTurn(side, places[o.id := n])
  {
    var book, side := SideOf(e.markets[ticker].book, !o.buy), SideOf(e.markets[t].book, bid);
    MarketOrderly(e, places, n, ticker);
    NewId(e, o.id);
    assert SideAgrees(side, e.orders, t, bid) && InTurn(side, places);
    assert SideAgrees(book, e.orders, ticker, !o.buy);
    SidesApart(side, book, e.orders, t, bid, ticker, !o.buy);
    OtherRecord(side, e.orders, t, bid, o.id, rec);
    var orders := e.orders[o.id := rec];
    SideUnfilled(o, book, orders, side, t, bid, WithFills(orders, o.id, Walk(o, book, o.qty).0));
    Elsewhere(side, places, o.id, n);
  }

  lemma BookRecords(b: BookState, orders: map<nat, OrderRecord>, t: nat, id: nat, r: OrderRecord)
    requires MarketAgrees(b, orders, t)
    requires forall bid, i :: 0 <= i < |SideOf(b, bid)| ==> SideOf(b, bid)[i].id != id
    ensures MarketAgrees(b, orders[id := r], t)
  {
    forall i | 0 <= i < |b.bids| ensures b.bids[i].id != id { assert SideOf(b, true)[i].id != id; }
    forall i | 0 <= i < |b.asks| ensures b.asks[i].id != id { assert SideOf(b, false)[i].id != id; }
    OtherRecord(b.bids, orders, t, true, id, r);
    OtherRecord(b.asks, orders, t, false, id, r);
  }

  /** The market the order comes to. */
  lemma SubmitHere(e: Engine, places: map<nat, nat>, n: nat, o: Incoming, terms: Terms, ticker: nat, b: BookState,
                   filled: map<nat, OrderRecord>)
    requires Orderly(e, places, n) && ticker in e.markets && o.id !in e.orders && b == e.markets[ticker].book
    requires Precheck(o, Opposite(b, o.buy), terms.fok, terms.postOnly, terms.stp) == None
    requires var orders := e.orders[o.id := OrderRecord(o.user, ticker, o.buy, o.price, o.qty, 0)];
             filled == WithFills(orders, o.id, Walk(o, Opposite(b, o.buy), o.qty).0)
    ensures MarketAgrees(Submitted(b, o, terms).0, filled, ticker)
    ensures BookInTurn(Submitted(b, o, terms).0, places[o.id := n])
  {
    var rec := OrderRecord(o.user, ticker, o.buy, o.price, o.qty, 0);
    MarketOrderly(e, places, n, ticker);
    NewId(e, o.id);
    assert forall bid, i :: 0 <= i < |SideOf(b, bid)| ==> SideOf(e.markets[ticker].book, bid)[i].id != o.id;
    BookRecords(b, e.orders, ticker, o.id, rec);
    SubmitBook(b, o, terms, e.orders[o.id := rec], ticker, filled);
    SubmitTurn(b, o, terms, places, n);
  }

  lemma SubmitOrderly(e: Engine, places: map<nat, nat>, n: nat, o: Incoming, terms: Terms, ticker: nat)
    requires Orderly(e, places, n) && ticker in e.markets && o.id !in e.orders
    requires Precheck(o, Opposite(e.markets[ticker].book, o.buy), terms.fok, terms.postOnly, terms.stp) == None
    ensures var after := Accepted(e, ticker, o, terms);
            RecordsAgree(after) && QueuesInTurn(after, places[o.id := n])
  {
    var m := e.markets[ticker];
    var rec := OrderRecord(o.user, ticker, o.buy, o.price, o.qty, 0);
    var filled := WithFills(e.orders[o.id := rec], o.id, Walk(o, Opposite(m.book, o.buy), o.qty).0);
    SubmitHere(e, places, n, o, terms, ticker, m.book, filled);
    forall t, bid | t in e.markets && t != ticker
      ensures SideAgrees(SideOf(e.markets[t].book, bid), filled, t, bid)
      ensures InTurn(SideOf(e.markets[t].book, bid), places[o.id := n])
    {
      SubmitElsewhere(e, places, n, o, ticker, t, bid, rec);
    }
    OneMarketChanges(e, ticker, SubmitMarket(m, o, terms), filled, places[o.id := n]);
  }

  lemma CancelOrderly(e: Engine, places: map<nat, nat>, n: nat, id: nat)
    requires Orderly(e, places, n)
    ensures RecordsAgree(CancelIn(e, id).0) && QueuesInTurn(CancelIn(e, id).0, places)
  {
    if CancelProblem(e, id) == None {
      var order := e.orders[id];
      var m := e.markets[order.ticker];
      MarketOrderly(e, places, n, order.ticker);
      CancelledSides(m.book, id, e.orders, order.ticker, places);
      OneMarketChanges(e, order.ticker, CancelMarket(m, order.buy, id), e.orders, places);
    }
  }

  lemma CancelledSides(b: BookState, id: nat, orders: map<nat, OrderRecord>, ticker: nat, places: map<nat, nat>)
    requires MarketAgrees(b, orders, ticker) && BookInTurn(b, places)
    ensures MarketAgrees(Cancelled(b, id), orders, ticker) && BookInTurn(Cancelled(b, id), places)
    ensures forall bid, i :: 0 <= i < |SideOf(Cancelled(b, id), bid)| ==> SideOf(Cancelled(b, id), bid)[i].id != id
  {
    RemoveAgrees(b.bids, id, orders, ticker, true);
    RemoveAgrees(b.asks, id, orders, ticker, false);
    RemoveKeepsTurn(b.bids, id, places);
    RemoveKeepsTurn(b.asks, id, places);
  }

  /** An amended order is put back as a new one. */
  lemma AmendBook(b: BookState, o: Incoming, orders: map<nat, OrderRecord>, ticker: nat, places: map<nat, nat>, n: nat)
    requires GoodBook(b) && MarketAgrees(b, orders, ticker) && BookInTurn(b, places) && Placed(places, n)
    requires o.id in orders && orders[o.id].filled == 0 && orders[o.id].user == o.user
             && orders[o.id].ticker == ticker && orders[o.id].buy == o.buy
    ensures var after := Added(Cancelled(b, o.id), o);
            && MarketAgrees(after, orders[o.id := orders[o.id].(price := o.price, qty := o.qty)], ticker)
            && BookInTurn(after, places[o.id := n])
  {
    var c, rec := Cancelled(b, o.id), orders[o.id].(price := o.price, qty := o.qty);
    var own, other := SideOf(c, o.buy), SideOf(c, !o.buy);
    CancelKeepsBook(b, o.id);
    CancelledSides(b, o.id, orders, ticker, places);
    BookRecords(c, orders, ticker, o.id, rec);
    var e := Resting(o.id, o.user, o.price, o.qty);
    InsertAgrees(!o.buy, own, e, orders[o.id := rec], ticker);
    assert InTurn(own, places) && InTurn(other, places);
    InsertTurn(own, e, places, n, !o.buy);
    Elsewhere(other, places, o.id, n);
    BothInTurn(Added(c, o), o.buy, places[o.id := n]);
  }

  lemma AmendElsewhere(e: Engine, places: map<nat, nat>, n: nat, id: nat, t: nat, bid: bool, rec: OrderRecord)
    requires Orderly(e, places, n) && id in e.orders && t in e.markets && t != e.orders[id].ticker
    ensures SideAgrees(SideOf(e.markets[t].book, bid), e.orders[id := rec], t, bid)
    ensures InTurn(SideOf(e.markets[t].book, bid), places[id := n])
  {
    var side := SideOf(e.markets[t].book, bid);
    assert SideAgrees(side, e.orders, t, bid) && InTurn(side, places);
    OtherRecord(side, e.orders, t, bid, id, rec);
    Elsewhere(side, places, id, n);
  }

  lemma AmendOrderly(e: Engine, places: map<nat, nat>, n: nat, r: Request)
    requires Orderly(e, places, n) && r.AmendOrder? && AmendProblem(e, r) == None
    ensures RecordsAgree(AmendIn(e, r).0) && QueuesInTurn(AmendIn(e, r).0, places[r.id := n])
  {
    var order := e.orders[r.id];
    var o, m := Incoming(r.id, order.user, order.buy, r.price, r.count), e.markets[order.ticker];
    MarketOrderly(e, places, n, order.ticker);
    AmendBook(m.book, o, e.orders, order.ticker, places, n);
    var rec := order.(price := o.price, qty := o.qty);
    forall t, bid | t in e.markets && t != order.ticker
      ensures SideAgrees(SideOf(e.markets[t].book, bid), e.orders[r.id := rec], t, bid)
      ensures InTurn(SideOf(e.markets[t].book, bid), places[r.id := n])
    {
      AmendElsewhere(e, places, n, r.id, t, bid, rec);
    }
    OneMarketChanges(e, order.ticker, AmendMarket(m, o), e.orders[r.id := rec], places[r.id := n]);
  }

  // ---------------------------------------------------------------- every run

  /** The order a command puts in its place, when it is done. */
  function PlacedBy(r: Request): Option<nat> {
    match r
    case SubmitOrder(name, _, _, _, _, _, _, _) => name
    case AmendOrder(id, _, _) => Some(id)
    case _ => None
  }

  ghost function PlacesAfter(e: Engine, places: map<nat, nat>, n: nat, r: Request): map<nat, nat> {
    if PlacedBy(r).Some? && Apply(e, r).1 == Done then places[PlacedBy(r).value := n] else places
  }

  /** For each order, the number of the last submit or amendment of it that was answered `Done`. */
  ghost function PlacesOf(rs: seq<Request>): map<nat, nat> {
    if rs == [] then map[]
    else
      var n := |rs| - 1;
      PlacesAfter(RunEngine(FRESH, rs[..n]), PlacesOf(rs[..n]), n, rs[n])
  }

  lemma SubmitToOrderly(e: Engine, places: map<nat, nat>, n: nat, r: Request)
    requires Orderly(e, places, n) && r.SubmitOrder?
    ensures RecordsAgree(Apply(e, r).0) && QueuesInTurn(Apply(e, r).0, PlacesAfter(e, places, n, r))
  {
    if SubmitProblem(e, r) == None { SubmitOrderly(e, places, n, IncomingOf(r), r.terms, r.ticker.value); }
  }

  lemma AmendInOrderly(e: Engine, places: map<nat, nat>, n: nat, r: Request)
    requires Orderly(e, places, n) && r.AmendOrder?
    ensures RecordsAgree(Apply(e, r).0) && QueuesInTurn(Apply(e, r).0, PlacesAfter(e, places, n, r))
  {
    if AmendProblem(e, r) == None { AmendOrderly(e, places, n, r); }
  }

  lemma AddBookOrderly(e: Engine, places: map<nat, nat>, n: nat, r: Request)
    requires Orderly(e, places, n) && r.AddBook?
    ensures RecordsAgree(Apply(e, r).0) && QueuesInTurn(Apply(e, r).0, places)
  {
    var after := Apply(e, r).0;
    forall t, bid | t in after.markets
      ensures SideAgrees(SideOf(after.markets[t].book, bid), after.orders, t, bid)
      ensures InTurn(SideOf(after.markets[t].book, bid), places)
    {
      if t in e.markets {
        assert SideAgrees(SideOf(e.markets[t].book, bid), e.orders, t, bid);
        assert InTurn(SideOf(e.markets[t].book, bid), places);
      }
    }
  }

  lemma CloseBookOrderly(e: Engine, places: map<nat, nat>, n: nat, r: Request)
    requires Orderly(e, places, n) && r.CloseBook?
    ensures RecordsAgree(Apply(e, r).0) && QueuesInTurn(Apply(e, r).0, places)
  {
    if CloseBookOf(e, r).1 == Done {
      var m := e.markets[r.ticker.value];
      MarketOrderly(e, places, n, r.ticker.value);
      OneMarketChanges(e, r.ticker.value, m.(closed := true, contractSeq := m.contractSeq + 1), e.orders, places);
    }
  }

  lemma ApplyOrderly(e: Engine, places: map<nat, nat>, n: nat, r: Request)
    requires Orderly(e, places, n)
    ensures Orderly(Apply(e, r).0, PlacesAfter(e, places, n, r), n + 1)
  {
    ApplyKeeps(e, r);
    match r
    case AddBook(_, _, _, _) => AddBookOrderly(e, places, n, r);
    case CloseBook(_) => CloseBookOrderly(e, places, n, r);
    case SubmitOrder(_, _, _, _, _, _, _, _) => SubmitToOrderly(e, places, n, r);
    case CancelOrder(id) => CancelOrderly(e, places, n, id);
    case AmendOrder(_, _, _) => AmendInOrderly(e, places, n, r);
  }

  /**
    Over every run of commands: each order rests at most once, where its record says, for what
    its record has unfilled; and the orders at one price stand in the order in which the last
    accepted command about each of them was made.
   */
  lemma {:induction false} QueuesStayInTurn(rs: seq<Request>)
    ensures Orderly(RunEngine(FRESH, rs), PlacesOf(rs), |rs|)
  {
    if rs != [] {
      var n := |rs| - 1;
      QueuesStayInTurn(rs[..n]);
      ApplyOrderly(RunEngine(FRESH, rs[..n]), PlacesOf(rs[..n]), n, rs[n]);
    }
  }

  // ---------------------------------------------------------------- price and time

  /** `a` has the better price, or the same price and its place first. */
  predicate AheadOf(bid: bool, a: Resting, b: Resting, places: map<nat, nat>) {
    (if bid then a.price > b.price else a.price < b.price)
    || (a.price == b.price && a.id in places && b.id in places && places[a.id] < places[b.id])
  }

  /** A side stands in the order of price and then of time. */
  lemma AheadIsBefore(bid: bool, side: seq<Resting>, places: map<nat, nat>, i: nat, j: nat)
    requires Sorted(!bid, side) && InTurn(side, places) && i < |side| && j < |side|
    ensures AheadOf(bid, side[i], side[j], places) <==> i < j
  {
  }

  /** An order that trades with entry `j` has taken all of every entry before it. */
  lemma FrontFirst(o: Incoming, book: seq<Resting>, qty: nat, orders: map<nat, OrderRecord>, i: nat, j: nat)
    requires Positive(book) && DistinctIds(book) && i < j < |book|
    requires book[i].id in orders && book[j].id in orders && book[i].id != o.id && book[j].id != o.id
    ensures var (trades, after, _) := Walk(o, book, qty);
            var filled := WithFills(orders, o.id, trades);
            && book[i].id in filled && book[j].id in filled
            && filled[book[i].id].qty == orders[book[i].id].qty
            && (filled[book[j].id].filled > orders[book[j].id].filled ==>
                  && filled[book[i].id].filled == orders[book[i].id].filled + book[i].qty
                  && forall x :: x in after ==> x.id != book[i].id)
  {
    var (trades, after, left) := Walk(o, book, qty);
    var k, n := WalkTakesFront(o, book, qty);
    TakenIsTraded(book, trades, after, k, n, o.id);
    RecordsCount(orders, o.id, trades, book[i].id);
    RecordsCount(orders, o.id, trades, book[j].id);
    if j <= k {
      assert forall m :: 0 <= m < |after| ==> after[m].id == book[k + m].id;
    }
  }

  /** Nothing filled `b`, or `a` is filled completely and rests no more. */
  ghost predicate Respected(e: Engine, after: Engine, ticker: nat, bid: bool, a: nat, b: nat) {
    && a in e.orders && b in e.orders && a in after.orders && b in after.orders && ticker in after.markets
    && (after.orders[b].filled > e.orders[b].filled ==>
          after.orders[a].filled == after.orders[a].qty && !Rests(after.markets[ticker].book, bid, a))
  }

  /** An order that comes to this side of this market. */
  lemma SubmitRespects(e: Engine, places: map<nat, nat>, n: nat, o: Incoming, terms: Terms, ticker: nat, i: nat, j: nat)
    requires Orderly(e, places, n) && ticker in e.markets && o.id !in e.orders
    requires Precheck(o, Opposite(e.markets[ticker].book, o.buy), terms.fok, terms.postOnly, terms.stp) == None
    requires i < j < |SideOf(e.markets[ticker].book, !o.buy)|
    ensures var side := SideOf(e.markets[ticker].book, !o.buy);
            Respected(e, Accepted(e, ticker, o, terms), ticker, !o.buy, side[i].id, side[j].id)
  {
    var side := SideOf(e.markets[ticker].book, !o.buy);
    MarketOrderly(e, places, n, ticker);
    assert SideAgrees(side, e.orders, ticker, !o.buy);
    NewId(e, o.id);
    var orders := e.orders[o.id := OrderRecord(o.user, ticker, o.buy, o.price, o.qty, 0)];
    FrontFirst(o, side, o.qty, orders, i, j);
  }

  /** An order that comes elsewhere fills nothing here. */
  lemma SubmitLeavesAlone(e: Engine, places: map<nat, nat>, n: nat, o: Incoming, terms: Terms, t: nat, ticker: nat,
                          bid: bool, i: nat, j: nat)
    requires Orderly(e, places, n) && t in e.markets && ticker in e.markets && o.id !in e.orders
    requires (t != ticker || bid == o.buy)
    requires i < |SideOf(e.markets[ticker].book, bid)| && j < |SideOf(e.markets[ticker].book, bid)|
    ensures var side := SideOf(e.markets[ticker].book, bid);
            Respected(e, Accepted(e, t, o, terms), ticker, bid, side[i].id, side[j].id)
  {
    var side, book := SideOf(e.markets[ticker].book, bid), SideOf(e.markets[t].book, !o.buy);
    MarketOrderly(e, places, n, t);
    assert SideAgrees(side, e.orders, ticker, bid) && SideAgrees(book, e.orders, t, !o.buy);
    SidesApart(side, book, e.orders, ticker, bid, t, !o.buy);
    NewId(e, o.id);
    var orders := e.orders[o.id := OrderRecord(o.user, t, o.buy, o.price, o.qty, 0)];
    OthersUnfilled(o, book, o.qty, orders, side[i].id);
    OthersUnfilled(o, book, o.qty, orders, side[j].id);
  }

  lemma CommandRespects(e: Engine, places: map<nat, nat>, n: nat, r: Request, ticker: nat, bid: bool, i: nat, j: nat)
    requires Orderly(e, places, n) && ticker in e.markets && i < j < |SideOf(e.markets[ticker].book, bid)|
    ensures var side := SideOf(e.markets[ticker].book, bid);
            Respected(e, Apply(e, r).0, ticker, bid, side[i].id, side[j].id)
  {
    var side := SideOf(e.markets[ticker].book, bid);
    assert SideAgrees(side, e.orders, ticker, bid);
    if r.SubmitOrder? && SubmitProblem(e, r) == None {
      var o, t := IncomingOf(r), r.ticker.value;
      if t == ticker && bid == !o.buy {
        SubmitRespects(e, places, n, o, r.terms, ticker, i, j);
      } else {
        SubmitLeavesAlone(e, places, n, o, r.terms, t, ticker, bid, i, j);
      }
    }
  }

  /**
    Price-time priority, over every run: whatever command comes next, an order is filled by it
    only if every order ahead of it, by price or by place, is filled completely.
   */
  lemma PriceTimePriority(rs: seq<Request>, r: Request, ticker: nat, bid: bool, i: nat, j: nat)
    requires ticker in RunEngine(FRESH, rs).markets
    requires var side := SideOf(RunEngine(FRESH, rs).markets[ticker].book, bid);
             i < |side| && j < |side| && AheadOf(bid, side[i], side[j], PlacesOf(rs))
    ensures var e := RunEngine(FRESH, rs);
            var side := SideOf(e.markets[ticker].book, bid);
            Respected(e, Apply(e, r).0, ticker, bid, side[i].id, side[j].id)
  {
    var e, places := RunEngine(FRESH, rs), PlacesOf(rs);
    QueuesStayInTurn(rs);
    var side := SideOf(e.markets[ticker].book, bid);
    MarketOrderly(e, places, |rs|, ticker);
    AheadIsBefore(bid, side, places, i, j);
    CommandRespects(e, places, |rs|, r, ticker, bid, i, j);
  }
}
