/**
  The order book behind the engine: the loops of matching and of the prechecks, and a book that
  stays sorted and uncrossed over every command.
 */
module OrderBooks {
  import opened Common
  import opened Matching

  // ---------------------------------------------------------------- the engine's loops

  method CrossesLoop(o: Incoming, opposite: seq<Resting>) returns (r: bool)
    ensures r == Crosses(o, opposite)
  {
    for i := 0 to |opposite|
      invariant Crosses(o, opposite) == Crosses(o, opposite[i..])
    {
      assert opposite[i..][0] == opposite[i] && opposite[i..][1..] == opposite[i + 1..];
      if opposite[i].qty != 0 {
        return Meets(o, opposite[i].price);
      }
    }
    r := false;
  }

  method AvailableLoop(o: Incoming, opposite: seq<Resting>) returns (quantity: nat)
    ensures quantity == Available(o, opposite, 0)
  {
    quantity := 0;
    for i := 0 to |opposite|
      invariant Available(o, opposite, 0) == Available(o, opposite[i..], quantity)
    {
      var entry := opposite[i];
      assert opposite[i..][0] == entry && opposite[i..][1..] == opposite[i + 1..];
      if entry.qty != 0 {
        if !Meets(o, entry.price) {
          return;
        }
        quantity := if entry.qty > MAX_QTY - quantity then MAX_QTY else quantity + entry.qty;
      }
    }
  }

  method PrecheckLoop(o: Incoming, opposite: seq<Resting>, fok: bool, postOnly: bool, stp: bool)
    returns (r: Option<Reject>)
    ensures r == Precheck(o, opposite, fok, postOnly, stp)
  {
    if o.qty == 0 || o.price == 0 {
      return Some(InvalidPriceOrSize);
    }
    var crossing := CrossesLoop(o, opposite);
    if stp && crossing {
      var i := 0;
      while i < |opposite| && (opposite[i].qty == 0 || Meets(o, opposite[i].price))
        invariant i <= |opposite| && MeetsOwn(o, opposite) == MeetsOwn(o, opposite[i..])
      {
        assert opposite[i..][0] == opposite[i] && opposite[i..][1..] == opposite[i + 1..];
        if opposite[i].qty != 0 && opposite[i].user == o.user {
          return Some(SelfTradePrevented);
        }
        i := i + 1;
      }
      if i < |opposite| { assert opposite[i..][0] == opposite[i]; }
    }
    if postOnly && crossing {
      return Some(PostOnlyWouldTrade);
    }
    if fok {
      var available := AvailableLoop(o, opposite);
      if available < o.qty {
        return Some(FokNotFilled);
      }
    }
    r := None;
  }

  /** `create_trade`: at the resting order's price, for what both sides have. */
  method CreateTrade(entry: Resting, qty: nat) returns (trades: seq<Trade>, rest: seq<Resting>, left: nat)
    ensures var n := if entry.qty <= qty then entry.qty else qty;
            && trades == (if n > 0 then [Trade(entry.id, entry.user, entry.price, n)] else [])
            && rest == (if n > 0 && n == entry.qty then [] else [entry.(qty := entry.qty - n)])
            && left == qty - n
  {
    var n := if entry.qty <= qty then entry.qty else qty;
    trades := if n > 0 then [Trade(entry.id, entry.user, entry.price, n)] else [];
    rest := if n > 0 && n == entry.qty then [] else [entry.(qty := entry.qty - n)];
    left := qty - n;
  }

  /** The walk so far, joined to the walk still to come. */
  ghost predicate Joined(o: Incoming, book: seq<Resting>, trades: seq<Trade>, kept: seq<Resting>, i: nat, left: nat)
    requires i <= |book|
  {
    var (ts, rest, end) := Walk(o, book[i..], left);
    Walk(o, book, o.qty) == (trades + ts, kept + rest, end)
  }

  lemma JoinStep(o: Incoming, book: seq<Resting>, trades: seq<Trade>, kept: seq<Resting>, i: nat, left: nat,
                 made: seq<Trade>, rest: seq<Resting>, q: nat)
    requires i < |book| && left > 0 && Meets(o, book[i].price) && Joined(o, book, trades, kept, i, left)
    requires var n := if book[i].qty <= left then book[i].qty else left;
             && made == (if n > 0 then [Trade(book[i].id, book[i].user, book[i].price, n)] else [])
             && rest == (if n > 0 && n == book[i].qty then [] else [book[i].(qty := book[i].qty - n)])
             && q == left - n
    ensures Joined(o, book, trades + made, kept + rest, i + 1, q)
  {
    assert book[i..][0] == book[i] && book[i..][1..] == book[i + 1..];
    var (ts, others, end) := Walk(o, book[i + 1..], q);
    assert Walk(o, book[i..], left) == (made + ts, rest + others, end);
    assert trades + (made + ts) == (trades + made) + ts && kept + (rest + others) == (kept + rest) + others;
  }

  lemma JoinEnd(o: Incoming, book: seq<Resting>, trades: seq<Trade>, kept: seq<Resting>, i: nat, left: nat)
    requires i <= |book| && Joined(o, book, trades, kept, i, left)
    requires i == |book| || left == 0 || !Meets(o, book[i].price)
    ensures Walk(o, book, o.qty) == (trades, kept + book[i..], left)
  {
    if i < |book| { assert book[i..][0] == book[i]; }
    assert trades + [] == trades;
  }

  lemma JoinStart(o: Incoming, book: seq<Resting>)
    ensures Joined(o, book, [], [], 0, o.qty)
  {
    assert book[0..] == book;
    var (ts, rest, end) := Walk(o, book, o.qty);
    assert [] + ts == ts && [] + rest == rest;
  }

  /** `match_regular_order` against a book without all-or-none orders. */
  method MatchRegular(o: Incoming, book: seq<Resting>) returns (trades: seq<Trade>, after: seq<Resting>, left: nat)
    ensures (trades, after, left) == Walk(o, book, o.qty)
  {
    var kept: seq<Resting>, i := [], 0;
    trades, left := [], o.qty;
    JoinStart(o, book);
    while i < |book| && left > 0 && Meets(o, book[i].price)
      invariant i <= |book| && Joined(o, book, trades, kept, i, left)
    {
      var made, rest, q := CreateTrade(book[i], left);
      JoinStep(o, book, trades, kept, i, left, made, rest, q);
      trades, kept, left, i := trades + made, kept + rest, q, i + 1;
    }
    JoinEnd(o, book, trades, kept, i, left);
    after := kept + book[i..];
  }

  // ---------------------------------------------------------------- fill or kill

  /** What rests has quantity. */
  predicate Positive(side: seq<Resting>) { forall i :: 0 <= i < |side| ==> side[i].qty > 0 }

  /** All of the first `k` entries, filled in order. */
  function FilledAll(book: seq<Resting>): seq<Trade> {
    if book == [] then []
    else (if book[0].qty > 0 then [Trade(book[0].id, book[0].user, book[0].price, book[0].qty)] else [])
         + FilledAll(book[1..])
  }

  function QtySum(book: seq<Resting>): nat {
    if book == [] then 0 else book[0].qty + QtySum(book[1..])
  }

  lemma {:induction false} QtySumAppend(book: seq<Resting>, e: Resting)
    ensures QtySum(book + [e]) == QtySum(book) + e.qty
  {
    if book != [] {
      assert (book + [e])[1..] == book[1..] + [e];
      QtySumAppend(book[1..], e);
    } else {
      assert book + [e] == [e];
    }
  }

  lemma {:induction false} FilledAllAppend(book: seq<Resting>, e: Resting)
    ensures FilledAll(book + [e]) == FilledAll(book) + if e.qty > 0 then [Trade(e.id, e.user, e.price, e.qty)] else []
  {
    if book != [] {
      assert (book + [e])[1..] == book[1..] + [e];
      FilledAllAppend(book[1..], e);
    } else {
      assert book + [e] == [e];
    }
  }

  lemma WalkFirst(o: Incoming, e: Resting, rest: seq<Resting>, qty: nat)
    requires 0 < e.qty <= qty && Meets(o, e.price)
    ensures var (trades, after, left) := Walk(o, rest, qty - e.qty);
            Walk(o, [e] + rest, qty) == ([Trade(e.id, e.user, e.price, e.qty)] + trades, after, left)
  {
    assert ([e] + rest)[1..] == rest;
    var after := Walk(o, rest, qty - e.qty).1;
    assert [] + after == after;
  }

  /** Walking through entries that are too little together fills them all, then the walk goes on. */
  lemma {:induction false} WalkThrough(o: Incoming, first: seq<Resting>, rest: seq<Resting>, qty: nat)
    requires QtySum(first) < qty && Positive(first) && forall i :: 0 <= i < |first| ==> Meets(o, first[i].price)
    ensures var (trades, after, left) := Walk(o, rest, qty - QtySum(first));
            Walk(o, first + rest, qty) == (FilledAll(first) + trades, after, left)
  {
    if first == [] {
      var trades := Walk(o, rest, qty).0;
      assert first + rest == rest && [] + trades == trades;
    } else {
      assert (first + rest)[1..] == first[1..] + rest;
      WalkThrough(o, first[1..], rest, qty - first[0].qty);
      WalkFirst(o, first[0], first[1..] + rest, qty);
      var head := [Trade(first[0].id, first[0].user, first[0].price, first[0].qty)];
      Regroup(head, FilledAll(first[1..]), Walk(o, rest, qty - QtySum(first)).0);
      assert first + rest == [first[0]] + (first[1..] + rest);
    }
  }

  /** `try_create_deferred_trades` without all-or-none entries: propose fills up to `most`, then make them. */
  method DeferredTrades(deferred: seq<Resting>, most: nat, least: nat) returns (trades: seq<Trade>, traded: nat)
    requires QtySum(deferred) <= most && least <= QtySum(deferred)
    ensures traded == QtySum(deferred) && trades == FilledAll(deferred)
  {
    var fills: seq<nat>, found := [], 0;
    for i := 0 to |deferred|
      invariant |fills| == i && found == QtySum(deferred[..i]) && forall k :: 0 <= k < i ==> fills[k] == deferred[k].qty
    {
      assert deferred[..i + 1] == deferred[..i] + [deferred[i]];
      QtySumAppend(deferred[..i], deferred[i]);
      QtySumPrefix(deferred, i + 1);
      var qty := deferred[i].qty;
      if found + qty > most { qty := most - found; }
      found := found + qty;
      fills := fills + [qty];
    }
    assert deferred[..|deferred|] == deferred;
    trades, traded := [], 0;
    if found >= least && found <= most {
      for i := 0 to |deferred|
        invariant traded == QtySum(deferred[..i]) && trades == FilledAll(deferred[..i])
      {
        assert deferred[..i + 1] == deferred[..i] + [deferred[i]];
        QtySumAppend(deferred[..i], deferred[i]);
        FilledAllAppend(deferred[..i], deferred[i]);
        var made, _, _ := CreateTrade(deferred[i], fills[i]);
        trades, traded := trades + made, traded + fills[i];
      }
    }
  }

  lemma {:induction false} QtySumPrefix(book: seq<Resting>, n: nat)
    requires n <= |book|
    ensures QtySum(book[..n]) <= QtySum(book)
  {
    if n > 0 {
      assert book[..n][1..] == book[1..][..n - 1];
      QtySumPrefix(book[1..], n - 1);
    }
  }

  lemma {:induction false} OpenAtLeast(o: Incoming, first: seq<Resting>, rest: seq<Resting>)
    requires forall i :: 0 <= i < |first| ==> Meets(o, first[i].price)
    ensures Open(o, first + rest) == QtySum(first) + Open(o, rest)
  {
    if first == [] {
      assert first + rest == rest;
    } else {
      assert (first + rest)[1..] == first[1..] + rest;
      OpenAtLeast(o, first[1..], rest);
    }
  }

  /** The entry that completes the order: the deferred ones first, then the rest from it. */
  lemma CompletedBy(o: Incoming, book: seq<Resting>, i: nat, made: seq<Trade>, rest: seq<Resting>)
    requires i < |book| && Positive(book) && forall k :: 0 <= k <= i ==> Meets(o, book[k].price)
    requires QtySum(book[..i]) < o.qty <= QtySum(book[..i]) + book[i].qty
    requires var last := o.qty - QtySum(book[..i]);
             made == [Trade(book[i].id, book[i].user, book[i].price, last)]
             && rest == if last == book[i].qty then [] else [book[i].(qty := book[i].qty - last)]
    ensures Walk(o, book, o.qty) == (FilledAll(book[..i]) + made, rest + book[i + 1..], 0)
  {
    var last := o.qty - QtySum(book[..i]);
    WalkLast(o, book[i], book[i + 1..], last);
    assert book[i..] == [book[i]] + book[i + 1..] && book == book[..i] + book[i..];
    WalkThrough(o, book[..i], book[i..], o.qty);
  }

  lemma WalkLast(o: Incoming, e: Resting, more: seq<Resting>, last: nat)
    requires 0 < last <= e.qty && Meets(o, e.price)
    ensures Walk(o, [e] + more, last)
            == ([Trade(e.id, e.user, e.price, last)], (if last == e.qty then [] else [e.(qty := e.qty - last)]) + more,
                0)
  {
    assert ([e] + more)[0] == e && ([e] + more)[1..] == more;
    assert Walk(o, more, 0) == ([], more, 0);
    assert [Trade(e.id, e.user, e.price, last)] + [] == [Trade(e.id, e.user, e.price, last)];
  }

  /** The `i`-th entry completes the order: the deferred ones trade first. */
  method Complete(o: Incoming, book: seq<Resting>, i: nat, deferred: seq<Resting>)
    returns (trades: seq<Trade>, after: seq<Resting>)
    requires i < |book| && Positive(book) && deferred == book[..i]
             && forall k :: 0 <= k <= i ==> Meets(o, book[k].price)
    requires QtySum(deferred) < o.qty <= QtySum(deferred) + book[i].qty
    ensures (trades, after, 0) == Walk(o, book, o.qty)
  {
    var least := if o.qty > book[i].qty then o.qty - book[i].qty else 0;
    var made, traded := DeferredTrades(deferred, o.qty, least);
    var last, rest, _ := CreateTrade(book[i], o.qty - traded);
    CompletedBy(o, book, i, last, rest);
    trades, after := made + last, rest + book[i + 1..];
  }

  /**
    `match_aon_order` against a book without all-or-none orders: it sets entries aside until they
    suffice, and then trades exactly as the plain walk does; if they never do, it trades nothing.
   */
  method MatchAllOrNone(o: Incoming, book: seq<Resting>) returns (trades: seq<Trade>, after: seq<Resting>, left: nat)
    requires o.qty > 0 && Positive(book)
    ensures (trades, after, left) == if Open(o, book) >= o.qty then Walk(o, book, o.qty) else ([], book, o.qty)
  {
    var deferred: seq<Resting>, deferredQty := [], 0;
    for i := 0 to |book|
      invariant deferred == book[..i] && deferredQty == QtySum(deferred) < o.qty
      invariant forall k :: 0 <= k < i ==> Meets(o, book[k].price)
    {
      assert book[..i] + book[i..] == book && book[i..][0] == book[i];
      OpenAtLeast(o, book[..i], book[i..]);
      if !Meets(o, book[i].price) {
        return [], book, o.qty;
      }
      var current := book[i].qty;
      if o.qty <= current + deferredQty {
        trades, after := Complete(o, book, i, deferred);
        left := 0;
        return;
      }
      QtySumAppend(deferred, book[i]);
      assert book[..i + 1] == book[..i] + [book[i]];
      deferred, deferredQty := deferred + [book[i]], deferredQty + current;
    }
    assert book[..|book|] == book && book + [] == book;
    OpenAtLeast(o, book, []);
    trades, after, left := [], book, o.qty;
  }

  // ---------------------------------------------------------------- the book

  datatype BookState = BookState(bids: seq<Resting>, asks: seq<Resting>)

  datatype Terms = Terms(fok: bool, ioc: bool, postOnly: bool, stp: bool)

  datatype Command =
    | Submit(order: Incoming, terms: Terms)
    | Cancel(id: nat)
    | Amend(id: nat, user: nat, buy: bool, price: nat, qty: nat)

  /** Both sides sorted best first, nothing empty, and every bid below every ask. */
  predicate GoodBook(b: BookState) {
    && Sorted(true, b.asks) && Sorted(false, b.bids) && Positive(b.asks) && Positive(b.bids)
    && forall i, j :: 0 <= i < |b.bids| && 0 <= j < |b.asks| ==> b.bids[i].price < b.asks[j].price
  }

  /** Time priority: a new order goes behind those at its price. `ask` says which side it joins. */
  function Insert(ask: bool, side: seq<Resting>, e: Resting): (r: seq<Resting>)
    ensures |r| == |side| + 1
  {
    if side == [] then [e]
    else if (if ask then side[0].price <= e.price else side[0].price >= e.price) then
      [side[0]] + Insert(ask, side[1..], e)
    else [e] + side
  }

  function Remove(side: seq<Resting>, id: nat): seq<Resting> {
    if side == [] then [] else (if side[0].id == id then [] else [side[0]]) + Remove(side[1..], id)
  }

  function Opposite(b: BookState, buy: bool): seq<Resting> { if buy then b.asks else b.bids }

  /** `apply_submit_order` once the request is well formed: precheck, match, and rest what is left. */
  function Submitted(b: BookState, o: Incoming, terms: Terms): (BookState, Result<seq<Trade>, Reject>) {
    var refused := Precheck(o, Opposite(b, o.buy), terms.fok, terms.postOnly, terms.stp);
    if refused.Some? then (b, Err(refused.value))
    else
      var (trades, after, left) := Walk(o, Opposite(b, o.buy), o.qty);
      var rests := left > 0 && !terms.ioc && !terms.fok;
      var e := Resting(o.id, o.user, o.price, left);
      (if o.buy then BookState(if rests then Insert(false, b.bids, e) else b.bids, after)
       else BookState(after, if rests then Insert(true, b.asks, e) else b.asks),
       Ok(trades))
  }

  function Cancelled(b: BookState, id: nat): BookState { BookState(Remove(b.bids, id), Remove(b.asks, id)) }

  predicate Rests(b: BookState, buy: bool, id: nat) { exists e :: e in (if buy then b.bids else b.asks) && e.id == id }

  /** `apply_amend_order` for an unfilled order: refused if it does not rest or would trade, else it loses its place. */
  function Amended(b: BookState, o: Incoming): BookState {
    if o.qty == 0 || o.price == 0 || !Rests(b, o.buy, o.id) || Crosses(o, Opposite(b, o.buy)) then b
    else
      var c := Cancelled(b, o.id);
      var e := Resting(o.id, o.user, o.price, o.qty);
      if o.buy then c.(bids := Insert(false, c.bids, e)) else c.(asks := Insert(true, c.asks, e))
  }

  function After(b: BookState, command: Command): BookState {
    match command
    case Submit(o, terms) => Submitted(b, o, terms).0
    case Cancel(id) => Cancelled(b, id)
    case Amend(id, user, buy, price, qty) => Amended(b, Incoming(id, user, buy, price, qty))
  }

  function RunBook(commands: seq<Command>): BookState {
    if commands == [] then BookState([], []) else After(RunBook(commands[..|commands| - 1]), commands[|commands| - 1])
  }

  /** `e` is at least as good as everything behind it. */
  predicate Leads(ask: bool, e: Resting, rest: seq<Resting>) {
    forall x :: x in rest ==> if ask then e.price <= x.price else e.price >= x.price
  }

  lemma LeadSorted(ask: bool, e: Resting, rest: seq<Resting>)
    requires Sorted(ask, rest) && Positive(rest) && e.qty > 0 && Leads(ask, e, rest)
    ensures Sorted(ask, [e] + rest) && Positive([e] + rest)
  {
    forall j | 0 <= j < |rest| ensures if ask then e.price <= rest[j].price else e.price >= rest[j].price {
      assert rest[j] in rest;
    }
  }

  lemma SortedLeads(ask: bool, side: seq<Resting>)
    requires Sorted(ask, side) && side != []
    ensures Sorted(ask, side[1..]) && Leads(ask, side[0], side[1..])
  {
    forall x | x in side[1..] ensures if ask then side[0].price <= x.price else side[0].price >= x.price {
      var k :| 0 <= k < |side[1..]| && side[1..][k] == x;
      assert side[k + 1] == x;
    }
  }

  lemma {:induction false} InsertKeepsSorted(ask: bool, side: seq<Resting>, e: Resting)
    requires Sorted(ask, side) && Positive(side) && e.qty > 0
    ensures Sorted(ask, Insert(ask, side, e)) && Positive(Insert(ask, side, e))
    ensures forall x :: x in Insert(ask, side, e) <==> x in side || x == e
  {
    if side != [] {
      SortedLeads(ask, side);
      assert side == [side[0]] + side[1..];
      if if ask then side[0].price <= e.price else side[0].price >= e.price {
        InsertKeepsSorted(ask, side[1..], e);
        LeadSorted(ask, side[0], Insert(ask, side[1..], e));
      } else {
        LeadSorted(ask, e, side);
      }
    }
  }

  lemma {:induction false} RemoveKeepsSorted(ask: bool, side: seq<Resting>, id: nat)
    requires Sorted(ask, side) && Positive(side)
    ensures Sorted(ask, Remove(side, id)) && Positive(Remove(side, id))
    ensures forall x :: x in Remove(side, id) ==> x in side
  {
    if side != [] {
      SortedLeads(ask, side);
      assert side == [side[0]] + side[1..];
      RemoveKeepsSorted(ask, side[1..], id);
      if side[0].id != id { LeadSorted(ask, side[0], Remove(side[1..], id)); }
    }
  }

  predicate HasPrice(book: seq<Resting>, price: nat) { exists i :: 0 <= i < |book| && book[i].price == price }

  /** `after` holds only prices of `book`. */
  predicate SamePrices(book: seq<Resting>, after: seq<Resting>) { forall x :: x in after ==> HasPrice(book, x.price) }

  /** What a walk over `book` may leave: sorted, nothing empty, at the same prices. */
  predicate Remnant(buy: bool, book: seq<Resting>, after: seq<Resting>) {
    Sorted(buy, after) && Positive(after) && SamePrices(book, after)
  }

  lemma FirstGone(buy: bool, book: seq<Resting>, rest: seq<Resting>)
    requires book != [] && Remnant(buy, book[1..], rest)
    ensures Remnant(buy, book, rest)
  {
    forall x | x in rest ensures HasPrice(book, x.price) {
      var i :| 0 <= i < |book[1..]| && book[1..][i].price == x.price;
      assert book[i + 1].price == x.price;
    }
  }

  lemma FirstStays(buy: bool, book: seq<Resting>, e: Resting, rest: seq<Resting>)
    requires Sorted(buy, book) && book != [] && e.price == book[0].price && e.qty > 0 && Remnant(buy, book[1..], rest)
    ensures Remnant(buy, book, [e] + rest)
  {
    FirstGone(buy, book, rest);
    forall x | x in rest ensures if buy then e.price <= x.price else e.price >= x.price {
      var i :| 0 <= i < |book| && book[i].price == x.price;
    }
    LeadSorted(buy, e, rest);
    assert book[0].price == e.price;
  }

  lemma WalkUnfold(o: Incoming, book: seq<Resting>, qty: nat, n: nat)
    requires Positive(book) && book != [] && qty > 0 && Meets(o, book[0].price)
             && n == if book[0].qty <= qty then book[0].qty else qty
    ensures var rest := Walk(o, book[1..], qty - n).1;
            Walk(o, book, qty).1 == if n == book[0].qty then rest else [book[0].(qty := book[0].qty - n)] + rest
  {
    var rest := Walk(o, book[1..], qty - n).1;
    assert [] + rest == rest;
  }

  lemma FirstWalked(buy: bool, book: seq<Resting>, n: nat, rest: seq<Resting>)
    requires Sorted(buy, book) && book != [] && n <= book[0].qty && Remnant(buy, book[1..], rest)
    ensures Remnant(buy, book, if n == book[0].qty then rest else [book[0].(qty := book[0].qty - n)] + rest)
  {
    if n == book[0].qty {
      FirstGone(buy, book, rest);
    } else {
      FirstStays(buy, book, book[0].(qty := book[0].qty - n), rest);
    }
  }

  lemma {:induction false} WalkKeepsSorted(o: Incoming, book: seq<Resting>, qty: nat)
    requires Sorted(o.buy, book) && Positive(book)
    ensures Remnant(o.buy, book, Walk(o, book, qty).1)
  {
    if book != [] && qty > 0 && Meets(o, book[0].price) {
      Better(o, book);
      var n := if book[0].qty <= qty then book[0].qty else qty;
      WalkKeepsSorted(o, book[1..], qty - n);
      WalkUnfold(o, book, qty, n);
      FirstWalked(o.buy, book, n, Walk(o, book[1..], qty - n).1);
    }
  }

  lemma {:induction false} NothingMeets(o: Incoming, side: seq<Resting>)
    requires Positive(side) && Sorted(o.buy, side) && Open(o, side) == 0
    ensures forall x :: x in side ==> !Meets(o, x.price)
  {
    if side != [] { Better(o, side); }
  }

  /** The two sides after a buyer's walk: what is left of the asks, and the bids with the rest of the order. */
  lemma BuyerKeepsBook(b: BookState, o: Incoming, after: seq<Resting>, bids: seq<Resting>)
    requires GoodBook(b) && o.buy && Remnant(true, b.asks, after)
    requires Sorted(false, bids) && Positive(bids)
    requires forall x :: x in bids ==> x in b.bids || (x.price == o.price && Open(o, after) == 0)
    ensures GoodBook(BookState(bids, after))
  {
    if Open(o, after) == 0 { NothingMeets(o, after); }
    forall i, j | 0 <= i < |bids| && 0 <= j < |after| ensures bids[i].price < after[j].price {
      assert bids[i] in bids && after[j] in after;
      var k :| 0 <= k < |b.asks| && b.asks[k].price == after[j].price;
    }
  }

  lemma SellerKeepsBook(b: BookState, o: Incoming, after: seq<Resting>, asks: seq<Resting>)
    requires GoodBook(b) && !o.buy && Remnant(false, b.bids, after)
    requires Sorted(true, asks) && Positive(asks)
    requires forall x :: x in asks ==> x in b.asks || (x.price == o.price && Open(o, after) == 0)
    ensures GoodBook(BookState(after, asks))
  {
    if Open(o, after) == 0 { NothingMeets(o, after); }
    forall i, j | 0 <= i < |after| && 0 <= j < |asks| ensures after[i].price < asks[j].price {
      assert asks[j] in asks && after[i] in after;
      var k :| 0 <= k < |b.bids| && b.bids[k].price == after[i].price;
    }
  }

  lemma SubmitKeepsBook(b: BookState, o: Incoming, terms: Terms)
    requires GoodBook(b)
    ensures GoodBook(Submitted(b, o, terms).0)
  {
    var (trades, after, left) := Walk(o, Opposite(b, o.buy), o.qty);
    var e := Resting(o.id, o.user, o.price, left);
    WalkFills(o, Opposite(b, o.buy), o.qty);
    WalkKeepsSorted(o, Opposite(b, o.buy), o.qty);
    var c := Submitted(b, o, terms).0;
    if o.buy {
      if left > 0 { InsertKeepsSorted(false, b.bids, e); }
      if c != b { BuyerKeepsBook(b, o, after, c.bids); }
    } else {
      if left > 0 { InsertKeepsSorted(true, b.asks, e); }
      if c != b { SellerKeepsBook(b, o, after, c.asks); }
    }
  }

  lemma CancelKeepsBook(b: BookState, id: nat)
    requires GoodBook(b)
    ensures GoodBook(Cancelled(b, id))
  {
    RemoveKeepsSorted(true, b.asks, id);
    RemoveKeepsSorted(false, b.bids, id);
    var c := Cancelled(b, id);
    forall i, j | 0 <= i < |c.bids| && 0 <= j < |c.asks| ensures c.bids[i].price < c.asks[j].price {
      assert c.bids[i] in b.bids && c.asks[j] in b.asks;
    }
  }

  /** An order that meets nothing rests without crossing. */
  lemma RestingKeepsBook(c: BookState, o: Incoming, e: Resting)
    requires GoodBook(c) && e.qty > 0 && e.price == o.price
             && forall x :: x in Opposite(c, o.buy) ==> !Meets(o, x.price)
    ensures GoodBook(if o.buy then c.(bids := Insert(false, c.bids, e)) else c.(asks := Insert(true, c.asks, e)))
  {
    if o.buy {
      InsertKeepsSorted(false, c.bids, e);
      var bids := Insert(false, c.bids, e);
      forall i, j | 0 <= i < |bids| && 0 <= j < |c.asks| ensures bids[i].price < c.asks[j].price {
        assert bids[i] in bids && c.asks[j] in c.asks;
      }
    } else {
      InsertKeepsSorted(true, c.asks, e);
      var asks := Insert(true, c.asks, e);
      forall i, j | 0 <= i < |c.bids| && 0 <= j < |asks| ensures c.bids[i].price < asks[j].price {
        assert asks[j] in asks && c.bids[i] in c.bids;
      }
    }
  }

  lemma AmendKeepsBook(b: BookState, o: Incoming)
    requires GoodBook(b)
    ensures GoodBook(Amended(b, o))
  {
    var c := Cancelled(b, o.id);
    CancelKeepsBook(b, o.id);
    CrossesIffOpen(o, Opposite(b, o.buy));
    if o.qty > 0 && o.price > 0 && !Crosses(o, Opposite(b, o.buy)) {
      NothingMeets(o, Opposite(b, o.buy));
      RemoveKeepsSorted(true, b.asks, o.id);
      RemoveKeepsSorted(false, b.bids, o.id);
      RestingKeepsBook(c, o, Resting(o.id, o.user, o.price, o.qty));
    }
  }

  /** Over every run of submits, cancels and amends the book stays sorted and uncrossed. */
  lemma {:induction false} BookNeverCrosses(commands: seq<Command>)
    ensures GoodBook(RunBook(commands))
  {
    if commands != [] {
      var before, last := RunBook(commands[..|commands| - 1]), commands[|commands| - 1];
      BookNeverCrosses(commands[..|commands| - 1]);
      match last {
        case Submit(o, terms) => SubmitKeepsBook(before, o, terms);
        case Cancel(id) => CancelKeepsBook(before, id);
        case Amend(id, user, buy, price, qty) => AmendKeepsBook(before, Incoming(id, user, buy, price, qty));
      }
    }
  }

  /**
    `match_order`: fill-or-kill orders are all-or-none. An order the prechecks let
    through trades as the walk does either way.
   */
  method Match(o: Incoming, opposite: seq<Resting>, fok: bool)
    returns (trades: seq<Trade>, after: seq<Resting>, left: nat)
    requires Positive(opposite) && o.qty > 0 && (fok ==> Sorted(o.buy, opposite) && Available(o, opposite, 0) >= o.qty)
    ensures (trades, after, left) == Walk(o, opposite, o.qty)
  {
    if fok {
      AvailableIsOpen(o, opposite, 0);
      trades, after, left := MatchAllOrNone(o, opposite);
    } else {
      trades, after, left := MatchRegular(o, opposite);
    }
  }

  /** The engine's book of one contract. */
  class OrderBook {
    var bids: seq<Resting>
    var asks: seq<Resting>

    constructor ()
      ensures Valid() && Value() == BookState([], [])
    {
      bids, asks := [], [];
    }

    ghost function Value(): BookState
      reads this
    {
      BookState(bids, asks)
    }

    /** Walks to the end of the order's price level and puts it there. */
    static method InsertLoop(ask: bool, side: seq<Resting>, e: Resting) returns (r: seq<Resting>)
      ensures r == Insert(ask, side, e)
    {
      var i := 0;
      while i < |side| && if ask then side[i].price <= e.price else side[i].price >= e.price
        invariant i <= |side| && Insert(ask, side, e) == side[..i] + Insert(ask, side[i..], e)
      {
        assert side[i..][0] == side[i] && side[i..][1..] == side[i + 1..];
        assert side[..i] + [side[i]] == side[..i + 1];
        i := i + 1;
      }
      if i < |side| { assert side[i..][0] == side[i]; }
      r := side[..i] + [e] + side[i..];
    }

    ghost predicate Valid()
      reads this
    {
      GoodBook(Value())
    }

    method Submit(o: Incoming, terms: Terms) returns (r: Result<seq<Trade>, Reject>)
      requires Valid()
      modifies this
      ensures Valid() && (Value(), r) == Submitted(old(Value()), o, terms)
    {
      SubmitKeepsBook(Value(), o, terms);
      var opposite := if o.buy then asks else bids;
      var refused := PrecheckLoop(o, opposite, terms.fok, terms.postOnly, terms.stp);
      if refused.Some? {
        return Err(refused.value);
      }
      var trades, after, left := Match(o, opposite, terms.fok);
      if o.buy { asks := after; } else { bids := after; }
      if left > 0 && !terms.ioc && !terms.fok {
        var e := Resting(o.id, o.user, o.price, left);
        if o.buy {
          bids := InsertLoop(false, bids, e);
        } else {
          asks := InsertLoop(true, asks, e);
        }
      }
      r := Ok(trades);
    }
  }
}
