/** Price-time matching and the checks the engine makes before it hands an order to the book. */
module Matching {
  import opened Common

  datatype Resting = Resting(id: nat, user: nat, price: nat, qty: nat)

  datatype Incoming = Incoming(id: nat, user: nat, buy: bool, price: nat, qty: nat)

  datatype Trade = Trade(maker: nat, makerUser: nat, price: nat, qty: nat)

  datatype Reject = InvalidPriceOrSize | SelfTradePrevented | PostOnlyWouldTrade | FokNotFilled

  /** The opposite side, best first: asks upwards for a buyer, bids downwards for a seller. */
  predicate Sorted(buy: bool, book: seq<Resting>) {
    forall i, j :: 0 <= i < j < |book| ==>
                   if buy then book[i].price <= book[j].price else book[i].price >= book[j].price
  }

  /** A resting price the incoming order accepts. */
  predicate Meets(o: Incoming, price: nat) { if o.buy then price <= o.price else price >= o.price }

  // ---------------------------------------------------------------- the walk

  /** Best first, until the order is filled or the next price is too bad: trades, book after, quantity left. */
  function Walk(o: Incoming, book: seq<Resting>, qty: nat): (r: (seq<Trade>, seq<Resting>, nat))
  {
    if book == [] || qty == 0 || !Meets(o, book[0].price) then ([], book, qty)
    else
      var n := if book[0].qty <= qty then book[0].qty else qty;
      var (trades, rest, left) := Walk(o, book[1..], qty - n);
      ((if n > 0 then [Trade(book[0].id, book[0].user, book[0].price, n)] else []) + trades,
       (if n > 0 && n == book[0].qty then [] else [book[0].(qty := book[0].qty - n)]) + rest,
       left)
  }

  /** The quantity of the entries an order can meet. */
  function Open(o: Incoming, book: seq<Resting>): nat {
    if book == [] || !Meets(o, book[0].price) then 0 else book[0].qty + Open(o, book[1..])
  }

  function Traded(trades: seq<Trade>): nat {
    if trades == [] then 0 else trades[0].qty + Traded(trades[1..])
  }

  /** The walk fills exactly as much as is there, and never leaves quantity that could still trade. */
  lemma {:induction false} WalkFills(o: Incoming, book: seq<Resting>, qty: nat)
    ensures var (trades, after, left) := Walk(o, book, qty);
            && left == Max(0, qty - Open(o, book)) && Traded(trades) == qty - left
            && (left > 0 ==> Open(o, after) == 0)
  {
    if book != [] && qty > 0 && Meets(o, book[0].price) {
      var n := if book[0].qty <= qty then book[0].qty else qty;
      WalkFills(o, book[1..], qty - n);
      var (trades, rest, left) := Walk(o, book[1..], qty - n);
      if n > 0 { assert ([Trade(book[0].id, book[0].user, book[0].price, n)] + trades)[1..] == trades; }
      var kept := if n > 0 && n == book[0].qty then [] else [book[0].(qty := book[0].qty - n)];
      assert Walk(o, book, qty).1 == kept + rest;
      if kept == [] { assert kept + rest == rest; } else { assert (kept + rest)[1..] == rest; }
      if n == 0 { assert [] + trades == trades; }
    }
  }

  /** Every trade is with a resting order at its own price, within both limits. */
  lemma {:induction false} TradesWithinLimits(o: Incoming, book: seq<Resting>, qty: nat)
    ensures forall t :: t in Walk(o, book, qty).0 ==>
                          && t.qty > 0 && Meets(o, t.price)
                          && exists i :: 0 <= i < |book| && book[i].id == t.maker && book[i].user == t.makerUser
                                         && book[i].price == t.price && t.qty <= book[i].qty && Meets(o, book[i].price)
  {
    if book != [] && qty > 0 && Meets(o, book[0].price) {
      var n := if book[0].qty <= qty then book[0].qty else qty;
      TradesWithinLimits(o, book[1..], qty - n);
      forall t | t in Walk(o, book, qty).0
        ensures exists i :: 0 <= i < |book| && book[i].id == t.maker && book[i].user == t.makerUser
                            && book[i].price == t.price && t.qty <= book[i].qty && Meets(o, book[i].price)
      {
        if t in Walk(o, book[1..], qty - n).0 {
          var i :| 0 <= i < |book[1..]| && book[1..][i].id == t.maker && book[1..][i].user == t.makerUser
                   && book[1..][i].price == t.price && t.qty <= book[1..][i].qty && Meets(o, book[1..][i].price);
          assert book[i + 1].id == t.maker && book[i + 1].price == t.price && book[i + 1].user == t.makerUser;
        } else {
          assert book[0].id == t.maker && book[0].price == t.price;
        }
      }
    }
  }

  // ---------------------------------------------------------------- prechecks

  /** `crosses`: the first entry with quantity decides. */
  function Crosses(o: Incoming, book: seq<Resting>): bool {
    if book == [] then false
    else if book[0].qty == 0 then Crosses(o, book[1..])
    else Meets(o, book[0].price)
  }

  const MAX_QTY: nat := 0xFFFF_FFFF_FFFF_FFFF

  /** `available_quantity`, saturating at the largest 64-bit number. */
  function Available(o: Incoming, book: seq<Resting>, sum: nat): nat {
    if book == [] then sum
    else if book[0].qty == 0 then Available(o, book[1..], sum)
    else if !Meets(o, book[0].price) then sum
    else Available(o, book[1..], if book[0].qty > MAX_QTY - sum then MAX_QTY else sum + book[0].qty)
  }

  /** An order of the same user among those the incoming order can meet. */
  function MeetsOwn(o: Incoming, book: seq<Resting>): bool {
    if book == [] then false
    else if book[0].qty == 0 then MeetsOwn(o, book[1..])
    else if !Meets(o, book[0].price) then false
    else book[0].user == o.user || MeetsOwn(o, book[1..])
  }

  function Precheck(o: Incoming, book: seq<Resting>, fok: bool, postOnly: bool, stp: bool): Option<Reject> {
    if o.qty == 0 || o.price == 0 then Some(InvalidPriceOrSize)
    else if stp && Crosses(o, book) && MeetsOwn(o, book) then Some(SelfTradePrevented)
    else if postOnly && Crosses(o, book) then Some(PostOnlyWouldTrade)
    else if fok && Available(o, book, 0) < o.qty then Some(FokNotFilled)
    else None
  }

  lemma Better(o: Incoming, book: seq<Resting>)
    requires Sorted(o.buy, book) && book != []
    ensures Sorted(o.buy, book[1..])
    ensures forall i :: 0 <= i < |book| && Meets(o, book[i].price) ==> Meets(o, book[0].price)
  {
  }

  /** Entries without quantity, wherever they are, do not change what is open. */
  lemma {:induction false} NothingOpen(o: Incoming, book: seq<Resting>)
    requires Sorted(o.buy, book) && book != [] && !Meets(o, book[0].price)
    ensures !Crosses(o, book) && !MeetsOwn(o, book)
    ensures forall sum :: Available(o, book, sum) == sum
  {
    Better(o, book);
    if book[0].qty == 0 && |book| > 1 { NothingOpen(o, book[1..]); }
  }

  /** The order crosses exactly when something is open to it. */
  lemma {:induction false} CrossesIffOpen(o: Incoming, book: seq<Resting>)
    requires Sorted(o.buy, book)
    ensures Crosses(o, book) <==> Open(o, book) > 0
  {
    if book != [] {
      Better(o, book);
      if !Meets(o, book[0].price) {
        NothingOpen(o, book);
      } else {
        CrossesIffOpen(o, book[1..]);
      }
    }
  }

  lemma {:induction false} AvailableIsOpen(o: Incoming, book: seq<Resting>, sum: nat)
    requires Sorted(o.buy, book) && sum <= MAX_QTY
    ensures Available(o, book, sum) == Min(MAX_QTY, sum + Open(o, book))
  {
    if book != [] {
      Better(o, book);
      if !Meets(o, book[0].price) {
        NothingOpen(o, book);
      } else if book[0].qty == 0 {
        AvailableIsOpen(o, book[1..], sum);
      } else {
        AvailableIsOpen(o, book[1..], if book[0].qty > MAX_QTY - sum then MAX_QTY else sum + book[0].qty);
      }
    }
  }

  lemma {:induction false} MeetsOwnIff(o: Incoming, book: seq<Resting>)
    requires Sorted(o.buy, book)
    ensures MeetsOwn(o, book) <==> exists i ::
            0 <= i < |book| && book[i].qty > 0 && Meets(o, book[i].price) && book[i].user == o.user
  {
    if book != [] {
      Better(o, book);
      if Meets(o, book[0].price) {
        MeetsOwnIff(o, book[1..]);
        if MeetsOwn(o, book[1..]) {
          var i :| 0 <= i < |book[1..]| && book[1..][i].qty > 0 && Meets(o, book[1..][i].price)
              && book[1..][i].user == o.user;
          assert book[i + 1].user == o.user;
        }
        if exists i :: 0 < i < |book| && book[i].qty > 0 && Meets(o, book[i].price) && book[i].user == o.user {
          var i :| 0 < i < |book| && book[i].qty > 0 && Meets(o, book[i].price) && book[i].user == o.user;
          assert book[1..][i - 1] == book[i];
        }
      } else {
        NothingOpen(o, book);
      }
    }
  }

  /** An accepted fill-or-kill order fills completely; a rejected one could not have. */
  lemma FokExactly(o: Incoming, book: seq<Resting>, postOnly: bool, stp: bool)
    requires Sorted(o.buy, book) && o.qty <= MAX_QTY
    ensures Precheck(o, book, true, postOnly, stp) == None ==>
            Walk(o, book, o.qty).2 == 0 && Traded(Walk(o, book, o.qty).0) == o.qty
    ensures Precheck(o, book, true, postOnly, stp) == Some(FokNotFilled) ==> Walk(o, book, o.qty).2 > 0
  {
    AvailableIsOpen(o, book, 0);
    WalkFills(o, book, o.qty);
  }

  lemma {:induction false} SomeTrade(trades: seq<Trade>)
    requires forall t :: t in trades ==> t.qty > 0
    ensures Traded(trades) == 0 <==> trades == []
  {
    if trades != [] {
      assert trades[0] in trades;
      assert forall t :: t in trades[1..] ==> t in trades;
      SomeTrade(trades[1..]);
    }
  }

  /** An order crosses exactly when it would trade, so an accepted post-only order gets no fill. */
  lemma PostOnlyExactly(o: Incoming, book: seq<Resting>)
    requires Sorted(o.buy, book) && o.qty > 0
    ensures Crosses(o, book) <==> Walk(o, book, o.qty).0 != []
  {
    CrossesIffOpen(o, book);
    WalkFills(o, book, o.qty);
    TradesWithinLimits(o, book, o.qty);
    SomeTrade(Walk(o, book, o.qty).0);
  }

  /** With self-trade prevention on, no fill pairs a user with itself. */
  lemma NoSelfTrade(o: Incoming, book: seq<Resting>, fok: bool, postOnly: bool)
    requires Sorted(o.buy, book) && Precheck(o, book, fok, postOnly, true) == None
    ensures forall t :: t in Walk(o, book, o.qty).0 ==> t.makerUser != o.user
  {
    PostOnlyExactly(o, book);
    MeetsOwnIff(o, book);
    TradesWithinLimits(o, book, o.qty);
    forall t | t in Walk(o, book, o.qty).0 ensures t.makerUser != o.user {
      var i :| 0 <= i < |book| && book[i].id == t.maker && book[i].user == t.makerUser
               && book[i].price == t.price && t.qty <= book[i].qty && Meets(o, book[i].price);
      assert Crosses(o, book);
    }
  }

  /** What others offer to the order ahead of its user's own first entry. */
  function AheadOfOwn(o: Incoming, book: seq<Resting>): nat {
    if book == [] || !Meets(o, book[0].price) || (book[0].qty > 0 && book[0].user == o.user) then 0
    else book[0].qty + AheadOfOwn(o, book[1..])
  }

  predicate TradesWithOwn(o: Incoming, trades: seq<Trade>) { exists t :: t in trades && t.makerUser == o.user }

  lemma OwnFirst(o: Incoming, first: seq<Trade>, rest: seq<Trade>)
    ensures TradesWithOwn(o, first + rest) <==> TradesWithOwn(o, first) || TradesWithOwn(o, rest)
  {
    if TradesWithOwn(o, first) {
      var t :| t in first && t.makerUser == o.user;
      assert t in first + rest;
    }
    if TradesWithOwn(o, rest) {
      var t :| t in rest && t.makerUser == o.user;
      assert t in first + rest;
    }
  }

  /** A walk trades with its own user exactly when it gets past what others offer ahead of the user's first entry. */
  lemma {:induction false} SelfTradeIff(o: Incoming, book: seq<Resting>, qty: nat)
    requires Sorted(o.buy, book)
    ensures TradesWithOwn(o, Walk(o, book, qty).0) <==> MeetsOwn(o, book) && AheadOfOwn(o, book) < qty
  {
    if book != [] {
      Better(o, book);
      if !Meets(o, book[0].price) {
        NothingOpen(o, book);
      } else if qty > 0 {
        var n := if book[0].qty <= qty then book[0].qty else qty;
        SelfTradeIff(o, book[1..], qty - n);
        var first := if n > 0 then [Trade(book[0].id, book[0].user, book[0].price, n)] else [];
        OwnFirst(o, first, Walk(o, book[1..], qty - n).0);
        if n > 0 && book[0].user == o.user { assert first[0] in first; }
      }
    }
  }

  /**
    Self-trade prevention refuses an order for any own order it could meet. That was needed exactly
    when what others offer ahead of the first one does not fill the order; otherwise its walk would
    never have reached it.
   */
  lemma SelfTradeRefusalNeededIff(o: Incoming, book: seq<Resting>, fok: bool, postOnly: bool)
    requires Sorted(o.buy, book) && o.qty > 0 && o.price > 0
    ensures var refused := Precheck(o, book, fok, postOnly, true) == Some(SelfTradePrevented);
            && (refused <==> MeetsOwn(o, book))
            && (refused ==> (TradesWithOwn(o, Walk(o, book, o.qty).0) <==> AheadOfOwn(o, book) < o.qty))
  {
    SelfTradeIff(o, book, o.qty);
    MeetsOwnIff(o, book);
    CrossesIffOpen(o, book);
    if MeetsOwn(o, book) { OwnIsOpen(o, book); }
  }

  lemma {:induction false} OwnIsOpen(o: Incoming, book: seq<Resting>)
    requires Sorted(o.buy, book) && MeetsOwn(o, book)
    ensures Open(o, book) > 0
  {
    Better(o, book);
    if !Meets(o, book[0].price) {
      NothingOpen(o, book);
    } else if book[0].qty == 0 {
      OwnIsOpen(o, book[1..]);
    }
  }
}
