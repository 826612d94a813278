/**
  Positions projected from fills. Deliveries may repeat, skip or stop anywhere; each fill still
  counts once, and nothing below the consumer's offset is missing.
 */
module Positions {
  import opened Common
  import opened Portfolio

  datatype Fill = Fill(
    seqNo: nat, ticker: nat, count: int,
    maker: nat, makerSide: Side, makerAction: Action,
    taker: nat, takerSide: Side, takerAction: Action)

  datatype Key = Key(user: nat, ticker: nat)

  /**
    The tables of position-svc: applied fills by their place in the exchange's fill history, net quantities, offset.
   */
  datatype Projection = Projection(applied: set<nat>, net: map<Key, int>, offset: nat)

  const START := Projection({}, map[], 0)

  function Held(net: map<Key, int>, key: Key): int { if key in net then net[key] else 0 }

  function Moved(net: map<Key, int>, key: Key, delta: int): map<Key, int> {
    if delta == 0 then net else net[key := Held(net, key) + delta]
  }

  function MakerDelta(f: Fill): int { SignedDelta(f.makerSide, f.makerAction, f.count) }

  function TakerDelta(f: Fill): int { SignedDelta(f.takerSide, f.takerAction, f.count) }

  /** `apply_fill` for the `i`-th fill: a known fill only moves the offset. */
  function Apply(p: Projection, history: seq<Fill>, i: nat): Projection
    requires i < |history|
  {
    var f := history[i];
    var offset := Max(p.offset, f.seqNo);
    if i in p.applied then p.(offset := offset)
    else
      var afterMaker := Moved(p.net, Key(f.maker, f.ticker), MakerDelta(f));
      Projection(p.applied + {i}, Moved(afterMaker, Key(f.taker, f.ticker), TakerDelta(f)), offset)
  }

  /** The fills of the history the order-router has stored, by place, within a range of sequence numbers. */
  function InRange(history: seq<Fill>, stored: set<nat>, from: nat, to: nat, n: nat): (r: seq<nat>)
    requires n <= |history|
    ensures forall k :: 0 <= k < |r| ==> r[k] < n
  {
    if n == 0 then []
    else InRange(history, stored, from, to, n - 1)
         + if n - 1 in stored && from <= history[n - 1].seqNo <= to then [n - 1] else []
  }

  function ApplyEach(p: Projection, history: seq<Fill>, places: seq<nat>): Projection
    requires forall k :: 0 <= k < |places| ==> places[k] < |history|
  {
    if places == [] then p
    else Apply(ApplyEach(p, history, places[..|places| - 1]), history, places[|places| - 1])
  }

  lemma {:induction false} RangeFacts(history: seq<Fill>, stored: set<nat>, from: nat, to: nat, n: nat)
    requires n <= |history|
    ensures var r := InRange(history, stored, from, to, n);
            && (forall k :: 0 <= k < |r| ==> r[k] < n && r[k] in stored && from <= history[r[k]].seqNo <= to)
            && (forall i :: 0 <= i < n && i in stored && from <= history[i].seqNo <= to ==> i in r)
  {
    if n > 0 {
      RangeFacts(history, stored, from, to, n - 1);
      var before, listed := InRange(history, stored, from, to, n - 1), n - 1 in stored
                            && from <= history[n - 1].seqNo <= to;
      var r := before + if listed then [n - 1] else [];
      forall i | i in before ensures i in r { var k :| 0 <= k < |before| && before[k] == i; assert r[k] == i; }
      if listed { assert r[|before|] == n - 1; }
    }
  }

  // ---------------------------------------------------------------- what deliveries do

  /**
    Delivery of the `place`-th fill while the order-router holds `stored`; the consumer may fail after `budget` fills.
   */
  datatype Delivery = Delivery(place: nat, stored: set<nat>, budget: nat)

  /** What a delivery applies, in order: the gap in front of it, replayed from the store, then the fill itself. */
  function Due(offset: nat, history: seq<Fill>, d: Delivery): (places: seq<nat>)
    requires d.place < |history|
    ensures forall k :: 0 <= k < |places| ==> places[k] < |history|
  {
    var seqNo := history[d.place].seqNo;
    if seqNo == 0 then []
    else (if seqNo > offset + 1 then InRange(history, d.stored, offset + 1, seqNo - 1, |history|) else []) + [d.place]
  }

  function Deliver(p: Projection, history: seq<Fill>, d: Delivery): Projection
    requires d.place < |history|
  {
    var due := Due(p.offset, history, d);
    ApplyEach(p, history, if d.budget < |due| then due[..d.budget] else due)
  }

  function RunDeliveries(history: seq<Fill>, deliveries: seq<Delivery>): Projection
    requires forall k :: 0 <= k < |deliveries| ==> deliveries[k].place < |history|
  {
    if deliveries == [] then START
    else Deliver(RunDeliveries(history, deliveries[..|deliveries| - 1]), history, deliveries[|deliveries| - 1])
  }

  // ---------------------------------------------------------------- counted once

  /** The signed deltas of the applied fills among the first `n`, for one user and contract. */
  function Counted(history: seq<Fill>, applied: set<nat>, key: Key, n: nat): int
    requires n <= |history|
  {
    if n == 0 then 0
    else Counted(history, applied, key, n - 1)
         + if n - 1 !in applied then 0
           else (if Key(history[n - 1].maker, history[n - 1].ticker) == key then MakerDelta(history[n - 1]) else 0)
                + (if Key(history[n - 1].taker, history[n - 1].ticker) == key then TakerDelta(history[n - 1]) else 0)
  }

  lemma {:induction false} CountedAdd(history: seq<Fill>, applied: set<nat>, i: nat, key: Key, n: nat)
    requires i < |history| && n <= |history| && i !in applied
    ensures Counted(history, applied + {i}, key, n)
            == Counted(history, applied, key, n)
               + if i >= n then 0
                 else (if Key(history[i].maker, history[i].ticker) == key then MakerDelta(history[i]) else 0)
                      + (if Key(history[i].taker, history[i].ticker) == key then TakerDelta(history[i]) else 0)
  {
    if n > 0 { CountedAdd(history, applied, i, key, n - 1); }
  }

  /** Every net quantity is what the applied fills add up to. */
  ghost predicate Exact(p: Projection, history: seq<Fill>) {
    && (forall i :: i in p.applied ==> i < |history|)
    && forall key :: Held(p.net, key) == Counted(history, p.applied, key, |history|)
  }

  lemma ApplyExact(p: Projection, history: seq<Fill>, i: nat)
    requires Exact(p, history) && i < |history|
    ensures Exact(Apply(p, history, i), history)
  {
    if i !in p.applied {
      forall key ensures Held(Apply(p, history, i).net, key) == Counted(history, p.applied + {i}, key, |history|) {
        CountedAdd(history, p.applied, i, key, |history|);
      }
    }
  }

  lemma {:induction false} EachExact(p: Projection, history: seq<Fill>, places: seq<nat>)
    requires Exact(p, history) && forall k :: 0 <= k < |places| ==> places[k] < |history|
    ensures Exact(ApplyEach(p, history, places), history)
  {
    if places != [] {
      EachExact(p, history, places[..|places| - 1]);
      ApplyExact(ApplyEach(p, history, places[..|places| - 1]), history, places[|places| - 1]);
    }
  }

  lemma {:induction false} NothingCounted(history: seq<Fill>, key: Key, n: nat)
    requires n <= |history|
    ensures Counted(history, {}, key, n) == 0
  {
    if n > 0 { NothingCounted(history, key, n - 1); }
  }

  /** Under duplicates, gaps, failures and a lagging store, each distinct applied fill counts exactly once. */
  lemma {:induction false} ExactlyOnce(history: seq<Fill>, deliveries: seq<Delivery>)
    requires forall k :: 0 <= k < |deliveries| ==> deliveries[k].place < |history|
    ensures Exact(RunDeliveries(history, deliveries), history)
  {
    if deliveries == [] {
      forall key ensures Counted(history, {}, key, |history|) == 0 { NothingCounted(history, key, |history|); }
    } else {
      ExactlyOnce(history, deliveries[..|deliveries| - 1]);
      var p, d := RunDeliveries(history, deliveries[..|deliveries| - 1]), deliveries[|deliveries| - 1];
      var due := Due(p.offset, history, d);
      EachExact(p, history, if d.budget < |due| then due[..d.budget] else due);
    }
  }

  // ---------------------------------------------------------------- nothing missing below the offset

  /** The exchange's fills in sequence order, numbered from one. */
  predicate Ordered(history: seq<Fill>) {
    && (forall i :: 0 <= i < |history| ==> history[i].seqNo > 0)
    && forall i, j :: 0 <= i < j < |history| ==> history[i].seqNo < history[j].seqNo
  }

  /** Every fill at or below the offset is applied. */
  predicate Complete(p: Projection, history: seq<Fill>) {
    forall i: nat :: i < |history| && history[i].seqNo <= p.offset ==> i in p.applied
  }

  /** What delivery relies on: the order-router has stored every earlier fill. */
  predicate StoredBefore(history: seq<Fill>, d: Delivery) {
    d.place < |history| && forall i: nat :: i < d.place ==> i in d.stored
  }

  /** Applying the first `k` places of a gap brings the offset no further than them, and misses none below. */
  lemma {:induction false} ReplayComplete(p: Projection, history: seq<Fill>, places: seq<nat>, k: nat)
    requires Ordered(history) && Complete(p, history) && k <= |places|
    requires forall j :: 0 <= j < |places| ==> places[j] < |history| && history[places[j]].seqNo > p.offset
    requires forall i, j :: 0 <= i < j < |places| ==> places[i] < places[j]
    requires forall i: nat, j ::
               i < |history| && 0 <= j < |places| && p.offset < history[i].seqNo <= history[places[j]].seqNo ==>
                   i in places
    ensures var q := ApplyEach(p, history, places[..k]);
            && Complete(q, history) && p.applied <= q.applied
            && q.offset == (if k == 0 then p.offset else history[places[k - 1]].seqNo)
            && forall j :: 0 <= j < k ==> places[j] in q.applied
  {
    if k > 0 {
      ReplayComplete(p, history, places, k - 1);
      assert places[..k][..k - 1] == places[..k - 1] && places[..k][k - 1] == places[k - 1];
      var q, r := ApplyEach(p, history, places[..k - 1]), ApplyEach(p, history, places[..k]);
      forall i: nat | i < |history| && history[i].seqNo <= r.offset ensures i in r.applied {
        if history[i].seqNo > p.offset {
          assert i in places;
          var j :| 0 <= j < |places| && places[j] == i;
        }
      }
    }
  }

  lemma {:induction false} RangeOrdered(history: seq<Fill>, stored: set<nat>, from: nat, to: nat, n: nat)
    requires n <= |history|
    ensures forall i, j :: 0 <= i < j < |InRange(history, stored, from, to, n)| ==>
                             InRange(history, stored, from, to, n)[i] < InRange(history, stored, from, to, n)[j]
  {
    if n > 0 {
      RangeOrdered(history, stored, from, to, n - 1);
      RangeFacts(history, stored, from, to, n - 1);
    }
  }

  lemma Earlier(history: seq<Fill>, i: nat, j: nat)
    requires Ordered(history) && i < |history| && j < |history|
    ensures i < j <==> history[i].seqNo < history[j].seqNo
  {
  }

  lemma GapIsBefore(offset: nat, history: seq<Fill>, stored: set<nat>, place: nat, gap: seq<nat>, j: nat)
    requires Ordered(history) && place < |history| && history[place].seqNo > offset + 1 && j < |gap|
    requires gap == InRange(history, stored, offset + 1, history[place].seqNo - 1, |history|)
    ensures gap[j] < place && history[gap[j]].seqNo > offset
  {
    RangeFacts(history, stored, offset + 1, history[place].seqNo - 1, |history|);
    Earlier(history, gap[j], place);
  }

  lemma GapHasAll(offset: nat, history: seq<Fill>, stored: set<nat>, place: nat, gap: seq<nat>, i: nat)
    requires Ordered(history) && place < |history| && history[place].seqNo > offset + 1 && i in stored
    requires gap == InRange(history, stored, offset + 1, history[place].seqNo - 1, |history|)
    requires i < place && history[i].seqNo > offset
    ensures i in gap
  {
    RangeFacts(history, stored, offset + 1, history[place].seqNo - 1, |history|);
    Earlier(history, i, place);
  }

  /** Every missing fill before `place`, and no other, is in the gap. */
  lemma GapHolds(offset: nat, history: seq<Fill>, d: Delivery, gap: seq<nat>)
    requires Ordered(history) && StoredBefore(history, d) && history[d.place].seqNo > offset + 1
    requires gap == InRange(history, d.stored, offset + 1, history[d.place].seqNo - 1, |history|)
    ensures forall j :: 0 <= j < |gap| ==> gap[j] < d.place && history[gap[j]].seqNo > offset
    ensures forall i, j :: 0 <= i < j < |gap| ==> gap[i] < gap[j]
    ensures forall i: nat :: i < d.place && history[i].seqNo > offset ==> i in gap
  {
    RangeOrdered(history, d.stored, offset + 1, history[d.place].seqNo - 1, |history|);
    forall j: nat | j < |gap| ensures gap[j] < d.place && history[gap[j]].seqNo > offset {
      GapIsBefore(offset, history, d.stored, d.place, gap, j);
    }
    forall i: nat | i < d.place && history[i].seqNo > offset ensures i in gap {
      GapHasAll(offset, history, d.stored, d.place, gap, i);
    }
  }

  /** What a delivery of a new fill applies: every missing fill up to it, in order. */
  lemma DueHolds(offset: nat, history: seq<Fill>, d: Delivery, due: seq<nat>)
    requires Ordered(history) && StoredBefore(history, d) && history[d.place].seqNo > offset
             && due == Due(offset, history, d)
    ensures forall j :: 0 <= j < |due| ==> due[j] <= d.place && history[due[j]].seqNo > offset
    ensures forall i, j :: 0 <= i < j < |due| ==> due[i] < due[j]
    ensures forall i: nat :: i <= d.place && history[i].seqNo > offset ==> i in due
  {
    if history[d.place].seqNo > offset + 1 {
      GapHolds(offset, history, d, InRange(history, d.stored, offset + 1, history[d.place].seqNo - 1, |history|));
    } else {
      assert due == [] + [d.place] == [d.place];
    }
  }

  lemma NewDelivery(p: Projection, history: seq<Fill>, d: Delivery, due: seq<nat>)
    requires Ordered(history) && Complete(p, history) && StoredBefore(history, d)
    requires history[d.place].seqNo > p.offset && due == Due(p.offset, history, d)
    ensures Complete(ApplyEach(p, history, due[..Min(d.budget, |due|)]), history)
  {
    DueHolds(p.offset, history, d, due);
    forall i: nat, j | i < |history| && 0 <= j < |due| && p.offset < history[i].seqNo <= history[due[j]].seqNo
        ensures i in due {
      Earlier(history, due[j], i);
    }
    ReplayComplete(p, history, due, Min(d.budget, |due|));
  }

  lemma RepeatedDelivery(p: Projection, history: seq<Fill>, d: Delivery)
    requires Complete(p, history) && d.place < |history| && 0 < history[d.place].seqNo <= p.offset
    ensures Deliver(p, history, d) == p
  {
    var due := Due(p.offset, history, d);
    assert due == [] + [d.place] == [d.place] && due[..0] == [] && d.place in p.applied;
    assert ApplyEach(p, history, due) == Apply(p, history, d.place) == p;
  }

  lemma DeliverComplete(p: Projection, history: seq<Fill>, d: Delivery)
    requires Ordered(history) && Complete(p, history) && StoredBefore(history, d)
    ensures Complete(Deliver(p, history, d), history)
  {
    if history[d.place].seqNo > p.offset {
      var due := Due(p.offset, history, d);
      NewDelivery(p, history, d, due);
      assert due[..|due|] == due;
    } else {
      RepeatedDelivery(p, history, d);
    }
  }

  /** With every earlier fill stored before each delivery, nothing at or below the offset is ever missing. */
  lemma {:induction false} NothingMissing(history: seq<Fill>, deliveries: seq<Delivery>)
    requires Ordered(history) && forall k :: 0 <= k < |deliveries| ==>
                                             deliveries[k].place < |history| && StoredBefore(history, deliveries[k])
    ensures Complete(RunDeliveries(history, deliveries), history)
  {
    if deliveries != [] {
      NothingMissing(history, deliveries[..|deliveries| - 1]);
      DeliverComplete(RunDeliveries(history, deliveries[..|deliveries| - 1]), history, deliveries[|deliveries| - 1]);
    }
  }

  // ---------------------------------------------------------------- long equals short

  /** The nets of users `0..users` in a contract, added up. */
  function NetTotal(net: map<Key, int>, ticker: nat, users: nat): int {
    if users == 0 then 0 else NetTotal(net, ticker, users - 1) + Held(net, Key(users - 1, ticker))
  }

  lemma {:induction false} MovedTotal(net: map<Key, int>, key: Key, delta: int, ticker: nat, users: nat)
    ensures NetTotal(Moved(net, key, delta), ticker, users)
            == NetTotal(net, ticker, users) + if key.ticker == ticker && key.user < users then delta else 0
  {
    if users > 0 { MovedTotal(net, key, delta, ticker, users - 1); }
  }

  /** The two sides of every fill are opposite, by users among the first `users`. */
  predicate TwoSided(history: seq<Fill>, users: nat) {
    forall i :: 0 <= i < |history| ==>
                MakerDelta(history[i]) == -TakerDelta(history[i]) && history[i].maker < users
                    && history[i].taker < users
  }

  lemma ApplyFlat(p: Projection, history: seq<Fill>, i: nat, ticker: nat, users: nat)
    requires TwoSided(history, users) && i < |history|
    ensures NetTotal(Apply(p, history, i).net, ticker, users) == NetTotal(p.net, ticker, users)
  {
    var f := history[i];
    MovedTotal(p.net, Key(f.maker, f.ticker), MakerDelta(f), ticker, users);
    MovedTotal(Moved(p.net, Key(f.maker, f.ticker), MakerDelta(f)), Key(f.taker, f.ticker), TakerDelta(f), ticker,
               users);
  }

  lemma {:induction false} EachFlat(p: Projection, history: seq<Fill>, places: seq<nat>, ticker: nat, users: nat)
    requires TwoSided(history, users) && forall k :: 0 <= k < |places| ==> places[k] < |history|
    ensures NetTotal(ApplyEach(p, history, places).net, ticker, users) == NetTotal(p.net, ticker, users)
  {
    if places != [] {
      EachFlat(p, history, places[..|places| - 1], ticker, users);
      ApplyFlat(ApplyEach(p, history, places[..|places| - 1]), history, places[|places| - 1], ticker, users);
    }
  }

  lemma {:induction false} NothingHeld(ticker: nat, users: nat)
    ensures NetTotal(map[], ticker, users) == 0
  {
    if users > 0 { NothingHeld(ticker, users - 1); }
  }

  /** Whatever was delivered so far, positions in each contract add up to zero. */
  lemma {:induction false} LongEqualsShort(history: seq<Fill>, deliveries: seq<Delivery>, ticker: nat, users: nat)
    requires TwoSided(history, users) && forall k :: 0 <= k < |deliveries| ==> deliveries[k].place < |history|
    ensures NetTotal(RunDeliveries(history, deliveries).net, ticker, users) == 0
  {
    if deliveries == [] {
      NothingHeld(ticker, users);
    } else {
      LongEqualsShort(history, deliveries[..|deliveries| - 1], ticker, users);
      var p, d := RunDeliveries(history, deliveries[..|deliveries| - 1]), deliveries[|deliveries| - 1];
      var due := Due(p.offset, history, d);
      EachFlat(p, history, if d.budget < |due| then due[..d.budget] else due, ticker, users);
    }
  }

  // ---------------------------------------------------------------- bought and sold

  /**
    The units a user bought (or sold) in a contract by the applied fills among the
    first `n`, on the matching book's own rule.
   */
  function UnitsTraded(history: seq<Fill>, applied: set<nat>, key: Key, buys: bool, n: nat): int
    requires n <= |history|
  {
    if n == 0 then 0
    else
      var f := history[n - 1];
      UnitsTraded(history, applied, key, buys, n - 1)
      + (if n - 1 in applied && Key(f.maker, f.ticker) == key && IsBuy(f.makerSide, f.makerAction) == buys then f.count
         else 0)
      + (if n - 1 in applied && Key(f.taker, f.ticker) == key && IsBuy(f.takerSide, f.takerAction) == buys then f.count
         else 0)
  }

  predicate WellFormedFills(history: seq<Fill>) {
    forall i :: 0 <= i < |history| ==>
                  && history[i].count > 0 && ValidSideAction(history[i].makerSide, history[i].makerAction)
                  && ValidSideAction(history[i].takerSide, history[i].takerAction)
  }

  lemma {:induction false} CountedIsTraded(history: seq<Fill>, applied: set<nat>, key: Key, n: nat)
    requires n <= |history| && WellFormedFills(history)
    ensures Counted(history, applied, key, n)
            == UnitsTraded(history, applied, key, true, n) - UnitsTraded(history, applied, key, false, n)
  {
    if n > 0 {
      var f := history[n - 1];
      CountedIsTraded(history, applied, key, n - 1);
      SignRulesAgree(f.makerSide, f.makerAction, f.count, 0);
      SignRulesAgree(f.takerSide, f.takerAction, f.count, 0);
    }
  }

  /** After any deliveries a position is the units its user bought less the units sold, by the fills counted so far. */
  lemma PositionIsBoughtLessSold(history: seq<Fill>, deliveries: seq<Delivery>, key: Key)
    requires WellFormedFills(history) && forall k :: 0 <= k < |deliveries| ==> deliveries[k].place < |history|
    ensures var p, n := RunDeliveries(history, deliveries), |history|;
            Held(p.net, key)
            == UnitsTraded(history, p.applied, key, true, n) - UnitsTraded(history, p.applied, key, false, n)
  {
    ExactlyOnce(history, deliveries);
    CountedIsTraded(history, RunDeliveries(history, deliveries).applied, key, |history|);
  }
}
