/**
  Depth deltas, a snapshot taken somewhere in their stream, and the gateway's join of the two. What
  the engine's book has to do with the stream is module BookFeeds.
 */
module BookStream {
  import opened Common
  import opened IntSets

  /** One price level of one side. */
  datatype Level = Level(bid: bool, price: int)

  datatype Delta = Delta(seqNo: nat, level: Level, total: int)

  type Depth = map<Level, int>

  function QtyAt(d: Depth, level: Level): int { if level in d then d[level] else 0 }

  /** A subscriber replaces a level by the delta's new total. */
  function ApplyAll(d: Depth, deltas: seq<Delta>): Depth {
    if deltas == [] then d
    else ApplyAll(d, deltas[..|deltas| - 1])[deltas[|deltas| - 1].level := deltas[|deltas| - 1].total]
  }

  function LastAt(deltas: seq<Delta>, level: Level): Option<int> {
    if deltas == [] then None
    else if deltas[|deltas| - 1].level == level then Some(deltas[|deltas| - 1].total)
    else LastAt(deltas[..|deltas| - 1], level)
  }

  lemma {:induction false} LastDecides(d: Depth, deltas: seq<Delta>, level: Level)
    ensures QtyAt(ApplyAll(d, deltas), level)
            == match LastAt(deltas, level) { case Some(total) => total case None => QtyAt(d, level) }
  {
    if deltas != [] { LastDecides(d, deltas[..|deltas| - 1], level); }
  }

  lemma {:induction false} ApplyConcat(d: Depth, a: seq<Delta>, b: seq<Delta>)
    ensures ApplyAll(d, a + b) == ApplyAll(ApplyAll(d, a), b)
  {
    if b == [] {
      assert a + b == a;
    } else {
      ApplyConcat(d, a, b[..|b| - 1]);
      assert (a + b)[..|a + b| - 1] == a + b[..|b| - 1];
    }
  }

  predicate Touches(deltas: seq<Delta>, level: Level) { exists i :: 0 <= i < |deltas| && deltas[i].level == level }

  lemma {:induction false} TouchedHasLast(deltas: seq<Delta>, level: Level)
    ensures LastAt(deltas, level).Some? <==> Touches(deltas, level)
  {
    if deltas != [] {
      var n := |deltas| - 1;
      TouchedHasLast(deltas[..n], level);
      if Touches(deltas[..n], level) {
        var i :| 0 <= i < n && deltas[..n][i].level == level;
        assert deltas[i].level == level;
      }
      if Touches(deltas, level) && deltas[n].level != level {
        var i :| 0 <= i < |deltas| && deltas[i].level == level;
        assert deltas[..n][i].level == level;
      }
    }
  }

  // ---------------------------------------------------------------- the engine

  /** The deltas so far turn `previous` into `current` except at the levels still to do. */
  ghost predicate Emitted(previous: Depth, current: Depth, seqNo: nat, deltas: seq<Delta>, todo: set<Level>) {
    && (forall level :: QtyAt(ApplyAll(previous, deltas), level)
                        == if level in todo then QtyAt(previous, level) else QtyAt(current, level))
    && (forall i :: 0 <= i < |deltas| ==>
                      && deltas[i].seqNo == seqNo + 1 + i && deltas[i].level !in todo
                      && QtyAt(previous, deltas[i].level) != deltas[i].total == QtyAt(current, deltas[i].level))
    && (forall i, j :: 0 <= i < j < |deltas| ==> deltas[i].level != deltas[j].level)
  }

  /** The deltas with the level's change behind them, if it changed. */
  function WithLevel(previous: Depth, current: Depth, seqNo: nat, deltas: seq<Delta>, level: Level): seq<Delta> {
    if QtyAt(previous, level) == QtyAt(current, level) then deltas
    else deltas + [Delta(seqNo + 1 + |deltas|, level, QtyAt(current, level))]
  }

  lemma EmitOne(previous: Depth, current: Depth, seqNo: nat, deltas: seq<Delta>, todo: set<Level>, level: Level)
    requires Emitted(previous, current, seqNo, deltas, todo) && level in todo
    ensures Emitted(previous, current, seqNo, WithLevel(previous, current, seqNo, deltas, level), todo - {level})
  {
    var delta := Delta(seqNo + 1 + |deltas|, level, QtyAt(current, level));
    assert (deltas + [delta])[..|deltas|] == deltas;
  }

  /** The order in which changes are announced: bids before asks, each by rising price. */
  predicate Comes(x: Level, y: Level) {
    x == y || (x.bid && !y.bid) || (x.bid == y.bid && x.price < y.price)
  }

  ghost predicate IsFirst(x: Level, s: set<Level>) { x in s && forall y :: y in s ==> Comes(x, y) }

  lemma FirstExists(s: set<Level>) returns (x: Level)
    requires s != {}
    ensures IsFirst(x, s)
    decreases |s|
  {
    x := SomeMember(s);
    if s != {x} {
      ghost var rest := s - {x};
      assert rest != {} by { assert s == rest + {x}; }
      var y := FirstExists(rest);
      if Comes(y, x) { x := y; }
    }
  }

  lemma HasFirst(s: set<Level>)
    requires s != {}
    ensures exists x :: IsFirst(x, s)
  {
    var x := FirstExists(s);
  }

  ghost function LevelList(s: set<Level>): seq<Level>
    decreases |s|
  {
    if s == {} then []
    else
      HasFirst(s);
      var x :| IsFirst(x, s);
      [x] + LevelList(s - {x})
  }

  /** One delta for every listed level whose total changed, under the next sequence numbers. */
  ghost function DeltasAt(previous: Depth, current: Depth, levels: seq<Level>, seqNo: nat): seq<Delta> {
    if levels == [] then []
    else if QtyAt(previous, levels[0]) == QtyAt(current, levels[0]) then DeltasAt(previous, current, levels[1..], seqNo)
    else [Delta(seqNo + 1, levels[0], QtyAt(current, levels[0]))] + DeltasAt(previous, current, levels[1..], seqNo + 1)
  }

  /** What `on_depth_change` publishes. */
  ghost function DeltasFor(previous: Depth, current: Depth, seqNo: nat): seq<Delta> {
    DeltasAt(previous, current, LevelList(previous.Keys + current.Keys), seqNo)
  }

  /** The sorted map of all prices, old and new. */
  method ListLevels(all: set<Level>) returns (levels: seq<Level>)
    ensures levels == LevelList(all)
  {
    var todo := all;
    levels := [];
    while todo != {}
      invariant levels + LevelList(todo) == LevelList(all)
      decreases |todo|
    {
      var level := PickFirst(todo);
      ListStep(todo, level);
      Regroup(levels, [level], LevelList(todo - {level}));
      todo := todo - {level};
      levels := levels + [level];
    }
    assert levels + [] == levels;
  }

  /** `on_depth_change`: the levels in order, one delta for every one whose total changed. */
  method EmitLevels(previous: Depth, current: Depth, seqNo: nat) returns (deltas: seq<Delta>)
    ensures deltas == DeltasFor(previous, current, seqNo)
  {
    var levels := ListLevels(previous.Keys + current.Keys);
    deltas := EmitEach(previous, current, seqNo, levels);
  }

  method EmitEach(previous: Depth, current: Depth, seqNo: nat, levels: seq<Level>) returns (deltas: seq<Delta>)
    ensures deltas == DeltasAt(previous, current, levels, seqNo)
  {
    deltas := [];
    assert levels[0..] == levels && [] + DeltasAt(previous, current, levels, seqNo)
           == DeltasAt(previous, current, levels, seqNo);
    for i := 0 to |levels|
      invariant deltas + DeltasAt(previous, current, levels[i..], seqNo + |deltas|)
                == DeltasAt(previous, current, levels, seqNo)
    {
      EachStep(previous, current, seqNo, deltas, levels, i);
      deltas := WithLevel(previous, current, seqNo, deltas, levels[i]);
    }
    assert deltas + [] == deltas;
  }

  lemma EachStep(previous: Depth, current: Depth, seqNo: nat, done: seq<Delta>, levels: seq<Level>, i: nat)
    requires i < |levels|
    ensures var next := WithLevel(previous, current, seqNo, done, levels[i]);
            done + DeltasAt(previous, current, levels[i..], seqNo + |done|)
                == next + DeltasAt(previous, current, levels[i + 1..], seqNo + |next|)
  {
    assert levels[i..] == [levels[i]] + levels[i + 1..];
    DeltasStep(previous, current, seqNo, done, levels[i], levels[i + 1..]);
  }

  method PickFirst(todo: set<Level>) returns (level: Level)
    requires todo != {}
    ensures IsFirst(level, todo)
  {
    ghost var first := FirstExists(todo);
    level :| level in todo && forall y :: y in todo ==> Comes(level, y);
  }

  lemma DeltasStep(previous: Depth, current: Depth, seqNo: nat, done: seq<Delta>, level: Level, rest: seq<Level>)
    ensures var next := WithLevel(previous, current, seqNo, done, level);
            done + DeltasAt(previous, current, [level] + rest, seqNo + |done|)
                == next + DeltasAt(previous, current, rest, seqNo + |next|)
  {
    assert ([level] + rest)[1..] == rest;
    if QtyAt(previous, level) != QtyAt(current, level) {
      Regroup(done, [Delta(seqNo + 1 + |done|, level, QtyAt(current, level))],
              DeltasAt(previous, current, rest, seqNo + |done| + 1));
    }
  }

  lemma ListStep(s: set<Level>, x: Level)
    requires IsFirst(x, s)
    ensures LevelList(s) == [x] + LevelList(s - {x})
  {
    assert forall y :: IsFirst(y, s) ==> y == x;
  }

  /** The published deltas are exactly the changes, one for each level. */
  lemma DeltasAreChanges(previous: Depth, current: Depth, seqNo: nat)
    ensures Emitted(previous, current, seqNo, DeltasFor(previous, current, seqNo), {})
  {
    var todo := previous.Keys + current.Keys;
    AnnounceRest(previous, current, seqNo, [], todo);
    assert [] + DeltasFor(previous, current, seqNo) == DeltasFor(previous, current, seqNo);
  }

  lemma {:induction false} AnnounceRest(previous: Depth, current: Depth, seqNo: nat, done: seq<Delta>, todo: set<Level>)
    requires Emitted(previous, current, seqNo, done, todo)
    ensures Emitted(previous, current, seqNo, done + DeltasAt(previous, current, LevelList(todo), seqNo + |done|), {})
    decreases |todo|
  {
    if todo == {} {
      assert done + [] == done;
    } else {
      var level := FirstExists(todo);
      EmitOne(previous, current, seqNo, done, todo, level);
      ListStep(todo, level);
      DeltasStep(previous, current, seqNo, done, level, LevelList(todo - {level}));
      AnnounceRest(previous, current, seqNo, WithLevel(previous, current, seqNo, done, level), todo - {level});
    }
  }

  /** What the first `n` deltas of a stream announce. */
  function Announced(stream: seq<Delta>, n: nat): Depth
    requires n <= |stream|
  {
    ApplyAll(map[], stream[..n])
  }

  /** The first `p` deltas are those up to sequence number `s`. */
  predicate SplitsAt(stream: seq<Delta>, s: nat, p: nat) {
    && p <= |stream|
    && (forall i :: 0 <= i < p ==> stream[i].seqNo <= s)
    && (forall i :: p <= i < |stream| ==> stream[i].seqNo > s)
  }

  // ---------------------------------------------------------------- the gateway

  /** Buffered deltas at or below the snapshot are dropped. */
  function Newer(deltas: seq<Delta>, s: nat): seq<Delta> {
    if deltas == [] then []
    else Newer(deltas[..|deltas| - 1], s) + if deltas[|deltas| - 1].seqNo > s then [deltas[|deltas| - 1]] else []
  }

  lemma {:induction false} NoneNewer(deltas: seq<Delta>, s: nat)
    requires forall i :: 0 <= i < |deltas| ==> deltas[i].seqNo <= s
    ensures Newer(deltas, s) == []
  {
    if deltas != [] { NoneNewer(deltas[..|deltas| - 1], s); }
  }

  lemma {:induction false} NewerBehind(seen: seq<Delta>, news: seq<Delta>, s: nat)
    requires forall i :: 0 <= i < |seen| ==> seen[i].seqNo <= s
    requires forall i :: 0 <= i < |news| ==> news[i].seqNo > s
    ensures Newer(seen + news, s) == news
  {
    if news == [] {
      assert seen + news == seen;
      NoneNewer(seen, s);
    } else {
      NewerBehind(seen, news[..|news| - 1], s);
      LastApart(seen, news);
      NewerStep(seen + news[..|news| - 1], news[|news| - 1], s);
    }
  }

  lemma NewerIsSuffix(stream: seq<Delta>, s: nat, p: nat, a: nat, m: nat)
    requires SplitsAt(stream, s, p) && a <= p && a <= m <= |stream|
    ensures Newer(stream[a..m], s) == if m <= p then [] else stream[p..m]
  {
    if m <= p {
      NoneNewer(stream[a..m], s);
    } else {
      assert stream[a..m] == stream[a..p] + stream[p..m];
      NewerBehind(stream[a..p], stream[p..m], s);
    }
  }

  /**
    The subscriber's depth: the snapshot at `s`, the newer ones of the deltas buffered while it
    was fetched (from `a` to `m`), then everything live up to `t`, older or newer.
   */
  function ClientDepth(snapshot: Depth, s: nat, stream: seq<Delta>, a: nat, m: nat, t: nat): Depth
    requires a <= m <= t <= |stream|
  {
    ApplyAll(ApplyAll(snapshot, Newer(stream[a..m], s)), stream[m..t])
  }

  lemma AnnouncedFrom(stream: seq<Delta>, from: nat, t: nat)
    requires from <= t <= |stream|
    ensures Announced(stream, t) == ApplyAll(Announced(stream, from), stream[from..t])
  {
    ApplyConcat(map[], stream[..from], stream[from..t]);
    assert stream[..from] + stream[from..t] == stream[..t];
  }

  /** Two adjoining slices. */
  lemma Joined<T>(s: seq<T>, i: nat, j: nat, k: nat)
    requires i <= j <= k <= |s|
    ensures s[i..j] + s[j..k] == s[i..k]
  {
  }

  lemma ClientIs(snapshot: Depth, s: nat, stream: seq<Delta>, p: nat, a: nat, m: nat, t: nat)
    requires SplitsAt(stream, s, p) && a <= p <= t && a <= m <= t <= |stream|
    ensures ClientDepth(snapshot, s, stream, a, m, t) == ApplyAll(snapshot, stream[Min(p, m)..t])
  {
    NewerIsSuffix(stream, s, p, a, m);
    if m > p {
      ApplyConcat(snapshot, stream[p..m], stream[m..t]);
      Joined(stream, p, m, t);
    }
  }

  /**
    Level by level, the subscriber shows what the stream announced if a delta sent
    touched the level, and else what the snapshot had.
   */
  lemma LevelShown(snapshot: Depth, s: nat, stream: seq<Delta>, p: nat, a: nat, m: nat, t: nat, level: Level)
    requires SplitsAt(stream, s, p) && a <= p <= t && a <= m <= t <= |stream|
    ensures QtyAt(ClientDepth(snapshot, s, stream, a, m, t), level)
            == QtyAt(if Touches(stream[Min(p, m)..t], level) then Announced(stream, t) else snapshot, level)
  {
    var from := Min(p, m);
    ClientIs(snapshot, s, stream, p, a, m, t);
    LastDecides(snapshot, stream[from..t], level);
    AnnouncedFrom(stream, from, t);
    LastDecides(Announced(stream, from), stream[from..t], level);
    TouchedHasLast(stream[from..t], level);
  }

  /** A level no delta touches stays as it was announced. */
  lemma UntouchedStays(stream: seq<Delta>, from: nat, t: nat, level: Level)
    requires from <= t <= |stream| && !Touches(stream[from..t], level)
    ensures QtyAt(Announced(stream, t), level) == QtyAt(Announced(stream, from), level)
  {
    AnnouncedFrom(stream, from, t);
    LastDecides(Announced(stream, from), stream[from..t], level);
    TouchedHasLast(stream[from..t], level);
  }

  lemma TouchesLonger(stream: seq<Delta>, m: nat, p: nat, t: nat, level: Level)
    requires m <= p <= t <= |stream|
    ensures Touches(stream[p..t], level) ==> Touches(stream[m..t], level)
  {
    if Touches(stream[p..t], level) {
      var i :| 0 <= i < |stream[p..t]| && stream[p..t][i].level == level;
      assert stream[m..t][i + (p - m)].level == level;
    }
  }

  // ---------------------------------------------------------------- the subscription loop

  datatype MarketEvent = Book(globalSeq: nat, delta: Delta) | Print(globalSeq: nat, price: int, count: int)

  datatype Message = SnapshotMsg(depth: Depth, seqNo: nat) | DeltaMsg(delta: Delta) | TradeMsg(price: int, count: int)

  /** `market_event_sequence`: by global sequence number, trades before deltas. */
  predicate Ahead(x: MarketEvent, y: MarketEvent) {
    x.globalSeq < y.globalSeq || (x.globalSeq == y.globalSeq && (x.Print? || y.Book?))
  }

  predicate SortedEvents(events: seq<MarketEvent>) {
    forall i, j :: 0 <= i < j < |events| ==> Ahead(events[i], events[j])
  }

  function DeltasOf(events: seq<MarketEvent>): seq<Delta> {
    if events == [] then []
    else DeltasOf(events[..|events| - 1]) + if events[|events| - 1].Book? then [events[|events| - 1].delta] else []
  }

  function DeltasSent(sent: seq<Message>): seq<Delta> {
    if sent == [] then []
    else DeltasSent(sent[..|sent| - 1]) + if sent[|sent| - 1].DeltaMsg? then [sent[|sent| - 1].delta] else []
  }

  /** Puts one event where it belongs, behind what is not after it. */
  function InsertEvent(events: seq<MarketEvent>, x: MarketEvent): (r: seq<MarketEvent>)
    ensures |r| == |events| + 1
  {
    if events == [] || Ahead(events[|events| - 1], x) then events + [x]
    else InsertEvent(events[..|events| - 1], x) + [events[|events| - 1]]
  }

  /** The buffer as the stable sort by sequence number leaves it. */
  function SortedOf(buffered: seq<MarketEvent>): seq<MarketEvent> {
    if buffered == [] then [] else InsertEvent(SortedOf(buffered[..|buffered| - 1]), buffered[|buffered| - 1])
  }

  function MessageOf(x: MarketEvent): Message {
    match x
    case Book(_, delta) => DeltaMsg(delta)
    case Print(_, price, count) => TradeMsg(price, count)
  }

  /**
    What is sent for the events: all trades, and the deltas newer than the snapshot, if there is one to compare with.
   */
  function Sent(events: seq<MarketEvent>, snapshot: Option<nat>): seq<Message> {
    if events == [] then []
    else
      var x := events[|events| - 1];
      Sent(events[..|events| - 1], snapshot)
      + if x.Print? || snapshot.None? || x.delta.seqNo > snapshot.value then [MessageOf(x)] else []
  }

  function TradesIn(events: seq<MarketEvent>): seq<Message> {
    if events == [] then []
    else TradesIn(events[..|events| - 1])
         + if events[|events| - 1].Print? then [MessageOf(events[|events| - 1])] else []
  }

  function TradesSent(sent: seq<Message>): seq<Message> {
    if sent == [] then []
    else TradesSent(sent[..|sent| - 1]) + if sent[|sent| - 1].TradeMsg? then [sent[|sent| - 1]] else []
  }

  /** Each book delta comes after the ones already there: what the subscription delivers in order. */
  predicate After(events: seq<MarketEvent>, x: MarketEvent) {
    x.Book? ==> forall i :: 0 <= i < |events| && events[i].Book? ==> events[i].globalSeq < x.globalSeq
  }

  lemma {:induction false} InsertSame(events: seq<MarketEvent>, x: MarketEvent)
    ensures multiset(InsertEvent(events, x)) == multiset(events) + multiset{x}
  {
    if events != [] && !Ahead(events[|events| - 1], x) {
      var n := |events| - 1;
      InsertSame(events[..n], x);
      assert events == events[..n] + [events[n]];
    }
  }

  lemma {:induction false} InsertSorted(events: seq<MarketEvent>, x: MarketEvent)
    requires SortedEvents(events)
    ensures SortedEvents(InsertEvent(events, x))
  {
    if events != [] && !Ahead(events[|events| - 1], x) {
      var n := |events| - 1;
      var r := InsertEvent(events[..n], x);
      InsertSorted(events[..n], x);
      InsertSame(events[..n], x);
      forall i | 0 <= i < |r| ensures Ahead(r[i], events[n]) {
        assert r[i] in multiset(r);
        assert r[i] == x || r[i] in events[..n];
      }
    } else {
      forall i | 0 <= i < |events| ensures Ahead(events[i], x) {
        if i < |events| - 1 { assert Ahead(events[i], events[|events| - 1]); }
      }
    }
  }

  lemma {:induction false} InsertDeltas(events: seq<MarketEvent>, x: MarketEvent)
    requires After(events, x)
    ensures DeltasOf(InsertEvent(events, x)) == DeltasOf(events) + if x.Book? then [x.delta] else []
  {
    if events == [] || Ahead(events[|events| - 1], x) {
      assert (events + [x])[..|events|] == events;
    } else {
      var n := |events| - 1;
      var r := InsertEvent(events[..n], x);
      InsertDeltas(events[..n], x);
      assert (r + [events[n]])[..|r|] == r;
      assert x.Print? || events[n].Print?;
      if x.Print? {
        assert DeltasOf(events[..n]) + [] == DeltasOf(events[..n]) && DeltasOf(events) + [] == DeltasOf(events);
      }
    }
  }

  /** Sorting keeps the events, and the deltas in the order they came. */
  ghost predicate SortsInto(buffered: seq<MarketEvent>, sorted: seq<MarketEvent>) {
    SortedEvents(sorted) && multiset(sorted) == multiset(buffered) && DeltasOf(sorted) == DeltasOf(buffered)
  }

  lemma SortStep(before: seq<MarketEvent>, sorted: seq<MarketEvent>, x: MarketEvent)
    requires SortsInto(before, sorted) && After(before, x)
    ensures SortsInto(before + [x], InsertEvent(sorted, x))
  {
    forall i | 0 <= i < |sorted| && sorted[i].Book? && x.Book? ensures sorted[i].globalSeq < x.globalSeq {
      assert sorted[i] in multiset(sorted) && sorted[i] in multiset(before);
      var j :| 0 <= j < |before| && before[j] == sorted[i];
    }
    InsertSame(sorted, x);
    InsertSorted(sorted, x);
    InsertDeltas(sorted, x);
    assert (before + [x])[..|before|] == before;
    if x.Print? { assert DeltasOf(before) + [] == DeltasOf(before); }
  }

  lemma {:induction false} SortedFacts(buffered: seq<MarketEvent>)
    requires forall k :: 0 <= k < |buffered| ==> After(buffered[..k], buffered[k])
    ensures SortsInto(buffered, SortedOf(buffered))
  {
    if buffered != [] {
      var n := |buffered| - 1;
      var before := buffered[..n];
      forall k | 0 <= k < n ensures After(before[..k], before[k]) { assert before[..k] == buffered[..k]; }
      SortedFacts(before);
      SortStep(before, SortedOf(before), buffered[n]);
      assert buffered == before + [buffered[n]];
    }
  }

  /** `sort_by_key` on the buffer, one event at a time. */
  method SortBuffer(buffered: seq<MarketEvent>) returns (sorted: seq<MarketEvent>)
    ensures sorted == SortedOf(buffered)
  {
    sorted := [];
    for k := 0 to |buffered|
      invariant sorted == SortedOf(buffered[..k])
    {
      assert buffered[..k + 1][..k] == buffered[..k];
      sorted := InsertEvent(sorted, buffered[k]);
    }
    assert buffered[..|buffered|] == buffered;
  }

  /** The loop over the sorted buffer, and over live events, which nothing filters. */
  method SendEach(events: seq<MarketEvent>, snapshot: Option<nat>) returns (sent: seq<Message>)
    ensures sent == Sent(events, snapshot)
  {
    sent := [];
    for k := 0 to |events|
      invariant sent == Sent(events[..k], snapshot)
    {
      assert events[..k + 1][..k] == events[..k];
      match events[k] {
        case Book(_, delta) =>
          if snapshot.None? || delta.seqNo > snapshot.value {
            sent := sent + [DeltaMsg(delta)];
          }
        case Print(_, price, count) =>
          sent := sent + [TradeMsg(price, count)];
      }
    }
    assert events[..|events|] == events;
  }

  /** `run_market_subscription` after the snapshot came: snapshot, the sorted buffer, then live events. */
  method RunSubscription(snapshot: Depth, s: nat, buffered: seq<MarketEvent>, live: seq<MarketEvent>)
    returns (sent: seq<Message>)
    ensures sent == [SnapshotMsg(snapshot, s)] + Sent(SortedOf(buffered), Some(s)) + Sent(live, None)
  {
    var sorted := SortBuffer(buffered);
    var first := SendEach(sorted, Some(s));
    var second := SendEach(live, None);
    sent := [SnapshotMsg(snapshot, s)] + first + second;
  }

  lemma {:induction false} BufferedDeltasSent(events: seq<MarketEvent>, s: nat)
    ensures DeltasSent(Sent(events, Some(s))) == Newer(DeltasOf(events), s)
  {
    if events != [] {
      BufferedDeltasSent(events[..|events| - 1], s);
      BufferedStep(events[..|events| - 1], events[|events| - 1], Sent(events[..|events| - 1], Some(s)), s);
      assert events == events[..|events| - 1] + [events[|events| - 1]];
    }
  }

  lemma BufferedStep(events: seq<MarketEvent>, x: MarketEvent, sent: seq<Message>, s: nat)
    requires DeltasSent(sent) == Newer(DeltasOf(events), s)
    ensures DeltasSent(if x.Print? || x.delta.seqNo > s then sent + [MessageOf(x)] else sent + [])
            == Newer(DeltasOf(events + [x]), s)
  {
    assert (events + [x])[..|events|] == events;
    DeltasStepSent(sent, MessageOf(x));
    assert sent + [] == sent;
    if x.Book? {
      NewerStep(DeltasOf(events), x.delta, s);
    } else {
      assert DeltasOf(events) + [] == DeltasOf(events);
    }
  }

  lemma {:induction false} LiveDeltasSent(events: seq<MarketEvent>)
    ensures DeltasSent(Sent(events, None)) == DeltasOf(events)
  {
    if events != [] {
      var n := |events| - 1;
      LiveDeltasSent(events[..n]);
      DeltasStepSent(Sent(events[..n], None), MessageOf(events[n]));
      assert DeltasOf(events[..n]) + [] == DeltasOf(events[..n]);
    }
  }

  lemma {:induction false} TradesSentFor(events: seq<MarketEvent>, snapshot: Option<nat>)
    ensures TradesSent(Sent(events, snapshot)) == TradesIn(events)
  {
    if events != [] {
      var n := |events| - 1;
      TradesSentFor(events[..n], snapshot);
      var x, before := events[n], Sent(events[..n], snapshot);
      TradesStepSent(before, MessageOf(x));
      assert before + [] == before && TradesIn(events[..n]) + [] == TradesIn(events[..n]);
    }
  }

  /**
    The subscriber is sent the deltas newer than the snapshot in the order they
    came, and every trade, the buffered ones by sequence number.
   */
  lemma SubscriptionSends(snapshot: Depth, s: nat, buffered: seq<MarketEvent>, live: seq<MarketEvent>)
    requires forall k :: 0 <= k < |buffered| ==> After(buffered[..k], buffered[k])
    ensures var sent := [SnapshotMsg(snapshot, s)] + Sent(SortedOf(buffered), Some(s)) + Sent(live, None);
            && DeltasSent(sent) == Newer(DeltasOf(buffered), s) + DeltasOf(live)
            && TradesSent(sent) == TradesIn(SortedOf(buffered)) + TradesIn(live)
            && SortedEvents(SortedOf(buffered)) && multiset(SortedOf(buffered)) == multiset(buffered)
  {
    SortedFacts(buffered);
    DeltasOfAll(snapshot, s, SortedOf(buffered), live);
    TradesOfAll(snapshot, s, SortedOf(buffered), live);
  }

  lemma DeltasOfAll(snapshot: Depth, s: nat, sorted: seq<MarketEvent>, live: seq<MarketEvent>)
    ensures DeltasSent([SnapshotMsg(snapshot, s)] + Sent(sorted, Some(s)) + Sent(live, None))
            == Newer(DeltasOf(sorted), s) + DeltasOf(live)
  {
    var first := [SnapshotMsg(snapshot, s)];
    BufferedDeltasSent(sorted, s);
    LiveDeltasSent(live);
    DeltasConcat(first, Sent(sorted, Some(s)));
    DeltasConcat(first + Sent(sorted, Some(s)), Sent(live, None));
    DeltasStepSent([], first[0]);
    assert [] + first == first && [] + Newer(DeltasOf(sorted), s) == Newer(DeltasOf(sorted), s);
  }

  lemma TradesOfAll(snapshot: Depth, s: nat, sorted: seq<MarketEvent>, live: seq<MarketEvent>)
    ensures TradesSent([SnapshotMsg(snapshot, s)] + Sent(sorted, Some(s)) + Sent(live, None))
            == TradesIn(sorted) + TradesIn(live)
  {
    var first := [SnapshotMsg(snapshot, s)];
    TradesSentFor(sorted, Some(s));
    TradesSentFor(live, None);
    TradesConcat(first, Sent(sorted, Some(s)));
    TradesConcat(first + Sent(sorted, Some(s)), Sent(live, None));
    TradesStepSent([], first[0]);
    assert [] + first == first && [] + TradesIn(sorted) == TradesIn(sorted);
  }

  lemma {:induction false} DeltasConcat(a: seq<Message>, b: seq<Message>)
    ensures DeltasSent(a + b) == DeltasSent(a) + DeltasSent(b)
  {
    if b == [] {
      assert a + b == a && DeltasSent(a) + [] == DeltasSent(a);
    } else {
      var n := |b| - 1;
      DeltasConcat(a, b[..n]);
      DeltasStepSent(b[..n], b[n]);
      DeltasStepSent(a + b[..n], b[n]);
      LastApart(a, b);
      if b[n].DeltaMsg? { Regroup(DeltasSent(a), DeltasSent(b[..n]), [b[n].delta]); }
    }
  }

  lemma {:induction false} TradesConcat(a: seq<Message>, b: seq<Message>)
    ensures TradesSent(a + b) == TradesSent(a) + TradesSent(b)
  {
    if b == [] {
      assert a + b == a && TradesSent(a) + [] == TradesSent(a);
    } else {
      var n := |b| - 1;
      TradesConcat(a, b[..n]);
      TradesStepSent(b[..n], b[n]);
      TradesStepSent(a + b[..n], b[n]);
      LastApart(a, b);
      Regroup(TradesSent(a), TradesSent(b[..n]), [b[n]]);
    }
  }

  lemma NewerStep(deltas: seq<Delta>, delta: Delta, s: nat)
    ensures Newer(deltas + [delta], s) == if delta.seqNo > s then Newer(deltas, s) + [delta] else Newer(deltas, s)
  {
    assert (deltas + [delta])[..|deltas|] == deltas;
  }

  lemma DeltasStepSent(sent: seq<Message>, m: Message)
    ensures DeltasSent(sent + [m]) == if m.DeltaMsg? then DeltasSent(sent) + [m.delta] else DeltasSent(sent)
  {
    assert (sent + [m])[..|sent|] == sent;
  }

  lemma TradesStepSent(sent: seq<Message>, m: Message)
    ensures TradesSent(sent + [m]) == if m.TradeMsg? then TradesSent(sent) + [m] else TradesSent(sent)
  {
    assert (sent + [m])[..|sent|] == sent;
  }

  /** What the subscriber is sent, applied in order, is the depth the convergence lemmas speak of. */
  lemma SentIsClientDepth(snapshot: Depth, s: nat, stream: seq<Delta>, a: nat, m: nat, t: nat,
                          buffered: seq<MarketEvent>, live: seq<MarketEvent>)
    requires a <= m <= t <= |stream| && DeltasOf(buffered) == stream[a..m] && DeltasOf(live) == stream[m..t]
    ensures ApplyAll(snapshot, Newer(DeltasOf(buffered), s) + DeltasOf(live))
            == ClientDepth(snapshot, s, stream, a, m, t)
  {
    ApplyConcat(snapshot, Newer(DeltasOf(buffered), s), DeltasOf(live));
  }
}
