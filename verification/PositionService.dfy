/** position-svc's consumer: its tables, the paged replay of a gap, and the delivery of one fill. */
module PositionServices {
  import opened Common
  import opened Portfolio
  import opened Positions

  const PAGE: nat := 500

  /** `list_fills`: a page of stored fills in sequence order, and the cursor after a full page. */
  function ListFills(history: seq<Fill>, stored: set<nat>, from: nat, to: nat): (r: (seq<nat>, Option<nat>))
    ensures forall k :: 0 <= k < |r.0| ==> r.0[k] < |history|
  {
    var all := InRange(history, stored, from, to, |history|);
    if |all| >= PAGE then (all[..PAGE], Some(history[all[PAGE - 1]].seqNo)) else (all, None)
  }

  lemma {:induction false} NoneBelow(history: seq<Fill>, stored: set<nat>, from: nat, to: nat, n: nat)
    requires Ordered(history) && n <= |history| && (n > 0 ==> history[n - 1].seqNo < from)
    ensures InRange(history, stored, from, to, n) == []
  {
    if n > 1 { Earlier(history, n - 2, n - 1); }
    if n > 0 { NoneBelow(history, stored, from, to, n - 1); }
  }

  lemma JoinOneMore(a: seq<nat>, b: seq<nat>, last: seq<nat>, lower: seq<nat>, upper: seq<nat>)
    requires (b == [] && lower == last && upper == []) || (lower == [] && upper == last)
    ensures (a + b) + last == (a + lower) + (b + upper)
  {
  }

  function Place(i: nat, listed: bool): seq<nat> { if listed then [i] else [] }

  lemma RangeStep(history: seq<Fill>, stored: set<nat>, from: nat, to: nat, i: nat)
    requires i < |history|
    ensures InRange(history, stored, from, to, i + 1)
            == InRange(history, stored, from, to, i) + Place(i, i in stored && from <= history[i].seqNo <= to)
  {
  }

  lemma UpperIsEmpty(history: seq<Fill>, stored: set<nat>, middle: nat, to: nat, i: nat)
    requires Ordered(history) && i < |history| && history[i].seqNo <= middle
    ensures InRange(history, stored, middle + 1, to, i) == []
  {
    if i > 0 { Earlier(history, i - 1, i); }
    NoneBelow(history, stored, middle + 1, to, i);
  }

  /** A range of sequence numbers is the lower part of it followed by the upper part. */
  lemma {:induction false} RangeJoins(history: seq<Fill>, stored: set<nat>, from: nat, middle: nat, to: nat, n: nat)
    requires Ordered(history) && n <= |history| && from <= middle + 1 && middle <= to
    ensures InRange(history, stored, from, to, n)
            == InRange(history, stored, from, middle, n) + InRange(history, stored, middle + 1, to, n)
  {
    if n > 0 {
      var i := n - 1;
      RangeJoins(history, stored, from, middle, to, i);
      RangeStep(history, stored, from, to, i);
      RangeStep(history, stored, from, middle, i);
      RangeStep(history, stored, middle + 1, to, i);
      if history[i].seqNo <= middle { UpperIsEmpty(history, stored, middle, to, i); }
      JoinOneMore(InRange(history, stored, from, middle, i), InRange(history, stored, middle + 1, to, i),
                  Place(i, i in stored && from <= history[i].seqNo <= to),
                  Place(i, i in stored && from <= history[i].seqNo <= middle),
                  Place(i, i in stored && middle + 1 <= history[i].seqNo <= to));
    }
  }

  lemma RangeBounds(history: seq<Fill>, stored: set<nat>, from: nat, to: nat, r: seq<nat>)
    requires r == InRange(history, stored, from, to, |history|)
    ensures forall k :: 0 <= k < |r| ==> r[k] < |history| && from <= history[r[k]].seqNo <= to
  {
    RangeFacts(history, stored, from, to, |history|);
  }

  lemma RangeRises(history: seq<Fill>, stored: set<nat>, from: nat, to: nat, r: seq<nat>)
    requires Ordered(history) && r == InRange(history, stored, from, to, |history|)
    ensures forall i, j :: 0 <= i < j < |r| ==> history[r[i]].seqNo < history[r[j]].seqNo
  {
    RangeOrdered(history, stored, from, to, |history|);
  }

  /** A rising sequence splits where its values pass those of its `k`-th place. */
  lemma SplitsAt(history: seq<Fill>, all: seq<nat>, a: seq<nat>, b: seq<nat>, k: nat)
    requires 0 < k <= |all| && all == a + b && forall i :: 0 <= i < |all| ==> all[i] < |history|
    requires forall i, j :: 0 <= i < j < |all| ==> history[all[i]].seqNo < history[all[j]].seqNo
    requires forall i :: 0 <= i < |a| ==> history[all[i]].seqNo <= history[all[k - 1]].seqNo
    requires forall i :: |a| <= i < |all| ==> history[all[k - 1]].seqNo < history[all[i]].seqNo
    ensures all[k..] == b
  {
    assert |all| == |a| + |b|;
    if k < |all| { assert history[all[k - 1]].seqNo < history[all[k]].seqNo; }
    assert !(|a| <= k - 1);
    assert !(k < |a|);
  }

  /** Behind a page, what is left in range starts after its last fill. */
  lemma PageSplits(history: seq<Fill>, stored: set<nat>, from: nat, to: nat, all: seq<nat>, k: nat)
    requires Ordered(history) && all == InRange(history, stored, from, to, |history|) && 0 < k <= |all|
    ensures from <= history[all[k - 1]].seqNo <= to
    ensures all[k..] == InRange(history, stored, history[all[k - 1]].seqNo + 1, to, |history|)
  {
    RangeBounds(history, stored, from, to, all);
    var last := history[all[k - 1]].seqNo;
    var a, b := InRange(history, stored, from, last, |history|), InRange(history, stored, last + 1, to, |history|);
    RangeJoins(history, stored, from, last, to, |history|);
    RangeBounds(history, stored, from, last, a);
    RangeBounds(history, stored, last + 1, to, b);
    RangeRises(history, stored, from, to, all);
    forall i | |a| <= i < |all| ensures last < history[all[i]].seqNo { assert all[i] == b[i - |a|]; }
    SplitsAt(history, all, a, b, k);
  }

  lemma OneMore(p: Projection, history: seq<Fill>, places: seq<nat>, i: nat)
    requires i < |history| && forall k :: 0 <= k < |places| ==> places[k] < |history|
    ensures ApplyEach(p, history, places + [i]) == Apply(ApplyEach(p, history, places), history, i)
  {
    assert (places + [i])[..|places|] == places;
  }

  lemma {:induction false} EachJoins(p: Projection, history: seq<Fill>, a: seq<nat>, b: seq<nat>)
    requires forall k :: 0 <= k < |a| ==> a[k] < |history|
    requires forall k :: 0 <= k < |b| ==> b[k] < |history|
    ensures ApplyEach(p, history, a + b) == ApplyEach(ApplyEach(p, history, a), history, b)
  {
    if b == [] {
      assert a + b == a;
    } else {
      EachJoins(p, history, a, b[..|b| - 1]);
      assert a + b == (a + b[..|b| - 1]) + [b[|b| - 1]];
      OneMore(p, history, a + b[..|b| - 1], b[|b| - 1]);
    }
  }

  lemma PageIsPrefix(history: seq<Fill>, stored: set<nat>, from: nat, to: nat, all: seq<nat>, page: seq<nat>,
                     next: Option<nat>)
    requires all == InRange(history, stored, from, to, |history|)
             && (page, next) == ListFills(history, stored, from, to)
    ensures |page| <= |all| && page == all[..|page|]
    ensures if next.None? then |page| == |all| else |page| == PAGE && next.value == history[all[PAGE - 1]].seqNo
  {
  }

  /** A page, and what is left behind it. */
  lemma PageThenRest(history: seq<Fill>, stored: set<nat>, from: nat, to: nat, all: seq<nat>, page: seq<nat>,
                     next: Option<nat>)
    requires Ordered(history) && all == InRange(history, stored, from, to, |history|)
             && (page, next) == ListFills(history, stored, from, to)
    ensures |page| <= |all| && all == page + all[|page|..]
    ensures next.None? ==> all[|page|..] == []
    ensures next.Some? ==> |page| == PAGE && next.value >= from
                           && all[|page|..] == InRange(history, stored, next.value + 1, to, |history|)
  {
    PageIsPrefix(history, stored, from, to, all, page, next);
    if next.Some? { PageSplits(history, stored, from, to, all, PAGE); }
  }

  /** What is missing in front of a fill. */
  function Gap(offset: nat, history: seq<Fill>, stored: set<nat>, seqNo: nat): (places: seq<nat>)
    ensures forall k :: 0 <= k < |places| ==> places[k] < |history|
  {
    if seqNo > offset + 1 then InRange(history, stored, offset + 1, seqNo - 1, |history|) else []
  }

  /** A delivery that does not fail applies the gap in front of its fill and then the fill. */
  lemma DeliveryCatchesUp(p: Projection, history: seq<Fill>, d: Delivery, gap: seq<nat>)
    requires d.place < |history| && history[d.place].seqNo > 0
             && gap == Gap(p.offset, history, d.stored, history[d.place].seqNo)
    requires d.budget > |gap|
    ensures Deliver(p, history, d) == Apply(ApplyEach(p, history, gap), history, d.place)
  {
    assert Due(p.offset, history, d) == gap + [d.place];
    OneMore(p, history, gap, d.place);
  }

  class PositionConsumer {
    var applied: set<nat>
    var net: map<Key, int>
    var offset: nat

    constructor ()
      ensures Tables() == START
    {
      applied, net, offset := {}, map[], 0;
    }

    ghost function Tables(): Projection
      reads this
    {
      Projection(applied, net, offset)
    }

    /** `apply_position_delta`, as far as the quantity goes. */
    method ApplyDelta(key: Key, delta: int)
      modifies this`net
      ensures net == Moved(old(net), key, delta)
    {
      if delta != 0 {
        net := net[key := (if key in net then net[key] else 0) + delta];
      }
    }

    /** `apply_fill`: one transaction. */
    method ApplyFill(history: seq<Fill>, i: nat)
      requires i < |history|
      modifies this
      ensures Tables() == Apply(old(Tables()), history, i)
    {
      var f := history[i];
      if i !in applied {
        applied := applied + {i};
        ApplyDelta(Key(f.maker, f.ticker), SignedDelta(f.makerSide, f.makerAction, f.count));
        ApplyDelta(Key(f.taker, f.ticker), SignedDelta(f.takerSide, f.takerAction, f.count));
      }
      offset := if offset >= f.seqNo then offset else f.seqNo;
    }

    /** Applies the fills of one page. */
    method ApplyPage(history: seq<Fill>, page: seq<nat>)
      requires forall k :: 0 <= k < |page| ==> page[k] < |history|
      modifies this
      ensures Tables() == ApplyEach(old(Tables()), history, page)
    {
      ghost var first := Tables();
      for k := 0 to |page|
        invariant Tables() == ApplyEach(first, history, page[..k])
      {
        assert page[..k + 1] == page[..k] + [page[k]];
        OneMore(first, history, page[..k], page[k]);
        ApplyFill(history, page[k]);
      }
      assert page[..|page|] == page;
    }

    /** Asks for one page and applies its fills; `left` is what the range still holds behind it. */
    method ReplayPage(history: seq<Fill>, stored: set<nat>, from: nat, to: nat, ghost all: seq<nat>)
      returns (next: Option<nat>, ghost left: seq<nat>)
      requires Ordered(history) && all == InRange(history, stored, from, to, |history|)
      modifies this
      ensures forall k :: 0 <= k < |left| ==> left[k] < |history|
      ensures ApplyEach(Tables(), history, left) == ApplyEach(old(Tables()), history, all)
      ensures next.None? ==> left == []
      ensures next.Some? ==> |left| < |all| && next.value >= from
                             && left == InRange(history, stored, next.value + 1, to, |history|)
    {
      var (page, cursor) := ListFills(history, stored, from, to);
      PageThenRest(history, stored, from, to, all, page, cursor);
      left := all[|page|..];
      EachJoins(Tables(), history, page, left);
      ApplyPage(history, page);
      next := cursor;
    }

    /**
      `replay_gap`: page after page. A cursor that does not advance would be an error;
      with fills in order it never occurs.
     */
    method ReplayGap(history: seq<Fill>, stored: set<nat>, from: nat, to: nat) returns (ok: bool)
      requires Ordered(history)
      modifies this
      ensures ok && Tables() == ApplyEach(old(Tables()), history, InRange(history, stored, from, to, |history|))
    {
      ghost var rest: seq<nat> := InRange(history, stored, from, to, |history|);
      var start: nat, previous: Option<nat> := from, None;
      var more := true;
      while more
        invariant forall k :: 0 <= k < |rest| ==> rest[k] < |history|
        invariant ApplyEach(Tables(), history, rest)
                  == ApplyEach(old(Tables()), history, InRange(history, stored, from, to, |history|))
        invariant if more then rest == InRange(history, stored, start, to, |history|) else rest == []
        invariant previous.Some? ==> start == previous.value + 1
        decreases more, |rest|
      {
        var next;
        next, rest := ReplayPage(history, stored, start, to, rest);
        if next.None? {
          more := false;
        } else {
          if previous.Some? && next.value <= previous.value {
            return false;
          }
          previous, start := next, next.value + 1;
        }
      }
      ok := true;
    }

    /** One message of `run_fill_consumer`, when nothing fails: the gap in front of the fill, then the fill. */
    method Consume(history: seq<Fill>, stored: set<nat>, place: nat)
      requires Ordered(history) && place < |history|
      modifies this
      ensures Tables() == Apply(ApplyEach(old(Tables()), history,
                                          Gap(old(offset), history, stored, history[place].seqNo)), history, place)
    {
      var seqNo := history[place].seqNo;
      if seqNo > offset + 1 {
        var ok := ReplayGap(history, stored, offset + 1, seqNo - 1);
      }
      ApplyFill(history, place);
    }
  }
}
