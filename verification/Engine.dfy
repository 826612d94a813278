/**
  The margin engine: it looks only at a finite set of candidate outcomes, the kinks of the
  payoffs snapped to the event's outcome grid, and still finds the exact worst case.
 */
module Engine {
  import opened Common
  import opened IntSets
  import opened Payoffs
  import opened Stress
  import opened WorstCase

  // ---------------------------------------------------------------- candidate outcomes

  /** The integers next to which the payoff of one unit bends or jumps. */
  function Kinks(p: Payoff): set<int> {
    match p
    case BinaryRange(lo, hi, _, _) =>
      (if lo.Some? then {lo.value, lo.value - 1} else {}) + (if hi.Some? then {hi.value, hi.value + 1} else {})
    case Banded(lower, upper, _) => {lower, upper}
    case BinaryCategory(_, _, _) => {}
  }

  function AllKinks(instruments: seq<Instrument>, n: nat): set<int>
    requires n <= |instruments|
  {
    if n == 0 then {} else AllKinks(instruments, n - 1) + Kinks(instruments[n - 1].payoff)
  }

  lemma {:induction false} KinkIncluded(instruments: seq<Instrument>, n: nat, i: nat)
    requires i < n <= |instruments|
    ensures Kinks(instruments[i].payoff) <= AllKinks(instruments, n)
  {
    if i < n - 1 { KinkIncluded(instruments, n - 1, i); }
  }

  /** The limit prices of orders on futures. */
  function FuturePrices(book: EventBook, orders: seq<WorkingOrder>, n: nat): set<int>
    requires n <= |orders| && forall j :: 0 <= j < |orders| ==> orders[j].instrument < |book.instruments|
  {
    if n == 0 then {}
    else FuturePrices(book, orders, n - 1) +
         if book.instruments[orders[n - 1].instrument].payoff.Banded? then {orders[n - 1].price} else {}
  }

  function RawPoints(book: EventBook, orders: seq<WorkingOrder>): (r: set<int>)
    requires forall j :: 0 <= j < |orders| ==> orders[j].instrument < |book.instruments|
    ensures r != {}
  {
    var points := AllKinks(book.instruments, |book.instruments|) + FuturePrices(book, orders, |orders|);
    if points == {} then {if book.grid.Some? then book.grid.value.anchor else 0} else points
  }

  predicate InRange(g: Grid, k: int) {
    (g.min.Some? ==> k >= g.min.value) && (g.max.Some? ==> k <= g.max.value)
  }

  function Near(g: Grid, raw: set<int>): set<int>
    requires g.step > 0
  {
    (set k | k in raw :: g.Below(k)) + (set k | k in raw :: g.Above(k))
  }

  /** Each raw point is replaced by the grid points at or next to it, then the bounds apply. */
  function Snap(g: Grid, raw: set<int>): set<int>
    requires g.step > 0
  {
    (set k | k in Near(g, raw) && InRange(g, k))
    + (if g.min.Some? && InRange(g, g.min.value) then {g.min.value} else {})
    + (if g.max.Some? then {g.max.value} else {})
  }

  function NumericPoints(book: EventBook, orders: seq<WorkingOrder>): set<int>
    requires book.Valid() && forall j :: 0 <= j < |orders| ==> orders[j].instrument < |book.instruments|
  {
    if book.grid.Some? then Snap(book.grid.value, RawPoints(book, orders)) else RawPoints(book, orders)
  }

  function Names(instruments: seq<Instrument>, n: nat): set<string>
    requires n <= |instruments|
  {
    if n == 0 then {}
    else Names(instruments, n - 1) +
         var p := instruments[n - 1].payoff;
         if p.BinaryCategory? then set s | s in p.yesValues else {}
  }

  lemma {:induction false} NameIncluded(instruments: seq<Instrument>, n: nat, i: nat, name: string)
    requires i < n <= |instruments|
    requires instruments[i].payoff.BinaryCategory? && name in instruments[i].payoff.yesValues
    ensures name in Names(instruments, n)
  {
    if i < n - 1 { NameIncluded(instruments, n - 1, i, name); }
  }

  /** The outcomes the engine evaluates. */
  function Candidates(book: EventBook, orders: seq<WorkingOrder>): set<Outcome>
    requires book.Valid() && forall j :: 0 <= j < |orders| ==> orders[j].instrument < |book.instruments|
  {
    if book.kind == Categorical then
      (set s | s in Names(book.instruments, |book.instruments|) :: Category(s)) + {OtherCategory}
    else
      set k | k in NumericPoints(book, orders) :: Value(k)
  }

  // ---------------------------------------------------------------- the grid

  /** A grid point at or below `k` is at or below `Below(k)`; likewise above. */
  lemma GridPoint(g: Grid, k: int, x: int)
    requires g.step > 0 && g.On(x)
    ensures x <= k ==> x <= g.Below(k)
    ensures x >= k ==> x >= g.Above(k)
  {
    Multiples(g.step, (x - g.anchor) / g.step, (k - g.anchor) / g.step);
  }

  lemma Multiples(s: int, m: int, n: int)
    requires s > 0
    ensures m <= n ==> m * s <= n * s
    ensures m > n ==> m * s >= n * s + s
  {
    if m <= n {
      PositiveMultiple(s, n - m);
    } else {
      PositiveMultiple(s, m - n - 1);
    }
    Distribute(n, m - n, s);
    Distribute(m - n - 1, 1, s);
  }

  lemma PositiveMultiple(s: int, k: int)
    requires s > 0 && k >= 0
    ensures k * s >= 0
  {
  }

  lemma Distribute(a: int, b: int, s: int)
    ensures (a + b) * s == a * s + b * s
  {
  }

  lemma GridNeighbours(g: Grid, k: int)
    requires g.step > 0
    ensures g.On(g.Below(k)) && g.On(g.Above(k))
    ensures g.Below(k) <= k <= g.Above(k)
    ensures forall x :: g.On(x) ==> (x <= k ==> x <= g.Below(k)) && (x >= k ==> x >= g.Above(k))
  {
    var s, n := g.step, (k - g.anchor) / g.step;
    assert (n + 1) * s == n * s + s;
    DivModUnique(n * s, s, n, 0);
    DivModUnique((n + 1) * s, s, n + 1, 0);
    forall x | g.On(x) ensures (x <= k ==> x <= g.Below(k)) && (x >= k ==> x >= g.Above(k)) {
      GridPoint(g, k, x);
    }
  }

  /** Every candidate is an outcome the event can settle on. */
  lemma CandidatesContractual(book: EventBook, orders: seq<WorkingOrder>, y: Outcome)
    requires book.Valid() && forall j :: 0 <= j < |orders| ==> orders[j].instrument < |book.instruments|
    requires y in Candidates(book, orders)
    ensures book.Contractual(y)
  {
    if book.grid.Some? {
      var g := book.grid.value;
      forall k ensures g.On(g.Below(k)) && g.On(g.Above(k)) {
        GridNeighbours(g, k);
      }
    }
  }

  // ---------------------------------------------------------------- payoffs between kinks

  /** Left of all its kinks, or right of all of them, a payoff is flat. */
  lemma FlatOutside(p: Payoff, x: int, y: int)
    requires (forall k :: k in Kinks(p) ==> x <= k && y <= k) || (forall k :: k in Kinks(p) ==> x >= k && y >= k)
    requires p.Banded? ==> p.lower < p.upper
    ensures UnitValue(p, Value(x)) == UnitValue(p, Value(y))
  {
    if p.BinaryRange? {
      if p.lo.Some? { assert p.lo.value in Kinks(p) && p.lo.value - 1 in Kinks(p); }
      if p.hi.Some? { assert p.hi.value in Kinks(p) && p.hi.value + 1 in Kinks(p); }
    } else if p.Banded? {
      assert p.lower in Kinks(p) && p.upper in Kinks(p);
    }
  }

  /** A band is flat on either side and a straight line in the middle. */
  lemma StraightBand(lower: int, upper: int, tick: int, left: int, right: int, s: int, x: int, t: int)
    requires lower < upper && left <= s <= x <= t <= right
    requires (lower <= left || lower >= right) && (upper <= left || upper >= right)
    ensures ((t - x) + (x - s)) * ((Clamp(x, lower, upper) - lower) * tick)
            == (t - x) * ((Clamp(s, lower, upper) - lower) * tick) + (x - s) * ((Clamp(t, lower, upper) - lower) * tick)
  {
    if lower >= right || upper <= left {
      assert Clamp(s, lower, upper) == Clamp(x, lower, upper) == Clamp(t, lower, upper);
      Spread(t - x, x - s, (Clamp(x, lower, upper) - lower) * tick);
    } else {
      assert Clamp(s, lower, upper) == s && Clamp(x, lower, upper) == x && Clamp(t, lower, upper) == t;
      Interpolate(s, x, t, lower);
      MixProduct(t - x, x - s, tick, s - lower, x - lower, t - lower);
    }
  }

  /** Between two neighbouring kinks a payoff is a straight line. */
  lemma StraightInside(p: Payoff, left: int, right: int, s: int, x: int, t: int)
    requires forall k :: k in Kinks(p) ==> k <= left || k >= right
    requires left + 2 <= right && left <= s <= x <= t <= right
    requires p.Banded? ==> p.lower < p.upper
    ensures ((t - x) + (x - s)) * UnitValue(p, Value(x))
            == (t - x) * UnitValue(p, Value(s)) + (x - s) * UnitValue(p, Value(t))
  {
    if p.Banded? {
      assert p.lower in Kinks(p) && p.upper in Kinks(p);
      StraightBand(p.lower, p.upper, p.tickValue, left, right, s, x, t);
    } else {
      SameInside(p, left, right, s, x, t);
      Spread(t - x, x - s, UnitValue(p, Value(x)));
    }
  }

  /** A binary contract pays the same all the way between two neighbouring kinks. */
  lemma SameInside(p: Payoff, left: int, right: int, s: int, x: int, t: int)
    requires !p.Banded? && forall k :: k in Kinks(p) ==> k <= left || k >= right
    requires left + 2 <= right && left <= s <= x <= t <= right
    ensures UnitValue(p, Value(s)) == UnitValue(p, Value(x)) == UnitValue(p, Value(t))
  {
    if p.BinaryRange? {
      if p.lo.Some? { assert p.lo.value in Kinks(p) && p.lo.value - 1 in Kinks(p); }
      if p.hi.Some? { assert p.hi.value in Kinks(p) && p.hi.value + 1 in Kinks(p); }
    }
  }

  lemma Spread(a: int, b: int, v: int)
    ensures (a + b) * v == a * v + b * v
  {
  }

  lemma Interpolate(s: int, x: int, t: int, lower: int)
    ensures ((t - x) + (x - s)) * (x - lower) == (t - x) * (s - lower) + (x - s) * (t - lower)
  {
    var a, b, c := t - x, x - s, x - lower;
    assert s - lower == c - b && t - lower == c + a;
    Spread(a, b, c);
    assert a * (c - b) == a * c - a * b;
    assert b * (c + a) == b * c + b * a;
  }

  lemma FlatValues(book: EventBook, raw: set<int>, x: int, y: int)
    requires book.Valid() && AllKinks(book.instruments, |book.instruments|) <= raw
    requires (forall k :: k in raw ==> x <= k && y <= k) || (forall k :: k in raw ==> x >= k && y >= k)
    ensures Values(book, AtOutcome(Value(x))) == Values(book, AtOutcome(Value(y)))
  {
    forall i | 0 <= i < |book.instruments|
      ensures UnitValue(book.instruments[i].payoff, Value(x)) == UnitValue(book.instruments[i].payoff, Value(y))
    {
      KinkIncluded(book.instruments, |book.instruments|, i);
      assert ValidateInstrument(book.kind, book.instruments[i]) == None;
      FlatOutside(book.instruments[i].payoff, x, y);
    }
  }

  lemma StraightValues(book: EventBook, raw: set<int>, left: int, right: int, s: int, x: int, t: int)
    requires book.Valid() && AllKinks(book.instruments, |book.instruments|) <= raw
    requires forall k :: k in raw ==> k <= left || k >= right
    requires left + 2 <= right && left <= s <= x <= t <= right
    ensures Between(Values(book, AtOutcome(Value(s))), Values(book, AtOutcome(Value(x))),
                    Values(book, AtOutcome(Value(t))), t - x, x - s)
  {
    forall i | 0 <= i < |book.instruments|
      ensures ((t - x) + (x - s)) * Values(book, AtOutcome(Value(x)))[i]
              == (t - x) * Values(book, AtOutcome(Value(s)))[i] + (x - s) * Values(book, AtOutcome(Value(t)))[i]
    {
      KinkIncluded(book.instruments, |book.instruments|, i);
      assert ValidateInstrument(book.kind, book.instruments[i]) == None;
      StraightInside(book.instruments[i].payoff, left, right, s, x, t);
    }
  }

  // ---------------------------------------------------------------- candidates suffice

  /** A grid point at or beyond every raw point does as well as the outermost candidate on its side. */
  lemma OuterCandidate(book: EventBook, g: Grid, raw: set<int>, x: int) returns (y: int)
    requires book.Valid() && g.Valid() && raw != {} && AllKinks(book.instruments, |book.instruments|) <= raw
    requires g.Contains(x)
    requires (forall k :: k in raw ==> x < k) || (forall k :: k in raw ==> x > k)
    ensures y in Snap(g, raw)
    ensures Values(book, AtOutcome(Value(x))) == Values(book, AtOutcome(Value(y)))
  {
    if forall k :: k in raw ==> x < k {
      var first := SmallestOf(raw);
      GridNeighbours(g, first);
      y := g.Below(first);
      if g.max.Some? && y > g.max.value { y := g.max.value; }
    } else {
      var last := LargestOf(raw);
      GridNeighbours(g, last);
      y := g.Above(last);
      if g.min.Some? && y < g.min.value { y := g.min.value; }
    }
    FlatValues(book, raw, x, y);
  }

  /** The raw points on either side of `x`. */
  lemma Around(raw: set<int>, x: int) returns (left: int, right: int)
    requires x !in raw
    requires !(forall k :: k in raw ==> x < k) && !(forall k :: k in raw ==> x > k)
    ensures left in raw && right in raw && left < x < right
    ensures forall k :: k in raw ==> k <= left || k >= right
  {
    var below, above := set k | k in raw && k < x, set k | k in raw && k > x;
    var k0 :| k0 in raw && k0 <= x;
    var k1 :| k1 in raw && k1 >= x;
    assert k0 in below && k1 in above;
    left := LargestOf(below);
    right := SmallestOf(above);
    forall k | k in raw ensures k <= left || k >= right {
      assert k in below || k in above;
    }
  }

  /** A grid point strictly between two raw points lies between two candidates on the same straight piece. */
  lemma InnerCandidates(book: EventBook, g: Grid, raw: set<int>, left: int, x: int, right: int) returns (s: int, t: int)
    requires book.Valid() && g.Valid() && AllKinks(book.instruments, |book.instruments|) <= raw
    requires g.Contains(x) && left < x < right && left in raw && right in raw
    requires forall k :: k in raw ==> k <= left || k >= right
    ensures s in Snap(g, raw) && t in Snap(g, raw) && s <= x <= t
    ensures Between(Values(book, AtOutcome(Value(s))), Values(book, AtOutcome(Value(x))),
                    Values(book, AtOutcome(Value(t))), t - x, x - s)
  {
    GridNeighbours(g, left);
    GridNeighbours(g, right);
    s, t := g.Above(left), g.Below(right);
    if g.min.Some? && s < g.min.value { s := g.min.value; }
    if g.max.Some? && t > g.max.value { t := g.max.value; }
    StraightValues(book, raw, left, right, s, x, t);
  }

  lemma SnapIntegers(raw: set<int>)
    ensures Snap(INTEGERS, raw) == raw
  {
    var below, above := set k | k in raw :: INTEGERS.Below(k), set k | k in raw :: INTEGERS.Above(k);
    forall k | k in raw ensures k in below && k in above {
      assert INTEGERS.Below(k) == k && INTEGERS.Above(k) == k;
    }
    assert below == raw && above == raw;
  }

  /** No grid point stresses an account more than some snapped kink. */
  lemma SnappedCandidate(book: EventBook, g: Grid, raw: set<int>, x: int, net: seq<int>, priced: seq<Priced>)
    returns (y: int)
    requires book.Valid() && g.Valid() && raw != {} && AllKinks(book.instruments, |book.instruments|) <= raw
    requires g.Contains(x)
    requires |net| == |book.instruments| && Fit(|book.instruments|, priced)
    ensures y in Snap(g, raw)
    ensures StressIn(book, AtOutcome(Value(x)), net, priced) <= StressIn(book, AtOutcome(Value(y)), net, priced)
  {
    if x in raw {
      GridNeighbours(g, x);
      y := x;
    } else if (forall k :: k in raw ==> x < k) || (forall k :: k in raw ==> x > k) {
      y := OuterCandidate(book, g, raw, x);
    } else {
      var left, right := Around(raw, x);
      var s, t := InnerCandidates(book, g, raw, left, x, right);
      var vs, vx, vt := Values(book, AtOutcome(Value(s))), Values(book, AtOutcome(Value(x))),
                        Values(book, AtOutcome(Value(t)));
      y := s;
      if s < t {
        StressBetween(vs, vx, vt, t - x, x - s, net, priced);
        if StressAt(vs, net, priced) < StressAt(vt, net, priced) { y := t; }
      }
    }
  }

  lemma NumericCandidate(book: EventBook, orders: seq<WorkingOrder>, x: int, net: seq<int>, priced: seq<Priced>)
    returns (y: int)
    requires book.Valid() && book.kind == Numeric && book.Contractual(Value(x))
    requires forall j :: 0 <= j < |orders| ==> orders[j].instrument < |book.instruments|
    requires |net| == |book.instruments| && Fit(|book.instruments|, priced)
    ensures y in NumericPoints(book, orders)
    ensures StressIn(book, AtOutcome(Value(x)), net, priced) <= StressIn(book, AtOutcome(Value(y)), net, priced)
  {
    SnapIntegers(RawPoints(book, orders));
    y := SnappedCandidate(book, book.EffectiveGrid(), RawPoints(book, orders), x, net, priced);
  }

  /** No outcome at all stresses an account more than some candidate. */
  lemma CandidatesSuffice(book: EventBook, orders: seq<WorkingOrder>, x: Outcome, net: seq<int>, priced: seq<Priced>)
    returns (y: Outcome)
    requires book.Valid() && book.Contractual(x)
    requires forall j :: 0 <= j < |orders| ==> orders[j].instrument < |book.instruments|
    requires |net| == |book.instruments| && Fit(|book.instruments|, priced)
    ensures y in Candidates(book, orders)
    ensures StressIn(book, AtOutcome(x), net, priced) <= StressIn(book, AtOutcome(y), net, priced)
  {
    if book.kind == Numeric {
      var k := NumericCandidate(book, orders, x.x, net, priced);
      y := Value(k);
    } else if x in Candidates(book, orders) {
      y := x;
    } else {
      y := OtherCategory;
      forall i | 0 <= i < |book.instruments|
        ensures UnitValue(book.instruments[i].payoff, x) == UnitValue(book.instruments[i].payoff, y)
      {
        assert ValidateInstrument(book.kind, book.instruments[i]) == None;
        if x.name in book.instruments[i].payoff.yesValues {
          NameIncluded(book.instruments, |book.instruments|, i, x.name);
        }
      }
      assert Values(book, AtOutcome(x)) == Values(book, AtOutcome(y));
    }
  }

  lemma {:induction false} WorstOf(book: EventBook, outcomes: set<Outcome>, net: seq<int>, priced: seq<Priced>)
    returns (y: Outcome)
    requires outcomes != {}
    requires |net| == |book.instruments| && Fit(|book.instruments|, priced)
    ensures y in outcomes
    ensures forall x :: x in outcomes ==>
                        StressIn(book, AtOutcome(x), net, priced) <= StressIn(book, AtOutcome(y), net, priced)
  {
    y := SomeMember(outcomes);
    var others := outcomes - {y};
    assert forall x :: x in outcomes ==> x == y || x in others;
    if others != {} {
      var z := WorstOf(book, others, net, priced);
      if StressIn(book, AtOutcome(z), net, priced) > StressIn(book, AtOutcome(y), net, priced) { y := z; }
    }
  }

  /**
    The largest stress over the premium scenario and the candidates is the margin, even where
    the outcome grid is unbounded.
   */
  lemma CandidateMaximumIsMargin(book: EventBook, orders: seq<WorkingOrder>, net: seq<int>, priced: seq<Priced>, m: int)
    requires book.Valid() && forall j :: 0 <= j < |orders| ==> orders[j].instrument < |book.instruments|
    requires |net| == |book.instruments| && Fit(|book.instruments|, priced)
    requires m >= StressIn(book, AtTrade, net, priced)
    requires forall y :: y in Candidates(book, orders) ==> StressIn(book, AtOutcome(y), net, priced) <= m
    requires m == StressIn(book, AtTrade, net, priced)
             || exists y :: y in Candidates(book, orders) && StressIn(book, AtOutcome(y), net, priced) == m
    ensures IsMargin(book, net, priced, m)
  {
    forall w | Possible(book, w) ensures StressIn(book, w, net, priced) <= m {
      if w.AtOutcome? {
        var y := CandidatesSuffice(book, orders, w.x, net, priced);
      }
    }
    if m == StressIn(book, AtTrade, net, priced) {
      assert Possible(book, AtTrade);
    } else {
      var y :| y in Candidates(book, orders) && StressIn(book, AtOutcome(y), net, priced) == m;
      CandidatesContractual(book, orders, y);
      assert Possible(book, AtOutcome(y));
    }
  }

  /** Every account has a margin. */
  lemma MarginExists(book: EventBook, net: seq<int>, priced: seq<Priced>)
    requires book.Valid() && |net| == |book.instruments| && Fit(|book.instruments|, priced)
    ensures exists m :: IsMargin(book, net, priced, m)
  {
    var x := SomeOutcome(book);
    var y0 := CandidatesSuffice(book, [], x, net, priced);
    var y := WorstOf(book, Candidates(book, []), net, priced);
    var m := Max(StressIn(book, AtTrade, net, priced), StressIn(book, AtOutcome(y), net, priced));
    CandidateMaximumIsMargin(book, [], net, priced, m);
  }

  /** The margin, as a function of the account. */
  ghost function MarginOf(book: EventBook, net: seq<int>, priced: seq<Priced>): (m: int)
    requires book.Valid() && |net| == |book.instruments| && Fit(|book.instruments|, priced)
    ensures IsMargin(book, net, priced, m) && m >= 0
  {
    MarginExists(book, net, priced);
    var m :| IsMargin(book, net, priced, m);
    MarginNonNegative(book, net, priced, m);
    m
  }
}
