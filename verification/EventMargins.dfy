/** The engine's loops, proved against the exact worst case of module WorstCase. */
module EventMargins {
  import opened Common
  import opened IntSets
  import opened Payoffs
  import opened Stress
  import opened WorstCase
  import opened Engine
  import opened Standalone

  datatype EventMargin = EventMargin(margin: int, requirement: int, standalone: int, worst: Option<Outcome>)

  function PositionProblem(n: nat, positions: seq<Position>): Option<MarginError> {
    if positions == [] then None
    else if positions[0].instrument >= n then Some(UnknownInstrument(positions[0].instrument))
    else PositionProblem(n, positions[1..])
  }

  function OrderProblem(book: EventBook, o: WorkingOrder): Option<MarginError> {
    if o.instrument >= |book.instruments| then Some(UnknownInstrument(o.instrument))
    else if o.qty == 0 then Some(ZeroQuantity)
    else if !book.instruments[o.instrument].Accepts(o.price) then
      Some(InvalidPrice(book.instruments[o.instrument].ticker, o.price))
    else None
  }

  function OrdersProblem(book: EventBook, orders: seq<WorkingOrder>): Option<MarginError> {
    if orders == [] then None
    else if OrderProblem(book, orders[0]).Some? then OrderProblem(book, orders[0])
    else OrdersProblem(book, orders[1..])
  }

  /** The error the engine reports: the first bad position, else the first bad order. */
  function Problem(book: EventBook, positions: seq<Position>, orders: seq<WorkingOrder>): Option<MarginError> {
    var p := PositionProblem(|book.instruments|, positions);
    if p.Some? then p else OrdersProblem(book, orders)
  }

  lemma {:induction false} PositionsKnown(n: nat, positions: seq<Position>)
    ensures PositionProblem(n, positions) == None <==> Known(n, positions)
  {
    if positions != [] {
      PositionsKnown(n, positions[1..]);
      assert forall k :: 1 <= k < |positions| ==> positions[k] == positions[1..][k - 1];
    }
  }

  lemma {:induction false} OrdersListed(book: EventBook, orders: seq<WorkingOrder>)
    ensures OrdersProblem(book, orders) == None <==> AllAcceptable(book, orders)
  {
    if orders != [] {
      OrdersListed(book, orders[1..]);
      assert forall k :: 1 <= k < |orders| ==> orders[k] == orders[1..][k - 1];
    }
  }

  /** `net_positions`: adds up the positions, or names the first unknown instrument. */
  method NetPositions(book: EventBook, positions: seq<Position>) returns (r: Result<seq<int>, MarginError>)
    ensures r.Ok? <==> Known(|book.instruments|, positions)
    ensures r.Ok? ==> r.value == Net(|book.instruments|, positions)
    ensures r.Err? ==> PositionProblem(|book.instruments|, positions) == Some(r.error)
  {
    var n := |book.instruments|;
    var net := Zeros(n);
    for k := 0 to |positions|
      invariant Known(n, positions[..k])
      invariant net == Net(n, positions[..k])
      invariant PositionProblem(n, positions) == PositionProblem(n, positions[k..])
    {
      var p := positions[k];
      assert positions[k..][0] == p && positions[k..][1..] == positions[k + 1..];
      if p.instrument >= n {
        PositionsKnown(n, positions);
        return Err(UnknownInstrument(p.instrument));
      }
      assert positions[..k + 1][..k] == positions[..k];
      net := net[p.instrument := net[p.instrument] + p.qty];
    }
    assert positions[..|positions|] == positions;
    r := Ok(net);
  }

  lemma NearStep(g: Grid, done: set<int>, k: int)
    requires g.step > 0
    ensures Near(g, done + {k}) == Near(g, done) + {g.Below(k), g.Above(k)}
  {
    var below, above := set x | x in done + {k} :: g.Below(x), set x | x in done + {k} :: g.Above(x);
    assert below == (set x | x in done :: g.Below(x)) + {g.Below(k)} by {
      forall y | y in below ensures y == g.Below(k) || y in (set x | x in done :: g.Below(x)) {
        var x :| x in done + {k} && g.Below(x) == y;
      }
    }
    assert above == (set x | x in done :: g.Above(x)) + {g.Above(k)} by {
      forall y | y in above ensures y == g.Above(k) || y in (set x | x in done :: g.Above(x)) {
        var x :| x in done + {k} && g.Above(x) == y;
      }
    }
  }

  /** `snap`, one raw point at a time. */
  method SnapPoints(g: Grid, raw: set<int>) returns (out: set<int>)
    requires g.Valid()
    ensures out == Snap(g, raw)
  {
    var todo := raw;
    out := {};
    assert Near(g, {}) == {};
    while todo != {}
      invariant todo <= raw
      invariant out == Near(g, raw - todo)
      decreases |todo|
    {
      ghost var some := SomeMember(todo);
      var k :| k in todo;
      assert raw - (todo - {k}) == (raw - todo) + {k};
      NearStep(g, raw - todo, k);
      out := out + {g.Below(k)};
      if g.Below(k) != k {
        out := out + {g.Below(k) + g.step};
      }
      todo := todo - {k};
    }
    assert raw - todo == raw;
    out := ApplyBounds(g, out);
  }

  /** The end of `snap`: drop what lies outside the bounds, and add the bounds themselves. */
  method ApplyBounds(g: Grid, near: set<int>) returns (out: set<int>)
    requires g.Valid()
    ensures out == (set k | k in near && InRange(g, k))
                   + (if g.min.Some? && InRange(g, g.min.value) then {g.min.value} else {})
                   + (if g.max.Some? then {g.max.value} else {})
  {
    out := near;
    if g.min.Some? {
      out := (set x | x in out && x >= g.min.value) + {g.min.value};
    }
    if g.max.Some? {
      out := (set x | x in out && x <= g.max.value) + {g.max.value};
    }
  }

  /** `candidates`, instrument by instrument and order by order. */
  method BuildCandidates(book: EventBook, orders: seq<WorkingOrder>) returns (out: set<Outcome>)
    requires book.Valid() && forall j :: 0 <= j < |orders| ==> orders[j].instrument < |book.instruments|
    ensures out == Candidates(book, orders)
  {
    if book.kind == Categorical {
      var names: set<string> := {};
      for i := 0 to |book.instruments|
        invariant names == Names(book.instruments, i)
      {
        var p := book.instruments[i].payoff;
        if p.BinaryCategory? {
          names := names + set s | s in p.yesValues;
        }
      }
      out := (set s | s in names :: Category(s)) + {OtherCategory};
    } else {
      var points: set<int> := {};
      for i := 0 to |book.instruments|
        invariant points == AllKinks(book.instruments, i)
      {
        points := points + Kinks(book.instruments[i].payoff);
      }
      ghost var kinks := points;
      for j := 0 to |orders|
        invariant points == kinks + FuturePrices(book, orders, j)
      {
        if book.instruments[orders[j].instrument].payoff.Banded? {
          points := points + {orders[j].price};
        }
      }
      if points == {} {
        points := {if book.grid.Some? then book.grid.value.anchor else 0};
      }
      if book.grid.Some? {
        points := SnapPoints(book.grid.value, points);
      }
      out := set k | k in points :: Value(k);
    }
  }

  /** What the net positions owe at a candidate outcome. */
  method Owed(book: EventBook, net: seq<int>, x: Outcome) returns (owed: int)
    requires book.Valid() && book.Contractual(x) && |net| == |book.instruments|
    ensures owed == -SettlementOf(book, net, x)
  {
    owed := 0;
    for i := 0 to |net|
      invariant owed == -Dot(net, Values(book, AtOutcome(x)), i)
    {
      if net[i] != 0 {
        ValueBounds(book, i, x);
        var value := book.instruments[i].payoff.ValueAt(x).value;
        owed := owed - value * net[i];
      }
    }
  }

  /** `settlement_micro`: refuses outcomes the event cannot settle on. */
  method SettlementMicro(book: EventBook, positions: seq<Position>, x: Outcome) returns (r: Result<int, MarginError>)
    requires book.Valid()
    ensures r.Ok? <==> book.Contractual(x) && Known(|book.instruments|, positions)
    ensures r.Ok? ==> r.value == SettlementOf(book, Net(|book.instruments|, positions), x)
                      == PaidOut(book, positions, x)
    ensures !book.Contractual(x) ==> r == Err(InvalidOutcome(x))
    ensures book.Contractual(x) && r.Err? ==> PositionProblem(|book.instruments|, positions) == Some(r.error)
  {
    if !book.Contractual(x) {
      return Err(InvalidOutcome(x));
    }
    var net := NetPositions(book, positions);
    if net.Err? {
      return Err(net.error);
    }
    var owed := Owed(book, net.value, x);
    SettlementIsPaidOut(book, positions, x);
    r := Ok(-owed);
  }

  function SettlementTotal(book: EventBook, accounts: seq<seq<Position>>, x: Outcome): int
    requires forall k :: 0 <= k < |accounts| ==> Known(|book.instruments|, accounts[k])
  {
    if accounts == [] then 0
    else
      var n := |accounts| - 1;
      SettlementTotal(book, accounts[..n], x) + SettlementOf(book, Net(|book.instruments|, accounts[n]), x)
  }

  predicate AllKnown(n: nat, accounts: seq<seq<Position>>) { forall k :: 0 <= k < |accounts| ==> Known(n, accounts[k]) }

  /**
    `settle_accounts`: what each account receives, refused at the first account that
    cannot be settled or unless the amounts net to zero.
   */
  method SettleAccounts(book: EventBook, accounts: seq<seq<Position>>, x: Outcome)
    returns (r: Result<seq<int>, MarginError>)
    requires book.Valid()
    ensures !book.Contractual(x) ==> r == if accounts == [] then Ok([]) else Err(InvalidOutcome(x))
    ensures book.Contractual(x) && !AllKnown(|book.instruments|, accounts) ==>
              exists k :: 0 <= k < |accounts| && AllKnown(|book.instruments|, accounts[..k])
                          && !Known(|book.instruments|, accounts[k])
                          && r.Err? && PositionProblem(|book.instruments|, accounts[k]) == Some(r.error)
    ensures book.Contractual(x) && AllKnown(|book.instruments|, accounts) ==>
              && (r.Ok? <==> SettlementTotal(book, accounts, x) == 0)
              && (r.Err? ==> r.error == NotZeroSum(SettlementTotal(book, accounts, x)))
              && (r.Ok? ==> |r.value| == |accounts|
                            && forall k :: 0 <= k < |accounts| ==>
                                             r.value[k] == SettlementOf(book, Net(|book.instruments|, accounts[k]), x))
  {
    var amounts: seq<int>, total := [], 0;
    for k := 0 to |accounts|
      invariant |amounts| == k && AllKnown(|book.instruments|, accounts[..k]) && (k > 0 ==> book.Contractual(x))
      invariant k == 0 ==> total == 0
      invariant book.Contractual(x) ==> total == SettlementTotal(book, accounts[..k], x)
      invariant book.Contractual(x) ==>
                forall i :: 0 <= i < k ==> amounts[i] == SettlementOf(book, Net(|book.instruments|, accounts[i]), x)
    {
      var amount := SettlementMicro(book, accounts[k], x);
      if amount.Err? {
        return Err(amount.error);
      }
      assert accounts[..k + 1][..k] == accounts[..k] && accounts[..k + 1][k] == accounts[k];
      amounts := amounts + [amount.value];
      total := total + amount.value;
    }
    assert accounts[..|accounts|] == accounts;
    r := if total != 0 then Err(NotZeroSum(total)) else Ok(amounts);
  }

  /** There is always an outcome to evaluate. */
  lemma SomeCandidate(book: EventBook, orders: seq<WorkingOrder>)
    requires book.Valid() && forall j :: 0 <= j < |orders| ==> orders[j].instrument < |book.instruments|
    ensures Candidates(book, orders) != {}
  {
    if book.kind == Categorical {
      assert OtherCategory in Candidates(book, orders);
    } else {
      var at := if book.grid.None? then 0
                else if book.grid.value.max.Some? then book.grid.value.max.value
                else if book.grid.value.min.Some? then book.grid.value.min.value
                else book.grid.value.anchor;
      var y := CandidatesSuffice(book, orders, Value(at), Zeros(|book.instruments|), []);
    }
  }

  /** `worst_position_loss_micro`: the settlement path finds the same number as the margin path. */
  method WorstPositionLoss(book: EventBook, positions: seq<Position>) returns (r: Result<int, MarginError>)
    requires book.Valid()
    ensures r.Ok? <==> Known(|book.instruments|, positions)
    ensures r.Ok? ==> IsMargin(book, Net(|book.instruments|, positions), [], r.value)
    ensures r.Err? ==> PositionProblem(|book.instruments|, positions) == Some(r.error)
  {
    var outcomes := BuildCandidates(book, []);
    SomeCandidate(book, []);
    forall y | y in outcomes ensures book.Contractual(y) { CandidatesContractual(book, [], y); }
    r := LargestLoss(book, positions, outcomes);
    if r.Ok? { LossIsMargin(book, positions, outcomes, r.value); }
  }

  /** The largest loss over the outcomes, or none of it if they cannot be settled at. */
  method LargestLoss(book: EventBook, positions: seq<Position>, outcomes: set<Outcome>)
    returns (r: Result<int, MarginError>)
    requires book.Valid() && outcomes != {} && forall y :: y in outcomes ==> book.Contractual(y)
    ensures r.Ok? <==> Known(|book.instruments|, positions)
    ensures r.Ok? ==> LossSoFar(book, positions, outcomes, outcomes, r.value)
    ensures r.Err? ==> PositionProblem(|book.instruments|, positions) == Some(r.error)
  {
    var todo := outcomes;
    var worst := 0;
    while todo != {}
      invariant todo <= outcomes && (todo == outcomes || Known(|book.instruments|, positions))
      invariant LossSoFar(book, positions, outcomes, outcomes - todo, worst)
      decreases |todo|
    {
      ghost var some := SomeMember(todo);
      var x :| x in todo;
      var amount := SettlementMicro(book, positions, x);
      if amount.Err? {
        return Err(amount.error);
      }
      LossStep(book, positions, outcomes, todo, worst, x, amount.value);
      worst := Max(worst, -amount.value);
      todo := todo - {x};
    }
    assert outcomes - todo == outcomes;
    r := Ok(worst);
  }

  /** The largest loss among the outcomes tried so far. */
  ghost predicate LossSoFar(book: EventBook, positions: seq<Position>, all: set<Outcome>, tried: set<Outcome>,
                            worst: int)
    requires book.Valid()
  {
    Known(|book.instruments|, positions) ==>
      var net := Net(|book.instruments|, positions);
      && worst >= 0 && (forall y :: y in tried ==> StressIn(book, AtOutcome(y), net, []) <= worst)
      && (worst == 0 || exists y :: y in all && StressIn(book, AtOutcome(y), net, []) == worst)
  }

  lemma LossStep(book: EventBook, positions: seq<Position>, all: set<Outcome>, todo: set<Outcome>, worst: int,
                 x: Outcome, amount: int)
    requires book.Valid() && Known(|book.instruments|, positions) && x in todo && todo <= all
             && LossSoFar(book, positions, all, all - todo, worst)
    requires amount == SettlementOf(book, Net(|book.instruments|, positions), x)
    ensures LossSoFar(book, positions, all, all - (todo - {x}), Max(worst, -amount))
  {
    assert StressIn(book, AtOutcome(x), Net(|book.instruments|, positions), [])
           == -SettlementOf(book, Net(|book.instruments|, positions), x);
  }

  lemma LossIsMargin(book: EventBook, positions: seq<Position>, all: set<Outcome>, worst: int)
    requires book.Valid() && Known(|book.instruments|, positions) && all == Candidates(book, [])
             && LossSoFar(book, positions, all, all, worst)
    ensures IsMargin(book, Net(|book.instruments|, positions), [], worst)
  {
    TradeStress(book, Net(|book.instruments|, positions));
    CandidateMaximumIsMargin(book, [], Net(|book.instruments|, positions), [], worst);
  }

  /** `standalone`: a closing order uses up capacity; only its opening remainder is charged. */
  method StandaloneMargin(book: EventBook, net: seq<int>, priced: seq<Priced>) returns (total: int)
    requires |net| == |book.instruments| && Fit(|net|, priced)
    requires forall j :: 0 <= j < |priced| ==> priced[j].qty != 0
    ensures total == StandaloneOf(book.instruments, net, priced)
  {
    total := 0;
    for i := 0 to |net|
      invariant total == ShortLocks(book.instruments, net, i)
    {
      if net[i] < 0 {
        total := total + book.instruments[i].payoff.MaxValue() * Abs(net[i]);
      }
    }
    var capacity := seq(|net|, i requires 0 <= i < |net| => Abs(net[i]));
    ghost var shorts := total;
    for j := 0 to |priced|
      invariant capacity == Capacity(book.instruments, net, priced[..j])
      invariant total == shorts + OrderLocks(book.instruments, net, priced[..j])
    {
      var o := priced[j];
      assert priced[..j + 1][..j] == priced[..j] && priced[..j + 1][j] == o;
      var payoff := book.instruments[o.inst].payoff;
      var closing := 0;
      if payoff.Banded? && net[o.inst] != 0 && (net[o.inst] > 0) != (o.qty > 0) {
        closing := Min(Abs(o.qty), capacity[o.inst]);
        capacity := capacity[o.inst := capacity[o.inst] - closing];
      }
      var lock := OpeningLock(payoff, o, Abs(o.qty) - closing);
      total := total + lock;
    }
    assert priced[..|priced|] == priced;
  }

  /** What the opening part of one order locks; the premium per unit is recovered by division. */
  method OpeningLock(payoff: Payoff, o: Priced, opening: int) returns (lock: int)
    requires o.qty != 0
    ensures lock == UnitLock(payoff, o) * opening
  {
    if opening == 0 {
      return 0;
    }
    var premium := o.qty * o.unit;
    ExactDivision(o.qty, o.unit);
    var unitPremium := TruncDiv(premium, o.qty);
    var unitLock := if o.qty > 0 then unitPremium else payoff.MaxValue() - unitPremium;
    lock := unitLock * opening;
  }

  lemma ProductAbs(q: int, unit: int)
    requires q != 0
    ensures Abs(q * unit) == Abs(unit) * Abs(q)
    ensures unit != 0 ==> (q * unit >= 0) == ((q > 0) == (unit > 0))
  {
    if unit > 0 {
      if q < 0 { assert q * unit == -(-q * unit); assert -q * unit > 0; }
    } else if unit < 0 {
      if q > 0 { assert q * unit == -(q * -unit); assert q * -unit > 0; }
      else { assert q * unit == -q * -unit; assert -q * -unit > 0; }
    }
  }

  /** Truncating division undoes an exact product, whatever the signs. */
  lemma ExactDivision(q: int, unit: int)
    requires q != 0
    ensures TruncDiv(q * unit, q) == unit
  {
    ProductAbs(q, unit);
    DivModUnique(Abs(unit) * Abs(q), Abs(q), Abs(unit), 0);
  }

  /** The hurt the orders add at outcome `x`, on top of what is already owed. */
  method Stressed(book: EventBook, owed: int, priced: seq<Priced>, x: Outcome) returns (stressed: int)
    requires book.Valid() && book.Contractual(x) && Fit(|book.instruments|, priced)
    ensures stressed == owed + HurtSum(Values(book, AtOutcome(x)), priced)
  {
    stressed := owed;
    ghost var v := Values(book, AtOutcome(x));
    for j := 0 to |priced|
      invariant stressed == owed + HurtSum(v, priced[..j])
    {
      var o := priced[j];
      ValueBounds(book, o.inst, x);
      var value := book.instruments[o.inst].payoff.ValueAt(x).value;
      var hurt := o.qty * o.unit - value * o.qty;
      assert priced[..j + 1][..j] == priced[..j] && priced[..j + 1][j] == o;
      PremiumSplit(o.qty, o.unit, value);
      assert hurt == Cost(v, o);
      stressed := stressed + Max(hurt, 0);
    }
    assert priced[..|priced|] == priced;
  }

  /** The premium branch: what the buy orders alone would pay. */
  method PremiumBranch(book: EventBook, net: seq<int>, priced: seq<Priced>) returns (sum: int)
    requires |net| == |book.instruments| && Fit(|book.instruments|, priced)
    ensures sum == StressIn(book, AtTrade, net, priced)
  {
    sum := 0;
    ghost var v := Values(book, AtTrade);
    for j := 0 to |priced|
      invariant sum == HurtSum(v, priced[..j])
    {
      assert priced[..j + 1][..j] == priced[..j] && priced[..j + 1][j] == priced[j];
      sum := sum + Max(priced[j].qty * priced[j].unit, 0);
    }
    assert priced[..|priced|] == priced;
    DotZeros(net, v, |net|);
  }

  /** The state of the search: `done` outcomes have been looked at. */
  ghost predicate Best(book: EventBook, net: seq<int>, priced: seq<Priced>, done: set<Outcome>, all: set<Outcome>,
                       m: int)
    requires |net| == |book.instruments| && Fit(|book.instruments|, priced)
  {
    && m >= StressIn(book, AtTrade, net, priced)
    && (forall y :: y in done ==> StressIn(book, AtOutcome(y), net, priced) <= m)
    && (m == StressIn(book, AtTrade, net, priced)
        || exists y :: y in all && StressIn(book, AtOutcome(y), net, priced) == m)
  }

  /** One more outcome looked at. */
  lemma BestOfMore(book: EventBook, net: seq<int>, priced: seq<Priced>, seen: set<Outcome>, all: set<Outcome>, m: int,
                   x: Outcome)
    requires |net| == |book.instruments| && Fit(|book.instruments|, priced)
    requires Best(book, net, priced, seen, all, m) && x in all
    ensures Best(book, net, priced, seen + {x}, all, Max(m, StressIn(book, AtOutcome(x), net, priced)))
  {
  }

  lemma OneLess(all: set<Outcome>, todo: set<Outcome>, x: Outcome)
    requires x in todo && todo <= all
    ensures all - (todo - {x}) == (all - todo) + {x}
  {
  }

  /** The checks of `event_margin`: its net positions and priced orders, or the first error. */
  method Prepare(book: EventBook, positions: seq<Position>, orders: seq<WorkingOrder>)
    returns (r: Result<seq<int>, MarginError>)
    requires book.Valid()
    ensures r.Err? <==> Problem(book, positions, orders).Some?
    ensures r.Err? ==> Problem(book, positions, orders) == Some(r.error)
    ensures r.Ok? ==> Known(|book.instruments|, positions) && AllAcceptable(book, orders)
    ensures r.Ok? ==> r.value == Net(|book.instruments|, positions)
  {
    PositionsKnown(|book.instruments|, positions);
    OrdersListed(book, orders);
    r := NetPositions(book, positions);
    if r.Err? {
      return;
    }
    for j := 0 to |orders|
      invariant forall k :: 0 <= k < j ==> Acceptable(book, orders[k])
      invariant OrdersProblem(book, orders) == OrdersProblem(book, orders[j..])
    {
      assert orders[j..][0] == orders[j] && orders[j..][1..] == orders[j + 1..];
      var problem := OrderProblem(book, orders[j]);
      if problem.Some? {
        return Err(problem.value);
      }
    }
  }

  /** The search over the candidates. */
  method Search(book: EventBook, net: seq<int>, orders: seq<WorkingOrder>, priced: seq<Priced>)
    returns (margin: int, requirement: int, worst: Option<Outcome>)
    requires book.Valid() && |net| == |book.instruments| && Fit(|net|, priced)
    requires forall j :: 0 <= j < |orders| ==> orders[j].instrument < |book.instruments|
    ensures IsMargin(book, net, priced, margin) && IsMargin(book, net, [], requirement)
    ensures worst.None? <==> requirement == 0
    ensures worst.Some? ==> book.Contractual(worst.value) && -SettlementOf(book, net, worst.value) == requirement
  {
    margin := PremiumBranch(book, net, priced);
    requirement := 0;
    worst := None;
    TradeStress(book, net);
    var todo := BuildCandidates(book, orders);
    ghost var all := todo;
    while todo != {}
      invariant todo <= all
      invariant Best(book, net, priced, all - todo, all, margin)
      invariant Best(book, net, [], all - todo, all, requirement)
      invariant worst.None? <==> requirement == 0
      invariant worst.Some? ==> worst.value in all && -SettlementOf(book, net, worst.value) == requirement
      decreases |todo|
    {
      ghost var some := SomeMember(todo);
      var x :| x in todo;
      CandidatesContractual(book, orders, x);
      var owed := Owed(book, net, x);
      BestOfMore(book, net, priced, all - todo, all, margin, x);
      BestOfMore(book, net, [], all - todo, all, requirement, x);
      OneLess(all, todo, x);
      if owed > requirement {
        requirement, worst := owed, Some(x);
      }
      var stressed := Stressed(book, owed, priced, x);
      margin := Max(margin, stressed);
      todo := todo - {x};
    }
    CandidateMaximumIsMargin(book, orders, net, priced, margin);
    CandidateMaximumIsMargin(book, orders, net, [], requirement);
    if worst.Some? { CandidatesContractual(book, orders, worst.value); }
  }

  /**
    `event_margin`: the margin, the requirement of the positions alone, the separate margin and
    an outcome at which the positions owe the most.
   */
  method ComputeEventMargin(book: EventBook, positions: seq<Position>, orders: seq<WorkingOrder>)
    returns (r: Result<EventMargin, MarginError>)
    requires book.Valid()
    ensures r.Err? <==> Problem(book, positions, orders).Some?
    ensures r.Err? ==> Problem(book, positions, orders) == Some(r.error)
    ensures r.Ok? ==> Known(|book.instruments|, positions) && AllAcceptable(book, orders)
    ensures r.Ok? ==>
              var net, priced := Net(|book.instruments|, positions), PriceOrders(book, orders);
              && IsMargin(book, net, priced, r.value.margin)
              && IsMargin(book, net, [], r.value.requirement)
              && r.value.standalone == StandaloneOf(book.instruments, net, priced)
              && 0 <= r.value.requirement <= r.value.margin <= r.value.standalone
              && (r.value.worst.None? <==> r.value.requirement == 0)
    ensures r.Ok? && r.value.worst.Some? ==>
              && book.Contractual(r.value.worst.value)
              && -SettlementOf(book, Net(|book.instruments|, positions), r.value.worst.value) == r.value.requirement
  {
    var prepared := Prepare(book, positions, orders);
    if prepared.Err? {
      return Err(prepared.error);
    }
    var net, priced := prepared.value, PriceOrders(book, orders);
    var margin, requirement, worst := Search(book, net, orders, priced);
    var standalone := StandaloneMargin(book, net, priced);
    ListedOrdersFairlyPriced(book, orders);
    MarginWithinStandalone(book, net, priced, margin);
    MarginNonNegative(book, net, [], requirement);
    RequirementWithinMargin(book, net, priced, requirement, margin);
    r := Ok(EventMargin(margin, requirement, standalone, worst));
  }

  lemma RequirementWithinMargin(book: EventBook, net: seq<int>, priced: seq<Priced>, requirement: int, m: int)
    requires book.Valid() && |net| == |book.instruments| && Fit(|book.instruments|, priced)
    requires IsMargin(book, net, [], requirement) && IsMargin(book, net, priced, m)
    ensures requirement <= m
  {
    var w :| Possible(book, w) && StressIn(book, w, net, []) == requirement;
    assert StressIn(book, w, net, priced) <= m;
  }
}
