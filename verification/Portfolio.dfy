/** Orders in engine units, and margin books cut down to what an account trades. */
module Portfolio {
  import opened Common
  import opened Payoffs
  import opened Stress
  import opened WorstCase

  /** `NoSide` and `NoAction` stand for every code outside the enumeration. */
  datatype Side = NoSide | Yes | No | Long | Short

  datatype Action = NoAction | Buy | Sell

  predicate ValidSideAction(side: Side, action: Action) { side != NoSide && action != NoAction }

  /** me-core's rule: does the order buy on the contract's single book? */
  predicate IsBuy(side: Side, action: Action) {
    var positive := side == Yes || side == Long;
    positive == (action == Buy)
  }

  /** risk-svc's rule for stored orders. */
  function StoredUnitOrder(side: Side, action: Action, price: int, remaining: int): (int, int) {
    var positive := side == Yes || side == Long;
    var qty := if positive == (action == Buy) then remaining else -remaining;
    (qty, price)
  }

  /** The rule for orders as entered: a NO price is the complement of a YES price. */
  function EnteredUnitOrder(binary: bool, payoutTicks: int, side: Side, action: Action, price: int, count: int)
    : (int, int)
  {
    var negative := side == No || side == Short;
    var qty := if (action == Buy) != negative then count else -count;
    (qty, if binary && side == No then payoutTicks - price else price)
  }

  /** The rule of risk-svc's pre-trade check, order-router and position-svc. */
  function SignedDelta(side: Side, action: Action, count: int): int {
    var sideSign := if side == No || side == Short then -1 else 1;
    var actionSign := if action == Sell then -1 else 1;
    count * (sideSign * actionSign)
  }

  /**
    The five copies of the sign rule agree on every order the services accept. On other codes
    they agree exactly when side and action are both outside their enumerations.
   */
  lemma SignRulesAgree(side: Side, action: Action, count: int, price: int)
    requires count > 0
    ensures (SignedDelta(side, action, count) == StoredUnitOrder(side, action, price, count).0)
            <==> (side == NoSide <==> action == NoAction)
    ensures (StoredUnitOrder(side, action, price, count).0 > 0) <==> IsBuy(side, action)
    ensures ValidSideAction(side, action) ==>
              forall binary, payout :: EnteredUnitOrder(binary, payout, side, action, price, count).0
                                       == SignedDelta(side, action, count)
  {
  }

  /** Stored and entered prices agree except for a binary NO order away from half the payout. */
  lemma PricesAgree(binary: bool, payout: int, side: Side, action: Action, price: int, count: int)
    ensures StoredUnitOrder(side, action, price, count).1
            == EnteredUnitOrder(binary, payout, side, action, price, count).1
            <==> !(binary && side == No) || 2 * price == payout
  {
  }

  // ---------------------------------------------------------------- prepare_book

  /** `sub` holds the contracts of `full` listed, in order, by `at`. */
  predicate SubBook(full: EventBook, sub: EventBook, at: seq<nat>) {
    && sub.kind == full.kind && sub.grid == full.grid && |sub.instruments| == |at|
    && (forall j :: 0 <= j < |at| ==> at[j] < |full.instruments| && sub.instruments[j] == full.instruments[at[j]])
    && (forall i, j :: 0 <= i < j < |at| ==> at[i] < at[j])
  }

  /** The same account, seen through the two books. */
  predicate SameNet(at: seq<nat>, net: seq<int>, subNet: seq<int>) {
    && |subNet| == |at| && (forall j :: 0 <= j < |at| ==> at[j] < |net| && net[at[j]] == subNet[j])
    && (forall i :: 0 <= i < |net| && i !in at ==> net[i] == 0)
  }

  predicate SameOrders(at: seq<nat>, orders: seq<Priced>, subOrders: seq<Priced>) {
    && |orders| == |subOrders| && Fit(|at|, subOrders)
    && forall j :: 0 <= j < |orders| ==> orders[j] == subOrders[j].(inst := at[subOrders[j].inst])
  }

  lemma {:induction false} DotSub(at: seq<nat>, net: seq<int>, v: seq<int>, subNet: seq<int>, subV: seq<int>, n: nat,
                                  c: nat)
    requires SameNet(at, net, subNet) && |v| == |net| && |subV| == |at| && n <= |net| && c <= |at|
    requires forall j :: 0 <= j < |at| ==> subV[j] == v[at[j]]
    requires forall i, j :: 0 <= i < j < |at| ==> at[i] < at[j]
    requires forall j :: 0 <= j < c ==> at[j] < n
    requires forall j :: c <= j < |at| ==> at[j] >= n
    ensures Dot(net, v, n) == Dot(subNet, subV, c)
  {
    if n > 0 {
      if c > 0 && at[c - 1] == n - 1 {
        DotSub(at, net, v, subNet, subV, n - 1, c - 1);
      } else {
        DotSub(at, net, v, subNet, subV, n - 1, c);
        assert n - 1 !in at;
      }
    }
  }

  lemma {:induction false} HurtSub(at: seq<nat>, v: seq<int>, subV: seq<int>, orders: seq<Priced>,
                                   subOrders: seq<Priced>)
    requires SameOrders(at, orders, subOrders) && Fit(|v|, orders) && |subV| == |at|
    requires forall j :: 0 <= j < |at| ==> at[j] < |v| && subV[j] == v[at[j]]
    ensures HurtSum(v, orders) == HurtSum(subV, subOrders)
  {
    if orders != [] {
      var n := |orders| - 1;
      HurtSub(at, v, subV, orders[..n], subOrders[..n]);
      assert orders[n] == subOrders[n].(inst := at[subOrders[n].inst]);
    }
  }

  /**
    Margin computed on a book of only the traded contracts is the margin on the whole event:
    the contracts an account does not trade cannot change its worst case.
   */
  lemma UntradedContractsDoNotMatter(full: EventBook, sub: EventBook, at: seq<nat>,
                                     net: seq<int>, subNet: seq<int>, orders: seq<Priced>, subOrders: seq<Priced>,
                                         m: int)
    requires full.Valid() && SubBook(full, sub, at)
    requires |net| == |full.instruments| && SameNet(at, net, subNet)
    requires Fit(|net|, orders) && SameOrders(at, orders, subOrders)
    ensures sub.Valid()
    ensures IsMargin(full, net, orders, m) <==> IsMargin(sub, subNet, subOrders, m)
  {
    forall j | 0 <= j < |at| ensures ValidateInstrument(sub.kind, sub.instruments[j]) == None {
      assert ValidateInstrument(full.kind, full.instruments[at[j]]) == None;
    }
    forall w ensures StressIn(full, w, net, orders) == StressIn(sub, w, subNet, subOrders) {
      DotSub(at, net, Values(full, w), subNet, Values(sub, w), |net|, |at|);
      HurtSub(at, Values(full, w), Values(sub, w), orders, subOrders);
    }
    assert forall w :: Possible(full, w) <==> Possible(sub, w);
  }
}
