/** What an open lot has cost: exactly what its fills paid, up to the truncation of each reduction. */
module ShadowCosts {
  import opened Common
  import opened Shadow

  /** Truncating division of a multiple is exact, whatever the sign. */
  lemma ExactQuotient(k: int, open: int)
    requires open > 0
    ensures TruncDiv(k * open, open) == k
  {
    if k >= 0 {
      Scaled(0, k, open);
      DivModUnique(k * open, open, k, 0);
    } else {
      NegateProduct(k, open);
      Scaled(1, -k, open);
      DivModUnique(-k * open, open, -k, 0);
    }
  }

  lemma Commuted(a: int, b: int, c: int)
    ensures a * b * c == b * c * a
  {
  }

  /** A reduction at the unit value everything was bought at releases exactly what it closes. */
  lemma UniformRelease(q: int, u: int, open: int, closed: int)
    requires open > 0 && (q == open || q == -open)
    ensures TruncDiv(q * u * closed, open) == Sign(q) * (u * closed)
  {
    if q > 0 {
      Commuted(q, u, closed);
      ExactQuotient(u * closed, open);
    } else {
      Commuted(open, u, closed);
      NegateProduct(open, u);
      NegateProduct(open * u, closed);
      NegateProduct(u * closed, open);
      ExactQuotient(-(u * closed), open);
    }
  }

  lemma SignTimes(q: int, closed: int, u: int)
    requires q != 0
    ensures Sign(q) * (u * closed) == (Sign(q) * closed) * u
  {
    if q < 0 { NegateProduct(closed, u); }
  }

  /** One fill at the lot's own unit value leaves a lot of that unit value. */
  lemma UniformFill(l: Lot, qty: int, u: int)
    requires l.cost == l.qty * u
    ensures AfterFill(l, qty, u) == Lot(l.qty + qty, (l.qty + qty) * u)
  {
    AddScaled(l.qty, qty, u);
    if l.qty != 0 && qty != 0 && (l.qty > 0) != (qty > 0) {
      var open, closed := Abs(l.qty), Min(Abs(l.qty), Abs(qty));
      if Abs(qty) <= open {
        UniformRelease(l.qty, u, open, closed);
        SignTimes(l.qty, closed, u);
        AddScaled(l.qty, -(Sign(l.qty) * closed), u);
        NegateProduct(Sign(l.qty) * closed, u);
      }
    }
  }

  /**
    Fills all at one unit value: the lot costs its quantity at that value, however it went up, down and through zero.
   */
  lemma {:induction false} UniformFills(fills: seq<Fill>, u: int)
    requires forall k :: 0 <= k < |fills| ==> fills[k].unit == u
    ensures AfterFills(fills) == Lot(SignedSum(fills), SignedSum(fills) * u)
  {
    if fills != [] {
      var n := |fills| - 1;
      UniformFills(fills[..n], u);
      UniformFill(AfterFills(fills[..n]), fills[n].qty, u);
    }
  }

  /** So today's system keeps the premium of such a long, and of such a short what the premium leaves of the maximum. */
  lemma UniformCapital(fills: seq<Fill>, u: int, max: int)
    requires forall k :: 0 <= k < |fills| ==> fills[k].unit == u
    ensures var q := SignedSum(fills);
            AfterFills(fills).CapitalToday(max) == if q >= 0 then q * u else -q * (max - u)
  {
    UniformFills(fills, u);
    var q := SignedSum(fills);
    NegateProduct(q, u);
  }

  /** What the fills paid, and were paid. */
  function PaidFor(fills: seq<Fill>): int {
    if fills == [] then 0
    else PaidFor(fills[..|fills| - 1]) + fills[|fills| - 1].qty * fills[|fills| - 1].unit
  }

  /** Fills all on one side: the lot costs what they paid. */
  lemma {:induction false} OneSidedFills(fills: seq<Fill>, buys: bool)
    requires forall k :: 0 <= k < |fills| ==> if buys then fills[k].qty >= 0 else fills[k].qty <= 0
    ensures AfterFills(fills) == Lot(SignedSum(fills), PaidFor(fills))
    ensures if buys then SignedSum(fills) >= 0 else SignedSum(fills) <= 0
  {
    if fills != [] { OneSidedFills(fills[..|fills| - 1], buys); }
  }

  /** The fill is against the lot. */
  predicate Against(l: Lot, qty: int) { qty != 0 && l.qty != 0 && (l.qty > 0) != (qty > 0) }

  /**
    What a reduction leaves of the cost is the share of the units it leaves, to within one micro,
    and never less in size; the price of the reduction does not matter. A fill through zero
    leaves what is left over at its own price.
   */
  lemma ReductionKeepsShare(l: Lot, qty: int, unit: int)
    requires Against(l, qty)
    ensures var after, open := AfterFill(l, qty, unit), Abs(l.qty);
            && after.qty == l.qty + qty
            && (Abs(qty) > open ==> after.cost == after.qty * unit)
            && (Abs(qty) == open ==> after.cost == 0)
            && (Abs(qty) < open ==>
                  && Abs(after.cost * open - l.cost * Abs(after.qty)) < open
                  && Abs(after.cost) * open >= Abs(l.cost) * Abs(after.qty))
  {
    var open, closed := Abs(l.qty), Abs(qty);
    if closed < open {
      TruncSigned(l.cost, closed, open);
      if l.cost >= 0 {
        LeavesShare(l.cost, open, closed);
      } else {
        LeavesShare(-l.cost, open, closed);
        SameSize(l.cost, -((-l.cost) * closed / open), open, closed);
      }
    }
  }

  /** A cost that is not negative: what is left after its truncated share is taken off. */
  lemma LeavesShare(cost: nat, open: int, closed: int)
    requires 0 < closed < open
    ensures var rest := cost - cost * closed / open;
            0 <= rest * open - cost * (open - closed) < open && rest >= 0
  {
    ProRata(cost, open, closed, cost);
    DivBounds(cost * closed, open);
    var released := cost * closed / open;
    assert (cost - released) * open == cost * open - released * open;
    assert cost * (open - closed) == cost * open - cost * closed;
  }

  lemma SameSize(cost: int, released: int, open: int, closed: int)
    ensures (cost - released) * open == -((-cost + released) * open)
    ensures cost * (open - closed) == -((-cost) * (open - closed))
  {
  }
}
