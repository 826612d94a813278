/**
  Settlement from any quiet state the margin service can reach: it never fails, pays every
  account exactly what the outcome says, keeps CLEARING funded, and can be resumed after any
  number of crashes.
 */
module SettlementRuns {
  import opened Common
  import opened Payoffs
  import opened WorstCase
  import opened Ledger
  import opened MarginExec
  import opened MarginRuns
  import opened Settlement

  // ---------------------------------------------------------------- the nets cancel

  /** What the first `n` accounts receive at `x`. */
  function NetOfAll(book: EventBook, accts: seq<Acct>, x: Outcome, n: nat): int
    requires Sized(book, accts) && n <= |accts|
  {
    if n == 0 then 0 else NetOfAll(book, accts, x, n - 1) + SettlementOf(book, accts[n - 1].net, x)
  }

  /** The open interest of the first `k` contracts, each times its value. */
  function ValueOfInterest(book: EventBook, accts: seq<Acct>, v: seq<int>, n: nat, k: nat): int
    requires Sized(book, accts) && n <= |accts| && k <= |book.instruments| == |v|
  {
    if k == 0 then 0 else ValueOfInterest(book, accts, v, n, k - 1) + OpenInterest(accts, k - 1, n) * v[k - 1]
  }

  lemma {:induction false} AddAccount(book: EventBook, accts: seq<Acct>, v: seq<int>, n: nat, k: nat)
    requires Sized(book, accts) && 0 < n <= |accts| && k <= |book.instruments| == |v|
    ensures ValueOfInterest(book, accts, v, n, k)
            == ValueOfInterest(book, accts, v, n - 1, k) + Dot(accts[n - 1].net, v, k)
  {
    if k > 0 {
      AddAccount(book, accts, v, n, k - 1);
      var before, q := OpenInterest(accts, k - 1, n - 1), accts[n - 1].net[k - 1];
      assert (before + q) * v[k - 1] == before * v[k - 1] + q * v[k - 1];
    }
  }

  lemma {:induction false} NoAccounts(book: EventBook, accts: seq<Acct>, v: seq<int>, k: nat)
    requires Sized(book, accts) && k <= |book.instruments| == |v|
    ensures ValueOfInterest(book, accts, v, 0, k) == 0
  {
    if k > 0 { NoAccounts(book, accts, v, k - 1); }
  }

  /** Summing over accounts is summing over contracts. */
  lemma {:induction false} NetsByContract(book: EventBook, accts: seq<Acct>, x: Outcome, n: nat)
    requires Sized(book, accts) && n <= |accts|
    ensures NetOfAll(book, accts, x, n)
            == ValueOfInterest(book, accts, Values(book, AtOutcome(x)), n, |book.instruments|)
  {
    var v := Values(book, AtOutcome(x));
    if n == 0 {
      NoAccounts(book, accts, v, |book.instruments|);
    } else {
      NetsByContract(book, accts, x, n - 1);
      AddAccount(book, accts, v, n, |book.instruments|);
    }
  }

  lemma {:induction false} FlatInterestIsWorthNothing(book: EventBook, accts: seq<Acct>, v: seq<int>, k: nat)
    requires Sized(book, accts) && FlatInterest(book, accts) && k <= |book.instruments| == |v|
    ensures ValueOfInterest(book, accts, v, |accts|, k) == 0
  {
    if k > 0 { FlatInterestIsWorthNothing(book, accts, v, k - 1); }
  }

  /** Open interest nets to zero, so the payments do, wherever the event resolves. */
  lemma NetsCancel(book: EventBook, accts: seq<Acct>, x: Outcome)
    requires Sized(book, accts) && FlatInterest(book, accts)
    ensures NetOfAll(book, accts, x, |accts|) == 0
  {
    NetsByContract(book, accts, x, |accts|);
    FlatInterestIsWorthNothing(book, accts, Values(book, AtOutcome(x)), |book.instruments|);
  }

  // ---------------------------------------------------------------- the planned lines

  /** The line is its account's, at the account's posted margin and its net at `x`. */
  predicate LineOf(book: EventBook, accts: seq<Acct>, x: Outcome, l: Line)
    requires Sized(book, accts)
  {
    l.user < |accts| && l.margin == accts[l.user].posted && l.net == SettlementOf(book, accts[l.user].net, x)
  }

  /** One fresh line per listed account, each as planned. */
  predicate LinesMatch(book: EventBook, accts: seq<Acct>, x: Outcome, lines: seq<Line>)
    requires Sized(book, accts)
  {
    && (forall i :: 0 <= i < |lines| ==> LineOf(book, accts, x, lines[i]))
    && (forall i, j :: 0 <= i < j < |lines| ==> lines[i].user != lines[j].user)
  }

  predicate Planned(lines: seq<Line>, user: nat) { exists i :: 0 <= i < |lines| && lines[i].user == user }

  lemma ClosedOwesNothing(book: EventBook, a: Acct, x: Outcome)
    requires |a.net| == |book.instruments| && !Open(a)
    ensures SettlementOf(book, a.net, x) == 0
  {
    DotZeros(a.net, Values(book, AtOutcome(x)), |a.net|);
  }

  /** Adding a line for a user not listed yet. */
  lemma LineAdded(book: EventBook, accts: seq<Acct>, x: Outcome, lines: seq<Line>, l: Line)
    requires Sized(book, accts) && LinesMatch(book, accts, x, lines) && LineOf(book, accts, x, l)
             && !Planned(lines, l.user)
    ensures LinesMatch(book, accts, x, lines + [l])
    ensures LineTotal(lines + [l]) == LineTotal(lines) + l.net
    ensures forall u: nat :: Planned(lines + [l], u) <==> Planned(lines, u) || u == l.user
  {
    var all := lines + [l];
    assert all[..|lines|] == lines;
    forall u: nat ensures Planned(all, u) <==> Planned(lines, u) || u == l.user {
      PlannedEither(lines, [l], u);
      assert Planned([l], u) <==> u == l.user by { assert [l][0] == l; }
    }
  }

  lemma PlannedEither(a: seq<Line>, b: seq<Line>, u: nat)
    ensures Planned(a + b, u) <==> Planned(a, u) || Planned(b, u)
  {
    if Planned(a, u) {
      var i :| 0 <= i < |a| && a[i].user == u;
      assert (a + b)[i].user == u;
    }
    if Planned(b, u) {
      var i :| 0 <= i < |b| && b[i].user == u;
      assert (a + b)[|a| + i].user == u;
    }
    if Planned(a + b, u) {
      var i :| 0 <= i < |a + b| && (a + b)[i].user == u;
      if i >= |a| { assert b[i - |a|].user == u; }
    }
  }

  /** Fresh lines for users below `n`, one for each account with a position, with all their nets. */
  ghost predicate PositionPlan(book: EventBook, accts: seq<Acct>, x: Outcome, lines: seq<Line>, n: nat)
    requires Sized(book, accts) && n <= |accts|
  {
    && LinesMatch(book, accts, x, lines)
    && (forall u: nat :: Planned(lines, u) <==> u < n && Open(accts[u]))
    && (forall i :: 0 <= i < |lines| ==> !lines[i].posted)
    && LineTotal(lines) == NetOfAll(book, accts, x, n)
  }

  lemma PositionPlanStep(book: EventBook, accts: seq<Acct>, x: Outcome, lines: seq<Line>, n: nat, l: Line)
    requires Sized(book, accts) && n < |accts| && PositionPlan(book, accts, x, lines, n)
    requires LineOf(book, accts, x, l) && l.user == n && !l.posted && Open(accts[n])
    ensures PositionPlan(book, accts, x, lines + [l], n + 1)
  {
    LineAdded(book, accts, x, lines, l);
  }

  lemma PositionPlanSkip(book: EventBook, accts: seq<Acct>, x: Outcome, lines: seq<Line>, n: nat)
    requires Sized(book, accts) && n < |accts| && PositionPlan(book, accts, x, lines, n) && !Open(accts[n])
    ensures PositionPlan(book, accts, x, lines, n + 1)
  {
    ClosedOwesNothing(book, accts[n], x);
  }

  lemma {:induction false} PositionLinesFacts(book: EventBook, accts: seq<Acct>, x: Outcome, n: nat)
    requires Sized(book, accts) && n <= |accts|
    ensures PositionPlan(book, accts, x, PositionLines(book, accts, x, n), n)
  {
    if n > 0 {
      PositionLinesFacts(book, accts, x, n - 1);
      var before, a := PositionLines(book, accts, x, n - 1), accts[n - 1];
      if Open(a) {
        PositionPlanStep(book, accts, x, before, n - 1, Line(n - 1, SettlementOf(book, a.net, x), a.posted, false));
      } else {
        PositionPlanSkip(book, accts, x, before, n - 1);
        assert PositionLines(book, accts, x, n) == before;
      }
    }
  }

  /** An account that holds margin but no position. */
  predicate OnlyMargin(a: Acct) { !Open(a) && a.posted > 0 }

  /** Fresh lines for users below `n`, one for each `OnlyMargin` account, none with a net. */
  ghost predicate MarginPlan(book: EventBook, accts: seq<Acct>, x: Outcome, lines: seq<Line>, n: nat)
    requires Sized(book, accts) && n <= |accts|
  {
    && LinesMatch(book, accts, x, lines)
    && (forall u: nat :: Planned(lines, u) <==> u < n && OnlyMargin(accts[u]))
    && (forall i :: 0 <= i < |lines| ==> !lines[i].posted && lines[i].net == 0)
  }

  lemma MarginPlanStep(book: EventBook, accts: seq<Acct>, x: Outcome, lines: seq<Line>, n: nat, l: Line)
    requires Sized(book, accts) && n < |accts| && MarginPlan(book, accts, x, lines, n)
    requires LineOf(book, accts, x, l) && l.user == n && l.net == 0 && !l.posted && OnlyMargin(accts[n])
    ensures MarginPlan(book, accts, x, lines + [l], n + 1)
  {
    LineAdded(book, accts, x, lines, l);
  }

  lemma {:induction false} MarginLinesFacts(book: EventBook, accts: seq<Acct>, x: Outcome, n: nat)
    requires Sized(book, accts) && n <= |accts|
    ensures MarginPlan(book, accts, x, MarginLines(accts, n), n)
  {
    if n > 0 {
      MarginLinesFacts(book, accts, x, n - 1);
      var before, a := MarginLines(accts, n - 1), accts[n - 1];
      if OnlyMargin(a) {
        ClosedOwesNothing(book, a, x);
        MarginPlanStep(book, accts, x, before, n - 1, Line(n - 1, 0, a.posted, false));
      } else {
        assert MarginLines(accts, n) == before;
      }
    }
  }

  lemma {:induction false} NoNetAppend(lines: seq<Line>, more: seq<Line>)
    requires forall i :: 0 <= i < |more| ==> more[i].net == 0
    ensures LineTotal(lines + more) == LineTotal(lines)
  {
    if more == [] {
      assert lines + more == lines;
    } else {
      NoNetAppend(lines, more[..|more| - 1]);
      assert (lines + more)[..|lines + more| - 1] == lines + more[..|more| - 1];
    }
  }

  lemma LinesJoined(book: EventBook, accts: seq<Acct>, x: Outcome, a: seq<Line>, b: seq<Line>)
    requires Sized(book, accts) && LinesMatch(book, accts, x, a) && LinesMatch(book, accts, x, b)
    requires forall u: nat :: !(Planned(a, u) && Planned(b, u))
    ensures LinesMatch(book, accts, x, a + b)
  {
    var all := a + b;
    forall i, j | 0 <= i < j < |all| ensures all[i].user != all[j].user {
      if i < |a| <= j {
        assert Planned(a, a[i].user);
        if all[j].user == a[i].user { assert b[j - |a|].user == a[i].user && Planned(b, a[i].user); }
      }
    }
  }

  /** One line per account that has anything to settle, and their nets are all the nets there are. */
  lemma PlanFacts(book: EventBook, accts: seq<Acct>, x: Outcome)
    requires Sized(book, accts)
    ensures var lines := PlanLines(book, accts, x);
            && LinesMatch(book, accts, x, lines)
            && (forall i :: 0 <= i < |lines| ==> !lines[i].posted)
            && LineTotal(lines) == NetOfAll(book, accts, x, |accts|)
            && LineTotal(PositionLines(book, accts, x, |accts|)) == NetOfAll(book, accts, x, |accts|)
            && forall u: nat :: Planned(lines, u) <==> u < |accts| && (Open(accts[u]) || accts[u].posted > 0)
  {
    var first, second := PositionLines(book, accts, x, |accts|), MarginLines(accts, |accts|);
    PositionLinesFacts(book, accts, x, |accts|);
    MarginLinesFacts(book, accts, x, |accts|);
    NoNetAppend(first, second);
    LinesJoined(book, accts, x, first, second);
    forall u: nat ensures Planned(first + second, u) <==> u < |accts| && (Open(accts[u]) || accts[u].posted > 0) {
      PlannedEither(first, second, u);
    }
  }

  // ---------------------------------------------------------------- one line's posting

  lemma OneMore(entries: seq<Entry>, n: nat, a: Account)
    requires n < |entries|
    ensures Delta(entries[..n + 1], a)
            == Delta(entries[..n], a) + if entries[n].account == a then entries[n].Signed() else 0
    ensures TotalOf(entries[..n + 1]) == TotalOf(entries[..n]) + entries[n].Signed()
  {
    assert entries[..n + 1][..n] == entries[..n];
  }

  /** At most three entries on distinct accounts: what they add up to, and every prefix of it. */
  lemma FewEntries(entries: seq<Entry>, a: Account)
    requires |entries| <= 3
    requires forall i, j :: 0 <= i < j < |entries| ==> entries[i].account != entries[j].account
    ensures TotalOf(entries) == (if |entries| > 0 then entries[0].Signed() else 0)
                                + (if |entries| > 1 then entries[1].Signed() else 0)
                                + (if |entries| > 2 then entries[2].Signed() else 0)
    ensures Delta(entries, a) == if |entries| > 0 && entries[0].account == a then entries[0].Signed()
                                 else if |entries| > 1 && entries[1].account == a then entries[1].Signed()
                                 else if |entries| > 2 && entries[2].account == a then entries[2].Signed()
                                 else 0
    ensures forall n :: 0 <= n <= |entries| ==>
                        Delta(entries[..n], a) == 0 || Delta(entries[..n], a) == Delta(entries, a)
  {
    assert entries[..|entries|] == entries && entries[..0] == [];
    if |entries| > 0 { OneMore(entries, 0, a); }
    if |entries| > 1 { OneMore(entries, 1, a); }
    if |entries| > 2 { OneMore(entries, 2, a); }
  }

  /** A line that can be posted: the margin covers what is owed. */
  predicate Covers(l: Line) { l.margin >= 0 && -l.net <= l.margin }

  function LineAmount(l: Line, a: Account): int {
    if a == Margin(l.user, EVENT) then -l.margin
    else if a == Clearing(EVENT) then -l.net
    else if a == Cash(l.user) then l.margin + l.net
    else 0
  }

  /** A line's posting releases its margin, pays or collects its net, and credits the rest. */
  lemma LineDelta(l: Line, a: Account)
    requires Covers(l)
    ensures SettlementEntries(l.user, l.margin, l.net).Ok?
    ensures var entries := SettlementEntries(l.user, l.margin, l.net).value;
            && WellFormed(entries) && Balanced(entries)
            && (entries == [] <==> l.margin == 0 && l.net == 0)
            && Delta(entries, a) == LineAmount(l, a)
            && (forall n :: 0 <= n <= |entries| ==>
                            Delta(entries[..n], a) == 0 || Delta(entries[..n], a) == LineAmount(l, a))
            && forall i :: 0 <= i < |entries| ==> entries[i].account == Cash(l.user) || Lazy(entries[i].account)
  {
    FewEntries(SettlementEntries(l.user, l.margin, l.net).value, a);
  }
}
