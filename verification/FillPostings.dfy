/** What the postings of module MarginExec add up to, and when the ledger accepts them. */
module FillPostings {
  import opened Common
  import opened Ledger
  import opened LedgerRuns
  import opened MarginExec

  /** A balanced posting under a new key: accepted when every prefix leaves user money non-negative. */
  lemma PostAccepted(s: State, key: Key, entries: seq<Entry>)
    requires Sound(s) && key != Blank && key !in s.keys
    requires entries != [] && WellFormed(entries) && Balanced(entries)
    requires forall i :: 0 <= i < |entries| ==> entries[i].account in s.accounts || Lazy(entries[i].account)
    requires forall n, a :: 0 <= n <= |entries| && NonNegative(a) ==> Balance(s.rows, a) + Delta(entries[..n], a) >= 0
    ensures PostTransaction(s, key, entries).1.Ok?
  {
    AppendSucceeds(s.rows, TxFor(s, key), entries);
  }

  /** What a posting under a new key leaves behind. */
  lemma PostEffect(s: State, key: Key, entries: seq<Entry>)
    requires Sound(s) && key !in s.keys && PostTransaction(s, key, entries).1.Ok?
    ensures var t := PostTransaction(s, key, entries).0;
            && Sound(t) && s.accounts <= t.accounts && t.keys.Keys == s.keys.Keys + {key}
            && forall a :: Balance(t.rows, a) == Balance(s.rows, a) + Delta(entries, a)
  {
    ApplySound(s, TxFor(s, key), entries);
  }

  lemma MoveDelta(user: nat, delta: int)
    ensures WellFormed(MoveEntries(user, delta)) && Balanced(MoveEntries(user, delta))
    ensures forall a :: Delta(MoveEntries(user, delta), a)
                        == if a == Margin(user, EVENT) then delta else if a == Cash(user) then -delta else 0
  {
    PairBalanced(Cash(user), Margin(user, EVENT), delta);
    PairBalanced(Margin(user, EVENT), Cash(user), -delta);
  }

  /**
    Moving `delta` between CASH and MARGIN under a new key: both balances move by it and nothing
    else does; refused exactly when the paying account is short.
   */
  lemma MoveStep(s: State, key: Key, user: nat, delta: int)
    requires Sound(s) && key != Blank && key !in s.keys && Cash(user) in s.accounts
    ensures var (t, r) := LedgerStep(s, key, MoveEntries(user, delta));
            && (r.Ok? <==> -Balance(s.rows, Margin(user, EVENT)) <= delta <= Balance(s.rows, Cash(user)))
            && (r.Err? ==> t == s && r.error == InsufficientFunds)
            && (r.Ok? ==>
                  && Sound(t) && s.accounts <= t.accounts
                  && s.keys.Keys <= t.keys.Keys <= s.keys.Keys + {key}
                  && forall a :: Balance(t.rows, a) == Balance(s.rows, a)
                                 + if a == Margin(user, EVENT) then delta else if a == Cash(user) then -delta else 0)
  {
    var entries := MoveEntries(user, delta);
    MoveDelta(user, delta);
    BalanceIsFold(s.rows, Cash(user));
    BalanceIsFold(s.rows, Margin(user, EVENT));
    if delta != 0 {
      var payer, payee := if delta > 0 then Cash(user)
          else Margin(user, EVENT), if delta > 0 then Margin(user, EVENT) else Cash(user);
      assert entries == [Entry(payer, DR, Abs(delta)), Entry(payee, CR, Abs(delta))];
      var codes := AccountsOf(entries);
      assert codes <= Ensure(s.accounts, codes);
      if Abs(delta) <= Balance(s.rows, payer) {
        PairSucceeds(s.rows, TxFor(s, key), payer, payee, Abs(delta));
        PostEffect(s, key, entries);
      } else {
        AppendRefusesOverdraft(s.rows, TxFor(s, key), entries, payer);
        AppendError(s.rows, TxFor(s, key), entries);
      }
    }
  }

  // ---------------------------------------------------------------- fill entries

  predicate Listed(parties: seq<FillParty>, a: Account) {
    exists k :: 0 <= k < |parties| && (a == Margin(parties[k].user, EVENT) || a == Cash(parties[k].user))
  }

  lemma ListedPrefix(parties: seq<FillParty>, n: nat, a: Account)
    requires n <= |parties|
    ensures Listed(parties[..n], a) ==> Listed(parties, a)
  {
    if Listed(parties[..n], a) {
      var k :| 0 <= k < n && (a == Margin(parties[..n][k].user, EVENT) || a == Cash(parties[..n][k].user));
      assert parties[k] == parties[..n][k];
    }
  }

  /** An account is a party's when it is one of the earlier parties' or the last one's. */
  lemma ListedLast(parties: seq<FillParty>, a: Account)
    requires parties != []
    ensures var n := |parties| - 1;
            Listed(parties, a)
            <==> Listed(parties[..n], a) || a == Margin(parties[n].user, EVENT) || a == Cash(parties[n].user)
  {
    var n := |parties| - 1;
    ListedPrefix(parties, n, a);
    if Listed(parties, a) {
      var k :| 0 <= k < |parties| && (a == Margin(parties[k].user, EVENT) || a == Cash(parties[k].user));
      if k < n { assert parties[..n][k] == parties[k]; }
    }
  }

  lemma {:induction false} TouchedOnce(parties: seq<FillParty>)
    ensures Distinct(Touched(parties))
    ensures forall user :: Margin(user, EVENT) in Touched(parties) <==> Cash(user) in Touched(parties)
    ensures forall a :: a in Touched(parties) <==> Listed(parties, a)
  {
    if parties != [] {
      var n := |parties| - 1;
      TouchedOnce(parties[..n]);
      TouchedMore(Touched(parties[..n]), parties[n].user);
      forall a ensures a in Touched(parties) <==> Listed(parties, a) { ListedLast(parties, a); }
    }
  }

  /** The accounts with one more user's, who is new exactly when the user's MARGIN account is. */
  lemma TouchedMore(before: seq<Account>, user: nat)
    requires Distinct(before) && forall u :: Margin(u, EVENT) in before <==> Cash(u) in before
    ensures var after := if Margin(user, EVENT) in before then before else before + [Margin(user, EVENT), Cash(user)];
            && Distinct(after) && (forall u :: Margin(u, EVENT) in after <==> Cash(u) in after)
            && forall a :: a in after <==> a in before || a == Margin(user, EVENT) || a == Cash(user)
  {
  }

  lemma {:induction false} UntouchedNet(parties: seq<FillParty>, a: Account)
    requires !Listed(parties, a)
    ensures NetOf(parties, a) == 0
  {
    if parties != [] {
      var n := |parties| - 1;
      assert a != Margin(parties[n].user, EVENT) && a != Cash(parties[n].user);
      ListedPrefix(parties, n, a);
      UntouchedNet(parties[..n], a);
    }
  }

  /** The net entries name each account at most once, and move it by its net. */
  lemma {:induction false} NetEntriesDelta(parties: seq<FillParty>, accounts: seq<Account>, a: Account)
    requires Distinct(accounts)
    ensures WellFormed(NetEntries(parties, accounts))
    ensures Delta(NetEntries(parties, accounts), a) == if a in accounts then NetOf(parties, a) else 0
    ensures forall n :: 0 <= n <= |NetEntries(parties, accounts)| ==>
                          Delta(NetEntries(parties, accounts)[..n], a) == 0
                          || Delta(NetEntries(parties, accounts)[..n], a) == Delta(NetEntries(parties, accounts), a)
    ensures forall i :: 0 <= i < |NetEntries(parties, accounts)| ==>
                        NetEntries(parties, accounts)[i].account in accounts
  {
    if accounts != [] {
      var m := |accounts| - 1;
      var before, after := NetEntries(parties, accounts[..m]), NetEntries(parties, accounts);
      NetEntriesDelta(parties, accounts[..m], a);
      assert accounts[m] !in accounts[..m];
      assert accounts == accounts[..m] + [accounts[m]];
      if |after| > |before| {
        assert after[..|before|] == before;
        forall n | 0 <= n <= |after|
          ensures Delta(after[..n], a) == 0 || Delta(after[..n], a) == Delta(after, a)
        {
          if n <= |before| {
            assert after[..n] == before[..n];
            if a == accounts[m] { assert Delta(before, a) == 0; }
          } else {
            assert after[..n] == after;
          }
        }
      } else {
        assert after == before;
      }
    }
  }

  lemma OneTotal(e: Entry)
    ensures TotalOf([e]) == e.Signed()
  {
    assert [e][..0] == [];
  }

  function NetTotal(parties: seq<FillParty>, accounts: seq<Account>): int {
    if accounts == [] then 0
    else NetTotal(parties, accounts[..|accounts| - 1]) + NetOf(parties, accounts[|accounts| - 1])
  }

  lemma {:induction false} NetEntriesTotal(parties: seq<FillParty>, accounts: seq<Account>)
    ensures TotalOf(NetEntries(parties, accounts)) == NetTotal(parties, accounts)
  {
    if accounts != [] {
      var m := |accounts| - 1;
      var net := NetOf(parties, accounts[m]);
      NetEntriesTotal(parties, accounts[..m]);
      var last := if net > 0 then [Entry(accounts[m], CR, net)] else if net < 0 then [Entry(accounts[m], DR, -net)]
          else [];
      TotalConcat(NetEntries(parties, accounts[..m]), last);
      if net != 0 { OneTotal(last[0]); }
    }
  }

  /** What the parties gain in total: premiums received less premiums paid. */
  function PremiumTotal(parties: seq<FillParty>): int {
    if parties == [] then 0
    else PremiumTotal(parties[..|parties| - 1]) + parties[|parties| - 1].premiumIn - parties[|parties| - 1].premiumOut
  }

  function PartyTotal(p: FillParty, accounts: seq<Account>): int {
    if accounts == [] then 0 else PartyTotal(p, accounts[..|accounts| - 1]) + PartyDelta(p, accounts[|accounts| - 1])
  }

  lemma {:induction false} PartyTotalOf(p: FillParty, accounts: seq<Account>)
    requires Distinct(accounts)
    ensures PartyTotal(p, accounts)
            == (if Margin(p.user, EVENT) in accounts then p.marginDelta else 0)
               + (if Cash(p.user) in accounts then p.premiumIn - p.premiumOut - p.marginDelta else 0)
  {
    if accounts != [] {
      var m := |accounts| - 1;
      PartyTotalOf(p, accounts[..m]);
      assert accounts[m] !in accounts[..m];
      assert accounts == accounts[..m] + [accounts[m]];
    }
  }

  lemma {:induction false} NetTotalSplit(parties: seq<FillParty>, accounts: seq<Account>)
    requires parties != []
    ensures NetTotal(parties, accounts)
            == NetTotal(parties[..|parties| - 1], accounts) + PartyTotal(parties[|parties| - 1], accounts)
  {
    if accounts != [] { NetTotalSplit(parties, accounts[..|accounts| - 1]); }
  }

  lemma NetTotalExtend(parties: seq<FillParty>, accounts: seq<Account>, a: Account, b: Account)
    ensures NetTotal(parties, accounts + [a, b]) == NetTotal(parties, accounts) + NetOf(parties, a) + NetOf(parties, b)
  {
    assert (accounts + [a, b])[..|accounts| + 1] == accounts + [a];
    assert (accounts + [a])[..|accounts|] == accounts;
  }

  /** However many parties, and however often one user appears, the entries total the net premium. */
  lemma {:induction false} EntriesTotalPremium(parties: seq<FillParty>)
    ensures NetTotal(parties, Touched(parties)) == PremiumTotal(parties)
  {
    if parties != [] {
      var n := |parties| - 1;
      var p, rest := parties[n], parties[..n];
      var before, after := Touched(rest), Touched(parties);
      EntriesTotalPremium(rest);
      TouchedOnce(rest);
      TouchedOnce(parties);
      NetTotalSplit(parties, after);
      PartyTotalOf(p, after);
      if after != before {
        assert !Listed(rest, Margin(p.user, EVENT)) && !Listed(rest, Cash(p.user));
        UntouchedNet(rest, Margin(p.user, EVENT));
        UntouchedNet(rest, Cash(p.user));
        NetTotalExtend(rest, before, Margin(p.user, EVENT), Cash(p.user));
      }
      assert Margin(p.user, EVENT) in after;
    }
  }

  lemma ClearingDelta(premium: int, a: Account)
    ensures WellFormed(ClearingPair(premium)) && TotalOf(ClearingPair(premium)) == 0
            && Delta(ClearingPair(premium), a) == 0
    ensures a != Clearing(EVENT) ==>
            forall n :: 0 <= n <= |ClearingPair(premium)| ==> Delta(ClearingPair(premium)[..n], a) == 0
  {
    var pair := ClearingPair(premium);
    if premium > 0 {
      assert pair[..2] == pair && pair[..1] == [pair[0]] && pair[..0] == [] && [pair[0]][..0] == [];
      OneTotal(pair[0]);
      assert Delta([pair[0]], a) == if a == Clearing(EVENT) then premium else 0;
    }
  }

  lemma {:induction false} TotalConcat(a: seq<Entry>, b: seq<Entry>)
    ensures TotalOf(a + b) == TotalOf(a) + TotalOf(b)
  {
    if b == [] {
      assert a + b == a;
    } else {
      TotalConcat(a, b[..|b| - 1]);
      assert (a + b)[..|a + b| - 1] == a + b[..|b| - 1];
    }
  }

  lemma PrefixOfTwo(nets: seq<Entry>, pair: seq<Entry>, a: Account, n: nat, net: int)
    requires n <= |nets + pair|
    requires forall k :: 0 <= k <= |nets| ==> Delta(nets[..k], a) == 0 || Delta(nets[..k], a) == net
    requires Delta(nets, a) == net
    requires forall k :: 0 <= k <= |pair| ==> Delta(pair[..k], a) == 0
    ensures Delta((nets + pair)[..n], a) == 0 || Delta((nets + pair)[..n], a) == net
  {
    if n <= |nets| {
      assert (nets + pair)[..n] == nets[..n];
    } else {
      assert (nets + pair)[..n] == nets + pair[..n - |nets|];
      DeltaConcat(nets, pair[..n - |nets|], a);
    }
  }

  /**
    The entries of a fill whose premiums net to zero: balanced, each user account moved once by
    its net, CLEARING and everyone else not at all.
   */
  lemma FillEntriesEffect(parties: seq<FillParty>, premium: int, a: Account)
    requires PremiumTotal(parties) == 0
    ensures FillEntries(parties, premium).Ok?
    ensures var entries := FillEntries(parties, premium).value;
            && WellFormed(entries) && Balanced(entries)
            && Delta(entries, a) == NetOf(parties, a)
            && (NonNegative(a) ==> forall n :: 0 <= n <= |entries| ==>
                                                 Delta(entries[..n], a) == 0 || Delta(entries[..n], a)
                                                     == NetOf(parties, a))
            && (forall i :: 0 <= i < |entries| ==>
                            Listed(parties, entries[i].account) || entries[i].account == Clearing(EVENT))
  {
    var nets, pair := NetEntries(parties, Touched(parties)), ClearingPair(premium);
    TouchedOnce(parties);
    NetEntriesDelta(parties, Touched(parties), a);
    NetEntriesTotal(parties, Touched(parties));
    EntriesTotalPremium(parties);
    ClearingDelta(premium, a);
    TotalConcat(nets, pair);
    DeltaConcat(nets, pair, a);
    if !Listed(parties, a) { UntouchedNet(parties, a); }
    if NonNegative(a) {
      forall n | 0 <= n <= |nets + pair|
        ensures Delta((nets + pair)[..n], a) == 0 || Delta((nets + pair)[..n], a) == NetOf(parties, a)
      {
        PrefixOfTwo(nets, pair, a, n, NetOf(parties, a));
      }
    }
  }

  /** A fill whose premiums do not net to zero is refused. */
  lemma FillEntriesRefused(parties: seq<FillParty>, premium: int)
    ensures FillEntries(parties, premium).Ok? <==> PremiumTotal(parties) == 0
  {
    NetEntriesTotal(parties, Touched(parties));
    EntriesTotalPremium(parties);
  }

  /** What entries put on one side of an account. */
  function Gross(entries: seq<Entry>, a: Account, direction: Direction): int {
    if entries == [] then 0
    else
      var e := entries[|entries| - 1];
      Gross(entries[..|entries| - 1], a, direction) + if e.account == a && e.direction == direction then e.amount else 0
  }

  lemma {:induction false} GrossConcat(a: seq<Entry>, b: seq<Entry>, c: Account, direction: Direction)
    ensures Gross(a + b, c, direction) == Gross(a, c, direction) + Gross(b, c, direction)
  {
    if b == [] {
      assert a + b == a;
    } else {
      GrossConcat(a, b[..|b| - 1], c, direction);
      assert (a + b)[..|a + b| - 1] == a + b[..|b| - 1];
    }
  }

  lemma {:induction false} NoGross(entries: seq<Entry>, a: Account, direction: Direction)
    requires forall i :: 0 <= i < |entries| ==> entries[i].account != a
    ensures Gross(entries, a, direction) == 0
  {
    if entries != [] { NoGross(entries[..|entries| - 1], a, direction); }
  }

  lemma PairGross(premium: int, direction: Direction)
    requires direction != Unknown
    ensures Gross(ClearingPair(premium), Clearing(EVENT), direction) == Max(premium, 0)
  {
    var pair := ClearingPair(premium);
    if premium > 0 {
      assert pair[..1] == [pair[0]] && pair[..1][..0] == [];
      assert Gross(pair[..1], Clearing(EVENT), direction) == if direction == CR then premium else 0;
    }
  }

  /** The whole premium of a fill goes through the event's CLEARING account, in and out. */
  lemma PremiumGoesThroughClearing(parties: seq<FillParty>, premium: int)
    requires FillEntries(parties, premium).Ok?
    ensures var entries := FillEntries(parties, premium).value;
            Gross(entries, Clearing(EVENT), CR) == Max(premium, 0) == Gross(entries, Clearing(EVENT), DR)
  {
    var nets := NetEntries(parties, Touched(parties));
    TouchedOnce(parties);
    forall i | 0 <= i < |nets| ensures nets[i].account != Clearing(EVENT) {
      NetEntriesDelta(parties, Touched(parties), Clearing(EVENT));
    }
    NoGross(nets, Clearing(EVENT), CR);
    NoGross(nets, Clearing(EVENT), DR);
    GrossConcat(nets, ClearingPair(premium), Clearing(EVENT), CR);
    GrossConcat(nets, ClearingPair(premium), Clearing(EVENT), DR);
    PairGross(premium, CR);
    PairGross(premium, DR);
  }
}
