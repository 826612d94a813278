/** The reconciler's passes: a drift is corrected at its second sighting with the same balance. */
module Reconciler {
  import opened Ledger
  import opened LedgerRuns
  import opened MarginExec
  import opened FillPostings
  import opened MarginCrash

  predicate Drifting(w: World, user: nat)
    requires user < |w.accts|
  {
    Drift(w, user) != 0
  }

  /** The drift was seen before at this balance. */
  predicate Confirmed(w: World, suspects: map<nat, int>, user: nat)
    requires user < |w.accts|
  {
    Drifting(w, user) && user in suspects && suspects[user] == Balance(w.ledger.rows, Margin(user, EVENT))
  }

  /** One account's turn in a pass over the snapshot `first`: corrected if its drift is confirmed. */
  function PassTurn(first: World, before: World, suspects: map<nat, int>, user: nat): (t: World)
    requires user < |first.accts|
    ensures t.accts == before.accts
  {
    if Confirmed(first, suspects, user) then Execute(before, PlanReconcile(before, Reconcile(user))).0 else before
  }

  /** The state after the first `n` accounts of the pass. */
  function PassUpTo(first: World, w: World, suspects: map<nat, int>, n: nat): (t: World)
    requires n <= |first.accts|
    ensures t.accts == w.accts
  {
    if n == 0 then w else PassTurn(first, PassUpTo(first, w, suspects, n - 1), suspects, n - 1)
  }

  /** The drifts seen for the first time in this pass, with the balance seen. */
  function SuspectsAfter(first: World, suspects: map<nat, int>): map<nat, int> {
    map u: nat | 0 <= u < |first.accts| && Drifting(first, u) && !Confirmed(first, suspects, u)
      :: Balance(first.ledger.rows, Margin(u, EVENT))
  }

  /** The pass after `n` accounts: what is suspected, and which drifts were found. */
  ghost predicate Sighted(first: World, suspects: map<nat, int>, n: nat, next: map<nat, int>, found: seq<nat>) {
    && n <= |first.accts|
    && (forall v: nat :: v in found <==> v < n && Drifting(first, v))
    && (forall v: nat :: v in next <==>
                           if v < n && Drifting(first, v) then !Confirmed(first, suspects, v) else v in suspects)
    && (forall v: nat :: v in next ==>
                           next[v] == if v < n && Drifting(first, v) then Balance(first.ledger.rows, Margin(v, EVENT))
                               else suspects[v])
  }

  /** One account further: a drift is remembered at its balance, or forgotten once confirmed. */
  lemma SightedStep(first: World, suspects: map<nat, int>, u: nat, next: map<nat, int>, found: seq<nat>)
    requires Sighted(first, suspects, u, next, found) && u < |first.accts|
    ensures var balance := Balance(first.ledger.rows, Margin(u, EVENT));
            if !Drifting(first, u) then Sighted(first, suspects, u + 1, next, found)
            else if u !in next || next[u] != balance then
              !Confirmed(first, suspects, u) && Sighted(first, suspects, u + 1, next[u := balance], found + [u])
            else
              Confirmed(first, suspects, u) && Sighted(first, suspects, u + 1, next - {u}, found + [u])
  {
  }

  lemma SightedAll(first: World, suspects: map<nat, int>, next: map<nat, int>, found: seq<nat>)
    requires Sighted(first, suspects, |first.accts|, next, found)
    ensures (map v | v in next && v in found :: next[v]) == SuspectsAfter(first, suspects)
  {
  }

  // ---------------------------------------------------------------- what a pass does

  lemma MoveSparesOthers(s: State, key: Key, user: nat, delta: int)
    requires Sound(s)
    ensures var t := LedgerStep(s, key, MoveEntries(user, delta)).0;
            && Sound(t) && s.accounts <= t.accounts && s.keys.Keys <= t.keys.Keys <= s.keys.Keys + {key}
            && forall a :: a != Margin(user, EVENT) && a != Cash(user) ==> Balance(t.rows, a) == Balance(s.rows, a)
  {
    LedgerStepEffect(s, key, MoveEntries(user, delta));
    MoveDelta(user, delta);
  }

  lemma ReconcilingPosts(w: World, user: nat)
    requires user < |w.accts|
    ensures Reconciling(w, user)
            == if Drift(w, user) == 0 then w
               else w.(ledger := LedgerStep(w.ledger, KeyFor(w, user), MoveEntries(user, -Drift(w, user))).0)
  {
  }

  /** Correcting one account leaves every other account, its balances and its next key alone. */
  lemma ReconcileSparesOthers(w: World, user: nat)
    requires Sound(w.ledger) && user < |w.accts|
    ensures var t := Reconciling(w, user);
            && Sound(t.ledger) && t.accts == w.accts && w.ledger.accounts <= t.ledger.accounts
            && (forall a :: a != Margin(user, EVENT) && a != Cash(user) ==>
                            Balance(t.ledger.rows, a) == Balance(w.ledger.rows, a))
            && w.ledger.keys.Keys <= t.ledger.keys.Keys <= w.ledger.keys.Keys + {KeyFor(w, user)}
  {
    ReconcilingPosts(w, user);
    MoveSparesOthers(w.ledger, KeyFor(w, user), user, -Drift(w, user));
  }

  /** What the pass sees of one account: its tables, its balances and whether its next key is used. */
  predicate SameFor(w: World, t: World, user: nat)
    requires user < |w.accts|
  {
    && t.accts == w.accts
    && Balance(t.ledger.rows, Margin(user, EVENT)) == Balance(w.ledger.rows, Margin(user, EVENT))
    && Balance(t.ledger.rows, Cash(user)) == Balance(w.ledger.rows, Cash(user))
    && (KeyFor(w, user) in t.ledger.keys <==> KeyFor(w, user) in w.ledger.keys)
  }

  /** A correction the ledger will make: the key is new and the cash is there. */
  predicate Correctable(w: World, user: nat)
    requires user < |w.accts|
  {
    KeyFor(w, user) !in w.ledger.keys && -Drift(w, user) <= Balance(w.ledger.rows, Cash(user))
  }

  /** The pass turns to another account. */
  lemma OtherTurn(w: World, before: World, v: nat, user: nat)
    requires Sound(before.ledger) && user < |w.accts| && v < |w.accts| && v != user && SameFor(w, before, user)
    ensures var t := Reconciling(before, v);
            Sound(t.ledger) && SameFor(w, t, user) && Drift(t, user) == Drift(before, user)
                && before.ledger.accounts <= t.ledger.accounts
  {
    ReconcileSparesOthers(before, v);
  }

  /** An account already decided stays so. */
  lemma DecidedStays(w: World, before: World, v: nat, user: nat)
    requires Sound(before.ledger) && before.accts == w.accts && user < |w.accts| && v < |w.accts| && v != user
    ensures var t := Reconciling(before, v);
            Sound(t.ledger) && t.accts == w.accts && Drift(t, user) == Drift(before, user)
                && before.ledger.accounts <= t.ledger.accounts
  {
    ReconcileSparesOthers(before, v);
  }

  /** The pass turns to the account itself. */
  lemma OwnTurn(setup: Setup, w: World, before: World, user: nat)
    requires Reconcilable(setup, w, user) && Sound(before.ledger) && w.ledger.accounts <= before.ledger.accounts
    requires SameFor(w, before, user)
    ensures var t := Reconciling(before, user);
            && Sound(t.ledger) && t.accts == w.accts && before.ledger.accounts <= t.ledger.accounts
            && (Drift(w, user) != 0 ==> (Drift(t, user) == 0 <==> Correctable(w, user)))
  {
    ReconcileSparesOthers(before, user);
    assert KeyFor(before, user) == KeyFor(w, user);
    ReconcileClosesDrift(setup, before, user);
  }

  /** Before its turn, or without confirmation, an account is as it was; after it, its drift is decided. */
  ghost predicate Decided(w: World, suspects: map<nat, int>, t: World, n: nat, user: nat)
    requires user < |w.accts|
  {
    && Sound(t.ledger) && t.accts == w.accts && w.ledger.accounts <= t.ledger.accounts
    && (n <= user || !Confirmed(w, suspects, user) ==> SameFor(w, t, user))
    && (n > user && Confirmed(w, suspects, user) ==> (Drift(t, user) == 0 <==> Correctable(w, user)))
  }

  lemma TurnDecides(setup: Setup, w: World, suspects: map<nat, int>, before: World, v: nat, user: nat)
    requires Reconcilable(setup, w, user) && v < |w.accts| && Decided(w, suspects, before, v, user)
    ensures Decided(w, suspects, PassTurn(w, before, suspects, v), v + 1, user)
  {
    if Confirmed(w, suspects, v) {
      assert PassTurn(w, before, suspects, v) == Reconciling(before, v);
      if v == user {
        OwnTurn(setup, w, before, user);
      } else if v <= user || !Confirmed(w, suspects, user) {
        OtherTurn(w, before, v, user);
      } else {
        DecidedStays(w, before, v, user);
      }
    }
  }

  lemma {:induction false} PassDecides(setup: Setup, w: World, suspects: map<nat, int>, n: nat, user: nat)
    requires Reconcilable(setup, w, user) && n <= |w.accts|
    ensures Decided(w, suspects, PassUpTo(w, w, suspects, n), n, user)
  {
    if n > 0 {
      PassDecides(setup, w, suspects, n - 1, user);
      TurnDecides(setup, w, suspects, PassUpTo(w, w, suspects, n - 1), n - 1, user);
    }
  }

  /**
    A whole pass. A drift the last pass did not see, or saw at another balance, is left alone,
    so operations in flight are not disturbed. One that was confirmed is closed exactly when
    its key is new and the user's cash covers it.
   */
  lemma PassClosesConfirmedDrift(setup: Setup, w: World, suspects: map<nat, int>, user: nat)
    requires Reconcilable(setup, w, user)
    ensures var t := PassUpTo(w, w, suspects, |w.accts|);
            && (!Confirmed(w, suspects, user) ==>
                  && Drift(t, user) == Drift(w, user)
                  && Balance(t.ledger.rows, Cash(user)) == Balance(w.ledger.rows, Cash(user)))
            && (Confirmed(w, suspects, user) ==> (Drift(t, user) == 0 <==> Correctable(w, user)))
  {
    PassDecides(setup, w, suspects, |w.accts|, user);
  }

  /** So two passes with nothing in between close every correctable drift. */
  lemma TwoPassesCloseDrift(setup: Setup, w: World, suspects: map<nat, int>, user: nat)
    requires Reconcilable(setup, w, user) && Drifting(w, user) && Correctable(w, user)
    ensures var first := PassUpTo(w, w, suspects, |w.accts|);
            var second := PassUpTo(first, first, SuspectsAfter(w, suspects), |first.accts|);
            Drift(first, user) == 0 || Drift(second, user) == 0
  {
    PassDecides(setup, w, suspects, |w.accts|, user);
    var first := PassUpTo(w, w, suspects, |w.accts|);
    if !Confirmed(w, suspects, user) {
      assert Confirmed(first, SuspectsAfter(w, suspects), user);
      assert KeyFor(first, user) == KeyFor(w, user) && Correctable(first, user);
      PassDecides(setup, first, SuspectsAfter(w, suspects), |first.accts|, user);
    }
  }
}
