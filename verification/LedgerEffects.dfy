/**
  What one ledger operation does to every balance, said without the entries it posts, and when
  it is accepted.
 */
module LedgerEffects {
  import opened Ledger
  import opened LedgerRuns

  const WALLET := House("ASSET:HOUSE:WALLET")

  /** What `amount` moved from one account into another does to `a`. */
  function Share(from: Account, into: Account, amount: int, a: Account): int {
    (if a == into then amount else 0) - (if a == from then amount else 0)
  }

  /** Exactly one amount went from one account into another. */
  ghost predicate Moves(s: State, t: State, from: Account, into: Account, amount: int) {
    forall a :: Balance(t.rows, a) == Balance(s.rows, a) + Share(from, into, amount, a)
  }

  /** A positive deposit is always accepted; it raises the user's CASH against the wallet and moves nothing else. */
  lemma DepositRaisesCash(s: State, nonce: nat, user: UserId, amount: int)
    requires Sound(s)
    ensures var (t, r) := Deposit(s, nonce, user, amount);
            && (r.Ok? <==> amount > 0)
            && (r.Ok? ==> Moves(s, t, WALLET, Cash(user), amount)
                          && Balance(t.rows, Cash(user)) == Balance(s.rows, Cash(user)) + amount
                          && t.holds == s.holds && t.ops == s.ops)
            && (r.Err? ==> t == s && r.error == InvalidArgument)
  {
    if amount > 0 {
      PairBalanced(WALLET, Cash(user), amount);
      PairSucceeds(s.rows, TxFor(s, DepositKey(nonce)), WALLET, Cash(user), amount);
      AppendEffect(s.rows, TxFor(s, DepositKey(nonce)), DepositEntries(user, amount));
      assert AccountsOf(DepositEntries(user, amount)) == {WALLET, Cash(user)} by {
        PairAccounts(WALLET, Cash(user), amount);
      }
    }
  }

  lemma PairAccounts(from: Account, into: Account, amount: int)
    ensures AccountsOf([Entry(from, DR, amount), Entry(into, CR, amount)]) == {from, into}
  {
    var entries := [Entry(from, DR, amount), Entry(into, CR, amount)];
    assert entries[0].account == from && entries[1].account == into;
  }

  /**
    A hold is placed exactly when the user's cash covers it; the amount goes from
    CASH into HOLDS and is kept back whole.
   */
  lemma PlaceMovesCash(s: State, key: Key, user: UserId, amount: int)
    requires Sound(s) && key != Blank && key !in s.ops && amount > 0
    ensures var (t, r) := PlaceHold(s, key, user, amount);
            && (r.Ok? <==> amount <= Balance(s.rows, Cash(user)))
            && (r.Ok? ==> Moves(s, t, Cash(user), Holds(user), amount) && r.value == |s.holds|
                          && t.holds == s.holds + [Hold(user, amount, 0, 0, true)]
                          && t.ops == s.ops[key := r.value])
            && (r.Err? ==> t == s && r.error == InsufficientFunds)
  {
    var entries := PlaceEntries(user, amount);
    PairBalanced(Cash(user), Holds(user), amount);
    PairAccounts(Cash(user), Holds(user), amount);
    if amount <= Balance(s.rows, Cash(user)) {
      PlaceAccepted(s, key, user, amount);
      AppendEffect(s.rows, TxFor(s, key), entries);
    } else {
      AppendRefusesOverdraft(s.rows, TxFor(s, key), entries, Cash(user));
      AppendError(s.rows, TxFor(s, key), entries);
    }
  }

  /** The hold with more of it committed or released, active as long as something remains. */
  predicate Drawn(before: Hold, after: Hold, commit: int, release: int) {
    && after.user == before.user && after.amount == before.amount
    && after.committed == before.committed + commit && after.released == before.released + release
    && after.Remaining() == before.Remaining() - commit - release
    && (after.active <==> after.Remaining() > 0)
  }

  /** One hold drawn on, and every other as it was. */
  predicate OneDrawn(before: seq<Hold>, after: seq<Hold>, hold: nat, commit: int, release: int) {
    && |after| == |before| && hold < |before| && Drawn(before[hold], after[hold], commit, release)
    && forall h :: 0 <= h < |before| && h != hold ==> after[h] == before[h]
  }

  /** What an accepted release or commit has drawn. */
  lemma UpdateDraws(holds: seq<Hold>, hold: nat, commit: int, release: int)
    requires hold < |holds| && SoundHold(holds[hold]) && holds[hold].active
    ensures OneDrawn(holds, holds[hold := UpdateHold(holds[hold], commit, release)], hold, commit, release)
  {
  }

  /** A release gives back part of what the hold keeps: out of HOLDS, into CASH. */
  lemma ReleaseMovesBack(s: State, key: Key, hold: nat, amount: int)
    requires Sound(s) && key !in s.ops && ReleaseHold(s, key, hold, amount).1.Ok?
    ensures var t := ReleaseHold(s, key, hold, amount).0;
            && hold < |s.holds| && s.holds[hold].active && 0 < amount <= s.holds[hold].Remaining()
            && Moves(s, t, Holds(s.holds[hold].user), Cash(s.holds[hold].user), amount)
            && OneDrawn(s.holds, t.holds, hold, 0, amount)
  {
    AcceptedMovesMoneyUnlessRecognised(s, Op.Release(key, hold, amount));
    ReleaseSound(s, key, hold, amount);
    PairBalanced(Holds(s.holds[hold].user), Cash(s.holds[hold].user), amount);
    UpdateDraws(s.holds, hold, 0, amount);
  }

  /** What a commit does to an account: two amounts leave HOLDS, one for the destination and one for CASH. */
  function CommitShare(user: UserId, commit: int, release: int, into: Account, a: Account): int {
    Share(Holds(user), into, commit, a) + Share(Holds(user), Cash(user), release, a)
  }

  /** A commit pays out of what the hold keeps, gives some back, and adds the entries it was given. */
  lemma CommitMovesOut(s: State, key: Key, hold: nat, commit: int, release: int, into: Account, extra: seq<Entry>,
                       a: Account)
    requires Sound(s) && key !in s.ops && CommitHold(s, key, hold, commit, release, into, extra).1.Ok?
    ensures var t := CommitHold(s, key, hold, commit, release, into, extra).0;
            && hold < |s.holds| && s.holds[hold].active
            && 0 <= commit && 0 <= release && 0 < commit + release <= s.holds[hold].Remaining()
            && Balance(t.rows, a) == Balance(s.rows, a)
                                     + CommitShare(s.holds[hold].user, commit, release, into, a) + Delta(extra, a)
            && OneDrawn(s.holds, t.holds, hold, commit, release)
  {
    AcceptedMovesMoneyUnlessRecognised(s, Op.Commit(key, hold, commit, release, into, extra));
    CommitSound(s, key, hold, commit, release, into, extra);
    CommitEntriesShare(s.holds[hold].user, commit, release, into, extra, a);
    UpdateDraws(s.holds, hold, commit, release);
  }

  lemma CommitEntriesShare(user: UserId, commit: int, release: int, into: Account, extra: seq<Entry>, a: Account)
    requires commit >= 0 && release >= 0
    ensures Delta(CommitEntries(user, commit, release, into, extra), a)
            == CommitShare(user, commit, release, into, a) + Delta(extra, a)
  {
    var first := if commit > 0 then [Entry(Holds(user), DR, commit), Entry(into, CR, commit)] else [];
    var second := if release > 0 then ReleaseEntries(user, release) else [];
    PairBalanced(Holds(user), into, commit);
    PairBalanced(Holds(user), Cash(user), release);
    DeltaConcat(first, second, a);
    DeltaConcat(first + second, extra, a);
  }

  /** A transfer between two accounts, posted once. */
  lemma PairMoves(s: State, key: Key, from: Account, into: Account, amount: int)
    requires Sound(s) && key !in s.keys && amount > 0
    requires PostTransaction(s, key, [Entry(from, DR, amount), Entry(into, CR, amount)]).1.Ok?
    ensures var t := PostTransaction(s, key, [Entry(from, DR, amount), Entry(into, CR, amount)]).0;
            Moves(s, t, from, into, amount) && t.holds == s.holds && t.ops == s.ops
  {
    var entries := [Entry(from, DR, amount), Entry(into, CR, amount)];
    AcceptedMovesMoneyUnlessRecognised(s, Post(key, entries));
    PostSound(s, key, entries);
    PairBalanced(from, into, amount);
  }

  /** It is accepted when both accounts are there and, for user money, the amount is. */
  lemma PairAccepted(s: State, key: Key, from: Account, into: Account, amount: int)
    requires Sound(s) && key != Blank && key !in s.keys && amount > 0 && from != into
    requires from in s.accounts && into in s.accounts && (NonNegative(from) ==> amount <= Balance(s.rows, from))
    ensures PostTransaction(s, key, [Entry(from, DR, amount), Entry(into, CR, amount)]).1.Ok?
  {
    PairBalanced(from, into, amount);
    PairAccounts(from, into, amount);
    PairSucceeds(s.rows, TxFor(s, key), from, into, amount);
  }
}
