/** What every run of ledger operations keeps. */
module LedgerRuns {
  import opened Common
  import opened Ledger

  datatype Op =
    | Post(key: Key, entries: seq<Entry>)
    | Place(key: Key, user: UserId, amount: int)
    | Release(key: Key, hold: nat, amount: int)
    | Commit(key: Key, hold: nat, commit: int, release: int, destination: Account, extra: seq<Entry>)
    | Credit(nonce: nat, user: UserId, amount: int)

  function Step(s: State, op: Op): State {
    match op
    case Post(key, entries) => PostTransaction(s, key, entries).0
    case Place(key, user, amount) => PlaceHold(s, key, user, amount).0
    case Release(key, hold, amount) => ReleaseHold(s, key, hold, amount).0
    case Commit(key, hold, commit, release, destination, extra) =>
      CommitHold(s, key, hold, commit, release, destination, extra).0
    case Credit(nonce, user, amount) => Deposit(s, nonce, user, amount).0
  }

  function KeyOf(op: Op): Key {
    match op
    case Post(key, _) => key
    case Place(key, _, _) => key
    case Release(key, _, _) => key
    case Commit(key, _, _, _, _, _) => key
    case Credit(nonce, _, _) => DepositKey(nonce)
  }

  function Run(s: State, ops: seq<Op>): State {
    if ops == [] then s else Step(Run(s, ops[..|ops| - 1]), ops[|ops| - 1])
  }

  predicate SoundHold(h: Hold) {
    0 <= h.committed && 0 <= h.released && h.committed + h.released <= h.amount
    && (h.active <==> h.Remaining() > 0)
  }

  predicate Sound(s: State) {
    && RunningBalances(s.rows)
    && TotalRows(s.rows) == 0
    && (forall k :: 0 <= k < |s.rows| ==> s.rows[k].account in s.accounts)
    && (forall h :: 0 <= h < |s.holds| ==> SoundHold(s.holds[h]))
    && (forall key :: key in s.ops ==> key in s.keys)
  }

  lemma {:induction false} AppendAccounts(rows: seq<Row>, tx: nat, entries: seq<Entry>, k: nat)
    requires Append(rows, tx, entries).Ok? && |rows| <= k < |Append(rows, tx, entries).value|
    requires rows <= Append(rows, tx, entries).value
    ensures Append(rows, tx, entries).value[k].account in AccountsOf(entries)
  {
    if entries != [] {
      var n := |entries| - 1;
      var before := Append(rows, tx, entries[..n]).value;
      assert AccountsOf(entries[..n]) <= AccountsOf(entries) by {
        forall a | a in AccountsOf(entries[..n]) ensures a in AccountsOf(entries) {
          var i :| 0 <= i < n && entries[..n][i].account == a;
          assert entries[i].account == a;
        }
      }
      if k < |before| {
        AppendPrefix(rows, tx, entries[..n]);
        AppendAccounts(rows, tx, entries[..n], k);
      } else {
        assert entries[n].account in AccountsOf(entries);
      }
    }
  }

  lemma {:induction false} AppendPrefix(rows: seq<Row>, tx: nat, entries: seq<Entry>)
    requires Append(rows, tx, entries).Ok?
    ensures rows <= Append(rows, tx, entries).value
  {
    if entries != [] { AppendPrefix(rows, tx, entries[..|entries| - 1]); }
  }

  /** Applying balanced entries keeps the rows sound; accounts are known by then. */
  lemma ApplySound(s: State, tx: nat, entries: seq<Entry>)
    requires Sound(s) && Balanced(entries) && Apply(s, tx, entries).Ok?
    ensures var t := Apply(s, tx, entries).value;
            && Sound(t) && s.rows <= t.rows
            && t.holds == s.holds && t.ops == s.ops && t.keys == s.keys && s.accounts <= t.accounts
            && forall a :: Balance(t.rows, a) == Balance(s.rows, a) + Delta(entries, a)
  {
    var t := Apply(s, tx, entries).value;
    AppendEffect(s.rows, tx, entries);
    forall k | 0 <= k < |t.rows| ensures t.rows[k].account in t.accounts {
      if k >= |s.rows| {
        AppendAccounts(s.rows, tx, entries, k);
      } else {
        assert t.rows[k] == s.rows[k];
      }
    }
  }

  lemma PairBalanced(a: Account, b: Account, amount: int)
    ensures Balanced([Entry(a, DR, amount), Entry(b, CR, amount)])
    ensures forall c :: Delta([Entry(a, DR, amount), Entry(b, CR, amount)], c)
                        == (if c == a then -amount else 0) + (if c == b then amount else 0)
  {
    var es := [Entry(a, DR, amount), Entry(b, CR, amount)];
    assert es[..1] == [es[0]] && [es[0]][..0] == [];
    assert TotalOf(es[..1]) == es[0].Signed();
    assert forall c :: Delta(es[..1], c) == if c == a then -amount else 0;
  }

  /** The end of a hold operation: balances move by its entries, nothing else about the holds changes. */
  lemma OperateSound(s: State, key: Key, entries: seq<Entry>, hold: nat)
    requires Sound(s) && Balanced(entries) && Operate(s, key, entries, hold).1.Ok?
    ensures var t := Operate(s, key, entries, hold).0;
            && Sound(t) && s.rows <= t.rows && t.holds == s.holds
            && forall a :: Balance(t.rows, a) == Balance(s.rows, a) + Delta(entries, a)
  {
    ApplySound(s, TxFor(s, key), entries);
  }

  /** The ledger with a new hold written down, or an old one updated, before the entries are applied. */
  lemma HoldChangeSound(s: State, accounts: set<Account>, holds: seq<Hold>)
    requires Sound(s) && s.accounts <= accounts
    requires forall h :: 0 <= h < |holds| ==> SoundHold(holds[h])
    ensures Sound(s.(accounts := accounts, holds := holds))
  {
  }

  lemma PlaceSound(s: State, key: Key, user: UserId, amount: int)
    requires Sound(s)
    ensures var t := PlaceHold(s, key, user, amount).0;
            && Sound(t) && s.rows <= t.rows
            && (t != s ==> && t.holds == s.holds + [Hold(user, amount, 0, 0, true)]
                           && forall a :: Balance(t.rows, a)
                                          == Balance(s.rows, a) + Delta(PlaceEntries(user, amount), a))
  {
    if amount > 0 {
      var ready := s.(accounts := s.accounts + {Cash(user), Holds(user)},
                      holds := s.holds + [Hold(user, amount, 0, 0, true)]);
      HoldChangeSound(s, ready.accounts, ready.holds);
      PairBalanced(Cash(user), Holds(user), amount);
      if Operate(ready, key, PlaceEntries(user, amount), |s.holds|).1.Ok? {
        OperateSound(ready, key, PlaceEntries(user, amount), |s.holds|);
      }
    }
  }

  lemma ReleaseSound(s: State, key: Key, hold: nat, amount: int)
    requires Sound(s)
    ensures var t := ReleaseHold(s, key, hold, amount).0;
            && Sound(t) && s.rows <= t.rows
            && (t != s ==> && hold < |s.holds| && t.holds == s.holds[hold := UpdateHold(s.holds[hold], 0, amount)]
                           && forall a :: Balance(t.rows, a)
                                          == Balance(s.rows, a) + Delta(ReleaseEntries(s.holds[hold].user, amount), a))
  {
    if hold < |s.holds| && 0 < amount <= s.holds[hold].Remaining() {
      var user := s.holds[hold].user;
      var updated := s.(holds := s.holds[hold := UpdateHold(s.holds[hold], 0, amount)]);
      HoldChangeSound(s, s.accounts, updated.holds);
      PairBalanced(Holds(user), Cash(user), amount);
      if Operate(updated, key, ReleaseEntries(user, amount), hold).1.Ok? {
        OperateSound(updated, key, ReleaseEntries(user, amount), hold);
      }
    }
  }

  lemma CommitSound(s: State, key: Key, hold: nat, commit: int, release: int, destination: Account, extra: seq<Entry>)
    requires Sound(s)
    ensures var t := CommitHold(s, key, hold, commit, release, destination, extra).0;
            && Sound(t) && s.rows <= t.rows
            && (t != s ==>
                  && hold < |s.holds| && commit >= 0 && release >= 0
                  && t.holds == s.holds[hold := UpdateHold(s.holds[hold], commit, release)]
                  && forall a :: Balance(t.rows, a) == Balance(s.rows, a)
                                 + Delta(CommitEntries(s.holds[hold].user, commit, release, destination, extra), a))
  {
    if hold < |s.holds| && commit >= 0 && release >= 0 && commit + release <= s.holds[hold].Remaining() {
      var entries := CommitEntries(s.holds[hold].user, commit, release, destination, extra);
      var updated := s.(accounts := if commit > 0 then s.accounts + {destination} else s.accounts,
                        holds := s.holds[hold := UpdateHold(s.holds[hold], commit, release)]);
      HoldChangeSound(s, updated.accounts, updated.holds);
      if Balanced(entries) && Operate(updated, key, entries, hold).1.Ok? {
        OperateSound(updated, key, entries, hold);
      }
    }
  }

  lemma DepositSound(s: State, nonce: nat, user: UserId, amount: int)
    requires Sound(s)
    ensures var t := Deposit(s, nonce, user, amount).0;
            && Sound(t) && s.rows <= t.rows
            && (t != s ==> && t.holds == s.holds
                           && forall a :: Balance(t.rows, a)
                                          == Balance(s.rows, a) + Delta(DepositEntries(user, amount), a))
  {
    var ready := s.(accounts := s.accounts + {House("ASSET:HOUSE:WALLET"), Cash(user), Holds(user)});
    var tx := TxFor(s, DepositKey(nonce));
    HoldChangeSound(s, ready.accounts, s.holds);
    PairBalanced(House("ASSET:HOUSE:WALLET"), Cash(user), amount);
    if Apply(ready, tx, DepositEntries(user, amount)).Ok? {
      ApplySound(ready, tx, DepositEntries(user, amount));
    }
  }

  lemma PostSound(s: State, key: Key, entries: seq<Entry>)
    requires Sound(s)
    ensures var t := PostTransaction(s, key, entries).0;
            && Sound(t) && s.rows <= t.rows && t.holds == s.holds
            && (t != s ==> forall a :: Balance(t.rows, a) == Balance(s.rows, a) + Delta(entries, a))
  {
    if Balanced(entries) && Apply(s, TxFor(s, key), entries).Ok? {
      ApplySound(s, TxFor(s, key), entries);
    }
  }

  /** Every operation keeps the ledger sound and only ever appends to it. */
  lemma StepSound(s: State, op: Op)
    requires Sound(s)
    ensures Sound(Step(s, op)) && s.rows <= Step(s, op).rows
  {
    match op {
      case Post(key, entries) => PostSound(s, key, entries);
      case Place(key, user, amount) => PlaceSound(s, key, user, amount);
      case Release(key, hold, amount) => ReleaseSound(s, key, hold, amount);
      case Commit(key, hold, commit, release, destination, extra) =>
        CommitSound(s, key, hold, commit, release, destination, extra);
      case Credit(nonce, user, amount) => DepositSound(s, nonce, user, amount);
    }
  }

  /** Over every run: sound balances, nothing rewritten. */
  lemma {:induction false} RunSound(s: State, ops: seq<Op>)
    requires Sound(s)
    ensures Sound(Run(s, ops)) && s.rows <= Run(s, ops).rows
  {
    if ops != [] {
      RunSound(s, ops[..|ops| - 1]);
      StepSound(Run(s, ops[..|ops| - 1]), ops[|ops| - 1]);
    }
  }

  // ---------------------------------------------------------------- the books balance

  /** The balances of the listed accounts, added up. */
  function BalanceTotal(rows: seq<Row>, accounts: seq<Account>): int {
    if accounts == [] then 0
    else BalanceTotal(rows, accounts[..|accounts| - 1]) + Balance(rows, accounts[|accounts| - 1])
  }

  function FoldTotal(rows: seq<Row>, accounts: seq<Account>): int {
    if accounts == [] then 0
    else FoldTotal(rows, accounts[..|accounts| - 1]) + SumOf(rows, accounts[|accounts| - 1])
  }

  predicate Distinct(accounts: seq<Account>) {
    forall i, j :: 0 <= i < j < |accounts| ==> accounts[i] != accounts[j]
  }

  lemma {:induction false} BalancesAreFolds(rows: seq<Row>, accounts: seq<Account>)
    requires RunningBalances(rows)
    ensures BalanceTotal(rows, accounts) == FoldTotal(rows, accounts)
  {
    if accounts != [] {
      BalancesAreFolds(rows, accounts[..|accounts| - 1]);
      BalanceIsFold(rows, accounts[|accounts| - 1]);
    }
  }

  /** One more row adds its amount to exactly one of the distinct accounts. */
  lemma {:induction false} FoldTotalStep(rows: seq<Row>, accounts: seq<Account>)
    requires rows != [] && Distinct(accounts)
    ensures FoldTotal(rows, accounts) == FoldTotal(rows[..|rows| - 1], accounts)
                                         + if rows[|rows| - 1].account in accounts then rows[|rows| - 1].Signed() else 0
  {
    if accounts != [] {
      var n := |accounts| - 1;
      FoldTotalStep(rows, accounts[..n]);
      assert accounts == accounts[..n] + [accounts[n]];
      assert accounts[n] !in accounts[..n];
    }
  }

  lemma {:induction false} FoldTotalEmpty(accounts: seq<Account>)
    ensures FoldTotal([], accounts) == 0
  {
    if accounts != [] { FoldTotalEmpty(accounts[..|accounts| - 1]); }
  }

  lemma {:induction false} FoldTotalIsTotal(rows: seq<Row>, accounts: seq<Account>)
    requires Distinct(accounts) && forall k :: 0 <= k < |rows| ==> rows[k].account in accounts
    ensures FoldTotal(rows, accounts) == TotalRows(rows)
  {
    if rows == [] {
      FoldTotalEmpty(accounts);
    } else {
      FoldTotalStep(rows, accounts);
      FoldTotalIsTotal(rows[..|rows| - 1], accounts);
    }
  }

  /** However the ledger was used, the balances of all its accounts add up to zero. */
  lemma BooksBalance(ops: seq<Op>, accounts: seq<Account>)
    requires Distinct(accounts)
    requires forall a :: a in Run(EMPTY, ops).accounts ==> a in accounts
    ensures BalanceTotal(Run(EMPTY, ops).rows, accounts) == 0
  {
    var s := Run(EMPTY, ops);
    RunSound(EMPTY, ops);
    BalancesAreFolds(s.rows, accounts);
    FoldTotalIsTotal(s.rows, accounts);
  }

  // ---------------------------------------------------------------- holds

  /** What the user's holds still keep back. */
  function HeldTotal(holds: seq<Hold>, user: UserId): int {
    if holds == [] then 0
    else HeldTotal(holds[..|holds| - 1], user)
         + if holds[|holds| - 1].user == user then holds[|holds| - 1].Remaining() else 0
  }

  ghost predicate HoldsMatch(s: State) {
    forall user :: Balance(s.rows, Holds(user)) == HeldTotal(s.holds, user)
  }

  predicate AvoidsHolds(entries: seq<Entry>) {
    forall i :: 0 <= i < |entries| ==> !entries[i].account.Holds?
  }

  /** Operations that move HOLDS money only through a hold. */
  predicate HoldsOnlyByHolds(op: Op) {
    match op
    case Post(_, entries) => AvoidsHolds(entries)
    case Commit(_, _, _, _, destination, extra) => !destination.Holds? && AvoidsHolds(extra)
    case _ => true
  }

  lemma {:induction false} UnnamedDelta(entries: seq<Entry>, a: Account)
    requires forall i :: 0 <= i < |entries| ==> entries[i].account != a
    ensures Delta(entries, a) == 0
  {
    if entries != [] { UnnamedDelta(entries[..|entries| - 1], a); }
  }

  lemma {:induction false} DeltaConcat(a: seq<Entry>, b: seq<Entry>, c: Account)
    ensures Delta(a + b, c) == Delta(a, c) + Delta(b, c)
  {
    if b == [] {
      assert a + b == a;
    } else {
      var n := |b| - 1;
      DeltaConcat(a, b[..n], c);
      assert (a + b)[..|a + b| - 1] == a + b[..n];
    }
  }

  lemma {:induction false} HeldUpdate(holds: seq<Hold>, i: nat, h: Hold, user: UserId)
    requires i < |holds| && h.user == holds[i].user
    ensures HeldTotal(holds[i := h], user)
            == HeldTotal(holds, user) + if h.user == user then h.Remaining() - holds[i].Remaining() else 0
  {
    var n := |holds| - 1;
    if i == n {
      assert holds[i := h][..n] == holds[..n];
    } else {
      HeldUpdate(holds[..n], i, h, user);
      assert holds[i := h][..n] == holds[..n][i := h];
    }
  }

  lemma CommitDelta(user: UserId, commit: int, release: int, destination: Account, extra: seq<Entry>, u: UserId)
    requires commit >= 0 && release >= 0 && !destination.Holds? && AvoidsHolds(extra)
    ensures Delta(CommitEntries(user, commit, release, destination, extra), Holds(u))
            == if u == user then -(commit + release) else 0
  {
    var first := if commit > 0 then [Entry(Holds(user), DR, commit), Entry(destination, CR, commit)] else [];
    var second := if release > 0 then ReleaseEntries(user, release) else [];
    DeltaConcat(first, second, Holds(u));
    DeltaConcat(first + second, extra, Holds(u));
    UnnamedDelta(extra, Holds(u));
    PairBalanced(Holds(user), destination, commit);
    PairBalanced(Holds(user), Cash(user), release);
  }

  lemma PlaceHeld(s: State, key: Key, user: UserId, amount: int, u: UserId)
    requires Sound(s) && HoldsMatch(s)
    ensures var t := PlaceHold(s, key, user, amount).0; Balance(t.rows, Holds(u)) == HeldTotal(t.holds, u)
  {
    PlaceSound(s, key, user, amount);
    PairBalanced(Cash(user), Holds(user), amount);
    assert (s.holds + [Hold(user, amount, 0, 0, true)])[..|s.holds|] == s.holds;
  }

  lemma ReleaseHeld(s: State, key: Key, hold: nat, amount: int, u: UserId)
    requires Sound(s) && HoldsMatch(s)
    ensures var t := ReleaseHold(s, key, hold, amount).0; Balance(t.rows, Holds(u)) == HeldTotal(t.holds, u)
  {
    ReleaseSound(s, key, hold, amount);
    if hold < |s.holds| {
      PairBalanced(Holds(s.holds[hold].user), Cash(s.holds[hold].user), amount);
      HeldUpdate(s.holds, hold, UpdateHold(s.holds[hold], 0, amount), u);
    }
  }

  lemma CommitHeld(s: State, key: Key, hold: nat, commit: int, release: int, destination: Account, extra: seq<Entry>,
                   u: UserId)
    requires Sound(s) && HoldsMatch(s) && !destination.Holds? && AvoidsHolds(extra)
    ensures var t := CommitHold(s, key, hold, commit, release, destination, extra).0;
            Balance(t.rows, Holds(u)) == HeldTotal(t.holds, u)
  {
    CommitSound(s, key, hold, commit, release, destination, extra);
    if hold < |s.holds| && commit >= 0 && release >= 0 {
      CommitDelta(s.holds[hold].user, commit, release, destination, extra, u);
      HeldUpdate(s.holds, hold, UpdateHold(s.holds[hold], commit, release), u);
    }
  }

  lemma DepositHeld(s: State, nonce: nat, user: UserId, amount: int, u: UserId)
    requires Sound(s) && HoldsMatch(s)
    ensures var t := Deposit(s, nonce, user, amount).0; Balance(t.rows, Holds(u)) == HeldTotal(t.holds, u)
  {
    DepositSound(s, nonce, user, amount);
    PairBalanced(House("ASSET:HOUSE:WALLET"), Cash(user), amount);
  }

  lemma PostHeld(s: State, key: Key, entries: seq<Entry>, u: UserId)
    requires Sound(s) && HoldsMatch(s) && AvoidsHolds(entries)
    ensures var t := PostTransaction(s, key, entries).0; Balance(t.rows, Holds(u)) == HeldTotal(t.holds, u)
  {
    PostSound(s, key, entries);
    UnnamedDelta(entries, Holds(u));
  }

  lemma StepHeld(s: State, op: Op, u: UserId)
    requires Sound(s) && HoldsMatch(s) && HoldsOnlyByHolds(op)
    ensures Balance(Step(s, op).rows, Holds(u)) == HeldTotal(Step(s, op).holds, u)
  {
    match op {
      case Post(key, entries) => PostHeld(s, key, entries, u);
      case Place(key, user, amount) => PlaceHeld(s, key, user, amount, u);
      case Release(key, hold, amount) => ReleaseHeld(s, key, hold, amount, u);
      case Commit(key, hold, commit, release, destination, extra) =>
        CommitHeld(s, key, hold, commit, release, destination, extra, u);
      case Credit(nonce, user, amount) => DepositHeld(s, nonce, user, amount, u);
    }
  }

  lemma StepHoldsMatch(s: State, op: Op)
    requires Sound(s) && HoldsMatch(s) && HoldsOnlyByHolds(op)
    ensures HoldsMatch(Step(s, op))
  {
    forall u ensures Balance(Step(s, op).rows, Holds(u)) == HeldTotal(Step(s, op).holds, u) {
      StepHeld(s, op, u);
    }
  }

  /** If HOLDS money moves only through holds, each user's HOLDS balance is what the holds still keep back. */
  lemma {:induction false} RunHoldsMatch(ops: seq<Op>)
    requires forall i :: 0 <= i < |ops| ==> HoldsOnlyByHolds(ops[i])
    ensures HoldsMatch(Run(EMPTY, ops))
  {
    if ops != [] {
      RunHoldsMatch(ops[..|ops| - 1]);
      RunSound(EMPTY, ops[..|ops| - 1]);
      StepHoldsMatch(Run(EMPTY, ops[..|ops| - 1]), ops[|ops| - 1]);
    }
  }

  // ---------------------------------------------------------------- repeated keys

  /** Whether the ledger treats `key` as already used by this kind of operation. */
  predicate Recognised(s: State, op: Op) {
    match op
    case Post(key, _) => key in s.keys
    case Place(key, _, _) => key in s.ops
    case Release(key, _, _) => key in s.ops
    case Commit(key, _, _, _, _, _) => key in s.ops
    case Credit(nonce, _, _) => false
  }

  predicate Accepted(s: State, op: Op) {
    match op
    case Post(key, entries) => PostTransaction(s, key, entries).1.Ok?
    case Place(key, user, amount) => PlaceHold(s, key, user, amount).1.Ok?
    case Release(key, hold, amount) => ReleaseHold(s, key, hold, amount).1.Ok?
    case Commit(key, hold, commit, release, destination, extra) =>
      CommitHold(s, key, hold, commit, release, destination, extra).1.Ok?
    case Credit(nonce, user, amount) => Deposit(s, nonce, user, amount).1.Ok?
  }

  /**
    An accepted operation leaves the ledger unchanged exactly when its key is recognised.
    Transactions recognise every key; hold operations only keys of earlier hold operations.
   */
  lemma AcceptedMovesMoneyUnlessRecognised(s: State, op: Op)
    requires Sound(s) && Accepted(s, op)
    ensures Step(s, op) == s <==> Recognised(s, op)
  {
    if !Recognised(s, op) {
      match op {
        case Post(key, entries) => AppendEffect(s.rows, TxFor(s, key), entries);
        case Place(key, user, amount) => AppendEffect(s.rows, TxFor(s, key), PlaceEntries(user, amount));
        case Release(key, hold, amount) =>
          AppendEffect(s.rows, TxFor(s, key), ReleaseEntries(s.holds[hold].user, amount));
        case Commit(key, hold, commit, release, destination, extra) =>
          AppendEffect(s.rows, TxFor(s, key), CommitEntries(s.holds[hold].user, commit, release, destination, extra));
        case Credit(nonce, user, amount) =>
          AppendEffect(s.rows, TxFor(s, DepositKey(nonce)), DepositEntries(user, amount));
      }
    }
  }

  /** So an accepted operation, sent again at once with the same key, changes nothing. */
  lemma RetryChangesNothing(s: State, op: Op)
    requires Sound(s) && Accepted(s, op) && !op.Credit?
    ensures Recognised(Step(s, op), op) && Step(Step(s, op), op) == Step(s, op)
  {
  }

  /** A payment from user cash into another account is refused only for lack of cash. */
  lemma PairSucceeds(rows: seq<Row>, tx: nat, from: Account, into: Account, amount: int)
    requires RunningBalances(rows) && from != into && 0 < amount
    requires NonNegative(from) ==> amount <= Balance(rows, from)
    ensures Append(rows, tx, [Entry(from, DR, amount), Entry(into, CR, amount)]).Ok?
  {
    var entries := [Entry(from, DR, amount), Entry(into, CR, amount)];
    PairBalanced(from, into, amount);
    assert entries[..2] == entries && entries[..1] == [entries[0]] && entries[..0] == [] && [entries[0]][..0] == [];
    forall n, a | 0 <= n <= |entries| && NonNegative(a) ensures Balance(rows, a) + Delta(entries[..n], a) >= 0 {
      BalanceIsFold(rows, a);
      if n == 1 { assert Delta(entries[..1], a) == if a == from then -amount else 0; }
    }
    AppendSucceeds(rows, tx, entries);
  }

  /** A hold under a key no hold operation has used is placed whenever the cash is there. */
  lemma PlaceAccepted(s: State, key: Key, user: UserId, amount: int)
    requires Sound(s) && key != Blank && key !in s.ops && 0 < amount <= Balance(s.rows, Cash(user))
    ensures var (t, r) := PlaceHold(s, key, user, amount);
            && r.Ok? && t.keys == s.keys[key := TxFor(s, key)]
            && Append(s.rows, TxFor(s, key), PlaceEntries(user, amount)) == Ok(t.rows)
  {
    var entries := PlaceEntries(user, amount);
    PairSucceeds(s.rows, TxFor(s, key), Cash(user), Holds(user), amount);
    assert AccountsOf(entries) <= s.accounts + {Cash(user), Holds(user)};
  }

  lemma LastRowTx(rows: seq<Row>, tx: nat, entries: seq<Entry>)
    requires entries != [] && Append(rows, tx, entries).Ok?
    ensures var after := Append(rows, tx, entries).value; after != [] && after[|after| - 1].tx == tx
  {
  }

  /**
    A key first used by a transaction is not recognised by a hold: placing a hold with it moves
    money again, under the old transaction's number.
   */
  lemma SharedKeyMovesMoneyAgain(s: State, key: Key, user: UserId, amount: int)
    requires Sound(s) && key != Blank && key in s.keys && key !in s.ops
    requires 0 < amount <= Balance(s.rows, Cash(user))
    ensures var (t, r) := PlaceHold(s, key, user, amount);
            && r.Ok?
            && t.keys == s.keys
            && Balance(t.rows, Cash(user)) == Balance(s.rows, Cash(user)) - amount
            && t.rows != [] && t.rows[|t.rows| - 1].tx == s.keys[key]
  {
    PlaceAccepted(s, key, user, amount);
    LastRowTx(s.rows, s.keys[key], PlaceEntries(user, amount));
    AppendEffect(s.rows, s.keys[key], PlaceEntries(user, amount));
    PairBalanced(Cash(user), Holds(user), amount);
  }
}
