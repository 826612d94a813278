/**
  The double-entry ledger: append-only entries with running balances, idempotent transactions
  and holds. This module is the specification; class `LedgerService` implements it.
 */
module Ledger {
  import opened Common

  type UserId = nat

  datatype Account =
    | Cash(user: UserId)
    | Holds(user: UserId)
    | Margin(user: UserId, event: nat)
    | Clearing(event: nat)
    | House(code: string)

  /** User money may never go negative. */
  predicate NonNegative(a: Account) { a.Cash? || a.Holds? || a.Margin? }

  /** Accounts created on first use. */
  predicate Lazy(a: Account) { a.Margin? || a.Clearing? }

  datatype Direction = DR | CR | Unknown

  datatype Entry = Entry(account: Account, direction: Direction, amount: int) {
    function Signed(): int { if direction == DR then -amount else amount }
  }

  /** Idempotency keys, each built from what caused the posting. */
  datatype Key =
    | Blank
    | ReserveKey(order: nat)
    | ReleaseKey(order: nat, version: nat)
    | FillKey(fill: nat)
    | ReconcileKey(user: UserId, version: nat, balance: int)
    | SettleKey(user: UserId)
    | DepositKey(nonce: nat)
    | OrderHoldKey(order: nat)
    | FillHoldKey(fill: nat, maker: bool)
    | FillCloseKey(fill: nat, maker: bool)
    | RemainderKey(order: nat)
    | OtherKey(name: string)

  datatype Error =
    | InvalidArgument
    | InsufficientFunds
    | AccountMissing
    | HoldNotFound
    | HoldNotActive
    | ExceedsHold

  datatype Row = Row(tx: nat, account: Account, direction: Direction, amount: int, running: int, seqNo: nat) {
    function Signed(): int { if direction == DR then -amount else amount }
  }

  datatype Hold = Hold(user: UserId, amount: int, committed: int, released: int, active: bool) {
    function Remaining(): int { amount - committed - released }
  }

  /** `keys` maps an idempotency key to its transaction, `ops` one to the hold it acted on. */
  datatype State = State(
    accounts: set<Account>, rows: seq<Row>, keys: map<Key, nat>, holds: seq<Hold>, ops: map<Key, nat>)

  const EMPTY := State({}, [], map[], [], map[])

  // ---------------------------------------------------------------- entries

  /** The running balance and sequence number of the account's latest entry. */
  function Balance(rows: seq<Row>, a: Account): int {
    if rows == [] then 0
    else if rows[|rows| - 1].account == a then rows[|rows| - 1].running
    else Balance(rows[..|rows| - 1], a)
  }

  function LastSeq(rows: seq<Row>, a: Account): nat {
    if rows == [] then 0
    else if rows[|rows| - 1].account == a then rows[|rows| - 1].seqNo
    else LastSeq(rows[..|rows| - 1], a)
  }

  function NextRow(rows: seq<Row>, tx: nat, e: Entry): Row {
    Row(tx, e.account, e.direction, e.amount, Balance(rows, e.account) + e.Signed(), LastSeq(rows, e.account) + 1)
  }

  /** `apply_entries` after the accounts are loaded: one row per entry, refused if user money goes negative. */
  function Append(rows: seq<Row>, tx: nat, entries: seq<Entry>): Result<seq<Row>, Error> {
    if entries == [] then Ok(rows)
    else
      var before := Append(rows, tx, entries[..|entries| - 1]);
      if before.Err? then before
      else
        var row := NextRow(before.value, tx, entries[|entries| - 1]);
        if NonNegative(row.account) && row.running < 0 then Err(InsufficientFunds)
        else Ok(before.value + [row])
  }

  function AccountsOf(entries: seq<Entry>): set<Account> {
    set i | 0 <= i < |entries| :: entries[i].account
  }

  /** The accounts after the lazy ones among `codes` have been created. */
  function Ensure(accounts: set<Account>, codes: set<Account>): set<Account> {
    accounts + set a | a in codes && Lazy(a)
  }

  function Apply(s: State, tx: nat, entries: seq<Entry>): Result<State, Error> {
    var accounts := Ensure(s.accounts, AccountsOf(entries));
    if !(AccountsOf(entries) <= accounts) then Err(AccountMissing)
    else
      match Append(s.rows, tx, entries)
      case Ok(rows) => Ok(s.(accounts := accounts, rows := rows))
      case Err(e) => Err(e)
  }

  predicate WellFormed(entries: seq<Entry>) {
    forall i :: 0 <= i < |entries| ==> entries[i].amount > 0 && entries[i].direction != Unknown
  }

  /** The net effect of the entries on one account. */
  function Delta(entries: seq<Entry>, a: Account): int {
    if entries == [] then 0
    else
      var e := entries[|entries| - 1];
      Delta(entries[..|entries| - 1], a) + if e.account == a then e.Signed() else 0
  }

  function TotalOf(entries: seq<Entry>): int {
    if entries == [] then 0 else TotalOf(entries[..|entries| - 1]) + entries[|entries| - 1].Signed()
  }

  /** `ensure_balanced`: debits equal credits. */
  predicate Balanced(entries: seq<Entry>) { TotalOf(entries) == 0 }

  /** The transaction for `key`: an existing one, or a new number. */
  function TxFor(s: State, key: Key): nat { if key in s.keys then s.keys[key] else |s.keys| }

  // ---------------------------------------------------------------- operations

  function PostTransaction(s: State, key: Key, entries: seq<Entry>): (State, Result<nat, Error>) {
    if key == Blank || entries == [] || !WellFormed(entries) || !Balanced(entries) then (s, Err(InvalidArgument))
    else if key in s.keys then (s, Ok(s.keys[key]))
    else
      var tx := TxFor(s, key);
      match Apply(s, tx, entries)
      case Ok(t) => (t.(keys := t.keys[key := tx]), Ok(tx))
      case Err(e) => (s, Err(e))
  }

  /** The common end of the three hold operations: post, then record the operation. */
  function Operate(s: State, key: Key, entries: seq<Entry>, hold: nat): (State, Result<nat, Error>) {
    var tx := TxFor(s, key);
    match Apply(s, tx, entries)
    case Ok(t) => (t.(keys := t.keys[key := tx], ops := t.ops[key := hold]), Ok(hold))
    case Err(e) => (s, Err(e))
  }

  function PlaceEntries(user: UserId, amount: int): seq<Entry> {
    [Entry(Cash(user), DR, amount), Entry(Holds(user), CR, amount)]
  }

  function ReleaseEntries(user: UserId, amount: int): seq<Entry> {
    [Entry(Holds(user), DR, amount), Entry(Cash(user), CR, amount)]
  }

  function PlaceHold(s: State, key: Key, user: UserId, amount: int): (State, Result<nat, Error>) {
    if key == Blank || amount <= 0 then (s, Err(InvalidArgument))
    else if key in s.ops then (s, Ok(s.ops[key]))
    else
      var hold := |s.holds|;
      var ready := s.(accounts := s.accounts + {Cash(user), Holds(user)},
                       holds := s.holds + [Hold(user, amount, 0, 0, true)]);
      var (t, r) := Operate(ready, key, PlaceEntries(user, amount), hold);
      if r.Ok? then (t, r) else (s, r)
  }

  /** `update_hold`: the hold closes once nothing remains. */
  function UpdateHold(h: Hold, committed: int, released: int): Hold {
    var h' := h.(committed := h.committed + committed, released := h.released + released);
    if h'.committed + h'.released >= h'.amount then h'.(active := false) else h'
  }

  function ReleaseHold(s: State, key: Key, hold: nat, amount: int): (State, Result<nat, Error>) {
    if key == Blank || amount <= 0 then (s, Err(InvalidArgument))
    else if key in s.ops then (s, Ok(s.ops[key]))
    else if hold >= |s.holds| then (s, Err(HoldNotFound))
    else if !s.holds[hold].active then (s, Err(HoldNotActive))
    else if amount > s.holds[hold].Remaining() then (s, Err(ExceedsHold))
    else
      var updated := s.(holds := s.holds[hold := UpdateHold(s.holds[hold], 0, amount)]);
      var (t, r) := Operate(updated, key, ReleaseEntries(s.holds[hold].user, amount), hold);
      if r.Ok? then (t, r) else (s, r)
  }

  function CommitEntries(user: UserId, commit: int, release: int, destination: Account, extra: seq<Entry>): seq<Entry> {
    (if commit > 0 then [Entry(Holds(user), DR, commit), Entry(destination, CR, commit)] else [])
    + (if release > 0 then ReleaseEntries(user, release) else [])
    + extra
  }

  function CommitHold(s: State, key: Key, hold: nat, commit: int, release: int, destination: Account, extra: seq<Entry>)
    : (State, Result<nat, Error>)
  {
    if key == Blank || commit < 0 || release < 0 || commit + release <= 0 || !WellFormed(extra) then
      (s, Err(InvalidArgument))
    else if key in s.ops then (s, Ok(s.ops[key]))
    else if hold >= |s.holds| then (s, Err(HoldNotFound))
    else if !s.holds[hold].active then (s, Err(HoldNotActive))
    else if commit + release > s.holds[hold].Remaining() then (s, Err(ExceedsHold))
    else
      var entries := CommitEntries(s.holds[hold].user, commit, release, destination, extra);
      if !Balanced(entries) then (s, Err(InvalidArgument))
      else
        var updated := s.(accounts := if commit > 0 then s.accounts + {destination} else s.accounts,
                          holds := s.holds[hold := UpdateHold(s.holds[hold], commit, release)]);
        var (t, r) := Operate(updated, key, entries, hold);
        if r.Ok? then (t, r) else (s, r)
  }

  function DepositEntries(user: UserId, amount: int): seq<Entry> {
    [Entry(House("ASSET:HOUSE:WALLET"), DR, amount), Entry(Cash(user), CR, amount)]
  }

  /** `admin_credit_deposit`; the nonce stands for the random part of its key. */
  function Deposit(s: State, nonce: nat, user: UserId, amount: int): (State, Result<nat, Error>) {
    if amount <= 0 then (s, Err(InvalidArgument))
    else
      var ready := s.(accounts := s.accounts + {House("ASSET:HOUSE:WALLET"), Cash(user), Holds(user)});
      var key, tx := DepositKey(nonce), TxFor(s, DepositKey(nonce));
      match Apply(ready, tx, DepositEntries(user, amount))
      case Ok(t) => (t.(keys := t.keys[key := tx]), Ok(tx))
      case Err(e) => (s, Err(e))
  }

  // ---------------------------------------------------------------- what entries add up to

  /** The fold of an account's entries: their sum and their number. */
  function SumOf(rows: seq<Row>, a: Account): int {
    if rows == [] then 0
    else SumOf(rows[..|rows| - 1], a) + if rows[|rows| - 1].account == a then rows[|rows| - 1].Signed() else 0
  }

  function CountOf(rows: seq<Row>, a: Account): nat {
    if rows == [] then 0
    else CountOf(rows[..|rows| - 1], a) + if rows[|rows| - 1].account == a then 1 else 0
  }

  function TotalRows(rows: seq<Row>): int {
    if rows == [] then 0 else TotalRows(rows[..|rows| - 1]) + rows[|rows| - 1].Signed()
  }

  /**
    Every running balance is the fold of the entries so far, numbered without gaps, and user money is never negative.
   */
  predicate RunningBalances(rows: seq<Row>) {
    forall k :: 0 <= k < |rows| ==>
                  && rows[k].running == SumOf(rows[..k + 1], rows[k].account)
                  && rows[k].seqNo == CountOf(rows[..k + 1], rows[k].account)
                  && (NonNegative(rows[k].account) ==> rows[k].running >= 0)
  }

  lemma {:induction false} BalanceIsFold(rows: seq<Row>, a: Account)
    requires RunningBalances(rows)
    ensures Balance(rows, a) == SumOf(rows, a) && LastSeq(rows, a) == CountOf(rows, a)
    ensures NonNegative(a) ==> Balance(rows, a) >= 0
  {
    if rows != [] {
      var n := |rows| - 1;
      assert rows[..n + 1] == rows;
      PrefixRunning(rows, n);
      BalanceIsFold(rows[..n], a);
      if rows[n].account != a { CountSkips(rows, a); }
    }
  }

  lemma PrefixRunning(rows: seq<Row>, n: nat)
    requires RunningBalances(rows) && n <= |rows|
    ensures RunningBalances(rows[..n])
  {
    forall k | 0 <= k < n ensures rows[..n][k] == rows[k] && rows[..n][..k + 1] == rows[..k + 1] {}
  }

  lemma CountSkips(rows: seq<Row>, a: Account)
    requires rows != [] && rows[|rows| - 1].account != a
    ensures SumOf(rows, a) == SumOf(rows[..|rows| - 1], a) && CountOf(rows, a) == CountOf(rows[..|rows| - 1], a)
  {
  }

  /** One appended entry keeps the running balances and moves its own account only. */
  lemma NextRowRuns(rows: seq<Row>, tx: nat, e: Entry)
    requires RunningBalances(rows)
    requires NonNegative(e.account) ==> Balance(rows, e.account) + e.Signed() >= 0
    ensures RunningBalances(rows + [NextRow(rows, tx, e)])
    ensures TotalRows(rows + [NextRow(rows, tx, e)]) == TotalRows(rows) + e.Signed()
    ensures forall a :: Balance(rows + [NextRow(rows, tx, e)], a)
                        == Balance(rows, a) + if a == e.account then e.Signed() else 0
  {
    var row := NextRow(rows, tx, e);
    var after := rows + [row];
    assert after[..|rows|] == rows;
    BalanceIsFold(rows, e.account);
    forall k | 0 <= k < |after|
      ensures && after[k].running == SumOf(after[..k + 1], after[k].account)
              && after[k].seqNo == CountOf(after[..k + 1], after[k].account)
              && (NonNegative(after[k].account) ==> after[k].running >= 0)
    {
      if k < |rows| {
        assert after[..k + 1] == rows[..k + 1];
      } else {
        assert after[..k + 1] == after;
      }
    }
  }

  /** A successful posting: balances move by exactly the entries, and stay sound. */
  lemma {:induction false} AppendEffect(rows: seq<Row>, tx: nat, entries: seq<Entry>)
    requires RunningBalances(rows) && Append(rows, tx, entries).Ok?
    ensures var after := Append(rows, tx, entries).value;
            && RunningBalances(after)
            && rows <= after && |after| == |rows| + |entries|
            && TotalRows(after) == TotalRows(rows) + TotalOf(entries)
            && forall a :: Balance(after, a) == Balance(rows, a) + Delta(entries, a)
  {
    if entries != [] {
      var n := |entries| - 1;
      AppendEffect(rows, tx, entries[..n]);
      NextRowRuns(Append(rows, tx, entries[..n]).value, tx, entries[n]);
    }
  }

  /** No posting is refused when every user account it touches appears once and can pay. */
  lemma {:induction false} AppendSucceeds(rows: seq<Row>, tx: nat, entries: seq<Entry>)
    requires RunningBalances(rows)
    requires forall n, a :: 0 <= n <= |entries| && NonNegative(a) ==> Balance(rows, a) + Delta(entries[..n], a) >= 0
    ensures Append(rows, tx, entries).Ok?
  {
    if entries != [] {
      var n := |entries| - 1;
      forall k, a | 0 <= k <= n && NonNegative(a) ensures Balance(rows, a) + Delta(entries[..n][..k], a) >= 0 {
        assert entries[..n][..k] == entries[..k];
      }
      AppendSucceeds(rows, tx, entries[..n]);
      AppendEffect(rows, tx, entries[..n]);
      assert entries[..|entries|] == entries;
    }
  }

  /** A posting is refused for nothing but lack of funds. */
  lemma {:induction false} AppendError(rows: seq<Row>, tx: nat, entries: seq<Entry>)
    ensures Append(rows, tx, entries).Err? ==> Append(rows, tx, entries).error == InsufficientFunds
  {
    if entries != [] { AppendError(rows, tx, entries[..|entries| - 1]); }
  }

  /** And it is refused when some account ends up short. */
  lemma AppendRefusesOverdraft(rows: seq<Row>, tx: nat, entries: seq<Entry>, a: Account)
    requires RunningBalances(rows) && NonNegative(a)
    requires Balance(rows, a) + Delta(entries, a) < 0
    ensures Append(rows, tx, entries).Err?
  {
    if Append(rows, tx, entries).Ok? {
      AppendEffect(rows, tx, entries);
      BalanceIsFold(Append(rows, tx, entries).value, a);
    }
  }
}
