/** The ledger's tables and the operations that update them, proved against module Ledger. */
module LedgerServices {
  import opened Common
  import opened IntSets
  import opened Ledger

  /** What `apply_entries` keeps in memory for each account it touches. */
  datatype AccountState = AccountState(balance: int, lastSeq: nat)

  class LedgerService {
    var accounts: set<Account>
    var rows: seq<Row>
    var keys: map<Key, nat>
    var holds: seq<Hold>
    var ops: map<Key, nat>

    constructor ()
      ensures Tables() == EMPTY
    {
      accounts, rows, keys, holds, ops := {}, [], map[], [], map[];
    }

    ghost function Tables(): State
      reads this
    {
      State(accounts, rows, keys, holds, ops)
    }

    /** Loads each account once, creating the lazy ones. */
    method LoadAccounts(entries: seq<Entry>) returns (r: Result<map<Account, AccountState>, Error>)
      modifies this`accounts
      ensures r.Err? <==> !(AccountsOf(entries) <= Ensure(old(accounts), AccountsOf(entries)))
      ensures r.Err? ==> r.error == AccountMissing
      ensures r.Ok? ==> accounts == Ensure(old(accounts), AccountsOf(entries))
      ensures r.Ok? ==> r.value.Keys == AccountsOf(entries)
                        && forall a :: a in r.value ==> r.value[a] == AccountState(Balance(rows, a), LastSeq(rows, a))
    {
      var codes := AccountsOf(entries);
      var todo := codes;
      var states: map<Account, AccountState> := map[];
      while todo != {}
        invariant todo <= codes && states.Keys == codes - todo
        invariant accounts == Ensure(old(accounts), codes - todo)
        invariant codes - todo <= accounts
        invariant forall a :: a in states ==> states[a] == AccountState(Balance(rows, a), LastSeq(rows, a))
        decreases |todo|
      {
        ghost var some := SomeMember(todo);
        var code :| code in todo;
        if Lazy(code) {
          accounts := accounts + {code};
        }
        if code !in accounts {
          return Err(AccountMissing);
        }
        states := states[code := AccountState(Balance(rows, code), LastSeq(rows, code))];
        todo := todo - {code};
      }
      assert codes - todo == codes;
      r := Ok(states);
    }

    /** The rows of a transaction, from the loaded balances, which are kept up to date in memory. */
    static method AppendEntries(loaded: map<Account, AccountState>, before: seq<Row>, tx: nat, entries: seq<Entry>)
      returns (r: Result<seq<Row>, Error>)
      requires loaded.Keys == AccountsOf(entries)
      requires forall a :: a in loaded ==> loaded[a] == AccountState(Balance(before, a), LastSeq(before, a))
      ensures r == Append(before, tx, entries)
    {
      var rows, states := before, loaded;
      for k := 0 to |entries|
        invariant states.Keys == AccountsOf(entries)
        invariant Append(before, tx, entries[..k]) == Ok(rows)
        invariant forall a :: a in states ==> states[a] == AccountState(Balance(rows, a), LastSeq(rows, a))
      {
        var entry := entries[k];
        assert entry.account in AccountsOf(entries);
        assert entries[..k + 1][..k] == entries[..k] && entries[..k + 1][k] == entry;
        var state := states[entry.account];
        var balance := if entry.direction == DR then state.balance - entry.amount else state.balance + entry.amount;
        if NonNegative(entry.account) && balance < 0 {
          AppendErrors(before, tx, entries, k + 1);
          return Err(InsufficientFunds);
        }
        var row := Row(tx, entry.account, entry.direction, entry.amount, balance, state.lastSeq + 1);
        assert (rows + [row])[..|rows|] == rows;
        rows := rows + [row];
        states := states[entry.account := AccountState(balance, state.lastSeq + 1)];
      }
      assert entries[..|entries|] == entries;
      r := Ok(rows);
    }

    /** `apply_entries`; an error rolls the database transaction back. */
    method ApplyEntries(tx: nat, entries: seq<Entry>) returns (r: Result<(), Error>)
      modifies this`accounts, this`rows
      ensures r.Ok? <==> Apply(old(Tables()), tx, entries).Ok?
      ensures r.Ok? ==> Tables() == Apply(old(Tables()), tx, entries).value
      ensures r.Err? ==> Tables() == old(Tables()) && Apply(old(Tables()), tx, entries) == Err(r.error)
    {
      var saved := accounts;
      var loaded := LoadAccounts(entries);
      if loaded.Err? {
        accounts := saved;
        return Err(loaded.error);
      }
      var appended := AppendEntries(loaded.value, rows, tx, entries);
      if appended.Err? {
        accounts := saved;
        return Err(appended.error);
      }
      rows := appended.value;
      r := Ok(());
    }

    static lemma {:induction false} AppendErrors(rows: seq<Row>, tx: nat, entries: seq<Entry>, k: nat)
      requires k <= |entries| && Append(rows, tx, entries[..k]).Err?
      ensures Append(rows, tx, entries) == Append(rows, tx, entries[..k])
    {
      if k == |entries| {
        assert entries[..k] == entries;
      } else {
        var n := |entries| - 1;
        assert entries[..n][..k] == entries[..k];
        AppendErrors(rows, tx, entries[..n], k);
      }
    }

    method Post(key: Key, entries: seq<Entry>) returns (r: Result<nat, Error>)
      modifies this
      ensures (Tables(), r) == PostTransaction(old(Tables()), key, entries)
    {
      if key == Blank || entries == [] || !WellFormed(entries) {
        return Err(InvalidArgument);
      }
      var balanced := EnsureBalanced(entries);
      if !balanced {
        return Err(InvalidArgument);
      }
      if key in keys {
        return Ok(keys[key]);
      }
      var tx := |keys|;
      var applied := ApplyEntries(tx, entries);
      if applied.Err? {
        return Err(applied.error);
      }
      keys := keys[key := tx];
      r := Ok(tx);
    }

    /** `ensure_balanced`: adds up debits and credits separately. */
    method EnsureBalanced(entries: seq<Entry>) returns (ok: bool)
      ensures ok <==> Balanced(entries)
    {
      var debit, credit := 0, 0;
      for k := 0 to |entries|
        invariant credit - debit == TotalOf(entries[..k])
      {
        assert entries[..k + 1][..k] == entries[..k] && entries[..k + 1][k] == entries[k];
        if entries[k].direction == DR { debit := debit + entries[k].amount; }
        else { credit := credit + entries[k].amount; }
      }
      assert entries[..|entries|] == entries;
      ok := debit == credit;
    }

    /** The end of a hold operation; the caller has changed the hold rows and rolls them back on an error. */
    method Record(key: Key, entries: seq<Entry>, hold: nat) returns (r: Result<nat, Error>)
      modifies this
      ensures (Tables(), r) == Operate(old(Tables()), key, entries, hold)
    {
      var tx := if key in keys then keys[key] else |keys|;
      var applied := ApplyEntries(tx, entries);
      if applied.Err? {
        return Err(applied.error);
      }
      keys := keys[key := tx];
      ops := ops[key := hold];
      r := Ok(hold);
    }

    method PlaceHold(key: Key, user: UserId, amount: int) returns (r: Result<nat, Error>)
      modifies this
      ensures (Tables(), r) == Ledger.PlaceHold(old(Tables()), key, user, amount)
    {
      if key == Blank || amount <= 0 {
        return Err(InvalidArgument);
      }
      if key in ops {
        return Ok(ops[key]);
      }
      var savedAccounts, savedHolds := accounts, holds;
      accounts := accounts + {Cash(user), Holds(user)};
      holds := holds + [Hold(user, amount, 0, 0, true)];
      r := Record(key, [Entry(Cash(user), DR, amount), Entry(Holds(user), CR, amount)], |savedHolds|);
      if r.Err? {
        accounts, holds := savedAccounts, savedHolds;
      }
    }

    method ReleaseHold(key: Key, hold: nat, amount: int) returns (r: Result<nat, Error>)
      modifies this
      ensures (Tables(), r) == Ledger.ReleaseHold(old(Tables()), key, hold, amount)
    {
      if key == Blank || amount <= 0 {
        return Err(InvalidArgument);
      }
      if key in ops {
        return Ok(ops[key]);
      }
      if hold >= |holds| {
        return Err(HoldNotFound);
      }
      var h := holds[hold];
      if !h.active {
        return Err(HoldNotActive);
      }
      if amount > h.amount - h.committed - h.released {
        return Err(ExceedsHold);
      }
      var savedHolds := holds;
      holds := holds[hold := UpdateHold(h, 0, amount)];
      r := Record(key, [Entry(Holds(h.user), DR, amount), Entry(Cash(h.user), CR, amount)], hold);
      if r.Err? {
        holds := savedHolds;
      }
    }

    /** The committed part to its destination, the released part to cash, then what comes with it. */
    method BuildCommitEntries(user: UserId, commit: int, release: int, destination: Account, extra: seq<Entry>)
      returns (entries: seq<Entry>)
      ensures entries == CommitEntries(user, commit, release, destination, extra)
    {
      entries := [];
      if commit > 0 {
        entries := entries + [Entry(Holds(user), DR, commit), Entry(destination, CR, commit)];
      }
      if release > 0 {
        entries := entries + [Entry(Holds(user), DR, release), Entry(Cash(user), CR, release)];
      }
      entries := entries + extra;
    }

    method CommitHold(key: Key, hold: nat, commit: int, release: int, destination: Account, extra: seq<Entry>)
      returns (r: Result<nat, Error>)
      modifies this
      ensures (Tables(), r) == Ledger.CommitHold(old(Tables()), key, hold, commit, release, destination, extra)
    {
      if key == Blank || commit < 0 || release < 0 || commit + release <= 0 || !WellFormed(extra) {
        return Err(InvalidArgument);
      }
      if key in ops {
        return Ok(ops[key]);
      }
      if hold >= |holds| {
        return Err(HoldNotFound);
      }
      var h := holds[hold];
      if !h.active {
        return Err(HoldNotActive);
      }
      if commit + release > h.amount - h.committed - h.released {
        return Err(ExceedsHold);
      }
      var entries := BuildCommitEntries(h.user, commit, release, destination, extra);
      var balanced := EnsureBalanced(entries);
      if !balanced {
        return Err(InvalidArgument);
      }
      var savedAccounts, savedHolds := accounts, holds;
      if commit > 0 {
        accounts := accounts + {destination};
      }
      holds := holds[hold := UpdateHold(h, commit, release)];
      r := Record(key, entries, hold);
      if r.Err? {
        accounts, holds := savedAccounts, savedHolds;
      }
    }

    method AdminCreditDeposit(nonce: nat, user: UserId, amount: int) returns (r: Result<nat, Error>)
      modifies this
      ensures (Tables(), r) == Deposit(old(Tables()), nonce, user, amount)
    {
      if amount <= 0 {
        return Err(InvalidArgument);
      }
      var saved := accounts;
      accounts := accounts + {House("ASSET:HOUSE:WALLET"), Cash(user), Holds(user)};
      var key := DepositKey(nonce);
      var tx := if key in keys then keys[key] else |keys|;
      var applied := ApplyEntries(tx, [Entry(House("ASSET:HOUSE:WALLET"), DR, amount), Entry(Cash(user), CR, amount)]);
      if applied.Err? {
        accounts := saved;
        return Err(applied.error);
      }
      keys := keys[key := tx];
      r := Ok(tx);
    }
  }
}
