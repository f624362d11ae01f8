/** The ledger services as they run: loops over sent fields, dictionaries and lists that grow, and
    tables changed in place, each proved to do what the functions of Ledger say. */
module LedgerService {
  import opened Common
  import opened Lists
  import opened Ledger
  import opened Summary
  import opened Balances

  /** One field assignment of a partial update. */
  datatype Field =
    | AmountField(amount: int)
    | KindField(kind: Kind)
    | CategoryField(category: Option<string>)
    | OccurredAtField(at: Time)
    | NoteField(note: Option<string>)

  function SetField(row: Row, field: Field): Row {
    match field
    case AmountField(amount) => row.(amount := amount)
    case KindField(kind) => row.(kind := kind)
    case CategoryField(category) => row.(category := category)
    case OccurredAtField(at) => row.(occurredAt := at)
    case NoteField(note) => row.(note := note)
  }

  function SetFields(row: Row, fields: seq<Field>): Row {
    if fields == [] then row
    else SetField(SetFields(row, fields[..|fields| - 1]), fields[|fields| - 1])
  }

  lemma SetOneMore(row: Row, fields: seq<Field>, field: Field)
    ensures SetFields(row, fields + [field]) == SetField(SetFields(row, fields), field)
  {
    assert (fields + [field])[..|fields|] == fields;
  }

  lemma NothingSent(row: Row)
    ensures SetFields(row, []) == row
  {}

  /** The account's columns a partial update may set. */
  datatype AccountField = NameField(name: CiText) | UnitField(unit: string) | TypeField(kind: AccountType)

  function SetAccountField(account: Account, field: AccountField): Account {
    match field
    case NameField(name) => account.(name := name)
    case UnitField(unit) => account.(unit := unit)
    case TypeField(kind) => account.(kind := kind)
  }

  function SetAccountFields(account: Account, fields: seq<AccountField>): Account {
    if fields == [] then account
    else SetAccountField(SetAccountFields(account, fields[..|fields| - 1]), fields[|fields| - 1])
  }

  lemma SetOneMoreAccountField(account: Account, fields: seq<AccountField>, field: AccountField)
    ensures SetAccountFields(account, fields + [field]) == SetAccountField(SetAccountFields(account, fields), field)
  {
    assert (fields + [field])[..|fields|] == fields;
  }

  lemma PatchIsUpdate(rows: seq<Row>, i: nat, user: nat, changes: TransactionUpdate)
    requires RowIdsUnique(rows) && i < |rows| && rows[i].user == user
    ensures PatchedRows(rows, rows[i].id, user, changes) == rows[i := Patched(rows[i], changes)]
  {
    PatchedRowsAt(rows, rows[i].id, user, changes, i);
    forall j: nat | j < |rows|
      ensures PatchedRows(rows, rows[i].id, user, changes)[j] == rows[i := Patched(rows[i], changes)][j]
    {
      PatchedRowsAt(rows, rows[i].id, user, changes, j);
    }
  }

  lemma AmendIsUpdate(accounts: seq<Account>, i: nat, user: nat, changes: AccountUpdate, now: Time)
    requires AccountIdsUnique(accounts) && i < |accounts| && accounts[i].user == user
    ensures AmendedAccounts(accounts, accounts[i].id, user, changes, now)
         == accounts[i := Amended(accounts[i], changes, now)]
  {
    AmendedAccountsAt(accounts, accounts[i].id, user, changes, now, i);
    forall j: nat | j < |accounts|
      ensures AmendedAccounts(accounts, accounts[i].id, user, changes, now)[j]
           == accounts[i := Amended(accounts[i], changes, now)][j]
    {
      AmendedAccountsAt(accounts, accounts[i].id, user, changes, now, j);
    }
  }

  lemma FoundRowIs(rows: seq<Row>, i: nat, user: nat)
    requires RowIdsUnique(rows) && i < |rows| && rows[i].user == user
    ensures FindRow(rows, rows[i].id, user) == Some(rows[i])
  {
    FoundRow(rows, rows[i].id, user);
  }

  lemma FoundAccountIs(accounts: seq<Account>, i: nat, user: nat)
    requires AccountIdsUnique(accounts) && i < |accounts| && accounts[i].user == user
    ensures FindAccount(accounts, accounts[i].id, user) == Some(accounts[i])
  {
    FoundAccount(accounts, accounts[i].id, user);
  }

  lemma SubsetOfSameSize(a: set<nat>, b: set<nat>)
    requires a <= b
    ensures |a| == |b| <==> a == b
  {
    assert b == a + (b - a);
  }

  lemma KeptOneMore(rows: seq<Row>, i: nat, keep: Row -> bool)
    requires i < |rows|
    ensures Filter(rows[..i + 1], keep) == Filter(rows[..i], keep) + if keep(rows[i]) then [rows[i]] else []
  {
    assert rows[..i + 1] == rows[..i] + [rows[i]];
    FilterConcat(rows[..i], [rows[i]], keep);
    assert [rows[i]][1..] == [];
  }

  class Service {
    var accounts: seq<Account>
    var rows: seq<Row>

    ghost function Contents(): Books
      reads this
    {
      Books(accounts, rows)
    }

    /** The primary keys. */
    ghost predicate Valid()
      reads this
    {
      AccountIdsUnique(accounts) && RowIdsUnique(rows)
    }

    constructor ()
      ensures Valid() && Contents() == Books([], [])
    {
      accounts := [];
      rows := [];
    }

    /** An account that does not exist and one that is someone else's are answered alike. */
    method GetAccount(id: nat, user: nat) returns (account: Option<Account>)
      requires Valid()
      ensures forall a :: account == Some(a) <==> a in accounts && a.id == id && a.user == user
    {
      FoundAccount(accounts, id, user);
      account := FindAccount(accounts, id, user);
    }

    /** One account, as the accounts list has it. */
    method GetAccountWithBalance(id: nat, user: nat) returns (result: Result<AccountWithBalance>)
      requires Valid()
      ensures forall t :: result == Ok(t) <==> t in AccountsWithBalances(Contents(), user) && t.account.id == id
      ensures result.Err? ==> result.error == AccountNotFound
    {
      var account := GetAccount(id, user);
      result := WithBalance(Books(accounts, rows), user, FoundOr(account, AccountNotFound));
      forall t
        ensures result == Ok(t) <==> t in AccountsWithBalances(Contents(), user) && t.account.id == id
      {
        ListedWithItsBalance(Contents(), user, t);
        hide AccountsWithBalances, AccountBalance, Owned;
      }
    }

    /** The accounts among those asked for that are the user's, by id. */
    method GetAccounts(ids: set<nat>, user: nat) returns (found: map<nat, Account>)
      requires Valid()
      ensures forall id :: id in found <==> id in ids && FindAccount(accounts, id, user).Some?
      ensures forall id :: id in found ==> Some(found[id]) == FindAccount(accounts, id, user)
    {
      found := map[];
      for i := 0 to |accounts|
        invariant forall id :: id in found <==>
                    id in ids && exists j :: 0 <= j < i && accounts[j].id == id && accounts[j].user == user
        invariant forall id :: id in found ==> FindAccount(accounts, id, user) == Some(found[id])
      {
        if accounts[i].id in ids && accounts[i].user == user {
          FoundAccountIs(accounts, i, user);
          found := found[accounts[i].id := accounts[i]];
        }
      }
      forall id | id in ids
        ensures id in found <==> FindAccount(accounts, id, user).Some?
      {
        FoundAccount(accounts, id, user);
      }
    }

    method CreateTransaction(user: nat, id: nat, details: TransactionCreate) returns (result: Result<Row>)
      requires Valid() && forall row | row in rows :: row.id != id
      modifies this`rows
      ensures Valid()
      ensures (Contents(), result) == TransactionCreated(old(Contents()), user, id, details)
    {
      FoundAccount(accounts, details.account, user);
      var account := GetAccount(details.account, user);
      if account.None? {
        return Err(AccountNotFound);
      }
      var amount := if details.kind == Expense then Negated(details.amount) else details.amount;
      var row := Row(id, user, details.account, amount, details.kind, details.category, details.occurredAt,
                     details.note, None);
      rows := rows + [row];
      result := Ok(row);
    }

    method UpdateTransaction(user: nat, id: nat, changes: TransactionUpdate) returns (result: Result<Row>)
      requires Valid()
      modifies this`rows
      ensures Valid()
      ensures (Contents(), result) == TransactionUpdated(old(Contents()), user, id, changes)
    {
      var i := 0;
      while i < |rows| && !(rows[i].id == id && rows[i].user == user)
        invariant 0 <= i <= |rows|
        invariant forall j :: 0 <= j < i ==> rows[j].id != id || rows[j].user != user
      {
        i := i + 1;
      }
      FoundRow(rows, id, user);
      if i == |rows| {
        return Err(TransactionNotFound);
      }
      FoundRowIs(rows, i, user);
      var row := rows[i];
      if row.group.Some? {
        return Err(TransferNotEditable);
      }
      var sent := SentFields(row, changes);
      var original := row;
      for n := 0 to |sent|
        invariant rows == old(rows) && row == SetFields(original, sent[..n])
      {
        assert sent[..n + 1] == sent[..n] + [sent[n]];
        SetOneMore(original, sent[..n], sent[n]);
        row := SetField(row, sent[n]);
      }
      assert sent[..|sent|] == sent;
      PatchIsUpdate(rows, i, user, changes);
      rows := rows[i := row];
      result := Ok(row);
    }

    /** The fields the caller sent, with the amount recomputed when it or the kind was among them. */
    method SentFields(row: Row, changes: TransactionUpdate) returns (sent: seq<Field>)
      ensures SetFields(row, sent) == Patched(row, changes)
    {
      hide SetFields;
      sent := AddIfSent(row, [], if changes.kind.Some? then Some(KindField(changes.kind.value)) else None);
      sent := AddIfSent(row, sent,
                        if changes.category.Some? then Some(CategoryField(changes.category.value)) else None);
      sent := AddIfSent(row, sent,
                        if changes.occurredAt.Some? then Some(OccurredAtField(changes.occurredAt.value)) else None);
      sent := AddIfSent(row, sent, if changes.note.Some? then Some(NoteField(changes.note.value)) else None);
      NothingSent(row);
      ghost var was := SetFields(row, sent);
      assert was == row.(kind := GetOr(changes.kind, row.kind), category := GetOr(changes.category, row.category),
                         occurredAt := GetOr(changes.occurredAt, row.occurredAt),
                         note := GetOr(changes.note, row.note));
      if changes.amount.Some? || changes.kind.Some? {
        var kind := GetOr(changes.kind, row.kind);
        var magnitude: int := if changes.amount.Some? then changes.amount.value else Abs(row.amount);
        sent := AddIfSent(row, sent, Some(AmountField(if kind == Expense then Negated(magnitude) else magnitude)));
      }
    }

    /** A field the caller left out is not assigned. */
    method AddIfSent(row: Row, sent: seq<Field>, field: Option<Field>) returns (more: seq<Field>)
      ensures SetFields(row, more)
           == if field.Some? then SetField(SetFields(row, sent), field.value) else SetFields(row, sent)
    {
      more := sent;
      if field.Some? {
        SetOneMore(row, sent, field.value);
        more := sent + [field.value];
      }
    }

    method DeleteTransaction(user: nat, id: nat) returns (result: Result<()>)
      requires Valid()
      modifies this`rows
      ensures Valid()
      ensures (Contents(), result) == TransactionDeleted(old(Contents()), user, id)
    {
      var target := TargetGroup(rows, id, user);
      var kept: seq<Row> := [];
      var deleted: seq<nat> := [];
      for i := 0 to |rows|
        invariant rows == old(rows)
        invariant kept == Filter(rows[..i], Kept(id, user, target))
        invariant |kept| + |deleted| == i
      {
        KeptOneMore(rows, i, Kept(id, user, target));
        hide Doomed, Filter;
        if Doomed(rows[i], id, user, target) {
          deleted := deleted + [rows[i].id];
        } else {
          kept := kept + [rows[i]];
        }
      }
      assert rows[..|rows|] == rows;
      SelectionKeepsIds(rows, Kept(id, user, target));
      rows := kept;
      result := if |deleted| > 0 then Ok(()) else Err(TransactionNotFound);
    }

    /** Every check comes before a row is written. */
    method CreateTransfer(user: nat, details: TransferCreate, ids: TransferIds) returns (result: Result<seq<Row>>)
      requires Valid()
      requires ids.sent != ids.received && ids.sent != ids.fee && ids.received != ids.fee
      requires forall row | row in rows :: row.id != ids.sent && row.id != ids.received && row.id != ids.fee
      modifies this`rows
      ensures Valid()
      ensures (Contents(), result) == TransferCreated(old(Contents()), user, details, ids)
    {
      if details.from == details.to {
        return Err(TransferSameAccount);
      }
      var accountIds := {details.from, details.to};
      if details.fee.Some? {
        accountIds := accountIds + {details.fee.value.account};
      }
      var found := GetAccounts(accountIds, user);
      assert accountIds == AccountsOf(details);
      assert found.Keys <= accountIds;
      SubsetOfSameSize(found.Keys, accountIds);
      if |found| != |accountIds| {
        return Err(AccountNotFound);
      }
      var sameUnit := found[details.from].unit == found[details.to].unit;
      if sameUnit && details.sent != details.received {
        return Err(TransferAmountsDiffer);
      }
      var transactions := [
        TransferRow(user, ids.sent, ids.group, details, details.from, Negated(details.sent), Transfer, None),
        TransferRow(user, ids.received, ids.group, details, details.to, details.received, Transfer, None)];
      if details.fee.Some? {
        var fee := details.fee.value;
        transactions := transactions
          + [TransferRow(user, ids.fee, ids.group, details, fee.account, Negated(fee.amount), Expense, fee.category)];
      }
      assert transactions == TransferRows(user, details, ids);
      rows := rows + transactions;
      result := Ok(transactions);
    }

    method CreateAccount(user: nat, id: nat, name: CiText, unit: string, kind: AccountType)
      returns (result: Result<AccountWithBalance>)
      requires Valid() && forall a | a in accounts :: a.id != id
      modifies this`accounts
      ensures Valid()
      ensures (Contents(), result) == CreatedAccount(old(Contents()), user, id, name, unit, kind)
    {
      if NameTaken(accounts, user, name, None) {
        return Err(AccountNameTaken);
      }
      var account := Account(id, user, name, unit, kind, None);
      accounts := accounts + [account];
      result := Ok(AccountWithBalance(account, 0));
    }

    lemma CurrentIs(current: Result<AccountWithBalance>, id: nat, user: nat)
      requires Valid()
      requires forall t :: current == Ok(t) <==> t in AccountsWithBalances(Contents(), user) && t.account.id == id
      requires current.Err? ==> current.error == AccountNotFound
      ensures current == WithBalance(Contents(), user, FoundOr(FindAccount(accounts, id, user), AccountNotFound))
    {
      FoundAccount(accounts, id, user);
      var read := WithBalance(Contents(), user, FoundOr(FindAccount(accounts, id, user), AccountNotFound));
      if read.Ok? {
        ListedWithItsBalance(Contents(), user, read.value);
      }
      if current.Ok? {
        ListedWithItsBalance(Contents(), user, current.value);
      }
      hide AccountsWithBalances, Owned;
    }

    method UpdateAccount(user: nat, id: nat, changes: AccountUpdate, now: Time)
      returns (result: Result<AccountWithBalance>)
      requires Valid()
      modifies this`accounts
      ensures Valid()
      ensures (Contents(), result) == UpdatedAccount(old(Contents()), user, id, changes, now)
    {
      var current := GetAccountWithBalance(id, user);
      CurrentIs(current, id, user);
      if current.Err? {
        return Err(AccountNotFound);
      }
      var amended := AmendedAccount(current.value.account, changes, now);
      hide AccountBalance, Owned, AccountsWithBalances, Amended, NameTaken;
      if NameTaken(accounts, user, amended.name, Some(id)) {
        return Err(AccountNameTaken);
      }
      Replace(id, user, changes, now, amended);
      result := Ok(AccountWithBalance(amended, current.value.balance));
    }

    /** The account with the columns sent assigned, and archived or restored. */
    method AmendedAccount(account: Account, changes: AccountUpdate, now: Time) returns (amended: Account)
      ensures amended == Amended(account, changes, now)
    {
      amended := account;
      var sent := SentAccountFields(account, changes);
      for n := 0 to |sent|
        invariant amended == SetAccountFields(account, sent[..n])
      {
        assert sent[..n + 1] == sent[..n] + [sent[n]];
        SetOneMoreAccountField(account, sent[..n], sent[n]);
        amended := SetAccountField(amended, sent[n]);
      }
      assert sent[..|sent|] == sent;
      if changes.archived == Some(false) {
        amended := amended.(archivedAt := None);
      } else if changes.archived == Some(true) && amended.archivedAt.None? {
        amended := amended.(archivedAt := Some(now));
      }
    }

    /** The row of the account takes its new columns where it is. */
    method Replace(id: nat, user: nat, changes: AccountUpdate, now: Time, amended: Account)
      requires Valid() && FindAccount(accounts, id, user).Some?
      requires amended == Amended(FindAccount(accounts, id, user).value, changes, now)
      modifies this`accounts
      ensures Valid() && accounts == AmendedAccounts(old(accounts), id, user, changes, now)
    {
      FoundAccount(accounts, id, user);
      var i := 0;
      while !(accounts[i].id == id && accounts[i].user == user)
        invariant 0 <= i < |accounts| && accounts == old(accounts)
        invariant exists j :: i <= j < |accounts| && accounts[j].id == id && accounts[j].user == user
        decreases |accounts| - i
      {
        i := i + 1;
      }
      FoundAccountIs(accounts, i, user);
      AmendIsUpdate(accounts, i, user, changes, now);
      accounts := accounts[i := amended];
    }

    /** The columns sent; archived is a flag, not a column. A null counts as not sent. */
    method SentAccountFields(account: Account, changes: AccountUpdate) returns (sent: seq<AccountField>)
      ensures SetAccountFields(account, sent) == Amended(account, changes.(archived := None), 0)
    {
      sent := [];
      assert SetAccountFields(account, sent) == account;
      hide SetAccountFields;
      if changes.name.Some? {
        SetOneMoreAccountField(account, sent, NameField(changes.name.value));
        sent := sent + [NameField(changes.name.value)];
      }
      if changes.unit.Some? {
        SetOneMoreAccountField(account, sent, UnitField(changes.unit.value));
        sent := sent + [UnitField(changes.unit.value)];
      }
      if changes.kind.Some? {
        SetOneMoreAccountField(account, sent, TypeField(changes.kind.value));
        sent := sent + [TypeField(changes.kind.value)];
      }
    }
  }
}
