/** Accounts, signed transactions, and what each ledger request does to them.

    Amounts are whole numbers of 10^-18, the scale of the amount column. Row, account and group
    ids are handed out by the database or drawn at random, so they arrive as parameters. */
module Ledger {
  import opened Common
  import opened Lists

  datatype Result<+T> = Ok(value: T) | Err(error: Error)

  datatype Error =
    | AccountNotFound
    | AccountNameTaken
    | TransactionNotFound
    | TransferNotEditable
    | TransferAmountsDiffer
    | TransferSameAccount

  datatype Kind = Income | Expense | Transfer

  datatype AccountType = Cash | Crypto | Stock

  /** CITEXT: stored as written, compared by the form the database folds it to. */
  datatype CiText = CiText(text: string, folded: string)

  datatype Account = Account(id: nat, user: nat, name: CiText, unit: string, kind: AccountType,
                             archivedAt: Option<Time>)

  datatype Row = Row(id: nat, user: nat, account: nat, amount: int, kind: Kind, category: Option<string>,
                     occurredAt: Time, note: Option<string>, group: Option<nat>)

  datatype Books = Books(accounts: seq<Account>, rows: seq<Row>)

  // What a validated request carries: amounts are positive and have at most 36 digits.

  const AMOUNT_LIMIT: int := 1_000_000_000_000_000_000_000_000_000_000_000_000

  type Amount = n: int | 0 < n < AMOUNT_LIMIT witness 1

  type PlainKind = k: Kind | k != Transfer witness Income

  datatype TransactionCreate = TransactionCreate(
    account: nat, amount: Amount, kind: PlainKind, category: Option<string>, occurredAt: Time, note: Option<string>)

  /** None is a field that was not sent. A category or note sent as null is Some(None). */
  datatype TransactionUpdate = TransactionUpdate(
    amount: Option<Amount>, kind: Option<PlainKind>, category: Option<Option<string>>,
    occurredAt: Option<Time>, note: Option<Option<string>>)

  datatype Fee = Fee(amount: Amount, account: nat, category: Option<string>)

  datatype TransferCreate = TransferCreate(
    from: nat, to: nat, sent: Amount, received: Amount, fee: Option<Fee>, occurredAt: Time, note: Option<string>)

  datatype AccountUpdate = AccountUpdate(
    name: Option<CiText>, unit: Option<string>, kind: Option<AccountType>, archived: Option<bool>)

  /** The ids a transfer's rows and group are given. */
  datatype TransferIds = TransferIds(sent: nat, received: nat, fee: nat, group: nat)

  // Lookups.

  function GetOr<T>(o: Option<T>, default: T): T {
    match o
    case Some(v) => v
    case None => default
  }

  function FindAccount(accounts: seq<Account>, id: nat, user: nat): Option<Account> {
    if accounts == [] then None
    else if accounts[0].id == id && accounts[0].user == user then Some(accounts[0])
    else FindAccount(accounts[1..], id, user)
  }

  function FindRow(rows: seq<Row>, id: nat, user: nat): Option<Row> {
    if rows == [] then None
    else if rows[0].id == id && rows[0].user == user then Some(rows[0])
    else FindRow(rows[1..], id, user)
  }

  predicate AccountIdsUnique(accounts: seq<Account>) {
    forall i, j :: 0 <= i < j < |accounts| ==> accounts[i].id != accounts[j].id
  }

  predicate RowIdsUnique(rows: seq<Row>) {
    forall i, j :: 0 <= i < j < |rows| ==> rows[i].id != rows[j].id
  }

  // Plain transactions.

  function Negated(n: int): int { -n }

  /** The sign convention: money that goes out is negative. */
  function Signed(amount: Amount, kind: Kind): int {
    if kind == Expense then Negated(amount) else amount
  }

  function Abs(n: int): nat {
    if n < 0 then -n else n
  }

  function PlainRow(user: nat, id: nat, d: TransactionCreate): Row {
    Row(id, user, d.account, Signed(d.amount, d.kind), d.kind, d.category, d.occurredAt, d.note, None)
  }

  function TransactionCreated(books: Books, user: nat, id: nat, d: TransactionCreate): (Books, Result<Row>) {
    if FindAccount(books.accounts, d.account, user).None? then (books, Err(AccountNotFound))
    else (books.(rows := books.rows + [PlainRow(user, id, d)]), Ok(PlainRow(user, id, d)))
  }

  /** Each field is what was sent, or what it was; the amount takes the sign of the final kind as
      soon as either of the two was sent. An unsent amount keeps its magnitude. */
  function Patched(row: Row, changes: TransactionUpdate): Row {
    var kind := if changes.kind.Some? then changes.kind.value else row.kind;
    var magnitude := if changes.amount.Some? then changes.amount.value else Abs(row.amount);
    Row(row.id, row.user, row.account,
        if changes.amount.None? && changes.kind.None? then row.amount
        else if kind == Expense then -magnitude else magnitude,
        kind, GetOr(changes.category, row.category), GetOr(changes.occurredAt, row.occurredAt),
        GetOr(changes.note, row.note), row.group)
  }

  function PatchedRows(rows: seq<Row>, id: nat, user: nat, changes: TransactionUpdate): seq<Row> {
    if rows == [] then []
    else [if rows[0].id == id && rows[0].user == user then Patched(rows[0], changes) else rows[0]]
         + PatchedRows(rows[1..], id, user, changes)
  }

  function TransactionUpdated(books: Books, user: nat, id: nat, changes: TransactionUpdate): (Books, Result<Row>) {
    match FindRow(books.rows, id, user)
    case None => (books, Err(TransactionNotFound))
    case Some(row) =>
      if row.group.Some? then (books, Err(TransferNotEditable))
      else (books.(rows := PatchedRows(books.rows, id, user, changes)), Ok(Patched(row, changes)))
  }

  // Deletion, with the three truth values of SQL: None is NULL.

  function SqlEquals<T(==)>(a: Option<T>, b: Option<T>): Option<bool> {
    if a.None? || b.None? then None else Some(a.value == b.value)
  }

  function SqlOr(a: Option<bool>, b: Option<bool>): Option<bool> {
    if a == Some(true) || b == Some(true) then Some(true)
    else if a == Some(false) && b == Some(false) then Some(false)
    else None
  }

  function SqlAnd(a: Option<bool>, b: Option<bool>): Option<bool> {
    if a == Some(false) || b == Some(false) then Some(false)
    else if a == Some(true) && b == Some(true) then Some(true)
    else None
  }

  /** The scalar subquery: the group of the user's row, NULL when it has none or does not exist. */
  function TargetGroup(rows: seq<Row>, id: nat, user: nat): Option<nat> {
    match FindRow(rows, id, user)
    case Some(row) => row.group
    case None => None
  }

  predicate Doomed(row: Row, id: nat, user: nat, target: Option<nat>) {
    SqlAnd(Some(row.user == user), SqlOr(Some(row.id == id), SqlEquals(row.group, target))) == Some(true)
  }

  /** What a deletion leaves: every row for which the condition is not true. */
  function Kept(id: nat, user: nat, target: Option<nat>): Row -> bool {
    (row: Row) => !Doomed(row, id, user, target)
  }

  function TransactionDeleted(books: Books, user: nat, id: nat): (Books, Result<()>) {
    var target := TargetGroup(books.rows, id, user);
    var rows := Filter(books.rows, Kept(id, user, target));
    (books.(rows := rows), if |rows| < |books.rows| then Ok(()) else Err(TransactionNotFound))
  }

  // Transfers.

  function TransferRow(user: nat, id: nat, group: nat, d: TransferCreate, account: nat, amount: int,
                       kind: Kind, category: Option<string>): Row
  {
    Row(id, user, account, amount, kind, category, d.occurredAt, d.note, Some(group))
  }

  /** Out of one account, into another, and the fee, if any, as spending. */
  function TransferRows(user: nat, d: TransferCreate, ids: TransferIds): seq<Row> {
    [TransferRow(user, ids.sent, ids.group, d, d.from, Negated(d.sent), Transfer, None),
     TransferRow(user, ids.received, ids.group, d, d.to, d.received, Transfer, None)]
    + match d.fee
      case None => []
      case Some(fee) =>
        [TransferRow(user, ids.fee, ids.group, d, fee.account, Negated(fee.amount), Expense, fee.category)]
  }

  function AccountsOf(d: TransferCreate): set<nat> {
    {d.from, d.to} + if d.fee.Some? then {d.fee.value.account} else {}
  }

  predicate OwnsAll(accounts: seq<Account>, ids: set<nat>, user: nat) {
    forall id | id in ids :: FindAccount(accounts, id, user).Some?
  }

  predicate SameUnit(accounts: seq<Account>, a: nat, b: nat, user: nat)
    requires FindAccount(accounts, a, user).Some? && FindAccount(accounts, b, user).Some?
  {
    FindAccount(accounts, a, user).value.unit == FindAccount(accounts, b, user).value.unit
  }

  function TransferCreated(books: Books, user: nat, d: TransferCreate, ids: TransferIds): (Books, Result<seq<Row>>) {
    if d.from == d.to then (books, Err(TransferSameAccount))
    else if !OwnsAll(books.accounts, AccountsOf(d), user) then (books, Err(AccountNotFound))
    else if SameUnit(books.accounts, d.from, d.to, user) && d.sent != d.received then
      (books, Err(TransferAmountsDiffer))
    else (books.(rows := books.rows + TransferRows(user, d, ids)), Ok(TransferRows(user, d, ids)))
  }

  // Accounts.

  predicate NameTaken(accounts: seq<Account>, user: nat, name: CiText, except: Option<nat>) {
    exists a | a in accounts :: a.user == user && a.name.folded == name.folded && Some(a.id) != except
  }

  function AccountCreated(books: Books, user: nat, id: nat, name: CiText, unit: string, kind: AccountType)
    : (Books, Result<Account>)
  {
    if NameTaken(books.accounts, user, name, None) then (books, Err(AccountNameTaken))
    else
      var account := Account(id, user, name, unit, kind, None);
      (books.(accounts := books.accounts + [account]), Ok(account))
  }

  /** Archiving keeps the first date, restoring clears it, and a new unit converts nothing. */
  function Amended(account: Account, changes: AccountUpdate, now: Time): Account {
    Account(account.id, account.user, GetOr(changes.name, account.name), GetOr(changes.unit, account.unit),
            GetOr(changes.kind, account.kind),
            match changes.archived
            case None => account.archivedAt
            case Some(false) => None
            case Some(true) => if account.archivedAt.Some? then account.archivedAt else Some(now))
  }

  function AmendedAccounts(accounts: seq<Account>, id: nat, user: nat, changes: AccountUpdate, now: Time)
    : seq<Account>
  {
    if accounts == [] then []
    else [if accounts[0].id == id && accounts[0].user == user then Amended(accounts[0], changes, now) else accounts[0]]
         + AmendedAccounts(accounts[1..], id, user, changes, now)
  }

  function AccountUpdated(books: Books, user: nat, id: nat, changes: AccountUpdate, now: Time)
    : (Books, Result<Account>)
  {
    match FindAccount(books.accounts, id, user)
    case None => (books, Err(AccountNotFound))
    case Some(account) =>
      var amended := Amended(account, changes, now);
      if NameTaken(books.accounts, user, amended.name, Some(id)) then (books, Err(AccountNameTaken))
      else (books.(accounts := AmendedAccounts(books.accounts, id, user, changes, now)), Ok(amended))
  }

  // Lookups and rewrites, row by row.

  lemma {:induction false} FoundRow(rows: seq<Row>, id: nat, user: nat)
    ensures var found := FindRow(rows, id, user);
            && (found.Some? ==> found.value in rows && found.value.id == id && found.value.user == user)
            && (found.None? ==> forall row :: row in rows ==> row.id != id || row.user != user)
    decreases |rows|
  {
    if rows != [] {
      FoundRow(rows[1..], id, user);
    }
  }

  lemma {:induction false} FoundAccount(accounts: seq<Account>, id: nat, user: nat)
    ensures var found := FindAccount(accounts, id, user);
            && (found.Some? ==> found.value in accounts && found.value.id == id && found.value.user == user)
            && (found.None? ==> forall a :: a in accounts ==> a.id != id || a.user != user)
    decreases |accounts|
  {
    if accounts != [] {
      FoundAccount(accounts[1..], id, user);
    }
  }

  lemma {:induction false} PatchedRowsAt(rows: seq<Row>, id: nat, user: nat, changes: TransactionUpdate, i: nat)
    requires i < |rows|
    ensures |PatchedRows(rows, id, user, changes)| == |rows|
    ensures PatchedRows(rows, id, user, changes)[i]
         == if rows[i].id == id && rows[i].user == user then Patched(rows[i], changes) else rows[i]
    decreases |rows|
  {
    if i > 0 {
      PatchedRowsAt(rows[1..], id, user, changes, i - 1);
    } else if |rows| > 1 {
      PatchedRowsAt(rows[1..], id, user, changes, 0);
    }
  }

  lemma {:induction false} AmendedAccountsAt(accounts: seq<Account>, id: nat, user: nat, changes: AccountUpdate,
                                             now: Time, i: nat)
    requires i < |accounts|
    ensures |AmendedAccounts(accounts, id, user, changes, now)| == |accounts|
    ensures AmendedAccounts(accounts, id, user, changes, now)[i]
         == if accounts[i].id == id && accounts[i].user == user then Amended(accounts[i], changes, now) else accounts[i]
    decreases |accounts|
  {
    if i > 0 {
      AmendedAccountsAt(accounts[1..], id, user, changes, now, i - 1);
    } else if |accounts| > 1 {
      AmendedAccountsAt(accounts[1..], id, user, changes, now, 0);
    }
  }

  lemma {:induction false} SelectionKeepsIds(rows: seq<Row>, p: Row -> bool)
    requires RowIdsUnique(rows)
    ensures RowIdsUnique(Filter(rows, p))
    decreases |rows|
  {
    if rows != [] {
      SelectionKeepsIds(rows[1..], p);
      var rest := Filter(rows[1..], p);
      forall i | 0 <= i < |rest|
        ensures rest[i].id != rows[0].id
      {
        assert rest[i] in rows[1..];
      }
    }
  }
}
