/** Serial runs of ledger requests by any number of users, and what every one of them keeps. */
module LedgerRuns {
  import opened Common
  import opened Lists
  import opened Ledger
  import opened Summary
  import opened Balances
  import opened Transfers
  import opened Paging

  datatype Request =
    | CreateAccount(id: nat, name: CiText, unit: string, kind: AccountType)
    | UpdateAccount(id: nat, accountChanges: AccountUpdate, now: Time)
    | CreateTransaction(id: nat, details: TransactionCreate)
    | UpdateTransaction(id: nat, changes: TransactionUpdate)
    | DeleteTransaction(id: nat)
    | CreateTransfer(transfer: TransferCreate, ids: TransferIds)
    | GetAccount(id: nat)
    | ListAccounts
    | GetTransaction(id: nat)
    | ListTransactions(filters: Filters, limit: nat, offset: nat)
    | GetSummary(period: Period)

  datatype Reply =
    | OneAccount(account: Result<AccountWithBalance>)
    | AllAccounts(accounts: seq<AccountWithBalance>)
    | OneTransaction(row: Result<Row>)
    | Deleted(deleted: Result<()>)
    | Transferred(rows: Result<seq<Row>>)
    | OnePage(items: seq<Row>, total: nat)
    | Figures(totals: seq<UnitTotal>, flows: IncomeAndExpenses, byCategory: seq<CategoryTotal>)

  function Served(books: Books, user: nat, r: Request): (Books, Reply) {
    match r
    case CreateAccount(id, name, unit, kind) =>
      var (after, result) := CreatedAccount(books, user, id, name, unit, kind);
      (after, OneAccount(result))
    case UpdateAccount(id, changes, now) =>
      var (after, result) := UpdatedAccount(books, user, id, changes, now);
      (after, OneAccount(result))
    case CreateTransaction(id, details) =>
      var (after, result) := TransactionCreated(books, user, id, details);
      (after, OneTransaction(result))
    case UpdateTransaction(id, changes) =>
      var (after, result) := TransactionUpdated(books, user, id, changes);
      (after, OneTransaction(result))
    case DeleteTransaction(id) =>
      var (after, result) := TransactionDeleted(books, user, id);
      (after, Deleted(result))
    case CreateTransfer(transfer, ids) =>
      var (after, result) := TransferCreated(books, user, transfer, ids);
      (after, Transferred(result))
    case GetAccount(id) =>
      (books, OneAccount(WithBalance(books, user, FoundOr(FindAccount(books.accounts, id, user), AccountNotFound))))
    case ListAccounts => (books, AllAccounts(AccountsWithBalances(books, user)))
    case GetTransaction(id) => (books, OneTransaction(FoundOr(FindRow(books.rows, id, user), TransactionNotFound)))
    case ListTransactions(filters, limit, offset) =>
      var matching := Filter(books.rows, Matching(user, filters));
      (books, OnePage(Page(Sort(matching), limit, offset), |matching|))
    case GetSummary(period) =>
      (books, Figures(BalancesPerUnit(books, user), IncomeAndExpensesPerUnit(books, user, period),
                      ExpensesByCategory(books, user, period)))
  }

  /** A request that only reads changes nothing. */
  predicate IsRead(r: Request) {
    r.GetAccount? || r.ListAccounts? || r.GetTransaction? || r.ListTransactions? || r.GetSummary?
  }

  /** Reads answer from the tables as they are: the row or account of that id if it is the user's, the
      list of accounts, a page the ordered query may give with the number of rows selected in all, and
      the figures. */
  lemma ReadsAnswerFromTheTables(books: Books, user: nat, r: Request)
    requires AccountIdsUnique(books.accounts) && RowIdsUnique(books.rows) && IsRead(r)
    ensures var (after, reply) := Served(books, user, r);
            && after == books
            && (r.GetTransaction? ==> reply.OneTransaction? && forall row ::
                  reply.row == Ok(row) <==> row in books.rows && row.id == r.id && row.user == user)
            && (r.GetAccount? ==> reply.OneAccount? && forall t ::
                  reply.account == Ok(t) <==> t in AccountsWithBalances(books, user) && t.account.id == r.id)
            && (r.GetTransaction? && reply.row.Err? ==> reply.row.error == TransactionNotFound)
            && (r.GetAccount? && reply.account.Err? ==> reply.account.error == AccountNotFound)
            && (r.ListAccounts? ==> reply == AllAccounts(AccountsWithBalances(books, user)))
            && (r.ListTransactions? ==>
                  && reply.OnePage? && MayAnswer(reply.items, books.rows, user, r.filters, r.limit, r.offset)
                  && reply.total == |Filter(books.rows, Matching(user, r.filters))|)
            && (r.GetSummary? ==>
                  && reply.Figures?
                  && reply.totals == BalancesPerUnit(books, user)
                  && reply.flows == IncomeAndExpensesPerUnit(books, user, r.period)
                  && reply.byCategory == ExpensesByCategory(books, user, r.period))
  {
    hide AccountsWithBalances, BalancesPerUnit, IncomeAndExpensesPerUnit, ExpensesByCategory, Filter, Sort, Page,
         AccountBalance, Owned;
    match r
    case GetTransaction(id) => FoundRow(books.rows, id, user);
    case GetAccount(id) =>
      FoundAccount(books.accounts, id, user);
      forall t
        ensures Served(books, user, r).1.account == Ok(t)
           <==> t in AccountsWithBalances(books, user) && t.account.id == id
      {
        ListedWithItsBalance(books, user, t);
        BalanceIsOf(books, user, t.account);
        BalanceIsOf(books, user, GetOr(FindAccount(books.accounts, id, user), t.account));
      }
    case ListTransactions(filters, limit, offset) =>
      var matching := Filter(books.rows, Matching(user, filters));
      SortSorts(matching);
      assert IsListing(Sort(matching), books.rows, user, filters);
    case _ =>
  }

  lemma BalanceIsOf(books: Books, user: nat, a: Account)
    ensures AccountBalance(Owned(books, user))(a).account == a
  {}

  /** Writes do to the tables, and answer, what the services do. */
  lemma WritesAnswerAsTheServices(books: Books, user: nat, r: Request)
    requires !IsRead(r)
    ensures var (after, reply) := Served(books, user, r);
            && (r.CreateAccount? ==>
                  reply.OneAccount?
                  && (after, reply.account) == CreatedAccount(books, user, r.id, r.name, r.unit, r.kind))
            && (r.UpdateAccount? ==>
                  reply.OneAccount?
                  && (after, reply.account) == UpdatedAccount(books, user, r.id, r.accountChanges, r.now))
            && (r.CreateTransaction? ==>
                  reply.OneTransaction? && (after, reply.row) == TransactionCreated(books, user, r.id, r.details))
            && (r.UpdateTransaction? ==>
                  reply.OneTransaction? && (after, reply.row) == TransactionUpdated(books, user, r.id, r.changes))
            && (r.DeleteTransaction? ==>
                  reply.Deleted? && (after, reply.deleted) == TransactionDeleted(books, user, r.id))
            && (r.CreateTransfer? ==>
                  reply.Transferred? && (after, reply.rows) == TransferCreated(books, user, r.transfer, r.ids))
  {
    hide CreatedAccount, UpdatedAccount, TransactionCreated, TransactionUpdated, TransactionDeleted, TransferCreated;
  }

  // History: every transfer ever recorded, with the units its accounts had at the time.

  datatype Record = Record(rows: seq<Row>, fromUnit: string, toUnit: string)

  datatype State = State(books: Books, recorded: map<nat, Record>)

  const EMPTY := State(Books([], []), map[])

  datatype Event = Event(user: nat, request: Request)

  /** Ids are handed out by the database, and a group id is random. */
  ghost predicate Enabled(s: State, e: Event) {
    match e.request
    case CreateAccount(id, _, _, _) => forall a | a in s.books.accounts :: a.id != id
    case CreateTransaction(id, _) => forall row | row in s.books.rows :: row.id != id
    case CreateTransfer(_, ids) => FreshIds(s.books.rows, ids) && ids.group !in s.recorded
    case _ => true
  }

  function Noted(s: State, e: Event): map<nat, Record> {
    if e.request.CreateTransfer? && TransferCreated(s.books, e.user, e.request.transfer, e.request.ids).1.Ok? then
      var d := e.request.transfer;
      s.recorded[e.request.ids.group :=
        Record(TransferRows(e.user, d, e.request.ids), UnitOf(s.books.accounts, d.from, e.user),
               UnitOf(s.books.accounts, d.to, e.user))]
    else s.recorded
  }

  function Next(s: State, e: Event): State {
    State(Served(s.books, e.user, e.request).0, Noted(s, e))
  }

  ghost predicate Valid(s: State, events: seq<Event>)
    decreases |events|
  {
    events == [] || (Enabled(s, events[0]) && Valid(Next(s, events[0]), events[1..]))
  }

  function Run(s: State, events: seq<Event>): State
    decreases |events|
  {
    if events == [] then s else Run(Next(s, events[0]), events[1..])
  }

  // What every run keeps.

  predicate InGroup(row: Row, group: nat) {
    row.group == Some(group)
  }

  function OfGroup(group: nat): Row -> bool {
    (row: Row) => InGroup(row, group)
  }

  /** Outside transfers, a row is income or expense, negative exactly when it is an expense. */
  predicate WellSigned(row: Row) {
    && row.kind != Transfer
    && (row.amount < 0 <==> row.kind == Expense)
    && 0 < Abs(row.amount) < AMOUNT_LIMIT
  }

  /** One row out, one row in on a different account of the same user, perhaps a fee as an expense;
      opposite amounts if the two accounts counted in one unit at the time. */
  predicate IsTransfer(record: Record, group: nat) {
    && 2 <= |record.rows| <= 3
    && (forall row | row in record.rows :: row.group == Some(group) && row.user == record.rows[0].user)
    && record.rows[0].kind == Transfer && record.rows[0].amount < 0
    && record.rows[1].kind == Transfer && record.rows[1].amount > 0
    && record.rows[0].account != record.rows[1].account
    && (|record.rows| == 3 ==> record.rows[2].kind == Expense && record.rows[2].amount < 0)
    && (record.fromUnit == record.toUnit ==> record.rows[0].amount + record.rows[1].amount == 0)
  }

  /** Each recorded transfer is wholly there, as it was written, or wholly gone. */
  ghost predicate GroupsAtomic(rows: seq<Row>, recorded: map<nat, Record>) {
    forall g | g in recorded :: Filter(rows, OfGroup(g)) == [] || Filter(rows, OfGroup(g)) == recorded[g].rows
  }

  ghost predicate GroupsRecorded(rows: seq<Row>, recorded: map<nat, Record>) {
    forall row | row in rows && row.group.Some? :: row.group.value in recorded
  }

  ghost predicate PlainRowsSigned(rows: seq<Row>) {
    forall row | row in rows && row.group.None? :: WellSigned(row)
  }

  ghost predicate Inv(s: State) {
    && Keyed(s.books)
    && RowIdsUnique(s.books.rows)
    && PlainRowsSigned(s.books.rows)
    && (forall g | g in s.recorded :: IsTransfer(s.recorded[g], g))
    && GroupsRecorded(s.books.rows, s.recorded)
    && GroupsAtomic(s.books.rows, s.recorded)
  }

  lemma EmptyInv()
    ensures Inv(EMPTY)
  {}

  // Accounts.

  lemma {:induction false} FindAfterAppend(accounts: seq<Account>, a: Account, id: nat, user: nat)
    ensures FindAccount(accounts, id, user).Some? ==>
              FindAccount(accounts + [a], id, user) == FindAccount(accounts, id, user)
    decreases |accounts|
  {
    if accounts != [] {
      assert (accounts + [a])[1..] == accounts[1..] + [a];
      FindAfterAppend(accounts[1..], a, id, user);
    }
  }

  lemma {:induction false} FindAmended(accounts: seq<Account>, id: nat, user: nat, changes: AccountUpdate, now: Time,
                                       other: nat, owner: nat)
    ensures FindAccount(AmendedAccounts(accounts, id, user, changes, now), other, owner)
         == match FindAccount(accounts, other, owner)
            case None => None
            case Some(a) => Some(if other == id && owner == user then Amended(a, changes, now) else a)
    decreases |accounts|
  {
    if accounts != [] {
      FindAmended(accounts[1..], id, user, changes, now, other, owner);
      var amended := AmendedAccounts(accounts, id, user, changes, now);
      assert amended[1..] == AmendedAccounts(accounts[1..], id, user, changes, now);
    }
  }

  lemma AmendKeepsKeys(books: Books, user: nat, id: nat, changes: AccountUpdate, now: Time)
    requires Keyed(books)
    ensures Keyed(books.(accounts := AmendedAccounts(books.accounts, id, user, changes, now)))
  {
    var accounts := books.accounts;
    forall row | row in books.rows
      ensures FindAccount(AmendedAccounts(accounts, id, user, changes, now), row.account, row.user).Some?
    {
      FindAmended(accounts, id, user, changes, now, row.account, row.user);
    }
    forall i: nat | i < |accounts|
      ensures |AmendedAccounts(accounts, id, user, changes, now)| == |accounts|
      ensures AmendedAccounts(accounts, id, user, changes, now)[i].id == accounts[i].id
    {
      AmendedAccountsAt(accounts, id, user, changes, now, i);
    }
  }

  lemma AppendKeepsKeys(books: Books, a: Account)
    requires Keyed(books) && forall other | other in books.accounts :: other.id != a.id
    ensures Keyed(books.(accounts := books.accounts + [a]))
  {
    forall row | row in books.rows
      ensures FindAccount(books.accounts + [a], row.account, row.user).Some?
    {
      FindAfterAppend(books.accounts, a, row.account, row.user);
    }
  }

  lemma AccountStepKeepsInv(s: State, e: Event)
    requires Inv(s) && Enabled(s, e) && (e.request.CreateAccount? || e.request.UpdateAccount?)
    ensures Inv(Next(s, e))
  {
    hide Keyed, GroupsAtomic, PlainRowsSigned, GroupsRecorded, IsTransfer, FindAccount, WithBalance;
    match e.request
    case CreateAccount(id, name, unit, kind) => AppendKeepsKeys(s.books, Account(id, e.user, name, unit, kind, None));
    case UpdateAccount(id, changes, now) => AmendKeepsKeys(s.books, e.user, id, changes, now);
  }

  // Plain rows.

  lemma PlainRowIsSigned(user: nat, id: nat, d: TransactionCreate)
    ensures WellSigned(PlainRow(user, id, d))
  {}

  lemma CreateKeepsInv(s: State, e: Event)
    requires Inv(s) && Enabled(s, e) && e.request.CreateTransaction?
    ensures Inv(Next(s, e))
  {
    var row := PlainRow(e.user, e.request.id, e.request.details);
    PlainRowIsSigned(e.user, e.request.id, e.request.details);
    forall g
      ensures Filter(s.books.rows + [row], OfGroup(g)) == Filter(s.books.rows, OfGroup(g))
    {
      FilterConcat(s.books.rows, [row], OfGroup(g));
      FilterNone([row], OfGroup(g));
      assert Filter(s.books.rows, OfGroup(g)) + [] == Filter(s.books.rows, OfGroup(g));
    }
    hide Filter, IsTransfer, WellSigned;
  }

  /** A patch keeps a plain row well signed, whatever it changes. */
  lemma PatchKeepsSign(row: Row, changes: TransactionUpdate)
    requires WellSigned(row)
    ensures WellSigned(Patched(row, changes))
  {}

  /** A patch of the kind alone turns the sign to match and keeps the magnitude. */
  lemma KindAloneKeepsMagnitude(row: Row, changes: TransactionUpdate)
    requires WellSigned(row) && changes.amount.None?
    ensures Abs(Patched(row, changes).amount) == Abs(row.amount)
    ensures Patched(row, changes).amount == -row.amount <==> Patched(row, changes).kind != row.kind
  {}

  lemma {:induction false} PatchKeepsGroups(rows: seq<Row>, id: nat, user: nat, changes: TransactionUpdate, g: nat)
    requires forall row | row in rows && row.id == id && row.user == user :: row.group.None?
    ensures Filter(PatchedRows(rows, id, user, changes), OfGroup(g)) == Filter(rows, OfGroup(g))
    decreases |rows|
  {
    if rows != [] {
      PatchKeepsGroups(rows[1..], id, user, changes, g);
      assert PatchedRows(rows, id, user, changes)[1..] == PatchedRows(rows[1..], id, user, changes);
    }
  }

  lemma PatchedFrom(rows: seq<Row>, id: nat, user: nat, changes: TransactionUpdate, patched: Row) returns (row: Row)
    requires patched in PatchedRows(rows, id, user, changes)
    ensures row in rows
    ensures patched == row || (row.id == id && row.user == user && patched == Patched(row, changes))
  {
    if rows != [] {
      PatchedRowsAt(rows, id, user, changes, 0);
    }
    var i :| 0 <= i < |PatchedRows(rows, id, user, changes)| && PatchedRows(rows, id, user, changes)[i] == patched;
    assert rows != [];
    PatchedRowsAt(rows, id, user, changes, i);
    row := rows[i];
  }

  lemma PatchAppliesToPlainRows(rows: seq<Row>, id: nat, user: nat)
    requires RowIdsUnique(rows) && FindRow(rows, id, user).Some? && FindRow(rows, id, user).value.group.None?
    ensures forall row | row in rows && row.id == id && row.user == user :: row.group.None?
  {
    FoundRow(rows, id, user);
  }

  lemma PatchedRowsKeep(books: Books, id: nat, user: nat, changes: TransactionUpdate)
    requires Keyed(books) && RowIdsUnique(books.rows) && PlainRowsSigned(books.rows)
    requires forall row | row in books.rows && row.id == id && row.user == user :: row.group.None?
    ensures var rows := PatchedRows(books.rows, id, user, changes);
            && Keyed(books.(rows := rows)) && RowIdsUnique(rows) && PlainRowsSigned(rows)
            && forall row | row in rows && row.group.Some? :: row in books.rows
  {
    var rows := PatchedRows(books.rows, id, user, changes);
    forall i: nat | i < |books.rows|
      ensures |rows| == |books.rows| && rows[i].id == books.rows[i].id
    {
      PatchedRowsAt(books.rows, id, user, changes, i);
    }
    forall patched | patched in rows
      ensures FindAccount(books.accounts, patched.account, patched.user).Some?
      ensures patched.group.None? ==> WellSigned(patched)
      ensures patched.group.Some? ==> patched in books.rows
    {
      var row := PatchedFrom(books.rows, id, user, changes, patched);
      if patched != row {
        PatchKeepsSign(row, changes);
      }
    }
    hide WellSigned, PatchedRows;
  }

  lemma UpdateKeepsInv(s: State, e: Event)
    requires Inv(s) && Enabled(s, e) && e.request.UpdateTransaction?
    ensures Inv(Next(s, e))
  {
    hide Filter, IsTransfer, PlainRowsSigned, Keyed, PatchedRows;
    var found := FindRow(s.books.rows, e.request.id, e.user);
    if found.Some? && found.value.group.None? {
      PatchAppliesToPlainRows(s.books.rows, e.request.id, e.user);
      PatchedRowsKeep(s.books, e.request.id, e.user, e.request.changes);
      forall g
        ensures Filter(PatchedRows(s.books.rows, e.request.id, e.user, e.request.changes), OfGroup(g))
             == Filter(s.books.rows, OfGroup(g))
      {
        PatchKeepsGroups(s.books.rows, e.request.id, e.user, e.request.changes, g);
      }
    }
    hide FindRow, RowIdsUnique;
  }

  // Deletion.

  lemma DeletionFilters(books: Books, user: nat, id: nat)
    ensures TransactionDeleted(books, user, id).0
         == books.(rows := Filter(books.rows, Kept(id, user, TargetGroup(books.rows, id, user))))
  {}

  /** A row dooms its whole group, and a group is doomed only by a row of its own. */
  lemma GroupsGoTogether(rows: seq<Row>, id: nat, user: nat, a: Row, b: Row)
    requires RowIdsUnique(rows) && a in rows && b in rows
    requires a.group.Some? && a.group == b.group && a.user == b.user
    ensures Kept(id, user, TargetGroup(rows, id, user))(a) == Kept(id, user, TargetGroup(rows, id, user))(b)
  {
    FoundRow(rows, id, user);
  }

  lemma DeleteKeepsGroup(rows: seq<Row>, id: nat, user: nat, g: nat, record: Record)
    requires RowIdsUnique(rows) && IsTransfer(record, g)
    requires Filter(rows, OfGroup(g)) == [] || Filter(rows, OfGroup(g)) == record.rows
    ensures (var left := Filter(Filter(rows, Kept(id, user, TargetGroup(rows, id, user))), OfGroup(g));
             left == [] || left == record.rows)
    ensures Filter(rows, OfGroup(g)) == [] ==>
              Filter(Filter(rows, Kept(id, user, TargetGroup(rows, id, user))), OfGroup(g)) == []
  {
    var keep := Kept(id, user, TargetGroup(rows, id, user));
    FilterTwice(rows, keep, OfGroup(g));
    var group := Filter(rows, OfGroup(g));
    if group != [] {
      var first := group[0];
      forall row | row in group
        ensures keep(row) == keep(first)
      {
        GroupsGoTogether(rows, id, user, row, first);
      }
      if keep(first) {
        FilterAll(group, keep);
      } else {
        FilterNone(group, keep);
      }
    }
  }

  lemma DeleteKeepsInv(s: State, e: Event)
    requires Inv(s) && e.request.DeleteTransaction?
    ensures Inv(Next(s, e))
  {
    var rows := s.books.rows;
    var id := e.request.id;
    var rows' := Filter(rows, Kept(id, e.user, TargetGroup(rows, id, e.user)));
    DeletionFilters(s.books, e.user, id);
    SelectionKeepsIds(rows, Kept(id, e.user, TargetGroup(rows, id, e.user)));
    forall g | g in s.recorded
      ensures Filter(rows', OfGroup(g)) == [] || Filter(rows', OfGroup(g)) == s.recorded[g].rows
    {
      DeleteKeepsGroup(rows, id, e.user, g, s.recorded[g]);
    }
    hide Filter, IsTransfer, WellSigned, FindAccount, TransactionDeleted;
  }

  // Transfers.

  lemma TransferIsRecorded(books: Books, user: nat, d: TransferCreate, ids: TransferIds)
    requires Recorded(books, user, d, ids)
    ensures IsTransfer(Record(TransferRows(user, d, ids), UnitOf(books.accounts, d.from, user),
                              UnitOf(books.accounts, d.to, user)), ids.group)
  {
    assert d.from in AccountsOf(d) && d.to in AccountsOf(d);
  }

  lemma TransferKeepsIds(rows: seq<Row>, user: nat, d: TransferCreate, ids: TransferIds)
    requires RowIdsUnique(rows) && FreshIds(rows, ids)
    ensures RowIdsUnique(rows + TransferRows(user, d, ids))
  {
    var written := TransferRows(user, d, ids);
    var after := rows + written;
    forall i, j | 0 <= i < j < |after|
      ensures after[i].id != after[j].id
    {
      if i < |rows| <= j {
        assert after[i] == rows[i] && rows[i] in rows;
        assert after[j] == written[j - |rows|];
      } else if |rows| <= i {
        assert after[i] == written[i - |rows|] && after[j] == written[j - |rows|];
      }
    }
  }

  lemma TransferKeepsGroups(rows: seq<Row>, user: nat, d: TransferCreate, ids: TransferIds, g: nat)
    requires FreshIds(rows, ids)
    ensures Filter(rows + TransferRows(user, d, ids), OfGroup(g))
         == if g == ids.group then TransferRows(user, d, ids) else Filter(rows, OfGroup(g))
  {
    var written := TransferRows(user, d, ids);
    FilterConcat(rows, written, OfGroup(g));
    forall row | row in written
      ensures row.group == Some(ids.group)
    {
      TransferRowsAre(user, d, ids, row);
    }
    if g == ids.group {
      FilterNone(rows, OfGroup(g));
      FilterAll(written, OfGroup(g));
      assert [] + written == written;
    } else {
      FilterNone(written, OfGroup(g));
      assert Filter(rows, OfGroup(g)) + [] == Filter(rows, OfGroup(g));
    }
  }

  lemma TransferKeepsTables(books: Books, user: nat, d: TransferCreate, ids: TransferIds)
    requires Keyed(books) && RowIdsUnique(books.rows) && PlainRowsSigned(books.rows)
    requires Recorded(books, user, d, ids) && FreshIds(books.rows, ids)
    ensures var rows := books.rows + TransferRows(user, d, ids);
            && Keyed(books.(rows := rows)) && RowIdsUnique(rows) && PlainRowsSigned(rows)
            && forall row | row in rows && row.group.Some? :: row in books.rows || row.group == Some(ids.group)
  {
    TransferKeepsKeys(books, user, d, ids);
    TransferKeepsIds(books.rows, user, d, ids);
    forall row | row in TransferRows(user, d, ids)
      ensures row.group == Some(ids.group)
    {
      TransferRowsAre(user, d, ids, row);
    }
    hide WellSigned, FindAccount, TransferRows, Keyed, RowIdsUnique;
  }

  lemma RecordingKeepsInv(s: State, user: nat, d: TransferCreate, ids: TransferIds, record: Record)
    requires Inv(s) && Recorded(s.books, user, d, ids) && FreshIds(s.books.rows, ids) && ids.group !in s.recorded
    requires IsTransfer(record, ids.group) && record.rows == TransferRows(user, d, ids)
    ensures Inv(State(s.books.(rows := s.books.rows + record.rows), s.recorded[ids.group := record]))
  {
    hide Filter, IsTransfer, WellSigned, FindAccount, TransferRows, TransferCreated;
    var rows := s.books.rows + record.rows;
    var recorded := s.recorded[ids.group := record];
    TransferKeepsTables(s.books, user, d, ids);
    forall g | g in recorded
      ensures Filter(rows, OfGroup(g)) == [] || Filter(rows, OfGroup(g)) == recorded[g].rows
    {
      TransferKeepsGroups(s.books.rows, user, d, ids, g);
    }
    hide Keyed, RowIdsUnique, PlainRowsSigned;
  }

  lemma TransferKeepsInv(s: State, e: Event)
    requires Inv(s) && Enabled(s, e) && e.request.CreateTransfer?
    ensures Inv(Next(s, e))
  {
    hide Inv, IsTransfer, FreshIds;
    var d := e.request.transfer;
    var ids := e.request.ids;
    if Recorded(s.books, e.user, d, ids) {
      TransferIsRecorded(s.books, e.user, d, ids);
      RecordingKeepsInv(s, e.user, d, ids, Noted(s, e)[ids.group]);
    }
  }

  // Runs.

  lemma NextKeepsInv(s: State, e: Event)
    requires Inv(s) && Enabled(s, e)
    ensures Inv(Next(s, e))
  {
    match e.request
    case CreateAccount(_, _, _, _) => AccountStepKeepsInv(s, e);
    case UpdateAccount(_, _, _) => AccountStepKeepsInv(s, e);
    case CreateTransaction(_, _) => CreateKeepsInv(s, e);
    case UpdateTransaction(_, _) => UpdateKeepsInv(s, e);
    case DeleteTransaction(_) => DeleteKeepsInv(s, e);
    case CreateTransfer(_, _) => TransferKeepsInv(s, e);
    case _ => assert Next(s, e) == s;
  }

  lemma {:induction false} RunKeepsInv(s: State, events: seq<Event>)
    requires Inv(s) && Valid(s, events)
    ensures Inv(Run(s, events))
    decreases |events|
  {
    hide Inv, Enabled, Next;
    if events != [] {
      NextKeepsInv(s, events[0]);
      RunKeepsInv(Next(s, events[0]), events[1..]);
    }
  }

  /** After any run by any number of users, every transfer ever recorded is wholly there, just as it
      was written, or wholly gone; no row belongs to a group that was not recorded; and every other
      row is negative exactly when it is an expense. */
  lemma TransfersAreAtomic(events: seq<Event>, g: nat, row: Row)
    requires Valid(EMPTY, events)
    ensures var s := Run(EMPTY, events);
            && (g in s.recorded ==>
                  && IsTransfer(s.recorded[g], g)
                  && (Filter(s.books.rows, OfGroup(g)) == [] || Filter(s.books.rows, OfGroup(g)) == s.recorded[g].rows))
            && (row in s.books.rows && row.group.Some? ==>
                  row.group.value in s.recorded && row in s.recorded[row.group.value].rows)
            && (row in s.books.rows && row.group.None? ==> WellSigned(row))
  {
    EmptyInv();
    RunKeepsInv(EMPTY, events);
    var s := Run(EMPTY, events);
    if row in s.books.rows && row.group.Some? {
      assert row in Filter(s.books.rows, OfGroup(row.group.value));
    }
  }

  lemma PatchLeavesGroups(books: Books, user: nat, id: nat, changes: TransactionUpdate, g: nat)
    requires RowIdsUnique(books.rows)
    ensures Filter(TransactionUpdated(books, user, id, changes).0.rows, OfGroup(g)) == Filter(books.rows, OfGroup(g))
  {
    var found := FindRow(books.rows, id, user);
    if found.Some? && found.value.group.None? {
      PatchAppliesToPlainRows(books.rows, id, user);
      PatchKeepsGroups(books.rows, id, user, changes, g);
    }
  }

  lemma CreationLeavesGroups(books: Books, user: nat, id: nat, d: TransactionCreate, g: nat)
    ensures Filter(TransactionCreated(books, user, id, d).0.rows, OfGroup(g)) == Filter(books.rows, OfGroup(g))
  {
    FilterConcat(books.rows, [PlainRow(user, id, d)], OfGroup(g));
    FilterNone([PlainRow(user, id, d)], OfGroup(g));
    assert Filter(books.rows, OfGroup(g)) + [] == Filter(books.rows, OfGroup(g));
  }

  /** What was recorded stays recorded as it was, and a deleted transfer never comes back. */
  lemma GroupStepsForward(s: State, e: Event, g: nat)
    requires Inv(s) && Enabled(s, e) && g in s.recorded
    ensures g in Next(s, e).recorded && Next(s, e).recorded[g] == s.recorded[g]
    ensures Filter(s.books.rows, OfGroup(g)) == [] ==> Filter(Next(s, e).books.rows, OfGroup(g)) == []
  {
    var rows := s.books.rows;
    hide Filter, IsTransfer, Keyed, PlainRowsSigned, GroupsRecorded, TransactionUpdated, TransactionCreated,
         TransactionDeleted, UnitOf, RowIdsUnique;
    match e.request {
      case CreateTransaction(id, d) => CreationLeavesGroups(s.books, e.user, id, d, g);
      case UpdateTransaction(id, changes) => PatchLeavesGroups(s.books, e.user, id, changes, g);
      case DeleteTransaction(id) =>
        DeletionFilters(s.books, e.user, id);
        DeleteKeepsGroup(rows, id, e.user, g, s.recorded[g]);
      case CreateTransfer(d, ids) => TransferKeepsGroups(rows, e.user, d, ids, g);
      case _ =>
    }
  }

  lemma {:induction false} DeletedTransfersStayDeleted(s: State, events: seq<Event>, g: nat)
    requires Inv(s) && Valid(s, events) && g in s.recorded
    ensures g in Run(s, events).recorded && Run(s, events).recorded[g] == s.recorded[g]
    ensures Filter(s.books.rows, OfGroup(g)) == [] ==> Filter(Run(s, events).books.rows, OfGroup(g)) == []
    decreases |events|
  {
    if events != [] {
      GroupStepsForward(s, events[0], g);
      NextKeepsInv(s, events[0]);
      hide Inv, Enabled, Next, Filter;
      DeletedTransfersStayDeleted(Next(s, events[0]), events[1..], g);
    }
  }

  // The net of transfers.

  function GroupOf(): Row -> Option<nat> { (row: Row) => row.group }

  ghost predicate SharesUnit(s: State, g: nat)
    requires g in s.recorded && IsTransfer(s.recorded[g], g)
  {
    var rows := s.recorded[g].rows;
    UnitOf(s.books.accounts, rows[0].account, rows[0].user) == UnitOf(s.books.accounts, rows[1].account, rows[1].user)
  }

  /** The transfer's two accounts count in one unit now, and what left one is what reached the other. */
  ghost predicate Balanced(s: State, g: nat)
    requires g in s.recorded && IsTransfer(s.recorded[g], g)
  {
    var rows := s.recorded[g].rows;
    SharesUnit(s, g) && rows[0].amount + rows[1].amount == 0
  }

  lemma KindMoney(accounts: seq<Account>, row: Row, user: nat, unit: string)
    requires Home(accounts, row).Some?
    ensures MoneyOfKind(accounts, user, Transfer, unit)(row)
         == if row.kind == Transfer && row.user == user && UnitOf(accounts, row.account, row.user) == unit
            then row.amount else 0
  {
    assert PairAmount()(Pair(row, Home(accounts, row).value)) == row.amount;
  }

  lemma SumOfFew(rows: seq<Row>, f: Row -> int)
    requires 2 <= |rows| <= 3
    ensures Sum(rows, f) == f(rows[0]) + f(rows[1]) + if |rows| == 3 then f(rows[2]) else 0
  {
    assert Sum(rows[1..], f) == f(rows[1]) + Sum(rows[1..][1..], f);
    if |rows| == 3 {
      assert rows[1..][1..] == [rows[2]] && [rows[2]][1..] == [];
    }
  }

  /** What the rows of one transfer add up to, in a unit. */
  function TransferNet(s: State, g: nat, user: nat, unit: string): int {
    Sum(Filter(s.books.rows, OfGroup(g)), MoneyOfKind(s.books.accounts, user, Transfer, unit))
  }

  /** What a row moves in a unit, for its user. */
  function Moved(accounts: seq<Account>, row: Row, user: nat, unit: string): int {
    if row.user == user && UnitOf(accounts, row.account, row.user) == unit then row.amount else 0
  }

  lemma TransferNetIs(s: State, g: nat, user: nat, unit: string)
    requires Inv(s) && g in s.recorded && Filter(s.books.rows, OfGroup(g)) != []
    ensures (var rows := s.recorded[g].rows;
             TransferNet(s, g, user, unit)
             == Moved(s.books.accounts, rows[0], user, unit) + Moved(s.books.accounts, rows[1], user, unit))
  {
    var rows := s.recorded[g].rows;
    assert rows == Filter(s.books.rows, OfGroup(g));
    forall row | row in rows
      ensures Home(s.books.accounts, row).Some?
    {
      assert row in s.books.rows;
    }
    hide Filter, MoneyOfKind, Home, UnitOf;
    SumOfFew(rows, MoneyOfKind(s.books.accounts, user, Transfer, unit));
    KindMoney(s.books.accounts, rows[0], user, unit);
    KindMoney(s.books.accounts, rows[1], user, unit);
    if |rows| == 3 {
      KindMoney(s.books.accounts, rows[2], user, unit);
    }
  }

  /** A transfer that is there nets to zero in every unit exactly when it is balanced; made within one
      unit, exactly as long as its accounts share a unit. */
  lemma TransferNetsToZeroWhenBalanced(s: State, g: nat)
    requires Inv(s) && g in s.recorded && Filter(s.books.rows, OfGroup(g)) != []
    ensures Balanced(s, g) <==> forall unit :: TransferNet(s, g, s.recorded[g].rows[0].user, unit) == 0
    ensures s.recorded[g].fromUnit == s.recorded[g].toUnit ==>
              (SharesUnit(s, g) <==> forall unit :: TransferNet(s, g, s.recorded[g].rows[0].user, unit) == 0)
  {
    hide TransferNet, UnitOf, Keyed, GroupsAtomic;
    var rows := s.recorded[g].rows;
    var accounts := s.books.accounts;
    assert rows[1].user == rows[0].user;
    forall unit
      ensures TransferNet(s, g, rows[0].user, unit)
           == Moved(accounts, rows[0], rows[0].user, unit) + Moved(accounts, rows[1], rows[0].user, unit)
    {
      TransferNetIs(s, g, rows[0].user, unit);
    }
    var unit := UnitOf(accounts, rows[0].account, rows[0].user);
    assert Moved(accounts, rows[0], rows[0].user, unit) == rows[0].amount;
  }

  /** The transfer is this user's and one of its two accounts counts in the unit now. */
  ghost predicate Concerns(s: State, g: nat, user: nat, unit: string)
    requires g in s.recorded && IsTransfer(s.recorded[g], g)
  {
    var rows := s.recorded[g].rows;
    && rows[0].user == user
    && (|| UnitOf(s.books.accounts, rows[0].account, user) == unit
        || UnitOf(s.books.accounts, rows[1].account, user) == unit)
  }

  /** In a unit that a transfer does not concern it moves nothing; in one that it does, it nets to
      zero exactly when it is balanced. */
  lemma UnitNetIsZeroWhenBalanced(s: State, g: nat, user: nat, unit: string)
    requires Inv(s) && g in s.recorded && Filter(s.books.rows, OfGroup(g)) != []
    ensures TransferNet(s, g, user, unit) == 0 <==> (Concerns(s, g, user, unit) ==> Balanced(s, g))
  {
    var rows := s.recorded[g].rows;
    assert rows[1].user == rows[0].user by {
      assert rows[1] in rows;
    }
    TransferNetIs(s, g, user, unit);
    hide TransferNet, UnitOf, Keyed, GroupsAtomic;
  }

  lemma GroupNetsToZero(s: State, k: Option<nat>, user: nat, unit: string)
    requires Inv(s)
    requires k.Some? && Filter(s.books.rows, OfGroup(k.value)) != [] ==>
               k.value in s.recorded && (Concerns(s, k.value, user, unit) ==> Balanced(s, k.value))
    ensures GroupSum(s.books.rows, GroupOf(), MoneyOfKind(s.books.accounts, user, Transfer, unit))(k) == 0
  {
    var rows := s.books.rows;
    var money := MoneyOfKind(s.books.accounts, user, Transfer, unit);
    if k.None? {
      forall row | row in rows
        ensures GroupShare(GroupOf(), k, money)(row) == 0
      {
        KindMoney(s.books.accounts, row, user, unit);
      }
      SumZero(rows, GroupShare(GroupOf(), k, money));
    } else {
      SumOfSelected(rows, OfGroup(k.value), money);
      SumSame(rows, ValueWhere(OfGroup(k.value), money), GroupShare(GroupOf(), k, money));
      if Filter(rows, OfGroup(k.value)) != [] {
        UnitNetIsZeroWhenBalanced(s, k.value, user, unit);
      }
    }
  }

  /** Every transfer of the user that is there and has an account in the unit is balanced. */
  ghost predicate AllBalanced(s: State, user: nat, unit: string) {
    forall g | g in s.recorded && IsTransfer(s.recorded[g], g) ::
      Filter(s.books.rows, OfGroup(g)) != [] && Concerns(s, g, user, unit) ==> Balanced(s, g)
  }

  /** As long as they are balanced, a user's transfers net to nothing in a unit, whatever becomes of
      other users' transfers and of those in other units. */
  lemma TransfersNetToZero(s: State, user: nat, unit: string)
    requires Inv(s) && AllBalanced(s, user, unit)
    ensures Sum(s.books.rows, MoneyOfKind(s.books.accounts, user, Transfer, unit)) == 0
  {
    var rows := s.books.rows;
    var money := MoneyOfKind(s.books.accounts, user, Transfer, unit);
    var ks := Keys(rows, GroupOf());
    assert forall row :: row in rows ==> GroupOf()(row) in ks;
    SumByGroups(rows, GroupOf(), ks, money);
    forall k | k in ks
      ensures GroupSum(rows, GroupOf(), money)(k) == 0
    {
      if k.Some? && Filter(rows, OfGroup(k.value)) != [] {
        var row := Filter(rows, OfGroup(k.value))[0];
        assert row in rows && row.group == k;
      }
      GroupNetsToZero(s, k, user, unit);
    }
    SumZero(ks, GroupSum(rows, GroupOf(), money));
  }

  /** After any run, as long as a user's transfers that are there and have an account in a unit are
      balanced, what the user has in the unit is exactly what was earned less what was spent. */
  lemma MoneyIsEarnedOrSpent(events: seq<Event>, user: nat, period: Period, unit: string)
    requires Valid(EMPTY, events)
    requires Covers(period, Run(EMPTY, events).books, user)
    requires AllBalanced(Run(EMPTY, events), user, unit)
    ensures (var books := Run(EMPTY, events).books;
             var flows := IncomeAndExpensesPerUnit(books, user, period);
             OrZero(TotalOf(BalancesPerUnit(books, user), unit))
             == OrZero(TotalOf(flows.income, unit)) - OrZero(TotalOf(flows.expenses, unit)))
  {
    EmptyInv();
    RunKeepsInv(EMPTY, events);
    var s := Run(EMPTY, events);
    hide Run, Valid, TotalOf, BalancesPerUnit, IncomeAndExpensesPerUnit, Sum;
    TransfersNetToZero(s, user, unit);
    TotalsAreFlows(s.books, user, period, unit);
  }
}
