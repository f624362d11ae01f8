/** What a transfer does to every figure, and that deleting it undoes it. */
module Transfers {
  import opened Common
  import opened Lists
  import opened Ledger
  import opened Summary
  import opened Balances

  /** The ids a new transfer gets are not in use, and its group never was. */
  ghost predicate FreshIds(rows: seq<Row>, ids: TransferIds) {
    && ids.sent != ids.received && ids.sent != ids.fee && ids.received != ids.fee
    && forall row | row in rows ::
         row.id != ids.sent && row.id != ids.received && row.id != ids.fee && row.group != Some(ids.group)
  }

  ghost predicate Recorded(books: Books, user: nat, d: TransferCreate, ids: TransferIds) {
    TransferCreated(books, user, d, ids).1.Ok?
  }

  // Accepting.

  /** The account of that id is stored for the user and counts in the unit. */
  predicate Has(accounts: seq<Account>, user: nat, id: nat, unit: string) {
    exists a | a in accounts :: a.id == id && a.user == user && a.unit == unit
  }

  predicate HasAccount(accounts: seq<Account>, user: nat, id: nat) {
    exists a | a in accounts :: a.id == id && a.user == user
  }

  lemma HasMeansFound(accounts: seq<Account>, user: nat, id: nat)
    requires AccountIdsUnique(accounts)
    ensures HasAccount(accounts, user, id) <==> FindAccount(accounts, id, user).Some?
    ensures forall unit :: Has(accounts, user, id, unit) <==>
              FindAccount(accounts, id, user).Some? && FindAccount(accounts, id, user).value.unit == unit
  {
    FoundAccount(accounts, id, user);
  }

  /** Every account the request names is stored for the user. */
  predicate NamesOwnAccounts(accounts: seq<Account>, user: nat, d: TransferCreate) {
    && HasAccount(accounts, user, d.from) && HasAccount(accounts, user, d.to)
    && (d.fee.Some? ==> HasAccount(accounts, user, d.fee.value.account))
  }

  /** One amount leaves and another arrives, between accounts of one unit. */
  ghost predicate LosesOnTheWay(accounts: seq<Account>, user: nat, d: TransferCreate) {
    d.sent != d.received && exists unit :: Has(accounts, user, d.from, unit) && Has(accounts, user, d.to, unit)
  }

  /** A transfer is accepted exactly when it is between two different accounts, every account it names
      is the user's, and between accounts of one unit what arrives is what left. Otherwise the first
      of these to fail says which error is answered, and nothing is written. */
  lemma TransferIsAcceptedExactly(books: Books, user: nat, d: TransferCreate, ids: TransferIds)
    requires AccountIdsUnique(books.accounts)
    ensures var (after, result) := TransferCreated(books, user, d, ids);
            && (result.Ok? <==> d.from != d.to && NamesOwnAccounts(books.accounts, user, d)
                                && !LosesOnTheWay(books.accounts, user, d))
            && (result.Err? ==>
                  && after == books
                  && result.error == if d.from == d.to then TransferSameAccount
                                     else if !NamesOwnAccounts(books.accounts, user, d) then AccountNotFound
                                     else TransferAmountsDiffer)
  {
    HasMeansFound(books.accounts, user, d.from);
    HasMeansFound(books.accounts, user, d.to);
    if d.fee.Some? {
      HasMeansFound(books.accounts, user, d.fee.value.account);
    }
    assert OwnsAll(books.accounts, AccountsOf(d), user) <==> NamesOwnAccounts(books.accounts, user, d) by {
      assert d.from in AccountsOf(d) && d.to in AccountsOf(d);
      assert d.fee.Some? ==> d.fee.value.account in AccountsOf(d);
    }
    hide FindAccount, HasAccount, TransferRows;
    if NamesOwnAccounts(books.accounts, user, d) {
      var unit := FindAccount(books.accounts, d.from, user).value.unit;
      assert Has(books.accounts, user, d.from, unit);
    }
  }

  /** An accepted transfer is answered and stored, after everything that was there, as one transfer row
      out of the one account, one into the other, and the fee, if any, as an expense under its own
      category; all at the time and with the note of the request, under one group. */
  lemma TransferStoresItsRows(books: Books, user: nat, d: TransferCreate, ids: TransferIds)
    requires Recorded(books, user, d, ids)
    ensures var (after, result) := TransferCreated(books, user, d, ids);
            var rows := result.value;
            && after.accounts == books.accounts && after.rows == books.rows + rows
            && |rows| == (if d.fee.Some? then 3 else 2)
            && (forall row | row in rows ::
                  && row.user == user && row.group == Some(ids.group)
                  && row.occurredAt == d.occurredAt && row.note == d.note)
            && rows[0].id == ids.sent && rows[0].kind == Transfer && rows[0].category == None
            && rows[0].account == d.from && rows[0].amount + d.sent == 0
            && rows[1].id == ids.received && rows[1].kind == Transfer && rows[1].category == None
            && rows[1].account == d.to && rows[1].amount == d.received
            && (d.fee.Some? ==>
                  var fee := d.fee.value;
                  && rows[2].id == ids.fee && rows[2].kind == Expense && rows[2].category == fee.category
                  && rows[2].account == fee.account && rows[2].amount + fee.amount == 0)
  {}

  // Undoing.

  lemma FoundAmong(rows: seq<Row>, row: Row)
    requires row in rows && forall other | other in rows :: other.id == row.id ==> other == row
    ensures FindRow(rows, row.id, row.user) == Some(row)
  {
    FoundRow(rows, row.id, row.user);
  }

  lemma TransferRowsAre(user: nat, d: TransferCreate, ids: TransferIds, row: Row)
    requires row in TransferRows(user, d, ids)
    ensures row.user == user && row.group == Some(ids.group) && row.id in {ids.sent, ids.received, ids.fee}
    ensures ids.sent != ids.received && ids.sent != ids.fee && ids.received != ids.fee ==>
              forall other | other in TransferRows(user, d, ids) :: other.id == row.id ==> other == row
  {}

  lemma DoomedByGroup(row: Row, id: nat, user: nat, group: nat)
    ensures Doomed(row, id, user, Some(group)) <==> row.user == user && (row.id == id || row.group == Some(group))
  {}

  /** Recording a transfer and deleting it by any one of its rows leaves the tables as they were,
      so every balance, summary and list too. */
  lemma DeletingUndoesTransfer(books: Books, user: nat, d: TransferCreate, ids: TransferIds, row: Row)
    requires Recorded(books, user, d, ids) && FreshIds(books.rows, ids) && row in TransferRows(user, d, ids)
    ensures TransactionDeleted(TransferCreated(books, user, d, ids).0, user, row.id) == (books, Ok(()))
  {
    var written := TransferRows(user, d, ids);
    var after := books.rows + written;
    TransferRowsAre(user, d, ids, row);
    hide Doomed, TransferRows, Filter;
    forall other | other in after && other.id == row.id
      ensures other == row
    {
      TransferRowsAre(user, d, ids, row);
    }
    FoundAmong(after, row);
    var keep := Kept(row.id, user, Some(ids.group));
    FilterConcat(books.rows, written, keep);
    forall r | r in books.rows
      ensures keep(r)
    {
      DoomedByGroup(r, row.id, user, ids.group);
    }
    FilterAll(books.rows, keep);
    forall r | r in written
      ensures !keep(r)
    {
      TransferRowsAre(user, d, ids, r);
      DoomedByGroup(r, row.id, user, ids.group);
    }
    FilterNone(written, keep);
    assert books.rows + [] == books.rows;
  }

  /** Deleting a row outside any transfer removes it alone: a null group is not equal to another. */
  lemma DeletingPlainRowRemovesItAlone(books: Books, user: nat, row: Row)
    requires RowIdsUnique(books.rows) && row in books.rows && row.user == user && row.group.None?
    ensures exists i :: 0 <= i < |books.rows| && books.rows[i] == row
              && TransactionDeleted(books, user, row.id)
                 == (books.(rows := books.rows[..i] + books.rows[i + 1..]), Ok(()))
  {
    var i :| 0 <= i < |books.rows| && books.rows[i] == row;
    FoundAmong(books.rows, row);
    FilterAllButOne(books.rows, i, Kept(row.id, user, TargetGroup(books.rows, row.id, user)));
  }

  /** Someone else's row, or none: nothing goes, and the answer is the same. */
  lemma DeletingOthersRowsDoesNothing(books: Books, user: nat, id: nat)
    requires FindRow(books.rows, id, user).None?
    ensures TransactionDeleted(books, user, id) == (books, Err(TransactionNotFound))
  {
    FoundRow(books.rows, id, user);
    FilterAll(books.rows, Kept(id, user, TargetGroup(books.rows, id, user)));
  }

  /** What a deletion takes: the user's row of that id, and with it every row of the user in the same
      transfer. */
  ghost predicate Takes(rows: seq<Row>, user: nat, id: nat, row: Row) {
    && row.user == user
    && (|| row.id == id
        || exists target | target in rows ::
             target.id == id && target.user == user && target.group.Some? && row.group == target.group)
  }

  /** A deletion leaves exactly the rows it does not take, in their order, and is answered as missing
      exactly when it takes none. */
  lemma DeletionTakesExactly(books: Books, user: nat, id: nat)
    requires RowIdsUnique(books.rows)
    ensures var (after, result) := TransactionDeleted(books, user, id);
            && after.accounts == books.accounts
            && (forall row :: row in after.rows <==> row in books.rows && !Takes(books.rows, user, id, row))
            && (forall p: Row -> bool ::
                  (forall row | row in books.rows :: p(row) <==> !Takes(books.rows, user, id, row)) ==>
                    after.rows == Filter(books.rows, p))
            && (result.Ok? <==> exists row | row in books.rows :: row.id == id && row.user == user)
            && (result.Err? ==> result.error == TransactionNotFound && after == books)
  {
    var keep := Kept(id, user, TargetGroup(books.rows, id, user));
    FoundRow(books.rows, id, user);
    forall row | row in books.rows
      ensures keep(row) <==> !Takes(books.rows, user, id, row)
    {
      TakenExactly(books.rows, user, id, row);
    }
    forall p: Row -> bool | forall row | row in books.rows :: p(row) <==> !Takes(books.rows, user, id, row)
      ensures Filter(books.rows, keep) == Filter(books.rows, p)
    {
      FilterSame(books.rows, keep, p);
    }
    FilterShortens(books.rows, keep);
    if FindRow(books.rows, id, user).None? {
      DeletingOthersRowsDoesNothing(books, user, id);
    }
    hide Filter, Doomed, FindRow;
  }

  lemma TakenExactly(rows: seq<Row>, user: nat, id: nat, row: Row)
    requires RowIdsUnique(rows) && row in rows
    ensures Kept(id, user, TargetGroup(rows, id, user))(row) <==> !Takes(rows, user, id, row)
  {
    FoundRow(rows, id, user);
  }

  // Moving money.

  function UnitOf(accounts: seq<Account>, id: nat, user: nat): string {
    var a := FindAccount(accounts, id, user);
    if a.Some? then a.value.unit else ""
  }

  /** What the transfer's fee takes from a unit. */
  function FeeIn(accounts: seq<Account>, user: nat, d: TransferCreate, unit: string): int {
    if d.fee.Some? && UnitOf(accounts, d.fee.value.account, user) == unit then d.fee.value.amount else 0
  }

  lemma TransferKeepsKeys(books: Books, user: nat, d: TransferCreate, ids: TransferIds)
    requires Keyed(books) && Recorded(books, user, d, ids)
    ensures Keyed(TransferCreated(books, user, d, ids).0)
  {}

  lemma TransferRowsMoney(accounts: seq<Account>, user: nat, d: TransferCreate, ids: TransferIds, unit: string)
    requires OwnsAll(accounts, AccountsOf(d), user)
    ensures Sum(TransferRows(user, d, ids), Money(accounts, user, unit))
         == (if UnitOf(accounts, d.to, user) == unit then d.received else 0)
            - (if UnitOf(accounts, d.from, user) == unit then d.sent else 0)
            - FeeIn(accounts, user, d, unit)
  {
    var rows := TransferRows(user, d, ids);
    var money := Money(accounts, user, unit);
    assert d.from in AccountsOf(d) && d.to in AccountsOf(d);
    RowMoney(accounts, user, rows[0], unit);
    RowMoney(accounts, user, rows[1], unit);
    var fees := rows[2..];
    assert Sum(fees, money) == -FeeIn(accounts, user, d, unit) by {
      if d.fee.Some? {
        assert d.fee.value.account in AccountsOf(d);
        RowMoney(accounts, user, rows[2], unit);
        assert fees[1..] == [];
      }
    }
    assert rows[1..][1..] == fees;
    hide Money;
    assert Sum(rows, money) == money(rows[0]) + Sum(rows[1..], money);
    assert Sum(rows[1..], money) == money(rows[1]) + Sum(fees, money);
  }

  lemma RowMoney(accounts: seq<Account>, user: nat, row: Row, unit: string)
    requires row.user == user && FindAccount(accounts, row.account, user).Some?
    ensures Money(accounts, user, unit)(row) == if UnitOf(accounts, row.account, user) == unit then row.amount else 0
  {
    assert PairAmount()(Pair(row, Home(accounts, row).value)) == row.amount;
  }

  /** A transfer takes what was sent from one unit and gives what was received to another; its fee
      comes off the unit of the account that pays it. */
  lemma TransferMovesMoney(books: Books, user: nat, d: TransferCreate, ids: TransferIds, unit: string)
    requires Keyed(books) && Recorded(books, user, d, ids)
    ensures OrZero(TotalOf(BalancesPerUnit(TransferCreated(books, user, d, ids).0, user), unit))
         == OrZero(TotalOf(BalancesPerUnit(books, user), unit))
            + (if UnitOf(books.accounts, d.to, user) == unit then d.received else 0)
            - (if UnitOf(books.accounts, d.from, user) == unit then d.sent else 0)
            - FeeIn(books.accounts, user, d, unit)
  {
    TransferKeepsKeys(books, user, d, ids);
    TotalIsMoney(books, user, unit);
    TotalIsMoney(TransferCreated(books, user, d, ids).0, user, unit);
    SumConcat(books.rows, TransferRows(user, d, ids), Money(books.accounts, user, unit));
    TransferRowsMoney(books.accounts, user, d, ids, unit);
    hide TotalOf, BalancesPerUnit, Sum, Keyed, TransferRows, Money;
  }

  /** Between accounts of one unit nothing is gained or lost but the fee. */
  lemma SameUnitTransferConserves(books: Books, user: nat, d: TransferCreate, ids: TransferIds, unit: string)
    requires Keyed(books) && Recorded(books, user, d, ids)
    requires UnitOf(books.accounts, d.from, user) == UnitOf(books.accounts, d.to, user)
    ensures OrZero(TotalOf(BalancesPerUnit(TransferCreated(books, user, d, ids).0, user), unit))
         == OrZero(TotalOf(BalancesPerUnit(books, user), unit)) - FeeIn(books.accounts, user, d, unit)
  {
    TransferMovesMoney(books, user, d, ids, unit);
    assert d.from in AccountsOf(d) && d.to in AccountsOf(d);
    hide TotalOf, BalancesPerUnit, Keyed, TransferRows;
  }

  // Neither earned nor spent, except for the fee.

  lemma {:induction false} InnerJoinConcat(rows: seq<Row>, more: seq<Row>, accounts: seq<Account>)
    ensures InnerJoin(rows + more, accounts) == InnerJoin(rows, accounts) + InnerJoin(more, accounts)
    decreases |rows|
  {
    if rows == [] {
      assert rows + more == more;
    } else {
      assert (rows + more)[1..] == rows[1..] + more;
      InnerJoinConcat(rows[1..], more, accounts);
    }
  }

  /** What the fee adds to the spending of a period, in a unit. */
  function FeeSpent(accounts: seq<Account>, user: nat, d: TransferCreate, period: Period, unit: string): Option<int> {
    if d.fee.Some? && UnitOf(accounts, d.fee.value.account, user) == unit && period.from <= d.occurredAt < period.to
    then Some(d.fee.value.amount) else None
  }

  function CategoryFeeSpent(accounts: seq<Account>, user: nat, d: TransferCreate, period: Period,
                            category: Option<string>, unit: string): Option<int>
  {
    if d.fee.Some? && d.fee.value.category == category then FeeSpent(accounts, user, d, period, unit) else None
  }

  lemma RowJoins(accounts: seq<Account>, row: Row)
    requires AccountIdsUnique(accounts) && Home(accounts, row).Some?
    ensures InnerJoin([row], accounts) == [Pair(row, Home(accounts, row).value)]
  {
    OnlyHomeHasId(accounts, row);
    var m := (a: Account) => Pair(row, a);
    assert Map([Home(accounts, row).value], m) == [Pair(row, Home(accounts, row).value)];
    assert [row][1..] == [];
    assert InnerJoin([], accounts) == [];
  }

  lemma SqlSumOfOne<T>(x: T, p: T -> bool, f: T -> int)
    ensures SqlSum([x], p, f) == if p(x) then Some(f(x)) else None
  {
    assert [x][1..] == [];
  }

  /** One new row shows up in a figure when the figure selects it, and nowhere else. */
  lemma RowAddsToCell(accounts: seq<Account>, rows: seq<Row>, row: Row, p: Pair -> bool)
    requires AccountIdsUnique(accounts) && Home(accounts, row).Some?
    ensures SqlSum(InnerJoin(rows + [row], accounts), p, PairAmount())
         == Plus(SqlSum(InnerJoin(rows, accounts), p, PairAmount()),
                 if p(Pair(row, Home(accounts, row).value)) then Some(row.amount) else None)
  {
    InnerJoinConcat(rows, [row], accounts);
    RowJoins(accounts, row);
    SqlSumConcat(InnerJoin(rows, accounts), InnerJoin([row], accounts), p, PairAmount());
    SqlSumOfOne(Pair(row, Home(accounts, row).value), p, PairAmount());
  }

  /** What a figure that selects p picks up from the fee. */
  function FeeSelected(accounts: seq<Account>, user: nat, d: TransferCreate, ids: TransferIds, p: Pair -> bool)
    : Option<int>
  {
    if d.fee.None? then None
    else
      var row := TransferRow(user, ids.fee, ids.group, d, d.fee.value.account, Negated(d.fee.value.amount), Expense,
                             d.fee.value.category);
      if Home(accounts, row).Some? && p(Pair(row, Home(accounts, row).value)) then Some(row.amount) else None
  }

  /** The transfer rows select nothing of an income or expense figure; the fee is one expense. */
  lemma TransferAddsToCell(books: Books, user: nat, d: TransferCreate, ids: TransferIds, p: Pair -> bool)
    requires Keyed(books) && Recorded(books, user, d, ids)
    requires forall x: Pair :: p(x) ==> x.row.kind != Transfer
    ensures SqlSum(InnerJoin(TransferCreated(books, user, d, ids).0.rows, books.accounts), p, PairAmount())
         == Plus(SqlSum(InnerJoin(books.rows, books.accounts), p, PairAmount()),
                 FeeSelected(books.accounts, user, d, ids, p))
  {
    hide SqlSum, InnerJoin, Home;
    var written := TransferRows(user, d, ids);
    var moved := books.rows + [written[0]] + [written[1]];
    TransferHasHomes(books, user, d, ids);
    RowAddsToCell(books.accounts, books.rows, written[0], p);
    RowAddsToCell(books.accounts, books.rows + [written[0]], written[1], p);
    assert SqlSum(InnerJoin(moved, books.accounts), p, PairAmount())
        == SqlSum(InnerJoin(books.rows, books.accounts), p, PairAmount());
    if d.fee.Some? {
      RowAddsToCell(books.accounts, moved, written[2], p);
      assert books.rows + written == moved + [written[2]];
    } else {
      assert books.rows + written == moved;
    }
  }

  lemma TransferHasHomes(books: Books, user: nat, d: TransferCreate, ids: TransferIds)
    requires Recorded(books, user, d, ids)
    ensures forall row | row in TransferRows(user, d, ids) :: Home(books.accounts, row).Some?
  {
    assert d.from in AccountsOf(d) && d.to in AccountsOf(d);
    assert d.fee.Some? ==> d.fee.value.account in AccountsOf(d);
    hide FindAccount;
  }

  lemma FeeInCell(accounts: seq<Account>, user: nat, d: TransferCreate, ids: TransferIds, period: Period,
                  category: Option<string>, unit: string)
    requires OwnsAll(accounts, AccountsOf(d), user)
    ensures FeeSelected(accounts, user, d, ids, Cell(user, period, Income, unit)) == None
    ensures FeeSelected(accounts, user, d, ids, Cell(user, period, Expense, unit))
         == Negate(FeeSpent(accounts, user, d, period, unit))
    ensures FeeSelected(accounts, user, d, ids, CategoryCell(user, period, category, unit))
         == Negate(CategoryFeeSpent(accounts, user, d, period, category, unit))
  {
    if d.fee.Some? {
      assert d.fee.value.account in AccountsOf(d);
      var row := TransferRow(user, ids.fee, ids.group, d, d.fee.value.account, Negated(d.fee.value.amount), Expense,
                             d.fee.value.category);
      var x := Pair(row, Home(accounts, row).value);
      assert OwnedWithinPeriod(user, period)(x) == (period.from <= d.occurredAt < period.to);
      assert KindInUnit(Expense, unit)(x) == InCategory((row.category, unit))(x) == (x.account.unit == unit);
      assert !KindInUnit(Income, unit)(x) && IsExpense()(x);
      assert Both(OwnedWithinPeriod(user, period), IsExpense())(x) == OwnedWithinPeriod(user, period)(x);
      assert InCategory((category, unit))(x) == (row.category == category && x.account.unit == unit);
    }
  }

  lemma CellsExcludeTransfers(user: nat, period: Period, category: Option<string>, unit: string, x: Pair)
    ensures Cell(user, period, Income, unit)(x) ==> x.row.kind != Transfer
    ensures Cell(user, period, Expense, unit)(x) ==> x.row.kind != Transfer
    ensures CategoryCell(user, period, category, unit)(x) ==> x.row.kind != Transfer
  {
    assert CategoryCell(user, period, category, unit)(x) ==> Both(OwnedWithinPeriod(user, period), IsExpense())(x);
  }

  lemma TransferAddsToTotals(books: Books, user: nat, d: TransferCreate, ids: TransferIds, period: Period, unit: string)
    requires Keyed(books) && Recorded(books, user, d, ids)
    ensures var before := IncomeAndExpensesPerUnit(books, user, period);
            var after := IncomeAndExpensesPerUnit(TransferCreated(books, user, d, ids).0, user, period);
            && TotalOf(after.income, unit) == TotalOf(before.income, unit)
            && TotalOf(after.expenses, unit)
               == Plus(TotalOf(before.expenses, unit), FeeSpent(books.accounts, user, d, period, unit))
  {
    TotalsAreCells(books, user, period, unit);
    TotalsAreCells(TransferCreated(books, user, d, ids).0, user, period, unit);
    hide TotalOf, IncomeAndExpensesPerUnit, SqlSum, InnerJoin, Cell, TransferRows, FeeSpent, FeeSelected, Keyed;
    forall x: Pair
      ensures Cell(user, period, Income, unit)(x) ==> x.row.kind != Transfer
      ensures Cell(user, period, Expense, unit)(x) ==> x.row.kind != Transfer
    {
      CellsExcludeTransfers(user, period, None, unit, x);
    }
    TransferAddsToCell(books, user, d, ids, Cell(user, period, Income, unit));
    TransferAddsToCell(books, user, d, ids, Cell(user, period, Expense, unit));
    FeeInCell(books.accounts, user, d, ids, period, None, unit);
  }

  lemma TransferAddsToCategories(books: Books, user: nat, d: TransferCreate, ids: TransferIds, period: Period,
                                 category: Option<string>, unit: string)
    requires Keyed(books) && Recorded(books, user, d, ids)
    ensures SpentOn(ExpensesByCategory(TransferCreated(books, user, d, ids).0, user, period), category, unit)
         == Plus(SpentOn(ExpensesByCategory(books, user, period), category, unit),
                 CategoryFeeSpent(books.accounts, user, d, period, category, unit))
  {
    CategoryTotalsAreCells(books, user, period, category, unit);
    CategoryTotalsAreCells(TransferCreated(books, user, d, ids).0, user, period, category, unit);
    hide SpentOn, ExpensesByCategory, SqlSum, InnerJoin, CategoryCell, TransferRows, CategoryFeeSpent, FeeSelected,
         Keyed;
    forall x: Pair
      ensures CategoryCell(user, period, category, unit)(x) ==> x.row.kind != Transfer
    {
      CellsExcludeTransfers(user, period, category, unit, x);
    }
    TransferAddsToCell(books, user, d, ids, CategoryCell(user, period, category, unit));
    FeeInCell(books.accounts, user, d, ids, period, category, unit);
  }

  /** A transfer is neither income nor spending: in every period, unit and category the figures
      change by the fee alone, in the fee account's unit and under the fee's category. */
  lemma TransferIsNeitherEarnedNorSpent(books: Books, user: nat, d: TransferCreate, ids: TransferIds,
                                        period: Period, category: Option<string>, unit: string)
    requires Keyed(books) && Recorded(books, user, d, ids)
    ensures var before := IncomeAndExpensesPerUnit(books, user, period);
            var after := IncomeAndExpensesPerUnit(TransferCreated(books, user, d, ids).0, user, period);
            && TotalOf(after.income, unit) == TotalOf(before.income, unit)
            && TotalOf(after.expenses, unit)
               == Plus(TotalOf(before.expenses, unit), FeeSpent(books.accounts, user, d, period, unit))
    ensures SpentOn(ExpensesByCategory(TransferCreated(books, user, d, ids).0, user, period), category, unit)
         == Plus(SpentOn(ExpensesByCategory(books, user, period), category, unit),
                 CategoryFeeSpent(books.accounts, user, d, period, category, unit))
  {
    TransferAddsToTotals(books, user, d, ids, period, unit);
    TransferAddsToCategories(books, user, d, ids, period, category, unit);
  }
}
