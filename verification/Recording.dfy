/** What income and expenses store, what patching them changes, and what they add to every figure. */
module Recording {
  import opened Common
  import opened Lists
  import opened Ledger
  import opened Summary
  import opened Balances
  import opened Transfers

  // What is stored.

  /** A transaction is recorded exactly when its account is the user's. The row answered is stored
      after everything that was there, and has what the request has, with the amount negative for an
      expense and positive for income. */
  lemma TransactionIsStoredExactly(books: Books, user: nat, id: nat, d: TransactionCreate)
    requires AccountIdsUnique(books.accounts)
    ensures var (after, result) := TransactionCreated(books, user, id, d);
            && (result.Ok? <==> HasAccount(books.accounts, user, d.account))
            && (result.Err? ==> result.error == AccountNotFound && after == books)
            && (result.Ok? ==>
                  var row := result.value;
                  && after.accounts == books.accounts && after.rows == books.rows + [row]
                  && row.id == id && row.user == user && row.account == d.account && row.group == None
                  && row.kind == d.kind && row.category == d.category
                  && row.occurredAt == d.occurredAt && row.note == d.note
                  && (d.kind == Expense ==> row.amount + d.amount == 0)
                  && (d.kind == Income ==> row.amount == d.amount))
  {
    HasMeansFound(books.accounts, user, d.account);
  }

  // What a patch changes.

  /** After a patch each field that was sent has the value sent, a category or note sent as null is
      cleared, and everything else is as it was. The amount has the magnitude sent, or else the old
      one, and is negative exactly for an expense. */
  ghost predicate IsPatch(before: Row, changes: TransactionUpdate, after: Row) {
    && after.id == before.id && after.user == before.user && after.account == before.account
    && after.group == before.group
    && (changes.kind.Some? ==> after.kind == changes.kind.value)
    && (changes.kind.None? ==> after.kind == before.kind)
    && (changes.category.Some? ==> after.category == changes.category.value)
    && (changes.category.None? ==> after.category == before.category)
    && (changes.occurredAt.Some? ==> after.occurredAt == changes.occurredAt.value)
    && (changes.occurredAt.None? ==> after.occurredAt == before.occurredAt)
    && (changes.note.Some? ==> after.note == changes.note.value)
    && (changes.note.None? ==> after.note == before.note)
    && (changes.amount.Some? ==> after.amount in {changes.amount.value as int, -1 * changes.amount.value})
    && (changes.amount.None? ==> after.amount in {before.amount, -before.amount})
    && (after.amount < 0 <==> after.kind == Expense)
  }

  lemma PatchIsWhatWasSent(row: Row, changes: TransactionUpdate)
    requires row.kind != Transfer && row.amount != 0 && (row.amount < 0 <==> row.kind == Expense)
    ensures IsPatch(row, changes, Patched(row, changes))
  {}

  /** A patch is refused exactly when the row is not the user's, or belongs to a transfer. Otherwise
      the row answered is the patch of the one that was there, stored in its place, and every other
      row stays. */
  lemma PatchIsStoredExactly(books: Books, user: nat, id: nat, changes: TransactionUpdate, i: nat)
    requires RowIdsUnique(books.rows) && i < |books.rows| && books.rows[i].id == id && books.rows[i].user == user
    requires var row := books.rows[i];
             row.group.None? ==> row.kind != Transfer && row.amount != 0 && (row.amount < 0 <==> row.kind == Expense)
    ensures var (after, result) := TransactionUpdated(books, user, id, changes);
            if books.rows[i].group.Some? then after == books && result == Err(TransferNotEditable)
            else
              && result.Ok? && IsPatch(books.rows[i], changes, result.value)
              && after == books.(rows := books.rows[i := result.value])
  {
    FoundRow(books.rows, id, user);
    if books.rows[i].group.None? {
      PatchIsWhatWasSent(books.rows[i], changes);
      PatchStaysInPlace(books.rows, user, id, changes, i);
    }
    hide IsPatch, Patched, PatchedRows;
  }

  lemma PatchStaysInPlace(rows: seq<Row>, user: nat, id: nat, changes: TransactionUpdate, i: nat)
    requires RowIdsUnique(rows) && i < |rows| && rows[i].id == id && rows[i].user == user
    ensures PatchedRows(rows, id, user, changes) == rows[i := Patched(rows[i], changes)]
  {
    PatchedRowsAt(rows, id, user, changes, i);
    hide Patched;
    forall j: nat | j < |rows|
      ensures PatchedRows(rows, id, user, changes)[j] == rows[i := Patched(rows[i], changes)][j]
    {
      PatchedRowsAt(rows, id, user, changes, j);
    }
  }

  lemma PatchOfNothingIsRefused(books: Books, user: nat, id: nat, changes: TransactionUpdate)
    requires forall row | row in books.rows :: row.id != id || row.user != user
    ensures TransactionUpdated(books, user, id, changes) == (books, Err(TransactionNotFound))
  {
    FoundRow(books.rows, id, user);
  }

  // What recording adds.

  /** What the transaction brings in, or takes out. */
  function Effect(d: TransactionCreate): int {
    if d.kind == Expense then -1 * d.amount else d.amount
  }

  lemma CreationKeepsKeys(books: Books, user: nat, id: nat, d: TransactionCreate)
    requires Keyed(books) && HasAccount(books.accounts, user, d.account)
    ensures var after := TransactionCreated(books, user, id, d).0;
            && Keyed(after) && after.accounts == books.accounts && after.rows == books.rows + [PlainRow(user, id, d)]
            && Home(books.accounts, PlainRow(user, id, d)).Some? && PlainRow(user, id, d).amount == Effect(d)
  {
    HasMeansFound(books.accounts, user, d.account);
  }

  /** The balance of the account moves by the transaction, and no other balance does. */
  lemma RecordingMovesBalance(books: Books, user: nat, id: nat, d: TransactionCreate, before: AccountWithBalance,
                              after: AccountWithBalance)
    requires Keyed(books) && HasAccount(books.accounts, user, d.account)
    requires before in AccountsWithBalances(books, user)
    requires after in AccountsWithBalances(TransactionCreated(books, user, id, d).0, user)
    requires before.account == after.account
    ensures after.balance == before.balance + if before.account.id == d.account then Effect(d) else 0
  {
    CreationKeepsKeys(books, user, id, d);
    BalanceIsItsRows(books, user, before);
    BalanceIsItsRows(TransactionCreated(books, user, id, d).0, user, after);
    var row := PlainRow(user, id, d);
    var f := ValueWhere(OnAccount(before.account.id), RowAmount());
    hide AccountsWithBalances, Keyed, PlainRow;
    SumConcat(books.rows, [row], f);
    assert Sum([row], f) == f(row) by {
      assert [row][1..] == [];
    }
  }

  /** The total of the account's unit moves by the transaction, and no other total does. */
  lemma RecordingMovesTotal(books: Books, user: nat, id: nat, d: TransactionCreate, unit: string)
    requires Keyed(books) && HasAccount(books.accounts, user, d.account)
    ensures OrZero(TotalOf(BalancesPerUnit(TransactionCreated(books, user, id, d).0, user), unit))
         == OrZero(TotalOf(BalancesPerUnit(books, user), unit))
            + if Has(books.accounts, user, d.account, unit) then Effect(d) else 0
  {
    CreationKeepsKeys(books, user, id, d);
    HasMeansFound(books.accounts, user, d.account);
    var row := PlainRow(user, id, d);
    var f := Money(books.accounts, user, unit);
    TotalIsMoney(books, user, unit);
    TotalIsMoney(TransactionCreated(books, user, id, d).0, user, unit);
    RowMoney(books.accounts, user, row, unit);
    hide TotalOf, BalancesPerUnit, Keyed, Money;
    SumConcat(books.rows, [row], f);
    assert Sum([row], f) == f(row) by {
      assert [row][1..] == [];
    }
  }

  /** What the transaction adds to a figure of its kind, in a period and a unit. */
  function Adds(accounts: seq<Account>, user: nat, d: TransactionCreate, kind: Kind, period: Period, unit: string)
    : Option<int>
  {
    if d.kind == kind && Has(accounts, user, d.account, unit) && period.from <= d.occurredAt < period.to
    then Some(d.amount) else None
  }

  function AddsUnder(accounts: seq<Account>, user: nat, d: TransactionCreate, period: Period,
                     category: Option<string>, unit: string): Option<int>
  {
    if d.category == category then Adds(accounts, user, d, Expense, period, unit) else None
  }

  lemma InCells(accounts: seq<Account>, user: nat, id: nat, d: TransactionCreate, period: Period,
                category: Option<string>, unit: string)
    requires AccountIdsUnique(accounts) && HasAccount(accounts, user, d.account)
    ensures var row := PlainRow(user, id, d);
            && Home(accounts, row).Some?
            && (var x := Pair(row, Home(accounts, row).value);
                && (Cell(user, period, Income, unit)(x) <==> Adds(accounts, user, d, Income, period, unit).Some?)
                && (Cell(user, period, Expense, unit)(x) <==> Adds(accounts, user, d, Expense, period, unit).Some?)
                && (CategoryCell(user, period, category, unit)(x)
                    <==> AddsUnder(accounts, user, d, period, category, unit).Some?))
  {
    HasMeansFound(accounts, user, d.account);
    var row := PlainRow(user, id, d);
    var x := Pair(row, Home(accounts, row).value);
    assert OwnedWithinPeriod(user, period)(x) == (period.from <= d.occurredAt < period.to);
    assert KindInUnit(Expense, unit)(x) == (d.kind == Expense && x.account.unit == unit);
    assert KindInUnit(Income, unit)(x) == (d.kind == Income && x.account.unit == unit);
    assert Both(OwnedWithinPeriod(user, period), IsExpense())(x)
        == (OwnedWithinPeriod(user, period)(x) && d.kind == Expense);
    assert InCategory((category, unit))(x) == (d.category == category && x.account.unit == unit);
  }

  /** Recording adds the amount to the income or to the expenses, and an expense to its category, of
      exactly the periods that the time falls in and the unit of the account. */
  lemma RecordingAddsToFigures(books: Books, user: nat, id: nat, d: TransactionCreate, period: Period,
                               category: Option<string>, unit: string)
    requires Keyed(books) && HasAccount(books.accounts, user, d.account)
    ensures var before := IncomeAndExpensesPerUnit(books, user, period);
            var after := IncomeAndExpensesPerUnit(TransactionCreated(books, user, id, d).0, user, period);
            && TotalOf(after.income, unit)
               == Plus(TotalOf(before.income, unit), Adds(books.accounts, user, d, Income, period, unit))
            && TotalOf(after.expenses, unit)
               == Plus(TotalOf(before.expenses, unit), Adds(books.accounts, user, d, Expense, period, unit))
    ensures SpentOn(ExpensesByCategory(TransactionCreated(books, user, id, d).0, user, period), category, unit)
         == Plus(SpentOn(ExpensesByCategory(books, user, period), category, unit),
                 AddsUnder(books.accounts, user, d, period, category, unit))
  {
    hide IncomeAndExpensesPerUnit, ExpensesByCategory, TotalOf, SpentOn, SqlSum, InnerJoin, Cell, CategoryCell;
    var after := TransactionCreated(books, user, id, d).0;
    CreationKeepsKeys(books, user, id, d);
    TotalsAreCells(books, user, period, unit);
    TotalsAreCells(after, user, period, unit);
    CategoryTotalsAreCells(books, user, period, category, unit);
    CategoryTotalsAreCells(after, user, period, category, unit);
    hide TransactionCreated, Keyed, HasAccount, Has;
    var row := PlainRow(user, id, d);
    InCells(books.accounts, user, id, d, period, category, unit);
    hide PlainRow;
    RowAddsToCell(books.accounts, books.rows, row, Cell(user, period, Income, unit));
    RowAddsToCell(books.accounts, books.rows, row, Cell(user, period, Expense, unit));
    RowAddsToCell(books.accounts, books.rows, row, CategoryCell(user, period, category, unit));
  }

  // What the figures are made of.

  /** The row counts in this figure. */
  predicate Counts(accounts: seq<Account>, user: nat, row: Row, kind: Kind, period: Period, unit: string) {
    && row.user == user && row.kind == kind && period.from <= row.occurredAt < period.to
    && Has(accounts, user, row.account, unit)
  }

  function Counting(accounts: seq<Account>, user: nat, kind: Kind, period: Period, unit: string): Row -> bool {
    (row: Row) => Counts(accounts, user, row, kind, period, unit)
  }

  function CountingUnder(accounts: seq<Account>, user: nat, period: Period, category: Option<string>, unit: string)
    : Row -> bool
  {
    (row: Row) => Counts(accounts, user, row, Expense, period, unit) && row.category == category
  }

  /** A figure of the joined rows that p selects is the figure of the rows that q selects. */
  lemma {:induction false} JoinedFigure(accounts: seq<Account>, rows: seq<Row>, p: Pair -> bool, q: Row -> bool)
    requires Keyed(Books(accounts, rows))
    requires forall row | row in rows ::
               Home(accounts, row).Some? && (p(Pair(row, Home(accounts, row).value)) <==> q(row))
    ensures SqlSum(InnerJoin(rows, accounts), p, PairAmount()) == SqlSum(rows, q, RowAmount())
    decreases |rows|
  {
    if rows != [] {
      JoinedFigure(accounts, rows[1..], p, q);
      var pairs := [Pair(rows[0], Home(accounts, rows[0]).value)];
      OnlyHomeHasId(accounts, rows[0]);
      assert InnerJoin(rows, accounts) == pairs + InnerJoin(rows[1..], accounts);
      SqlSumConcat(pairs, InnerJoin(rows[1..], accounts), p, PairAmount());
      SqlSumOfOne(pairs[0], p, PairAmount());
    }
  }

  lemma RowInFigures(accounts: seq<Account>, user: nat, row: Row, period: Period, category: Option<string>,
                     unit: string)
    requires AccountIdsUnique(accounts) && Home(accounts, row).Some?
    ensures var x := Pair(row, Home(accounts, row).value);
            && (Cell(user, period, Income, unit)(x) <==> Counting(accounts, user, Income, period, unit)(row))
            && (Cell(user, period, Expense, unit)(x) <==> Counting(accounts, user, Expense, period, unit)(row))
            && (CategoryCell(user, period, category, unit)(x)
                <==> CountingUnder(accounts, user, period, category, unit)(row))
  {
    var x := Pair(row, Home(accounts, row).value);
    HasMeansFound(accounts, row.user, row.account);
    assert OwnedWithinPeriod(user, period)(x) == (row.user == user && period.from <= row.occurredAt < period.to);
    assert KindInUnit(Expense, unit)(x) == (row.kind == Expense && x.account.unit == unit);
    assert KindInUnit(Income, unit)(x) == (row.kind == Income && x.account.unit == unit);
    assert Both(OwnedWithinPeriod(user, period), IsExpense())(x)
        == (OwnedWithinPeriod(user, period)(x) && row.kind == Expense);
    assert InCategory((category, unit))(x) == (row.category == category && x.account.unit == unit);
  }

  /** A unit's income is the sum of the user's income rows in the period on accounts of the unit, its
      expenses and each category of them the negated sums of such expense rows; each is absent exactly
      when there is no such row. */
  lemma FiguresAreTheirRows(books: Books, user: nat, period: Period, category: Option<string>, unit: string)
    requires Keyed(books)
    ensures var flows := IncomeAndExpensesPerUnit(books, user, period);
            && TotalOf(flows.income, unit)
               == SqlSum(books.rows, Counting(books.accounts, user, Income, period, unit), RowAmount())
            && TotalOf(flows.expenses, unit)
               == Negate(SqlSum(books.rows, Counting(books.accounts, user, Expense, period, unit), RowAmount()))
    ensures SpentOn(ExpensesByCategory(books, user, period), category, unit)
         == Negate(SqlSum(books.rows, CountingUnder(books.accounts, user, period, category, unit), RowAmount()))
  {
    hide IncomeAndExpensesPerUnit, ExpensesByCategory, TotalOf, SpentOn, SqlSum, InnerJoin, Cell, CategoryCell,
         Counting, CountingUnder;
    TotalsAreCells(books, user, period, unit);
    CategoryTotalsAreCells(books, user, period, category, unit);
    var p, q := Cell(user, period, Income, unit), Counting(books.accounts, user, Income, period, unit);
    var p', q' := Cell(user, period, Expense, unit), Counting(books.accounts, user, Expense, period, unit);
    var p'' := CategoryCell(user, period, category, unit);
    var q'' := CountingUnder(books.accounts, user, period, category, unit);
    forall row | row in books.rows
      ensures Home(books.accounts, row).Some?
      ensures var x := Pair(row, Home(books.accounts, row).value);
              (p(x) <==> q(row)) && (p'(x) <==> q'(row)) && (p''(x) <==> q''(row))
    {
      RowInFigures(books.accounts, user, row, period, category, unit);
    }
    JoinedFigure(books.accounts, books.rows, p, q);
    JoinedFigure(books.accounts, books.rows, p', q');
    JoinedFigure(books.accounts, books.rows, p'', q'');
  }
}
