/** The aggregate reads, as the joins, filters and groupings they are, and why the figures they
    give agree with each other. */
module Summary {
  import opened Common
  import opened Lists
  import opened Ledger

  datatype Period = Period(from: Time, to: Time)

  datatype UnitTotal = UnitTotal(unit: string, amount: int)

  datatype CategoryTotal = CategoryTotal(category: Option<string>, unit: string, amount: int)

  datatype AccountWithBalance = AccountWithBalance(account: Account, balance: int)

  datatype IncomeAndExpenses = IncomeAndExpenses(income: seq<UnitTotal>, expenses: seq<UnitTotal>)

  // The two joins.

  datatype OuterPair = OuterPair(account: Account, row: Option<Row>)

  datatype Pair = Pair(row: Row, account: Account)

  function OnAccount(id: nat): Row -> bool { (row: Row) => row.account == id }

  function HasId(id: nat): Account -> bool { (a: Account) => a.id == id }

  function OuterPairs(a: Account, rows: seq<Row>): seq<OuterPair> {
    if rows == [] then [OuterPair(a, None)] else Map(rows, (row: Row) => OuterPair(a, Some(row)))
  }

  /** accounts LEFT OUTER JOIN transactions ON the account id: no filter on the row's user. */
  function OuterJoin(accounts: seq<Account>, rows: seq<Row>): seq<OuterPair> {
    if accounts == [] then []
    else OuterPairs(accounts[0], Filter(rows, OnAccount(accounts[0].id))) + OuterJoin(accounts[1..], rows)
  }

  /** transactions JOIN accounts ON the account id. */
  function InnerJoin(rows: seq<Row>, accounts: seq<Account>): seq<Pair> {
    if rows == [] then []
    else
      Map(Filter(accounts, HasId(rows[0].account)), (a: Account) => Pair(rows[0], a))
      + InnerJoin(rows[1..], accounts)
  }

  // Balances.

  function OwnedBy(user: nat): OuterPair -> bool { (x: OuterPair) => x.account.user == user }

  function OuterUnit(): OuterPair -> string { (x: OuterPair) => x.account.unit }

  function OuterAccount(): OuterPair -> Account { (x: OuterPair) => x.account }

  function OuterAmount(): OuterPair -> int { (x: OuterPair) => if x.row.Some? then x.row.value.amount else 0 }

  function RowInUnit(unit: string): OuterPair -> bool { (x: OuterPair) => x.row.Some? && x.account.unit == unit }

  function RowOfAccount(a: Account): OuterPair -> bool { (x: OuterPair) => x.row.Some? && x.account == a }

  function Owned(books: Books, user: nat): seq<OuterPair> {
    Filter(OuterJoin(books.accounts, books.rows), OwnedBy(user))
  }

  function UnitBalance(joined: seq<OuterPair>): string -> UnitTotal {
    unit => UnitTotal(unit, OrZero(SqlSum(joined, RowInUnit(unit), OuterAmount())))
  }

  function BalancesPerUnit(books: Books, user: nat): seq<UnitTotal> {
    var joined := Owned(books, user);
    Map(Keys(joined, OuterUnit()), UnitBalance(joined))
  }

  function AccountBalance(joined: seq<OuterPair>): Account -> AccountWithBalance {
    a => AccountWithBalance(a, OrZero(SqlSum(joined, RowOfAccount(a), OuterAmount())))
  }

  /** GROUP BY the account's primary key, which decides every column of it. */
  function AccountsWithBalances(books: Books, user: nat): seq<AccountWithBalance> {
    var joined := Owned(books, user);
    Map(Keys(joined, OuterAccount()), AccountBalance(joined))
  }

  // What the account routes answer.

  function FoundOr<T>(found: Option<T>, error: Error): Result<T> {
    if found.Some? then Ok(found.value) else Err(error)
  }

  function WithBalance(books: Books, user: nat, account: Result<Account>): Result<AccountWithBalance> {
    match account
    case Err(error) => Err(error)
    case Ok(a) => Ok(AccountBalance(Owned(books, user))(a))
  }

  /** A new account is answered with a balance of zero. */
  function CreatedAccount(books: Books, user: nat, id: nat, name: CiText, unit: string, kind: AccountType)
    : (Books, Result<AccountWithBalance>)
  {
    var (after, result) := AccountCreated(books, user, id, name, unit, kind);
    (after, if result.Ok? then Ok(AccountWithBalance(result.value, 0)) else Err(result.error))
  }

  /** The balance an update answers with is the one read before the account was changed. */
  function UpdatedAccount(books: Books, user: nat, id: nat, changes: AccountUpdate, now: Time)
    : (Books, Result<AccountWithBalance>)
  {
    var (after, result) := AccountUpdated(books, user, id, changes, now);
    var before := WithBalance(books, user, FoundOr(FindAccount(books.accounts, id, user), AccountNotFound));
    (after, if result.Ok? && before.Ok? then Ok(AccountWithBalance(result.value, before.value.balance))
            else if result.Err? then Err(result.error) else before)
  }

  // Income and expenses of a period.

  function OwnedWithinPeriod(user: nat, period: Period): Pair -> bool {
    (x: Pair) => x.row.user == user && period.from <= x.row.occurredAt < period.to
  }

  function PairUnit(): Pair -> string { (x: Pair) => x.account.unit }

  function PairAmount(): Pair -> int { (x: Pair) => x.row.amount }

  function KindInUnit(kind: Kind, unit: string): Pair -> bool {
    (x: Pair) => x.row.kind == kind && x.account.unit == unit
  }

  function KindTotal(joined: seq<Pair>, kind: Kind): string -> Option<int> {
    unit => SqlSum(joined, KindInUnit(kind, unit), PairAmount())
  }

  function SpentTotal(joined: seq<Pair>): string -> Option<int> {
    unit => Negate(KindTotal(joined, Expense)(unit))
  }

  /** The units whose total is not NULL. */
  function PresentTotals(units: seq<string>, total: string -> Option<int>): seq<UnitTotal> {
    if units == [] then []
    else (if total(units[0]).Some? then [UnitTotal(units[0], total(units[0]).value)] else [])
         + PresentTotals(units[1..], total)
  }

  function Within(books: Books, user: nat, period: Period): seq<Pair> {
    Filter(InnerJoin(books.rows, books.accounts), OwnedWithinPeriod(user, period))
  }

  function IncomeAndExpensesPerUnit(books: Books, user: nat, period: Period): IncomeAndExpenses {
    var joined := Within(books, user, period);
    var units := Keys(joined, PairUnit());
    IncomeAndExpenses(PresentTotals(units, KindTotal(joined, Income)), PresentTotals(units, SpentTotal(joined)))
  }

  // Expenses by category.

  type CategoryKey = (Option<string>, string)

  function IsExpense(): Pair -> bool { (x: Pair) => x.row.kind == Expense }

  function CategoryAndUnit(): Pair -> CategoryKey { (x: Pair) => (x.row.category, x.account.unit) }

  function InCategory(key: CategoryKey): Pair -> bool {
    (x: Pair) => x.row.category == key.0 && x.account.unit == key.1
  }

  function CategorySpent(joined: seq<Pair>): CategoryKey -> CategoryTotal {
    (key: CategoryKey) => CategoryTotal(key.0, key.1, OrZero(Negate(SqlSum(joined, InCategory(key), PairAmount()))))
  }

  function ExpensesByCategory(books: Books, user: nat, period: Period): seq<CategoryTotal> {
    var joined := Filter(InnerJoin(books.rows, books.accounts), Both(OwnedWithinPeriod(user, period), IsExpense()));
    Map(Keys(joined, CategoryAndUnit()), CategorySpent(joined))
  }

  // Looking a figure up.

  function TotalOf(totals: seq<UnitTotal>, unit: string): Option<int> {
    if totals == [] then None
    else if totals[0].unit == unit then Some(totals[0].amount)
    else TotalOf(totals[1..], unit)
  }

  function SpentOn(totals: seq<CategoryTotal>, category: Option<string>, unit: string): Option<int> {
    if totals == [] then None
    else if totals[0].category == category && totals[0].unit == unit then Some(totals[0].amount)
    else SpentOn(totals[1..], category, unit)
  }

  lemma {:induction false} PresentTotalOf(units: seq<string>, total: string -> Option<int>, unit: string)
    requires Distinct(units)
    ensures TotalOf(PresentTotals(units, total), unit) == if unit in units then total(unit) else None
    decreases |units|
  {
    if units != [] {
      PresentTotalOf(units[1..], total, unit);
      assert unit in units <==> unit == units[0] || unit in units[1..];
      var rest := PresentTotals(units[1..], total);
      if total(units[0]).Some? {
        assert ([UnitTotal(units[0], total(units[0]).value)] + rest)[1..] == rest;
      } else {
        assert [] + rest == rest;
      }
    }
  }

  lemma {:induction false} MappedTotalOf(units: seq<string>, total: string -> UnitTotal, unit: string)
    requires Distinct(units) && forall u :: total(u).unit == u
    ensures TotalOf(Map(units, total), unit) == if unit in units then Some(total(unit).amount) else None
    decreases |units|
  {
    if units != [] {
      MappedTotalOf(units[1..], total, unit);
      assert unit in units <==> unit == units[0] || unit in units[1..];
      assert Map(units, total)[1..] == Map(units[1..], total);
    }
  }

  lemma {:induction false} MappedSpentOn(keys: seq<CategoryKey>, total: CategoryKey -> CategoryTotal,
                                         category: Option<string>, unit: string)
    requires Distinct(keys) && forall k :: total(k).category == k.0 && total(k).unit == k.1
    ensures SpentOn(Map(keys, total), category, unit)
         == if (category, unit) in keys then Some(total((category, unit)).amount) else None
    decreases |keys|
  {
    if keys != [] {
      MappedSpentOn(keys[1..], total, category, unit);
      assert (category, unit) in keys <==> (category, unit) == keys[0] || (category, unit) in keys[1..];
      assert Map(keys, total)[1..] == Map(keys[1..], total);
    }
  }

  // Every figure is one cell of the join.

  function Cell(user: nat, period: Period, kind: Kind, unit: string): Pair -> bool {
    Both(OwnedWithinPeriod(user, period), KindInUnit(kind, unit))
  }

  function CategoryCell(user: nat, period: Period, category: Option<string>, unit: string): Pair -> bool {
    Both(Both(OwnedWithinPeriod(user, period), IsExpense()), InCategory((category, unit)))
  }

  lemma KindTotalIsCell(books: Books, user: nat, period: Period, kind: Kind, unit: string)
    ensures var pairs := InnerJoin(books.rows, books.accounts);
            var joined := Within(books, user, period);
            && KindTotal(joined, kind)(unit) == SqlSum(pairs, Cell(user, period, kind, unit), PairAmount())
            && (unit !in Keys(joined, PairUnit()) ==> KindTotal(joined, kind)(unit) == None)
  {
    var pairs := InnerJoin(books.rows, books.accounts);
    var joined := Within(books, user, period);
    SqlSumOfSelected(pairs, OwnedWithinPeriod(user, period), KindInUnit(kind, unit), PairAmount());
    SqlSumIsSum(joined, KindInUnit(kind, unit), PairAmount());
    assert forall x :: x in joined ==> PairUnit()(x) in Keys(joined, PairUnit());
  }

  lemma TotalsAreCells(books: Books, user: nat, period: Period, unit: string)
    ensures var pairs := InnerJoin(books.rows, books.accounts);
            var totals := IncomeAndExpensesPerUnit(books, user, period);
            && TotalOf(totals.income, unit) == SqlSum(pairs, Cell(user, period, Income, unit), PairAmount())
            && TotalOf(totals.expenses, unit) == Negate(SqlSum(pairs, Cell(user, period, Expense, unit), PairAmount()))
  {
    var joined := Within(books, user, period);
    var units := Keys(joined, PairUnit());
    PresentTotalOf(units, KindTotal(joined, Income), unit);
    PresentTotalOf(units, SpentTotal(joined), unit);
    KindTotalIsCell(books, user, period, Income, unit);
    KindTotalIsCell(books, user, period, Expense, unit);
  }

  lemma CategoryTotalsAreCells(books: Books, user: nat, period: Period, category: Option<string>, unit: string)
    ensures SpentOn(ExpensesByCategory(books, user, period), category, unit)
         == Negate(SqlSum(InnerJoin(books.rows, books.accounts), CategoryCell(user, period, category, unit),
                          PairAmount()))
  {
    var pairs := InnerJoin(books.rows, books.accounts);
    var w := Both(OwnedWithinPeriod(user, period), IsExpense());
    var joined := Filter(pairs, w);
    var keys := Keys(joined, CategoryAndUnit());
    var key := (category, unit);
    MappedSpentOn(keys, CategorySpent(joined), category, unit);
    SqlSumOfSelected(pairs, w, InCategory(key), PairAmount());
    SqlSumIsSum(joined, InCategory(key), PairAmount());
    assert key in keys <==> exists x :: x in joined && CategoryAndUnit()(x) == key;
    assert forall x :: CategoryAndUnit()(x) == key <==> InCategory(key)(x);
  }

  lemma CellsAreAdditive(pairs: seq<Pair>, user: nat, a: Time, b: Time, c: Time, kind: Kind, unit: string)
    requires a <= b <= c
    ensures SqlSum(pairs, Cell(user, Period(a, c), kind, unit), PairAmount())
         == Plus(SqlSum(pairs, Cell(user, Period(a, b), kind, unit), PairAmount()),
                 SqlSum(pairs, Cell(user, Period(b, c), kind, unit), PairAmount()))
  {
    SqlSumSplits(pairs, Cell(user, Period(a, c), kind, unit), Cell(user, Period(a, b), kind, unit),
                 Cell(user, Period(b, c), kind, unit), PairAmount());
  }

  lemma CategoryCellsAreAdditive(pairs: seq<Pair>, user: nat, a: Time, b: Time, c: Time,
                                 category: Option<string>, unit: string)
    requires a <= b <= c
    ensures SqlSum(pairs, CategoryCell(user, Period(a, c), category, unit), PairAmount())
         == Plus(SqlSum(pairs, CategoryCell(user, Period(a, b), category, unit), PairAmount()),
                 SqlSum(pairs, CategoryCell(user, Period(b, c), category, unit), PairAmount()))
  {
    SqlSumSplits(pairs, CategoryCell(user, Period(a, c), category, unit),
                 CategoryCell(user, Period(a, b), category, unit),
                 CategoryCell(user, Period(b, c), category, unit), PairAmount());
  }

  /** No row is counted twice or dropped at a boundary: the figures of [a, c) are those of [a, b)
      and [b, c) merged, with an absent figure adding nothing. */
  lemma PeriodsAreAdditive(books: Books, user: nat, a: Time, b: Time, c: Time, category: Option<string>, unit: string)
    requires a <= b <= c
    ensures var whole := IncomeAndExpensesPerUnit(books, user, Period(a, c));
            var first := IncomeAndExpensesPerUnit(books, user, Period(a, b));
            var second := IncomeAndExpensesPerUnit(books, user, Period(b, c));
            && TotalOf(whole.income, unit) == Plus(TotalOf(first.income, unit), TotalOf(second.income, unit))
            && TotalOf(whole.expenses, unit) == Plus(TotalOf(first.expenses, unit), TotalOf(second.expenses, unit))
    ensures SpentOn(ExpensesByCategory(books, user, Period(a, c)), category, unit)
         == Plus(SpentOn(ExpensesByCategory(books, user, Period(a, b)), category, unit),
                 SpentOn(ExpensesByCategory(books, user, Period(b, c)), category, unit))
  {
    hide IncomeAndExpensesPerUnit, ExpensesByCategory, TotalOf, SpentOn, SqlSum, Cell, CategoryCell;
    var pairs := InnerJoin(books.rows, books.accounts);
    TotalsAreCells(books, user, Period(a, c), unit);
    TotalsAreCells(books, user, Period(a, b), unit);
    TotalsAreCells(books, user, Period(b, c), unit);
    CategoryTotalsAreCells(books, user, Period(a, c), category, unit);
    CategoryTotalsAreCells(books, user, Period(a, b), category, unit);
    CategoryTotalsAreCells(books, user, Period(b, c), category, unit);
    CellsAreAdditive(pairs, user, a, b, c, Income, unit);
    CellsAreAdditive(pairs, user, a, b, c, Expense, unit);
    CategoryCellsAreAdditive(pairs, user, a, b, c, category, unit);
  }

  // The expense total and its categories.

  function AmountInUnit(unit: string): CategoryTotal -> int {
    (t: CategoryTotal) => if t.unit == unit then t.amount else 0
  }

  function SpentInUnit(unit: string): Pair -> int {
    (x: Pair) => if x.account.unit == unit then -x.row.amount else 0
  }

  lemma CategoryShare(joined: seq<Pair>, key: CategoryKey, unit: string)
    ensures AmountInUnit(unit)(CategorySpent(joined)(key))
         == Sum(joined, GroupShare(CategoryAndUnit(), key, SpentInUnit(unit)))
  {
    SqlSumIsSum(joined, InCategory(key), PairAmount());
    if key.1 == unit {
      SumNegates(joined, ValueWhere(InCategory(key), PairAmount()),
                 GroupShare(CategoryAndUnit(), key, SpentInUnit(unit)));
    } else {
      SumZero(joined, GroupShare(CategoryAndUnit(), key, SpentInUnit(unit)));
    }
  }

  lemma CategoriesSum(joined: seq<Pair>, unit: string)
    ensures Sum(Map(Keys(joined, CategoryAndUnit()), CategorySpent(joined)), AmountInUnit(unit))
         == Sum(joined, SpentInUnit(unit))
  {
    hide Keys, Map, Sum, CategorySpent;
    var keys := Keys(joined, CategoryAndUnit());
    SumOfMapped(keys, CategorySpent(joined), AmountInUnit(unit));
    forall key
      ensures AmountInUnit(unit)(CategorySpent(joined)(key))
           == Sum(joined, GroupShare(CategoryAndUnit(), key, SpentInUnit(unit)))
    {
      CategoryShare(joined, key, unit);
    }
    SumSame(keys, Of(AmountInUnit(unit), CategorySpent(joined)),
            GroupSum(joined, CategoryAndUnit(), SpentInUnit(unit)));
    assert forall x :: x in joined ==> CategoryAndUnit()(x) in keys;
    SumByGroups(joined, CategoryAndUnit(), keys, SpentInUnit(unit));
  }

  /** The unit is listed among the expenses exactly when some category is listed in it, and its
      expense total is the sum of those categories. */
  lemma ExpensesAreTheirCategories(books: Books, user: nat, period: Period, unit: string)
    ensures var total := TotalOf(IncomeAndExpensesPerUnit(books, user, period).expenses, unit);
            var categories := ExpensesByCategory(books, user, period);
            && OrZero(total) == Sum(categories, AmountInUnit(unit))
            && (total.Some? <==> exists t :: t in categories && t.unit == unit)
  {
    var pairs := InnerJoin(books.rows, books.accounts);
    var w := Both(OwnedWithinPeriod(user, period), IsExpense());
    var joined := Filter(pairs, w);
    TotalsAreCells(books, user, period, unit);
    CategoriesSum(joined, unit);
    UnitIsListed(joined, unit);
    ExpenseCellIsSpent(pairs, user, period, unit);
    hide IncomeAndExpensesPerUnit, TotalOf, InnerJoin, Filter, Sum, SqlSum, CategorySpent, Keys, Map, Cell;
  }

  lemma ExpenseCellIsSpent(pairs: seq<Pair>, user: nat, period: Period, unit: string)
    ensures var spent := SqlSum(pairs, Cell(user, period, Expense, unit), PairAmount());
            var joined := Filter(pairs, Both(OwnedWithinPeriod(user, period), IsExpense()));
            && OrZero(Negate(spent)) == Sum(joined, SpentInUnit(unit))
            && (spent.Some? <==> exists x :: x in joined && x.account.unit == unit)
  {
    var w := Both(OwnedWithinPeriod(user, period), IsExpense());
    var cell := Cell(user, period, Expense, unit);
    hide Sum, SqlSum;
    SqlSumIsSum(pairs, cell, PairAmount());
    SumOfSelected(pairs, w, SpentInUnit(unit));
    SumNegates(pairs, ValueWhere(cell, PairAmount()), ValueWhere(w, SpentInUnit(unit)));
    hide Filter;
    assert forall x :: x in Filter(pairs, w) && x.account.unit == unit <==> x in pairs && cell(x);
  }

  lemma UnitIsListed(joined: seq<Pair>, unit: string)
    ensures (exists t :: t in Map(Keys(joined, CategoryAndUnit()), CategorySpent(joined)) && t.unit == unit)
       <==> exists x :: x in joined && x.account.unit == unit
  {
    hide Keys, Map;
    var keys := Keys(joined, CategoryAndUnit());
    var totals := Map(keys, CategorySpent(joined));
    if x :| x in joined && x.account.unit == unit {
      assert CategoryAndUnit()(x) in keys;
      var i :| 0 <= i < |keys| && keys[i] == CategoryAndUnit()(x);
      assert totals[i] in totals && totals[i].unit == unit;
    }
    if t :| t in totals && t.unit == unit {
      var i :| 0 <= i < |totals| && totals[i] == t;
      assert keys[i] in keys && keys[i].1 == unit;
      var x :| x in joined && CategoryAndUnit()(x) == keys[i];
      assert x.account.unit == unit;
    }
  }
}
