/** Balances, totals and flows count the same money: the queries that start from accounts and
    filter on the account's owner agree with those that start from transactions and filter on the
    row's owner, because a row's account belongs to the row's user. */
module Balances {
  import opened Common
  import opened Lists
  import opened Ledger
  import opened Summary

  /** The composite foreign key, (account_id, user_id) to accounts (id, user_id). */
  ghost predicate RowsOwned(books: Books) {
    forall row | row in books.rows :: FindAccount(books.accounts, row.account, row.user).Some?
  }

  /** The primary key of accounts and the foreign key of transactions. */
  ghost predicate Keyed(books: Books) {
    AccountIdsUnique(books.accounts) && RowsOwned(books)
  }

  function Home(accounts: seq<Account>, row: Row): Option<Account> {
    FindAccount(accounts, row.account, row.user)
  }

  /** A figure of each row, given the account it is on. */
  function AtHome(accounts: seq<Account>, h: Pair -> int): Row -> int {
    (row: Row) => if Home(accounts, row).Some? then h(Pair(row, Home(accounts, row).value)) else 0
  }

  lemma HomeIsTheOnlyMatch(accounts: seq<Account>, row: Row, a: Account)
    requires AccountIdsUnique(accounts) && Home(accounts, row).Some? && a in accounts
    ensures a.id == row.account <==> a == Home(accounts, row).value
  {
    FoundAccount(accounts, row.account, row.user);
  }

  // Sums over the joins are sums over the rows.

  function JoinTerm(g: OuterPair -> int): (Account, Row) -> int {
    (a: Account, row: Row) => if row.account == a.id then g(OuterPair(a, Some(row))) else 0
  }

  function WithRow(g: OuterPair -> int): Pair -> int {
    (x: Pair) => g(OuterPair(x.account, Some(x.row)))
  }

  lemma OuterPairsSum(a: Account, rows: seq<Row>, g: OuterPair -> int)
    requires g(OuterPair(a, None)) == 0
    ensures Sum(OuterPairs(a, Filter(rows, OnAccount(a.id))), g) == RowSum(rows, JoinTerm(g))(a)
  {
    var own := Filter(rows, OnAccount(a.id));
    var m := (row: Row) => OuterPair(a, Some(row));
    SumOfMapped(own, m, g);
    SumOfSelected(rows, OnAccount(a.id), Of(g, m));
    SumSame(rows, ValueWhere(OnAccount(a.id), Of(g, m)), Lists.Row(a, JoinTerm(g)));
  }

  lemma {:induction false} OuterJoinSum(accounts: seq<Account>, rows: seq<Row>, g: OuterPair -> int)
    requires forall a :: g(OuterPair(a, None)) == 0
    ensures Sum(OuterJoin(accounts, rows), g) == Sum(accounts, RowSum(rows, JoinTerm(g)))
    decreases |accounts|
  {
    if accounts != [] {
      var a := accounts[0];
      OuterPairsSum(a, rows, g);
      OuterJoinSum(accounts[1..], rows, g);
      SumConcat(OuterPairs(a, Filter(rows, OnAccount(a.id))), OuterJoin(accounts[1..], rows), g);
    }
  }

  lemma OneHome(accounts: seq<Account>, row: Row, g: OuterPair -> int)
    requires AccountIdsUnique(accounts) && Home(accounts, row).Some?
    ensures ColumnSum(accounts, JoinTerm(g))(row) == AtHome(accounts, WithRow(g))(row)
  {
    var home := Home(accounts, row).value;
    FoundAccount(accounts, row.account, row.user);
    forall a | a in accounts
      ensures Column(row, JoinTerm(g))(a) == OnlyAt(home, g(OuterPair(home, Some(row))))(a)
    {
      HomeIsTheOnlyMatch(accounts, row, a);
    }
    SumSame(accounts, Column(row, JoinTerm(g)), OnlyAt(home, g(OuterPair(home, Some(row)))));
    SumOfOne(accounts, home, g(OuterPair(home, Some(row))));
  }

  /** Joining from the accounts counts every row once, on the account it is on. */
  lemma OuterJoinCountsRows(books: Books, g: OuterPair -> int)
    requires Keyed(books) && forall a :: g(OuterPair(a, None)) == 0
    ensures Sum(OuterJoin(books.accounts, books.rows), g) == Sum(books.rows, AtHome(books.accounts, WithRow(g)))
  {
    OuterJoinSum(books.accounts, books.rows, g);
    SumSwaps(books.accounts, books.rows, JoinTerm(g));
    forall row | row in books.rows
      ensures ColumnSum(books.accounts, JoinTerm(g))(row) == AtHome(books.accounts, WithRow(g))(row)
    {
      OneHome(books.accounts, row, g);
    }
    SumSame(books.rows, ColumnSum(books.accounts, JoinTerm(g)), AtHome(books.accounts, WithRow(g)));
  }

  lemma {:induction false} OnlyHomeHasId(accounts: seq<Account>, row: Row)
    requires AccountIdsUnique(accounts) && Home(accounts, row).Some?
    ensures Filter(accounts, HasId(row.account)) == [Home(accounts, row).value]
    decreases |accounts|
  {
    FoundAccount(accounts, row.account, row.user);
    if accounts[0].id == row.account {
      HomeIsTheOnlyMatch(accounts, row, accounts[0]);
      FilterNone(accounts[1..], HasId(row.account));
    } else {
      OnlyHomeHasId(accounts[1..], row);
    }
  }

  /** Joining from the rows does the same. */
  lemma {:induction false} InnerJoinCountsRows(accounts: seq<Account>, rows: seq<Row>, h: Pair -> int)
    requires Keyed(Books(accounts, rows))
    ensures Sum(InnerJoin(rows, accounts), h) == Sum(rows, AtHome(accounts, h))
    decreases |rows|
  {
    if rows != [] {
      var home := Home(accounts, rows[0]).value;
      OnlyHomeHasId(accounts, rows[0]);
      var m := (a: Account) => Pair(rows[0], a);
      assert Map([home], m) == [Pair(rows[0], home)];
      InnerJoinCountsRows(accounts, rows[1..], h);
      SumConcat([Pair(rows[0], home)], InnerJoin(rows[1..], accounts), h);
    }
  }

  // Unit totals are the sums of their accounts.

  function BalanceInUnit(unit: string): AccountWithBalance -> int {
    (t: AccountWithBalance) => if t.account.unit == unit then t.balance else 0
  }

  function OuterAmountInUnit(unit: string): OuterPair -> int {
    (x: OuterPair) => if x.account.unit == unit then OuterAmount()(x) else 0
  }

  lemma AccountShare(joined: seq<OuterPair>, a: Account, unit: string)
    ensures BalanceInUnit(unit)(AccountBalance(joined)(a))
         == GroupSum(joined, OuterAccount(), OuterAmountInUnit(unit))(a)
  {
    SqlSumIsSum(joined, RowOfAccount(a), OuterAmount());
    if a.unit == unit {
      SumSame(joined, ValueWhere(RowOfAccount(a), OuterAmount()),
              GroupShare(OuterAccount(), a, OuterAmountInUnit(unit)));
    } else {
      SumZero(joined, GroupShare(OuterAccount(), a, OuterAmountInUnit(unit)));
    }
  }

  lemma AccountsSum(joined: seq<OuterPair>, unit: string)
    ensures Sum(Map(Keys(joined, OuterAccount()), AccountBalance(joined)), BalanceInUnit(unit))
         == Sum(joined, OuterAmountInUnit(unit))
  {
    hide Keys, Map, Sum;
    var keys := Keys(joined, OuterAccount());
    SumOfMapped(keys, AccountBalance(joined), BalanceInUnit(unit));
    forall a
      ensures BalanceInUnit(unit)(AccountBalance(joined)(a))
           == GroupSum(joined, OuterAccount(), OuterAmountInUnit(unit))(a)
    {
      AccountShare(joined, a, unit);
    }
    SumSame(keys, Of(BalanceInUnit(unit), AccountBalance(joined)),
            GroupSum(joined, OuterAccount(), OuterAmountInUnit(unit)));
    assert forall x :: x in joined ==> OuterAccount()(x) in keys;
    SumByGroups(joined, OuterAccount(), keys, OuterAmountInUnit(unit));
  }

  lemma {:induction false} OuterJoinKeepsAccounts(accounts: seq<Account>, rows: seq<Row>, a: Account)
    ensures a in accounts <==> exists x :: x in OuterJoin(accounts, rows) && x.account == a
    decreases |accounts|
  {
    if accounts != [] {
      OuterJoinKeepsAccounts(accounts[1..], rows, a);
      var first := OuterPairs(accounts[0], Filter(rows, OnAccount(accounts[0].id)));
      assert first[0] in first && forall x :: x in first ==> x.account == accounts[0];
      assert forall x :: x in OuterJoin(accounts, rows) <==> x in first || x in OuterJoin(accounts[1..], rows);
      assert a in accounts <==> a == accounts[0] || a in accounts[1..];
    }
  }

  lemma OwnedKeepsAccounts(books: Books, user: nat, a: Account)
    ensures a in Keys(Owned(books, user), OuterAccount()) <==> a in books.accounts && a.user == user
  {
    OuterJoinKeepsAccounts(books.accounts, books.rows, a);
    hide OuterJoin, Keys;
    if a in books.accounts && a.user == user {
      var x :| x in OuterJoin(books.accounts, books.rows) && x.account == a;
      assert x in Owned(books, user) && OuterAccount()(x) == a;
    }
  }

  /** The accounts list has every account of the user once, archived or empty ones included, and
      nothing else. */
  lemma AccountsAreListed(books: Books, user: nat)
    ensures var list := AccountsWithBalances(books, user);
            && (forall a :: a in books.accounts && a.user == user <==> exists t :: t in list && t.account == a)
            && (forall i, j :: 0 <= i < j < |list| ==> list[i].account != list[j].account)
  {
    hide Keys, Map;
    var joined := Owned(books, user);
    var keys := Keys(joined, OuterAccount());
    var list := AccountsWithBalances(books, user);
    forall a
      ensures a in books.accounts && a.user == user <==> exists t :: t in list && t.account == a
    {
      OwnedKeepsAccounts(books, user, a);
      if a in keys {
        var i :| 0 <= i < |keys| && keys[i] == a;
        assert list[i] in list && list[i].account == a;
      }
      if t :| t in list && t.account == a {
        var i :| 0 <= i < |list| && list[i] == t;
        assert keys[i] in keys;
      }
    }
  }

  /** An account on its own is read with the balance it is listed with. */
  lemma ListedWithItsBalance(books: Books, user: nat, t: AccountWithBalance)
    ensures t in AccountsWithBalances(books, user)
       <==> t.account in books.accounts && t.account.user == user && t == AccountBalance(Owned(books, user))(t.account)
  {
    hide Keys, Map, Owned;
    var joined := Owned(books, user);
    var keys := Keys(joined, OuterAccount());
    var list := AccountsWithBalances(books, user);
    OwnedKeepsAccounts(books, user, t.account);
    if t in list {
      var i :| 0 <= i < |list| && list[i] == t;
      assert keys[i] in keys && t == AccountBalance(joined)(keys[i]);
    }
    if t.account in keys && t == AccountBalance(joined)(t.account) {
      var i :| 0 <= i < |keys| && keys[i] == t.account;
      assert list[i] in list;
    }
  }

  lemma UnitTotalIsSum(books: Books, user: nat, unit: string)
    ensures var total := TotalOf(BalancesPerUnit(books, user), unit);
            var joined := Owned(books, user);
            && OrZero(total) == Sum(joined, OuterAmountInUnit(unit))
            && (total.Some? <==> exists x :: x in joined && x.account.unit == unit)
  {
    var joined := Owned(books, user);
    var units := Keys(joined, OuterUnit());
    hide Keys, Owned, Sum, SqlSum;
    MappedTotalOf(units, UnitBalance(joined), unit);
    SqlSumIsSum(joined, RowInUnit(unit), OuterAmount());
    SumSame(joined, ValueWhere(RowInUnit(unit), OuterAmount()), OuterAmountInUnit(unit));
    if unit !in units {
      forall x | x in joined
        ensures OuterAmountInUnit(unit)(x) == 0
      {
        assert OuterUnit()(x) in units;
      }
      SumZero(joined, OuterAmountInUnit(unit));
    }
  }

  /** Each unit total is the sum of the balances of the user's accounts in that unit, and a unit
      is listed exactly when the user has such an account, with zero when it has no rows. */
  lemma TotalsAreTheirAccounts(books: Books, user: nat, unit: string)
    ensures var total := TotalOf(BalancesPerUnit(books, user), unit);
            && OrZero(total) == Sum(AccountsWithBalances(books, user), BalanceInUnit(unit))
            && (total.Some? <==> exists a :: a in books.accounts && a.user == user && a.unit == unit)
  {
    var joined := Owned(books, user);
    UnitTotalIsSum(books, user, unit);
    AccountsSum(joined, unit);
    hide Owned, BalancesPerUnit, TotalOf, Sum, Keys, Map, AccountBalance;
    forall a
      ensures a in books.accounts && a.user == user <==> exists x :: x in joined && x.account == a
    {
      OwnedKeepsAccounts(books, user, a);
      assert forall x :: x in joined ==> OuterAccount()(x) == x.account;
    }
  }

  // Balances are the rows.

  lemma OwnedCountsRows(books: Books, user: nat, f: OuterPair -> int)
    requires Keyed(books) && forall a :: f(OuterPair(a, None)) == 0
    ensures Sum(Owned(books, user), f) == Sum(books.rows, AtHome(books.accounts, WithRow(ValueWhere(OwnedBy(user), f))))
  {
    SumOfSelected(OuterJoin(books.accounts, books.rows), OwnedBy(user), f);
    OuterJoinCountsRows(books, ValueWhere(OwnedBy(user), f));
  }

  function RowAmount(): Row -> int { (row: Row) => row.amount }

  /** An account's balance is the sum of the rows on it, whoever they are listed for. */
  lemma BalanceIsItsRows(books: Books, user: nat, t: AccountWithBalance)
    requires Keyed(books) && t in AccountsWithBalances(books, user)
    ensures t.balance == Sum(books.rows, ValueWhere(OnAccount(t.account.id), RowAmount()))
  {
    var joined := Owned(books, user);
    var keys := Keys(joined, OuterAccount());
    var a := t.account;
    hide Keys, Map, Sum, SqlSum;
    var i :| 0 <= i < |keys| && AccountBalance(joined)(keys[i]) == t;
    assert a in keys;
    OwnedKeepsAccounts(books, user, a);
    var f := ValueWhere(RowOfAccount(a), OuterAmount());
    SqlSumIsSum(joined, RowOfAccount(a), OuterAmount());
    OwnedCountsRows(books, user, f);
    forall row | row in books.rows
      ensures AtHome(books.accounts, WithRow(ValueWhere(OwnedBy(user), f)))(row)
           == ValueWhere(OnAccount(a.id), RowAmount())(row)
    {
      HomeIsTheOnlyMatch(books.accounts, row, a);
    }
    SumSame(books.rows, AtHome(books.accounts, WithRow(ValueWhere(OwnedBy(user), f))),
            ValueWhere(OnAccount(a.id), RowAmount()));
  }

  // Unit totals are flows.

  function UsersInUnit(user: nat, unit: string): Pair -> bool {
    (x: Pair) => x.row.user == user && x.account.unit == unit
  }

  function KindOf(user: nat, kind: Kind, unit: string): Pair -> bool {
    (x: Pair) => x.row.user == user && x.row.kind == kind && x.account.unit == unit
  }

  /** The user's money in a unit, row by row. */
  function Money(accounts: seq<Account>, user: nat, unit: string): Row -> int {
    AtHome(accounts, ValueWhere(UsersInUnit(user, unit), PairAmount()))
  }

  function MoneyOfKind(accounts: seq<Account>, user: nat, kind: Kind, unit: string): Row -> int {
    AtHome(accounts, ValueWhere(KindOf(user, kind, unit), PairAmount()))
  }

  lemma OwnersAgree(books: Books, user: nat, unit: string, row: Row)
    requires Keyed(books) && row in books.rows
    ensures AtHome(books.accounts, WithRow(ValueWhere(OwnedBy(user), OuterAmountInUnit(unit))))(row)
         == Money(books.accounts, user, unit)(row)
  {
    FoundAccount(books.accounts, row.account, row.user);
    var pair := Pair(row, Home(books.accounts, row).value);
    var outer := OuterPair(pair.account, Some(row));
    assert OuterAmount()(outer) == row.amount;
    assert OuterAmountInUnit(unit)(outer) == if pair.account.unit == unit then row.amount else 0;
  }

  /** The balance query filters on the account's owner, and still sums just the user's rows. */
  lemma TotalIsMoney(books: Books, user: nat, unit: string)
    requires Keyed(books)
    ensures OrZero(TotalOf(BalancesPerUnit(books, user), unit)) == Sum(books.rows, Money(books.accounts, user, unit))
  {
    UnitTotalIsSum(books, user, unit);
    OwnedCountsRows(books, user, OuterAmountInUnit(unit));
    hide Owned, BalancesPerUnit, TotalOf, Sum;
    var counted := AtHome(books.accounts, WithRow(ValueWhere(OwnedBy(user), OuterAmountInUnit(unit))));
    forall row | row in books.rows
      ensures counted(row) == Money(books.accounts, user, unit)(row)
    {
      OwnersAgree(books, user, unit, row);
    }
    SumSame(books.rows, counted, Money(books.accounts, user, unit));
  }

  ghost predicate Covers(period: Period, books: Books, user: nat) {
    forall row | row in books.rows && row.user == user :: period.from <= row.occurredAt < period.to
  }

  lemma CellIsMoney(books: Books, user: nat, period: Period, kind: Kind, unit: string)
    requires Keyed(books) && Covers(period, books, user)
    ensures OrZero(SqlSum(InnerJoin(books.rows, books.accounts), Cell(user, period, kind, unit), PairAmount()))
         == Sum(books.rows, MoneyOfKind(books.accounts, user, kind, unit))
  {
    hide Sum, SqlSum, InnerJoin, Cell, AtHome, MoneyOfKind, Keyed;
    var pairs := InnerJoin(books.rows, books.accounts);
    var f := ValueWhere(Cell(user, period, kind, unit), PairAmount());
    SqlSumIsSum(pairs, Cell(user, period, kind, unit), PairAmount());
    InnerJoinCountsRows(books.accounts, books.rows, f);
    forall row | row in books.rows
      ensures AtHome(books.accounts, f)(row) == MoneyOfKind(books.accounts, user, kind, unit)(row)
    {
      RowIsInCell(books.accounts, user, period, kind, unit, row);
    }
    SumSame(books.rows, AtHome(books.accounts, f), MoneyOfKind(books.accounts, user, kind, unit));
  }

  lemma RowIsInCell(accounts: seq<Account>, user: nat, period: Period, kind: Kind, unit: string, row: Row)
    requires row.user == user ==> period.from <= row.occurredAt < period.to
    ensures AtHome(accounts, ValueWhere(Cell(user, period, kind, unit), PairAmount()))(row)
         == MoneyOfKind(accounts, user, kind, unit)(row)
  {
    hide Home;
  }

  lemma MoneyIsOfSomeKind(accounts: seq<Account>, rows: seq<Row>, user: nat, unit: string)
    ensures Sum(rows, Money(accounts, user, unit))
         == Sum(rows, MoneyOfKind(accounts, user, Income, unit)) + Sum(rows, MoneyOfKind(accounts, user, Expense, unit))
            + Sum(rows, MoneyOfKind(accounts, user, Transfer, unit))
  {
    hide Sum, Home;
    var income := MoneyOfKind(accounts, user, Income, unit);
    var expense := MoneyOfKind(accounts, user, Expense, unit);
    var plain := (row: Row) => income(row) + expense(row);
    SumAdds(rows, income, expense, plain);
    forall row | row in rows
      ensures Money(accounts, user, unit)(row) == plain(row) + MoneyOfKind(accounts, user, Transfer, unit)(row)
    {
      if Home(accounts, row).Some? {
        assert PairAmount()(Pair(row, Home(accounts, row).value)) == row.amount;
      }
    }
    hide Money, MoneyOfKind;
    SumAdds(rows, plain, MoneyOfKind(accounts, user, Transfer, unit), Money(accounts, user, unit));
  }

  /** What the user has in a unit is all-time income less all-time expenses, plus the net of the
      transfer rows, although one query starts from accounts and the other from transactions. */
  lemma TotalsAreFlows(books: Books, user: nat, period: Period, unit: string)
    requires Keyed(books) && Covers(period, books, user)
    ensures (var flows := IncomeAndExpensesPerUnit(books, user, period);
             OrZero(TotalOf(BalancesPerUnit(books, user), unit))
             == OrZero(TotalOf(flows.income, unit)) - OrZero(TotalOf(flows.expenses, unit))
                + Sum(books.rows, MoneyOfKind(books.accounts, user, Transfer, unit)))
  {
    TotalIsMoney(books, user, unit);
    TotalsAreCells(books, user, period, unit);
    CellIsMoney(books, user, period, Income, unit);
    CellIsMoney(books, user, period, Expense, unit);
    MoneyIsOfSomeKind(books.accounts, books.rows, user, unit);
    hide Sum, SqlSum, TotalOf, BalancesPerUnit, IncomeAndExpensesPerUnit, Cell, Money, MoneyOfKind, InnerJoin;
  }
}
