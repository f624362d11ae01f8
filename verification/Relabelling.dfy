/** Giving an account another unit converts nothing: its whole balance moves from one unit's total
    to the other's, transfers between accounts of one unit included. */
module Relabelling {
  import opened Common
  import opened Lists
  import opened Ledger
  import opened Summary
  import opened Balances
  import opened Transfers
  import opened LedgerRuns

  function OnAccountAmount(id: nat): Row -> int {
    ValueWhere(OnAccount(id), RowAmount())
  }

  function BalanceOf(books: Books, id: nat): int {
    Sum(books.rows, OnAccountAmount(id))
  }

  function Scaled(f: Row -> int, factor: int): Row -> int {
    (row: Row) => factor * f(row)
  }

  lemma {:induction false} SumScales(rows: seq<Row>, f: Row -> int, factor: int)
    ensures Sum(rows, Scaled(f, factor)) == factor * Sum(rows, f)
    decreases |rows|
  {
    if rows != [] {
      SumScales(rows[1..], f, factor);
      assert factor * (f(rows[0]) + Sum(rows[1..], f)) == factor * f(rows[0]) + factor * Sum(rows[1..], f);
    }
  }

  /** 1 if the unit gains the account, -1 if it loses it. */
  function Shift(was: string, now: string, unit: string): int {
    (if now == unit then 1 else 0) - if was == unit then 1 else 0
  }

  lemma RowShifts(books: Books, user: nat, id: nat, changes: AccountUpdate, now: Time, unit: string, row: Row)
    requires Keyed(books) && row in books.rows && FindAccount(books.accounts, id, user).Some?
    ensures (var accounts' := AmendedAccounts(books.accounts, id, user, changes, now);
             Money(accounts', user, unit)(row)
             == Money(books.accounts, user, unit)(row)
                + Shift(UnitOf(books.accounts, id, user), UnitOf(accounts', id, user), unit) * OnAccountAmount(id)(row))
  {
    var accounts' := AmendedAccounts(books.accounts, id, user, changes, now);
    FindAmended(books.accounts, id, user, changes, now, row.account, row.user);
    FindAmended(books.accounts, id, user, changes, now, id, user);
    FoundAccount(books.accounts, id, user);
    HomeIsTheOnlyMatch(books.accounts, row, FindAccount(books.accounts, id, user).value);
    FoundAccount(books.accounts, row.account, row.user);
    hide Amended, AmendedAccounts, FindAccount;
    assert row.account == id ==> row.user == user;
    if row.user == user {
      RowMoney(books.accounts, user, row, unit);
      RowMoney(accounts', user, row, unit);
      assert RowAmount()(row) == row.amount;
    }
  }

  lemma RelabellingMovesTheBalance(books: Books, user: nat, id: nat, changes: AccountUpdate, now: Time, unit: string)
    requires Keyed(books) && AccountUpdated(books, user, id, changes, now).1.Ok?
    ensures (var after := AccountUpdated(books, user, id, changes, now).0;
             OrZero(TotalOf(BalancesPerUnit(after, user), unit))
             == OrZero(TotalOf(BalancesPerUnit(books, user), unit))
                + Shift(UnitOf(books.accounts, id, user), UnitOf(after.accounts, id, user), unit)
                  * BalanceOf(books, id))
  {
    var after := AccountUpdated(books, user, id, changes, now).0;
    AmendKeepsKeys(books, user, id, changes, now);
    TotalIsMoney(books, user, unit);
    TotalIsMoney(after, user, unit);
    var shift := Shift(UnitOf(books.accounts, id, user), UnitOf(after.accounts, id, user), unit);
    var before := Money(books.accounts, user, unit);
    forall row | row in books.rows
      ensures Money(after.accounts, user, unit)(row) == before(row) + Scaled(OnAccountAmount(id), shift)(row)
    {
      RowShifts(books, user, id, changes, now, unit, row);
    }
    hide TotalOf, BalancesPerUnit, Sum, Money, Keyed, UnitOf, Amended, NameTaken;
    SumAdds(books.rows, before, Scaled(OnAccountAmount(id), shift), Money(after.accounts, user, unit));
    SumScales(books.rows, OnAccountAmount(id), shift);
  }

  // A transfer within one unit, and a unit changed afterwards.

  /** The account of row i of the transfer is given another unit. */
  ghost predicate Relabels(s: State, e: Event, g: nat, i: nat)
    requires g in s.recorded && i < |s.recorded[g].rows|
  {
    var row := s.recorded[g].rows[i];
    && e.request.UpdateAccount? && e.user == row.user && e.request.id == row.account
    && UnitOf(Next(s, e).books.accounts, row.account, row.user) != UnitOf(s.books.accounts, row.account, row.user)
  }

  lemma OtherAccountKeepsUnit(s: State, e: Event, account: nat, user: nat)
    requires e.request.UpdateAccount? && (e.request.id != account || e.user != user)
    ensures UnitOf(Next(s, e).books.accounts, account, user) == UnitOf(s.books.accounts, account, user)
  {
    var r := e.request;
    FindAmended(s.books.accounts, r.id, e.user, r.accountChanges, r.now, account, user);
  }

  lemma UpdateKeepsRecords(s: State, e: Event)
    requires e.request.UpdateAccount?
    ensures Next(s, e).recorded == s.recorded && Next(s, e).books.rows == s.books.rows
  {}

  /** Relabelling either side of a balanced transfer unbalances it: what that row moved then counts
      on its own in the new unit. */
  lemma RelabellingUnbalances(s: State, e: Event, g: nat, i: nat)
    requires Inv(s) && Enabled(s, e) && g in s.recorded && i < 2
    requires Filter(s.books.rows, OfGroup(g)) != [] && Balanced(s, g) && Relabels(s, e, g, i)
    ensures var row := s.recorded[g].rows[i];
            var unit := UnitOf(Next(s, e).books.accounts, row.account, row.user);
            && g in Next(s, e).recorded && Next(s, e).recorded[g] == s.recorded[g]
            && !Balanced(Next(s, e), g)
            && TransferNet(Next(s, e), g, row.user, unit) == row.amount != 0
  {
    hide TransferNet, UnitOf, Filter, Next, Keyed, GroupsAtomic;
    UpdateKeepsRecords(s, e);
    NextKeepsInv(s, e);
    var rows := s.recorded[g].rows;
    assert rows[1].user == rows[0].user;
    var s' := Next(s, e);
    OtherAccountKeepsUnit(s, e, rows[1 - i].account, rows[1 - i].user);
    var unit := UnitOf(s'.books.accounts, rows[i].account, rows[i].user);
    TransferNetIs(s', g, rows[i].user, unit);
  }

  const OWNER := 0

  const OPENED := [
    Event(OWNER, CreateAccount(1, CiText("Cash", "cash"), "GBP", Cash)),
    Event(OWNER, CreateAccount(2, CiText("Chase", "chase"), "GBP", Cash))]

  const ACCOUNTS := [
    Account(1, OWNER, CiText("Cash", "cash"), "GBP", Cash, None),
    Account(2, OWNER, CiText("Chase", "chase"), "GBP", Cash, None)]

  const TRANSFER := TransferCreate(1, 2, 5, 5, None, 0, None)
  const IDS := TransferIds(1, 2, 3, 9)
  const MADE := Event(OWNER, CreateTransfer(TRANSFER, IDS))
  const RELABELLED := Event(OWNER, UpdateAccount(1, AccountUpdate(None, Some("USD"), None, None), 0))

  /** Two accounts in one unit. */
  lemma Opens() returns (s: State)
    ensures Valid(EMPTY, OPENED) && Run(EMPTY, OPENED) == s && s.recorded == map[] && s.books == Books(ACCOUNTS, [])
  {
    assert OPENED[1..] == [OPENED[1]] && OPENED[1..][1..] == [];
    var s1 := Next(EMPTY, OPENED[0]);
    assert s1.books == Books([ACCOUNTS[0]], []);
    assert ACCOUNTS[1].name.folded[1] != ACCOUNTS[0].name.folded[1];
    s := Next(s1, OPENED[1]);
    assert Run(s, []) == s && Valid(s, []);
    assert Run(s1, [OPENED[1]]) == s && Valid(s1, [OPENED[1]]);
  }

  lemma {:induction false} OneMoreEvent(s: State, events: seq<Event>, e: Event)
    requires Valid(s, events) && Enabled(Run(s, events), e)
    ensures Valid(s, events + [e]) && Run(s, events + [e]) == Next(Run(s, events), e)
    decreases |events|
  {
    hide Enabled, Next;
    if events == [] {
      assert Run(Next(s, e), []) == Next(s, e);
    } else {
      OneMoreEvent(Next(s, events[0]), events[1..], e);
      assert (events + [e])[1..] == events[1..] + [e];
    }
  }

  /** Both accounts in one unit, and the transfer the only rows. */
  ghost predicate HasTransfer(s: State) {
    && 9 in s.recorded && s.recorded[9] == Record(TransferRows(OWNER, TRANSFER, IDS), "GBP", "GBP")
    && s.books.rows == TransferRows(OWNER, TRANSFER, IDS)
    && s.books.accounts == ACCOUNTS
  }

  lemma TheAccounts()
    ensures FindAccount(ACCOUNTS, 1, OWNER) == Some(ACCOUNTS[0]) && FindAccount(ACCOUNTS, 2, OWNER) == Some(ACCOUNTS[1])
  {
    assert ACCOUNTS[1..] == [ACCOUNTS[1]];
  }

  lemma Makes() returns (s: State)
    ensures Valid(EMPTY, OPENED + [MADE]) && Run(EMPTY, OPENED + [MADE]) == s && HasTransfer(s)
  {
    var s1 := Opens();
    TheAccounts();
    hide Run, Valid, FindAccount;
    OneMoreEvent(EMPTY, OPENED, MADE);
    assert AccountsOf(TRANSFER) == {1, 2};
    assert TransferCreated(s1.books, OWNER, TRANSFER, IDS).1.Ok?;
    s := Next(s1, MADE);
    assert [] + TransferRows(OWNER, TRANSFER, IDS) == TransferRows(OWNER, TRANSFER, IDS);
  }

  lemma TransferIsThere(s: State)
    requires HasTransfer(s)
    ensures Filter(s.books.rows, OfGroup(9)) != [] && IsTransfer(s.recorded[9], 9) && Balanced(s, 9)
  {
    TheAccounts();
    hide FindAccount;
    var row := TransferRows(OWNER, TRANSFER, IDS)[0];
    assert row in s.books.rows && row.group == Some(9);
    assert row in Filter(s.books.rows, OfGroup(9));
  }

  lemma CashIsRelabelled(s: State)
    requires HasTransfer(s)
    ensures Relabels(s, RELABELLED, 9, 0) && UnitOf(Next(s, RELABELLED).books.accounts, 1, OWNER) == "USD"
  {
    TheAccounts();
    var r := RELABELLED.request;
    FindAmended(ACCOUNTS, 1, OWNER, r.accountChanges, r.now, 1, OWNER);
    hide FindAccount, AmendedAccounts;
    assert ACCOUNTS[1].name.folded != ACCOUNTS[0].name.folded by {
      assert ACCOUNTS[1].name.folded[1] != ACCOUNTS[0].name.folded[1];
    }
    assert AccountUpdated(s.books, OWNER, 1, r.accountChanges, r.now).1.Ok?;
  }

  /** A reachable run in which a transfer no longer nets to nothing: its accounts were in one unit
      when it was made, and one of them was then given another. */
  lemma RelabelledTransferCounts() returns (events: seq<Event>)
    ensures Valid(EMPTY, events)
    ensures var s := Run(EMPTY, events);
            && 9 in s.recorded && s.recorded[9].fromUnit == s.recorded[9].toUnit
            && TransferNet(s, 9, OWNER, "USD") == -5
  {
    var s := Makes();
    EmptyInv();
    RunKeepsInv(EMPTY, OPENED + [MADE]);
    TransferIsThere(s);
    CashIsRelabelled(s);
    hide Run, Valid, Inv, Filter, Balanced, Next, TransferNet, UnitOf;
    OneMoreEvent(EMPTY, OPENED + [MADE], RELABELLED);
    events := OPENED + [MADE] + [RELABELLED];
    RelabellingUnbalances(s, RELABELLED, 9, 0);
  }
}
