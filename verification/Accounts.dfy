/** What creating and updating accounts stores and answers, and that a user's account names stay
    different. */
module Accounts {
  import opened Common
  import opened Lists
  import opened Ledger
  import opened Summary
  import opened Balances
  import opened Transfers
  import opened Paging
  import opened LedgerRuns

  // Creating.

  /** The user has an account other than this one whose name folds to the same form. */
  predicate HasName(accounts: seq<Account>, user: nat, folded: string, except: Option<nat>) {
    exists a | a in accounts :: a.user == user && a.name.folded == folded && except != Some(a.id)
  }

  /** An account is created exactly when the user has none of that name, whatever its case. It is
      stored after the others with what the request has, not archived, and answered with a balance of
      zero, which is the balance it is then listed with. */
  lemma AccountIsCreatedExactly(books: Books, user: nat, id: nat, name: CiText, unit: string, kind: AccountType)
    requires Keyed(books) && forall a | a in books.accounts :: a.id != id
    ensures var (after, result) := CreatedAccount(books, user, id, name, unit, kind);
            && (result.Ok? <==> !HasName(books.accounts, user, name.folded, None))
            && (result.Err? ==> result.error == AccountNameTaken && after == books)
            && (result.Ok? ==>
                  var a := result.value.account;
                  && after.rows == books.rows && after.accounts == books.accounts + [a]
                  && a.id == id && a.user == user && a.name == name && a.unit == unit && a.kind == kind
                  && a.archivedAt == None && result.value.balance == 0
                  && result.value in AccountsWithBalances(after, user))
  {
    var (after, result) := CreatedAccount(books, user, id, name, unit, kind);
    if result.Ok? {
      NewAccountIsEmpty(books, result.value.account);
      ListedAs(after, user, result.value);
    }
    hide AccountsWithBalances;
  }

  /** No row is on an account that did not exist, since every row's account is stored. */
  lemma NewAccountIsEmpty(books: Books, a: Account)
    requires Keyed(books) && forall other | other in books.accounts :: other.id != a.id
    ensures Keyed(books.(accounts := books.accounts + [a]))
    ensures Sum(books.rows, ValueWhere(OnAccount(a.id), RowAmount())) == 0
  {
    AppendKeepsKeys(books, a);
    forall row | row in books.rows
      ensures row.account != a.id
    {
      FoundAccount(books.accounts, row.account, row.user);
    }
    SumZero(books.rows, ValueWhere(OnAccount(a.id), RowAmount()));
  }

  /** An account is listed with the sum of the rows on it, and with no other balance. */
  lemma ListedAs(books: Books, user: nat, t: AccountWithBalance)
    requires Keyed(books)
    ensures t in AccountsWithBalances(books, user)
       <==> t.account in books.accounts && t.account.user == user
            && t.balance == Sum(books.rows, ValueWhere(OnAccount(t.account.id), RowAmount()))
  {
    hide Keyed, AccountsWithBalances, Sum, AccountBalance;
    if t.account in books.accounts && t.account.user == user {
      var listed := AccountBalance(Owned(books, user))(t.account);
      BalanceIsOf(books, user, t.account);
      ListedWithItsBalance(books, user, listed);
      BalanceIsItsRows(books, user, listed);
    }
    ListedWithItsBalance(books, user, t);
    if t in AccountsWithBalances(books, user) {
      BalanceIsItsRows(books, user, t);
    }
  }

  // Updating.

  /** After an update each field that was sent has the value sent and the others are as they were.
      Archiving an account sets the time unless it has one, restoring it clears the time, and a unit is
      changed without conversion. */
  ghost predicate IsUpdate(before: Account, changes: AccountUpdate, now: Time, after: Account) {
    && after.id == before.id && after.user == before.user
    && (changes.name.Some? ==> after.name == changes.name.value)
    && (changes.name.None? ==> after.name == before.name)
    && (changes.unit.Some? ==> after.unit == changes.unit.value)
    && (changes.unit.None? ==> after.unit == before.unit)
    && (changes.kind.Some? ==> after.kind == changes.kind.value)
    && (changes.kind.None? ==> after.kind == before.kind)
    && (changes.archived == None ==> after.archivedAt == before.archivedAt)
    && (changes.archived == Some(false) ==> after.archivedAt == None)
    && (changes.archived == Some(true) && before.archivedAt.Some? ==> after.archivedAt == before.archivedAt)
    && (changes.archived == Some(true) && before.archivedAt.None? ==> after.archivedAt == Some(now))
  }

  lemma AmendmentIsUpdate(before: Account, changes: AccountUpdate, now: Time)
    ensures IsUpdate(before, changes, now, Amended(before, changes, now))
  {}

  lemma AmendmentStaysInPlace(accounts: seq<Account>, user: nat, id: nat, changes: AccountUpdate, now: Time, i: nat)
    requires AccountIdsUnique(accounts) && i < |accounts| && accounts[i].id == id && accounts[i].user == user
    ensures AmendedAccounts(accounts, id, user, changes, now) == accounts[i := Amended(accounts[i], changes, now)]
  {
    AmendedAccountsAt(accounts, id, user, changes, now, i);
    hide Amended;
    forall j: nat | j < |accounts|
      ensures AmendedAccounts(accounts, id, user, changes, now)[j]
           == accounts[i := Amended(accounts[i], changes, now)][j]
    {
      AmendedAccountsAt(accounts, id, user, changes, now, j);
    }
  }

  /** An update of an account is refused exactly when its new name is that of another of the user's
      accounts. Otherwise the account answered is the update of the one that was there, stored in its
      place, with the balance it is then listed with; rows and other accounts stay. */
  lemma AccountIsUpdatedExactly(books: Books, user: nat, id: nat, changes: AccountUpdate, now: Time, i: nat)
    requires Keyed(books) && i < |books.accounts| && books.accounts[i].id == id && books.accounts[i].user == user
    ensures var (after, result) := UpdatedAccount(books, user, id, changes, now);
            var name := if changes.name.Some? then changes.name.value else books.accounts[i].name;
            && (result.Ok? <==> !HasName(books.accounts, user, name.folded, Some(id)))
            && (result.Err? ==> result.error == AccountNameTaken && after == books)
            && (result.Ok? ==>
                  && IsUpdate(books.accounts[i], changes, now, result.value.account)
                  && after == books.(accounts := books.accounts[i := result.value.account])
                  && result.value in AccountsWithBalances(after, user))
  {
    FoundAccount(books.accounts, id, user);
    AmendmentIsUpdate(books.accounts[i], changes, now);
    AmendmentStaysInPlace(books.accounts, user, id, changes, now, i);
    AmendKeepsKeys(books, user, id, changes, now);
    var (after, result) := UpdatedAccount(books, user, id, changes, now);
    hide AmendedAccounts, Keyed, AccountsWithBalances, AccountBalance, Amended;
    if result.Ok? {
      BalanceIsOf(books, user, books.accounts[i]);
      ListedWithItsBalance(books, user, AccountBalance(Owned(books, user))(books.accounts[i]));
      ListedAs(books, user, AccountBalance(Owned(books, user))(books.accounts[i]));
      assert after.accounts[i] == result.value.account && after.rows == books.rows;
      ListedAs(after, user, result.value);
    }
  }

  lemma UpdateOfNothingIsRefused(books: Books, user: nat, id: nat, changes: AccountUpdate, now: Time)
    requires forall a | a in books.accounts :: a.id != id || a.user != user
    ensures UpdatedAccount(books, user, id, changes, now) == (books, Err(AccountNotFound))
  {
    FoundAccount(books.accounts, id, user);
  }

  // Names over runs.

  ghost predicate NamesDiffer(accounts: seq<Account>) {
    forall i, j | 0 <= i < j < |accounts| && accounts[i].user == accounts[j].user ::
      accounts[i].name.folded != accounts[j].name.folded
  }

  lemma CreationKeepsNames(s: State, e: Event)
    requires Inv(s) && NamesDiffer(s.books.accounts) && Enabled(s, e) && e.request.CreateAccount?
    ensures NamesDiffer(Next(s, e).books.accounts)
  {
    var r := e.request;
    AccountIsCreatedExactly(s.books, e.user, r.id, r.name, r.unit, r.kind);
    hide Inv, AccountsWithBalances, CreatedAccount;
    var accounts' := Next(s, e).books.accounts;
    if accounts' != s.books.accounts {
      forall i | 0 <= i < |s.books.accounts| && s.books.accounts[i].user == e.user
        ensures s.books.accounts[i].name.folded != r.name.folded
      {
        assert s.books.accounts[i] in s.books.accounts;
      }
    }
  }

  lemma UpdateKeepsNames(s: State, e: Event)
    requires Inv(s) && NamesDiffer(s.books.accounts) && Enabled(s, e) && e.request.UpdateAccount?
    ensures NamesDiffer(Next(s, e).books.accounts)
  {
    var r := e.request;
    var accounts := s.books.accounts;
    FoundAccount(accounts, r.id, e.user);
    if a :| a in accounts && a.id == r.id && a.user == e.user {
      var i :| 0 <= i < |accounts| && accounts[i] == a;
      AccountIsUpdatedExactly(s.books, e.user, r.id, r.accountChanges, r.now, i);
      hide AccountsWithBalances, IsUpdate;
      var result := UpdatedAccount(s.books, e.user, r.id, r.accountChanges, r.now).1;
      if result.Ok? {
        forall j | 0 <= j < |accounts| && j != i && accounts[j].user == e.user
          ensures accounts[j].name.folded != result.value.account.name.folded
        {
          assert accounts[j] in accounts && accounts[j].id != r.id;
        }
      }
    } else {
      UpdateOfNothingIsRefused(s.books, e.user, r.id, r.accountChanges, r.now);
    }
  }

  lemma OthersKeepAccounts(s: State, e: Event)
    requires !e.request.CreateAccount? && !e.request.UpdateAccount?
    ensures Next(s, e).books.accounts == s.books.accounts
  {}

  /** After any run no user has two accounts whose names fold to the same form. */
  lemma {:induction false} NamesStayDifferent(s: State, events: seq<Event>)
    requires Inv(s) && NamesDiffer(s.books.accounts) && Valid(s, events)
    ensures NamesDiffer(Run(s, events).books.accounts)
    decreases |events|
  {
    hide Inv, NamesDiffer, Enabled, Next;
    if events != [] {
      var e := events[0];
      NextKeepsInv(s, e);
      if e.request.CreateAccount? {
        CreationKeepsNames(s, e);
      } else if e.request.UpdateAccount? {
        UpdateKeepsNames(s, e);
      } else {
        OthersKeepAccounts(s, e);
      }
      NamesStayDifferent(Next(s, e), events[1..]);
    }
  }
}
