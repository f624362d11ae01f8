/** Users of one ledger do not see or touch each other's money: to each of them the shared tables
    behave as a ledger of their own. */
module Separation {
  import opened Common
  import opened Lists
  import opened Ledger
  import opened Summary
  import opened Balances
  import opened Transfers
  import opened Paging
  import opened LedgerRuns

  function OwnAccount(user: nat): Account -> bool { (a: Account) => a.user == user }

  function OwnRow(user: nat): Row -> bool { (row: Row) => row.user == user }

  /** What there is of one user. */
  function View(books: Books, user: nat): Books {
    Books(Filter(books.accounts, OwnAccount(user)), Filter(books.rows, OwnRow(user)))
  }

  // Someone else's request leaves the view alone.

  lemma {:induction false} PatchLeavesOthers(rows: seq<Row>, id: nat, user: nat, changes: TransactionUpdate, other: nat)
    requires user != other
    ensures Filter(PatchedRows(rows, id, user, changes), OwnRow(other)) == Filter(rows, OwnRow(other))
    decreases |rows|
  {
    if rows != [] {
      PatchLeavesOthers(rows[1..], id, user, changes, other);
      assert PatchedRows(rows, id, user, changes)[1..] == PatchedRows(rows[1..], id, user, changes);
    }
  }

  lemma {:induction false} AmendLeavesOthers(accounts: seq<Account>, id: nat, user: nat, changes: AccountUpdate,
                                             now: Time, other: nat)
    requires user != other
    ensures Filter(AmendedAccounts(accounts, id, user, changes, now), OwnAccount(other))
         == Filter(accounts, OwnAccount(other))
    decreases |accounts|
  {
    if accounts != [] {
      AmendLeavesOthers(accounts[1..], id, user, changes, now, other);
      assert AmendedAccounts(accounts, id, user, changes, now)[1..]
          == AmendedAccounts(accounts[1..], id, user, changes, now);
    }
  }

  lemma DeleteLeavesOthers(books: Books, user: nat, id: nat, other: nat)
    requires user != other
    ensures View(TransactionDeleted(books, user, id).0, other) == View(books, other)
  {
    var keep := Kept(id, user, TargetGroup(books.rows, id, user));
    DeletionFilters(books, user, id);
    FilterTwice(books.rows, keep, OwnRow(other));
    FilterAll(Filter(books.rows, OwnRow(other)), keep);
  }

  lemma AppendLeavesOthers<T(!new)>(xs: seq<T>, more: seq<T>, own: T -> bool)
    requires forall x :: x in more ==> !own(x)
    ensures Filter(xs + more, own) == Filter(xs, own)
  {
    FilterConcat(xs, more, own);
    FilterNone(more, own);
    assert Filter(xs, own) + [] == Filter(xs, own);
  }

  /** A request by one user leaves every other user's accounts and rows as they were. */
  lemma OthersAreUntouched(books: Books, user: nat, r: Request, other: nat)
    requires user != other
    ensures View(Served(books, user, r).0, other) == View(books, other)
  {
    hide Filter, TransactionDeleted;
    match r
    case CreateAccount(id, name, unit, kind) =>
      AppendLeavesOthers(books.accounts, [Account(id, user, name, unit, kind, None)], OwnAccount(other));
    case UpdateAccount(id, changes, now) => AmendLeavesOthers(books.accounts, id, user, changes, now, other);
    case CreateTransaction(id, d) => AppendLeavesOthers(books.rows, [PlainRow(user, id, d)], OwnRow(other));
    case UpdateTransaction(id, changes) => PatchLeavesOthers(books.rows, id, user, changes, other);
    case DeleteTransaction(id) => DeleteLeavesOthers(books, user, id, other);
    case CreateTransfer(d, ids) => AppendLeavesOthers(books.rows, TransferRows(user, d, ids), OwnRow(other));
    case _ =>
  }

  // One's own request reads and writes the view alone.

  lemma {:induction false} FindOwnAccount(accounts: seq<Account>, id: nat, user: nat)
    ensures FindAccount(Filter(accounts, OwnAccount(user)), id, user) == FindAccount(accounts, id, user)
    decreases |accounts|
  {
    if accounts != [] {
      FindOwnAccount(accounts[1..], id, user);
    }
  }

  lemma {:induction false} FindOwnRow(rows: seq<Row>, id: nat, user: nat)
    ensures FindRow(Filter(rows, OwnRow(user)), id, user) == FindRow(rows, id, user)
    decreases |rows|
  {
    if rows != [] {
      FindOwnRow(rows[1..], id, user);
    }
  }

  lemma {:induction false} PatchOwn(rows: seq<Row>, id: nat, user: nat, changes: TransactionUpdate)
    ensures Filter(PatchedRows(rows, id, user, changes), OwnRow(user))
         == PatchedRows(Filter(rows, OwnRow(user)), id, user, changes)
    decreases |rows|
  {
    if rows != [] {
      PatchOwn(rows[1..], id, user, changes);
      assert PatchedRows(rows, id, user, changes)[1..] == PatchedRows(rows[1..], id, user, changes);
    }
  }

  lemma {:induction false} AmendOwn(accounts: seq<Account>, id: nat, user: nat, changes: AccountUpdate, now: Time)
    ensures Filter(AmendedAccounts(accounts, id, user, changes, now), OwnAccount(user))
         == AmendedAccounts(Filter(accounts, OwnAccount(user)), id, user, changes, now)
    decreases |accounts|
  {
    if accounts != [] {
      AmendOwn(accounts[1..], id, user, changes, now);
      assert AmendedAccounts(accounts, id, user, changes, now)[1..]
          == AmendedAccounts(accounts[1..], id, user, changes, now);
    }
  }

  lemma AppendOwn<T(!new)>(xs: seq<T>, more: seq<T>, own: T -> bool)
    requires forall x :: x in more ==> own(x)
    ensures Filter(xs + more, own) == Filter(xs, own) + more
  {
    FilterConcat(xs, more, own);
    FilterAll(more, own);
  }

  /** The request on the whole tables, seen by its user, is the request on the view. */
  ghost predicate SeesOnlyItself(books: Books, user: nat, r: Request) {
    var whole := Served(books, user, r);
    var alone := Served(View(books, user), user, r);
    View(whole.0, user) == alone.0 && whole.1 == alone.1
  }

  lemma NamesAreOwn(accounts: seq<Account>, user: nat, name: CiText, except: Option<nat>)
    ensures NameTaken(Filter(accounts, OwnAccount(user)), user, name, except) == NameTaken(accounts, user, name, except)
  {}

  lemma CreateAccountIsOwn(books: Books, user: nat, r: Request)
    requires r.CreateAccount?
    ensures SeesOnlyItself(books, user, r)
  {
    hide Filter;
    NamesAreOwn(books.accounts, user, r.name, None);
    AppendOwn(books.accounts, [Account(r.id, user, r.name, r.unit, r.kind, None)], OwnAccount(user));
  }

  lemma CreateTransactionIsOwn(books: Books, user: nat, r: Request)
    requires r.CreateTransaction?
    ensures SeesOnlyItself(books, user, r)
  {
    hide Filter;
    FindOwnAccount(books.accounts, r.details.account, user);
    AppendOwn(books.rows, [PlainRow(user, r.id, r.details)], OwnRow(user));
  }

  lemma UpdateTransactionIsOwn(books: Books, user: nat, r: Request)
    requires r.UpdateTransaction?
    ensures SeesOnlyItself(books, user, r)
  {
    hide Filter;
    FindOwnRow(books.rows, r.id, user);
    PatchOwn(books.rows, r.id, user, r.changes);
  }

  lemma DeleteTransactionIsOwn(books: Books, user: nat, r: Request)
    requires r.DeleteTransaction?
    ensures SeesOnlyItself(books, user, r)
  {
    hide Filter;
    var view := View(books, user);
    FindOwnRow(books.rows, r.id, user);
    var keep := Kept(r.id, user, TargetGroup(books.rows, r.id, user));
    DeletionFilters(books, user, r.id);
    DeletionFilters(view, user, r.id);
    FilterTwice(books.rows, keep, OwnRow(user));
    FilterShortens(books.rows, keep);
    FilterShortens(view.rows, keep);
    assert forall row: Row :: !keep(row) ==> OwnRow(user)(row);
  }

  lemma CreateTransferIsOwn(books: Books, user: nat, r: Request)
    requires r.CreateTransfer?
    ensures SeesOnlyItself(books, user, r)
  {
    hide Filter;
    forall id
      ensures FindAccount(Filter(books.accounts, OwnAccount(user)), id, user) == FindAccount(books.accounts, id, user)
    {
      FindOwnAccount(books.accounts, id, user);
    }
    AppendOwn(books.rows, TransferRows(user, r.transfer, r.ids), OwnRow(user));
  }

  // The balance join does not filter rows by user, and need not.

  ghost predicate RowsMatchOwners(accounts: seq<Account>, rows: seq<Row>, user: nat) {
    forall a, row | a in accounts && row in rows && row.account == a.id :: a.user == user <==> row.user == user
  }

  lemma KeyedRowsMatchOwners(books: Books, user: nat)
    requires Keyed(books)
    ensures RowsMatchOwners(books.accounts, books.rows, user)
  {
    forall a, row | a in books.accounts && row in books.rows && row.account == a.id
      ensures a.user == row.user
    {
      HomeIsTheOnlyMatch(books.accounts, row, a);
      FoundAccount(books.accounts, row.account, row.user);
    }
  }

  lemma OuterPairsOwn(a: Account, rows: seq<Row>, user: nat)
    requires RowsMatchOwners([a], rows, user)
    ensures Filter(OuterPairs(a, Filter(rows, OnAccount(a.id))), OwnedBy(user))
         == if a.user == user then OuterPairs(a, Filter(Filter(rows, OwnRow(user)), OnAccount(a.id))) else []
  {
    var pairs := OuterPairs(a, Filter(rows, OnAccount(a.id)));
    assert forall x :: x in pairs ==> x.account == a;
    if a.user == user {
      assert a in [a];
      FilterAll(pairs, OwnedBy(user));
      FilterTwice(rows, OwnRow(user), OnAccount(a.id));
      FilterAll(Filter(rows, OnAccount(a.id)), OwnRow(user));
    } else {
      FilterNone(pairs, OwnedBy(user));
    }
  }

  lemma {:induction false} OuterJoinOwn(accounts: seq<Account>, rows: seq<Row>, user: nat)
    requires RowsMatchOwners(accounts, rows, user)
    ensures Filter(OuterJoin(accounts, rows), OwnedBy(user))
         == OuterJoin(Filter(accounts, OwnAccount(user)), Filter(rows, OwnRow(user)))
    decreases |accounts|
  {
    if accounts != [] {
      OuterPairsOwn(accounts[0], rows, user);
      OuterJoinOwn(accounts[1..], rows, user);
      var first := OuterPairs(accounts[0], Filter(rows, OnAccount(accounts[0].id)));
      FilterConcat(first, OuterJoin(accounts[1..], rows), OwnedBy(user));
    }
  }

  lemma OwnedIsOwn(books: Books, user: nat)
    requires Keyed(books)
    ensures Owned(View(books, user), user) == Owned(books, user)
  {
    var view := View(books, user);
    KeyedRowsMatchOwners(books, user);
    OuterJoinOwn(books.accounts, books.rows, user);
    FilterTwice(OuterJoin(books.accounts, books.rows), OwnedBy(user), OwnedBy(user));
    FilterAll(Filter(OuterJoin(books.accounts, books.rows), OwnedBy(user)), OwnedBy(user));
  }

  lemma RowPairsOwn(row: Row, accounts: seq<Account>, user: nat)
    requires RowsMatchOwners(accounts, [row], user) && row.user == user
    ensures Filter(Filter(accounts, OwnAccount(user)), HasId(row.account)) == Filter(accounts, HasId(row.account))
  {
    assert row in [row];
    FilterTwice(accounts, OwnAccount(user), HasId(row.account));
    FilterAll(Filter(accounts, HasId(row.account)), OwnAccount(user));
  }

  lemma {:induction false} InnerJoinOwn(rows: seq<Row>, accounts: seq<Account>, user: nat, w: Pair -> bool)
    requires RowsMatchOwners(accounts, rows, user) && forall x :: w(x) ==> x.row.user == user
    ensures Filter(InnerJoin(rows, accounts), w)
         == Filter(InnerJoin(Filter(rows, OwnRow(user)), Filter(accounts, OwnAccount(user))), w)
    decreases |rows|
  {
    if rows != [] {
      var m := (a: Account) => Pair(rows[0], a);
      var pairs := Map(Filter(accounts, HasId(rows[0].account)), m);
      InnerJoinOwn(rows[1..], accounts, user, w);
      FilterConcat(pairs, InnerJoin(rows[1..], accounts), w);
      var own := Filter(rows[1..], OwnRow(user));
      if rows[0].user == user {
        RowPairsOwn(rows[0], accounts, user);
        assert ([rows[0]] + own)[1..] == own;
        FilterConcat(pairs, InnerJoin(own, Filter(accounts, OwnAccount(user))), w);
      } else {
        FilterNone(pairs, w);
      }
    }
  }

  lemma SummaryIsOwn(books: Books, user: nat, r: Request)
    requires Keyed(books) && r.GetSummary?
    ensures SeesOnlyItself(books, user, r)
  {
    hide Filter, Keys, Map, PresentTotals;
    KeyedRowsMatchOwners(books, user);
    OwnedIsOwn(books, user);
    InnerJoinOwn(books.rows, books.accounts, user, OwnedWithinPeriod(user, r.period));
    InnerJoinOwn(books.rows, books.accounts, user, Both(OwnedWithinPeriod(user, r.period), IsExpense()));
  }

  lemma AccountReadsAreOwn(books: Books, user: nat, r: Request)
    requires Keyed(books) && (r.GetAccount? || r.ListAccounts?)
    ensures SeesOnlyItself(books, user, r)
  {
    hide Filter, Keys, Map;
    OwnedIsOwn(books, user);
    if r.GetAccount? {
      FindOwnAccount(books.accounts, r.id, user);
    }
  }

  lemma UpdateAccountIsOwn(books: Books, user: nat, r: Request)
    requires Keyed(books) && r.UpdateAccount?
    ensures SeesOnlyItself(books, user, r)
  {
    hide Filter, Owned, NameTaken, Amended, AmendedAccounts;
    OwnedIsOwn(books, user);
    FindOwnAccount(books.accounts, r.id, user);
    AmendOwn(books.accounts, r.id, user, r.accountChanges, r.now);
    var found := FindAccount(books.accounts, r.id, user);
    if found.Some? {
      NamesAreOwn(books.accounts, user, Amended(found.value, r.accountChanges, r.now).name, Some(r.id));
    }
  }

  lemma RowReadsAreOwn(books: Books, user: nat, r: Request)
    requires r.GetTransaction? || r.ListTransactions?
    ensures SeesOnlyItself(books, user, r)
  {
    if r.GetTransaction? {
      FindOwnRow(books.rows, r.id, user);
    } else {
      FilterTwice(books.rows, OwnRow(user), Matching(user, r.filters));
      FilterAll(Filter(books.rows, Matching(user, r.filters)), OwnRow(user));
    }
  }

  /** Any request answers, and does to its user's own data, just what it would if nobody else had
      accounts or rows. */
  lemma RequestsSeeOnlyThemselves(books: Books, user: nat, r: Request)
    requires Keyed(books)
    ensures View(Served(books, user, r).0, user) == Served(View(books, user), user, r).0
    ensures Served(books, user, r).1 == Served(View(books, user), user, r).1
  {
    hide Served, Keyed;
    match r
    case CreateAccount(_, _, _, _) => CreateAccountIsOwn(books, user, r);
    case UpdateAccount(_, _, _) => UpdateAccountIsOwn(books, user, r);
    case CreateTransaction(_, _) => CreateTransactionIsOwn(books, user, r);
    case UpdateTransaction(_, _) => UpdateTransactionIsOwn(books, user, r);
    case DeleteTransaction(_) => DeleteTransactionIsOwn(books, user, r);
    case CreateTransfer(_, _) => CreateTransferIsOwn(books, user, r);
    case GetSummary(_) => SummaryIsOwn(books, user, r);
    case GetAccount(_) => AccountReadsAreOwn(books, user, r);
    case ListAccounts => AccountReadsAreOwn(books, user, r);
    case _ => RowReadsAreOwn(books, user, r);
  }

  // Whole runs.

  /** What one user is answered in a run. */
  function Replies(s: State, events: seq<Event>, user: nat): seq<Reply>
    decreases |events|
  {
    if events == [] then []
    else
      (if events[0].user == user then [Served(s.books, user, events[0].request).1] else [])
      + Replies(Next(s, events[0]), events[1..], user)
  }

  function RequestsOf(events: seq<Event>, user: nat): seq<Request> {
    if events == [] then []
    else (if events[0].user == user then [events[0].request] else []) + RequestsOf(events[1..], user)
  }

  /** A ledger with one user. */
  function Alone(books: Books, user: nat, requests: seq<Request>): (Books, seq<Reply>)
    decreases |requests|
  {
    if requests == [] then (books, [])
    else
      var (after, reply) := Served(books, user, requests[0]);
      var (end, replies) := Alone(after, user, requests[1..]);
      (end, [reply] + replies)
  }

  lemma InvIsKeyed(s: State)
    requires Inv(s)
    ensures Keyed(s.books)
  {}

  /** In a run of any number of users, each is answered exactly as in a ledger of their own given
      only their own requests, and is left with exactly what that ledger would hold. */
  lemma {:induction false} UsersAreSeparate(s: State, events: seq<Event>, user: nat)
    requires Inv(s) && Valid(s, events)
    ensures (View(Run(s, events).books, user), Replies(s, events, user))
         == Alone(View(s.books, user), user, RequestsOf(events, user))
    decreases |events|
  {
    hide Served, Inv, Enabled, View;
    if events != [] {
      var e := events[0];
      var requests := RequestsOf(events[1..], user);
      NextKeepsInv(s, e);
      UsersAreSeparate(Next(s, e), events[1..], user);
      if e.user == user {
        InvIsKeyed(s);
        RequestsSeeOnlyThemselves(s.books, user, e.request);
        assert ([e.request] + requests)[1..] == requests;
      } else {
        OthersAreUntouched(s.books, e.user, e.request, user);
        assert [] + requests == requests;
        assert [] + Replies(Next(s, e), events[1..], user) == Replies(Next(s, e), events[1..], user);
      }
    }
  }
}
