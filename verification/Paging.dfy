/** The paged list: filters that combine with AND, newest first with the id breaking ties.

    A query with ORDER BY may return any permutation of the matching rows that respects the order,
    and two queries need not choose alike. The results are about every choice. */
module Paging {
  import opened Common
  import opened Lists
  import opened Ledger

  datatype Filters = Filters(account: Option<nat>, kind: Option<Kind>, category: Option<string>,
                             occurredFrom: Option<Time>, occurredTo: Option<Time>)

  /** Times match from occurredFrom on and before occurredTo. No category filter matches a row that
      has no category. */
  predicate Matches(row: Row, user: nat, filters: Filters) {
    && row.user == user
    && (filters.account.Some? ==> row.account == filters.account.value)
    && (filters.kind.Some? ==> row.kind == filters.kind.value)
    && (filters.category.Some? ==> row.category == Some(filters.category.value))
    && (filters.occurredFrom.Some? ==> filters.occurredFrom.value <= row.occurredAt)
    && (filters.occurredTo.Some? ==> row.occurredAt < filters.occurredTo.value)
  }

  function Matching(user: nat, filters: Filters): Row -> bool {
    (row: Row) => Matches(row, user, filters)
  }

  /** a comes before b: ORDER BY occurred_at DESC, id DESC. */
  predicate Before(a: Row, b: Row) {
    a.occurredAt > b.occurredAt || (a.occurredAt == b.occurredAt && a.id > b.id)
  }

  ghost predicate InOrder(rows: seq<Row>) {
    forall i, j :: 0 <= i < j < |rows| ==> !Before(rows[j], rows[i])
  }

  /** A result the ordered query may return before LIMIT and OFFSET. */
  ghost predicate IsListing(listing: seq<Row>, rows: seq<Row>, user: nat, filters: Filters) {
    multiset(listing) == multiset(Filter(rows, Matching(user, filters))) && InOrder(listing)
  }

  function Page(listing: seq<Row>, limit: nat, offset: nat): seq<Row> {
    if offset >= |listing| then []
    else if offset + limit >= |listing| then listing[offset..]
    else listing[offset..offset + limit]
  }

  /** A page the database may answer with. */
  ghost predicate MayAnswer(page: seq<Row>, rows: seq<Row>, user: nat, filters: Filters, limit: nat, offset: nat) {
    exists listing :: IsListing(listing, rows, user, filters) && page == Page(listing, limit, offset)
  }

  // A listing exists: here, by insertion.

  function Insert(row: Row, sorted: seq<Row>): seq<Row> {
    if sorted == [] || Before(row, sorted[0]) then [row] + sorted
    else [sorted[0]] + Insert(row, sorted[1..])
  }

  function Sort(rows: seq<Row>): seq<Row> {
    if rows == [] then [] else Insert(rows[0], Sort(rows[1..]))
  }

  lemma {:induction false} InsertAdds(row: Row, sorted: seq<Row>)
    ensures multiset(Insert(row, sorted)) == multiset{row} + multiset(sorted)
    decreases |sorted|
  {
    if sorted == [] || Before(row, sorted[0]) {
    } else {
      InsertAdds(row, sorted[1..]);
      assert sorted == [sorted[0]] + sorted[1..];
    }
  }

  lemma {:induction false} InsertKeepsOrder(row: Row, sorted: seq<Row>)
    requires InOrder(sorted)
    ensures InOrder(Insert(row, sorted))
    decreases |sorted|
  {
    if sorted == [] || Before(row, sorted[0]) {
    } else {
      InsertKeepsOrder(row, sorted[1..]);
      InsertAdds(row, sorted[1..]);
      var rest := Insert(row, sorted[1..]);
      forall i | 0 <= i < |rest|
        ensures !Before(rest[i], sorted[0])
      {
        assert rest[i] in multiset(rest);
      }
    }
  }

  lemma {:induction false} SortSorts(rows: seq<Row>)
    ensures multiset(Sort(rows)) == multiset(rows) && InOrder(Sort(rows))
    decreases |rows|
  {
    if rows != [] {
      SortSorts(rows[1..]);
      InsertAdds(rows[0], Sort(rows[1..]));
      InsertKeepsOrder(rows[0], Sort(rows[1..]));
      assert rows == [rows[0]] + rows[1..];
    }
  }

  /** One condition of the WHERE clause. */
  datatype Condition =
    | UserIs(user: nat)
    | AccountIs(account: nat)
    | KindIs(kind: Kind)
    | CategoryIs(category: string)
    | NotBefore(from: Time)
    | EarlierThan(to: Time)

  predicate Meets(row: Row, condition: Condition) {
    match condition
    case UserIs(user) => row.user == user
    case AccountIs(account) => row.account == account
    case KindIs(kind) => row.kind == kind
    case CategoryIs(category) => row.category == Some(category)
    case NotBefore(from) => from <= row.occurredAt
    case EarlierThan(to) => row.occurredAt < to
  }

  /** AND over the conditions. */
  predicate MeetsAll(row: Row, conditions: seq<Condition>) {
    conditions == []
    || (MeetsAll(row, conditions[..|conditions| - 1]) && Meets(row, conditions[|conditions| - 1]))
  }

  function MeetingAll(conditions: seq<Condition>): Row -> bool {
    (row: Row) => MeetsAll(row, conditions)
  }

  ghost predicate SameRows(conditions: seq<Condition>, user: nat, filters: Filters) {
    forall row :: MeetsAll(row, conditions) <==> Matches(row, user, filters)
  }

  /** The filters with the field this condition is about. */
  function WithCondition(filters: Filters, condition: Condition): Filters {
    match condition
    case UserIs(_) => filters
    case AccountIs(account) => filters.(account := Some(account))
    case KindIs(kind) => filters.(kind := Some(kind))
    case CategoryIs(category) => filters.(category := Some(category))
    case NotBefore(from) => filters.(occurredFrom := Some(from))
    case EarlierThan(to) => filters.(occurredTo := Some(to))
  }

  /** Appending the condition of a field not yet asked for is asking for it. */
  lemma ConditionAdded(conditions: seq<Condition>, user: nat, filters: Filters, condition: Condition)
    requires SameRows(conditions, user, filters) && !condition.UserIs?
    requires condition.AccountIs? ==> filters.account.None?
    requires condition.KindIs? ==> filters.kind.None?
    requires condition.CategoryIs? ==> filters.category.None?
    requires condition.NotBefore? ==> filters.occurredFrom.None?
    requires condition.EarlierThan? ==> filters.occurredTo.None?
    ensures SameRows(conditions + [condition], user, WithCondition(filters, condition))
  {
    forall row
      ensures MeetsAll(row, conditions + [condition]) <==> Matches(row, user, WithCondition(filters, condition))
    {
      assert (conditions + [condition])[..|conditions|] == conditions;
      assert MeetsAll(row, conditions) <==> Matches(row, user, filters);
    }
  }

  lemma SameSelection(rows: seq<Row>, conditions: seq<Condition>, user: nat, filters: Filters)
    requires SameRows(conditions, user, filters)
    ensures Filter(rows, MeetingAll(conditions)) == Filter(rows, Matching(user, filters))
  {
    FilterSame(rows, MeetingAll(conditions), Matching(user, filters));
  }

  method ListTransactions(rows: seq<Row>, user: nat, filters: Filters, limit: nat, offset: nat)
    returns (page: seq<Row>, total: nat)
    ensures MayAnswer(page, rows, user, filters, limit, offset)
    ensures total == |Filter(rows, Matching(user, filters))|
  {
    var conditions := [UserIs(user)];
    ghost var asked := Filters(None, None, None, None, None);
    forall row
      ensures MeetsAll(row, conditions) <==> Matches(row, user, asked)
    {
      assert conditions[..0] == [] && MeetsAll(row, []);
    }
    assert SameRows(conditions, user, asked);
    hide SameRows;
    if filters.account.Some? {
      ConditionAdded(conditions, user, asked, AccountIs(filters.account.value));
      conditions := conditions + [AccountIs(filters.account.value)];
    }
    asked := asked.(account := filters.account);
    if filters.kind.Some? {
      ConditionAdded(conditions, user, asked, KindIs(filters.kind.value));
      conditions := conditions + [KindIs(filters.kind.value)];
    }
    asked := asked.(kind := filters.kind);
    if filters.category.Some? {
      ConditionAdded(conditions, user, asked, CategoryIs(filters.category.value));
      conditions := conditions + [CategoryIs(filters.category.value)];
    }
    asked := asked.(category := filters.category);
    if filters.occurredFrom.Some? {
      ConditionAdded(conditions, user, asked, NotBefore(filters.occurredFrom.value));
      conditions := conditions + [NotBefore(filters.occurredFrom.value)];
    }
    asked := asked.(occurredFrom := filters.occurredFrom);
    if filters.occurredTo.Some? {
      ConditionAdded(conditions, user, asked, EarlierThan(filters.occurredTo.value));
      conditions := conditions + [EarlierThan(filters.occurredTo.value)];
    }
    asked := asked.(occurredTo := filters.occurredTo);
    assert asked == filters;
    var meeting := Filter(rows, MeetingAll(conditions));
    SameSelection(rows, conditions, user, filters);
    total := |meeting|;
    SortSorts(meeting);
    assert IsListing(Sort(meeting), rows, user, filters);
    page := Page(Sort(meeting), limit, offset);
  }

  // Every choice is the same choice.

  lemma RestOf(a: seq<Row>)
    requires a != []
    ensures multiset(a[1..]) == multiset(a) - multiset{a[0]}
  {
    assert a == [a[0]] + a[1..];
  }

  lemma FirstIsFirst(a: seq<Row>, b: seq<Row>)
    requires multiset(a) == multiset(b) && InOrder(a) && InOrder(b) && RowIdsUnique(a) && a != [] && b != []
    ensures a[0] == b[0]
  {
    assert a[0] in multiset(b) && b[0] in multiset(a);
    var i :| 0 <= i < |b| && b[i] == a[0];
    var j :| 0 <= j < |a| && a[j] == b[0];
    assert i > 0 ==> !Before(b[i], b[0]);
    assert j > 0 ==> !Before(a[j], a[0]);
  }

  lemma {:induction false} OrderIsUnique(a: seq<Row>, b: seq<Row>)
    requires multiset(a) == multiset(b) && InOrder(a) && InOrder(b) && RowIdsUnique(a)
    ensures a == b
    decreases |a|
  {
    assert |multiset(a)| == |a| && |multiset(b)| == |b|;
    if a != [] {
      FirstIsFirst(a, b);
      RestOf(a);
      RestOf(b);
      OrderIsUnique(a[1..], b[1..]);
      assert a == [a[0]] + a[1..] && b == [b[0]] + b[1..];
    }
  }

  lemma {:induction false} PermutationKeepsIds(a: seq<Row>, b: seq<Row>)
    requires multiset(a) == multiset(b) && RowIdsUnique(b)
    ensures RowIdsUnique(a)
  {
    forall i, j | 0 <= i < j < |a|
      ensures a[i].id != a[j].id
    {
      assert a[i] in multiset(b) && a[j] in multiset(b);
      if a[i] == a[j] {
        TwiceIsTwo(a, i, j);
        OnceIsOne(b, a[i]);
        assert false;
      }
    }
  }

  lemma TwiceIsTwo(a: seq<Row>, i: nat, j: nat)
    requires i < j < |a| && a[i] == a[j]
    ensures multiset(a)[a[i]] >= 2
  {
    assert a == a[..i] + [a[i]] + a[i + 1..j] + [a[j]] + a[j + 1..];
  }

  lemma {:induction false} OnceIsOne(b: seq<Row>, x: Row)
    requires RowIdsUnique(b)
    ensures multiset(b)[x] <= 1
    decreases |b|
  {
    if b != [] {
      OnceIsOne(b[1..], x);
      assert b == [b[0]] + b[1..];
      if b[0] == x {
        assert x !in b[1..];
      }
    }
  }

  lemma ListingIsUnique(a: seq<Row>, b: seq<Row>, rows: seq<Row>, user: nat, filters: Filters)
    requires RowIdsUnique(rows) && IsListing(a, rows, user, filters) && IsListing(b, rows, user, filters)
    ensures a == b
  {
    SelectionKeepsIds(rows, Matching(user, filters));
    PermutationKeepsIds(a, Filter(rows, Matching(user, filters)));
    OrderIsUnique(a, b);
  }

  function Joined(pages: seq<seq<Row>>): seq<Row> {
    if pages == [] then [] else Joined(pages[..|pages| - 1]) + pages[|pages| - 1]
  }

  /** Where page k starts. */
  function Offset(k: nat, limit: nat): nat {
    k * limit
  }

  lemma OffsetOfNext(k: nat, limit: nat)
    ensures Offset(k + 1, limit) == Offset(k, limit) + limit && Offset(0, limit) == 0
  {}

  /** The first n rows, or all of them. */
  function FirstRows(listing: seq<Row>, n: nat): seq<Row> {
    if n >= |listing| then listing else listing[..n]
  }

  lemma OnePageMore(listing: seq<Row>, limit: nat, n: nat)
    ensures FirstRows(listing, n) + Page(listing, limit, n) == FirstRows(listing, n + limit)
  {}

  lemma {:induction false} PagesJoin(pages: seq<seq<Row>>, listing: seq<Row>, limit: nat)
    requires forall k :: 0 <= k < |pages| ==> pages[k] == Page(listing, limit, Offset(k, limit))
    ensures Joined(pages) == FirstRows(listing, Offset(|pages|, limit))
    decreases |pages|
  {
    OffsetOfNext(0, limit);
    if pages != [] {
      var n := |pages| - 1;
      hide Offset;
      PagesJoin(pages[..n], listing, limit);
      OnePageMore(listing, limit, Offset(n, limit));
      OffsetOfNext(n, limit);
      hide FirstRows, Page;
    }
  }

  /** Walking the pages at any fixed limit, each answered by a query of its own, sees exactly the
      matching rows, in strict order, each once and none skipped, as many as the total reported. */
  lemma WalkSeesEveryRowOnce(rows: seq<Row>, user: nat, filters: Filters, limit: nat, pages: seq<seq<Row>>)
    requires RowIdsUnique(rows) && limit > 0
    requires forall k :: 0 <= k < |pages| ==> MayAnswer(pages[k], rows, user, filters, limit, Offset(k, limit))
    requires Offset(|pages|, limit) >= |Filter(rows, Matching(user, filters))|
    ensures var seen := Joined(pages);
            && multiset(seen) == multiset(Filter(rows, Matching(user, filters)))
            && |seen| == |Filter(rows, Matching(user, filters))|
            && (forall i, j :: 0 <= i < j < |seen| ==> Before(seen[i], seen[j]))
  {
    hide Offset, Page, Sort, Filter, Joined;
    var matching := Filter(rows, Matching(user, filters));
    SortSorts(matching);
    var listing := Sort(matching);
    forall k | 0 <= k < |pages|
      ensures pages[k] == Page(listing, limit, Offset(k, limit))
    {
      assert MayAnswer(pages[k], rows, user, filters, limit, Offset(k, limit));
      var other :| IsListing(other, rows, user, filters) && pages[k] == Page(other, limit, Offset(k, limit));
      ListingIsUnique(other, listing, rows, user, filters);
    }
    assert |multiset(listing)| == |listing| && |multiset(matching)| == |matching|;
    PagesJoin(pages, listing, limit);
    SelectionKeepsIds(rows, Matching(user, filters));
    PermutationKeepsIds(listing, matching);
  }

  // What is on a page.

  /** Every filter that is given agrees with the row. A time range takes in its start and not its end,
      and a row without a category has no category to agree with. */
  predicate Wanted(row: Row, user: nat, filters: Filters) {
    && row.user == user
    && filters.account in {None, Some(row.account)}
    && filters.kind in {None, Some(row.kind)}
    && filters.category in {None, row.category}
    && (filters.occurredFrom.None? || row.occurredAt >= filters.occurredFrom.value)
    && (filters.occurredTo.None? || filters.occurredTo.value > row.occurredAt)
  }

  lemma FiltersSelectWanted(row: Row, user: nat, filters: Filters)
    ensures Matching(user, filters)(row) <==> Wanted(row, user, filters)
  {}

  /** a is more recent than b, or of the same time with the greater id. */
  predicate Newer(a: Row, b: Row) {
    || a.occurredAt > b.occurredAt
    || (a.occurredAt == b.occurredAt && a.id > b.id)
  }

  function NewerThan(row: Row): Row -> bool {
    (other: Row) => Newer(other, row)
  }

  /** Wanted, and newer than the row. */
  function WantedBefore(row: Row, user: nat, filters: Filters): Row -> bool {
    (other: Row) => Wanted(other, user, filters) && Newer(other, row)
  }

  lemma {:induction false} SelectedCount(rows: seq<Row>, p: Row -> bool, row: Row)
    ensures multiset(Filter(rows, p))[row] == if p(row) then multiset(rows)[row] else 0
    decreases |rows|
  {
    if rows != [] {
      SelectedCount(rows[1..], p, row);
      assert rows == [rows[0]] + rows[1..];
      if p(rows[0]) {
        assert multiset(Filter(rows, p)) == multiset{rows[0]} + multiset(Filter(rows[1..], p));
      }
    }
  }

  lemma SelectionOfPermutation(a: seq<Row>, b: seq<Row>, p: Row -> bool)
    requires multiset(a) == multiset(b)
    ensures |Filter(a, p)| == |Filter(b, p)|
  {
    forall row
      ensures multiset(Filter(a, p))[row] == multiset(Filter(b, p))[row]
    {
      SelectedCount(a, p, row);
      SelectedCount(b, p, row);
    }
    assert multiset(Filter(a, p)) == multiset(Filter(b, p));
    assert |multiset(Filter(a, p))| == |Filter(a, p)| && |multiset(Filter(b, p))| == |Filter(b, p)|;
  }

  /** In a listing, as many rows are newer than the one at i as stand before it. */
  lemma RankInListing(listing: seq<Row>, i: nat)
    requires i < |listing| && forall j, k :: 0 <= j < k < |listing| ==> Newer(listing[j], listing[k])
    ensures |Filter(listing, NewerThan(listing[i]))| == i
  {
    var p := NewerThan(listing[i]);
    assert listing == listing[..i] + listing[i..];
    FilterConcat(listing[..i], listing[i..], p);
    FilterAll(listing[..i], p);
    FilterNone(listing[i..], p);
  }

  lemma ListingIsNewestFirst(listing: seq<Row>, rows: seq<Row>, user: nat, filters: Filters)
    requires RowIdsUnique(rows) && IsListing(listing, rows, user, filters)
    ensures RowIdsUnique(listing)
    ensures forall j, k :: 0 <= j < k < |listing| ==> Newer(listing[j], listing[k])
    ensures forall row :: row in listing <==> row in rows && Wanted(row, user, filters)
  {
    hide Filter;
    SelectionKeepsIds(rows, Matching(user, filters));
    PermutationKeepsIds(listing, Filter(rows, Matching(user, filters)));
    forall row
      ensures row in listing <==> row in rows && Wanted(row, user, filters)
    {
      FiltersSelectWanted(row, user, filters);
      assert row in listing <==> row in multiset(listing);
      assert row in Filter(rows, Matching(user, filters)) <==> row in multiset(Filter(rows, Matching(user, filters)));
    }
  }

  /** How many wanted rows are newer than this one. */
  function Rank(row: Row, rows: seq<Row>, user: nat, filters: Filters): nat {
    |Filter(rows, WantedBefore(row, user, filters))|
  }

  lemma RankIsPlace(listing: seq<Row>, rows: seq<Row>, user: nat, filters: Filters, i: nat)
    requires RowIdsUnique(rows) && IsListing(listing, rows, user, filters) && i < |listing|
    ensures Rank(listing[i], rows, user, filters) == i
  {
    var row := listing[i];
    var matching := Filter(rows, Matching(user, filters));
    ListingIsNewestFirst(listing, rows, user, filters);
    RankInListing(listing, i);
    SelectionOfPermutation(listing, matching, NewerThan(row));
    SelectedTwice(rows, user, filters, row);
    hide Filter, Wanted, Newer, IsListing;
  }

  lemma {:induction false} SelectedTwice(rows: seq<Row>, user: nat, filters: Filters, row: Row)
    ensures Filter(Filter(rows, Matching(user, filters)), NewerThan(row))
         == Filter(rows, WantedBefore(row, user, filters))
    decreases |rows|
  {
    if rows != [] {
      SelectedTwice(rows[1..], user, filters, row);
      FiltersSelectWanted(rows[0], user, filters);
      var rest := Filter(rows[1..], Matching(user, filters));
      assert ([rows[0]] + rest)[1..] == rest;
      hide Matches, Wanted, Newer;
    }
  }

  lemma PageIsWithin(listing: seq<Row>, limit: nat, offset: nat, row: Row)
    ensures row in Page(listing, limit, offset) <==>
              exists i: nat :: i < |listing| && offset <= i < offset + limit && listing[i] == row
  {
    var page := Page(listing, limit, offset);
    if row in page {
      var j :| 0 <= j < |page| && page[j] == row;
      assert listing[offset + j] == row;
    }
    if i: nat :| i < |listing| && offset <= i < offset + limit && listing[i] == row {
      assert page[i - offset] == row;
    }
  }

  /** A page holds exactly the wanted rows that have as many newer wanted rows as its offset or more,
      but fewer than its offset and limit together; and it has them newest first, by time and then id. */
  lemma PageIsByRank(page: seq<Row>, rows: seq<Row>, user: nat, filters: Filters, limit: nat, offset: nat)
    requires RowIdsUnique(rows) && MayAnswer(page, rows, user, filters, limit, offset)
    ensures forall row :: row in page <==>
              row in rows && Wanted(row, user, filters) && offset <= Rank(row, rows, user, filters) < offset + limit
    ensures forall i, j :: 0 <= i < j < |page| ==> Newer(page[i], page[j])
  {
    hide Rank, Wanted, Newer;
    var listing :| IsListing(listing, rows, user, filters) && page == Page(listing, limit, offset);
    ListingIsNewestFirst(listing, rows, user, filters);
    forall row
      ensures row in page <==>
                row in rows && Wanted(row, user, filters) && offset <= Rank(row, rows, user, filters) < offset + limit
    {
      PageIsWithin(listing, limit, offset, row);
      forall i: nat | i < |listing|
        ensures Rank(listing[i], rows, user, filters) == i
      {
        RankIsPlace(listing, rows, user, filters, i);
      }
    }
    hide IsListing;
  }

  /** Nothing wanted that is left off the first page is newer than anything on it. */
  lemma FirstPageIsNewest(page: seq<Row>, rows: seq<Row>, user: nat, filters: Filters, limit: nat, on: Row, off: Row)
    requires RowIdsUnique(rows) && MayAnswer(page, rows, user, filters, limit, 0)
    requires on in page && off in rows && Wanted(off, user, filters) && off !in page
    ensures Newer(on, off)
  {
    hide Wanted;
    var listing :| IsListing(listing, rows, user, filters) && page == Page(listing, limit, 0);
    ListingIsNewestFirst(listing, rows, user, filters);
    PageIsWithin(listing, limit, 0, on);
    PageIsWithin(listing, limit, 0, off);
    var i: nat :| i < |listing| && listing[i] == on && i < limit;
    var j: nat :| j < |listing| && listing[j] == off;
    hide IsListing, Page;
  }

  /** Walking the pages sees the wanted rows newest first. */
  lemma WalkIsNewestFirst(rows: seq<Row>, user: nat, filters: Filters, limit: nat, pages: seq<seq<Row>>)
    requires RowIdsUnique(rows) && limit > 0
    requires forall k :: 0 <= k < |pages| ==> MayAnswer(pages[k], rows, user, filters, limit, Offset(k, limit))
    requires Offset(|pages|, limit) >= |Filter(rows, Matching(user, filters))|
    ensures var seen := Joined(pages);
            && (forall i, j :: 0 <= i < j < |seen| ==> Newer(seen[i], seen[j]))
            && (forall row :: row in seen <==> row in rows && Wanted(row, user, filters))
  {
    WalkSeesEveryRowOnce(rows, user, filters, limit, pages);
    hide Joined, Filter, MayAnswer, Offset;
    var seen := Joined(pages);
    assert InOrder(seen);
    ListingIsNewestFirst(seen, rows, user, filters);
  }

  // The id in the order is not decoration.

  ghost predicate InTimeOrder(rows: seq<Row>) {
    forall i, j :: 0 <= i < j < |rows| ==> rows[i].occurredAt >= rows[j].occurredAt
  }

  /** Ordered by time alone, two rows that share a time could be answered so that walking shows
      one twice and the other never. */
  lemma TimeAloneWouldNotDo(a: Row, b: Row)
    requires a != b && a.occurredAt == b.occurredAt
    ensures exists first, second: seq<Row> ::
              && multiset(first) == multiset([a, b]) == multiset(second)
              && InTimeOrder(first) && InTimeOrder(second)
              && b !in Page(first, 1, 0) + Page(second, 1, 1)
  {
    var first, second := [a, b], [b, a];
    assert Page(first, 1, 0) + Page(second, 1, 1) == [a, a];
  }
}
