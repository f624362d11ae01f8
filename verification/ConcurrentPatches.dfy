/** Patches of transactions that interleave. A patch reads the row without a lock, and writes later:
    of the columns it assigns, those whose value is not the one it read. Between the two, other
    requests may change the row.

    All other requests are atomic steps, and a row id is never given twice. */
module ConcurrentPatches {
  import opened Common
  import opened Lists
  import opened Ledger
  import opened Balances
  import opened Transfers
  import opened LedgerRuns

  type Tx = nat

  /** A patch that has read its row and not yet written. */
  datatype Patch = Patch(read: Row, changes: TransactionUpdate)

  datatype Mixed = Mixed(ledger: State, patches: map<Tx, Patch>)

  datatype Step =
    | Atomic(event: Event)
    | Read(tx: Tx, user: nat, id: nat, changes: TransactionUpdate)
    | Write(tx: Tx)

  function Column<T(==)>(current: T, read: T, patched: T): T {
    if patched == read then current else patched
  }

  /** The row as it is now, with the columns that the patch changed in the row it read. */
  function Written(current: Row, patch: Patch): Row {
    var read, patched := patch.read, Patched(patch.read, patch.changes);
    current.(amount := Column(current.amount, read.amount, patched.amount),
             kind := Column(current.kind, read.kind, patched.kind),
             category := Column(current.category, read.category, patched.category),
             occurredAt := Column(current.occurredAt, read.occurredAt, patched.occurredAt),
             note := Column(current.note, read.note, patched.note))
  }

  function Writes(patch: Patch): Row -> Row {
    (row: Row) => if row.id == patch.read.id then Written(row, patch) else row
  }

  /** Whether a request hands out one of these ids. */
  predicate GivesId(request: Request, id: nat) {
    match request
    case CreateTransaction(given, _) => given == id
    case CreateTransfer(_, ids) => id in {ids.sent, ids.received, ids.fee}
    case _ => false
  }

  ghost predicate Possible(m: Mixed, step: Step) {
    match step
    case Atomic(event) =>
      Enabled(m.ledger, event) && forall tx | tx in m.patches :: !GivesId(event.request, m.patches[tx].read.id)
    case Read(tx, _, _, _) => tx !in m.patches
    case Write(tx) => tx in m.patches
  }

  /** A row that is not there or belongs to a transfer is answered with an error, and nothing more. */
  function After(m: Mixed, step: Step): Mixed
    requires step.Write? ==> step.tx in m.patches
  {
    match step
    case Atomic(event) => m.(ledger := Next(m.ledger, event))
    case Read(tx, user, id, changes) =>
      var found := FindRow(m.ledger.books.rows, id, user);
      if found.None? || found.value.group.Some? then m
      else m.(patches := m.patches[tx := Patch(found.value, changes)])
    case Write(tx) =>
      var books := m.ledger.books;
      Mixed(m.ledger.(books := books.(rows := Map(books.rows, Writes(m.patches[tx])))), m.patches - {tx})
  }

  /** A patch that is not interleaved is the atomic patch. */
  lemma UndisturbedPatchIsAtomic(read: Row, changes: TransactionUpdate)
    ensures Written(read, Patch(read, changes)) == Patched(read, changes)
  {}

  /** A column that the patch does not change keeps what others made of it meanwhile, and one that it
      changes gets the patch's value; the row keeps its id, user, account and group. */
  lemma WriteMergesColumns(current: Row, patch: Patch)
    ensures var read, patched, written := patch.read, Patched(patch.read, patch.changes), Written(current, patch);
            && written.id == current.id && written.user == current.user && written.account == current.account
            && written.group == current.group
            && written.amount == (if patched.amount == read.amount then current.amount else patched.amount)
            && written.kind == (if patched.kind == read.kind then current.kind else patched.kind)
            && written.category == (if patched.category == read.category then current.category else patched.category)
            && written.occurredAt
               == (if patched.occurredAt == read.occurredAt then current.occurredAt else patched.occurredAt)
            && written.note == (if patched.note == read.note then current.note else patched.note)
  {}

  // When the sign survives.

  /** The patch changes the amount and not the kind, and the row's kind has changed since it was read. */
  predicate Clashes(current: Row, patch: Patch) {
    var patched := Patched(patch.read, patch.changes);
    patched.amount != patch.read.amount && patched.kind == patch.read.kind && current.kind != patch.read.kind
  }

  lemma WriteKeepsSignExactly(current: Row, patch: Patch)
    requires WellSigned(current) && WellSigned(patch.read)
    ensures WellSigned(Written(current, patch)) <==> !Clashes(current, patch)
  {
    PatchKeepsSign(patch.read, patch.changes);
  }

  // The invariant, but for the signs.

  /** A patch read a plain, well-signed row, and the row of that id is still the same one. */
  ghost predicate PatchesInv(m: Mixed) {
    forall tx | tx in m.patches ::
      var read := m.patches[tx].read;
      && WellSigned(read) && read.group.None?
      && forall row | row in m.ledger.books.rows && row.id == read.id ::
           row.group.None? && row.user == read.user && row.account == read.account
  }

  ghost predicate MixedInv(m: Mixed) {
    Inv(m.ledger) && PatchesInv(m)
  }

  lemma {:induction false} WritesKeepGroups(rows: seq<Row>, patch: Patch, g: nat)
    requires forall row | row in rows && row.id == patch.read.id :: row.group.None?
    ensures Filter(Map(rows, Writes(patch)), OfGroup(g)) == Filter(rows, OfGroup(g))
    decreases |rows|
  {
    if rows != [] {
      WritesKeepGroups(rows[1..], patch, g);
      assert Map(rows, Writes(patch))[1..] == Map(rows[1..], Writes(patch));
    }
  }

  lemma WrittenFrom(rows: seq<Row>, patch: Patch, written: Row) returns (row: Row)
    requires written in Map(rows, Writes(patch))
    ensures row in rows && written == Writes(patch)(row)
    ensures written.id == row.id && written.user == row.user && written.account == row.account
    ensures written.group == row.group
  {
    var i :| 0 <= i < |rows| && Map(rows, Writes(patch))[i] == written;
    row := rows[i];
  }

  lemma WriteKeepsTables(books: Books, patch: Patch)
    requires Keyed(books) && RowIdsUnique(books.rows)
    ensures Keyed(books.(rows := Map(books.rows, Writes(patch)))) && RowIdsUnique(Map(books.rows, Writes(patch)))
  {
    forall written | written in Map(books.rows, Writes(patch))
      ensures FindAccount(books.accounts, written.account, written.user).Some?
    {
      var row := WrittenFrom(books.rows, patch, written);
    }
  }

  lemma WriteKeepsGroupsRecorded(rows: seq<Row>, patch: Patch, recorded: map<nat, Record>)
    requires GroupsRecorded(rows, recorded)
    ensures GroupsRecorded(Map(rows, Writes(patch)), recorded)
  {
    forall written | written in Map(rows, Writes(patch)) && written.group.Some?
      ensures written.group.value in recorded
    {
      var row := WrittenFrom(rows, patch, written);
    }
  }

  /** Some row of the table clashes with the patch. */
  ghost predicate ClashesNow(rows: seq<Row>, patch: Patch) {
    exists row :: row in rows && row.id == patch.read.id && Clashes(row, patch)
  }

  lemma WriteKeepsSignsExactly(rows: seq<Row>, patch: Patch)
    requires PlainRowsSigned(rows) && WellSigned(patch.read)
    requires forall row | row in rows && row.id == patch.read.id :: row.group.None?
    ensures PlainRowsSigned(Map(rows, Writes(patch))) <==> !ClashesNow(rows, patch)
  {
    hide WellSigned, Written, Clashes;
    var rows' := Map(rows, Writes(patch));
    if row :| row in rows && row.id == patch.read.id && Clashes(row, patch) {
      var i :| 0 <= i < |rows| && rows[i] == row;
      WriteKeepsSignExactly(row, patch);
      assert rows'[i] == Written(row, patch) && rows'[i] in rows';
      WrittenKeepsPlace(row, patch);
    } else {
      forall written | written in rows' && written.group.None?
        ensures WellSigned(written)
      {
        var row := WrittenFrom(rows, patch, written);
        if row.id == patch.read.id {
          WriteKeepsSignExactly(row, patch);
        }
      }
    }
  }

  lemma WrittenKeepsPlace(row: Row, patch: Patch)
    ensures Written(row, patch).group == row.group
  {}

  // Steps and runs.

  /** The write that a step makes, if it makes one, clashes. */
  ghost predicate IsClash(m: Mixed, step: Step) {
    step.Write? && step.tx in m.patches && ClashesNow(m.ledger.books.rows, m.patches[step.tx])
  }

  lemma WriteKeepsPatches(m: Mixed, step: Step)
    requires PatchesInv(m) && Possible(m, step) && step.Write?
    ensures PatchesInv(After(m, step))
  {
    hide WellSigned, Map;
    var m' := After(m, step);
    forall tx, written | tx in m'.patches && written in m'.ledger.books.rows && written.id == m'.patches[tx].read.id
      ensures written.group.None?
      ensures written.user == m'.patches[tx].read.user && written.account == m'.patches[tx].read.account
    {
      var row := WrittenFrom(m.ledger.books.rows, m.patches[step.tx], written);
    }
  }

  lemma WriteKeepsLedgerExactly(s: State, patch: Patch)
    requires Inv(s) && WellSigned(patch.read)
    requires forall row | row in s.books.rows && row.id == patch.read.id :: row.group.None?
    ensures var s' := s.(books := s.books.(rows := Map(s.books.rows, Writes(patch))));
            && (PlainRowsSigned(s'.books.rows) <==> !ClashesNow(s.books.rows, patch))
            && (!ClashesNow(s.books.rows, patch) ==> Inv(s'))
  {
    var rows := s.books.rows;
    var rows' := Map(rows, Writes(patch));
    WriteKeepsTables(s.books, patch);
    WriteKeepsGroupsRecorded(rows, patch, s.recorded);
    WriteKeepsSignsExactly(rows, patch);
    hide Map, Filter, Keyed, RowIdsUnique, PlainRowsSigned, GroupsRecorded, IsTransfer, WellSigned, ClashesNow;
    forall g | g in s.recorded
      ensures Filter(rows', OfGroup(g)) == [] || Filter(rows', OfGroup(g)) == s.recorded[g].rows
    {
      WritesKeepGroups(rows, patch, g);
    }
  }

  lemma WriteKeepsInvExactly(m: Mixed, step: Step)
    requires MixedInv(m) && Possible(m, step) && step.Write?
    ensures PlainRowsSigned(After(m, step).ledger.books.rows) <==> !IsClash(m, step)
    ensures !IsClash(m, step) ==> MixedInv(After(m, step))
  {
    WriteKeepsPatches(m, step);
    WriteKeepsLedgerExactly(m.ledger, m.patches[step.tx]);
    hide Inv, PlainRowsSigned, ClashesNow, WellSigned;
  }

  lemma ReadKeepsInv(m: Mixed, step: Step)
    requires MixedInv(m) && Possible(m, step) && step.Read?
    ensures MixedInv(After(m, step))
  {
    var rows := m.ledger.books.rows;
    FoundRow(rows, step.id, step.user);
    hide Keyed, GroupsRecorded, GroupsAtomic, IsTransfer, WellSigned, FindRow;
    var found := FindRow(rows, step.id, step.user);
    if found.Some? {
      forall row | row in rows && row.id == found.value.id
        ensures row == found.value
      {}
    }
  }

  /** Where a row of the table after an atomic request comes from. */
  lemma RowComesFrom(s: State, e: Event, row: Row) returns (from: Row)
    requires row in Next(s, e).books.rows && !GivesId(e.request, row.id)
    ensures from in s.books.rows && from.id == row.id
    ensures from.group == row.group && from.user == row.user && from.account == row.account
  {
    from := row;
    match e.request {
      case UpdateTransaction(id, changes) =>
        if Next(s, e) != s {
          from := PatchedFrom(s.books.rows, id, e.user, changes, row);
        }
      case DeleteTransaction(id) => DeletionFilters(s.books, e.user, id);
      case CreateTransfer(d, ids) =>
        if row in TransferRows(e.user, d, ids) {
          TransferRowsAre(e.user, d, ids, row);
        }
      case _ =>
    }
  }

  lemma AtomicKeepsInv(m: Mixed, step: Step)
    requires MixedInv(m) && Possible(m, step) && step.Atomic?
    ensures MixedInv(After(m, step))
  {
    NextKeepsInv(m.ledger, step.event);
    hide Inv, Enabled, Next, WellSigned;
    var rows' := After(m, step).ledger.books.rows;
    forall tx, row | tx in m.patches && row in rows' && row.id == m.patches[tx].read.id
      ensures row.group.None? && row.user == m.patches[tx].read.user && row.account == m.patches[tx].read.account
    {
      var from := RowComesFrom(m.ledger, step.event, row);
    }
  }

  ghost predicate Feasible(m: Mixed, steps: seq<Step>)
    decreases |steps|
  {
    steps == [] || (Possible(m, steps[0]) && Feasible(After(m, steps[0]), steps[1..]))
  }

  /** In every state of the run each plain row is negative exactly when it is an expense. */
  ghost predicate AlwaysSigned(m: Mixed, steps: seq<Step>)
    requires Feasible(m, steps)
    decreases |steps|
  {
    && PlainRowsSigned(m.ledger.books.rows)
    && (steps != [] ==> AlwaysSigned(After(m, steps[0]), steps[1..]))
  }

  ghost predicate ClashFree(m: Mixed, steps: seq<Step>)
    requires Feasible(m, steps)
    decreases |steps|
  {
    steps != [] ==> !IsClash(m, steps[0]) && ClashFree(After(m, steps[0]), steps[1..])
  }

  lemma StepKeepsInvExactly(m: Mixed, step: Step)
    requires MixedInv(m) && Possible(m, step)
    ensures PlainRowsSigned(After(m, step).ledger.books.rows) <==> !IsClash(m, step)
    ensures !IsClash(m, step) ==> MixedInv(After(m, step))
  {
    match step
    case Atomic(_) => AtomicKeepsInv(m, step);
    case Read(_, _, _, _) => ReadKeepsInv(m, step);
    case Write(_) => WriteKeepsInvExactly(m, step);
  }

  /** With patches interleaved in any way among each other and all other requests, the sign
      convention holds throughout exactly when no write clashes. */
  lemma {:induction false} SignsHoldExactlyWithoutClashes(m: Mixed, steps: seq<Step>)
    requires MixedInv(m) && Feasible(m, steps)
    ensures AlwaysSigned(m, steps) <==> ClashFree(m, steps)
    decreases |steps|
  {
    assert PlainRowsSigned(m.ledger.books.rows);
    if steps != [] {
      StepKeepsInvExactly(m, steps[0]);
      hide MixedInv, Possible, After, PlainRowsSigned, IsClash;
      if !IsClash(m, steps[0]) {
        SignsHoldExactlyWithoutClashes(After(m, steps[0]), steps[1..]);
      }
    }
  }

  lemma NothingReadYet(s: State)
    requires Inv(s)
    ensures MixedInv(Mixed(s, map[]))
  {}

  // Two patches of one row.

  const START := Mixed(EMPTY, map[])

  const OPENED := Event(0, CreateAccount(1, CiText("Cash", "cash"), "GBP", Cash))
  const SPENDS := Event(0, CreateTransaction(1, TransactionCreate(1, 5, Expense, None, 0, None)))
  const SPENT := Row(1, 0, 1, -5, Expense, None, 0, None, None)

  const TO_INCOME := TransactionUpdate(None, Some(Income), None, None, None)
  const TO_SEVEN := TransactionUpdate(Some(7), None, None, None, None)

  const SETS_UP := [Atomic(OPENED), Atomic(SPENDS)]
  const BOTH_READ := [Read(1, 0, 1, TO_INCOME), Read(2, 0, 1, TO_SEVEN)]
  const BOTH_WRITE := [Write(1), Write(2)]

  lemma StepThen(m: Mixed, step: Step, rest: seq<Step>)
    requires Possible(m, step) && Feasible(After(m, step), rest)
    ensures Feasible(m, [step] + rest)
    ensures AlwaysSigned(m, [step] + rest) ==> AlwaysSigned(After(m, step), rest)
  {
    assert ([step] + rest)[1..] == rest;
  }

  lemma SetsUp() returns (m: Mixed)
    ensures Possible(START, SETS_UP[0]) && Possible(After(START, SETS_UP[0]), SETS_UP[1])
    ensures m == After(After(START, SETS_UP[0]), SETS_UP[1])
    ensures m.ledger.books.rows == [SPENT] && m.patches == map[]
  {
    var m1 := After(START, SETS_UP[0]);
    assert m1.ledger.books == Books([Account(1, 0, CiText("Cash", "cash"), "GBP", Cash, None)], []);
    m := After(m1, SETS_UP[1]);
  }

  lemma BothRead(m: Mixed) returns (m': Mixed)
    requires m.ledger.books.rows == [SPENT] && m.patches == map[]
    ensures Possible(m, BOTH_READ[0]) && Possible(After(m, BOTH_READ[0]), BOTH_READ[1])
    ensures m' == After(After(m, BOTH_READ[0]), BOTH_READ[1])
    ensures m' == Mixed(m.ledger, map[1 := Patch(SPENT, TO_INCOME), 2 := Patch(SPENT, TO_SEVEN)])
  {
    m' := After(After(m, BOTH_READ[0]), BOTH_READ[1]);
  }

  lemma BothWrite(m: Mixed) returns (m': Mixed)
    requires m.ledger.books.rows == [SPENT]
    requires m.patches == map[1 := Patch(SPENT, TO_INCOME), 2 := Patch(SPENT, TO_SEVEN)]
    ensures Possible(m, BOTH_WRITE[0]) && Possible(After(m, BOTH_WRITE[0]), BOTH_WRITE[1])
    ensures m' == After(After(m, BOTH_WRITE[0]), BOTH_WRITE[1])
    ensures m'.ledger.books.rows == [SPENT.(amount := -7, kind := Income)]
  {
    var m1 := After(m, BOTH_WRITE[0]);
    var income := SPENT.(amount := 5, kind := Income);
    assert m1.ledger.books.rows == [income] && m1.patches == map[2 := Patch(SPENT, TO_SEVEN)];
    m' := After(m1, BOTH_WRITE[1]);
    assert Written(income, Patch(SPENT, TO_SEVEN)) == income.(amount := -7);
  }

  /** An income of -7. */
  lemma EndsUnsigned(m: Mixed)
    requires m.ledger.books.rows == [SPENT.(amount := -7, kind := Income)]
    ensures Feasible(m, []) && !AlwaysSigned(m, [])
  {
    var income := SPENT.(amount := -7, kind := Income);
    assert income in m.ledger.books.rows && !WellSigned(income);
  }

  lemma BothThen(m: Mixed, first: Step, second: Step, rest: seq<Step>)
    requires Possible(m, first) && Possible(After(m, first), second) && Feasible(After(After(m, first), second), rest)
    ensures Feasible(m, [first, second] + rest)
    ensures AlwaysSigned(m, [first, second] + rest) ==> AlwaysSigned(After(After(m, first), second), rest)
  {
    hide After, PlainRowsSigned;
    StepThen(After(m, first), second, rest);
    StepThen(m, first, [second] + rest);
    assert [first] + ([second] + rest) == [first, second] + rest;
  }

  /** From the empty tables: an expense of 5 is turned into income while its amount is turned into 7,
      both from the row as it was, and it ends as income of -7. */
  lemma TwoPatchesCanClash()
    ensures Feasible(START, SETS_UP + (BOTH_READ + BOTH_WRITE))
    ensures !AlwaysSigned(START, SETS_UP + (BOTH_READ + BOTH_WRITE))
  {
    hide Possible, After, Feasible, AlwaysSigned;
    var m := SetsUp();
    var m2 := BothRead(m);
    var m4 := BothWrite(m2);
    EndsUnsigned(m4);
    BothThen(m2, BOTH_WRITE[0], BOTH_WRITE[1], []);
    assert BOTH_WRITE + [] == [BOTH_WRITE[0], BOTH_WRITE[1]] + [] == BOTH_WRITE;
    BothThen(m, BOTH_READ[0], BOTH_READ[1], BOTH_WRITE);
    assert BOTH_READ + BOTH_WRITE == [BOTH_READ[0], BOTH_READ[1]] + BOTH_WRITE;
    BothThen(START, SETS_UP[0], SETS_UP[1], BOTH_READ + BOTH_WRITE);
    assert SETS_UP + (BOTH_READ + BOTH_WRITE) == [SETS_UP[0], SETS_UP[1]] + (BOTH_READ + BOTH_WRITE);
  }
}
