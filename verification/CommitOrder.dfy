/** The interleaved server is the atomic one: as long as no DELETE is overtaken, a run answers every
    request, and leaves the table, as the same requests made one at a time in the order in which they
    were answered. So it is the simple machine of one current token per login, too. */
module CommitOrder {
  import opened Common
  import opened Sessions
  import opened Interleaving
  import SessionRuns

  type Atomic = SessionRuns.Request

  type Server = SessionRuns.Server

  // History: the clock readings each transaction took when it decided.

  type Clocks = map<Tx, Clock>

  function Read(clocks: Clocks, step: Step): Clocks {
    if step.Decide? then clocks[step.tx := step.clock] else clocks
  }

  // What is answered, step by step.

  /** A refresh that never came to read the clock or draw a token. */
  const UNREAD := Clock(0, 0, 0)
  const UNDRAWN := Token(0)

  function Undrawn(request: Request): Atomic {
    match request
    case Refresh(token) => SessionRuns.Refresh(token, UNREAD, UNDRAWN)
    case Logout(token) => SessionRuns.Logout(token)
  }

  /** When a login's row was issued. */
  function IssuedAt(row: SessionRow): Time {
    row.expiresAt - REFRESH_TOKEN_LIFETIME
  }

  /** The request that a commit answers, with the clock readings and the token it went by. */
  function AtCommit(phase: Phase, clock: Clock): Atomic
    requires Ready(phase)
  {
    match phase
    case Writing(token, _, successor, _) => SessionRuns.Refresh(token, clock, successor)
    case Opening(first, row) => SessionRuns.Login(row.user, row.family, first, IssuedAt(row))
    case Deleting(request, _, _, _, _, _) => Undrawn(request)
  }

  /** The request that this step answers, if it answers one. */
  function Answered(s: State, clocks: Clocks, step: Step): seq<Atomic>
    requires Enabled(s, step)
  {
    match step
    case Begin(_, request) => if request.token in s.db.rows then [] else [Undrawn(request)]
    case Acquire(tx) => if s.txns[tx].request.token in s.db.rows then [] else [Undrawn(s.txns[tx].request)]
    case Decide(tx, clock, successor) =>
      if Effect(s, step).1.Done? then [SessionRuns.Refresh(s.txns[tx].request.token, clock, successor)] else []
    case Commit(tx) => [AtCommit(s.txns[tx], if tx in clocks then clocks[tx] else UNREAD)]
    case _ => []
  }

  /** An outcome, as the atomic server would put it. */
  function ReplyTo(outcome: Outcome, rows: SessionTable): Reply {
    match outcome
    case Rotated(_, successor) => Issued(if successor in rows then rows[successor].user else 0, successor)
    case Opened(first) => Issued(if first in rows then rows[first].user else 0, first)
    case Refused(_) => InvalidSession
    case Ended(_) => LoggedOut
    case Aborted => InvalidSession
  }

  /** The answer given by this step, if it gives one. An aborted transaction answers nothing. */
  function Told(s: State, step: Step): seq<Reply>
    requires Enabled(s, step)
  {
    var phase := Next(s, step).txns[step.tx];
    if phase.Done? && phase.outcome != Aborted then [ReplyTo(phase.outcome, Next(s, step).db.rows)] else []
  }

  // The interleaved database, as the atomic server has it.

  function View(db: Db): Server {
    SessionRuns.Server(db.rows, db.place.Keys, db.chains.Keys)
  }

  /** A rotation writes what the row it read and its clock readings call for, a replay found its row
      used, and the row is still that. */
  ghost predicate Timely(s: State, clocks: Clocks) {
    && (forall x | x in s.txns && s.txns[x].Writing? :: x in clocks && TimelyWrite(s.db.rows, s.txns[x], clocks[x]))
    && (forall x | x in s.txns && s.txns[x].Deleting? && s.txns[x].request.Refresh? ::
          s.txns[x].request.token in s.db.rows && s.db.rows[s.txns[x].request.token].usedAt.Some?)
  }

  ghost predicate TimelyWrite(rows: SessionTable, phase: Phase, clock: Clock)
    requires phase.Writing?
  {
    phase.token in rows
    && var row := rows[phase.token];
       && row.usedAt.None? && !Expired(row, clock.checked)
       && phase.burnt == Burnt(row, clock.burnt)
       && phase.row == NewRow(row.user, row.family, clock.issued)
  }

  /** A committing DELETE that misses a token issued in the family since it began. */
  predicate Overtaken(s: State, step: Step) {
    && step.Commit? && step.tx in s.txns && s.txns[step.tx].Deleting?
    && s.txns[step.tx].family in s.db.chains && |s.db.chains[s.txns[step.tx].family]| != s.txns[step.tx].cut
  }

  // A committing DELETE.

  /** While any token of a family is stored, so is its latest. */
  lemma LastIsStored(db: Db, family: Family, t: Token)
    requires DbInv(db) && t in db.rows && db.rows[t].family == family
    ensures family in db.chains && db.chains[family] != []
    ensures db.chains[family][|db.chains[family]| - 1] in db.rows
    ensures db.rows[db.chains[family][|db.chains[family]| - 1]].family == family
  {}

  lemma HeldIsOfFamily(db: Db, phase: Phase)
    requires DbInv(db) && phase.Deleting? && PhaseInv(db, phase)
    ensures phase.family in db.chains && phase.request.token in phase.held
    ensures forall t | t in phase.held :: t in db.rows && db.rows[t].family == phase.family
  {}

  lemma WholeFamilyHeld(db: Db, phase: Phase)
    requires DbInv(db) && phase.Deleting? && phase.todo == {} && PhaseInv(db, phase)
    requires |db.chains[phase.family]| == phase.cut
    ensures forall t | t in db.rows :: t in phase.held <==> db.rows[t].family == phase.family
  {}

  lemma LatestEscapes(db: Db, phase: Phase)
    requires DbInv(db) && phase.Deleting? && PhaseInv(db, phase)
    requires |db.chains[phase.family]| != phase.cut
    ensures exists t :: t in db.rows && t !in phase.held && db.rows[t].family == phase.family
  {
    LastIsStored(db, phase.family, phase.request.token);
    var chain := db.chains[phase.family];
    assert db.place[chain[|chain| - 1]].index >= phase.cut;
  }

  lemma DeletionIsWholeExactly(db: Db, phase: Phase)
    requires DbInv(db) && phase.Deleting? && phase.todo == {} && PhaseInv(db, phase)
    ensures phase.family in db.chains
    ensures db.rows - phase.held == WithoutFamily(db.rows, phase.family) <==> |db.chains[phase.family]| == phase.cut
  {
    HeldIsOfFamily(db, phase);
    if |db.chains[phase.family]| == phase.cut {
      WholeFamilyHeld(db, phase);
      hide DbInv, PhaseInv;
      assert db.rows - phase.held == WithoutFamily(db.rows, phase.family);
    } else {
      LatestEscapes(db, phase);
      hide DbInv, PhaseInv;
      var t :| t in db.rows && t !in phase.held && db.rows[t].family == phase.family;
      assert t in db.rows - phase.held && t !in WithoutFamily(db.rows, phase.family);
    }
  }

  /** It takes the whole family exactly when it was not overtaken. */
  lemma DeletionIsAtomicExactly(s: State, tx: Tx)
    requires Inv(s) && Enabled(s, Commit(tx)) && s.txns[tx].Deleting?
    ensures s.txns[tx].request.token in s.db.rows
    ensures s.db.rows[s.txns[tx].request.token].family == s.txns[tx].family
    ensures Next(s, Commit(tx)).db.rows == WithoutFamily(s.db.rows, s.txns[tx].family) <==> !Overtaken(s, Commit(tx))
  {
    assert PhaseInv(s.db, s.txns[tx]);
    hide DbInv, PhaseInv, Apart, WithoutFamily;
    HeldIsOfFamily(s.db, s.txns[tx]);
    DeletionIsWholeExactly(s.db, s.txns[tx]);
  }

  // Each answer is that of the atomic request.

  /** The step does what the atomic request does, and answers what it answers. */
  ghost predicate Agrees(s: State, step: Step, r: Atomic)
    requires Enabled(s, step)
  {
    && SessionRuns.Enabled(View(s.db), r)
    && |Told(s, step)| == 1
    && SessionRuns.Served(View(s.db), r) == (View(Next(s, step).db), Told(s, step)[0])
  }

  /** What a commit shows of itself. */
  lemma CommitShows(s: State, tx: Tx)
    requires Enabled(s, Commit(tx))
    ensures var (db, outcome) := Committed(s.db, s.txns[tx]);
            Next(s, Commit(tx)).db == db && Told(s, Commit(tx)) == [ReplyTo(outcome, db.rows)]
  {
    hide Append;
  }

  lemma RotationIssues(db: Db, phase: Phase)
    requires DbInv(db) && phase.Writing? && PhaseInv(db, phase)
    ensures phase.successor !in db.place
    ensures View(Committed(db, phase).0)
         == SessionRuns.Server(db.rows[phase.token := phase.burnt][phase.successor := phase.row],
                               db.place.Keys + {phase.successor}, db.chains.Keys)
  {
    assert phase.row.family in db.chains;
    hide TableInv;
  }

  lemma RotationIsAtomic(s: State, tx: Tx, clock: Clock)
    requires Inv(s) && Enabled(s, Commit(tx)) && s.txns[tx].Writing? && TimelyWrite(s.db.rows, s.txns[tx], clock)
    ensures Agrees(s, Commit(tx), AtCommit(s.txns[tx], clock))
  {
    assert PhaseInv(s.db, s.txns[tx]);
    RotationIssues(s.db, s.txns[tx]);
    CommitShows(s, tx);
    hide Inv, PhaseInv, Next, Told, Append;
  }

  lemma OpeningIssues(db: Db, phase: Phase)
    requires DbInv(db) && phase.Opening? && PhaseInv(db, phase)
    ensures phase.first !in db.place && phase.row.family !in db.chains
    ensures NewRow(phase.row.user, phase.row.family, IssuedAt(phase.row)) == phase.row
    ensures View(Committed(db, phase).0)
         == SessionRuns.Server(db.rows[phase.first := phase.row], db.place.Keys + {phase.first},
                               db.chains.Keys + {phase.row.family})
  {
    hide TableInv;
    assert Committed(db, phase).0.chains.Keys == db.chains.Keys + {phase.row.family};
  }

  lemma OpeningIsAtomic(s: State, tx: Tx, clock: Clock)
    requires Inv(s) && Enabled(s, Commit(tx)) && s.txns[tx].Opening?
    ensures Agrees(s, Commit(tx), AtCommit(s.txns[tx], clock))
  {
    assert PhaseInv(s.db, s.txns[tx]);
    OpeningIssues(s.db, s.txns[tx]);
    CommitShows(s, tx);
    hide Inv, PhaseInv, Next, Told, Append;
  }

  /** Presented while it is stored, a used token or a logout's token takes its family with it. */
  lemma RevocationServed(server: Server, request: Request)
    requires request.token in server.rows
    requires request.Refresh? ==> server.rows[request.token].usedAt.Some?
    ensures SessionRuns.Enabled(server, Undrawn(request))
    ensures SessionRuns.Served(server, Undrawn(request))
         == (server.(rows := WithoutFamily(server.rows, server.rows[request.token].family)),
             if request.Refresh? then InvalidSession else LoggedOut)
  {}

  lemma DeletionIsAtomic(s: State, tx: Tx, clock: Clock)
    requires Inv(s) && Enabled(s, Commit(tx)) && s.txns[tx].Deleting?
    requires s.txns[tx].request.Refresh? ==>
               s.txns[tx].request.token in s.db.rows && s.db.rows[s.txns[tx].request.token].usedAt.Some?
    ensures Agrees(s, Commit(tx), AtCommit(s.txns[tx], clock)) <==> !Overtaken(s, Commit(tx))
  {
    DeletionIsAtomicExactly(s, tx);
    RevocationServed(View(s.db), s.txns[tx].request);
    CommitShows(s, tx);
    DeletionShows(s.db, s.txns[tx]);
    hide Inv, Overtaken, Next, Told, Enabled, SessionRuns.Served, SessionRuns.Enabled, Undrawn, WithoutFamily,
         Committed, View;
  }

  lemma DeletionShows(db: Db, phase: Phase)
    requires phase.Deleting? && Ready(phase)
    ensures var (after, outcome) := Committed(db, phase);
            && View(after) == View(db).(rows := after.rows)
            && ReplyTo(outcome, after.rows) == if phase.request.Refresh? then InvalidSession else LoggedOut
    ensures View(db).rows == db.rows
  {}

  /** A request for a token that is not stored changes nothing. */
  lemma MissingServed(server: Server, request: Request)
    requires request.token !in server.rows
    ensures SessionRuns.Enabled(server, Undrawn(request))
    ensures SessionRuns.Served(server, Undrawn(request)) == (server, ReplyTo(Missing(request), server.rows))
  {}

  /** Nor does a refresh with a token that has expired unused. */
  lemma ExpiredServed(server: Server, token: Token, clock: Clock, successor: Token)
    requires token in server.rows && server.rows[token].usedAt.None? && Expired(server.rows[token], clock.checked)
    ensures SessionRuns.Enabled(server, SessionRuns.Refresh(token, clock, successor))
    ensures SessionRuns.Served(server, SessionRuns.Refresh(token, clock, successor)) == (server, InvalidSession)
  {}

  lemma HeldIsTheRow(s: State, x: Tx)
    requires Inv(s) && x in s.txns && s.txns[x].Holding?
    ensures s.txns[x].request.token in s.db.rows && s.db.rows[s.txns[x].request.token] == s.txns[x].row
  {
    assert PhaseInv(s.db, s.txns[x]);
    hide DbInv, Apart;
  }

  lemma DecisionIsAtomic(s: State, clocks: Clocks, step: Step)
    requires Inv(s) && Enabled(s, step) && step.Decide?
    ensures |Answered(s, clocks, step)| <= 1 && View(Next(s, step).db) == View(s.db)
    ensures Answered(s, clocks, step) != [] ==> Agrees(s, step, Answered(s, clocks, step)[0])
    ensures Answered(s, clocks, step) == [] ==> Told(s, step) == []
  {
    hide Inv, FamilyTokens, Issuances, SessionRuns.Served, SessionRuns.Enabled;
    HeldIsTheRow(s, step.tx);
    if Answered(s, clocks, step) != [] {
      ExpiredServed(View(s.db), s.txns[step.tx].request.token, step.clock, step.successor);
    }
  }

  /** A step that answers without a commit found no row, or an expired one. */
  lemma RefusalIsAtomic(s: State, clocks: Clocks, step: Step)
    requires Inv(s) && Enabled(s, step) && !step.Commit?
    ensures |Answered(s, clocks, step)| <= 1
    ensures Answered(s, clocks, step) != [] ==> Agrees(s, step, Answered(s, clocks, step)[0])
    ensures Answered(s, clocks, step) == [] ==> View(Next(s, step).db) == View(s.db) && Told(s, step) == []
  {
    hide Inv, SessionRuns.Served, SessionRuns.Enabled, Undrawn;
    if step.Decide? {
      hide Agrees, Answered, Next, Told, Enabled;
      DecisionIsAtomic(s, clocks, step);
    } else if Answered(s, clocks, step) != [] {
      MissingServed(View(s.db), if step.Begin? then step.request else s.txns[step.tx].request);
    }
  }

  /** A step answers as the atomic request does exactly when it is no overtaken DELETE, and a step
      that answers nothing changes nothing. */
  lemma StepIsAtomicExactly(s: State, clocks: Clocks, step: Step)
    requires Inv(s) && Timely(s, clocks) && Enabled(s, step)
    ensures |Answered(s, clocks, step)| <= 1
    ensures Answered(s, clocks, step) != [] ==>
              (Agrees(s, step, Answered(s, clocks, step)[0]) <==> !Overtaken(s, step))
    ensures Answered(s, clocks, step) == [] ==>
              !Overtaken(s, step) && View(Next(s, step).db) == View(s.db) && Told(s, step) == []
  {
    hide Inv, Agrees, Next, View, Told;
    if step.Commit? {
      var clock := if step.tx in clocks then clocks[step.tx] else UNREAD;
      match s.txns[step.tx]
      case Writing(_, _, _, _) => RotationIsAtomic(s, step.tx, clock);
      case Opening(_, _) => OpeningIsAtomic(s, step.tx, clock);
      case Deleting(_, _, _, _, _, _) => DeletionIsAtomic(s, step.tx, clock);
    } else {
      RefusalIsAtomic(s, clocks, step);
    }
  }

  // Timeliness is kept, because the rows are locked.

  lemma CommitLeavesLocked(db: Db, phase: Phase, t: Token)
    requires DbInv(db) && PhaseInv(db, phase) && Ready(phase) && t in db.rows && t !in Locks(phase)
    ensures t in Committed(db, phase).0.rows && Committed(db, phase).0.rows[t] == db.rows[t]
  {
    assert t in db.place;
    hide DbInv;
  }

  lemma LockedRowsStay(s: State, step: Step, y: Tx, t: Token)
    requires Inv(s) && Enabled(s, step) && y in s.txns && y != step.tx && t in Locks(s.txns[y])
    ensures t in s.db.rows && t in Next(s, step).db.rows && Next(s, step).db.rows[t] == s.db.rows[t]
  {
    LocksAreStored(s, y);
    if step.Commit? {
      assert PhaseInv(s.db, s.txns[step.tx]) && Apart(s.txns[step.tx], s.txns[y]);
      CommitLeavesLocked(s.db, s.txns[step.tx], t);
      hide Inv, Apart, PhaseInv, Committed;
    } else {
      hide Inv;
    }
  }

  lemma DecisionIsTimely(s: State, step: Step)
    requires Inv(s) && Enabled(s, step) && step.Decide?
    ensures var phase := Next(s, step).txns[step.tx];
            && (phase.Writing? ==> TimelyWrite(Next(s, step).db.rows, phase, step.clock))
            && (phase.Deleting? && phase.request.Refresh? ==>
                  phase.request.token in s.db.rows && s.db.rows[phase.request.token].usedAt.Some?)
            && Next(s, step).db.rows == s.db.rows
  {
    assert PhaseInv(s.db, s.txns[step.tx]);
    hide DbInv, Apart, FamilyTokens, Issuances;
  }

  /** The stepping transaction comes to write or to delete only by deciding, or goes on deleting. */
  lemma OnlyDecisionsWrite(s: State, step: Step)
    requires Enabled(s, step) && !step.Decide?
    ensures var phase := Next(s, step).txns[step.tx];
            && !phase.Writing?
            && (phase.Deleting? ==> step.tx in s.txns && s.txns[step.tx].Deleting? && Next(s, step).db == s.db
                                    && phase.request == s.txns[step.tx].request)
  {}

  lemma OthersKeepPhase(s: State, step: Step, y: Tx)
    requires Enabled(s, step) && y in Next(s, step).txns && y != step.tx
    ensures y in s.txns && Next(s, step).txns[y] == s.txns[y]
  {}

  lemma ReplayHoldsItsToken(s: State, y: Tx)
    requires Inv(s) && y in s.txns && s.txns[y].Deleting?
    ensures s.txns[y].request.token in Locks(s.txns[y])
  {
    hide DbInv, Apart;
    assert PhaseInv(s.db, s.txns[y]);
  }

  lemma StepKeepsTimely(s: State, clocks: Clocks, step: Step)
    requires Inv(s) && Timely(s, clocks) && Enabled(s, step)
    ensures Timely(Next(s, step), Read(clocks, step))
  {
    hide Inv, Enabled, Next, TimelyWrite;
    var s' := Next(s, step);
    if step.Decide? {
      DecisionIsTimely(s, step);
    } else {
      OnlyDecisionsWrite(s, step);
    }
    forall y | y in s'.txns && y != step.tx
      ensures y in s.txns && s'.txns[y] == s.txns[y]
      ensures s.txns[y].Writing? ==> TimelyWrite(s'.db.rows, s.txns[y], clocks[y])
      ensures s.txns[y].Deleting? && s.txns[y].request.Refresh? ==>
                s.txns[y].request.token in s'.db.rows && s'.db.rows[s.txns[y].request.token].usedAt.Some?
    {
      OthersKeepPhase(s, step, y);
      if s.txns[y].Writing? {
        LockedRowsStay(s, step, y, s.txns[y].token);
        SameRowStaysTimely(s.db.rows, s'.db.rows, s.txns[y], clocks[y]);
      } else if s.txns[y].Deleting? {
        ReplayHoldsItsToken(s, y);
        LockedRowsStay(s, step, y, s.txns[y].request.token);
      }
    }
  }

  lemma SameRowStaysTimely(rows: SessionTable, rows': SessionTable, phase: Phase, clock: Clock)
    requires phase.Writing? && TimelyWrite(rows, phase, clock)
    requires phase.token in rows' && rows'[phase.token] == rows[phase.token]
    ensures TimelyWrite(rows', phase, clock)
  {}

  // Whole runs.

  /** The requests of a run, in the order in which they were answered. */
  function Serial(s: State, clocks: Clocks, steps: seq<Step>): seq<Atomic>
    requires Valid(s, steps)
    decreases |steps|
  {
    if steps == [] then []
    else Answered(s, clocks, steps[0]) + Serial(Next(s, steps[0]), Read(clocks, steps[0]), steps[1..])
  }

  /** The answers of a run, in the same order. */
  function Answers(s: State, steps: seq<Step>): seq<Reply>
    requires Valid(s, steps)
    decreases |steps|
  {
    if steps == [] then [] else Told(s, steps[0]) + Answers(Next(s, steps[0]), steps[1..])
  }

  predicate NoneOvertaken(s: State, steps: seq<Step>)
    requires Valid(s, steps)
    decreases |steps|
  {
    steps == [] || (!Overtaken(s, steps[0]) && NoneOvertaken(Next(s, steps[0]), steps[1..]))
  }

  lemma ServingOneMore(server: Server, r: Atomic, rs: seq<Atomic>)
    requires SessionRuns.Enabled(server, r) && SessionRuns.Valid(SessionRuns.Served(server, r).0, rs)
    ensures SessionRuns.Valid(server, [r] + rs)
    ensures SessionRuns.Run(server, [r] + rs) == SessionRuns.Run(SessionRuns.Served(server, r).0, rs)
    ensures SessionRuns.Replies(server, [r] + rs)
         == [SessionRuns.Served(server, r).1] + SessionRuns.Replies(SessionRuns.Served(server, r).0, rs)
  {
    assert ([r] + rs)[1..] == rs;
  }

  lemma {:induction false} RunIsSerial(s: State, clocks: Clocks, steps: seq<Step>)
    requires Inv(s) && Timely(s, clocks) && Valid(s, steps) && NoneOvertaken(s, steps)
    ensures SessionRuns.Valid(View(s.db), Serial(s, clocks, steps))
    ensures SessionRuns.Run(View(s.db), Serial(s, clocks, steps)) == View(Run(s, steps).db)
    ensures SessionRuns.Replies(View(s.db), Serial(s, clocks, steps)) == Answers(s, steps)
    decreases |steps|
  {
    hide Inv, Timely, Enabled, Next, View, Told, Answered, Overtaken, SessionRuns.Enabled, SessionRuns.Served;
    if steps != [] {
      var step := steps[0];
      var rest := Serial(Next(s, step), Read(clocks, step), steps[1..]);
      var answered := Answered(s, clocks, step);
      StepIsAtomicExactly(s, clocks, step);
      StepKeepsTimely(s, clocks, step);
      NextKeepsInv(s, step);
      RunIsSerial(Next(s, step), Read(clocks, step), steps[1..]);
      if answered == [] {
        assert [] + rest == rest;
      } else {
        assert answered == [answered[0]] && Told(s, step) == [Told(s, step)[0]];
        ServingOneMore(View(s.db), answered[0], rest);
      }
    }
  }

  /** Any interleaving in which no DELETE is overtaken answers every request, and leaves the table, as
      the atomic server does given the same requests one at a time, in the order of their answers; and
      so as the simple machine does. */
  lemma InterleavedRunsAreSerial(steps: seq<Step>)
    requires Valid(INITIAL, steps) && NoneOvertaken(INITIAL, steps)
    ensures var rs := Serial(INITIAL, map[], steps);
            && SessionRuns.Valid(SessionRuns.EMPTY, rs)
            && SessionRuns.Run(SessionRuns.EMPTY, rs).rows == Run(INITIAL, steps).db.rows
            && SessionRuns.Replies(SessionRuns.EMPTY, rs) == Answers(INITIAL, steps)
            && SessionRuns.SimpleReplies(map[], rs) == Answers(INITIAL, steps)
  {
    InitialInv();
    assert View(INITIAL.db) == SessionRuns.EMPTY;
    RunIsSerial(INITIAL, map[], steps);
    SessionRuns.TableRefinesSimpleMachine(Serial(INITIAL, map[], steps));
  }
}
