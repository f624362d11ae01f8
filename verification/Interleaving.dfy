/** Requests interleaved inside the database: row locks, statement snapshots, and writes that
    nobody else sees before they commit.

    A blocked SELECT ... FOR UPDATE re-reads the committed row once the lock is free. The family
    DELETE works on the rows committed when it began, and waits for each of them in any order.
    Any unfinished transaction may abort: a deadlock victim, a lost connection, a crash.

    chains, place and gone are history: what was ever issued, in order, and how much of each
    login has been revoked. No step reads them to decide what it does. */
module Interleaving {
  import opened Common
  import opened Sessions

  type Tx = nat

  datatype Request = Refresh(token: Token) | Logout(token: Token)

  datatype Outcome =
    | Opened(first: Token)
    | Rotated(token: Token, successor: Token)
    | Refused(token: Token)
    | Ended(token: Token)
    | Aborted

  datatype Phase =
    | Waiting(request: Request)
    | Holding(request: Request, row: SessionRow)
    // The DELETE has begun: doomed is its snapshot, todo what it has yet to reach, held what it
    // has locked, cut the number of tokens the family had been issued (history).
    | Deleting(request: Request, family: Family, doomed: set<Token>, todo: set<Token>, held: set<Token>, cut: nat)
    | Writing(token: Token, burnt: SessionRow, successor: Token, row: SessionRow)
    | Opening(first: Token, row: SessionRow)
    | Done(outcome: Outcome)

  /** Where a token stands in its login's chain of issued tokens. */
  datatype Place = Place(family: Family, index: nat)

  datatype Db = Db(
    rows: SessionTable,
    minted: set<Token>,
    families: set<Family>,
    chains: map<Family, seq<Token>>,
    place: map<Token, Place>,
    gone: map<Family, nat>)

  datatype State = State(db: Db, txns: map<Tx, Phase>)

  const INITIAL := State(Db(map[], {}, {}, map[], map[], map[]), map[])

  datatype Step =
    | Begin(tx: Tx, request: Request)
    | BeginLogin(tx: Tx, user: nat, family: Family, first: Token, now: Time)
    | Acquire(tx: Tx)
    | Decide(tx: Tx, clock: Clock, successor: Token)
    | Reach(tx: Tx, token: Token)
    | Commit(tx: Tx)
    | Abort(tx: Tx)

  function Locks(phase: Phase): set<Token> {
    match phase
    case Holding(request, _) => {request.token}
    case Deleting(_, _, _, _, held, _) => held
    case Writing(token, _, _, _) => {token}
    case _ => {}
  }

  predicate Free(txns: map<Tx, Phase>, tx: Tx, token: Token) {
    forall other | other in txns && other != tx :: token !in Locks(txns[other])
  }

  predicate Enabled(s: State, step: Step) {
    match step
    case Begin(tx, _) => tx !in s.txns
    case BeginLogin(tx, _, family, first, _) => tx !in s.txns && first !in s.db.minted && family !in s.db.families
    case Acquire(tx) => tx in s.txns && s.txns[tx].Waiting? && Free(s.txns, tx, s.txns[tx].request.token)
    case Decide(tx, _, successor) => tx in s.txns && s.txns[tx].Holding? && successor !in s.db.minted
    case Reach(tx, token) =>
      tx in s.txns && s.txns[tx].Deleting? && token in s.txns[tx].todo && Free(s.txns, tx, token)
    case Commit(tx) => tx in s.txns && Ready(s.txns[tx])
    case Abort(tx) => tx in s.txns && !s.txns[tx].Done?
  }

  /** A refresh that waits for the row of t, holds it, or is exchanging it. */
  predicate Presents(phase: Phase, t: Token) {
    match phase
    case Waiting(Refresh(token)) => t == token
    case Holding(Refresh(token), _) => t == token
    case Writing(token, _, _, _) => t == token
    case _ => false
  }

  predicate Ready(phase: Phase) {
    phase.Writing? || phase.Opening? || (phase.Deleting? && phase.todo == {})
  }

  function Missing(request: Request): Outcome {
    match request
    case Refresh(token) => Refused(token)
    case Logout(token) => Ended(token)
  }

  function FamilyTokens(rows: SessionTable, family: Family): set<Token> {
    set token | token in rows && rows[token].family == family
  }

  function Issuances(db: Db, family: Family): nat {
    if family in db.chains then |db.chains[family]| else 0
  }

  /** What a transaction goes on to do once it holds the row it asked for. */
  function Decided(db: Db, request: Request, row: SessionRow, clock: Clock, successor: Token): Phase {
    if request.Logout? || row.usedAt.Some? then
      var doomed := FamilyTokens(db.rows, row.family);
      Deleting(request, row.family, doomed, doomed - {request.token}, {request.token}, Issuances(db, row.family))
    else if Expired(row, clock.checked) then
      Done(Refused(request.token))
    else
      Writing(request.token, Burnt(row, clock.burnt), successor, NewRow(row.user, row.family, clock.issued))
  }

  function Append(db: Db, family: Family, token: Token): Db {
    var chain := if family in db.chains then db.chains[family] else [];
    db.(chains := db.chains[family := chain + [token]],
        place := db.place[token := Place(family, |chain|)],
        gone := if family in db.gone then db.gone else db.gone[family := 0])
  }

  function Max(a: nat, b: nat): nat { if a < b then b else a }

  /** The writes a transaction makes visible, and what its request is answered. */
  function Committed(db: Db, phase: Phase): (Db, Outcome)
    requires Ready(phase)
  {
    match phase
    case Writing(token, burnt, successor, row) =>
      (Append(db, row.family, successor).(rows := db.rows[token := burnt][successor := row]),
       Rotated(token, successor))
    case Opening(first, row) =>
      (Append(db, row.family, first).(rows := db.rows[first := row]), Opened(first))
    case Deleting(request, family, _, _, held, cut) =>
      (db.(rows := db.rows - held,
           gone := db.gone[family := Max(if family in db.gone then db.gone[family] else 0, cut)]),
       Missing(request))
  }

  /** The database after a step, and the stepping transaction's new phase. */
  function Effect(s: State, step: Step): (Db, Phase)
    requires Enabled(s, step)
  {
    match step
    case Begin(tx, request) =>
      (s.db, if request.token in s.db.rows then Waiting(request) else Done(Missing(request)))
    case BeginLogin(tx, user, family, first, now) =>
      (s.db.(minted := s.db.minted + {first}, families := s.db.families + {family}),
       Opening(first, NewRow(user, family, now)))
    case Acquire(tx) =>
      var request := s.txns[tx].request;
      (s.db, if request.token in s.db.rows then Holding(request, s.db.rows[request.token]) else Done(Missing(request)))
    case Decide(tx, clock, successor) =>
      (s.db.(minted := s.db.minted + {successor}),
       Decided(s.db, s.txns[tx].request, s.txns[tx].row, clock, successor))
    case Reach(tx, token) =>
      var phase := s.txns[tx];
      (s.db, phase.(todo := phase.todo - {token},
                    held := if token in s.db.rows then phase.held + {token} else phase.held))
    case Commit(tx) =>
      var (db, outcome) := Committed(s.db, s.txns[tx]);
      (db, Done(outcome))
    case Abort(tx) => (s.db, Done(Aborted))
  }

  function Next(s: State, step: Step): State
    requires Enabled(s, step)
  {
    var (db, phase) := Effect(s, step);
    State(db, s.txns[step.tx := phase])
  }

  predicate Valid(s: State, steps: seq<Step>)
    decreases |steps|
  {
    steps == [] || (Enabled(s, steps[0]) && Valid(Next(s, steps[0]), steps[1..]))
  }

  function Run(s: State, steps: seq<Step>): State
    requires Valid(s, steps)
    decreases |steps|
  {
    if steps == [] then s else Run(Next(s, steps[0]), steps[1..])
  }

  // The invariant.

  /** Every link of a chain knows its place. */
  ghost predicate ChainsArePlaced(db: Db) {
    forall f, i :: f in db.chains && 0 <= i < |db.chains[f]| ==>
      db.chains[f][i] in db.place && db.place[db.chains[f][i]] == Place(f, i)
  }

  /** Every placed token is the link its place says. */
  ghost predicate PlacesAreChained(db: Db) {
    forall t | t in db.place ::
      var p := db.place[t];
      p.family in db.chains && p.index < |db.chains[p.family]| && db.chains[p.family][p.index] == t
  }

  /** chains and place are inverse to each other, and a login cannot lose more than it was issued. */
  ghost predicate HistoryInv(db: Db) {
    && ChainsArePlaced(db)
    && PlacesAreChained(db)
    && db.gone.Keys == db.chains.Keys <= db.families
    && db.place.Keys <= db.minted
    && (forall f | f in db.chains :: db.gone[f] <= |db.chains[f]|)
  }

  /** The token has been exchanged for the next one in its chain. */
  predicate IsSpent(db: Db, t: Token) {
    t in db.place && db.place[t].index + 1 < Issuances(db, db.place[t].family)
  }

  /** The table holds what has not been revoked, marked as used exactly where it was exchanged. */
  ghost predicate TableInv(db: Db)
    requires HistoryInv(db)
  {
    && (forall t :: t in db.rows <==> t in db.place && db.gone[db.place[t].family] <= db.place[t].index)
    && (forall t | t in db.rows ::
          db.rows[t].family == db.place[t].family && (db.rows[t].usedAt.Some? <==> IsSpent(db, t)))
  }

  ghost predicate DbInv(db: Db) {
    HistoryInv(db) && TableInv(db)
  }

  ghost predicate PhaseInv(db: Db, phase: Phase)
    requires DbInv(db)
  {
    match phase
    case Holding(request, row) => request.token in db.rows && db.rows[request.token] == row
    case Writing(token, burnt, successor, row) =>
      && token in db.rows && db.rows[token].usedAt.None? && burnt.usedAt.Some?
      && burnt == db.rows[token].(usedAt := burnt.usedAt)
      && successor in db.minted && successor !in db.place
      && row.family == db.rows[token].family && row.usedAt.None?
    case Opening(first, row) =>
      && first in db.minted && first !in db.place
      && row.family in db.families && row.family !in db.chains && row.usedAt.None?
    case Deleting(request, family, doomed, todo, held, cut) =>
      && family in db.chains && 0 < cut <= |db.chains[family]|
      && todo <= doomed && held <= doomed && request.token in held
      && (forall t | t in doomed :: t in db.place && db.place[t].family == family && db.place[t].index < cut)
      && (forall t | t in db.rows && db.place[t].family == family && db.place[t].index < cut :: t in doomed)
      && held <= db.rows.Keys
      && (forall t | t in doomed :: t in todo || t in held || t !in db.rows)
    case Done(Rotated(token, successor)) =>
      && IsSpent(db, token)
      && db.chains[db.place[token].family][db.place[token].index + 1] == successor
    case Done(Opened(first)) => first in db.place && db.place[first].index == 0
    case _ => true
  }

  function Pending(phase: Phase): set<Token> {
    match phase
    case Writing(_, _, successor, _) => {successor}
    case Opening(first, _) => {first}
    case _ => {}
  }

  function PendingFamily(phase: Phase): set<Family> {
    if phase.Opening? then {phase.row.family} else {}
  }

  /** Two transactions share no lock, no uncommitted token or family, and no token exchanged. */
  ghost predicate Apart(a: Phase, b: Phase) {
    && Locks(a) !! Locks(b)
    && Pending(a) !! Pending(b)
    && PendingFamily(a) !! PendingFamily(b)
    && (a.Done? && b.Done? && a.outcome.Rotated? && b.outcome.Rotated? ==> a.outcome.token != b.outcome.token)
    && (a.Done? && b.Done? && a.outcome.Opened? && b.outcome.Opened? ==> a.outcome.first != b.outcome.first)
  }

  ghost predicate Inv(s: State) {
    && DbInv(s.db)
    && (forall x | x in s.txns :: PhaseInv(s.db, s.txns[x]))
    && (forall x, y | x in s.txns && y in s.txns && x != y :: Apart(s.txns[x], s.txns[y]))
  }

  lemma InitialInv()
    ensures Inv(INITIAL)
  {}

  ghost predicate ApartFromOthers(s: State, tx: Tx, phase: Phase) {
    forall y | y in s.txns && y != tx :: Apart(phase, s.txns[y])
  }

  /** A step keeps the invariant when it does so for the database, for its own transaction and,
      one by one, for each of the others. */
  lemma StepKeepsInv(s: State, tx: Tx, db: Db, phase: Phase)
    requires Inv(s) && DbInv(db) && PhaseInv(db, phase) && ApartFromOthers(s, tx, phase)
    requires forall y | y in s.txns && y != tx :: PhaseInv(db, s.txns[y])
    ensures Inv(State(db, s.txns[tx := phase]))
  {
    hide DbInv, PhaseInv;
    forall y | y in s.txns && y != tx
      ensures Apart(s.txns[y], phase)
    {}
    hide Apart;
  }

  lemma MintingKeepsDb(db: Db, minted: set<Token>, families: set<Family>)
    requires DbInv(db) && db.minted <= minted && db.families <= families
    ensures DbInv(db.(minted := minted, families := families))
  {}

  /** Minting changes nothing that a transaction relies on. */
  lemma MintingKeepsPhase(db: Db, minted: set<Token>, families: set<Family>, phase: Phase)
    requires DbInv(db) && PhaseInv(db, phase)
    requires db.minted <= minted && db.families <= families
    ensures DbInv(db.(minted := minted, families := families))
    ensures PhaseInv(db.(minted := minted, families := families), phase)
  {}

  lemma MintingStepKeepsInv(s: State, tx: Tx, minted: set<Token>, families: set<Family>, phase: Phase)
    requires Inv(s) && s.db.minted <= minted && s.db.families <= families
    requires var db := s.db.(minted := minted, families := families); DbInv(db) ==> PhaseInv(db, phase)
    requires ApartFromOthers(s, tx, phase)
    ensures Inv(State(s.db.(minted := minted, families := families), s.txns[tx := phase]))
  {
    hide PhaseInv, Apart;
    MintingKeepsDb(s.db, minted, families);
    forall y | y in s.txns
      ensures PhaseInv(s.db.(minted := minted, families := families), s.txns[y])
    {
      MintingKeepsPhase(s.db, minted, families, s.txns[y]);
    }
    StepKeepsInv(s, tx, s.db.(minted := minted, families := families), phase);
  }

  /** A phase with no claims of its own, or no more than the transaction had before. */
  lemma ClaimingNoMore(s: State, tx: Tx, phase: Phase)
    requires Inv(s)
    requires var before := if tx in s.txns then s.txns[tx] else Done(Aborted);
             && Locks(phase) <= Locks(before)
             && Pending(phase) <= Pending(before)
             && PendingFamily(phase) <= PendingFamily(before)
    requires phase.Done? ==> !phase.outcome.Rotated? && !phase.outcome.Opened?
    ensures ApartFromOthers(s, tx, phase)
  {
    hide DbInv, PhaseInv;
  }

  lemma LocksOfPhaseAreStored(db: Db, phase: Phase)
    requires DbInv(db) && PhaseInv(db, phase)
    ensures Locks(phase) <= db.rows.Keys
    ensures Pending(phase) <= db.minted && PendingFamily(phase) <= db.families
    ensures PendingFamily(phase) !! db.chains.Keys
  {}

  lemma LocksAreStored(s: State, x: Tx)
    requires Inv(s) && x in s.txns
    ensures Locks(s.txns[x]) <= s.db.rows.Keys
    ensures Pending(s.txns[x]) <= s.db.minted && PendingFamily(s.txns[x]) <= s.db.families
  {
    hide Apart;
    LocksOfPhaseAreStored(s.db, s.txns[x]);
  }

  lemma BeginKeepsInv(s: State, step: Step)
    requires Inv(s) && Enabled(s, step) && (step.Begin? || step.Abort?)
    ensures Inv(Next(s, step))
  {
    hide DbInv, Apart;
    var (db, phase) := Effect(s, step);
    ClaimingNoMore(s, step.tx, phase);
    MintingStepKeepsInv(s, step.tx, db.minted, db.families, phase);
  }

  lemma OpeningIsSound(db: Db, family: Family, first: Token, row: SessionRow)
    requires DbInv(db) && first !in db.minted && family !in db.families && row.family == family && row.usedAt.None?
    ensures var db' := db.(minted := db.minted + {first}, families := db.families + {family});
            DbInv(db') && PhaseInv(db', Opening(first, row))
  {}

  lemma BeginLoginKeepsInv(s: State, step: Step)
    requires Inv(s) && Enabled(s, step) && step.BeginLogin?
    ensures Inv(Next(s, step))
  {
    hide DbInv, PhaseInv;
    var (db, phase) := Effect(s, step);
    OpeningIsSound(s.db, step.family, step.first, phase.row);
    forall y | y in s.txns && y != step.tx
      ensures Apart(phase, s.txns[y])
    {
      LocksAreStored(s, y);
    }
    MintingStepKeepsInv(s, step.tx, db.minted, db.families, phase);
  }

  lemma AcquireKeepsInv(s: State, step: Step)
    requires Inv(s) && Enabled(s, step) && step.Acquire?
    ensures Inv(Next(s, step))
  {
    hide DbInv;
    var (db, phase) := Effect(s, step);
    MintingStepKeepsInv(s, step.tx, db.minted, db.families, phase);
  }

  lemma DecisionIsSound(db: Db, request: Request, row: SessionRow, clock: Clock, successor: Token)
    requires DbInv(db) && PhaseInv(db, Holding(request, row)) && successor !in db.minted
    ensures var db' := db.(minted := db.minted + {successor});
            DbInv(db') && PhaseInv(db', Decided(db, request, row, clock, successor))
  {
    assert db.place[request.token].family == row.family;
  }

  /** Whatever is decided claims no more than the row held and the token just drawn. */
  lemma DecisionClaims(db: Db, request: Request, row: SessionRow, clock: Clock, successor: Token, other: Phase)
    requires request.token !in Locks(other) && successor !in Pending(other)
    ensures Apart(Decided(db, request, row, clock, successor), other)
  {}

  lemma DecideKeepsInv(s: State, step: Step)
    requires Inv(s) && Enabled(s, step) && step.Decide?
    ensures Inv(Next(s, step))
  {
    var (db, phase) := Effect(s, step);
    var before := s.txns[step.tx];
    DecisionIsSound(s.db, before.request, before.row, step.clock, step.successor)
      by { assert PhaseInv(s.db, before); }
    hide PhaseInv, DbInv, Decided;
    forall y | y in s.txns && y != step.tx
      ensures Apart(phase, s.txns[y])
    {
      LocksAreStored(s, y);
      assert Apart(before, s.txns[y]);
      DecisionClaims(s.db, before.request, before.row, step.clock, step.successor, s.txns[y]);
    }
    MintingStepKeepsInv(s, step.tx, db.minted, db.families, phase);
  }

  lemma ReachIsSound(s: State, step: Step)
    requires DbInv(s.db) && Enabled(s, step) && step.Reach? && PhaseInv(s.db, s.txns[step.tx])
    ensures PhaseInv(s.db, Effect(s, step).1)
  {
    hide DbInv;
  }

  lemma ReachKeepsInv(s: State, step: Step)
    requires Inv(s) && Enabled(s, step) && step.Reach?
    ensures Inv(Next(s, step))
  {
    hide DbInv, PhaseInv;
    var (db, phase) := Effect(s, step);
    ReachIsSound(s, step);
    forall y | y in s.txns && y != step.tx
      ensures Apart(phase, s.txns[y])
    {
      assert Apart(s.txns[step.tx], s.txns[y]);
    }
    StepKeepsInv(s, step.tx, db, phase);
  }

  ghost predicate CanAppend(db: Db, family: Family, token: Token) {
    HistoryInv(db) && token in db.minted && token !in db.place && family in db.families
  }

  lemma AppendKeepsChainsPlaced(db: Db, family: Family, token: Token)
    requires CanAppend(db, family, token)
    ensures ChainsArePlaced(Append(db, family, token))
  {
    var db' := Append(db, family, token);
    forall f, i | f in db'.chains && 0 <= i < |db'.chains[f]|
      ensures db'.chains[f][i] in db'.place && db'.place[db'.chains[f][i]] == Place(f, i)
    {
      if f in db.chains && i < |db.chains[f]| {
        assert db.chains[f][i] in db.place;
      }
    }
  }

  lemma AppendKeepsPlacesChained(db: Db, family: Family, token: Token)
    requires CanAppend(db, family, token)
    ensures PlacesAreChained(Append(db, family, token))
  {
    var db' := Append(db, family, token);
    forall t | t in db'.place
      ensures var p := db'.place[t];
              p.family in db'.chains && p.index < |db'.chains[p.family]| && db'.chains[p.family][p.index] == t
    {
      if t != token {
        var p := db.place[t];
        assert p.family in db.chains && p.index < |db.chains[p.family]| && db.chains[p.family][p.index] == t;
      }
    }
  }

  /** Issuing one more token spends every earlier one of its chain, and nothing else. */
  lemma AppendExtendsHistory(db: Db, family: Family, token: Token)
    requires CanAppend(db, family, token)
    ensures HistoryInv(Append(db, family, token))
    ensures Append(db, family, token).place[token] == Place(family, Issuances(db, family))
    ensures forall t :: IsSpent(Append(db, family, token), t) <==>
                          t in db.place && (IsSpent(db, t) || db.place[t].family == family)
  {
    AppendKeepsChainsPlaced(db, family, token);
    AppendKeepsPlacesChained(db, family, token);
    hide ChainsArePlaced;
  }

  /** The table that goes with one more token: its row is new and unspent, and every other row
      of its family counts as used. */
  lemma AppendKeepsDb(db: Db, family: Family, token: Token, rows: SessionTable)
    requires DbInv(db) && CanAppend(db, family, token)
    requires rows.Keys == db.rows.Keys + {token}
    requires rows[token].family == family && rows[token].usedAt.None?
    requires forall t | t in db.rows ::
               && rows[t].family == db.rows[t].family
               && (rows[t].usedAt.Some? <==> db.rows[t].usedAt.Some? || db.rows[t].family == family)
    ensures DbInv(Append(db, family, token).(rows := rows))
  {
    AppendExtendsHistory(db, family, token);
    HistoryIgnoresRows(Append(db, family, token), rows);
    AppendKeepsTable(db, Append(db, family, token).(rows := rows), family, token);
  }

  lemma AppendKeepsStored(db: Db, db': Db, family: Family, token: Token)
    requires DbInv(db) && HistoryInv(db') && token !in db.place
    requires db'.place == db.place[token := Place(family, Issuances(db, family))]
    requires db'.gone == if family in db.gone then db.gone else db.gone[family := 0]
    requires db'.rows.Keys == db.rows.Keys + {token}
    ensures forall t :: t in db'.rows <==> t in db'.place && db'.gone[db'.place[t].family] <= db'.place[t].index
  {
    assert db'.gone[family] <= Issuances(db, family);
    assert forall t | t in db.place :: db.place[t].family in db.gone;
    hide IsSpent, ChainsArePlaced, PlacesAreChained, Issuances;
  }

  lemma AppendKeepsTable(db: Db, db': Db, family: Family, token: Token)
    requires DbInv(db) && HistoryInv(db') && token !in db.place
    requires db'.place == db.place[token := Place(family, Issuances(db, family))]
    requires db'.gone == if family in db.gone then db.gone else db.gone[family := 0]
    requires forall t :: IsSpent(db', t) <==> t in db.place && (IsSpent(db, t) || db.place[t].family == family)
    requires db'.rows.Keys == db.rows.Keys + {token}
    requires db'.rows[token].family == family && db'.rows[token].usedAt.None?
    requires forall t | t in db.rows ::
               && db'.rows[t].family == db.rows[t].family
               && (db'.rows[t].usedAt.Some? <==> db.rows[t].usedAt.Some? || db.rows[t].family == family)
    ensures TableInv(db')
  {
    AppendKeepsStored(db, db', family, token);
    hide IsSpent, HistoryInv, Issuances;
  }

  lemma HistoryIgnoresRows(db: Db, rows: SessionTable)
    requires HistoryInv(db)
    ensures HistoryInv(db.(rows := rows))
  {}

  /** Two tokens of one family cannot both be its latest. */
  lemma SpentUnlessLast(db: Db, t: Token, last: Token)
    requires HistoryInv(db) && t in db.place && last in db.place && t != last
    requires db.place[t].family == db.place[last].family && !IsSpent(db, last)
    ensures IsSpent(db, t)
  {}

  lemma RotationKeepsDb(db: Db, phase: Phase)
    requires DbInv(db) && phase.Writing? && PhaseInv(db, phase)
    ensures DbInv(Committed(db, phase).0)
  {
    var Writing(token, burnt, successor, row) := phase;
    assert row.family in db.families;
    forall t | t in db.rows && t != token && db.rows[t].family == row.family
      ensures db.rows[t].usedAt.Some?
    {
      SpentUnlessLast(db, t, token);
    }
    AppendKeepsDb(db, row.family, successor, db.rows[token := burnt][successor := row]);
  }

  lemma LatestIsUnspent(db: Db, t: Token)
    requires DbInv(db) && t in db.rows && db.rows[t].usedAt.None?
    ensures t in db.place && db.place[t].family == db.rows[t].family && db.place[t].family in db.chains
    ensures db.place[t].index + 1 == |db.chains[db.place[t].family]|
    ensures db.chains[db.place[t].family][db.place[t].index] == t
  {}

  lemma RotationIsLinked(db: Db, phase: Phase)
    requires DbInv(db) && phase.Writing? && PhaseInv(db, phase) && DbInv(Committed(db, phase).0)
    ensures PhaseInv(Committed(db, phase).0, Done(Committed(db, phase).1))
  {
    hide DbInv;
    LatestIsUnspent(db, phase.token);
    assert Committed(db, phase).0.chains[phase.row.family] == db.chains[phase.row.family] + [phase.successor];
  }

  lemma OpeningKeepsDb(db: Db, phase: Phase)
    requires DbInv(db) && phase.Opening? && PhaseInv(db, phase)
    ensures DbInv(Committed(db, phase).0)
    ensures PhaseInv(Committed(db, phase).0, Done(Committed(db, phase).1))
  {
    var Opening(first, row) := phase;
    forall t | t in db.rows
      ensures db.rows[t].family != row.family
    {
      assert db.place[t].family in db.chains;
    }
    AppendKeepsDb(db, row.family, first, db.rows[first := row]);
    hide DbInv;
  }

  lemma DeletionKeepsDb(db: Db, phase: Phase)
    requires DbInv(db) && phase.Deleting? && phase.todo == {} && PhaseInv(db, phase)
    ensures DbInv(Committed(db, phase).0)
    ensures PhaseInv(Committed(db, phase).0, Done(Committed(db, phase).1))
  {}

  lemma AppendKeepsClaims(db: Db, family: Family, token: Token, rows: SessionTable, other: Phase)
    requires DbInv(db) && PhaseInv(db, other) && CanAppend(db, family, token) && !other.Deleting?
    requires !(other.Done? && other.outcome.Rotated?)
    requires DbInv(Append(db, family, token).(rows := rows))
    requires token !in Pending(other) && family !in PendingFamily(other)
    requires rows.Keys == db.rows.Keys + {token}
    requires forall t | t in Locks(other) && t in db.rows :: rows[t] == db.rows[t]
    ensures PhaseInv(Append(db, family, token).(rows := rows), other)
  {
    LocksOfPhaseAreStored(db, other);
    hide DbInv;
  }

  lemma AppendKeepsLink(db: Db, family: Family, token: Token, rows: SessionTable, t: Token)
    requires CanAppend(db, family, token) && IsSpent(db, t)
    ensures var db' := Append(db, family, token).(rows := rows);
            && IsSpent(db', t) && db'.place[t] == db.place[t]
            && db'.chains[db.place[t].family][db.place[t].index + 1]
               == db.chains[db.place[t].family][db.place[t].index + 1]
  {
    hide ChainsArePlaced, PlacesAreChained;
  }

  lemma AppendKeepsDeletion(db: Db, family: Family, token: Token, rows: SessionTable, other: Phase)
    requires DbInv(db) && PhaseInv(db, other) && other.Deleting? && CanAppend(db, family, token)
    requires DbInv(Append(db, family, token).(rows := rows)) && rows.Keys == db.rows.Keys + {token}
    ensures PhaseInv(Append(db, family, token).(rows := rows), other)
  {
    var db' := Append(db, family, token).(rows := rows);
    assert Issuances(db, other.family) <= |db'.chains[other.family]|;
    AppendKeepsDoomed(db, db'.place[token], token, rows, other);
    hide HistoryInv, TableInv;
  }

  /** The DELETE's snapshot still has every earlier token of its family that is stored. */
  lemma AppendKeepsDoomed(db: Db, p: Place, token: Token, rows: SessionTable, other: Phase)
    requires DbInv(db) && PhaseInv(db, other) && other.Deleting?
    requires token !in db.place && rows.Keys == db.rows.Keys + {token} && p.index == Issuances(db, p.family)
    ensures var place := db.place[token := p];
            && (forall t | t in other.doomed ::
                  t in place && place[t].family == other.family && place[t].index < other.cut)
            && (forall t | t in rows :: t in place)
            && (forall t | t in rows && place[t].family == other.family && place[t].index < other.cut ::
                  t in other.doomed)
            && other.held <= rows.Keys
            && (forall t | t in other.doomed :: t in other.todo || t in other.held || t !in rows)
  {
    hide HistoryInv;
  }

  lemma AppendKeepsAnswer(db: Db, family: Family, token: Token, rows: SessionTable, other: Phase)
    requires DbInv(db) && PhaseInv(db, other) && CanAppend(db, family, token)
    requires other.Done? && other.outcome.Rotated? && DbInv(Append(db, family, token).(rows := rows))
    ensures PhaseInv(Append(db, family, token).(rows := rows), other)
  {
    hide DbInv, CanAppend, IsSpent, Append;
    AppendKeepsLink(db, family, token, rows, other.outcome.token);
  }

  /** Issuing a token disturbs no other transaction's claims. */
  lemma AppendKeepsPhase(db: Db, family: Family, token: Token, rows: SessionTable, other: Phase)
    requires DbInv(db) && PhaseInv(db, other) && CanAppend(db, family, token)
    requires DbInv(Append(db, family, token).(rows := rows))
    requires token !in Pending(other) && family !in PendingFamily(other)
    requires rows.Keys == db.rows.Keys + {token}
    requires forall t | t in Locks(other) && t in db.rows :: rows[t] == db.rows[t]
    ensures PhaseInv(Append(db, family, token).(rows := rows), other)
  {
    hide DbInv, PhaseInv, CanAppend, Append;
    if other.Done? && other.outcome.Rotated? {
      AppendKeepsAnswer(db, family, token, rows, other);
    } else if other.Deleting? {
      AppendKeepsDeletion(db, family, token, rows, other);
    } else {
      AppendKeepsClaims(db, family, token, rows, other);
    }
  }

  lemma IssuesNew(db: Db, phase: Phase)
    requires DbInv(db) && PhaseInv(db, phase)
    ensures phase.Writing? ==>
              && CanAppend(db, phase.row.family, phase.successor) && phase.successor !in db.rows
              && phase.row.family in db.chains
    ensures phase.Opening? ==> CanAppend(db, phase.row.family, phase.first) && phase.first !in db.rows
  {
    if phase.Writing? {
      assert db.place[phase.token].family in db.chains;
    }
    hide ChainsArePlaced;
  }

  lemma RotationKeepsPhase(db: Db, phase: Phase, other: Phase)
    requires DbInv(db) && phase.Writing? && PhaseInv(db, phase)
    requires PhaseInv(db, other) && Apart(phase, other) && DbInv(Committed(db, phase).0)
    ensures PhaseInv(Committed(db, phase).0, other)
  {
    hide DbInv, PhaseInv, CanAppend, Append;
    IssuesNew(db, phase);
    LocksOfPhaseAreStored(db, phase);
    LocksOfPhaseAreStored(db, other);
    var Writing(token, burnt, successor, row) := phase;
    var rows := db.rows[token := burnt][successor := row];
    assert token in Locks(phase) && rows.Keys == db.rows.Keys + {successor};
    AppendKeepsPhase(db, row.family, successor, rows, other);
  }

  lemma OpeningKeepsPhase(db: Db, phase: Phase, other: Phase)
    requires DbInv(db) && phase.Opening? && PhaseInv(db, phase)
    requires PhaseInv(db, other) && Apart(phase, other) && DbInv(Committed(db, phase).0)
    ensures PhaseInv(Committed(db, phase).0, other)
  {
    hide DbInv, PhaseInv, CanAppend, Append;
    IssuesNew(db, phase);
    LocksOfPhaseAreStored(db, other);
    AppendKeepsPhase(db, phase.row.family, phase.first, db.rows[phase.first := phase.row], other);
  }

  lemma DeletionKeepsPhase(db: Db, phase: Phase, other: Phase)
    requires DbInv(db) && phase.Deleting? && phase.todo == {} && PhaseInv(db, phase)
    requires PhaseInv(db, other) && Apart(phase, other) && DbInv(Committed(db, phase).0)
    ensures PhaseInv(Committed(db, phase).0, other)
  {}

  lemma OutcomesAreApart(db: Db, phase: Phase, other: Phase)
    requires DbInv(db) && PhaseInv(db, phase) && Ready(phase) && PhaseInv(db, other)
    ensures Apart(Done(Committed(db, phase).1), other)
  {
    hide Append;
  }

  /** What a commit answers is not what any other transaction was answered. */
  lemma CommitIsApart(s: State, tx: Tx)
    requires Inv(s) && Enabled(s, Commit(tx))
    ensures ApartFromOthers(s, tx, Done(Committed(s.db, s.txns[tx]).1))
  {
    hide DbInv, PhaseInv, Committed;
    forall y | y in s.txns && y != tx
      ensures Apart(Done(Committed(s.db, s.txns[tx]).1), s.txns[y])
    {
      OutcomesAreApart(s.db, s.txns[tx], s.txns[y]);
    }
  }

  lemma CommitKeepsInv(s: State, step: Step)
    requires Inv(s) && Enabled(s, step) && step.Commit?
    ensures Inv(Next(s, step))
  {
    hide DbInv, PhaseInv, Apart;
    var (db, phase) := Effect(s, step);
    var before := s.txns[step.tx];
    match before {
      case Writing(_, _, _, _) =>
        RotationKeepsDb(s.db, before);
        RotationIsLinked(s.db, before);
      case Opening(_, _) => OpeningKeepsDb(s.db, before);
      case Deleting(_, _, _, _, _, _) => DeletionKeepsDb(s.db, before);
    }
    forall y | y in s.txns && y != step.tx
      ensures PhaseInv(db, s.txns[y])
    {
      match before {
        case Writing(_, _, _, _) => RotationKeepsPhase(s.db, before, s.txns[y]);
        case Opening(_, _) => OpeningKeepsPhase(s.db, before, s.txns[y]);
        case Deleting(_, _, _, _, _, _) => DeletionKeepsPhase(s.db, before, s.txns[y]);
      }
    }
    CommitIsApart(s, step.tx);
    StepKeepsInv(s, step.tx, db, phase);
  }

  lemma NextKeepsInv(s: State, step: Step)
    requires Inv(s) && Enabled(s, step)
    ensures Inv(Next(s, step))
  {
    hide Inv;
    match step {
      case Begin(_, _) => BeginKeepsInv(s, step);
      case BeginLogin(_, _, _, _, _) => BeginLoginKeepsInv(s, step);
      case Acquire(_) => AcquireKeepsInv(s, step);
      case Decide(_, _, _) => DecideKeepsInv(s, step);
      case Reach(_, _) => ReachKeepsInv(s, step);
      case Commit(_) => CommitKeepsInv(s, step);
      case Abort(_) => BeginKeepsInv(s, step);
    }
  }

  lemma {:induction false} RunKeepsInv(s: State, steps: seq<Step>)
    requires Inv(s) && Valid(s, steps)
    ensures Inv(Run(s, steps))
    decreases |steps|
  {
    hide Inv;
    if steps != [] {
      NextKeepsInv(s, steps[0]);
      RunKeepsInv(Next(s, steps[0]), steps[1..]);
    }
  }
}
