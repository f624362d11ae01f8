/** The two views of a request agree: run alone, the interleaved steps of a refresh or a logout
    do to the table what the request does as one atomic action. */
module SerialRequests {
  import opened Common
  import opened Sessions
  import opened Interleaving

  /** The clock readings a request takes and the token it draws, should it come to that. */
  datatype Draw = Draw(clock: Clock, successor: Token)

  /** The atomic request leaves the table like this and answers so. */
  predicate Answers(rows: SessionTable, request: Request, draw: Draw, rows': SessionTable, outcome: Outcome) {
    match request
    case Logout(token) => rows' == EndedSession(rows, token).0 && outcome == Ended(token)
    case Refresh(token) =>
      var (after, reply) := RefreshedSession(rows, token, draw.clock, draw.successor);
      rows' == after && outcome == if reply.Issued? then Rotated(token, draw.successor) else Refused(token)
  }

  /** Where a transaction that runs alone can be, having found the table as rows. */
  ghost predicate Alone(rows: SessionTable, request: Request, draw: Draw, rows': SessionTable, phase: Phase) {
    match phase
    case Waiting(r) => r == request && request.token in rows && rows' == rows
    case Holding(r, row) => r == request && request.token in rows && row == rows[request.token] && rows' == rows
    case Deleting(r, family, doomed, todo, held, _) =>
      && r == request && request.token in rows && rows' == rows
      && (request.Logout? || rows[request.token].usedAt.Some?)
      && family == rows[request.token].family
      && doomed == FamilyTokens(rows, family) && todo <= doomed && held == doomed - todo
    case Writing(token, burnt, successor, row) =>
      && request == Refresh(token) && token in rows && rows' == rows && rows[token].usedAt.None?
      && !Expired(rows[token], draw.clock.checked)
      && burnt == Burnt(rows[token], draw.clock.burnt)
      && successor == draw.successor
      && row == NewRow(rows[token].user, rows[token].family, draw.clock.issued)
    case Opening(_, _) => false
    case Done(outcome) => Answers(rows, request, draw, rows', outcome)
  }

  predicate OwnStep(tx: Tx, draw: Draw, step: Step) {
    && step.tx == tx && !step.Abort?
    && (step.Decide? ==> draw == Draw(step.clock, step.successor))
  }

  lemma StepsAlone(rows: SessionTable, request: Request, draw: Draw, s: State, step: Step)
    requires Enabled(s, step) && step.tx in s.txns && OwnStep(step.tx, draw, step)
    requires Alone(rows, request, draw, s.db.rows, s.txns[step.tx])
    ensures Alone(rows, request, draw, Next(s, step).db.rows, Next(s, step).txns[step.tx])
  {
    var phase := s.txns[step.tx];
    if step.Commit? && phase.Deleting? {
      assert s.db.rows - phase.held == WithoutFamily(rows, phase.family);
    }
  }

  lemma {:induction false} RunsAlone(rows: SessionTable, request: Request, draw: Draw, s: State, tx: Tx,
                                     steps: seq<Step>)
    requires Valid(s, steps) && tx in s.txns && Alone(rows, request, draw, s.db.rows, s.txns[tx])
    requires forall i | 0 <= i < |steps| :: OwnStep(tx, draw, steps[i])
    ensures tx in Run(s, steps).txns
    ensures Alone(rows, request, draw, Run(s, steps).db.rows, Run(s, steps).txns[tx])
    decreases |steps|
  {
    if steps != [] {
      StepsAlone(rows, request, draw, s, steps[0]);
      RunsAlone(rows, request, draw, Next(s, steps[0]), tx, steps[1..]);
    }
  }

  /** Any run of one request's own steps to its end is the atomic request, whatever the order in
      which its DELETE visits the family. */
  lemma SerialRequestIsAtomic(s: State, tx: Tx, request: Request, draw: Draw, steps: seq<Step>)
    requires Valid(s, [Begin(tx, request)] + steps)
    requires forall i | 0 <= i < |steps| :: OwnStep(tx, draw, steps[i])
    ensures var s' := Run(s, [Begin(tx, request)] + steps);
            && tx in s'.txns
            && (s'.txns[tx].Done? ==> Answers(s.db.rows, request, draw, s'.db.rows, s'.txns[tx].outcome))
  {
    var all := [Begin(tx, request)] + steps;
    assert all[1..] == steps;
    RunsAlone(s.db.rows, request, draw, Next(s, all[0]), tx, steps);
  }
}
