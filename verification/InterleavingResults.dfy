/** What the locks buy: the shape of a login's rows in every reachable table, single use of every
    token, and exactly when a replay leaves nothing behind. */
module InterleavingResults {
  import opened Common
  import opened Sessions
  import opened Interleaving
  import opened SampleLogin

  // The shape of a family.

  /** The family's rows are the chain from position k on, and only its last link is unspent. */
  ghost predicate IsSuffixFrom(rows: SessionTable, chain: seq<Token>, family: Family, k: nat) {
    && k <= |chain|
    && (forall i, j :: 0 <= i < j < |chain| ==> chain[i] != chain[j])
    && FamilyTokens(rows, family) == (set i | k <= i < |chain| :: chain[i])
    && (forall i :: k <= i < |chain| ==> chain[i] in rows && (rows[chain[i]].usedAt.None? <==> i == |chain| - 1))
  }

  lemma FamilyIsSuffix(s: State, family: Family)
    requires Inv(s) && family in s.db.chains
    ensures IsSuffixFrom(s.db.rows, s.db.chains[family], family, s.db.gone[family])
  {
    var db := s.db;
    var chain := db.chains[family];
    var k := db.gone[family];
    forall i | 0 <= i < |chain|
      ensures chain[i] in db.place && db.place[chain[i]] == Place(family, i)
      ensures chain[i] in FamilyTokens(db.rows, family) <==> k <= i
    {}
    forall t | t in FamilyTokens(db.rows, family)
      ensures t in (set i | k <= i < |chain| :: chain[i])
    {
      assert chain[db.place[t].index] == t;
    }
  }

  /** In every reachable committed table, under any interleaving, the rows of each login are a
      suffix of what it was issued, in which the last row alone is unspent. */
  lemma RowsAreASuffixOfTheChain(steps: seq<Step>)
    requires Valid(INITIAL, steps)
    ensures var db := Run(INITIAL, steps).db;
            && (forall t | t in db.rows :: db.rows[t].family in db.chains)
            && (forall family | family in db.chains ::
                  exists k :: IsSuffixFrom(db.rows, db.chains[family], family, k))
  {
    InitialInv();
    RunKeepsInv(INITIAL, steps);
    var s := Run(INITIAL, steps);
    forall family | family in s.db.chains
      ensures exists k :: IsSuffixFrom(s.db.rows, s.db.chains[family], family, k)
    {
      FamilyIsSuffix(s, family);
    }
  }

  ghost predicate AnsweredWithPair(s: State, x: Tx, token: Token, successor: Token) {
    x in s.txns && s.txns[x] == Done(Rotated(token, successor))
  }

  lemma TransactionsAreApart(s: State, x: Tx, y: Tx)
    requires Inv(s) && x in s.txns && y in s.txns && x != y
    ensures Apart(s.txns[x], s.txns[y])
  {
    hide DbInv, PhaseInv, Apart;
  }

  lemma ExchangeIsALink(s: State, x: Tx, token: Token, successor: Token)
    requires Inv(s) && AnsweredWithPair(s, x, token, successor)
    ensures exists family, i :: family in s.db.chains && 0 <= i && i + 1 < |s.db.chains[family]|
                && s.db.chains[family][i] == token && s.db.chains[family][i + 1] == successor
  {
    hide Apart, TableInv;
    assert PhaseInv(s.db, s.txns[x]);
    var Place(family, i) := s.db.place[token];
    assert s.db.chains[family][i] == token;
  }

  /** However many requests race one token, at most one is answered with a pair, and the pair
      carries the next link of that token's chain. */
  lemma TokenIsExchangedOnce(steps: seq<Step>, x: Tx, y: Tx, token: Token, a: Token, b: Token)
    requires Valid(INITIAL, steps)
    requires AnsweredWithPair(Run(INITIAL, steps), x, token, a)
    requires AnsweredWithPair(Run(INITIAL, steps), y, token, b)
    ensures x == y && a == b
    ensures var chains := Run(INITIAL, steps).db.chains;
            exists family, i :: family in chains && 0 <= i && i + 1 < |chains[family]|
              && chains[family][i] == token && chains[family][i + 1] == a
  {
    hide Inv;
    InitialInv();
    RunKeepsInv(INITIAL, steps);
    if x != y {
      TransactionsAreApart(Run(INITIAL, steps), x, y);
    }
    ExchangeIsALink(Run(INITIAL, steps), x, token, a);
  }

  // What a run adds to a login and takes from it.

  /** The step commits an exchange of one of the family's tokens. */
  predicate Extends(s: State, step: Step, family: Family) {
    step.Commit? && step.tx in s.txns && s.txns[step.tx].Writing? && s.txns[step.tx].row.family == family
  }

  function Extensions(s: State, steps: seq<Step>, family: Family): nat
    requires Valid(s, steps)
    decreases |steps|
  {
    if steps == [] then 0
    else (if Extends(s, steps[0], family) then 1 else 0) + Extensions(Next(s, steps[0]), steps[1..], family)
  }

  /** What a transaction about to commit issues is new, and its family is alive or new. */
  lemma ReadyFamily(s: State, tx: Tx)
    requires Inv(s) && tx in s.txns
    ensures s.db.gone.Keys == s.db.chains.Keys
    ensures s.txns[tx].Writing? ==>
              var family := s.txns[tx].row.family;
              && s.txns[tx].successor !in s.db.place
              && family in s.db.chains && s.db.gone[family] < |s.db.chains[family]|
    ensures s.txns[tx].Opening? ==> s.txns[tx].first !in s.db.place && s.txns[tx].row.family !in s.db.chains
  {
    assert PhaseInv(s.db, s.txns[tx]);
    hide Apart;
  }

  lemma StepMovesForward(s: State, step: Step, family: Family)
    requires Inv(s) && Enabled(s, step) && family in s.db.chains
    ensures var db' := Next(s, step).db;
            && family in db'.chains && s.db.chains[family] <= db'.chains[family]
            && |db'.chains[family]| == |s.db.chains[family]| + (if Extends(s, step, family) then 1 else 0)
            && family in db'.gone && s.db.gone[family] <= db'.gone[family]
    ensures Extends(s, step, family) ==> s.db.gone[family] < |s.db.chains[family]|
  {
    hide Inv;
    GoneWithinChain(s, family);
    if step.Commit? {
      ReadyFamily(s, step.tx);
    }
  }

  lemma {:induction false} RunMovesForward(s: State, steps: seq<Step>, family: Family)
    requires Inv(s) && Valid(s, steps) && family in s.db.chains
    ensures var db' := Run(s, steps).db;
            && Inv(Run(s, steps))
            && family in db'.chains && s.db.chains[family] <= db'.chains[family]
            && |db'.chains[family]| == |s.db.chains[family]| + Extensions(s, steps, family)
            && family in db'.gone && s.db.gone[family] <= db'.gone[family]
    ensures s.db.gone[family] == |s.db.chains[family]| ==> Extensions(s, steps, family) == 0
    decreases |steps|
  {
    GoneWithinChain(s, family);
    hide Inv;
    if steps != [] {
      StepMovesForward(s, steps[0], family);
      NextKeepsInv(s, steps[0]);
      var s' := Next(s, steps[0]);
      GoneWithinChain(s', family);
      RunMovesForward(s', steps[1..], family);
    }
  }

  lemma GoneWithinChain(s: State, family: Family)
    requires Inv(s) && family in s.db.chains
    ensures family in s.db.gone && s.db.gone[family] <= |s.db.chains[family]|
  {}

  lemma EmptyMeansAllGone(s: State, family: Family)
    requires Inv(s) && family in s.db.chains
    ensures FamilyTokens(s.db.rows, family) == {} <==> s.db.gone[family] == |s.db.chains[family]|
  {
    FamilyIsSuffix(s, family);
    var chain := s.db.chains[family];
    if s.db.gone[family] < |chain| {
      assert chain[|chain| - 1] in FamilyTokens(s.db.rows, family);
    }
  }

  /** A login that has lost every row never has one again, even under interleaving, and none of
      its tokens is ever exchanged again. */
  lemma EmptyFamilyStaysEmpty(s: State, steps: seq<Step>, family: Family)
    requires Inv(s) && Valid(s, steps) && family in s.db.chains
    requires FamilyTokens(s.db.rows, family) == {}
    ensures FamilyTokens(Run(s, steps).db.rows, family) == {} && Extensions(s, steps, family) == 0
  {
    EmptyMeansAllGone(s, family);
    RunMovesForward(s, steps, family);
    GoneWithinChain(Run(s, steps), family);
    EmptyMeansAllGone(Run(s, steps), family);
  }

  // Replays and logouts.

  lemma DeletionGoesOn(s: State, step: Step, tx: Tx)
    requires Enabled(s, step) && tx in s.txns && (s.txns[tx].Deleting? || s.txns[tx].Done?)
    ensures tx in Next(s, step).txns
    ensures var before := s.txns[tx];
            var after := Next(s, step).txns[tx];
            || (after.Deleting? && before.Deleting? && after.family == before.family && after.cut == before.cut)
            || after.Done?
    ensures s.txns[tx].Done? ==> Next(s, step).txns[tx].Done?
  {}

  lemma {:induction false} DeletionPersists(s: State, steps: seq<Step>, tx: Tx)
    requires Valid(s, steps) && tx in s.txns && (s.txns[tx].Deleting? || s.txns[tx].Done?)
    ensures tx in Run(s, steps).txns
    ensures var before := s.txns[tx];
            var after := Run(s, steps).txns[tx];
            || (after.Deleting? && before.Deleting? && after.family == before.family && after.cut == before.cut)
            || after.Done?
    decreases |steps|
  {
    if steps != [] {
      DeletionGoesOn(s, steps[0], tx);
      DeletionPersists(Next(s, steps[0]), steps[1..], tx);
    }
  }

  lemma HeldRowIsStored(s: State, tx: Tx)
    requires Inv(s) && tx in s.txns && s.txns[tx].Deleting?
    ensures s.txns[tx].family in s.db.chains
    ensures s.txns[tx].request.token in FamilyTokens(s.db.rows, s.txns[tx].family)
  {
    assert PhaseInv(s.db, s.txns[tx]);
  }

  lemma DeletionCommits(s: State, tx: Tx)
    requires Inv(s) && Enabled(s, Commit(tx)) && s.txns[tx].Deleting?
    ensures var Deleting(_, family, _, _, _, cut) := s.txns[tx];
            && family in s.db.chains
            && (FamilyTokens(Next(s, Commit(tx)).db.rows, family) == {} <==> |s.db.chains[family]| == cut)
  {
    HeldRowIsStored(s, tx);
    var family := s.txns[tx].family;
    GoneWithinChain(s, family);
    NextKeepsInv(s, Commit(tx));
    EmptyMeansAllGone(s, family);
    EmptyMeansAllGone(Next(s, Commit(tx)), family);
    hide Inv;
  }

  lemma DeletionBegins(s: State, decide: Step)
    requires Inv(s) && decide.Decide? && Enabled(s, decide) && Next(s, decide).txns[decide.tx].Deleting?
    ensures var s1 := Next(s, decide);
            var phase := s1.txns[decide.tx];
            Inv(s1) && phase.family in s1.db.chains && phase.cut == |s1.db.chains[phase.family]|
  {
    hide Inv;
    NextKeepsInv(s, decide);
    HeldRowIsStored(Next(s, decide), decide.tx);
  }

  /** A replay or a logout begins its DELETE with Decide and ends it with Commit. The login is
      left without a row exactly when nobody committed an exchange of one of its tokens in
      between: a successor committed after the DELETE began is not in its snapshot. */
  lemma RevocationIsCompleteUnlessRaced(s: State, decide: Step, between: seq<Step>)
    requires Inv(s) && decide.Decide? && Enabled(s, decide) && Next(s, decide).txns[decide.tx].Deleting?
    requires Valid(Next(s, decide), between)
    requires Enabled(Run(Next(s, decide), between), Commit(decide.tx))
    ensures var s1 := Next(s, decide);
            var family := s1.txns[decide.tx].family;
            var s2 := Run(s1, between);
            FamilyTokens(Next(s2, Commit(decide.tx)).db.rows, family) == {} <==> Extensions(s1, between, family) == 0
  {
    hide Inv;
    DeletionBegins(s, decide);
    var s1 := Next(s, decide);
    var family := s1.txns[decide.tx].family;
    DeletionPersists(s1, between, decide.tx);
    RunMovesForward(s1, between, family);
    DeletionCommits(Run(s1, between), decide.tx);
  }

  // When no race is possible.

  predicate InFamily(db: Db, t: Token, family: Family) {
    t in db.place && db.place[t].family == family
  }

  /** Of this family no other transaction is refreshing any token but the one whose row is held. */
  ghost predicate OnlyRefreshes(s: State, tx: Tx, family: Family, token: Token) {
    forall x, t | x in s.txns && x != tx && Presents(s.txns[x], t) && InFamily(s.db, t, family) :: t == token
  }

  /** No refresh begins on another token of the family, as the family was when the DELETE began. */
  predicate BeginsNoOther(steps: seq<Step>, db: Db, family: Family, token: Token) {
    forall i | 0 <= i < |steps| && steps[i].Begin? && steps[i].request.Refresh? ::
      InFamily(db, steps[i].request.token, family) ==> steps[i].request.token == token
  }

  /** The DELETE is under way, holding the row of the token it was asked about. */
  ghost predicate Revoking(s: State, tx: Tx, family: Family, token: Token) {
    && tx in s.txns && s.txns[tx].Deleting? && s.txns[tx].family == family && token in s.txns[tx].held
    && family in s.db.chains && InFamily(s.db, token, family)
  }

  lemma WriterLocksItsToken(s: State, x: Tx)
    requires Inv(s) && x in s.txns && s.txns[x].Writing?
    ensures Presents(s.txns[x], s.txns[x].token) && InFamily(s.db, s.txns[x].token, s.txns[x].row.family)
    ensures Free(s.txns, x, s.txns[x].token)
  {
    assert PhaseInv(s.db, s.txns[x]);
    hide DbInv, PhaseInv;
    forall y | y in s.txns && y != x
      ensures s.txns[x].token !in Locks(s.txns[y])
    {
      assert Apart(s.txns[x], s.txns[y]);
    }
  }

  /** The one token others may refresh is locked, so nobody commits an exchange. */
  lemma NothingExtends(s: State, step: Step, tx: Tx, family: Family, token: Token)
    requires Inv(s) && Enabled(s, step) && Revoking(s, tx, family, token) && OnlyRefreshes(s, tx, family, token)
    ensures !Extends(s, step, family)
  {
    hide Inv;
    if Extends(s, step, family) {
      WriterLocksItsToken(s, step.tx);
      assert false;
    }
  }

  /** A step that extends another family, or none, leaves this family's tokens as they are. */
  lemma StepKeepsMembers(s: State, step: Step, family: Family, t: Token)
    requires Inv(s) && Enabled(s, step) && !Extends(s, step, family) && family in s.db.chains
    ensures InFamily(Next(s, step).db, t, family) <==> InFamily(s.db, t, family)
  {
    hide Inv;
    if step.Commit? {
      ReadyFamily(s, step.tx);
    }
  }

  lemma WhoPresents(s: State, step: Step, x: Tx, t: Token)
    requires Enabled(s, step) && x in Next(s, step).txns && Presents(Next(s, step).txns[x], t)
    ensures (x in s.txns && Presents(s.txns[x], t)) || step == Begin(x, Refresh(t))
  {}

  lemma StepStaysAlone(s: State, step: Step, tx: Tx, family: Family, token: Token)
    requires Inv(s) && Enabled(s, step) && Revoking(s, tx, family, token) && OnlyRefreshes(s, tx, family, token)
    requires BeginsNoOther([step], s.db, family, token)
    ensures OnlyRefreshes(Next(s, step), tx, family, token)
  {
    hide Inv, Enabled, Next, InFamily;
    NothingExtends(s, step, tx, family, token);
    var s' := Next(s, step);
    forall x, t | x in s'.txns && x != tx && Presents(s'.txns[x], t) && InFamily(s'.db, t, family)
      ensures t == token
    {
      StepKeepsMembers(s, step, family, t);
      WhoPresents(s, step, x, t);
      assert [step][0] == step;
    }
  }

  lemma StepKeepsRevoking(s: State, step: Step, tx: Tx, family: Family, token: Token)
    requires Inv(s) && Enabled(s, step) && Revoking(s, tx, family, token) && OnlyRefreshes(s, tx, family, token)
    requires !Next(s, step).txns[tx].Done?
    ensures Revoking(Next(s, step), tx, family, token)
  {
    NothingExtends(s, step, tx, family, token);
    StepKeepsMembers(s, step, family, token);
    StepMovesForward(s, step, family);
    hide Inv;
  }

  lemma RevokingMeans(s: State, tx: Tx, family: Family, token: Token)
    requires Revoking(s, tx, family, token)
    ensures tx in s.txns && s.txns[tx].Deleting? && family in s.db.chains
  {}

  lemma {:induction false} NothingExtendsRun(s: State, steps: seq<Step>, tx: Tx, family: Family, token: Token)
    requires Inv(s) && Valid(s, steps)
    requires Revoking(s, tx, family, token) && OnlyRefreshes(s, tx, family, token)
    requires BeginsNoOther(steps, s.db, family, token)
    requires tx in Run(s, steps).txns && Run(s, steps).txns[tx].Deleting?
    ensures Extensions(s, steps, family) == 0
    decreases |steps|
  {
    hide Inv, Enabled, Next, Revoking, OnlyRefreshes, InFamily;
    if steps != [] {
      var s' := Next(s, steps[0]);
      RevokingMeans(s, tx, family, token);
      NothingExtends(s, steps[0], tx, family, token);
      DeletionGoesOn(s, steps[0], tx);
      DeletionPersists(s', steps[1..], tx);
      StepStaysAlone(s, steps[0], tx, family, token);
      StepKeepsRevoking(s, steps[0], tx, family, token);
      NextKeepsInv(s, steps[0]);
      forall t
        ensures InFamily(s'.db, t, family) <==> InFamily(s.db, t, family)
      {
        StepKeepsMembers(s, steps[0], family, t);
      }
      NothingExtendsRun(s', steps[1..], tx, family, token);
    }
  }

  lemma DecisionHolds(s: State, decide: Step)
    requires Inv(s) && decide.Decide? && Enabled(s, decide) && Next(s, decide).txns[decide.tx].Deleting?
    ensures var s1 := Next(s, decide);
            var phase := s1.txns[decide.tx];
            Inv(s1) && Revoking(s1, decide.tx, phase.family, s.txns[decide.tx].request.token)
  {
    hide Inv, FamilyTokens, Issuances;
    DeletionBegins(s, decide);
    HeldIsOfFamily(Next(s, decide), decide.tx);
    assert Next(s, decide).txns[decide.tx].request == s.txns[decide.tx].request;
  }

  lemma HeldIsOfFamily(s: State, tx: Tx)
    requires Inv(s) && tx in s.txns && s.txns[tx].Deleting?
    ensures InFamily(s.db, s.txns[tx].request.token, s.txns[tx].family) && s.txns[tx].request.token in s.txns[tx].held
  {
    hide DbInv, Apart;
    assert PhaseInv(s.db, s.txns[tx]);
  }

  lemma DecisionMovesNobody(s: State, decide: Step, between: seq<Step>, family: Family, token: Token)
    requires decide.Decide? && Enabled(s, decide)
    requires OnlyRefreshes(s, decide.tx, family, token) && BeginsNoOther(between, s.db, family, token)
    ensures OnlyRefreshes(Next(s, decide), decide.tx, family, token)
    ensures BeginsNoOther(between, Next(s, decide).db, family, token)
  {
    assert forall t :: InFamily(Next(s, decide).db, t, family) <==> InFamily(s.db, t, family);
  }

  /** What can be told beforehand. If no other transaction is refreshing another token of the login
      when the DELETE begins, and none begins to while it runs, however many race the same token,
      the login is left without a row: the winner's successor goes too. */
  lemma RevocationIsCompleteWhenAlone(s: State, decide: Step, between: seq<Step>)
    requires Inv(s) && decide.Decide? && Enabled(s, decide) && Next(s, decide).txns[decide.tx].Deleting?
    requires Valid(Next(s, decide), between)
    requires Enabled(Run(Next(s, decide), between), Commit(decide.tx))
    requires var family := Next(s, decide).txns[decide.tx].family;
             var token := s.txns[decide.tx].request.token;
             && OnlyRefreshes(s, decide.tx, family, token)
             && BeginsNoOther(between, s.db, family, token)
    ensures var family := Next(s, decide).txns[decide.tx].family;
            FamilyTokens(Next(Run(Next(s, decide), between), Commit(decide.tx)).db.rows, family) == {}
  {
    hide Inv, Run, Valid, Extensions;
    var s1 := Next(s, decide);
    var family := s1.txns[decide.tx].family;
    var token := s.txns[decide.tx].request.token;
    DecisionHolds(s, decide);
    DeletionPersists(s1, between, decide.tx);
    DecisionMovesNobody(s, decide, between, family, token);
    hide Next, OnlyRefreshes, BeginsNoOther, Revoking;
    NothingExtendsRun(s1, between, decide.tx, family, token);
    RevocationIsCompleteUnlessRaced(s, decide, between);
  }

  // The race is real.

  lemma {:induction false} OneMoreStep(s: State, steps: seq<Step>, step: Step)
    requires Valid(s, steps) && Enabled(Run(s, steps), step)
    ensures Valid(s, steps + [step]) && Run(s, steps + [step]) == Next(Run(s, steps), step)
    decreases |steps|
  {
    if steps == [] {
      assert Run(Next(s, step), []) == Next(s, step);
    } else {
      OneMoreStep(Next(s, steps[0]), steps[1..], step);
      assert (steps + [step])[1..] == steps[1..] + [step];
    }
  }

  const OPENED := Done(Opened(T1))

  ghost predicate Reachable(s: State) {
    exists steps :: Valid(INITIAL, steps) && Run(INITIAL, steps) == s
  }

  /** A reachable state, told by what its steps depend on. */
  ghost predicate Looks(s: State, rows: SessionTable, minted: set<Token>, txns: map<Tx, Phase>) {
    Reachable(s) && s.db.rows == rows && s.db.minted == minted && s.txns == txns
  }

  lemma Stepped(s: State, step: Step) returns (s': State)
    requires Reachable(s) && Enabled(s, step)
    ensures Reachable(s') && s' == Next(s, step)
  {
    var steps :| Valid(INITIAL, steps) && Run(INITIAL, steps) == s;
    OneMoreStep(INITIAL, steps, step);
    s' := Next(s, step);
  }

  lemma LogsIn() returns (s: State)
    ensures Looks(s, map[T1 := LIVE], {T1}, map[0 := Done(Opened(T1))])
  {
    assert Valid(INITIAL, []) && Run(INITIAL, []) == INITIAL;
    var s1 := Stepped(INITIAL, BeginLogin(0, 0, FAMILY, T1, 0));
    s := Stepped(s1, Commit(0));
  }

  /** A new transaction takes an unlocked row. */
  lemma Takes(s: State, tx: Tx, request: Request) returns (s': State)
    requires Reachable(s) && tx !in s.txns && request.token in s.db.rows && Free(s.txns, tx, request.token)
    ensures Looks(s', s.db.rows, s.db.minted, s.txns[tx := Holding(request, s.db.rows[request.token])])
  {
    var s1 := Stepped(s, Begin(tx, request));
    s' := Stepped(s1, Acquire(tx));
  }

  /** A transaction holding a live row burns it and writes a successor, not yet committed. */
  lemma Writes(s: State, tx: Tx, token: Token, successor: Token) returns (s': State)
    requires Reachable(s) && tx in s.txns && s.txns[tx] == Holding(Refresh(token), LIVE) && successor !in s.db.minted
    ensures Looks(s', s.db.rows, s.db.minted + {successor}, s.txns[tx := Writing(token, SPENT, successor, LIVE)])
  {
    s' := Stepped(s, Decide(tx, AT_ZERO, successor));
  }

  const ROTATED := Done(Rotated(T1, T2))
  const REPLAY := Holding(Refresh(T1), SPENT)
  const ROTATION := Writing(T2, SPENT, T3, LIVE)
  const TWO_ROWS := map[T1 := SPENT, T2 := LIVE]

  lemma FirstIsTaken() returns (s: State)
    ensures Looks(s, map[T1 := LIVE], {T1}, map[0 := OPENED, 1 := Holding(Refresh(T1), LIVE)])
  {
    var s1 := LogsIn();
    hide Reachable;
    s := Takes(s1, 1, Refresh(T1));
  }

  lemma FirstIsExchanged(s: State) returns (s': State)
    requires Looks(s, map[T1 := LIVE], {T1, T2}, map[0 := OPENED, 1 := Writing(T1, SPENT, T2, LIVE)])
    ensures Looks(s', TWO_ROWS, {T1, T2}, map[0 := OPENED, 1 := ROTATED])
  {
    hide Reachable;
    s' := Stepped(s, Commit(1));
  }

  lemma RotatesOnce() returns (s: State)
    ensures Looks(s, TWO_ROWS, {T1, T2}, map[0 := OPENED, 1 := ROTATED])
  {
    hide Reachable;
    var s1 := FirstIsTaken();
    var s2 := Writes(s1, 1, T1, T2);
    s := FirstIsExchanged(s2);
  }

  /** A replay of the first token holds its row while a rotation of the second is in flight. */
  lemma Races() returns (s: State)
    ensures Looks(s, TWO_ROWS, {T1, T2, T3}, map[0 := OPENED, 1 := ROTATED, 2 := REPLAY, 3 := ROTATION])
  {
    hide Reachable;
    var s1 := RotatesOnce();
    var s2 := Takes(s1, 2, Refresh(T1));
    var s3 := Takes(s2, 3, Refresh(T2));
    s := Writes(s3, 3, T2, T3);
  }

  lemma ReachableKeepsInv(s: State)
    requires Reachable(s)
    ensures Inv(s)
  {
    hide Inv;
    InitialInv();
    var steps :| Valid(INITIAL, steps) && Run(INITIAL, steps) == s;
    RunKeepsInv(INITIAL, steps);
  }

  lemma TwoSteps(s: State, first: Step, second: Step, family: Family)
    requires Enabled(s, first) && Enabled(Next(s, first), second) && Extends(s, first, family)
    ensures Valid(s, [first, second]) && Run(s, [first, second]) == Next(Next(s, first), second)
    ensures Extensions(s, [first, second], family) > 0
  {
    assert [first, second][1..] == [second];
    assert Run(Next(s, first), [second]) == Next(Next(s, first), second);
  }

  const REPLAYS := Decide(2, AT_ZERO, T4)

  lemma ReplayDooms(s: State)
    requires Looks(s, TWO_ROWS, {T1, T2, T3}, map[0 := OPENED, 1 := ROTATED, 2 := REPLAY, 3 := ROTATION])
    ensures Enabled(s, REPLAYS)
    ensures var txns := Next(s, REPLAYS).txns;
            && txns.Keys == {0, 1, 2, 3}
            && txns[0] == OPENED && txns[1] == ROTATED && txns[3] == ROTATION
            && txns[2].Deleting? && txns[2].family == FAMILY && txns[2].todo == {T2} && txns[2].held == {T1}
  {
    hide Reachable;
    assert FamilyTokens(TWO_ROWS, FAMILY) == {T1, T2};
  }

  lemma RotationOvertakes(s: State)
    requires s.txns.Keys == {0, 1, 2, 3}
    requires s.txns[0] == OPENED && s.txns[1] == ROTATED && s.txns[3] == ROTATION
    requires s.txns[2].Deleting? && s.txns[2].todo == {T2}
    ensures Enabled(s, Commit(3)) && Enabled(Next(s, Commit(3)), Reach(2, T2))
    ensures Enabled(Next(Next(s, Commit(3)), Reach(2, T2)), Commit(2))
  {
    assert Locks(Next(s, Commit(3)).txns[3]) == {};
  }

  /** A replay can be overtaken: from a reachable state its DELETE begins, a rotation of another
      token commits, and the revocation that then commits leaves a live row. */
  lemma RevocationCanBeRaced() returns (s: State)
    ensures Reachable(s) && Enabled(s, REPLAYS)
    ensures var between := [Commit(3), Reach(2, T2)];
            && Valid(Next(s, REPLAYS), between)
            && Enabled(Run(Next(s, REPLAYS), between), Commit(2))
            && FamilyTokens(Next(Run(Next(s, REPLAYS), between), Commit(2)).db.rows, FAMILY) != {}
  {
    s := Races();
    ReachableKeepsInv(s);
    ReplayDooms(s);
    RotationOvertakes(Next(s, REPLAYS));
    hide Inv, Reachable;
    TwoSteps(Next(s, REPLAYS), Commit(3), Reach(2, T2), FAMILY);
    hide Enabled, Next, Valid, Run, Extensions;
    RevocationIsCompleteUnlessRaced(s, REPLAYS, [Commit(3), Reach(2, T2)]);
  }
}
