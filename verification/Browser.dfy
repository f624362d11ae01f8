/** The browser client over the interleaved server: any number of tabs, one cookie jar, rotations
    serialised by a promise per tab and one lock across tabs.

    The calls a page makes, the rotations they wait for, the requests those send, and the cookies
    that come back are one transition system with the server's own steps. */
module Browser {
  import opened Common
  import opened Sessions
  import opened Interleaving

  type Tab = nat

  type CallId = nat

  const REFRESH_PATH := "/auth/refresh"
  const INVALID_SESSION_CODE := "invalid_session"

  /** What came back for a failed request: nothing, or a status with perhaps an error envelope. */
  datatype Response = NoResponse | Answered(status: nat, code: Option<string>, message: Option<string>)

  datatype Failure = ApiError(message: string, code: string, status: nat) | NetworkError

  function Text(field: Option<string>): string {
    if field.Some? then field.value else ""
  }

  function ToFailure(response: Response): Failure {
    match response
    case NoResponse => NetworkError
    case Answered(status, code, message) =>
      if Text(code) == "" || Text(message) == "" then NetworkError
      else ApiError(Text(message), Text(code), status)
  }

  predicate IsInvalidSession(failure: Failure) {
    failure.ApiError? && failure.code == INVALID_SESSION_CODE
  }

  predicate ShouldRotateAndReplay(failure: Failure, url: string, retried: bool) {
    IsInvalidSession(failure) && url != REFRESH_PATH && !retried
  }

  /** One call a page made. sends counts the requests it has cost so far. */
  datatype Call = Call(tab: Tab, url: string, retried: bool, sends: nat, phase: CallPhase)

  datatype CallPhase = Flying | Parked | Settled

  /** Who holds the cross-tab lock, and the refresh it has posted. */
  datatype Lock = Unlocked | Granted(tab: Tab) | Posted(tab: Tab, tx: Tx)

  /** rotating holds the tabs whose refreshInFlight promise is pending. strays and own are history:
      the refreshes the client has given up on, and the families its logins opened. */
  datatype World = World(
    server: State,
    jar: Option<Token>,
    lock: Lock,
    rotating: set<Tab>,
    calls: map<CallId, Call>,
    logins: set<Tx>,
    strays: set<Tx>,
    own: set<Family>)

  const START := World(INITIAL, None, Unlocked, {}, map[], {}, {}, {})

  datatype Action =
    | Send(call: CallId, tab: Tab, url: string)
    | Succeed(call: CallId)
    | Fail(call: CallId, response: Response)
    | Grant(tab: Tab)
    | Post(tx: Tx)
    | FailToPost
    | Deliver
    | Lose
    | SendLogin(tx: Tx, user: nat, family: Family, first: Token, now: Time)
    | DeliverLogin(tx: Tx)
    | DropLogin(tx: Tx)
    | SendLogout(tx: Tx)
    | ClearJar
    | Serve(step: Step)
    | Other(step: Step)

  /** The steps the server takes by itself. */
  predicate Internal(step: Step) {
    !step.Begin? && !step.BeginLogin?
  }

  /** A request by anyone else: a login, or whatever they do with a token that is not of this client's
      families. */
  predicate ByOthers(w: World, step: Step) {
    match step
    case Begin(_, request) =>
      request.token in w.server.db.rows ==> w.server.db.rows[request.token].family !in w.own
    case BeginLogin(_, _, _, _, _) => true
    case _ => false
  }

  predicate Possible(w: World, a: Action) {
    match a
    case Send(call, _, url) => call !in w.calls && url != REFRESH_PATH
    case Succeed(call) => call in w.calls && w.calls[call].phase.Flying?
    case Fail(call, _) => call in w.calls && w.calls[call].phase.Flying?
    case Grant(tab) => w.lock.Unlocked? && tab in w.rotating
    case Post(tx) => w.lock.Granted? && (w.jar.Some? ==> Enabled(w.server, Begin(tx, Refresh(w.jar.value))))
    case FailToPost => w.lock.Granted?
    case Deliver => w.lock.Posted? && w.lock.tx in w.server.txns && w.server.txns[w.lock.tx].Done?
    case Lose => w.lock.Posted?
    case SendLogin(tx, user, family, first, now) => Enabled(w.server, BeginLogin(tx, user, family, first, now))
    case DeliverLogin(tx) =>
      && tx in w.logins && tx in w.server.txns
      && w.server.txns[tx].Done? && w.server.txns[tx].outcome.Opened?
    case DropLogin(tx) => tx in w.logins
    case SendLogout(tx) => w.jar.Some? && Enabled(w.server, Begin(tx, Logout(w.jar.value)))
    case ClearJar => true
    case Serve(step) => Internal(step) && Enabled(w.server, step)
    case Other(step) => ByOthers(w, step) && Enabled(w.server, step)
  }

  /** The rotation of this tab is over: everything that waited for it is replayed, or fails. */
  function Resume(call: Call, tab: Tab, rotated: bool): Call {
    if call.phase.Parked? && call.tab == tab then
      if rotated then call.(retried := true, sends := call.sends + 1, phase := Flying)
      else call.(phase := Settled)
    else call
  }

  function Resolved(w: World, rotated: bool): World
    requires !w.lock.Unlocked?
  {
    w.(lock := Unlocked, rotating := w.rotating - {w.lock.tab},
       calls := map id | id in w.calls :: Resume(w.calls[id], w.lock.tab, rotated))
  }

  /** A failed call either settles or waits for its tab's rotation, starting one if none is pending. */
  function AfterFailure(w: World, id: CallId, response: Response): World
    requires id in w.calls
  {
    var call := w.calls[id];
    if ShouldRotateAndReplay(ToFailure(response), call.url, call.retried) then
      w.(calls := w.calls[id := call.(phase := Parked)], rotating := w.rotating + {call.tab})
    else
      w.(calls := w.calls[id := call.(phase := Settled)])
  }

  function After(w: World, a: Action): World
    requires Possible(w, a)
  {
    match a
    case Send(id, tab, url) => w.(calls := w.calls[id := Call(tab, url, false, 1, Flying)])
    case Succeed(id) => w.(calls := w.calls[id := w.calls[id].(phase := Settled)])
    case Fail(id, response) => AfterFailure(w, id, response)
    case Grant(tab) => w.(lock := Granted(tab))
    case Post(tx) =>
      if w.jar.None? then Resolved(w, false)
      else w.(server := Next(w.server, Begin(tx, Refresh(w.jar.value))), lock := Posted(w.lock.tab, tx))
    case FailToPost => Resolved(w, false)
    case Deliver =>
      var outcome := w.server.txns[w.lock.tx].outcome;
      if outcome.Rotated? then Resolved(w.(jar := Some(outcome.successor)), true) else Resolved(w, false)
    case Lose => Resolved(w.(strays := w.strays + {w.lock.tx}), false)
    case SendLogin(tx, user, family, first, now) =>
      w.(server := Next(w.server, BeginLogin(tx, user, family, first, now)), logins := w.logins + {tx},
         own := w.own + {family})
    case DeliverLogin(tx) => w.(jar := Some(w.server.txns[tx].outcome.first), logins := w.logins - {tx})
    case DropLogin(tx) => w.(logins := w.logins - {tx})
    case SendLogout(tx) => w.(server := Next(w.server, Begin(tx, Logout(w.jar.value))))
    case ClearJar => w.(jar := None)
    case Serve(step) => w.(server := Next(w.server, step))
    case Other(step) => w.(server := Next(w.server, step))
  }

  predicate Feasible(w: World, actions: seq<Action>)
    decreases |actions|
  {
    actions == [] || (Possible(w, actions[0]) && Feasible(After(w, actions[0]), actions[1..]))
  }

  function Reached(w: World, actions: seq<Action>): World
    requires Feasible(w, actions)
    decreases |actions|
  {
    if actions == [] then w else Reached(After(w, actions[0]), actions[1..])
  }

  /** Some refresh in one of this client's families has found its token already used. */
  ghost predicate InReuseBranch(w: World) {
    exists x :: x in w.server.txns && FoundSpent(w.server.txns[x], w.own)
  }

  predicate FoundSpent(phase: Phase, own: set<Family>) {
    phase.Holding? && phase.request.Refresh? && phase.row.usedAt.Some? && phase.row.family in own
  }

  // The invariant while no refresh is given up on that matters.

  /** A refresh that has not been answered. */
  predicate Refreshing(phase: Phase) {
    phase.Writing? || ((phase.Waiting? || phase.Holding? || phase.Deleting?) && phase.request.Refresh?)
  }

  /** Presenting the token is no replay: it has not been exchanged, or its row is gone. */
  predicate Harmless(db: Db, t: Token) {
    t in db.place && (IsSpent(db, t) ==> t !in db.rows)
  }

  /** What the posted refresh may be doing: its token is harmless until it spends it, and then the
      successor it is about to deliver is. */
  ghost predicate PostedInv(db: Db, phase: Phase) {
    match phase
    case Waiting(Refresh(token)) => Harmless(db, token)
    case Holding(Refresh(token), _) => Harmless(db, token)
    case Writing(token, _, _, _) => Harmless(db, token)
    case Done(Rotated(_, successor)) => Harmless(db, successor)
    case Done(Refused(_)) => true
    case Done(Aborted) => true
    case _ => false
  }

  predicate IsPosted(w: World, x: Tx) {
    w.lock.Posted? && w.lock.tx == x
  }

  predicate InOwn(db: Db, own: set<Family>, t: Token) {
    t in db.place && db.place[t].family in own
  }

  /** A refresh of somebody else's, that presents nothing of this client's and revokes none of it. */
  ghost predicate IsOthers(db: Db, own: set<Family>, phase: Phase) {
    && (forall t | Presents(phase, t) :: t in db.place && db.place[t].family !in own)
    && (phase.Deleting? ==> phase.family in db.chains && phase.family !in own)
  }

  /** Under way are the posted refresh, strays, and refreshes of others; and neither of the first two
      is revoking anything. */
  ghost predicate LockInv(w: World) {
    && (forall x | x in w.server.txns && Refreshing(w.server.txns[x]) ::
          || IsPosted(w, x)
          || (x in w.strays && !w.server.txns[x].Deleting?)
          || IsOthers(w.server.db, w.own, w.server.txns[x]))
    && (w.lock.Posted? ==> w.lock.tx in w.server.txns && PostedInv(w.server.db, w.server.txns[w.lock.tx]))
    && (w.lock.Posted? ==> w.lock.tx !in w.strays)
  }

  /** The transaction answered with a pair for this token. */
  predicate WasExchanged(phase: Phase, t: Token) {
    phase.Done? && phase.outcome.Rotated? && phase.outcome.token == t
  }

  /** The posted refresh was answered with a pair for this token, not yet delivered. */
  predicate WasKept(w: World, t: Token) {
    w.lock.Posted? && w.lock.tx in w.server.txns && WasExchanged(w.server.txns[w.lock.tx], t)
  }

  /** The jar's token is harmless, unless its successor is on the way. */
  ghost predicate JarInv(w: World) {
    w.jar.Some? ==>
      && w.jar.value in w.server.db.place
      && (Harmless(w.server.db, w.jar.value) || WasKept(w, w.jar.value))
  }

  /** A login's token on its way to the jar is harmless, and nobody else has it. */
  ghost predicate LoginInv(w: World, x: Tx) {
    && x in w.server.txns
    && var phase := w.server.txns[x];
       && (phase.Opening? || (phase.Done? && (phase.outcome.Opened? || phase.outcome.Aborted?)))
       && (phase.Done? && phase.outcome.Opened? ==>
             && Harmless(w.server.db, phase.outcome.first)
             && w.jar != Some(phase.outcome.first)
             && (w.lock.Posted? && w.lock.tx in w.server.txns ==>
                   !Presents(w.server.txns[w.lock.tx], phase.outcome.first)))
  }

  /** The token is the answer to be delivered. */
  predicate Delivers(phase: Phase, t: Token) {
    && phase.Done?
    && ((phase.outcome.Rotated? && phase.outcome.successor == t) || (phase.outcome.Opened? && phase.outcome.first == t))
  }

  /** The client has the token, is presenting it, or has it on the way. */
  ghost predicate InHands(w: World, t: Token) {
    || w.jar == Some(t)
    || (w.lock.Posted? && w.lock.tx in w.server.txns
        && (Presents(w.server.txns[w.lock.tx], t) || Delivers(w.server.txns[w.lock.tx], t)))
    || exists x :: x in w.logins && x in w.server.txns && Delivers(w.server.txns[x], t)
  }

  predicate StrayPresents(w: World, x: Tx, t: Token) {
    x in w.strays && x in w.server.txns && Presents(w.server.txns[x], t)
  }

  /** A stray that is under way has a token nobody else will use, or one that is revoked. */
  ghost predicate StraysInv(w: World) {
    && w.strays <= w.server.txns.Keys
    && (forall x, t | StrayPresents(w, x, t) ::
          && Harmless(w.server.db, t)
          && (t in w.server.db.rows ==> !InHands(w, t) && forall y | StrayPresents(w, y, t) :: y == x))
  }

  /** Whatever the client uses or is about to use is of the families its logins opened. */
  ghost predicate OwnInv(w: World) {
    && w.own <= w.server.db.families
    && (forall t | InHands(w, t) :: InOwn(w.server.db, w.own, t))
    && (forall x, t | StrayPresents(w, x, t) :: InOwn(w.server.db, w.own, t))
    && (forall x | x in w.logins && x in w.server.txns && w.server.txns[x].Opening? ::
          w.server.txns[x].row.family in w.own)
  }

  ghost predicate BrowserInv(w: World) {
    && Inv(w.server)
    && OwnInv(w)
    && LockInv(w)
    && JarInv(w)
    && StraysInv(w)
    && (forall x | x in w.logins :: LoginInv(w, x))
  }

  lemma StartInv()
    ensures BrowserInv(START)
  {}

  /** A server step spends one token at most: the one whose exchange it commits. */
  lemma StepExchanges(s: State, step: Step, t: Token)
    requires Inv(s) && Enabled(s, step) && t in s.db.place
    ensures t in Next(s, step).db.place
    ensures !IsSpent(s.db, t) ==>
              (IsSpent(Next(s, step).db, t) <==> step.Commit? && s.txns[step.tx].Writing? && s.txns[step.tx].token == t)
  {
    hide Apart;
    if step.Commit? {
      var phase := s.txns[step.tx];
      assert PhaseInv(s.db, phase);
      match phase {
        case Writing(token, _, successor, row) =>
          assert row.family in s.db.families && s.db.place[token].family == row.family;
          AppendExtendsHistory(s.db, row.family, successor);
          if !IsSpent(s.db, t) && t != token && s.db.place[t].family == row.family {
            SpentUnlessLast(s.db, t, token);
          }
          hide HistoryInv, TableInv;
        case Opening(first, row) =>
          AppendExtendsHistory(s.db, row.family, first);
        case Deleting(_, _, _, _, _, _) =>
      }
    }
  }

  /** A row that is gone does not come back, and an exchange leaves the old row in place. */
  lemma StepKeepsRows(s: State, step: Step, t: Token)
    requires Inv(s) && Enabled(s, step) && t in s.db.place
    ensures t !in s.db.rows ==> t !in Next(s, step).db.rows
    ensures step.Commit? && s.txns[step.tx].Writing? && s.txns[step.tx].token == t ==>
              t in s.db.rows && t in Next(s, step).db.rows
  {
    hide Apart, HistoryInv, TableInv;
    if step.Commit? {
      assert PhaseInv(s.db, s.txns[step.tx]);
    }
  }

  lemma WrittenIsUnspent(s: State, x: Tx)
    requires Inv(s) && x in s.txns && s.txns[x].Writing?
    ensures !IsSpent(s.db, s.txns[x].token)
  {
    hide Apart;
    assert PhaseInv(s.db, s.txns[x]);
  }

  lemma StepSpends(s: State, step: Step, t: Token)
    requires Inv(s) && Enabled(s, step)
    ensures t in s.db.place ==> t in Next(s, step).db.place
    ensures Harmless(s.db, t) ==>
              (Harmless(Next(s, step).db, t)
               <==> !(step.Commit? && s.txns[step.tx].Writing? && s.txns[step.tx].token == t))
  {
    hide Inv, Next, IsSpent;
    if t in s.db.place {
      StepExchanges(s, step, t);
      StepKeepsRows(s, step, t);
      if step.Commit? && s.txns[step.tx].Writing? && s.txns[step.tx].token == t {
        WrittenIsUnspent(s, step.tx);
      }
    }
  }

  /** Committing an exchange leaves the successor harmless. */
  lemma SuccessorIsHarmless(s: State, tx: Tx)
    requires Inv(s) && Enabled(s, Commit(tx)) && s.txns[tx].Writing?
    ensures Harmless(Next(s, Commit(tx)).db, s.txns[tx].successor)
  {
    hide Apart;
    assert PhaseInv(s.db, s.txns[tx]);
    var Writing(token, _, successor, row) := s.txns[tx];
    assert row.family in s.db.families;
    AppendExtendsHistory(s.db, row.family, successor);
    hide HistoryInv, TableInv;
  }

  lemma FirstIsHarmless(s: State, tx: Tx)
    requires Inv(s) && Enabled(s, Commit(tx)) && s.txns[tx].Opening?
    ensures Harmless(Next(s, Commit(tx)).db, s.txns[tx].first)
  {
    hide Apart;
    assert PhaseInv(s.db, s.txns[tx]);
    AppendExtendsHistory(s.db, s.txns[tx].row.family, s.txns[tx].first);
    hide HistoryInv, TableInv;
  }

  lemma HeldHarmlessRowIsUnspent(s: State, x: Tx)
    requires Inv(s) && x in s.txns && s.txns[x].Holding? && Harmless(s.db, s.txns[x].request.token)
    ensures s.txns[x].row.usedAt.None?
  {
    hide Apart;
    assert PhaseInv(s.db, s.txns[x]);
  }

  predicate Commits(s: State, step: Step, t: Token) {
    step.Commit? && step.tx in s.txns && s.txns[step.tx].Writing? && s.txns[step.tx].token == t
  }

  lemma CommittedIsStored(s: State, step: Step, t: Token)
    requires Inv(s) && Commits(s, step, t)
    ensures t in s.db.rows
  {
    hide Apart, DbInv;
    assert PhaseInv(s.db, s.txns[step.tx]);
  }

  lemma WriterIsKnown(w: World, x: Tx)
    requires LockInv(w) && x in w.server.txns && w.server.txns[x].Writing?
    ensures var t := w.server.txns[x].token;
            || IsPosted(w, x) || StrayPresents(w, x, t)
            || (t in w.server.db.place && w.server.db.place[t].family !in w.own)
  {
    hide PostedInv;
  }

  /** What is in the client's hands is spent by the posted refresh alone. */
  lemma HarmlessUnlessPostedSpends(w: World, step: Step, t: Token)
    requires BrowserInv(w) && Internal(step) && Enabled(w.server, step) && Harmless(w.server.db, t) && InHands(w, t)
    requires !(IsPosted(w, step.tx) && Commits(w.server, step, t))
    ensures Harmless(Next(w.server, step).db, t)
  {
    hide Inv, Harmless, InHands, PostedInv, JarInv, LoginInv;
    StepSpends(w.server, step, t);
    if Commits(w.server, step, t) {
      CommittedIsStored(w.server, step, t);
      WriterIsKnown(w, step.tx);
      assert false;
    }
  }

  /** A step of another transaction leaves the posted refresh as it was. */
  lemma PostedIsLeftAlone(w: World, step: Step)
    requires BrowserInv(w) && Internal(step) && Enabled(w.server, step) && w.lock.Posted? && step.tx != w.lock.tx
    ensures PostedInv(Next(w.server, step).db, w.server.txns[w.lock.tx])
  {
    hide Inv, Enabled, Next, StraysInv, JarInv, LoginInv, Harmless;
    var phase := w.server.txns[w.lock.tx];
    match phase
    case Waiting(Refresh(token)) => HarmlessUnlessPostedSpends(w, step, token);
    case Holding(Refresh(token), _) => HarmlessUnlessPostedSpends(w, step, token);
    case Writing(token, _, _, _) => HarmlessUnlessPostedSpends(w, step, token);
    case Done(Rotated(_, successor)) => HarmlessUnlessPostedSpends(w, step, successor);
    case _ =>
  }

  lemma PostedCommits(s: State, tx: Tx)
    requires Inv(s) && Enabled(s, Commit(tx)) && s.txns[tx].Writing?
    ensures PostedInv(Next(s, Commit(tx)).db, Next(s, Commit(tx)).txns[tx])
  {
    hide Inv, Harmless, Append;
    SuccessorIsHarmless(s, tx);
    assert Next(s, Commit(tx)).txns[tx] == Done(Rotated(s.txns[tx].token, s.txns[tx].successor));
    hide Next, Enabled;
  }

  lemma PostedDecides(s: State, step: Step)
    requires Inv(s) && Enabled(s, step) && step.Decide? && PostedInv(s.db, s.txns[step.tx])
    ensures PostedInv(Next(s, step).db, Next(s, step).txns[step.tx])
  {
    hide Inv, FamilyTokens;
    HeldHarmlessRowIsUnspent(s, step.tx);
  }

  /** The posted refresh never comes to a DELETE: when it gets the row, the row is unspent. */
  lemma PostedGoesOn(s: State, step: Step)
    requires Inv(s) && Enabled(s, step) && Internal(step) && PostedInv(s.db, s.txns[step.tx])
    ensures PostedInv(Next(s, step).db, Next(s, step).txns[step.tx])
  {
    hide Inv, Harmless;
    if step.Commit? {
      PostedCommits(s, step.tx);
    } else if step.Decide? {
      PostedDecides(s, step);
    }
  }

  lemma RefreshingStarted(s: State, step: Step)
    requires Internal(step) && Enabled(s, step) && Refreshing(Next(s, step).txns[step.tx])
    ensures step.tx in s.txns && Refreshing(s.txns[step.tx])
  {}

  lemma ServeKeepsPosted(w: World, step: Step)
    requires BrowserInv(w) && Internal(step) && Enabled(w.server, step) && w.lock.Posted?
    ensures w.lock.tx in Next(w.server, step).txns
    ensures PostedInv(Next(w.server, step).db, Next(w.server, step).txns[w.lock.tx])
  {
    if step.tx == w.lock.tx {
      PostedGoesOn(w.server, step);
    } else {
      PostedIsLeftAlone(w, step);
    }
    hide Inv, PostedInv, Enabled, Effect;
  }

  /** A stray never comes to a DELETE either. */
  lemma StrayGoesOn(w: World, step: Step)
    requires BrowserInv(w) && Internal(step) && Enabled(w.server, step) && step.tx in w.strays
    requires !w.server.txns[step.tx].Deleting?
    ensures Refreshing(Next(w.server, step).txns[step.tx]) ==> !Next(w.server, step).txns[step.tx].Deleting?
  {
    hide InHands, PostedInv, JarInv, LoginInv;
    var phase := w.server.txns[step.tx];
    if step.Decide? && phase.request.Refresh? {
      assert StrayPresents(w, step.tx, phase.request.token);
      HeldHarmlessRowIsUnspent(w.server, step.tx);
    }
    hide Inv, StraysInv, Harmless;
  }

  /** No token loses its place, and no family its chain. */
  lemma StepKeepsPlaces(s: State, step: Step)
    requires Inv(s) && Enabled(s, step)
    ensures forall t | t in s.db.place ::
              t in Next(s, step).db.place && Next(s, step).db.place[t] == s.db.place[t]
    ensures s.db.chains.Keys <= Next(s, step).db.chains.Keys
  {
    hide DbInv, Apart;
    if step.Commit? {
      assert PhaseInv(s.db, s.txns[step.tx]);
    }
  }

  lemma OthersStay(db: Db, db': Db, own: set<Family>, own': set<Family>, phase: Phase)
    requires IsOthers(db, own, phase)
    requires forall t | t in db.place :: t in db'.place && db'.place[t] == db.place[t]
    requires db.chains.Keys <= db'.chains.Keys
    requires forall f | f in own' && f !in own ::
               f !in db.chains && forall t | t in db.place :: db.place[t].family != f
    ensures IsOthers(db', own', phase)
  {
    hide Presents;
  }

  /** Somebody else's refresh goes on being about their own family. */
  lemma OthersGoOn(s: State, own: set<Family>, step: Step)
    requires Inv(s) && Internal(step) && Enabled(s, step) && IsOthers(s.db, own, s.txns[step.tx])
    requires Refreshing(s.txns[step.tx]) && Refreshing(Next(s, step).txns[step.tx])
    ensures IsOthers(Next(s, step).db, own, Next(s, step).txns[step.tx])
  {
    if step.Decide? {
      HeldFamily(s, step.tx);
      assert Presents(s.txns[step.tx], s.txns[step.tx].request.token);
    }
    hide Inv, FamilyTokens, Issuances;
    GoingOnMovesNothing(s, step);
  }

  lemma GoingOnMovesNothing(s: State, step: Step)
    requires Internal(step) && Enabled(s, step) && Refreshing(Next(s, step).txns[step.tx])
    ensures step.Acquire? || step.Decide? || step.Reach?
    ensures Next(s, step).db.place == s.db.place && Next(s, step).db.chains == s.db.chains
  {}

  lemma HeldFamily(s: State, x: Tx)
    requires Inv(s) && x in s.txns && s.txns[x].Holding?
    ensures var t := s.txns[x].request.token;
            && t in s.db.rows && s.db.rows[t] == s.txns[x].row
            && t in s.db.place && s.db.place[t].family == s.txns[x].row.family && s.txns[x].row.family in s.db.chains
  {
    hide Apart;
    assert PhaseInv(s.db, s.txns[x]);
  }

  lemma ServeKeepsLock(w: World, step: Step)
    requires BrowserInv(w) && Internal(step) && Enabled(w.server, step)
    ensures LockInv(After(w, Serve(step)))
  {
    hide Inv, OwnInv, PostedInv, Enabled, Effect, Refreshing, StraysInv, JarInv, LoginInv, IsOthers;
    var w' := After(w, Serve(step));
    if w.lock.Posted? {
      ServeKeepsPosted(w, step);
    }
    forall x | x in w'.server.txns && Refreshing(w'.server.txns[x])
      ensures || IsPosted(w', x)
              || (x in w'.strays && !w'.server.txns[x].Deleting?)
              || IsOthers(w'.server.db, w'.own, w'.server.txns[x])
    {
      if x == step.tx {
        RefreshingStarted(w.server, step);
        if x in w.strays && !w.server.txns[x].Deleting? {
          StrayGoesOn(w, step);
        } else if !IsPosted(w, x) {
          OthersGoOn(w.server, w.own, step);
        }
      } else if IsOthers(w.server.db, w.own, w.server.txns[x]) {
        StepKeepsPlaces(w.server, step);
        OthersStay(w.server.db, w'.server.db, w.own, w.own, w.server.txns[x]);
      }
    }
  }

  lemma CommitExchanges(s: State, step: Step, t: Token)
    requires Enabled(s, step) && Commits(s, step, t)
    ensures WasExchanged(Next(s, step).txns[step.tx], t)
  {}

  lemma AnswersStay(s: State, step: Step, x: Tx, t: Token)
    requires Enabled(s, step) && x in s.txns && WasExchanged(s.txns[x], t)
    ensures x in Next(s, step).txns && WasExchanged(Next(s, step).txns[x], t)
  {}

  lemma StepMoves(s: State, step: Step)
    requires Enabled(s, step) && Internal(step)
    ensures step.tx in s.txns && Next(s, step).txns.Keys == s.txns.Keys
    ensures forall x | x in s.txns && x != step.tx :: Next(s, step).txns[x] == s.txns[x]
  {}

  lemma ServeKeepsJar(w: World, step: Step)
    requires BrowserInv(w) && Internal(step) && Enabled(w.server, step)
    ensures JarInv(After(w, Serve(step)))
  {
    hide Inv, StraysInv, PostedInv, LoginInv, Next, Enabled, Harmless, Commits, WasExchanged;
    if w.jar.Some? {
      var t := w.jar.value;
      StepSpends(w.server, step, t);
      StepMoves(w.server, step);
      if WasKept(w, t) {
        AnswersStay(w.server, step, w.lock.tx, t);
      } else if IsPosted(w, step.tx) && Commits(w.server, step, t) {
        CommitExchanges(w.server, step, t);
      } else {
        HarmlessUnlessPostedSpends(w, step, t);
      }
    }
  }

  /** A step of the server presents no token that was not presented before. */
  lemma StepPresents(s: State, step: Step, t: Token)
    requires Internal(step) && Enabled(s, step)
    ensures step.tx in s.txns && step.tx in Next(s, step).txns
    ensures Presents(Next(s, step).txns[step.tx], t) ==> Presents(s.txns[step.tx], t)
  {}

  lemma ServeKeepsDeliveredLogin(w: World, step: Step, x: Tx)
    requires Possible(w, Serve(step)) && BrowserInv(w) && x in w.logins
    requires w.server.txns[x].Done? && w.server.txns[x].outcome.Opened?
    ensures LoginInv(After(w, Serve(step)), x)
  {
    hide Inv, StraysInv, PostedInv, Harmless, JarInv;
    var first := w.server.txns[x].outcome.first;
    assert Delivers(w.server.txns[x], first);
    if IsPosted(w, step.tx) && Commits(w.server, step, first) {
      assert false;
    }
    HarmlessUnlessPostedSpends(w, step, first);
    StepPresents(w.server, step, first);
    hide InHands;
  }

  lemma ServeKeepsOpeningLogin(w: World, step: Step, x: Tx)
    requires Possible(w, Serve(step)) && BrowserInv(w) && x in w.logins
    requires w.server.txns[x].Opening?
    ensures LoginInv(After(w, Serve(step)), x)
  {
    hide Inv, Harmless;
    if step == Commit(x) {
      FirstIsHarmless(w.server, x);
      FirstIsNew(w, x);
    }
    hide JarInv, LockInv;
  }

  lemma ServeKeepsLogin(w: World, step: Step, x: Tx)
    requires Possible(w, Serve(step)) && BrowserInv(w) && x in w.logins
    ensures LoginInv(After(w, Serve(step)), x)
  {
    hide Inv;
    if w.server.txns[x].Opening? {
      ServeKeepsOpeningLogin(w, step, x);
    } else if w.server.txns[x].outcome.Opened? {
      ServeKeepsDeliveredLogin(w, step, x);
    }
  }

  /** A login's token is in no one's hands before it is committed. */
  lemma FirstIsNew(w: World, x: Tx)
    requires BrowserInv(w) && x in w.server.txns && w.server.txns[x].Opening?
    ensures w.jar != Some(w.server.txns[x].first)
    ensures w.lock.Posted? && w.lock.tx in w.server.txns ==> !Presents(w.server.txns[w.lock.tx], w.server.txns[x].first)
  {
    hide Apart;
    assert PhaseInv(w.server.db, w.server.txns[x]);
  }

  /** A step that delivers a token has just issued it. */
  lemma StepDelivers(s: State, step: Step, t: Token)
    requires Inv(s) && Internal(step) && Enabled(s, step) && t in s.db.place
    ensures step.tx in s.txns && step.tx in Next(s, step).txns
    ensures !Delivers(Next(s, step).txns[step.tx], t)
  {
    hide Apart, DbInv;
    assert PhaseInv(s.db, s.txns[step.tx]);
  }

  /** A token in the client's hands after a step was there before, if it was issued before. */
  lemma StepKeepsHands(w: World, step: Step, t: Token)
    requires Inv(w.server) && Internal(step) && Enabled(w.server, step) && t in w.server.db.place
    ensures InHands(After(w, Serve(step)), t) ==> InHands(w, t)
  {
    StepPresents(w.server, step, t);
    StepDelivers(w.server, step, t);
    hide Inv, Presents, Delivers, Enabled, Effect;
  }

  lemma WriterPresents(phase: Phase)
    requires phase.Writing?
    ensures Presents(phase, phase.token)
  {}

  lemma WrittenFamily(s: State, x: Tx)
    requires Inv(s) && x in s.txns && s.txns[x].Writing?
    ensures s.txns[x].token in s.db.place && s.db.place[s.txns[x].token].family == s.txns[x].row.family
  {
    hide Apart;
    assert PhaseInv(s.db, s.txns[x]);
  }

  /** A step that delivers a token is the commit that issued it. */
  lemma DeliveryIsACommit(s: State, step: Step, t: Token)
    requires Inv(s) && Internal(step) && Enabled(s, step) && t !in s.db.place
    requires Delivers(Next(s, step).txns[step.tx], t)
    ensures step.tx in s.txns && (s.txns[step.tx].Writing? || s.txns[step.tx].Opening?)
    ensures t in Next(s, step).db.place && Next(s, step).db.place[t].family == s.txns[step.tx].row.family
  {
    hide Apart, DbInv;
    assert PhaseInv(s.db, s.txns[step.tx]);
  }

  /** What comes into the client's hands by a step, and was not issued before, is delivered by it. */
  lemma NewInHandsIsDelivered(w: World, step: Step, t: Token)
    requires OwnInv(w) && Internal(step) && Enabled(w.server, step)
    requires t !in w.server.db.place && InHands(After(w, Serve(step)), t)
    ensures step.tx in Next(w.server, step).txns && Delivers(Next(w.server, step).txns[step.tx], t)
    ensures IsPosted(w, step.tx) || step.tx in w.logins
  {
    StepPresents(w.server, step, t);
    StepMoves(w.server, step);
    assert !InHands(w, t);
    hide OwnInv, Presents, Delivers, Enabled, Next;
  }

  /** The posted transaction is no login, and no login is a rotation. */
  ghost predicate RightRoles(w: World) {
    && (w.lock.Posted? ==> w.lock.tx in w.server.txns && !w.server.txns[w.lock.tx].Opening?)
    && (forall x | x in w.logins ::
          x in w.server.txns && (w.server.txns[x].Opening? || w.server.txns[x].Done?))
    && w.strays <= w.server.txns.Keys
  }

  lemma RolesAreRight(w: World)
    requires BrowserInv(w)
    ensures RightRoles(w)
  {
    hide Inv, OwnInv, JarInv, Harmless, Presents, InHands;
  }

  lemma PostedIsOwn(w: World, t: Token)
    requires OwnInv(w) && w.lock.Posted? && w.lock.tx in w.server.txns && Presents(w.server.txns[w.lock.tx], t)
    ensures InOwn(w.server.db, w.own, t)
  {
    assert InHands(w, t);
  }

  /** A token newly delivered is of the family of the token exchanged, or of the login's. */
  lemma NewInHandsIsOwn(w: World, step: Step, t: Token)
    requires Inv(w.server) && OwnInv(w) && Internal(step) && Enabled(w.server, step)
    requires RightRoles(w)
    requires t !in w.server.db.place && InHands(After(w, Serve(step)), t)
    ensures InOwn(Next(w.server, step).db, w.own, t)
  {
    NewInHandsIsDelivered(w, step, t);
    DeliveryIsACommit(w.server, step, t);
    hide Inv, InHands, Enabled, Next, Presents, Delivers;
    var phase := w.server.txns[step.tx];
    if phase.Writing? {
      WriterPresents(phase);
      WrittenFamily(w.server, step.tx);
      PostedIsOwn(w, phase.token);
    }
  }

  lemma HandsStayOwn(w: World, step: Step, t: Token)
    requires Inv(w.server) && OwnInv(w) && Internal(step) && Enabled(w.server, step) && RightRoles(w)
    requires InHands(After(w, Serve(step)), t)
    ensures InOwn(Next(w.server, step).db, w.own, t)
  {
    StepKeepsPlaces(w.server, step);
    if t in w.server.db.place {
      StepKeepsHands(w, step, t);
      hide Inv, InHands, Enabled, Next, StrayPresents;
    } else {
      NewInHandsIsOwn(w, step, t);
    }
  }

  lemma ServeKeepsOwn(w: World, step: Step)
    requires Inv(w.server) && OwnInv(w) && Internal(step) && Enabled(w.server, step)
    requires RightRoles(w)
    ensures OwnInv(After(w, Serve(step)))
  {
    hide Inv, InHands, Presents, Enabled, Effect, RightRoles;
    var w' := After(w, Serve(step));
    StepKeepsPlaces(w.server, step);
    StepMoves(w.server, step);
    forall t | InHands(w', t)
      ensures InOwn(w'.server.db, w.own, t)
    {
      HandsStayOwn(w, step, t);
    }
    forall x, t | StrayPresents(w', x, t)
      ensures StrayPresents(w, x, t)
    {
      StepPresents(w.server, step, t);
    }
    StepOpensNothing(w.server, step);
  }

  lemma StepOpensNothing(s: State, step: Step)
    requires Internal(step) && Enabled(s, step)
    ensures step.tx in s.txns && step.tx in Next(s, step).txns && !Next(s, step).txns[step.tx].Opening?
    ensures s.db.families <= Next(s, step).db.families
  {}

  lemma ServeKeepsStrays(w: World, step: Step)
    requires BrowserInv(w) && Internal(step) && Enabled(w.server, step)
    ensures StraysInv(After(w, Serve(step)))
  {
    hide Inv, InHands, Harmless, PostedInv, JarInv, LoginInv, Enabled, Effect;
    var w' := After(w, Serve(step));
    forall x, t | StrayPresents(w', x, t)
      ensures StrayPresents(w, x, t)
    {
      StepPresents(w.server, step, t);
    }
    forall x, t | StrayPresents(w', x, t)
      ensures Harmless(w'.server.db, t)
      ensures t in w'.server.db.rows ==> t in w.server.db.rows && !InHands(w', t)
    {
      StrayIsPlaced(w, x, t);
      StepKeepsRows(w.server, step, t);
      StepKeepsHands(w, step, t);
      StrayIsUnspent(w, step, x, t);
    }
  }

  lemma StrayIsPlaced(w: World, x: Tx, t: Token)
    requires StraysInv(w) && StrayPresents(w, x, t)
    ensures t in w.server.db.place && Harmless(w.server.db, t)
  {}

  /** Nobody but the stray itself spends its token, and then it no longer presents it. */
  lemma StrayIsUnspent(w: World, step: Step, x: Tx, t: Token)
    requires Possible(w, Serve(step)) && BrowserInv(w)
    requires StrayPresents(w, x, t) && StrayPresents(After(w, Serve(step)), x, t)
    ensures Harmless(After(w, Serve(step)).server.db, t)
  {
    hide Inv, Harmless, PostedInv, JarInv, LoginInv;
    StepSpends(w.server, step, t);
    if Commits(w.server, step, t) {
      CommittedIsStored(w.server, step, t);
      CommitExchanges(w.server, step, t);
      WriterIsKnown(w, step.tx);
      assert false;
    }
  }

  /** Strays are left as they are when the tables are, and nothing they present comes into the
      client's hands. */
  lemma StraysKept(w: World, w': World)
    requires StraysInv(w) && w'.strays == w.strays <= w'.server.txns.Keys
    requires w'.server.db.place == w.server.db.place && w'.server.db.chains == w.server.db.chains
    requires w'.server.db.rows == w.server.db.rows
    requires forall x | x in w.strays :: w'.server.txns[x] == w.server.txns[x]
    requires forall t | InHands(w', t) :: InHands(w, t)
    ensures StraysInv(w')
  {
    assert forall t :: Harmless(w'.server.db, t) <==> Harmless(w.server.db, t);
    hide InHands, Harmless, Presents;
    assert forall x, t :: StrayPresents(w', x, t) <==> StrayPresents(w, x, t);
  }

  /** The same for the client's own tokens, when it comes by no new ones. */
  lemma OwnKept(w: World, w': World)
    requires OwnInv(w) && w.own <= w'.own <= w'.server.db.families && w'.server.db.place == w.server.db.place
    requires forall t | InHands(w', t) :: InHands(w, t)
    requires forall x, t | StrayPresents(w', x, t) :: StrayPresents(w, x, t) || InHands(w, t)
    requires forall x | x in w'.logins && x in w'.server.txns && w'.server.txns[x].Opening? ::
               w'.server.txns[x].row.family in w'.own
    ensures OwnInv(w')
  {
    hide InHands, Presents;
  }

  /** Actions that leave the server and its answers alone. */
  predicate IsLocal(a: Action) {
    a.Send? || a.Succeed? || a.Fail? || a.Grant? || a.FailToPost? || a.ClearJar? || a.DropLogin?
  }

  lemma LocalActionTakesNothing(w: World, a: Action)
    requires Possible(w, a) && IsLocal(a)
    ensures var w' := After(w, a);
            && w'.server == w.server && w'.strays == w.strays && w'.logins <= w.logins && w'.own == w.own
            && (w'.lock == w.lock || (!w.lock.Posted? && !w'.lock.Posted?))
            && (w'.jar == w.jar || w'.jar.None?)
    ensures forall t | InHands(After(w, a), t) :: InHands(w, t)
  {
    hide Presents, Delivers;
  }

  lemma LocalActionKeepsInv(w: World, a: Action)
    requires BrowserInv(w) && Possible(w, a) && IsLocal(a)
    ensures BrowserInv(After(w, a))
  {
    hide After, Possible, InHands, StraysInv, OwnInv;
    LocalActionTakesNothing(w, a);
    ClientMoves(w, After(w, a));
    hide Inv, PostedInv, Harmless, Refreshing, Presents, Delivers, IsOthers;
  }

  lemma ServeKeepsInv(w: World, step: Step)
    requires BrowserInv(w) && Possible(w, Serve(step))
    ensures BrowserInv(After(w, Serve(step)))
  {
    NextKeepsInv(w.server, step);
    RolesAreRight(w);
    ServeKeepsOwn(w, step);
    ServeKeepsLock(w, step);
    ServeKeepsJar(w, step);
    ServeKeepsStrays(w, step);
    forall x | x in w.logins
      ensures LoginInv(After(w, Serve(step)), x)
    {
      ServeKeepsLogin(w, step, x);
    }
    hide Inv, OwnInv, LockInv, JarInv, StraysInv, LoginInv, RightRoles, Enabled, Next;
  }

  lemma PostedNeedsOnlyTables(db: Db, db': Db, phase: Phase)
    requires PostedInv(db, phase) && db.place == db'.place && db.chains == db'.chains && db.rows == db'.rows
    ensures PostedInv(db', phase)
  {}

  /** Families that are new are nobody's yet. */
  lemma NewFamilyIsNobodys(db: Db, family: Family)
    requires DbInv(db) && family !in db.families
    ensures family !in db.chains && forall t | t in db.place :: db.place[t].family != family
  {}

  /** A new transaction of somebody else's, a login or a logout disturbs nothing. */
  lemma NewcomerKeepsInv(w: World, w': World, tx: Tx, phase: Phase)
    requires BrowserInv(w) && Inv(w'.server) && tx !in w.server.txns
    requires w'.server.txns == w.server.txns[tx := phase] && forall t :: !Delivers(phase, t)
    requires Refreshing(phase) ==> IsOthers(w.server.db, w.own, phase)
    requires w'.server.db.place == w.server.db.place && w'.server.db.chains == w.server.db.chains
    requires w'.server.db.rows == w.server.db.rows
    requires w'.jar == w.jar && w'.lock == w.lock && w'.strays == w.strays
    requires w.own <= w'.own <= w'.server.db.families && (w'.own - w.own) !! w.server.db.families
    requires w'.logins == w.logins || (w'.logins == w.logins + {tx} && phase.Opening? && phase.row.family in w'.own)
    ensures BrowserInv(w')
  {
    forall f | f in w'.own - w.own
      ensures f !in w.server.db.chains && forall t | t in w.server.db.place :: w.server.db.place[t].family != f
    {
      NewFamilyIsNobodys(w.server.db, f);
    }
    NewcomerKeepsRest(w, w', tx, phase);
    hide Inv, Harmless, IsOthers, StraysInv, OwnInv, PostedInv, JarInv, LoginInv, InHands, Delivers, Refreshing,
         Presents;
    if w.lock.Posted? {
      PostedNeedsOnlyTables(w.server.db, w'.server.db, w.server.txns[w.lock.tx]);
    }
    NewcomerTakesNothing(w, w', tx, phase);
    NewcomerKeepsLock(w, w', tx, phase);
    NewcomerKeepsClaims(w, w', tx, phase);
  }

  lemma NewcomerKeepsRest(w: World, w': World, tx: Tx, phase: Phase)
    requires JarInv(w) && (forall x | x in w.logins :: LoginInv(w, x))
    requires w.lock.Posted? ==> w.lock.tx in w.server.txns
    requires tx !in w.server.txns && w'.server.txns == w.server.txns[tx := phase]
    requires w'.server.db.place == w.server.db.place && w'.server.db.chains == w.server.db.chains
    requires w'.server.db.rows == w.server.db.rows && w'.jar == w.jar && w'.lock == w.lock
    requires w'.logins == w.logins || (w'.logins == w.logins + {tx} && phase.Opening?)
    ensures JarInv(w') && tx !in w.logins && forall x | x in w'.logins :: LoginInv(w', x)
  {
    SameTablesSameHarm(w.server.db, w'.server.db);
    hide Harmless, Presents;
    assert forall x | x in w.logins :: x in w.server.txns;
  }

  lemma SameTablesSameHarm(db: Db, db': Db)
    requires db.place == db'.place && db.chains == db'.chains && db.rows == db'.rows
    ensures forall t :: Harmless(db', t) <==> Harmless(db, t)
  {}

  lemma NewcomerKeepsLock(w: World, w': World, tx: Tx, phase: Phase)
    requires LockInv(w) && tx !in w.server.txns && w'.server.txns == w.server.txns[tx := phase]
    requires Refreshing(phase) ==> IsOthers(w.server.db, w.own, phase)
    requires w'.server.db.place == w.server.db.place && w'.server.db.chains == w.server.db.chains
    requires w'.lock == w.lock && w'.strays == w.strays
    requires forall f | f in w'.own && f !in w.own ::
               f !in w.server.db.chains && forall t | t in w.server.db.place :: w.server.db.place[t].family != f
    requires w.lock.Posted? ==> PostedInv(w'.server.db, w.server.txns[w.lock.tx])
    ensures LockInv(w')
  {
    hide PostedInv, IsOthers, Refreshing;
    forall x | x in w'.server.txns && IsOthers(w.server.db, w.own, w'.server.txns[x])
      ensures IsOthers(w'.server.db, w'.own, w'.server.txns[x])
    {
      OthersStay(w.server.db, w'.server.db, w.own, w'.own, w'.server.txns[x]);
    }
  }

  lemma NewcomerKeepsClaims(w: World, w': World, tx: Tx, phase: Phase)
    requires OwnInv(w) && StraysInv(w) && tx !in w.server.txns && w'.server.txns == w.server.txns[tx := phase]
    requires w'.server.db.place == w.server.db.place && w'.server.db.chains == w.server.db.chains
    requires w'.server.db.rows == w.server.db.rows
    requires w'.strays == w.strays && w.own <= w'.own <= w'.server.db.families
    requires w'.logins == w.logins || (w'.logins == w.logins + {tx} && phase.Opening? && phase.row.family in w'.own)
    requires w'.logins == w.logins ==> tx !in w.logins
    requires forall t | InHands(w', t) :: InHands(w, t)
    ensures OwnInv(w') && StraysInv(w')
  {
    hide InHands, Presents, Harmless;
    assert w.strays <= w.server.txns.Keys;
    StraysKept(w, w');
    OwnKept(w, w');
  }

  lemma NewcomerTakesNothing(w: World, w': World, tx: Tx, phase: Phase)
    requires w.lock.Posted? ==> w.lock.tx in w.server.txns
    requires tx !in w.server.txns && w'.server.txns == w.server.txns[tx := phase]
    requires forall t :: !Delivers(phase, t)
    requires w'.jar == w.jar && w'.lock == w.lock && (w'.logins == w.logins || w'.logins == w.logins + {tx})
    ensures forall t | InHands(w', t) :: InHands(w, t)
  {
    hide PostedInv, Refreshing, Presents, Delivers;
  }

  lemma SendLoginKeepsInv(w: World, a: Action)
    requires BrowserInv(w) && Possible(w, a) && a.SendLogin?
    ensures BrowserInv(After(w, a))
  {
    hide Inv, JarInv, StraysInv, LockInv, LoginInv;
    var step := BeginLogin(a.tx, a.user, a.family, a.first, a.now);
    NextKeepsInv(w.server, step);
    OwnedFamiliesExist(w);
    var phase := NewcomerIs(w.server, step);
    hide BrowserInv, Presents, Delivers;
    NewcomerKeepsInv(w, After(w, a), a.tx, phase);
  }

  lemma OwnedFamiliesExist(w: World)
    requires OwnInv(w)
    ensures w.own <= w.server.db.families
  {}

  lemma PlaceOfRow(db: Db, t: Token)
    requires DbInv(db) && t in db.rows
    ensures t in db.place && db.place[t].family == db.rows[t].family
  {}

  lemma OthersBeginWithTheirOwn(w: World, step: Step)
    requires Inv(w.server) && step.Begin? && ByOthers(w, step) && Enabled(w.server, step)
    ensures Refreshing(Effect(w.server, step).1) ==> IsOthers(w.server.db, w.own, Effect(w.server, step).1)
  {
    if step.request.token in w.server.db.rows {
      PlaceOfRow(w.server.db, step.request.token);
    }
    hide Inv;
  }

  /** What beginning a request does to the server. */
  lemma NewcomerIs(s: State, step: Step) returns (phase: Phase)
    requires Enabled(s, step) && (step.Begin? || step.BeginLogin?)
    ensures phase == Effect(s, step).1 && step.tx !in s.txns && Next(s, step).txns == s.txns[step.tx := phase]
    ensures var db := Next(s, step).db;
            && db.place == s.db.place && db.chains == s.db.chains && db.rows == s.db.rows
            && s.db.families <= db.families
    ensures step.BeginLogin? ==> phase.Opening? && phase.row.family == step.family
    ensures forall t :: !Delivers(phase, t)
    ensures phase.Opening? ==> step.BeginLogin? && !Refreshing(phase)
  {
    phase := Effect(s, step).1;
  }

  lemma OthersKeepInv(w: World, step: Step)
    requires BrowserInv(w) && Possible(w, Other(step))
    ensures BrowserInv(After(w, Other(step)))
  {
    hide Inv, IsOthers, JarInv, StraysInv, LockInv, LoginInv;
    NextKeepsInv(w.server, step);
    OwnedFamiliesExist(w);
    if step.Begin? {
      OthersBeginWithTheirOwn(w, step);
    }
    var phase := NewcomerIs(w.server, step);
    hide BrowserInv, Next, Enabled, Presents, Delivers;
    NewcomerKeepsInv(w, After(w, Other(step)), step.tx, phase);
  }

  lemma SendLogoutKeepsInv(w: World, tx: Tx)
    requires BrowserInv(w) && Possible(w, SendLogout(tx))
    ensures BrowserInv(After(w, SendLogout(tx)))
  {
    var step := Begin(tx, Logout(w.jar.value));
    NextKeepsInv(w.server, step);
    OwnedFamiliesExist(w);
    hide BrowserInv, Inv;
    NewcomerKeepsInv(w, After(w, SendLogout(tx)), tx, Effect(w.server, step).1);
  }

  lemma PostKeepsInv(w: World, tx: Tx)
    requires BrowserInv(w) && Possible(w, Post(tx))
    ensures BrowserInv(After(w, Post(tx)))
  {
    hide Inv, Harmless, Presents;
    if w.jar.Some? {
      NextKeepsInv(w.server, Begin(tx, Refresh(w.jar.value)));
      PostedKeepsInv(w, tx);
    } else {
      LocalActionKeepsInv(w, FailToPost);
    }
  }

  /** Before the post no refresh is under way, and the jar's token is harmless. */
  lemma PostedKeepsInv(w: World, tx: Tx)
    requires BrowserInv(w) && Possible(w, Post(tx)) && w.jar.Some?
    requires Inv(After(w, Post(tx)).server)
    ensures BrowserInv(After(w, Post(tx)))
  {
    hide Inv, Harmless, Locks, Free;
    var w' := After(w, Post(tx));
    var phase := w'.server.txns[tx];
    assert Harmless(w.server.db, w.jar.value);
    assert w'.server.db == w.server.db && w'.server.txns == w.server.txns[tx := phase];
    assert PostedInv(w'.server.db, phase) && !phase.Deleting?;
    assert forall t :: Presents(phase, t) || Delivers(phase, t) ==> w.jar == Some(t);
    hide Effect, Refreshing, Presents, Delivers, PostedInv, IsOthers;
    assert forall t | InHands(w', t) :: InHands(w, t);
    assert w.strays <= w.server.txns.Keys;
    StraysKept(w, w');
    OwnKept(w, w');
    hide InHands, StraysInv, OwnInv;
    forall x | x in w'.logins
      ensures LoginInv(w', x)
    {
      assert LoginInv(w, x);
    }
  }

  /** A rotation's successor is never the first token of a login. */
  lemma SuccessorIsNotFirst(s: State, x: Tx, y: Tx)
    requires Inv(s) && x in s.txns && y in s.txns
    requires s.txns[x].Done? && s.txns[x].outcome.Rotated?
    requires s.txns[y].Done? && s.txns[y].outcome.Opened?
    ensures s.txns[x].outcome.successor != s.txns[y].outcome.first
  {
    hide Apart, TableInv;
    assert PhaseInv(s.db, s.txns[x]) && PhaseInv(s.db, s.txns[y]);
  }

  lemma DeliverKeepsInv(w: World)
    requires BrowserInv(w) && Possible(w, Deliver)
    ensures BrowserInv(After(w, Deliver))
  {
    hide Inv;
    var w' := After(w, Deliver);
    if w.server.txns[w.lock.tx].outcome.Rotated? {
      forall x | x in w.logins && w.server.txns[x].Done? && w.server.txns[x].outcome.Opened?
        ensures w.server.txns[w.lock.tx].outcome.successor != w.server.txns[x].outcome.first
      {
        SuccessorIsNotFirst(w.server, w.lock.tx, x);
      }
    }
    assert forall t | InHands(w', t) :: InHands(w, t);
    StraysKept(w, w');
    OwnKept(w, w');
    hide InHands, StraysInv, Harmless, OwnInv;
  }

  lemma DeliverLoginKeepsInv(w: World, tx: Tx)
    requires BrowserInv(w) && Possible(w, DeliverLogin(tx))
    ensures BrowserInv(After(w, DeliverLogin(tx)))
  {
    hide Inv, StraysInv, OwnInv, InHands, PostedInv, IsOthers;
    var w' := After(w, DeliverLogin(tx));
    assert LoginInv(w, tx);
    assert w.server.txns[tx].outcome.first in w.server.db.place;
    hide Harmless, Refreshing, Presents;
    forall x | x in w.logins && x != tx && w.server.txns[x].Done? && w.server.txns[x].outcome.Opened?
      ensures w.server.txns[x].outcome.first != w.server.txns[tx].outcome.first
    {
      LoginsAreApart(w.server, x, tx);
    }
    DeliveredWasInHands(w, tx);
    ClientMoves(w, w');
  }

  lemma LoginsAreApart(s: State, x: Tx, y: Tx)
    requires Inv(s) && x in s.txns && y in s.txns && x != y
    requires s.txns[x].Done? && s.txns[x].outcome.Opened? && s.txns[y].Done? && s.txns[y].outcome.Opened?
    ensures s.txns[x].outcome.first != s.txns[y].outcome.first
  {
    hide DbInv, PhaseInv;
    assert Apart(s.txns[x], s.txns[y]);
  }

  /** A move of the client that leaves the server and its strays alone. */
  lemma ClientMoves(w: World, w': World)
    requires StraysInv(w) && OwnInv(w) && w'.server == w.server && w'.strays == w.strays && w'.own == w.own
    requires w'.logins <= w.logins && forall t | InHands(w', t) :: InHands(w, t)
    ensures StraysInv(w') && OwnInv(w')
  {
    hide InHands, Presents, Harmless;
    assert w.strays <= w.server.txns.Keys;
    StraysKept(w, w');
    OwnKept(w, w');
  }

  lemma DeliveredWasInHands(w: World, tx: Tx)
    requires Possible(w, DeliverLogin(tx))
    ensures forall t | InHands(After(w, DeliverLogin(tx)), t) :: InHands(w, t)
  {
    assert Delivers(w.server.txns[tx], w.server.txns[tx].outcome.first);
    hide Presents;
  }

  /** A refresh for this token is waiting for its row, has it, or has exchanged it. */
  predicate Carries(phase: Phase, t: Token) {
    Presents(phase, t) || WasExchanged(phase, t)
  }

  /** The client gives up on a refresh while the jar still holds the token it carries, and the row
      of that token is stored. */
  predicate Harms(w: World, a: Action)
    requires Possible(w, a)
  {
    && a.Lose?
    && w.jar.Some? && w.jar.value in w.server.db.rows
    && w.lock.tx in w.server.txns && Carries(w.server.txns[w.lock.tx], w.jar.value)
  }

  predicate Unharmed(w: World, actions: seq<Action>)
    requires Feasible(w, actions)
    decreases |actions|
  {
    actions == [] || (!Harms(w, actions[0]) && Unharmed(After(w, actions[0]), actions[1..]))
  }

  /** The posted refresh becomes a stray, with a token nobody else will use. */
  lemma LoseKeepsInv(w: World)
    requires BrowserInv(w) && Possible(w, Lose) && !Harms(w, Lose)
    ensures BrowserInv(After(w, Lose))
  {
    hide Inv;
    var w' := After(w, Lose);
    assert w'.server == w.server && w'.jar == w.jar && w'.logins == w.logins;
    LoseKeepsStrays(w);
    LoseKeepsOwn(w);
    hide StraysInv, OwnInv, InHands, Harmless, PostedInv;
  }

  lemma LostIsHarmless(w: World, t: Token)
    requires LockInv(w) && w.lock.Posted? && Presents(w.server.txns[w.lock.tx], t)
    ensures Harmless(w.server.db, t)
  {}

  lemma LoseKeepsOwn(w: World)
    requires OwnInv(w) && Possible(w, Lose)
    ensures OwnInv(After(w, Lose))
  {
    var w' := After(w, Lose);
    assert forall t | InHands(w', t) :: InHands(w, t);
    assert forall x, t | StrayPresents(w', x, t) :: StrayPresents(w, x, t) || InHands(w, t);
    OwnKept(w, w');
  }

  lemma LoseKeepsStrays(w: World)
    requires BrowserInv(w) && Possible(w, Lose) && !Harms(w, Lose)
    ensures StraysInv(After(w, Lose))
  {
    hide Inv, JarInv;
    var w' := After(w, Lose);
    var x := w.lock.tx;
    forall t | Presents(w.server.txns[x], t)
      ensures Harmless(w.server.db, t) && InHands(w, t)
      ensures t in w.server.db.rows ==> !InHands(w', t)
    {
      LostIsHarmless(w, t);
    }
    assert forall t | InHands(w', t) :: InHands(w, t);
    hide InHands, Harmless, PostedInv, LoginInv, Presents;
    assert forall y, t :: StrayPresents(w', y, t) <==>
                            StrayPresents(w, y, t) || (y == x && Presents(w.server.txns[x], t));
  }

  lemma ActionKeepsInv(w: World, a: Action)
    requires BrowserInv(w) && Possible(w, a) && !Harms(w, a)
    ensures BrowserInv(After(w, a))
  {
    hide BrowserInv;
    match a {
      case Post(tx) => PostKeepsInv(w, tx);
      case Deliver => DeliverKeepsInv(w);
      case Lose => LoseKeepsInv(w);
      case DeliverLogin(tx) => DeliverLoginKeepsInv(w, tx);
      case SendLogin(_, _, _, _, _) => SendLoginKeepsInv(w, a);
      case SendLogout(tx) => SendLogoutKeepsInv(w, tx);
      case Serve(step) => ServeKeepsInv(w, step);
      case Other(step) => OthersKeepInv(w, step);
      case _ => LocalActionKeepsInv(w, a);
    }
  }

  lemma {:induction false} ActionsKeepInv(w: World, actions: seq<Action>)
    requires BrowserInv(w) && Feasible(w, actions) && Unharmed(w, actions)
    ensures BrowserInv(Reached(w, actions))
    decreases |actions|
  {
    hide BrowserInv;
    if actions != [] {
      ActionKeepsInv(w, actions[0]);
      ActionsKeepInv(After(w, actions[0]), actions[1..]);
    }
  }

  lemma HeldIsUnspent(w: World, x: Tx)
    requires BrowserInv(w) && x in w.server.txns && w.server.txns[x].Holding? && w.server.txns[x].request.Refresh?
    requires w.server.txns[x].row.family in w.own
    ensures w.server.txns[x].row.usedAt.None?
  {
    hide Inv, JarInv, LoginInv, InHands, Harmless;
    HeldFamily(w.server, x);
    assert Presents(w.server.txns[x], w.server.txns[x].request.token);
    assert !IsPosted(w, x) ==> StrayPresents(w, x, w.server.txns[x].request.token);
    HeldHarmlessRowIsUnspent(w.server, x);
  }

  /** A refresh that presents a token of this client's families. */
  ghost predicate IsOwnRefresh(w: World, x: Tx) {
    x in w.server.txns && exists t :: Presents(w.server.txns[x], t) && InOwn(w.server.db, w.own, t)
  }

  lemma PresentsIsRefreshing(phase: Phase, t: Token)
    requires Presents(phase, t)
    ensures Refreshing(phase)
  {}

  lemma InvExcludesReuse(w: World)
    requires BrowserInv(w)
    ensures !InReuseBranch(w)
    ensures forall x, y | IsOwnRefresh(w, x) && IsOwnRefresh(w, y) :: x == y || x in w.strays || y in w.strays
    ensures forall x | x in w.server.txns && w.server.txns[x].Deleting? && w.server.txns[x].family in w.own ::
              w.server.txns[x].request.Logout?
  {
    forall x | x in w.server.txns
      ensures !FoundSpent(w.server.txns[x], w.own)
    {
      if w.server.txns[x].Holding? && w.server.txns[x].request.Refresh? && w.server.txns[x].row.family in w.own {
        HeldIsUnspent(w, x);
      }
    }
    hide Inv, OwnInv, StraysInv, JarInv, LoginInv, PostedInv;
    forall x | IsOwnRefresh(w, x)
      ensures IsPosted(w, x) || x in w.strays
    {
      var t :| Presents(w.server.txns[x], t) && InOwn(w.server.db, w.own, t);
      PresentsIsRefreshing(w.server.txns[x], t);
    }
  }

  /** Tabs, logins and logouts in any interleaving, among the requests of any other clients: as long
      as this client gives up on no refresh whose token is still in the jar and stored, none of its
      refreshes ever finds its token used, no two but those given up on are under way at once, and
      only a logout ever revokes one of its logins. */
  lemma ClientNeverTripsReuseDetection(actions: seq<Action>)
    requires Feasible(START, actions) && Unharmed(START, actions)
    ensures var w := Reached(START, actions);
            && !InReuseBranch(w)
            && (forall x, y | IsOwnRefresh(w, x) && IsOwnRefresh(w, y) :: x == y || x in w.strays || y in w.strays)
            && forall x | x in w.server.txns && w.server.txns[x].Deleting? && w.server.txns[x].family in w.own ::
                 w.server.txns[x].request.Logout?
  {
    hide BrowserInv;
    StartInv();
    ActionsKeepInv(START, actions);
    InvExcludesReuse(Reached(START, actions));
  }

  // The calls of a page.

  /** A call costs a second request only once its rotation has succeeded, and never a third; it
      waits only while its tab has a rotation pending. */
  ghost predicate CallInv(w: World) {
    forall id | id in w.calls ::
      var call := w.calls[id];
      && call.sends == (if call.retried then 2 else 1)
      && (call.phase.Parked? ==> call.tab in w.rotating && !call.retried)
  }

  lemma ActionKeepsCallInv(w: World, a: Action)
    requires CallInv(w) && Possible(w, a)
    ensures CallInv(After(w, a))
  {
    hide Enabled, Next;
  }

  /** Whatever is lost or delivered, no call is ever sent more than twice, and none waits for a
      rotation that is not pending. */
  lemma {:induction false} CallsAreReplayedOnce(w: World, actions: seq<Action>)
    requires CallInv(w) && Feasible(w, actions)
    ensures CallInv(Reached(w, actions))
    decreases |actions|
  {
    hide Possible, After, CallInv;
    if actions != [] {
      ActionKeepsCallInv(w, actions[0]);
      CallsAreReplayedOnce(After(w, actions[0]), actions[1..]);
    }
  }
}
