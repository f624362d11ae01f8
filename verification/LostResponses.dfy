/** What a lost refresh response can lead to: every loss that the client's guarantee excludes lets it
    present a spent token later, with nothing more lost, and no other loss does. */
module LostResponses {
  import opened Common
  import opened Sessions
  import opened Interleaving
  import opened Browser
  import opened SampleLogin

  /** w' is reached from w without a loss that matters. */
  ghost predicate Leads(w: World, w': World) {
    exists actions :: Feasible(w, actions) && Unharmed(w, actions) && Reached(w, actions) == w'
  }

  /** Without any further loss that matters, some run from here reaches the reuse branch. */
  ghost predicate CanTrip(w: World) {
    exists w' :: Leads(w, w') && InReuseBranch(w')
  }

  // Runs, one action at a time.

  lemma {:induction false} OneMoreAction(w: World, actions: seq<Action>, a: Action)
    requires Feasible(w, actions) && Unharmed(w, actions)
    requires Possible(Reached(w, actions), a) && !Harms(Reached(w, actions), a)
    ensures Feasible(w, actions + [a]) && Unharmed(w, actions + [a])
    ensures Reached(w, actions + [a]) == After(Reached(w, actions), a)
    decreases |actions|
  {
    hide Possible, After, Harms;
    if actions == [] {
      assert Reached(After(w, a), []) == After(w, a);
    } else {
      OneMoreAction(After(w, actions[0]), actions[1..], a);
      assert (actions + [a])[1..] == actions[1..] + [a];
    }
  }

  lemma Stays(w: World)
    ensures Leads(w, w)
  {
    assert Feasible(w, []) && Unharmed(w, []) && Reached(w, []) == w;
  }

  lemma Acts(start: World, w: World, a: Action) returns (w': World)
    requires Leads(start, w) && Possible(w, a) && !Harms(w, a)
    ensures Leads(start, w') && w' == After(w, a)
  {
    hide Possible, After, Harms;
    var actions :| Feasible(start, actions) && Unharmed(start, actions) && Reached(start, actions) == w;
    OneMoreAction(start, actions, a);
    w' := After(w, a);
  }

  /** What holds whatever the client does or loses: the server's own invariant, and that the client
      uses nothing but tokens of its own families. */
  ghost predicate ClientInv(w: World) {
    Inv(w.server) && OwnInv(w) && RightRoles(w)
  }

  lemma LoginsGoOn(s: State, step: Step)
    requires Internal(step) && Enabled(s, step)
    ensures step.tx in s.txns && step.tx in Next(s, step).txns && !Next(s, step).txns[step.tx].Opening?
    ensures s.txns[step.tx].Opening? ==> Next(s, step).txns[step.tx].Done?
    ensures !s.txns[step.tx].Done?
  {}

  lemma ServeKeepsRoles(w: World, step: Step)
    requires RightRoles(w) && Internal(step) && Enabled(w.server, step)
    ensures RightRoles(After(w, Serve(step)))
  {
    StepMoves(w.server, step);
    LoginsGoOn(w.server, step);
    hide Enabled, Next;
  }

  lemma ServeKeepsClient(w: World, step: Step)
    requires ClientInv(w) && Possible(w, Serve(step))
    ensures ClientInv(After(w, Serve(step)))
  {
    hide Inv, OwnInv, RightRoles, Enabled, Next;
    NextKeepsInv(w.server, step);
    ServeKeepsOwn(w, step);
    ServeKeepsRoles(w, step);
  }

  lemma NewcomerKeepsRoles(w: World, w': World, tx: Tx, phase: Phase)
    requires RightRoles(w) && tx !in w.server.txns && w'.server.txns == w.server.txns[tx := phase]
    requires w'.strays == w.strays
    requires w'.logins == w.logins || (w'.logins == w.logins + {tx} && phase.Opening?)
    requires w'.lock == w.lock || (w'.lock.Posted? && w'.lock.tx == tx && !phase.Opening?)
    ensures RightRoles(w') && tx !in w.logins
  {
    assert forall x | x in w.logins :: x in w.server.txns;
  }

  lemma NewcomerKeepsOwn(w: World, w': World, tx: Tx, phase: Phase)
    requires OwnInv(w) && RightRoles(w) && tx !in w.server.txns && w'.server.txns == w.server.txns[tx := phase]
    requires w'.server.db.place == w.server.db.place && w'.strays == w.strays
    requires w.own <= w'.own <= w'.server.db.families && tx !in w.logins
    requires w'.logins == w.logins || (w'.logins == w.logins + {tx} && phase.Opening? && phase.row.family in w'.own)
    requires forall t | InHands(w', t) :: InHands(w, t)
    ensures OwnInv(w')
  {
    hide InHands, Presents;
    assert w.strays <= w.server.txns.Keys;
    OwnKept(w, w');
  }

  /** A new transaction, of the client or of others. */
  lemma NewcomerKeepsClient(w: World, w': World, step: Step)
    requires ClientInv(w) && Enabled(w.server, step) && (step.Begin? || step.BeginLogin?)
    requires w'.server == Next(w.server, step) && w'.strays == w.strays
    requires w.own <= w'.own <= w'.server.db.families
    requires w'.logins == w.logins || (w'.logins == w.logins + {step.tx} && step.BeginLogin? && step.family in w'.own)
    requires w'.lock == w.lock || (w'.lock.Posted? && w'.lock.tx == step.tx && step.Begin?)
    requires forall t | InHands(w', t) :: InHands(w, t)
    ensures ClientInv(w')
  {
    hide Inv, OwnInv, RightRoles, InHands, Presents, Delivers;
    NextKeepsInv(w.server, step);
    var phase := NewcomerIs(w.server, step);
    hide Enabled, Next, Effect;
    NewcomerKeepsRoles(w, w', step.tx, phase);
    NewcomerKeepsOwn(w, w', step.tx, phase);
  }

  lemma PostTakesNothing(w: World, tx: Tx)
    requires Possible(w, Post(tx)) && w.jar.Some?
    ensures forall t | InHands(After(w, Post(tx)), t) :: InHands(w, t)
  {
    var step := Begin(tx, Refresh(w.jar.value));
    var phase := Effect(w.server, step).1;
    assert forall t :: Presents(phase, t) || Delivers(phase, t) ==> w.jar == Some(t);
    hide Effect, Presents, Delivers;
  }

  lemma DeliveryTakesNothing(w: World, a: Action)
    requires Possible(w, a) && (a.Deliver? || a.DeliverLogin? || a.Lose?)
    ensures forall t | InHands(After(w, a), t) :: InHands(w, t)
  {
    if a.Lose? {
      hide Presents, Delivers;
    } else if a.DeliverLogin? {
      DeliveredWasInHands(w, a.tx);
    }
  }

  lemma DeliveryKeepsRoles(w: World, a: Action)
    requires RightRoles(w) && Possible(w, a) && (a.Deliver? || a.DeliverLogin? || a.Lose?)
    ensures var w' := After(w, a);
            && RightRoles(w') && w'.server == w.server && w'.own == w.own && w'.logins <= w.logins
    ensures forall x, t | StrayPresents(After(w, a), x, t) :: StrayPresents(w, x, t) || InHands(w, t)
  {
    hide Presents, Delivers;
  }

  lemma DeliveryKeepsClient(w: World, a: Action)
    requires ClientInv(w) && Possible(w, a) && (a.Deliver? || a.DeliverLogin? || a.Lose?)
    ensures ClientInv(After(w, a))
  {
    hide Inv, InHands, StrayPresents;
    DeliveryTakesNothing(w, a);
    DeliveryKeepsRoles(w, a);
    OwnedFamiliesExist(w);
    LoginsOpenOwn(w);
    hide OwnInv, RightRoles, After, Possible;
    OwnKept(w, After(w, a));
  }

  lemma LoginsOpenOwn(w: World)
    requires OwnInv(w)
    ensures forall x | x in w.logins && x in w.server.txns && w.server.txns[x].Opening? ::
              w.server.txns[x].row.family in w.own
  {}

  lemma LocalActionKeepsClient(w: World, a: Action)
    requires ClientInv(w) && Possible(w, a) && IsLocal(a)
    ensures ClientInv(After(w, a))
  {
    LocalActionTakesNothing(w, a);
    hide After, Possible, Inv, InHands, Presents;
    OwnKept(w, After(w, a));
    hide OwnInv;
  }

  lemma ActionKeepsClient(w: World, a: Action)
    requires ClientInv(w) && Possible(w, a)
    ensures ClientInv(After(w, a))
  {
    OwnedFamiliesExist(w);
    match a
    case Post(tx) =>
      if w.jar.Some? {
        PostTakesNothing(w, tx);
        hide ClientInv, InHands;
        NewcomerKeepsClient(w, After(w, a), Begin(tx, Refresh(w.jar.value)));
      } else {
        hide ClientInv;
        LocalActionKeepsClient(w, FailToPost);
      }
    case SendLogin(tx, user, family, first, now) =>
      BeginningTakesNothing(w, After(w, a), BeginLogin(tx, user, family, first, now));
      hide ClientInv, InHands;
      NewcomerKeepsClient(w, After(w, a), BeginLogin(tx, user, family, first, now));
    case SendLogout(tx) =>
      BeginningTakesNothing(w, After(w, a), Begin(tx, Logout(w.jar.value)));
      hide ClientInv, InHands;
      NewcomerKeepsClient(w, After(w, a), Begin(tx, Logout(w.jar.value)));
    case Other(step) =>
      BeginningTakesNothing(w, After(w, a), step);
      hide ClientInv, InHands;
      NewcomerKeepsClient(w, After(w, a), step);
    case Serve(step) => ServeKeepsClient(w, step);
    case Deliver => DeliveryKeepsClient(w, a);
    case DeliverLogin(_) => DeliveryKeepsClient(w, a);
    case Lose => DeliveryKeepsClient(w, a);
    case _ => LocalActionKeepsClient(w, a);
  }

  lemma BeginningTakesNothing(w: World, w': World, step: Step)
    requires RightRoles(w) && Enabled(w.server, step) && (step.Begin? || step.BeginLogin?)
    requires w'.server == Next(w.server, step) && w'.jar == w.jar && w'.lock == w.lock
    requires w'.logins == w.logins || w'.logins == w.logins + {step.tx}
    ensures forall t | InHands(w', t) :: InHands(w, t)
  {
    var phase := NewcomerIs(w.server, step);
    NewcomerTakesNothing(w, w', step.tx, phase);
  }

  lemma StartsAsClient()
    ensures ClientInv(START)
  {
    StartInv();
    RolesAreRight(START);
  }

  lemma {:induction false} ActionsKeepClient(w: World, actions: seq<Action>)
    requires ClientInv(w) && Feasible(w, actions)
    ensures ClientInv(Reached(w, actions))
    decreases |actions|
  {
    hide ClientInv, Possible, After;
    if actions != [] {
      ActionKeepsClient(w, actions[0]);
      ActionsKeepClient(After(w, actions[0]), actions[1..]);
    }
  }

  // Names not in use.

  lemma {:induction false} NewNumber(used: set<nat>) returns (n: nat)
    ensures forall m :: m in used ==> m < n
    decreases |used|
  {
    n := 0;
    if used != {} {
      var m :| m in used;
      n := NewNumber(used - {m});
      assert forall k :: k in used ==> k == m || k in used - {m};
      n := if m < n then n else m + 1;
    }
  }

  lemma NewToken(minted: set<Token>) returns (token: Token)
    ensures token !in minted
  {
    var serials := set t | t in minted :: t.serial;
    var n := NewNumber(serials);
    token := Token(n);
    assert token in minted ==> n in serials;
  }

  // The jar holds a spent token.

  const EXPIRED_ACCESS := Answered(401, Some(INVALID_SESSION_CODE), Some("Your session has expired."))

  /** The stored token of the jar, of the client's own family, with no rotation under way. */
  predicate HoldsStored(w: World, t: Token) {
    w.lock.Unlocked? && w.jar == Some(t) && t in w.server.db.rows && w.server.db.rows[t].family in w.own
  }

  /** Whoever holds the row may abort, and nobody else holds it. */
  lemma Frees(start: World, w: World, t: Token, tx: Tx) returns (w': World)
    requires Leads(start, w) && Inv(w.server)
    requires tx in w.server.txns ==> t !in Locks(w.server.txns[tx])
    ensures Leads(start, w') && w' == w.(server := w'.server) && Inv(w'.server)
    ensures w'.server.db == w.server.db && w'.server.txns.Keys == w.server.txns.Keys && Free(w'.server.txns, tx, t)
    ensures tx in w.server.txns ==> w'.server.txns[tx] == w.server.txns[tx]
  {
    hide Inv, Leads;
    if Free(w.server.txns, tx, t) {
      w' := w;
    } else {
      var x :| x in w.server.txns && x != tx && t in Locks(w.server.txns[x]);
      NextKeepsInv(w.server, Abort(x));
      w' := Acts(start, w, Serve(Abort(x)));
      HolderIsAlone(w.server, x, t);
    }
  }

  lemma HolderIsAlone(s: State, x: Tx, t: Token)
    requires Inv(s) && x in s.txns && t in Locks(s.txns[x])
    ensures Free(s.txns, x, t)
  {
    hide DbInv, PhaseInv;
    forall y | y in s.txns && y != x
      ensures t !in Locks(s.txns[y])
    {
      assert Apart(s.txns[x], s.txns[y]);
    }
  }

  /** A call is made, and refused for want of a session. */
  lemma Starts(start: World, w: World, tab: Tab) returns (w': World)
    requires Leads(start, w)
    ensures Leads(start, w') && w'.server == w.server && w'.jar == w.jar && w'.lock == w.lock
    ensures tab in w'.rotating && w'.own == w.own
  {
    hide Leads;
    var id := NewNumber(w.calls.Keys);
    var w1 := Acts(start, w, Send(id, tab, "/auth/me"));
    w' := Acts(start, w1, Fail(id, EXPIRED_ACCESS));
  }

  /** The rotation that follows posts the jar's token and gets its row. */
  lemma Posts(start: World, w: World, t: Token, tab: Tab, tx: Tx) returns (w': World)
    requires Leads(start, w) && HoldsStored(w, t) && tab in w.rotating
    requires tx !in w.server.txns && Free(w.server.txns, tx, t)
    ensures Leads(start, w') && w'.jar == w.jar && w'.lock == Posted(tab, tx)
    ensures w'.server.db == w.server.db && w'.own == w.own
    ensures w'.server.txns == w.server.txns[tx := Holding(Refresh(t), w.server.db.rows[t])]
  {
    hide Leads;
    var w1 := Acts(start, w, Grant(tab));
    var w2 := Acts(start, w1, Post(tx));
    w' := Acts(start, w2, Serve(Acquire(tx)));
  }

  /** The next refused call presents the jar's token; if that is spent, this is reuse. */
  lemma SpentJarCanTrip(start: World, w: World, t: Token)
    requires Leads(start, w) && Inv(w.server) && HoldsStored(w, t) && w.server.db.rows[t].usedAt.Some?
    ensures CanTrip(start)
  {
    hide Inv, Leads, Free;
    var tx := NewNumber(w.server.txns.Keys);
    var w1 := Frees(start, w, t, tx);
    var w2 := Starts(start, w1, 0);
    var w3 := Posts(start, w2, t, 0, tx);
    assert FoundSpent(w3.server.txns[tx], w3.own);
  }

  // The refresh that was given up on goes on without the client.

  lemma ExchangedIsSpent(s: State, x: Tx, t: Token)
    requires Inv(s) && x in s.txns && WasExchanged(s.txns[x], t) && t in s.db.rows
    ensures s.db.rows[t].usedAt.Some?
  {
    hide Apart;
    assert PhaseInv(s.db, s.txns[x]);
  }

  lemma HeldIsStored(s: State, x: Tx)
    requires Inv(s) && x in s.txns && s.txns[x].Holding?
    ensures s.txns[x].request.token in s.db.rows && s.db.rows[s.txns[x].request.token] == s.txns[x].row
  {
    hide Apart;
    assert PhaseInv(s.db, s.txns[x]);
  }

  lemma WrittenIsBurnt(s: State, x: Tx)
    requires Inv(s) && x in s.txns && s.txns[x].Writing?
    ensures s.txns[x].burnt.usedAt.Some? && s.txns[x].successor != s.txns[x].token
    ensures s.txns[x].token in s.db.rows && s.txns[x].burnt.family == s.db.rows[s.txns[x].token].family
  {
    hide Apart;
    assert PhaseInv(s.db, s.txns[x]);
  }

  lemma WritingCanTrip(start: World, w: World, t: Token, x: Tx)
    requires Leads(start, w) && Inv(w.server) && HoldsStored(w, t)
    requires x in w.server.txns && w.server.txns[x].Writing? && w.server.txns[x].token == t
    ensures CanTrip(start)
  {
    hide Inv, Leads;
    WrittenIsBurnt(w.server, x);
    NextKeepsInv(w.server, Commit(x));
    var w1 := Acts(start, w, Serve(Commit(x)));
    SpentJarCanTrip(start, w1, t);
  }

  lemma HoldingCanTrip(start: World, w: World, t: Token, x: Tx)
    requires Leads(start, w) && Inv(w.server) && HoldsStored(w, t)
    requires x in w.server.txns && w.server.txns[x].Holding? && w.server.txns[x].request == Refresh(t)
    ensures CanTrip(start)
  {
    hide Inv, Leads, CanTrip;
    HeldIsStored(w.server, x);
    var row := w.server.db.rows[t];
    if row.usedAt.Some? {
      SpentJarCanTrip(start, w, t);
    } else {
      var successor := NewToken(w.server.db.minted);
      var step := Decide(x, Clock(row.expiresAt, row.expiresAt, row.expiresAt), successor);
      NextKeepsInv(w.server, step);
      var w1 := Acts(start, w, Serve(step));
      WritingCanTrip(start, w1, t, x);
    }
  }

  lemma WaitingCanTrip(start: World, w: World, t: Token, x: Tx)
    requires Leads(start, w) && Inv(w.server) && HoldsStored(w, t)
    requires x in w.server.txns && w.server.txns[x] == Waiting(Refresh(t))
    ensures CanTrip(start)
  {
    hide Inv, Leads, CanTrip, Free;
    var w1 := Frees(start, w, t, x);
    NextKeepsInv(w1.server, Acquire(x));
    var w2 := Acts(start, w1, Serve(Acquire(x)));
    HoldingCanTrip(start, w2, t, x);
  }

  lemma JarIsOwn(w: World)
    requires Inv(w.server) && OwnInv(w) && w.jar.Some? && w.jar.value in w.server.db.rows
    ensures w.server.db.rows[w.jar.value].family in w.own
  {
    assert InHands(w, w.jar.value);
    PlaceOfRow(w.server.db, w.jar.value);
    hide Inv;
  }

  /** In every world the client can come to, whatever it lost before: giving up on a refresh while
      the jar still holds the token it carries, and its row is still stored, can end in reuse with
      nothing more lost. It need not be answered yet: it goes on without the client. */
  lemma HarmfulLossCanTrip(actions: seq<Action>)
    requires Feasible(START, actions) && Possible(Reached(START, actions), Lose) && Harms(Reached(START, actions), Lose)
    ensures CanTrip(After(Reached(START, actions), Lose))
  {
    hide Inv, OwnInv, Feasible, Reached, Leads, CanTrip;
    var w := Reached(START, actions);
    var x := w.lock.tx;
    var t := w.jar.value;
    StartsAsClient();
    ActionsKeepClient(START, actions);
    JarIsOwn(w);
    var w' := After(w, Lose);
    Stays(w');
    match w.server.txns[x]
    case Waiting(_) => WaitingCanTrip(w', w', t, x);
    case Holding(_, _) => HoldingCanTrip(w', w', t, x);
    case Writing(_, _, _, _) => WritingCanTrip(w', w', t, x);
    case _ =>
      ExchangedIsSpent(w.server, x, t);
      SpentJarCanTrip(w', w', t);
  }

  // And only then.

  lemma InvCannotTrip(w: World)
    requires BrowserInv(w)
    ensures !CanTrip(w)
  {
    hide BrowserInv, InReuseBranch;
    forall w' | Leads(w, w')
      ensures !InReuseBranch(w')
    {
      var actions :| Feasible(w, actions) && Unharmed(w, actions) && Reached(w, actions) == w';
      ActionsKeepInv(w, actions);
      InvExcludesReuse(w');
    }
  }

  /** After any run without a loss that matters, giving up on a refresh can end in reuse exactly
      when the jar still holds the token it carries and the row of that token is still stored: no
      later login has replaced it in the jar, and no logout has revoked it. */
  lemma LossTripsExactlyWhenItHarms(actions: seq<Action>)
    requires Feasible(START, actions) && Unharmed(START, actions) && Possible(Reached(START, actions), Lose)
    ensures CanTrip(After(Reached(START, actions), Lose)) <==> Harms(Reached(START, actions), Lose)
  {
    hide BrowserInv, CanTrip, Feasible, Unharmed, Reached;
    var w := Reached(START, actions);
    if Harms(w, Lose) {
      HarmfulLossCanTrip(actions);
    } else {
      StartInv();
      ActionsKeepInv(START, actions);
      LoseKeepsInv(w);
      InvCannotTrip(After(w, Lose));
    }
  }

  // Such a world exists.

  lemma LogsIn() returns (w: World)
    ensures Leads(START, w) && w.jar == Some(T1) && w.lock == Unlocked
    ensures w.server.db.rows == map[T1 := LIVE] && w.server.db.minted == {T1}
    ensures w.server.txns == map[0 := Done(Opened(T1))] && w.own == {FAMILY}
  {
    hide Leads;
    Stays(START);
    var w1 := Acts(START, START, SendLogin(0, 0, FAMILY, T1, 0));
    var w2 := Acts(START, w1, Serve(Commit(0)));
    w := Acts(START, w2, DeliverLogin(0));
  }

  lemma Decides(w: World) returns (w': World)
    requires Leads(START, w) && w.lock == Posted(0, 1) && w.jar == Some(T1)
    requires w.server.db.rows == map[T1 := LIVE] && w.server.db.minted == {T1}
    requires w.server.txns == map[0 := Done(Opened(T1)), 1 := Holding(Refresh(T1), LIVE)]
    ensures Leads(START, w') && w'.jar == Some(T1) && w'.lock == w.lock
    ensures w'.server.db.rows == map[T1 := LIVE] && w'.server.db.minted == {T1, T2}
    ensures w'.server.txns == map[0 := Done(Opened(T1)), 1 := Writing(T1, SPENT, T2, LIVE)]
  {
    hide Leads;
    w' := Acts(START, w, Serve(Decide(1, AT_ZERO, T2)));
    assert w'.server.txns[1] == Writing(T1, SPENT, T2, LIVE);
  }

  lemma Rotates(w: World) returns (w': World)
    requires Leads(START, w) && w.lock == Posted(0, 1) && w.jar == Some(T1)
    requires w.server.db.rows == map[T1 := LIVE] && w.server.db.minted == {T1}
    requires w.server.txns == map[0 := Done(Opened(T1)), 1 := Holding(Refresh(T1), LIVE)]
    ensures Leads(START, w') && w'.jar == Some(T1) && w'.lock == w.lock
    ensures w'.server.db.rows == map[T1 := SPENT, T2 := LIVE]
    ensures w'.server.txns == map[0 := Done(Opened(T1)), 1 := Done(Rotated(T1, T2))]
  {
    hide Leads;
    var w1 := Decides(w);
    w' := Acts(START, w1, Serve(Commit(1)));
  }

  lemma RotatesFirst() returns (w: World)
    ensures Leads(START, w) && w.jar == Some(T1) && w.lock == Posted(0, 1)
    ensures w.server.db.rows == map[T1 := SPENT, T2 := LIVE]
    ensures w.server.txns == map[0 := Done(Opened(T1)), 1 := Done(Rotated(T1, T2))]
  {
    hide Leads;
    var w1 := LogsIn();
    var w2 := Starts(START, w1, 0);
    var w3 := Posts(START, w2, T1, 0, 1);
    w := Rotates(w3);
  }

  /** One lost response is enough: a login, one rotation whose response is lost, and reuse. */
  lemma OneLostResponseTripsIt() returns (w: World)
    ensures Leads(START, w) && Possible(w, Lose) && Harms(w, Lose) && CanTrip(After(w, Lose))
  {
    w := RotatesFirst();
    var actions :| Feasible(START, actions) && Unharmed(START, actions) && Reached(START, actions) == w;
    hide Leads, CanTrip, Feasible, Unharmed, Reached;
    HarmfulLossCanTrip(actions);
  }
}
