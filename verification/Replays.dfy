/** What becomes of a call that the API refuses for want of a session: it waits for its tab's rotation,
    and is sent once more exactly if that succeeds. */
module Replays {
  import opened Common
  import opened Interleaving
  import opened Browser

  /** The API refused the call for want of a session, in an envelope of its own. */
  predicate RefusedForSession(response: Response) {
    && response.Answered?
    && response.code == Some("invalid_session")
    && response.message.Some? && response.message.value != ""
  }

  /** A failed call waits, and its tab has a rotation pending, exactly when it was refused for want of
      a session, is not the refresh itself and was not sent before. Any other failure settles it. */
  lemma FailureParksExactly(w: World, id: CallId, response: Response)
    requires Possible(w, Fail(id, response))
    ensures var call := w.calls[id];
            var w' := After(w, Fail(id, response));
            if RefusedForSession(response) && call.url != "/auth/refresh" && !call.retried
            then w' == w.(calls := w.calls[id := call.(phase := Parked)], rotating := w.rotating + {call.tab})
            else w' == w.(calls := w.calls[id := call.(phase := Settled)])
  {}

  /** The action ends the rotation of the tab that holds the lock. */
  predicate EndsRotation(w: World, a: Action) {
    || a.Deliver? || a.Lose? || a.FailToPost?
    || (a.Post? && w.jar.None?)
  }

  /** The action delivers a new pair to the tab. */
  predicate DeliversPair(w: World, a: Action) {
    a.Deliver? && w.lock.Posted? && w.lock.tx in w.server.txns
    && w.server.txns[w.lock.tx].Done? && w.server.txns[w.lock.tx].outcome.Rotated?
  }

  /** Once a rotation ends, every call that waited for it is sent once more if it brought a pair, with
      the pair's token in the jar, and settles otherwise. Calls of other tabs, and calls that do not
      wait, are left alone; the lock is free and the tab has no rotation pending. */
  lemma RotationResolvesCalls(w: World, a: Action)
    requires Possible(w, a) && EndsRotation(w, a)
    ensures !w.lock.Unlocked?
    ensures var w' := After(w, a);
            && w'.lock == Unlocked && w'.rotating == w.rotating - {w.lock.tab} && w'.calls.Keys == w.calls.Keys
            && (DeliversPair(w, a) ==> w'.jar == Some(w.server.txns[w.lock.tx].outcome.successor))
            && (!DeliversPair(w, a) ==> w'.jar == w.jar)
    ensures forall id | id in w.calls ::
              var call, call' := w.calls[id], After(w, a).calls[id];
              if call.phase != Parked || call.tab != w.lock.tab then call' == call
              else if DeliversPair(w, a) then call' == Call(call.tab, call.url, true, call.sends + 1, Flying)
              else call' == Call(call.tab, call.url, call.retried, call.sends, Settled)
  {}

  /** Until its tab's rotation ends, a waiting call goes on waiting. */
  lemma WaitingGoesOn(w: World, a: Action, id: CallId)
    requires Possible(w, a) && id in w.calls && w.calls[id].phase == Parked
    requires EndsRotation(w, a) ==> w.lock.tab != w.calls[id].tab
    ensures id in After(w, a).calls && After(w, a).calls[id] == w.calls[id]
  {
    hide Enabled, Next;
    if EndsRotation(w, a) {
      RotationResolvesCalls(w, a);
    }
  }

  /** No rotation of the tab ends in this run. */
  predicate NoneEnds(w: World, actions: seq<Action>, tab: Tab)
    requires Feasible(w, actions)
    decreases |actions|
  {
    actions == []
    || (&& (EndsRotation(w, actions[0]) && !w.lock.Unlocked? ==> w.lock.tab != tab)
        && NoneEnds(After(w, actions[0]), actions[1..], tab))
  }

  lemma {:induction false} WaitingGoesOnInRun(w: World, actions: seq<Action>, id: CallId)
    requires Feasible(w, actions) && id in w.calls && w.calls[id].phase == Parked
    requires NoneEnds(w, actions, w.calls[id].tab)
    ensures id in Reached(w, actions).calls && Reached(w, actions).calls[id] == w.calls[id]
    decreases |actions|
  {
    if actions != [] {
      if EndsRotation(w, actions[0]) {
        RotationResolvesCalls(w, actions[0]);
      }
      WaitingGoesOn(w, actions[0], id);
      hide Possible, After, EndsRotation;
      WaitingGoesOnInRun(After(w, actions[0]), actions[1..], id);
    }
  }

  /** A call refused for want of a session is sent again, whatever happens in between, as soon as the
      rotation of its tab brings a pair; if that rotation ends in any other way, the call settles
      without another request. */
  lemma RefusedCallIsReplayed(w: World, id: CallId, response: Response, between: seq<Action>, end: Action)
    requires Possible(w, Fail(id, response)) && RefusedForSession(response)
    requires w.calls[id].url != "/auth/refresh" && !w.calls[id].retried
    requires var w1 := After(w, Fail(id, response)); Feasible(w1, between) && NoneEnds(w1, between, w.calls[id].tab)
    requires var w2 := Reached(After(w, Fail(id, response)), between);
             Possible(w2, end) && EndsRotation(w2, end) && (!w2.lock.Unlocked? ==> w2.lock.tab == w.calls[id].tab)
    ensures var call := w.calls[id];
            var w2 := Reached(After(w, Fail(id, response)), between);
            && id in After(w2, end).calls
            && After(w2, end).calls[id]
               == if DeliversPair(w2, end) then Call(call.tab, call.url, true, call.sends + 1, Flying)
                  else Call(call.tab, call.url, false, call.sends, Settled)
  {
    FailureParksExactly(w, id, response);
    var w1 := After(w, Fail(id, response));
    hide After, Possible;
    WaitingGoesOnInRun(w1, between, id);
    RotationResolvesCalls(Reached(w1, between), end);
  }

  // Calls and cookies otherwise.

  /** A call is sent once when it is made, and settles when it succeeds; nothing else changes. */
  lemma CallsBeginAndEnd(w: World, id: CallId, tab: Tab, url: string)
    ensures Possible(w, Send(id, tab, url)) ==>
              After(w, Send(id, tab, url)) == w.(calls := w.calls[id := Call(tab, url, false, 1, Flying)])
    ensures Possible(w, Succeed(id)) ==>
              After(w, Succeed(id)) == w.(calls := w.calls[id := w.calls[id].(phase := Settled)])
  {}

  /** Besides rotations, the jar changes by a login's answer, which brings the login's token, and by
      being emptied; the calls do not change. */
  lemma JarChangesOtherwise(w: World, a: Action)
    requires Possible(w, a) && !EndsRotation(w, a)
    ensures a.DeliverLogin? ==>
              && w.server.txns[a.tx].Done? && w.server.txns[a.tx].outcome.Opened?
              && After(w, a).jar == Some(w.server.txns[a.tx].outcome.first)
    ensures a.ClearJar? ==> After(w, a).jar == None
    ensures !a.DeliverLogin? && !a.ClearJar? ==> After(w, a).jar == w.jar
    ensures !a.Send? && !a.Succeed? && !a.Fail? ==> After(w, a).calls == w.calls
  {
    hide Enabled, Next;
  }

  /** A refresh presents the jar's token, and a logout too. */
  lemma RequestsCarryTheJar(w: World, tx: Tx)
    ensures Possible(w, Post(tx)) && w.jar.Some? ==>
              && After(w, Post(tx)).server == Next(w.server, Begin(tx, Refresh(w.jar.value)))
              && After(w, Post(tx)).lock == Posted(w.lock.tab, tx)
    ensures Possible(w, SendLogout(tx)) ==>
              w.jar.Some? && After(w, SendLogout(tx)).server == Next(w.server, Begin(tx, Logout(w.jar.value)))
  {
    hide Next;
  }

  /** Rotations are pending for the tabs of waiting calls and for no others, and only such a tab has
      the lock: nothing but a refusal for want of a session ever leads to a refresh. */
  ghost predicate RotationsAreAskedFor(w: World) {
    && (forall tab :: tab in w.rotating <==>
          exists id :: id in w.calls && w.calls[id].tab == tab && w.calls[id].phase == Parked)
    && (!w.lock.Unlocked? ==> w.lock.tab in w.rotating)
  }

  lemma FailureAsks(w: World, id: CallId, response: Response)
    requires RotationsAreAskedFor(w) && Possible(w, Fail(id, response))
    ensures RotationsAreAskedFor(After(w, Fail(id, response)))
  {
    FailureParksExactly(w, id, response);
    var w' := After(w, Fail(id, response));
    assert w.calls[id].phase == Flying;
    forall tab
      ensures tab in w'.rotating <==>
                exists id :: id in w'.calls && w'.calls[id].tab == tab && w'.calls[id].phase == Parked
    {
      if other :| other in w.calls && w.calls[other].tab == tab && w.calls[other].phase == Parked {
        assert other in w'.calls && w'.calls[other] == w.calls[other];
      }
      if w'.calls[id].phase == Parked {
        assert w'.calls[id].tab in w'.rotating;
      }
    }
  }

  lemma EndAsks(w: World, a: Action)
    requires RotationsAreAskedFor(w) && Possible(w, a) && EndsRotation(w, a)
    ensures RotationsAreAskedFor(After(w, a))
  {
    RotationResolvesCalls(w, a);
    var w' := After(w, a);
    hide After, Possible;
    forall tab
      ensures tab in w'.rotating <==>
                exists id :: id in w'.calls && w'.calls[id].tab == tab && w'.calls[id].phase == Parked
    {
      if id :| id in w.calls && w.calls[id].tab == tab && w.calls[id].phase == Parked && tab != w.lock.tab {
        assert w'.calls[id] == w.calls[id];
      }
    }
  }

  lemma OtherwiseAsks(w: World, a: Action)
    requires RotationsAreAskedFor(w) && Possible(w, a) && !EndsRotation(w, a) && !a.Fail?
    ensures RotationsAreAskedFor(After(w, a))
  {
    hide Enabled, Next;
    if a.Send? || a.Succeed? {
      var w' := After(w, a);
      assert forall id | id in w.calls && w.calls[id].phase == Parked :: id in w'.calls && w'.calls[id] == w.calls[id];
      assert forall id | id in w'.calls && w'.calls[id].phase == Parked :: id in w.calls && w'.calls[id] == w.calls[id];
    }
  }

  lemma {:induction false} RotationsStayAskedFor(w: World, actions: seq<Action>)
    requires RotationsAreAskedFor(w) && Feasible(w, actions)
    ensures RotationsAreAskedFor(Reached(w, actions))
    decreases |actions|
  {
    if actions != [] {
      var a := actions[0];
      if a.Fail? {
        FailureAsks(w, a.call, a.response);
      } else if EndsRotation(w, a) {
        EndAsks(w, a);
      } else {
        OtherwiseAsks(w, a);
      }
      hide Possible, After, RotationsAreAskedFor, EndsRotation;
      RotationsStayAskedFor(After(w, a), actions[1..]);
    }
  }
}
