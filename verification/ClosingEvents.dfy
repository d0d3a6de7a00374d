/** How the window learns the end of an attempt when the session manager may be cleared at any
    time (apps/desktop/src-tauri/src/session_manager.rs, apps/desktop/src-tauri/src/terminal.rs). */
module ClosingEvents {
  import opened Wrappers
  import opened SessionManager
  import opened AttemptDrivers

  predicate Began(d: Driver) {
    !d.pc.NotBegun? && d.pc != Returned(NeverBegan)
  }

  /** The window has been told how the attempt ended. */
  predicate Closed(events: seq<Stage>) {
    events != [] && events[|events| - 1] in {Connected, Cancelled, Failed}
  }

  /** Attempt ids are random: no two drivers have begun with the same one. */
  ghost predicate FreshAttempts(w: World) {
    forall i, j :: 0 <= i < j < |w.drivers| && Began(w.drivers[i]) && Began(w.drivers[j]) ==>
      w.drivers[i].id != w.drivers[j].id
  }

  /** The manager was cleared after driver `k` began and before it returned. */
  ghost predicate ClearedWhileRunning(worlds: seq<World>, actions: seq<Action>, n: nat, k: nat)
    requires n <= |actions| && n < |worlds|
  {
    exists c :: 0 <= c < n && actions[c].Clear? && k < |worlds[c].drivers| && Active(worlds[c].drivers[k])
  }

  /** Some of the stages were announced and nothing after them. */
  predicate Silent(d: Driver) {
    && 1 <= |d.events| <= 6 && d.events == STAGES[..|d.events|]
    && Began(d) && (d.pc.Returned? ==> !d.pc.outcome.Started?)
  }

  predicate Status(m: Manager, d: Driver, cleared: bool) {
    if cleared then Silent(d) && (Active(d) ==> d.id !in m.attempts) else TraceOk(d) && EntryOk(m, d)
  }

  // One driver

  lemma RunningIsSilent(d: Driver)
    requires TraceOk(d) && Active(d)
    ensures Silent(d)
  {
    assert [Created] == STAGES[..1] && STAGES == STAGES[..6];
  }

  /** Without its entry a driver announces nothing more and never connects. */
  lemma LostKeeps(m: Manager, d: Driver, ok: bool, sessionId: string)
    requires Silent(d) && Active(d) && d.id !in m.attempts
    ensures var (n, e) := Advanced(m, d, ok, sessionId); Silent(e) && n == m && e.id == d.id
  {
    match d.pc
    case Announcing(_) =>
    case Completing =>
    case Failing(_) =>
    case _ =>
  }

  /** No driver touches the entry of another id, and none touches any entry before it begins. */
  lemma AdvanceFrames(m: Manager, d: Driver, ok: bool, sessionId: string)
    ensures var (n, e) := Advanced(m, d, ok, sessionId);
            && e.id == d.id && m.tokens <= n.tokens
            && (Began(d) ==> Began(e))
            && (!Began(e) ==> n.attempts == m.attempts)
            && (forall id :: id != d.id ==> (id in n.attempts <==> id in m.attempts))
            && (forall id :: id != d.id && id in m.attempts ==> n.attempts[id] == m.attempts[id])
  {
    match d.pc
    case NotBegun =>
    case Announcing(_) =>
    case Completing =>
    case Failing(_) =>
    case _ =>
  }

  lemma OwnStep(m: Manager, d: Driver, ok: bool, sessionId: string, cleared: bool)
    requires Status(m, d, cleared) && !d.pc.Returned?
    ensures var (n, e) := Advanced(m, d, ok, sessionId); Status(n, e, cleared)
  {
    if cleared {
      LostKeeps(m, d, ok, sessionId);
    } else {
      AdvanceKeepsDriver(m, d, ok, sessionId);
    }
  }

  lemma OtherStep(m: Manager, d: Driver, ok: bool, sessionId: string, other: Driver, cleared: bool)
    requires Status(m, other, cleared)
    requires var e := Advanced(m, d, ok, sessionId).1; Began(e) && Began(other) ==> d.id != other.id
    ensures Status(Advanced(m, d, ok, sessionId).0, other, cleared)
  {
    AdvanceFrames(m, d, ok, sessionId);
  }

  /** The bare `?` after the OpeningChannel transition is taken exactly when the driver's entry is
      missing, another owner's, or not at Authenticating. */
  lemma BareExitWhen(m: Manager, d: Driver, ok: bool, sessionId: string)
    requires d.pc == Announcing(OpeningChannel)
    ensures Advanced(m, d, ok, sessionId).1.pc == Returned(Abandoned) <==>
              d.id !in m.attempts || m.attempts[d.id].owner != d.owner || m.attempts[d.id].stage != Authenticating
  {
  }

  // Every behaviour

  lemma FreshBefore(w: World, a: Action)
    requires Enabled(w, a) && FreshAttempts(Next(w, a))
    ensures FreshAttempts(w)
  {
    var v := Next(w, a);
    forall i, j | 0 <= i < j < |w.drivers| && Began(w.drivers[i]) && Began(w.drivers[j])
      ensures w.drivers[i].id != w.drivers[j].id {
      if a.Advance? {
        AdvanceFrames(w.manager, w.drivers[a.driver], a.ok, a.sessionId);
      }
      assert Began(v.drivers[i]) && Began(v.drivers[j]) && v.drivers[i].id == w.drivers[i].id
        && v.drivers[j].id == w.drivers[j].id;
    }
  }

  lemma StatusKept(w: World, a: Action, k: nat, cleared: bool)
    requires Enabled(w, a) && FreshAttempts(Next(w, a)) && k < |w.drivers| && Status(w.manager, w.drivers[k], cleared)
    ensures Status(Next(w, a).manager, Next(w, a).drivers[k], cleared || (a.Clear? && Active(w.drivers[k])))
  {
    match a
    case Advance(i, ok, sessionId) =>
      if i == k {
        OwnStep(w.manager, w.drivers[k], ok, sessionId, cleared);
      } else {
        var v := Next(w, a);
        assert v.drivers[k] == w.drivers[k] && v.drivers[i] == Advanced(w.manager, w.drivers[i], ok, sessionId).1;
        AdvanceFrames(w.manager, w.drivers[i], ok, sessionId);
        var low, high := if i < k then i else k, if i < k then k else i;
        assert Began(v.drivers[low]) && Began(v.drivers[high]) ==> v.drivers[low].id != v.drivers[high].id;
        OtherStep(w.manager, w.drivers[i], ok, sessionId, w.drivers[k], cleared);
      }
    case Clear =>
      if !cleared && Active(w.drivers[k]) {
        RunningIsSilent(w.drivers[k]);
      }
    case _ =>
  }

  lemma {:induction false} DriversGrow(worlds: seq<World>, actions: seq<Action>, c: nat, n: nat)
    requires Behaviour(worlds, actions) && c <= n <= |actions|
    ensures |worlds[c].drivers| <= |worlds[n].drivers|
    decreases n
  {
    if c < n {
      DriversGrow(worlds, actions, c, n - 1);
    }
  }

  lemma {:induction false} StatusHolds(worlds: seq<World>, actions: seq<Action>, n: nat, k: nat)
    requires Behaviour(worlds, actions) && n <= |actions| && k < |worlds[n].drivers| && FreshAttempts(worlds[n])
    ensures Status(worlds[n].manager, worlds[n].drivers[k], ClearedWhileRunning(worlds, actions, n, k))
  {
    var w := worlds[n - 1];
    FreshBefore(w, actions[n - 1]);
    if k < |w.drivers| {
      StatusHolds(worlds, actions, n - 1, k);
      StatusKept(w, actions[n - 1], k, ClearedWhileRunning(worlds, actions, n - 1, k));
      assert ClearedWhileRunning(worlds, actions, n, k) <==>
             ClearedWhileRunning(worlds, actions, n - 1, k) || (actions[n - 1].Clear? && Active(w.drivers[k]));
    } else {
      forall c | 0 <= c < n ensures k >= |worlds[c].drivers| {
        DriversGrow(worlds, actions, c, n - 1);
      }
    }
  }

  /** In every interleaving, with `clear` at any time, the window of an attempt that began is told
      how it ended if and only if the driver has returned and the manager was not cleared in between. */
  lemma ClosedUnlessCleared(worlds: seq<World>, actions: seq<Action>, n: nat, k: nat)
    requires Behaviour(worlds, actions) && n <= |actions| && k < |worlds[n].drivers| && FreshAttempts(worlds[n])
    requires Began(worlds[n].drivers[k])
    ensures Closed(worlds[n].drivers[k].events) <==>
              worlds[n].drivers[k].pc.Returned? && !ClearedWhileRunning(worlds, actions, n, k)
  {
    StatusHolds(worlds, actions, n, k);
    var d := worlds[n].drivers[k];
    if ClearedWhileRunning(worlds, actions, n, k) {
      assert d.events[|d.events| - 1] == STAGES[|d.events| - 1];
    } else if Active(d) {
      RunningIsSilent(d);
      assert d.events[|d.events| - 1] == STAGES[|d.events| - 1];
    }
  }

  /** A lost driver that is about to announce a stage before the last fails without a word. */
  lemma FailsSilently(r: World) returns (w: World)
    requires Reachable(r) && |r.drivers| == 1 && r.drivers[0].pc == Announcing(ConnectingTcp)
    requires r.drivers[0].id !in r.manager.attempts && r.drivers[0].token in r.manager.cancelled
              && r.manager.sessions == map[]
    ensures Reachable(w) && |w.drivers| == 1 && w.drivers[0] == r.drivers[0].(pc := Returned(Rejected))
  {
    ReachableNext(r, Advance(0, true, "s"));
    var waiting := Next(r, Advance(0, true, "s"));
    assert waiting == r.(drivers := [r.drivers[0].(pc := Waiting(ConnectingTcp))]);
    ReachableNext(waiting, Advance(0, true, "s"));
    var failing := Next(waiting, Advance(0, true, "s"));
    assert failing == r.(drivers := [r.drivers[0].(pc := Failing(true))]);
    ReachableNext(failing, Advance(0, true, "s"));
    w := Next(failing, Advance(0, true, "s"));
  }

  /** The manager is cleared while the driver connects: it returns through its ordinary failure
      path, not through the bare `?`, and its window is not told either. */
  lemma ClearSilencesARejection() returns (w: World)
    ensures Reachable(w) && |w.drivers| == 1 && w.drivers[0].pc == Returned(Rejected)
    ensures w.drivers[0].events == [Created, ResolvingDns]
  {
    var v := AboutToAnnounce(ConnectingTcp);
    assert v.drivers[0].events == STAGES[..2] == [Created, ResolvingDns];
    ReachableNext(v, Clear);
    w := FailsSilently(Next(v, Clear));
  }

  // Cancelling too late

  lemma OnlyConnecting(v: World) returns (w: World)
    requires Alone(v, Announcing(OpeningChannel))
    ensures Alone(w, Completing)
  {
    var d := v.drivers[0];
    AnnounceKeeps(v.manager, d, true, "s");
    AnnouncedOnce(v.manager, d, "s");
    ReachableNext(v, Advance(0, true, "s"));
    var u := Next(v, Advance(0, true, "s"));
    assert u.drivers[0].pc == Waiting(OpeningChannel);
    WaitKeeps(u.manager, u.drivers[0], true, "s");
    ReachableNext(u, Advance(0, true, "s"));
    w := Next(u, Advance(0, true, "s"));
  }

  /** The owner cancels after the last select: the flag is up, and the driver's next step connects. */
  lemma CancelledTooLateHappens() returns (w: World)
    ensures Reachable(w) && |w.drivers| == 1 && Active(w.drivers[0]) && w.drivers[0].token in w.manager.cancelled
    ensures Enabled(w, Advance(0, true, "s"))
    ensures Next(w, Advance(0, true, "s")).drivers[0].pc == Returned(Started("s"))
  {
    var v := AboutToAnnounce(OpeningChannel);
    var u := OnlyConnecting(v);
    var d := u.drivers[0];
    ReachableNext(u, Cancel(d.owner, d.id));
    w := Next(u, Cancel(d.owner, d.id));
    CancelledTooLate(w.manager, w.drivers[0], true, "s");
  }
}
