/** The four commands that start a session (password or private key, shell or SFTP), as program
    counters over one shared session manager, in every interleaving
    (apps/desktop/src-tauri/src/terminal.rs, apps/desktop/src-tauri/src/sftp.rs,
    crates/ssh-core/src/session.rs). */
module AttemptDrivers {
  import opened Wrappers
  import opened SessionManager

  datatype Auth = Password | PrivateKey

  /** How a driver returns. `Abandoned` is the bare `?` after the OpeningChannel transition,
      `Unfinished` the failure branch of `complete_attempt`. */
  datatype Outcome =
    | NeverBegan
    | Started(sessionId: string)
    | Rejected
    | Abandoned
    | Unfinished

  datatype Pc =
    | NotBegun
    | ResolvingKey
    | Checking
    | Announcing(stage: Stage)
    | Waiting(stage: Stage)
    | ListingDirectory
    | Completing
    | Failing(cancelled: bool)
    | Returned(outcome: Outcome)

  datatype Driver = Driver(
    owner: string,
    id: string,
    kind: Kind,
    auth: Auth,
    valid: bool,
    pc: Pc,
    token: nat,
    events: seq<Stage>)

  /** The stages every attempt goes through before it connects. */
  const STAGES: seq<Stage> := [Created, ResolvingDns, ConnectingTcp, Handshaking, Authenticating, OpeningChannel]

  function After(stage: Stage): Stage {
    match stage
    case Created => ResolvingDns
    case ResolvingDns => ConnectingTcp
    case ConnectingTcp => Handshaking
    case Handshaking => Authenticating
    case _ => OpeningChannel
  }

  /** A biased select: the cancellation flag is looked at before the awaited operation. */
  function Selected(m: Manager, d: Driver, ok: bool, onward: Pc): Driver {
    if d.token in m.cancelled then d.(pc := Failing(true))
    else if !ok then d.(pc := Failing(false))
    else d.(pc := onward)
  }

  function AfterWait(d: Driver, stage: Stage): Pc {
    if stage != OpeningChannel then Announcing(After(stage))
    else if d.kind == Sftp then ListingDirectory
    else Completing
  }

  /** One step of a driver. `ok` is the result of whatever it awaits or checks there. */
  function Advanced(m: Manager, d: Driver, ok: bool, sessionId: string): (Manager, Driver) {
    match d.pc
    case NotBegun =>
      if !ok then (m, d.(pc := Returned(NeverBegan)))
      else
        var (n, r) := Begun(m, d.owner, d.id, d.kind, d.valid);
        (n, match r
            case Err(_) => d.(pc := Returned(NeverBegan))
            case Ok(token) =>
              d.(token := token, events := [Created], pc := if d.auth == PrivateKey then ResolvingKey else Checking))
    case ResolvingKey => (m, d.(pc := if ok then Checking else Failing(false)))
    case Checking => (m, d.(pc := if ok then Announcing(ResolvingDns) else Failing(false)))
    case Announcing(stage) =>
      var (n, r) := Transitioned(m, d.owner, d.id, stage);
      (n, match r
          case Ok(event) => d.(events := d.events + [event.stage], pc := Waiting(stage))
          case Err(_) => if stage == OpeningChannel then d.(pc := Returned(Abandoned)) else d.(pc := Waiting(stage)))
    case Waiting(stage) => (m, Selected(m, d, ok, AfterWait(d, stage)))
    case ListingDirectory => (m, Selected(m, d, ok, Completing))
    case Completing =>
      var (n, r) := Completed(m, d.owner, d.id, sessionId);
      (match r
       case Ok(event) => (n, d.(events := d.events + [event.stage], pc := Returned(Started(sessionId))))
       case Err(_) =>
         var (n', event) := Finished(n, d.owner, d.id, Failed);
         (n', Reported(d, event).(pc := Returned(Unfinished))))
    case Failing(cancelled) =>
      var (n, event) := Finished(m, d.owner, d.id, if cancelled then Cancelled else Failed);
      (n, Reported(d, event).(pc := Returned(Rejected)))
    case Returned(_) => (m, d)
  }

  function Reported(d: Driver, event: Option<Event>): Driver {
    if event.Some? then d.(events := d.events + [event.value.stage]) else d
  }

  datatype World = World(manager: Manager, drivers: seq<Driver>)

  datatype Action =
    | Spawn(owner: string, id: string, kind: Kind, auth: Auth, valid: bool)
    | Advance(driver: nat, ok: bool, sessionId: string)
    | Cancel(owner: string, id: string)
    | Remove(sessionId: string, kind: Kind)
    | Clear

  function Init(): World {
    World(NewManager(), [])
  }

  predicate Enabled(w: World, a: Action) {
    a.Advance? ==> a.driver < |w.drivers| && !w.drivers[a.driver].pc.Returned? && a.sessionId !in w.manager.sessions
  }

  function Next(w: World, a: Action): World
    requires Enabled(w, a)
  {
    match a
    case Spawn(owner, id, kind, auth, valid) =>
      w.(drivers := w.drivers + [Driver(owner, id, kind, auth, valid, NotBegun, 0, [])])
    case Advance(i, ok, sessionId) =>
      var (m, d) := Advanced(w.manager, w.drivers[i], ok, sessionId);
      World(m, w.drivers[i := d])
    case Cancel(owner, id) => w.(manager := CancelRaised(w.manager, owner, id).0)
    case Remove(sessionId, kind) => w.(manager := SessionRemoved(w.manager, sessionId, kind))
    case Clear => w.(manager := Cleared(w.manager))
  }

  // What one driver keeps

  predicate Active(d: Driver) {
    !d.pc.NotBegun? && !d.pc.Returned?
  }

  /** How many stages have been announced at a program counter. */
  function Reached(stage: Stage): nat {
    match stage
    case Created => 1
    case ResolvingDns => 2
    case ConnectingTcp => 3
    case Handshaking => 4
    case Authenticating => 5
    case _ => 6
  }

  predicate Intermediate(stage: Stage) {
    stage in STAGES && stage != Created
  }

  /** The events already sent to the window, for every program counter. */
  predicate TraceOk(d: Driver) {
    match d.pc
    case NotBegun => d.events == []
    case ResolvingKey => d.events == [Created]
    case Checking => d.events == [Created]
    case Announcing(stage) => Intermediate(stage) && d.events == STAGES[..Reached(stage) - 1]
    case Waiting(stage) => Intermediate(stage) && d.events == STAGES[..Reached(stage)]
    case ListingDirectory => d.kind == Sftp && d.events == STAGES
    case Completing => d.events == STAGES
    case Failing(_) => 1 <= |d.events| <= 6 && d.events == STAGES[..|d.events|]
    case Returned(NeverBegan) => d.events == []
    case Returned(Started(_)) => d.events == STAGES + [Connected]
    case Returned(Rejected) =>
      && 2 <= |d.events| <= 7
      && d.events[..|d.events| - 1] == STAGES[..|d.events| - 1]
      && d.events[|d.events| - 1] in {Cancelled, Failed}
    case Returned(_) => false
  }

  /** An active driver's entry is its own, at the stage it last announced. */
  predicate EntryOk(m: Manager, d: Driver) {
    Active(d) ==>
      && d.id in m.attempts
      && d.events != []
      && m.attempts[d.id] == Attempt(d.owner, d.kind, d.events[|d.events| - 1], d.token)
      && d.token < m.tokens
  }

  predicate Produced(d: Driver, sessionId: string, session: Session) {
    && d.pc == Returned(Started(sessionId))
    && session == Session(d.owner, d.kind, Connected)
  }

  ghost predicate DriversOk(w: World) {
    forall i :: 0 <= i < |w.drivers| ==> TraceOk(w.drivers[i]) && EntryOk(w.manager, w.drivers[i])
  }

  ghost predicate Separate(w: World) {
    forall i, j :: 0 <= i < j < |w.drivers| && Active(w.drivers[i]) && Active(w.drivers[j]) ==>
      w.drivers[i].id != w.drivers[j].id && w.drivers[i].token != w.drivers[j].token
  }

  ghost predicate Running(w: World, id: string) {
    exists i :: 0 <= i < |w.drivers| && Active(w.drivers[i]) && w.drivers[i].id == id
  }

  ghost predicate Provenance(w: World, sessionId: string) {
    sessionId in w.manager.sessions ==>
      exists i :: 0 <= i < |w.drivers| && Produced(w.drivers[i], sessionId, w.manager.sessions[sessionId])
  }

  ghost predicate Inv(w: World) {
    && DriversOk(w)
    && Separate(w)
    && (forall id :: id in w.manager.attempts ==> Running(w, id))
    && (forall s :: s in w.manager.sessions ==> Provenance(w, s))
  }

  lemma StagesTaken(stage: Stage)
    requires Intermediate(stage)
    ensures STAGES[..Reached(stage)] == STAGES[..Reached(stage) - 1] + [stage]
    ensures ValidTransition(STAGES[Reached(stage) - 2], stage)
    ensures stage != OpeningChannel ==> Reached(After(stage)) == Reached(stage) + 1 && Intermediate(After(stage))
  {
  }

  predicate StartedOn(d: Driver, sessionId: string) {
    d.pc == Returned(Started(sessionId))
  }

  /** What one step of an active or starting driver does to the shared tables. */
  ghost predicate Framed(m: Manager, d: Driver, n: Manager, e: Driver, sessionId: string) {
    && e == d.(pc := e.pc, token := e.token, events := e.events)
    && !e.pc.NotBegun?
    && n.cancelled == m.cancelled && m.tokens <= n.tokens
    && (Active(d) ==> e.token == d.token)
    && (!Active(d) && Active(e) ==> d.id !in m.attempts && e.token == m.tokens)
    && (Active(e) ==> d.id in n.attempts)
    && (!Active(e) && Active(d) ==> d.id !in n.attempts)
    && (!Active(e) && !Active(d) ==> n == m)
    && (forall id :: id != d.id ==> (id in m.attempts <==> id in n.attempts))
    && (forall id :: id in m.attempts && id != d.id ==> n.attempts[id] == m.attempts[id])
    && (forall s :: StartedOn(e, s) ==> s == sessionId)
    && n.sessions == (if StartedOn(e, sessionId) then m.sessions[sessionId := Session(d.owner, d.kind, Connected)]
      else m.sessions)
  }

  lemma BeginKeeps(m: Manager, d: Driver, ok: bool, sessionId: string)
    requires TraceOk(d) && d.pc.NotBegun?
    ensures var (n, e) := Advanced(m, d, ok, sessionId);
            TraceOk(e) && EntryOk(n, e) && Framed(m, d, n, e, sessionId)
  {
  }

  lemma StageIsAnnounced(m: Manager, d: Driver, ok: bool, sessionId: string)
    requires TraceOk(d) && EntryOk(m, d) && d.pc.Announcing?
    ensures ValidTransition(m.attempts[d.id].stage, d.pc.stage)
    ensures Advanced(m, d, ok, sessionId) ==
              (m.(attempts := m.attempts[d.id := m.attempts[d.id].(stage := d.pc.stage)]),
               d.(events := d.events + [d.pc.stage], pc := Waiting(d.pc.stage)))
  {
    StagesTaken(d.pc.stage);
    assert d.events[|d.events| - 1] == STAGES[Reached(d.pc.stage) - 2];
  }

  lemma AnnounceKeeps(m: Manager, d: Driver, ok: bool, sessionId: string)
    requires TraceOk(d) && EntryOk(m, d) && d.pc.Announcing?
    ensures var (n, e) := Advanced(m, d, ok, sessionId);
            TraceOk(e) && EntryOk(n, e) && Framed(m, d, n, e, sessionId)
  {
    StageIsAnnounced(m, d, ok, sessionId);
    StagesTaken(d.pc.stage);
  }

  lemma CheckKeeps(m: Manager, d: Driver, ok: bool, sessionId: string)
    requires TraceOk(d) && EntryOk(m, d) && (d.pc.ResolvingKey? || d.pc.Checking?)
    ensures var (n, e) := Advanced(m, d, ok, sessionId);
            TraceOk(e) && EntryOk(n, e) && Framed(m, d, n, e, sessionId)
  {
    assert [Created] == STAGES[..1];
  }

  lemma WaitTrace(d: Driver)
    requires TraceOk(d) && (d.pc.Waiting? || d.pc.ListingDirectory?)
    ensures TraceOk(d.(pc := Failing(true))) && TraceOk(d.(pc := Failing(false)))
    ensures d.pc.Waiting? ==> TraceOk(d.(pc := AfterWait(d, d.pc.stage)))
    ensures d.pc.ListingDirectory? ==> TraceOk(d.(pc := Completing))
  {
    if d.pc.Waiting? {
      StagesTaken(d.pc.stage);
      assert |d.events| == Reached(d.pc.stage);
    }
    assert STAGES[..6] == STAGES;
  }

  lemma WaitKeeps(m: Manager, d: Driver, ok: bool, sessionId: string)
    requires TraceOk(d) && EntryOk(m, d) && (d.pc.Waiting? || d.pc.ListingDirectory?)
    ensures var (n, e) := Advanced(m, d, ok, sessionId);
            TraceOk(e) && EntryOk(n, e) && Framed(m, d, n, e, sessionId)
  {
    WaitTrace(d);
    MovedOn(m, d, Advanced(m, d, ok, sessionId).1.pc, sessionId);
  }

  lemma MovedOn(m: Manager, d: Driver, pc: Pc, sessionId: string)
    requires EntryOk(m, d) && Active(d) && Active(d.(pc := pc))
    ensures EntryOk(m, d.(pc := pc)) && Framed(m, d, m, d.(pc := pc), sessionId)
  {
  }

  lemma CompleteKeeps(m: Manager, d: Driver, ok: bool, sessionId: string)
    requires TraceOk(d) && EntryOk(m, d) && d.pc.Completing?
    ensures var (n, e) := Advanced(m, d, ok, sessionId);
            TraceOk(e) && EntryOk(n, e) && Framed(m, d, n, e, sessionId)
  {
    assert ValidTransition(m.attempts[d.id].stage, Connected);
  }

  lemma FailKeeps(m: Manager, d: Driver, ok: bool, sessionId: string)
    requires TraceOk(d) && EntryOk(m, d) && d.pc.Failing?
    ensures var (n, e) := Advanced(m, d, ok, sessionId);
            TraceOk(e) && EntryOk(n, e) && Framed(m, d, n, e, sessionId)
  {
    var last := if d.pc.cancelled then Cancelled else Failed;
    assert d.events[|d.events| - 1] == STAGES[|d.events| - 1];
    assert ValidTransition(m.attempts[d.id].stage, last);
    var e := Advanced(m, d, ok, sessionId).1;
    assert e.events == d.events + [last];
    assert e.events[..|e.events| - 1] == d.events;
  }

  /** Alone with its entry a driver keeps its trace and its entry, touches no other entry, never
      takes the exits that skip the clean-up, and gives up its entry exactly when it returns. */
  lemma AdvanceKeepsDriver(m: Manager, d: Driver, ok: bool, sessionId: string)
    requires TraceOk(d) && EntryOk(m, d) && !d.pc.Returned?
    ensures var (n, e) := Advanced(m, d, ok, sessionId);
            TraceOk(e) && EntryOk(n, e) && Framed(m, d, n, e, sessionId)
  {
    match d.pc
    case NotBegun => BeginKeeps(m, d, ok, sessionId);
    case Announcing(_) => AnnounceKeeps(m, d, ok, sessionId);
    case Completing => CompleteKeeps(m, d, ok, sessionId);
    case Failing(_) => FailKeeps(m, d, ok, sessionId);
    case ResolvingKey => CheckKeeps(m, d, ok, sessionId);
    case Checking => CheckKeeps(m, d, ok, sessionId);
    case _ => WaitKeeps(m, d, ok, sessionId);
  }

  // Every interleaving

  lemma AdvanceKeepsDrivers(w: World, i: nat, ok: bool, sessionId: string)
    requires Inv(w) && Enabled(w, Advance(i, ok, sessionId))
    ensures DriversOk(Next(w, Advance(i, ok, sessionId)))
  {
    var v := Next(w, Advance(i, ok, sessionId));
    AdvanceKeepsDriver(w.manager, w.drivers[i], ok, sessionId);
    forall j | 0 <= j < |v.drivers| ensures TraceOk(v.drivers[j]) && EntryOk(v.manager, v.drivers[j]) {
      if j != i {
        var d, other := w.drivers[i], w.drivers[j];
        assert v.drivers[j] == other;
        assert TraceOk(other) && EntryOk(w.manager, other);
        assert Active(other) ==> other.id != d.id || !Active(d);
      }
    }
  }

  lemma AdvanceSeparates(w: World, i: nat, ok: bool, sessionId: string)
    requires Inv(w) && Enabled(w, Advance(i, ok, sessionId))
    ensures Separate(Next(w, Advance(i, ok, sessionId)))
  {
    var v := Next(w, Advance(i, ok, sessionId));
    AdvanceKeepsDriver(w.manager, w.drivers[i], ok, sessionId);
    forall j | 0 <= j < |v.drivers| && j != i && Active(v.drivers[i]) && Active(v.drivers[j])
      ensures v.drivers[i].id != v.drivers[j].id && v.drivers[i].token != v.drivers[j].token
    {
      assert v.drivers[j] == w.drivers[j];
      assert EntryOk(w.manager, w.drivers[j]);
    }
  }

  lemma AdvanceKeepsOwnership(w: World, i: nat, ok: bool, sessionId: string, id: string)
    requires Inv(w) && Enabled(w, Advance(i, ok, sessionId))
    requires id in Next(w, Advance(i, ok, sessionId)).manager.attempts
    ensures Running(Next(w, Advance(i, ok, sessionId)), id)
  {
    var v := Next(w, Advance(i, ok, sessionId));
    AdvanceKeepsDriver(w.manager, w.drivers[i], ok, sessionId);
    if Active(v.drivers[i]) && id == w.drivers[i].id {
      assert v.drivers[i].id == id;
    } else {
      assert Running(w, id);
      var j :| 0 <= j < |w.drivers| && Active(w.drivers[j]) && w.drivers[j].id == id;
      assert v.drivers[j] == w.drivers[j];
    }
  }

  lemma AdvanceKeepsProvenance(w: World, i: nat, ok: bool, sessionId: string, s: string)
    requires Inv(w) && Enabled(w, Advance(i, ok, sessionId))
    ensures Provenance(Next(w, Advance(i, ok, sessionId)), s)
  {
    var v := Next(w, Advance(i, ok, sessionId));
    AdvanceKeepsDriver(w.manager, w.drivers[i], ok, sessionId);
    if s in v.manager.sessions {
      if StartedOn(v.drivers[i], s) {
        assert Produced(v.drivers[i], s, v.manager.sessions[s]);
      } else {
        assert Provenance(w, s);
        var j :| 0 <= j < |w.drivers| && Produced(w.drivers[j], s, w.manager.sessions[s]);
        assert v.drivers[j] == w.drivers[j];
      }
    }
  }

  lemma AdvanceKeeps(w: World, i: nat, ok: bool, sessionId: string)
    requires Inv(w) && Enabled(w, Advance(i, ok, sessionId))
    ensures Inv(Next(w, Advance(i, ok, sessionId)))
  {
    var v := Next(w, Advance(i, ok, sessionId));
    AdvanceKeepsDrivers(w, i, ok, sessionId);
    AdvanceSeparates(w, i, ok, sessionId);
    forall id | id in v.manager.attempts ensures Running(v, id) {
      AdvanceKeepsOwnership(w, i, ok, sessionId, id);
    }
    forall s | s in v.manager.sessions ensures Provenance(v, s) {
      AdvanceKeepsProvenance(w, i, ok, sessionId, s);
    }
  }

  lemma OthersKeep(w: World, a: Action)
    requires Inv(w) && !a.Advance? && !a.Clear?
    ensures Inv(Next(w, a))
  {
    var v := Next(w, a);
    assert v.manager.attempts == w.manager.attempts && v.manager.tokens == w.manager.tokens;
    assert forall j :: 0 <= j < |w.drivers| ==> v.drivers[j] == w.drivers[j];
    assert forall j :: |w.drivers| <= j < |v.drivers| ==> v.drivers[j].pc == NotBegun && v.drivers[j].events == [];
    assert forall s :: s in v.manager.sessions ==>
      s in w.manager.sessions && v.manager.sessions[s] == w.manager.sessions[s];
    SameDriversKeep(w, v);
  }

  lemma SameDriversKeep(w: World, v: World)
    requires Inv(w)
    requires v.manager.attempts == w.manager.attempts && v.manager.tokens == w.manager.tokens
    requires |w.drivers| <= |v.drivers|
    requires forall j :: 0 <= j < |w.drivers| ==> v.drivers[j] == w.drivers[j]
    requires forall j :: |w.drivers| <= j < |v.drivers| ==> v.drivers[j].pc == NotBegun && v.drivers[j].events == []
    requires forall s :: s in v.manager.sessions ==>
              s in w.manager.sessions && v.manager.sessions[s] == w.manager.sessions[s]
    ensures Inv(v)
  {
    forall j | 0 <= j < |v.drivers| ensures TraceOk(v.drivers[j]) && EntryOk(v.manager, v.drivers[j]) {
      if j < |w.drivers| {
        assert TraceOk(w.drivers[j]) && EntryOk(w.manager, w.drivers[j]);
      }
    }
    forall id | id in v.manager.attempts ensures Running(v, id) {
      assert Running(w, id);
      var j :| 0 <= j < |w.drivers| && Active(w.drivers[j]) && w.drivers[j].id == id;
      assert Active(v.drivers[j]);
    }
    forall s | s in v.manager.sessions ensures Provenance(v, s) {
      assert Provenance(w, s);
      var j :| 0 <= j < |w.drivers| && Produced(w.drivers[j], s, w.manager.sessions[s]);
      assert Produced(v.drivers[j], s, v.manager.sessions[s]);
    }
    assert Separate(v);
  }

  lemma NextKeeps(w: World, a: Action)
    requires Inv(w) && Enabled(w, a) && !a.Clear?
    ensures Inv(Next(w, a))
  {
    if a.Advance? {
      AdvanceKeeps(w, a.driver, a.ok, a.sessionId);
    } else {
      OthersKeep(w, a);
    }
  }

  ghost predicate Behaviour(worlds: seq<World>, actions: seq<Action>) {
    && |worlds| == |actions| + 1
    && worlds[0] == Init()
    && forall i :: 0 <= i < |actions| ==> Enabled(worlds[i], actions[i]) && worlds[i + 1] == Next(worlds[i], actions[i])
  }

  /** The application is not being torn down: nothing calls `clear`. */
  ghost predicate NoClear(actions: seq<Action>) {
    forall i :: 0 <= i < |actions| ==> !actions[i].Clear?
  }

  lemma {:induction false} BehaviourKeeps(worlds: seq<World>, actions: seq<Action>, i: nat)
    requires Behaviour(worlds, actions) && NoClear(actions) && i <= |actions|
    ensures Inv(worlds[i])
  {
    if i > 0 {
      BehaviourKeeps(worlds, actions, i - 1);
      NextKeeps(worlds[i - 1], actions[i - 1]);
    }
  }

  /** In every interleaving the attempts table holds exactly the ids of the drivers still running,
      so a driver that has returned left nothing behind, and no driver ever leaves through the
      bare `?` or the failure branch of `complete_attempt`. */
  lemma NoLeakedAttempts(worlds: seq<World>, actions: seq<Action>, i: nat)
    requires Behaviour(worlds, actions) && NoClear(actions) && i <= |actions|
    ensures forall id :: id in worlds[i].manager.attempts <==> Running(worlds[i], id)
    ensures forall k :: 0 <= k < |worlds[i].drivers| ==>
              worlds[i].drivers[k].pc != Returned(Abandoned) && worlds[i].drivers[k].pc != Returned(Unfinished)
  {
    BehaviourKeeps(worlds, actions, i);
    var w := worlds[i];
    forall k | 0 <= k < |w.drivers|
      ensures w.drivers[k].pc != Returned(Abandoned) && w.drivers[k].pc != Returned(Unfinished) {
      assert TraceOk(w.drivers[k]);
    }
    forall k | 0 <= k < |w.drivers| && Active(w.drivers[k]) ensures w.drivers[k].id in w.manager.attempts {
      assert EntryOk(w.manager, w.drivers[k]);
    }
  }

  /** The window sees Created, a contiguous run of the stages that follow, then at most one of
      Connected, Cancelled and Failed and nothing more; Connected only after all of them. */
  ghost predicate WellShaped(events: seq<Stage>) {
    || (|events| <= 6 && events == STAGES[..|events|])
    || events == STAGES + [Connected]
    || (2 <= |events| <= 7 && events[..|events| - 1] == STAGES[..|events| - 1]
      && events[|events| - 1] in {Cancelled, Failed})
  }

  lemma EventTraces(worlds: seq<World>, actions: seq<Action>, i: nat, k: nat)
    requires Behaviour(worlds, actions) && NoClear(actions) && i <= |actions| && k < |worlds[i].drivers|
    ensures WellShaped(worlds[i].drivers[k].events)
    ensures worlds[i].drivers[k].pc == Returned(Rejected) ==>
              worlds[i].drivers[k].events != []
                && worlds[i].drivers[k].events[|worlds[i].drivers[k].events| - 1] in {Cancelled, Failed}
    ensures Connected in worlds[i].drivers[k].events <==>
              worlds[i].drivers[k].pc.Returned? && worlds[i].drivers[k].pc.outcome.Started?
  {
    BehaviourKeeps(worlds, actions, i);
    var d := worlds[i].drivers[k];
    assert TraceOk(d);
    assert [Created] == STAGES[..1];
    assert STAGES[..6] == STAGES;
    if d.pc.Returned? && d.pc.outcome.Started? {
      assert d.events[6] == Connected;
    } else if d.pc.Returned? && d.pc.outcome.Rejected? {
      forall j | 0 <= j < |d.events| ensures d.events[j] != Connected {
        assert j < |d.events| - 1 ==> d.events[j] == d.events[..|d.events| - 1][j] == STAGES[j];
      }
    } else {
      forall j | 0 <= j < |d.events| ensures d.events[j] != Connected {
        assert d.events[j] == STAGES[j];
      }
    }
  }

  /** Entries in `attempts` are never connected or over; every entry in `sessions` is connected
      and has the owner and kind its attempt was begun with; authorization succeeds exactly for
      a live session under that owner and kind. */
  lemma SessionProvenance(worlds: seq<World>, actions: seq<Action>, i: nat, owner: string, sessionId: string,
      kind: Kind)
    requires Behaviour(worlds, actions) && NoClear(actions) && i <= |actions|
    ensures forall id :: id in worlds[i].manager.attempts ==> worlds[i].manager.attempts[id].stage in STAGES
    ensures Authorized(worlds[i].manager, owner, sessionId, kind) <==>
              && sessionId in worlds[i].manager.sessions
              && exists k ::
                   && 0 <= k < |worlds[i].drivers|
                   && worlds[i].drivers[k].owner == owner && worlds[i].drivers[k].kind == kind
                   && Produced(worlds[i].drivers[k], sessionId, worlds[i].manager.sessions[sessionId])
  {
    BehaviourKeeps(worlds, actions, i);
    var w := worlds[i];
    forall id | id in w.manager.attempts ensures w.manager.attempts[id].stage in STAGES {
      assert Running(w, id);
      var k :| 0 <= k < |w.drivers| && Active(w.drivers[k]) && w.drivers[k].id == id;
      EntryStage(w.manager, w.drivers[k]);
    }
  }

  lemma EntryStage(m: Manager, d: Driver)
    requires TraceOk(d) && EntryOk(m, d) && Active(d)
    ensures m.attempts[d.id].stage in STAGES
  {
    assert d.events[|d.events| - 1] == STAGES[|d.events| - 1];
  }

  // Cancellation

  /** The flag is up and the driver still has a select to pass, or it is already on its way out. */
  predicate Doomed(m: Manager, d: Driver) {
    && d.token in m.cancelled
    && !d.pc.NotBegun? && !d.pc.Completing?
    && (d.pc.Returned? ==> !d.pc.outcome.Started?)
  }

  /** Whatever the others do, a doomed driver stays doomed: it never ends connected. */
  lemma CancellationWins(w: World, a: Action, k: nat)
    requires Enabled(w, a) && k < |w.drivers| && Doomed(w.manager, w.drivers[k])
    ensures k < |Next(w, a).drivers| && Doomed(Next(w, a).manager, Next(w, a).drivers[k])
  {
    match a
    case Advance(i, ok, sessionId) =>
      FlagsStay(w.manager, w.drivers[i], ok, sessionId);
    case _ =>
  }

  lemma FlagsStay(m: Manager, d: Driver, ok: bool, sessionId: string)
    ensures Advanced(m, d, ok, sessionId).0.cancelled == m.cancelled
  {
    match d.pc
    case Completing =>
    case _ =>
  }

  /** Once the owner cancels an attempt whose last select is still ahead, the driver never ends
      with a session, in this interleaving or any other, with or without `clear`. */
  lemma {:induction false} CancelledNeverConnects(worlds: seq<World>, actions: seq<Action>, i: nat, j: nat, k: nat)
    requires Behaviour(worlds, actions) && i <= j <= |actions|
    requires k < |worlds[i].drivers| && Doomed(worlds[i].manager, worlds[i].drivers[k])
    ensures k < |worlds[j].drivers| && Doomed(worlds[j].manager, worlds[j].drivers[k])
    ensures worlds[j].drivers[k].pc.Returned? ==> !worlds[j].drivers[k].pc.outcome.Started?
    decreases j
  {
    if i < j {
      CancelledNeverConnects(worlds, actions, i, j - 1, k);
      CancellationWins(worlds[j - 1], actions[j - 1], k);
    }
  }

  /** The condition is exact: past its last select a running driver connects, flag or no flag. */
  lemma CancelledTooLate(m: Manager, d: Driver, ok: bool, sessionId: string)
    requires TraceOk(d) && EntryOk(m, d) && Active(d) && d.token in m.cancelled
    ensures Doomed(m, d) <==> !d.pc.Completing?
    ensures d.pc.Completing? ==> Advanced(m, d, ok, sessionId).1.pc == Returned(Started(sessionId))
  {
    if d.pc.Completing? {
      assert m.attempts[d.id].stage == OpeningChannel;
    }
  }

  /** Cancelling raises the flag of the one running driver with that owner and id, and of no other. */
  lemma CancelReachesItsOwner(worlds: seq<World>, actions: seq<Action>, i: nat, owner: string, id: string, k: nat)
    requires Behaviour(worlds, actions) && NoClear(actions) && i <= |actions|
    requires k < |worlds[i].drivers| && Active(worlds[i].drivers[k])
    ensures var d := worlds[i].drivers[k];
            d.token in Next(worlds[i], Cancel(owner, id)).manager.cancelled <==>
              d.token in worlds[i].manager.cancelled || (d.owner == owner && d.id == id)
  {
    BehaviourKeeps(worlds, actions, i);
    var w := worlds[i];
    assert EntryOk(w.manager, w.drivers[k]);
    if id in w.manager.attempts && id != w.drivers[k].id {
      TokensDiffer(w, id, k);
    }
    CancelFlagsOne(w.manager, w.drivers[k], owner, id);
  }

  lemma TokensDiffer(w: World, id: string, k: nat)
    requires DriversOk(w) && Separate(w) && id in w.manager.attempts && Running(w, id)
    requires k < |w.drivers| && Active(w.drivers[k]) && w.drivers[k].id != id
    ensures w.manager.attempts[id].token != w.drivers[k].token
  {
    var j :| 0 <= j < |w.drivers| && Active(w.drivers[j]) && w.drivers[j].id == id;
    assert EntryOk(w.manager, w.drivers[j]);
    assert if j < k then w.drivers[j].token != w.drivers[k].token else w.drivers[k].token != w.drivers[j].token;
  }

  lemma CancelFlagsOne(m: Manager, d: Driver, owner: string, id: string)
    requires Active(d) && EntryOk(m, d)
    requires id in m.attempts && id != d.id ==> m.attempts[id].token != d.token
    ensures d.token in CancelRaised(m, owner, id).0.cancelled <==>
              d.token in m.cancelled || (d.owner == owner && d.id == id)
  {
  }

  // Why `clear` is excluded

  ghost predicate Reachable(w: World) {
    exists worlds, actions :: Behaviour(worlds, actions) && worlds[|actions|] == w
  }

  lemma ReachableNext(w: World, a: Action)
    requires Reachable(w) && Enabled(w, a)
    ensures Reachable(Next(w, a))
  {
    var worlds, actions :| Behaviour(worlds, actions) && worlds[|actions|] == w;
    assert Behaviour(worlds + [Next(w, a)], actions + [a]);
  }

  /** One driver, its entry in order, nothing cancelled and no session yet. */
  ghost predicate Alone(w: World, pc: Pc) {
    && Reachable(w) && |w.drivers| == 1 && w.drivers[0].pc == pc && w.drivers[0].kind == Terminal
    && TraceOk(w.drivers[0]) && EntryOk(w.manager, w.drivers[0])
    && w.manager.cancelled == {} && w.manager.sessions == map[]
  }

  lemma Spawned() returns (w: World)
    ensures Alone(w, NotBegun) && w.drivers[0].valid && w.drivers[0].auth == Password && w.manager == NewManager()
  {
    assert Behaviour([Init()], []);
    ReachableNext(Init(), Spawn("main", "id", Terminal, Password, true));
    w := Next(Init(), Spawn("main", "id", Terminal, Password, true));
  }

  lemma StartingAlone() returns (w: World)
    ensures Alone(w, Announcing(ResolvingDns))
  {
    var v := Spawned();
    BeginKeeps(v.manager, v.drivers[0], true, "s");
    ReachableNext(v, Advance(0, true, "s"));
    var u := Next(v, Advance(0, true, "s"));
    assert u.drivers[0].pc == Checking;
    CheckKeeps(u.manager, u.drivers[0], true, "s");
    ReachableNext(u, Advance(0, true, "s"));
    w := Next(u, Advance(0, true, "s"));
  }

  /** One driver on its own gets as far as announcing any stage. */
  lemma {:induction false} AboutToAnnounce(stage: Stage) returns (w: World)
    requires Intermediate(stage)
    ensures Alone(w, Announcing(stage))
    decreases Reached(stage)
  {
    if stage == ResolvingDns {
      w := StartingAlone();
    } else {
      var previous := STAGES[Reached(stage) - 2];
      assert Intermediate(previous) && previous != OpeningChannel && After(previous) == stage;
      var v := AboutToAnnounce(previous);
      w := Passed(v, previous);
    }
  }

  lemma Passed(v: World, stage: Stage) returns (w: World)
    requires Alone(v, Announcing(stage)) && Intermediate(stage) && stage != OpeningChannel
    ensures Alone(w, Announcing(After(stage)))
  {
    AnnounceKeeps(v.manager, v.drivers[0], true, "s");
    AnnouncedOnce(v.manager, v.drivers[0], "s");
    ReachableNext(v, Advance(0, true, "s"));
    var u := Next(v, Advance(0, true, "s"));
    assert u.drivers[0].pc == Waiting(stage);
    WaitKeeps(u.manager, u.drivers[0], true, "s");
    ReachableNext(u, Advance(0, true, "s"));
    w := Next(u, Advance(0, true, "s"));
  }

  lemma AnnouncedOnce(m: Manager, d: Driver, sessionId: string)
    requires TraceOk(d) && EntryOk(m, d) && d.pc.Announcing?
    ensures Advanced(m, d, true, sessionId).1.pc == Waiting(d.pc.stage)
    ensures Advanced(m, d, true, sessionId).0.sessions == m.sessions
  {
    StagesTaken(d.pc.stage);
    assert d.events[|d.events| - 1] == STAGES[Reached(d.pc.stage) - 2];
  }

  /** When the application clears the manager under a driver that has just authenticated, the
      bare `?` is taken: the driver returns and its window is never told how the attempt ended. */
  lemma ClearReachesTheBareExit() returns (w: World)
    ensures Reachable(w) && |w.drivers| == 1 && w.drivers[0].pc == Returned(Abandoned)
    ensures Cancelled !in w.drivers[0].events && Failed !in w.drivers[0].events && Connected !in w.drivers[0].events
  {
    var v := AboutToAnnounce(OpeningChannel);
    ReachableNext(v, Clear);
    var u := Next(v, Clear);
    ReachableNext(u, Advance(0, true, "s"));
    w := Next(u, Advance(0, true, "s"));
    assert w.drivers[0].events == v.drivers[0].events == STAGES[..5];
  }
}
