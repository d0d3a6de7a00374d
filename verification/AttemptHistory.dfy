/** How an attempt ends, told from what every step of its driver met
    (apps/desktop/src-tauri/src/terminal.rs, apps/desktop/src-tauri/src/sftp.rs,
    crates/ssh-core/src/session.rs), and which sessions the manager holds. */
module AttemptHistory {
  import opened Wrappers
  import opened SessionManager
  import opened AttemptDrivers
  import ClosingEvents

  /** Action `i` is a step of driver `k`. */
  predicate StepOf(actions: seq<Action>, i: nat, k: nat) {
    i < |actions| && actions[i].Advance? && actions[i].driver == k
  }

  /** Step `i` of driver `k` races the cancellation flag. */
  predicate AtSelect(worlds: seq<World>, i: nat, k: nat)
    requires i < |worlds| && k < |worlds[i].drivers|
  {
    worlds[i].drivers[k].pc.Waiting? || worlds[i].drivers[k].pc.ListingDirectory?
  }

  /** Step `i` of driver `k` is a select that finds its flag up. */
  predicate Flagged(worlds: seq<World>, i: nat, k: nat) {
    && i < |worlds| && k < |worlds[i].drivers| && AtSelect(worlds, i, k)
    && worlds[i].drivers[k].token in worlds[i].manager.cancelled
  }

  /** What step `i` of driver `k` awaits or checks went well: beginning with a valid id that is not in
      use, the key, the checks, each wait and the listing; and a select found its flag down. */
  predicate WentWell(worlds: seq<World>, actions: seq<Action>, i: nat, k: nat)
    requires i < |worlds| && StepOf(actions, i, k)
  {
    k < |worlds[i].drivers| &&
    var d := worlds[i].drivers[k];
    match d.pc
    case NotBegun => actions[i].ok && d.valid && d.id !in worlds[i].manager.attempts
    case ResolvingKey => actions[i].ok
    case Checking => actions[i].ok
    case Waiting(_) => actions[i].ok && !Flagged(worlds, i, k)
    case ListingDirectory => actions[i].ok && !Flagged(worlds, i, k)
    case _ => true
  }

  /** Every step driver `k` took so far went well. */
  ghost predicate AllWell(worlds: seq<World>, actions: seq<Action>, n: nat, k: nat)
    requires n <= |worlds|
  {
    forall i :: 0 <= i < n && StepOf(actions, i, k) ==> WentWell(worlds, actions, i, k)
  }

  /** Of the steps driver `k` took so far all but step `f` went well. */
  ghost predicate OnlyFailure(worlds: seq<World>, actions: seq<Action>, n: nat, k: nat, f: nat)
    requires n <= |worlds|
  {
    && f < n && StepOf(actions, f, k) && !WentWell(worlds, actions, f, k) && k < |worlds[f].drivers|
    && forall i :: 0 <= i < n && StepOf(actions, i, k) && i != f ==> WentWell(worlds, actions, i, k)
  }

  function LastEvent(d: Driver): Option<Stage> {
    if d.events == [] then None else Some(d.events[|d.events| - 1])
  }

  /** What the program counter of a driver says about the steps before. */
  ghost predicate PathOk(worlds: seq<World>, actions: seq<Action>, n: nat, k: nat)
    requires n < |worlds| && k < |worlds[n].drivers|
  {
    var d := worlds[n].drivers[k];
    match d.pc
    case Failing(cancelled) =>
      exists f: nat :: OnlyFailure(worlds, actions, n, k, f) && !worlds[f].drivers[k].pc.NotBegun?
        && (cancelled <==> Flagged(worlds, f, k))
    case Returned(Rejected) =>
      exists f: nat :: OnlyFailure(worlds, actions, n, k, f) && !worlds[f].drivers[k].pc.NotBegun?
        && LastEvent(d) == Some(if Flagged(worlds, f, k) then Cancelled else Failed)
    case Returned(NeverBegan) =>
      exists f: nat :: OnlyFailure(worlds, actions, n, k, f) && worlds[f].drivers[k].pc.NotBegun?
    case _ => AllWell(worlds, actions, n, k)
  }

  lemma OtherActions(worlds: seq<World>, actions: seq<Action>, n: nat, k: nat)
    requires 0 < n <= |worlds| && !StepOf(actions, n - 1, k)
    ensures AllWell(worlds, actions, n, k) <==> AllWell(worlds, actions, n - 1, k)
    ensures forall f: nat :: OnlyFailure(worlds, actions, n - 1, k, f) ==> OnlyFailure(worlds, actions, n, k, f)
  {
  }

  lemma OneMoreWell(worlds: seq<World>, actions: seq<Action>, n: nat, k: nat)
    requires 0 < n <= |worlds| && StepOf(actions, n - 1, k) && WentWell(worlds, actions, n - 1, k)
    ensures AllWell(worlds, actions, n, k) <==> AllWell(worlds, actions, n - 1, k)
    ensures forall f: nat :: OnlyFailure(worlds, actions, n - 1, k, f) ==> OnlyFailure(worlds, actions, n, k, f)
  {
  }

  lemma FirstFailure(worlds: seq<World>, actions: seq<Action>, n: nat, k: nat)
    requires 0 < n <= |worlds| && StepOf(actions, n - 1, k) && !WentWell(worlds, actions, n - 1, k)
    requires k < |worlds[n - 1].drivers| && AllWell(worlds, actions, n - 1, k)
    ensures OnlyFailure(worlds, actions, n, k, n - 1)
  {
  }

  /** Where one step that awaits or checks leads, by whether it went well. */
  lemma StepLeads(m: Manager, d: Driver, ok: bool, sessionId: string)
    requires TraceOk(d) && EntryOk(m, d) && !d.pc.Returned? && !d.pc.Failing?
    ensures var e := Advanced(m, d, ok, sessionId).1;
            var up := (d.pc.Waiting? || d.pc.ListingDirectory?) && d.token in m.cancelled;
            var well := match d.pc
                        case NotBegun => ok && d.valid && d.id !in m.attempts
                        case ResolvingKey => ok
                        case Checking => ok
                        case Waiting(_) => ok && !up
                        case ListingDirectory => ok && !up
                        case _ => true;
            && (well ==> !e.pc.NotBegun? && !e.pc.Failing? && (e.pc.Returned? ==> e.pc.outcome.Started?))
            && (!well ==> e.pc == if d.pc.NotBegun? then Returned(NeverBegan) else Failing(up))
  {
    match d.pc
    case Announcing(_) => StageIsAnnounced(m, d, ok, sessionId);
    case Completing => assert ValidTransition(m.attempts[d.id].stage, Connected);
    case _ =>
  }

  lemma OwnPath(worlds: seq<World>, actions: seq<Action>, n: nat, k: nat)
    requires 0 < n <= |actions| && Behaviour(worlds, actions) && NoClear(actions) && StepOf(actions, n - 1, k)
    requires k < |worlds[n - 1].drivers| && PathOk(worlds, actions, n - 1, k)
    ensures PathOk(worlds, actions, n, k)
  {
    var w, a := worlds[n - 1], actions[n - 1];
    var d := w.drivers[k];
    BehaviourKeeps(worlds, actions, n - 1);
    assert TraceOk(d) && EntryOk(w.manager, d);
    assert worlds[n].drivers[k] == Advanced(w.manager, d, a.ok, a.sessionId).1;
    if d.pc.Failing? {
      OneMoreWell(worlds, actions, n, k);
      FailKeeps(w.manager, d, a.ok, a.sessionId);
      FailReports(w.manager, d, a.ok, a.sessionId);
    } else {
      StepLeads(w.manager, d, a.ok, a.sessionId);
      if WentWell(worlds, actions, n - 1, k) {
        OneMoreWell(worlds, actions, n, k);
      } else {
        FirstFailure(worlds, actions, n, k);
      }
    }
  }

  lemma FailReports(m: Manager, d: Driver, ok: bool, sessionId: string)
    requires TraceOk(d) && EntryOk(m, d) && d.pc.Failing?
    ensures var e := Advanced(m, d, ok, sessionId).1;
            e.pc == Returned(Rejected) && LastEvent(e) == Some(if d.pc.cancelled then Cancelled else Failed)
  {
    var last := if d.pc.cancelled then Cancelled else Failed;
    assert d.events[|d.events| - 1] == STAGES[|d.events| - 1];
    assert ValidTransition(m.attempts[d.id].stage, last);
  }

  lemma {:induction false} PathHolds(worlds: seq<World>, actions: seq<Action>, n: nat, k: nat)
    requires Behaviour(worlds, actions) && NoClear(actions) && n <= |actions| && k < |worlds[n].drivers|
    ensures PathOk(worlds, actions, n, k)
  {
    if n > 0 {
      if k < |worlds[n - 1].drivers| {
        PathHolds(worlds, actions, n - 1, k);
        if StepOf(actions, n - 1, k) {
          OwnPath(worlds, actions, n, k);
        } else {
          OtherActions(worlds, actions, n, k);
          assert worlds[n].drivers[k] == worlds[n - 1].drivers[k];
        }
      } else {
        NoStepsYet(worlds, actions, n, k);
      }
    }
  }

  lemma NoStepsYet(worlds: seq<World>, actions: seq<Action>, n: nat, k: nat)
    requires 0 < n <= |actions| && Behaviour(worlds, actions) && |worlds[n - 1].drivers| <= k < |worlds[n].drivers|
    ensures worlds[n].drivers[k].pc.NotBegun?
    ensures forall i :: 0 <= i < n ==> !StepOf(actions, i, k)
  {
    forall i | 0 <= i < n ensures |worlds[i].drivers| <= k {
      ClosingEvents.DriversGrow(worlds, actions, i, n - 1);
    }
  }

  /** In every interleaving without clear: a driver that has returned started a session if and only if every
      step it took that awaits or checks something went well, and found its cancellation flag down. */
  lemma StartedWhen(worlds: seq<World>, actions: seq<Action>, n: nat, k: nat)
    requires Behaviour(worlds, actions) && NoClear(actions) && n <= |actions| && k < |worlds[n].drivers|
    requires worlds[n].drivers[k].pc.Returned?
    ensures worlds[n].drivers[k].pc.outcome.Started? <==>
              forall i :: 0 <= i < n && StepOf(actions, i, k) ==> WentWell(worlds, actions, i, k)
  {
    PathHolds(worlds, actions, n, k);
    NoLeakedAttempts(worlds, actions, n);
  }

  /** A driver that was rejected failed in exactly one step, and the window was last told it was cancelled if
      the flag was up at that select, and that it failed otherwise. */
  lemma RejectedWhy(worlds: seq<World>, actions: seq<Action>, n: nat, k: nat) returns (f: nat)
    requires Behaviour(worlds, actions) && NoClear(actions) && n <= |actions| && k < |worlds[n].drivers|
    requires worlds[n].drivers[k].pc == Returned(Rejected)
    ensures f < n && StepOf(actions, f, k) && !WentWell(worlds, actions, f, k)
    ensures forall i :: 0 <= i < n && StepOf(actions, i, k) && i != f ==> WentWell(worlds, actions, i, k)
    ensures LastEvent(worlds[n].drivers[k]) == Some(if Flagged(worlds, f, k) then Cancelled else Failed)
  {
    PathHolds(worlds, actions, n, k);
    f :| OnlyFailure(worlds, actions, n, k, f) && !worlds[f].drivers[k].pc.NotBegun?
         && LastEvent(worlds[n].drivers[k]) == Some(if Flagged(worlds, f, k) then Cancelled else Failed);
  }

  // The whole way to a session

  /** Driver `k` has taken a step from this program counter. */
  ghost predicate Took(worlds: seq<World>, actions: seq<Action>, n: nat, k: nat, pc: Pc)
    requires n <= |worlds|
  {
    exists i :: 0 <= i < n && StepOf(actions, i, k) && k < |worlds[i].drivers| && worlds[i].drivers[k].pc == pc
  }

  /** It began, took its key if it needs one, and made its checks. */
  ghost predicate Prepared(worlds: seq<World>, actions: seq<Action>, n: nat, k: nat)
    requires n < |worlds| && k < |worlds[n].drivers|
  {
    && Took(worlds, actions, n, k, NotBegun) && Took(worlds, actions, n, k, Checking)
    && (worlds[n].drivers[k].auth == PrivateKey ==> Took(worlds, actions, n, k, ResolvingKey))
  }

  /** It waited in every stage before number `reached`. */
  ghost predicate WaitedBefore(worlds: seq<World>, actions: seq<Action>, n: nat, k: nat, reached: nat)
    requires n <= |worlds|
  {
    forall stage :: Intermediate(stage) && Reached(stage) < reached ==> Took(worlds, actions, n, k, Waiting(stage))
  }

  /** What a driver has done before it is where it is. */
  ghost predicate Travelled(worlds: seq<World>, actions: seq<Action>, n: nat, k: nat)
    requires n < |worlds| && k < |worlds[n].drivers|
  {
    var d := worlds[n].drivers[k];
    match d.pc
    case ResolvingKey => Took(worlds, actions, n, k, NotBegun) && d.auth == PrivateKey
    case Checking =>
      && Took(worlds, actions, n, k, NotBegun)
      && (d.auth == PrivateKey ==> Took(worlds, actions, n, k, ResolvingKey))
    case Announcing(stage) =>
      Prepared(worlds, actions, n, k) && WaitedBefore(worlds, actions, n, k, Reached(stage))
    case Waiting(stage) => Prepared(worlds, actions, n, k) && WaitedBefore(worlds, actions, n, k, Reached(stage))
    case ListingDirectory => Prepared(worlds, actions, n, k) && WaitedBefore(worlds, actions, n, k, 7)
    case Completing =>
      && Prepared(worlds, actions, n, k) && WaitedBefore(worlds, actions, n, k, 7)
      && (d.kind == Sftp ==> Took(worlds, actions, n, k, ListingDirectory))
    case Returned(Started(_)) =>
      && Prepared(worlds, actions, n, k) && WaitedBefore(worlds, actions, n, k, 7)
      && (d.kind == Sftp ==> Took(worlds, actions, n, k, ListingDirectory))
    case _ => true
  }

  lemma TookStays(worlds: seq<World>, actions: seq<Action>, n: nat, k: nat)
    requires 0 < n < |worlds|
    ensures forall pc :: Took(worlds, actions, n - 1, k, pc) ==> Took(worlds, actions, n, k, pc)
    ensures StepOf(actions, n - 1, k) && k < |worlds[n - 1].drivers| ==>
              Took(worlds, actions, n, k, worlds[n - 1].drivers[k].pc)
  {
  }

  /** From where one step can lead to the program counter `pc`. */
  predicate CanLeadTo(d: Driver, pc: Pc) {
    match pc
    case ResolvingKey => d.pc.NotBegun? && d.auth == PrivateKey
    case Checking => d.pc.ResolvingKey? || (d.pc.NotBegun? && d.auth == Password)
    case Announcing(stage) =>
      if stage == ResolvingDns then d.pc.Checking?
      else d.pc.Waiting? && d.pc.stage != OpeningChannel && After(d.pc.stage) == stage
    case Waiting(stage) => d.pc == Announcing(stage)
    case ListingDirectory => d.pc == Waiting(OpeningChannel)
    case Completing => d.pc == if d.kind == Sftp then ListingDirectory else Waiting(OpeningChannel)
    case Returned(Started(_)) => d.pc.Completing?
    case _ => true
  }

  lemma StepLeadsTo(m: Manager, d: Driver, ok: bool, sessionId: string)
    requires TraceOk(d) && !d.pc.Returned?
    ensures var e := Advanced(m, d, ok, sessionId).1;
            e.auth == d.auth && e.kind == d.kind && CanLeadTo(d, e.pc)
  {
    match d.pc
    case Waiting(stage) => StagesTaken(stage);
    case Completing =>
    case _ =>
  }

  lemma OneMoreWait(worlds: seq<World>, actions: seq<Action>, n: nat, k: nat, stage: Stage)
    requires n <= |worlds| && Intermediate(stage) && WaitedBefore(worlds, actions, n, k, Reached(stage))
    requires Took(worlds, actions, n, k, Waiting(stage))
    ensures WaitedBefore(worlds, actions, n, k, Reached(stage) + 1)
  {
  }

  lemma TravelStays(worlds: seq<World>, actions: seq<Action>, n: nat, k: nat, reached: nat)
    requires 0 < n < |worlds| && k < |worlds[n - 1].drivers| && k < |worlds[n].drivers|
    requires worlds[n].drivers[k].auth == worlds[n - 1].drivers[k].auth
    ensures Prepared(worlds, actions, n - 1, k) ==> Prepared(worlds, actions, n, k)
    ensures WaitedBefore(worlds, actions, n - 1, k, reached) ==> WaitedBefore(worlds, actions, n, k, reached)
  {
    TookStays(worlds, actions, n, k);
  }

  lemma OwnTravel(worlds: seq<World>, actions: seq<Action>, n: nat, k: nat)
    requires 0 < n < |worlds| && StepOf(actions, n - 1, k) && k < |worlds[n - 1].drivers| && k < |worlds[n].drivers|
    requires Travelled(worlds, actions, n - 1, k) && TraceOk(worlds[n - 1].drivers[k])
    requires worlds[n].drivers[k].auth == worlds[n - 1].drivers[k].auth
    requires worlds[n].drivers[k].kind == worlds[n - 1].drivers[k].kind
    requires CanLeadTo(worlds[n - 1].drivers[k], worlds[n].drivers[k].pc)
    ensures Travelled(worlds, actions, n, k)
  {
    TookStays(worlds, actions, n, k);
    match worlds[n - 1].drivers[k].pc
    case Announcing(stage) => TravelStays(worlds, actions, n, k, Reached(stage));
    case Waiting(stage) =>
      TravelStays(worlds, actions, n, k, Reached(stage));
      OneMoreWait(worlds, actions, n, k, stage);
    case ListingDirectory => TravelStays(worlds, actions, n, k, 7);
    case Completing => TravelStays(worlds, actions, n, k, 7);
    case _ =>
  }

  lemma {:induction false} TravelHolds(worlds: seq<World>, actions: seq<Action>, n: nat, k: nat)
    requires Behaviour(worlds, actions) && NoClear(actions) && n <= |actions| && k < |worlds[n].drivers|
    ensures Travelled(worlds, actions, n, k)
  {
    if n > 0 {
      if k < |worlds[n - 1].drivers| {
        TravelHolds(worlds, actions, n - 1, k);
        if StepOf(actions, n - 1, k) {
          BehaviourKeeps(worlds, actions, n - 1);
          var d := worlds[n - 1].drivers[k];
          assert TraceOk(d);
          StepLeadsTo(worlds[n - 1].manager, d, actions[n - 1].ok, actions[n - 1].sessionId);
          OwnTravel(worlds, actions, n, k);
        } else {
          assert worlds[n].drivers[k] == worlds[n - 1].drivers[k];
          TookStays(worlds, actions, n, k);
        }
      } else {
        NoStepsYet(worlds, actions, n, k);
      }
    }
  }

  lemma StagesBefore(stage: Stage)
    ensures Intermediate(stage) <==> stage in {ResolvingDns, ConnectingTcp, Handshaking, Authenticating, OpeningChannel}
    ensures Reached(stage) < 7
  {
  }

  /** Nothing on the way is skipped: a driver that started a session began, took its private key exactly if that is
      how it authenticates, made its checks, waited in each of the five stages, and listed the
      directory if the session is for SFTP. */
  lemma NothingIsSkipped(worlds: seq<World>, actions: seq<Action>, n: nat, k: nat)
    requires Behaviour(worlds, actions) && NoClear(actions) && n <= |actions| && k < |worlds[n].drivers|
    requires worlds[n].drivers[k].pc.Returned? && worlds[n].drivers[k].pc.outcome.Started?
    ensures Took(worlds, actions, n, k, NotBegun) && Took(worlds, actions, n, k, Checking)
    ensures worlds[n].drivers[k].auth == PrivateKey ==> Took(worlds, actions, n, k, ResolvingKey)
    ensures forall stage :: stage in {ResolvingDns, ConnectingTcp, Handshaking, Authenticating, OpeningChannel} ==>
              Took(worlds, actions, n, k, Waiting(stage))
    ensures worlds[n].drivers[k].kind == Sftp ==> Took(worlds, actions, n, k, ListingDirectory)
  {
    TravelHolds(worlds, actions, n, k);
    forall stage | stage in {ResolvingDns, ConnectingTcp, Handshaking, Authenticating, OpeningChannel}
      ensures Took(worlds, actions, n, k, Waiting(stage))
    {
      StagesBefore(stage);
    }
  }

  // Which sessions there are

  /** Step `c` starts this session: a driver whose entry is in order completes. */
  predicate StartsSession(worlds: seq<World>, actions: seq<Action>, c: nat, sessionId: string) {
    && c < |actions| && c < |worlds| && actions[c].Advance? && actions[c].sessionId == sessionId
    && actions[c].driver < |worlds[c].drivers| && worlds[c].drivers[actions[c].driver].pc.Completing?
    && OwnsAttempt(worlds[c].manager, worlds[c].drivers[actions[c].driver].owner,
                   worlds[c].drivers[actions[c].driver].id)
    && worlds[c].manager.attempts[worlds[c].drivers[actions[c].driver].id].stage == OpeningChannel
  }

  function StartedSession(worlds: seq<World>, actions: seq<Action>, c: nat, sessionId: string): Session
    requires StartsSession(worlds, actions, c, sessionId)
  {
    var d := worlds[c].drivers[actions[c].driver];
    Session(d.owner, worlds[c].manager.attempts[d.id].kind, Connected)
  }

  /** Since step `c` the session was not removed and the manager not cleared. */
  predicate KeptSince(worlds: seq<World>, actions: seq<Action>, n: nat, sessionId: string, c: nat)
    requires n <= |actions| && StartsSession(worlds, actions, c, sessionId)
  {
    forall j :: c < j < n ==>
      actions[j] != Clear && actions[j] != Remove(sessionId, StartedSession(worlds, actions, c, sessionId).kind)
  }

  ghost predicate Alive(worlds: seq<World>, actions: seq<Action>, n: nat, sessionId: string, session: Session)
    requires n <= |actions|
  {
    exists c: nat :: c < n && StartsSession(worlds, actions, c, sessionId)
      && KeptSince(worlds, actions, n, sessionId, c)
      && session == StartedSession(worlds, actions, c, sessionId)
  }

  lemma AliveStep(worlds: seq<World>, actions: seq<Action>, n: nat, sessionId: string, session: Session)
    requires 0 < n <= |actions|
    ensures Alive(worlds, actions, n, sessionId, session) <==>
              || (StartsSession(worlds, actions, n - 1, sessionId)
                  && session == StartedSession(worlds, actions, n - 1, sessionId))
              || (Alive(worlds, actions, n - 1, sessionId, session)
                  && actions[n - 1] != Clear && actions[n - 1] != Remove(sessionId, session.kind))
  {
    if Alive(worlds, actions, n - 1, sessionId, session)
      && actions[n - 1] != Clear && actions[n - 1] != Remove(sessionId, session.kind) {
      var c: nat :| c < n - 1 && StartsSession(worlds, actions, c, sessionId)
        && KeptSince(worlds, actions, n - 1, sessionId, c)
        && session == StartedSession(worlds, actions, c, sessionId);
      assert KeptSince(worlds, actions, n, sessionId, c);
    }
  }

  /** What one step does to one session. */
  lemma SessionStep(w: World, a: Action, sessionId: string)
    requires Enabled(w, a)
    ensures var before, after := w.manager.sessions, Next(w, a).manager.sessions;
            if a.Advance? && a.sessionId == sessionId && StartsSession([w], [a], 0, sessionId) then
              sessionId in after && after[sessionId] == StartedSession([w], [a], 0, sessionId)
            else if a == Clear || (sessionId in before && a == Remove(sessionId, before[sessionId].kind)) then
              sessionId !in after
            else
              (sessionId in after <==> sessionId in before)
              && (sessionId in before ==> after[sessionId] == before[sessionId])
  {
    if a.Advance? {
      OnlyCompletingStarts(w.manager, w.drivers[a.driver], a.ok, a.sessionId);
    }
  }

  lemma OnlyCompletingStarts(m: Manager, d: Driver, ok: bool, sessionId: string)
    ensures Advanced(m, d, ok, sessionId).0.sessions ==
              if d.pc.Completing? && OwnsAttempt(m, d.owner, d.id) && m.attempts[d.id].stage == OpeningChannel
              then m.sessions[sessionId := Session(d.owner, m.attempts[d.id].kind, Connected)] else m.sessions
  {
    match d.pc
    case Completing =>
    case _ =>
  }

  /** In every behaviour, clear included, the manager holds a session exactly if a driver whose attempt was in order
      started it and it has been neither removed nor cleared since, under that attempt's owner and kind. */
  lemma {:induction false} SessionsAre(worlds: seq<World>, actions: seq<Action>, n: nat, sessionId: string)
    requires Behaviour(worlds, actions) && n <= |actions|
    ensures sessionId in worlds[n].manager.sessions <==>
              exists session :: Alive(worlds, actions, n, sessionId, session)
    ensures forall session :: Alive(worlds, actions, n, sessionId, session) ==>
              worlds[n].manager.sessions[sessionId] == session
  {
    if n > 0 {
      SessionsAre(worlds, actions, n - 1, sessionId);
      var w, a := worlds[n - 1], actions[n - 1];
      SessionStep(w, a, sessionId);
      assert StartsSession([w], [a], 0, sessionId) <==> StartsSession(worlds, actions, n - 1, sessionId);
      forall session ensures Alive(worlds, actions, n, sessionId, session) <==>
        || (StartsSession(worlds, actions, n - 1, sessionId)
            && session == StartedSession(worlds, actions, n - 1, sessionId))
        || (Alive(worlds, actions, n - 1, sessionId, session) && a != Clear && a != Remove(sessionId, session.kind))
      {
        AliveStep(worlds, actions, n, sessionId, session);
      }
    }
  }
}
