/** Connection stages, and the table of attempts and sessions that authorizes every command
    (crates/ssh-core/src/connection_state.rs, apps/desktop/src-tauri/src/session_manager.rs). */
module SessionManager {
  import opened Wrappers

  datatype Stage =
    | Created | ResolvingDns | ConnectingTcp | Handshaking | Authenticating | OpeningChannel
    | Connected | Closing | Closed | Cancelled | Failed

  predicate ValidTransition(from: Stage, to: Stage) {
    || (from, to) in {
         (Created, ResolvingDns), (ResolvingDns, ConnectingTcp), (ConnectingTcp, Handshaking),
         (Handshaking, Authenticating), (Authenticating, OpeningChannel), (OpeningChannel, Connected),
         (Connected, Closing), (Closing, Closed), (Connected, Closed)}
    || (from !in {Connected, Closing, Closed, Cancelled, Failed} && to in {Cancelled, Failed})
  }

  /** The place of a stage on the way of a connection that goes well and is closed in good order. */
  function Place(stage: Stage): Option<nat> {
    match stage
    case Created => Some(0)
    case ResolvingDns => Some(1)
    case ConnectingTcp => Some(2)
    case Handshaking => Some(3)
    case Authenticating => Some(4)
    case OpeningChannel => Some(5)
    case Connected => Some(6)
    case Closing => Some(7)
    case Closed => Some(8)
    case _ => None
  }

  /** Stages follow that way one by one; a connected one may also close at once; and one that is still being made
      may be cancelled or fail. Nothing follows closed, cancelled and failed. */
  lemma TransitionsAre(from: Stage, to: Stage)
    ensures ValidTransition(from, to) <==>
              || (Place(from).Some? && Place(to) == Some(Place(from).value + 1))
              || (from == Connected && to == Closed)
              || (Place(from).Some? && Place(from).value < 6 && (to == Cancelled || to == Failed))
  {
  }

  class SshConnectionStateMachine {
    var current: Stage

    constructor ()
      ensures current == Created
    {
      current := Created;
    }

    method Transition(next: Stage) returns (ok: bool)
      modifies this
      ensures ok == ValidTransition(old(current), next)
      ensures current == if ok then next else old(current)
    {
      if !ValidTransition(current, next) {
        return false;
      }
      current := next;
      ok := true;
    }
  }

  datatype Kind = Terminal | Sftp

  /** `token` names the shared cancellation flag handed to the driver of the attempt. */
  datatype Attempt = Attempt(owner: string, kind: Kind, stage: Stage, token: nat)

  datatype Session = Session(owner: string, kind: Kind, stage: Stage)

  datatype CommandError = InvalidConnectionAttempt | ConnectionAttemptConflict | SessionNotFound | SessionStateInvalid

  datatype Event = Event(attemptId: string, stage: Stage)

  /** `cancelled` holds the flags that have been raised, `tokens` how many were made. */
  datatype Manager = Manager(
    attempts: map<string, Attempt>,
    sessions: map<string, Session>,
    cancelled: set<nat>,
    tokens: nat)

  function NewManager(): Manager {
    Manager(map[], map[], {}, 0)
  }

  /** `valid`: the id parses as a random UUID. */
  function Begun(m: Manager, owner: string, id: string, kind: Kind, valid: bool): (Manager, Result<nat, CommandError>) {
    if !valid then (m, Err(InvalidConnectionAttempt))
    else if id in m.attempts then (m, Err(ConnectionAttemptConflict))
    else (m.(attempts := m.attempts[id := Attempt(owner, kind, Created, m.tokens)], tokens := m.tokens + 1),
      Ok(m.tokens))
  }

  predicate OwnsAttempt(m: Manager, owner: string, id: string) {
    id in m.attempts && m.attempts[id].owner == owner
  }

  function Transitioned(m: Manager, owner: string, id: string, stage: Stage): (Manager, Result<Event, CommandError>) {
    if !OwnsAttempt(m, owner, id) then (m, Err(SessionNotFound))
    else if !ValidTransition(m.attempts[id].stage, stage) then (m, Err(SessionStateInvalid))
    else (m.(attempts := m.attempts[id := m.attempts[id].(stage := stage)]), Ok(Event(id, stage)))
  }

  function Completed(m: Manager, owner: string, id: string, sessionId: string): (Manager, Result<Event, CommandError>) {
    if !OwnsAttempt(m, owner, id) then (m, Err(SessionNotFound))
    else if !ValidTransition(m.attempts[id].stage, Connected) then (m, Err(SessionStateInvalid))
    else
      var attempt := m.attempts[id];
      (m.(attempts := m.attempts - {id},
          sessions := m.sessions[sessionId := Session(attempt.owner, attempt.kind, Connected)]),
       Ok(Event(id, Connected)))
  }

  function Finished(m: Manager, owner: string, id: string, stage: Stage): (Manager, Option<Event>) {
    if !OwnsAttempt(m, owner, id) then (m, None)
    else (m.(attempts := m.attempts - {id}),
          if ValidTransition(m.attempts[id].stage, stage) then Some(Event(id, stage)) else None)
  }

  function CancelRaised(m: Manager, owner: string, id: string): (Manager, bool) {
    if !OwnsAttempt(m, owner, id) then (m, false)
    else (m.(cancelled := m.cancelled + {m.attempts[id].token}), true)
  }

  predicate Authorized(m: Manager, owner: string, sessionId: string, kind: Kind) {
    && sessionId in m.sessions
    && m.sessions[sessionId].owner == owner
    && m.sessions[sessionId].kind == kind
    && m.sessions[sessionId].stage == Connected
  }

  function SessionRemoved(m: Manager, sessionId: string, kind: Kind): Manager {
    if sessionId in m.sessions && m.sessions[sessionId].kind == kind
    then m.(sessions := m.sessions - {sessionId})
    else m
  }

  function Cleared(m: Manager): Manager {
    m.(attempts := map[], sessions := map[],
       cancelled := m.cancelled + set id | id in m.attempts :: m.attempts[id].token)
  }

  /** Only its owner ends an attempt or raises its flag, and is told so; what is announced is an end that may follow
      the stage the attempt is at. */
  lemma OwnersDecide(m: Manager, owner: string, id: string, stage: Stage)
    ensures var owns := id in m.attempts && m.attempts[id].owner == owner;
            && (id in Finished(m, owner, id, stage).0.attempts <==> id in m.attempts && !owns)
            && (stage == Cancelled || stage == Failed ==>
                  (Finished(m, owner, id, stage).1 == Some(Event(id, stage)) <==>
                    owns && Place(m.attempts[id].stage).Some? && Place(m.attempts[id].stage).value < 6))
            && (CancelRaised(m, owner, id).1 <==> owns)
            && (owns ==> m.attempts[id].token in CancelRaised(m, owner, id).0.cancelled)
            && (!owns ==> CancelRaised(m, owner, id).0 == m)
  {
  }

  class SshSessionManager {
    var attempts: map<string, Attempt>
    var sessions: map<string, Session>
    var cancelled: set<nat>
    var tokens: nat

    function View(): Manager
      reads this
    {
      Manager(attempts, sessions, cancelled, tokens)
    }

    constructor ()
      ensures View() == NewManager()
    {
      attempts, sessions, cancelled, tokens := map[], map[], {}, 0;
    }

    method BeginAttempt(owner: string, id: string, kind: Kind, valid: bool) returns (r: Result<nat, CommandError>)
      modifies this
      ensures (View(), r) == Begun(old(View()), owner, id, kind, valid)
    {
      if !valid {
        return Err(InvalidConnectionAttempt);
      }
      if id in attempts {
        return Err(ConnectionAttemptConflict);
      }
      var cancellation := tokens;
      tokens := tokens + 1;
      attempts := attempts[id := Attempt(owner, kind, Created, cancellation)];
      r := Ok(cancellation);
    }

    method TransitionAttempt(owner: string, id: string, stage: Stage) returns (r: Result<Event, CommandError>)
      modifies this
      ensures (View(), r) == Transitioned(old(View()), owner, id, stage)
    {
      if id !in attempts || attempts[id].owner != owner {
        return Err(SessionNotFound);
      }
      var attempt := attempts[id];
      if !ValidTransition(attempt.stage, stage) {
        return Err(SessionStateInvalid);
      }
      attempts := attempts[id := attempt.(stage := stage)];
      r := Ok(Event(id, stage));
    }

    /** Ids are drawn until one is free. */
    method NextSessionId(drawn: seq<string>) returns (id: string)
      requires exists i :: 0 <= i < |drawn| && drawn[i] !in sessions
      ensures id !in sessions && id in drawn
    {
      var i := 0;
      while drawn[i] in sessions
        invariant 0 <= i < |drawn|
        invariant exists j :: i <= j < |drawn| && drawn[j] !in sessions
        decreases |drawn| - i
      {
        i := i + 1;
      }
      id := drawn[i];
    }

    /** The attempt is taken out first and put back when it is not ready to connect. */
    method CompleteAttempt(owner: string, id: string, drawn: seq<string>)
      returns (sessionId: string, r: Result<Event, CommandError>)
      requires exists i :: 0 <= i < |drawn| && drawn[i] !in sessions
      modifies this
      ensures sessionId !in old(sessions)
      ensures (View(), r) == Completed(old(View()), owner, id, sessionId)
    {
      sessionId := NextSessionId(drawn);
      if id !in attempts || attempts[id].owner != owner {
        return sessionId, Err(SessionNotFound);
      }
      var attempt := attempts[id];
      attempts := attempts - {id};
      if !ValidTransition(attempt.stage, Connected) {
        attempts := attempts[id := attempt];
        assert attempts == old(attempts);
        return sessionId, Err(SessionStateInvalid);
      }
      sessions := sessions[sessionId := Session(attempt.owner, attempt.kind, Connected)];
      r := Ok(Event(id, Connected));
    }

    method FinishAttempt(owner: string, id: string, stage: Stage) returns (r: Option<Event>)
      modifies this
      ensures (View(), r) == Finished(old(View()), owner, id, stage)
    {
      if id !in attempts {
        return None;
      }
      var attempt := attempts[id];
      attempts := attempts - {id};
      if attempt.owner != owner {
        attempts := attempts[id := attempt];
        assert attempts == old(attempts);
        return None;
      }
      if !ValidTransition(attempt.stage, stage) {
        return None;
      }
      r := Some(Event(id, stage));
    }

    method CancelAttempt(owner: string, id: string) returns (found: bool)
      modifies this`cancelled
      ensures (View(), found) == CancelRaised(old(View()), owner, id)
    {
      if id !in attempts || attempts[id].owner != owner {
        return false;
      }
      cancelled := cancelled + {attempts[id].token};
      found := true;
    }

    method AuthorizeSession(owner: string, sessionId: string, kind: Kind) returns (ok: bool)
      ensures ok == Authorized(View(), owner, sessionId, kind)
    {
      ok := && sessionId in sessions
            && sessions[sessionId].owner == owner
            && sessions[sessionId].kind == kind
            && sessions[sessionId].stage == Connected;
    }

    method RemoveSession(sessionId: string, kind: Kind)
      modifies this`sessions
      ensures View() == SessionRemoved(old(View()), sessionId, kind)
    {
      if sessionId in sessions && sessions[sessionId].kind == kind {
        sessions := sessions - {sessionId};
      }
    }

    method Clear()
      modifies this
      ensures View() == Cleared(old(View()))
    {
      cancelled := cancelled + set id | id in attempts :: attempts[id].token;
      attempts, sessions := map[], map[];
    }
  }
}
