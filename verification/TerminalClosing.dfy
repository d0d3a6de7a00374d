/** How one terminal session is closed: requests from the window, from the end of the application
    and from the session's own loop meet over the table of command senders, the bounded command
    queue and a one-shot completion (apps/desktop/src-tauri/src/terminal.rs, `close`, `close_all`,
    `send`, `close_terminal_session` and the loop of `run_session`). */
module TerminalClosing {
  import opened Wrappers

  const COMMAND_QUEUE_CAPACITY: nat := 128

  /** `close_terminal_session`; what `close_all` does to this session; and the commands that go
      through `send`. */
  datatype Kind = CloseOne | CloseAll | Send

  /** `NotWaited`: `try_send` failed, so `close_all` goes on without this session. */
  datatype Answer = Completed | Queued | NotFound | SessionClosed | NotWaited

  datatype Phase =
    | Arrived
    | Looking
    | Holding
    | Waiting
    | Returning(answer: Answer)
    | Answered(answer: Answer)

  datatype Request = Request(kind: Kind, phase: Phase)

  /** A queued command; a close carries the completion of the request that sent it. */
  datatype Entry = Ordinary | Close(request: nat)

  /** Where the session is: authorized but not in the table yet, in its loop, past its loop, out of
      the table, out of both tables, completion sent, receiver dropped. */
  datatype Stage = Opening | Running | Ending | Unlisted | Unauthorized | Signalled | Gone

  /** `listed`: the table of senders holds the session; `authorized`: the session manager knows it;
      `taken`: the close command that ended the loop. */
  datatype System = System(
    listed: bool,
    authorized: bool,
    cleared: bool,
    stage: Stage,
    queue: seq<Entry>,
    taken: Option<nat>,
    requests: seq<Request>)

  /** `Break`: the transport ended, the shell closed or failed, or a batch was refused. */
  datatype Action =
    | Arrive(kind: Kind)
    | Advance(request: nat)
    | Insert
    | Obey(shellAccepts: bool)
    | SendersGone
    | Break
    | CleanUp
    | Clear

  function Init(): System {
    System(false, true, false, Opening, [], None, [])
  }

  /** `close` keeps its sender until it returns, `close_all` and `send` drop theirs before. */
  predicate HoldsSender(r: Request) {
    r.phase == Holding || (r.kind == CloseOne && r.phase == Waiting)
  }

  predicate SendersLeft(s: System) {
    s.listed || s.stage == Opening || exists k :: 0 <= k < |s.requests| && HoldsSender(s.requests[k])
  }

  /** The loop sent the completion of request `k`. */
  predicate Signals(s: System, k: nat) {
    s.taken == Some(k) && s.stage in {Signalled, Gone}
  }

  predicate CanAdvance(s: System, k: nat)
    requires k < |s.requests|
  {
    match s.requests[k].phase
    case Holding =>
      s.requests[k].kind == CloseAll || s.stage == Gone || |s.queue| < COMMAND_QUEUE_CAPACITY
    case Waiting => Signals(s, k) || s.stage == Gone
    case Answered(_) => false
    case _ => true
  }

  /** The window learns the id of a session from the answer to the command that started it, which
      comes after the session was put into the table. */
  predicate Enabled(s: System, a: Action) {
    match a
    case Arrive(kind) => kind == CloseAll || s.stage != Opening
    case Advance(k) => k < |s.requests| && CanAdvance(s, k)
    case Insert => s.stage == Opening
    case Obey(_) => s.stage == Running && s.queue != []
    case SendersGone => s.stage == Running && s.queue == [] && !SendersLeft(s)
    case Break => s.stage == Running
    case CleanUp => s.stage in {Ending, Unlisted, Unauthorized, Signalled}
    case Clear => true
  }

  function Moved(s: System, k: nat, phase: Phase): System
    requires k < |s.requests|
  {
    s.(requests := s.requests[k := s.requests[k].(phase := phase)])
  }

  /** What a request does with its sender. */
  function Sent(s: System, k: nat): System
    requires k < |s.requests| && s.requests[k].phase == Holding && CanAdvance(s, k)
  {
    var full := |s.queue| >= COMMAND_QUEUE_CAPACITY;
    match s.requests[k].kind
    case CloseOne => if s.stage == Gone then Moved(s, k, Returning(SessionClosed))
      else Moved(s.(queue := s.queue + [Close(k)]), k, Waiting)
    case CloseAll => if s.stage == Gone || full then Moved(s, k, Answered(NotWaited))
      else Moved(s.(queue := s.queue + [Close(k)]), k, Waiting)
    case Send => if s.stage == Gone then Moved(s, k, Answered(SessionClosed))
      else Moved(s.(queue := s.queue + [Ordinary]), k, Answered(Queued))
  }

  function Advanced(s: System, k: nat): System
    requires k < |s.requests| && CanAdvance(s, k)
  {
    var kind := s.requests[k].kind;
    match s.requests[k].phase
    case Arrived =>
      if kind == CloseAll then
        if s.listed then Moved(s.(listed := false), k, Holding) else Moved(s, k, Answered(NotFound))
      else Moved(s, k, if s.authorized then Looking else Answered(NotFound))
    case Looking =>
      if kind == CloseOne then
        if s.listed then Moved(s.(listed := false), k, Holding) else Moved(s, k, Returning(NotFound))
      else Moved(s, k, if s.listed then Holding else Answered(NotFound))
    case Holding => Sent(s, k)
    case Waiting =>
      var answer := if Signals(s, k) then Completed else SessionClosed;
      Moved(s, k, if kind == CloseOne then Returning(answer) else Answered(answer))
    case Returning(answer) => Moved(s.(authorized := false), k, Answered(answer))
    case Answered(_) => s
  }

  function Cleaned(s: System): System {
    match s.stage
    case Ending => s.(stage := Unlisted, listed := false)
    case Unlisted => s.(stage := Unauthorized, authorized := false)
    case Unauthorized => s.(stage := Signalled)
    case _ => s.(stage := Gone, queue := [])
  }

  function Next(s: System, a: Action): System
    requires Enabled(s, a)
  {
    match a
    case Arrive(kind) => s.(requests := s.requests + [Request(kind, Arrived)])
    case Advance(k) => Advanced(s, k)
    case Insert => s.(stage := Running, listed := true)
    case Obey(shellAccepts) =>
      var rest := s.(queue := s.queue[1..]);
      (match s.queue[0]
       case Ordinary => if shellAccepts then rest else rest.(stage := Ending)
       case Close(k) => rest.(stage := Ending, taken := Some(k)))
    case SendersGone => s.(stage := Ending)
    case Break => s.(stage := Ending)
    case CleanUp => Cleaned(s)
    case Clear => s.(authorized := false, cleared := true)
  }

  // What every step keeps

  /** A request that got the sender in order to close the session. */
  predicate Closer(r: Request) {
    r.kind != Send &&
    match r.phase
    case Holding | Waiting => true
    case Returning(answer) => answer != NotFound
    case Answered(answer) => answer != NotFound
    case _ => false
  }

  predicate Concluded(r: Request, answer: Answer) {
    r.phase == Answered(answer) || r.phase == Returning(answer)
  }

  predicate Fits(r: Request) {
    match r.phase
    case Arrived => true
    case Looking => r.kind != CloseAll
    case Holding => true
    case Waiting => r.kind != Send
    case Returning(answer) => r.kind == CloseOne && answer in {Completed, NotFound, SessionClosed}
    case Answered(answer) =>
      match r.kind
      case CloseOne => answer in {Completed, NotFound, SessionClosed}
      case CloseAll => answer in {Completed, NotFound, SessionClosed, NotWaited}
      case Send => answer in {Queued, NotFound, SessionClosed}
  }

  predicate RequestOk(s: System, k: nat)
    requires k < |s.requests|
  {
    var r := s.requests[k];
    && Fits(r)
    && (s.stage == Opening ==> r.kind == CloseAll)
    && (Closer(r) ==> !s.listed && s.stage != Opening)
    && (r.phase == Waiting ==> Close(k) in s.queue || s.taken == Some(k) || s.stage == Gone)
    && (Concluded(r, Completed) ==> Signals(s, k))
    && (Concluded(r, SessionClosed) ==> s.stage == Gone && s.taken != Some(k))
    && (r.kind == CloseOne && r.phase == Returning(NotFound) ==> !s.listed)
    && (r.kind == CloseOne && r.phase.Answered? ==> !s.authorized)
  }

  predicate EntryOk(s: System, e: Entry) {
    e.Close? ==> e.request < |s.requests| && s.requests[e.request].phase == Waiting
  }

  predicate TakenOk(s: System, k: nat) {
    k < |s.requests| && (s.requests[k].phase == Waiting || Concluded(s.requests[k], Completed))
  }

  predicate StageOk(s: System) {
    && (s.listed ==> s.stage in {Running, Ending})
    && (s.stage == Opening ==> s.queue == [])
    && (s.stage in {Opening, Running} ==> s.taken == None)
    && (Ended(s) ==> !s.authorized)
    && (s.listed && !s.cleared ==> s.authorized)
    && (s.stage == Opening && !s.cleared ==> s.authorized)
    && (s.cleared ==> !s.authorized)
    && (s.stage == Gone ==> s.queue == [])
    && |s.queue| <= COMMAND_QUEUE_CAPACITY
    && (s.taken.Some? ==> TakenOk(s, s.taken.value))
  }

  /** Neither table holds the session any more. */
  predicate Ended(s: System) {
    s.stage in {Unauthorized, Signalled, Gone}
  }

  ghost predicate OneCloser(s: System) {
    forall j, k :: 0 <= j < |s.requests| && 0 <= k < |s.requests| && Closer(s.requests[j]) && Closer(s.requests[k]) ==>
      j == k
  }

  /** Each close is queued by the request that waits for it, and once. */
  ghost predicate QueueOk(s: System) {
    && (forall i :: 0 <= i < |s.queue| ==> EntryOk(s, s.queue[i]))
    && (forall i, j :: 0 <= i < |s.queue| && 0 <= j < |s.queue| && s.queue[i].Close? && s.queue[j].Close? ==> i == j)
    && (forall i :: 0 <= i < |s.queue| && s.taken.Some? ==> s.queue[i] == Ordinary)
  }

  ghost predicate RequestsOk(s: System) {
    forall k :: 0 <= k < |s.requests| ==> RequestOk(s, k)
  }

  ghost predicate Inv(s: System) {
    StageOk(s) && OneCloser(s) && RequestsOk(s) && QueueOk(s)
  }

  /** While one request holds the sender in order to close, no other close is on its way. */
  lemma NoOtherClose(s: System, k: nat)
    requires Inv(s) && k < |s.requests| && s.requests[k].phase == Holding && s.requests[k].kind != Send
    ensures s.taken == None && forall i :: 0 <= i < |s.queue| ==> s.queue[i] == Ordinary
  {
    forall j | 0 <= j < |s.requests|
      ensures s.requests[j].phase == Waiting || Concluded(s.requests[j], Completed) ==> Closer(s.requests[j])
    {
      assert RequestOk(s, j);
    }
    forall i | 0 <= i < |s.queue| ensures s.queue[i] == Ordinary {
      assert EntryOk(s, s.queue[i]);
    }
  }

  // A request that goes on without queuing anything

  lemma MovedOthersKeep(s: System, k: nat, t: System, j: nat)
    requires Inv(s) && Enabled(s, Advance(k)) && t == Advanced(s, k) && t.queue == s.queue
    requires j < |s.requests| && j != k
    ensures RequestOk(t, j)
  {
    assert RequestOk(s, k) && RequestOk(s, j);
    assert t.requests[j] == s.requests[j];
  }

  lemma MovedKeepsItself(s: System, k: nat, t: System)
    requires Inv(s) && Enabled(s, Advance(k)) && t == Advanced(s, k) && t.queue == s.queue
    ensures RequestOk(t, k)
  {
    assert RequestOk(s, k);
  }

  lemma MovedKeeps(s: System, k: nat, t: System)
    requires Inv(s) && Enabled(s, Advance(k)) && t == Advanced(s, k) && t.queue == s.queue
    ensures RequestsOk(t)
  {
    MovedKeepsItself(s, k, t);
    forall j | 0 <= j < |t.requests| && j != k ensures RequestOk(t, j) {
      MovedOthersKeep(s, k, t, j);
    }
  }

  lemma MovedKeepsCloser(s: System, k: nat, t: System)
    requires Inv(s) && Enabled(s, Advance(k)) && t == Advanced(s, k) && t.queue == s.queue
    ensures OneCloser(t)
  {
    assert RequestOk(s, k);
    forall i, j | 0 <= i < |t.requests| && 0 <= j < |t.requests| && Closer(t.requests[i]) && Closer(t.requests[j])
      ensures i == j
    {
      assert RequestOk(s, i) && RequestOk(s, j);
    }
  }

  lemma MovedKeepsQueue(s: System, k: nat, t: System)
    requires Inv(s) && Enabled(s, Advance(k)) && t == Advanced(s, k) && t.queue == s.queue
    ensures QueueOk(t)
  {
    assert RequestOk(s, k);
    forall i | 0 <= i < |t.queue| ensures EntryOk(t, t.queue[i]) {
      assert EntryOk(s, s.queue[i]);
    }
  }

  lemma MovedKeepsStage(s: System, k: nat, t: System)
    requires Inv(s) && Enabled(s, Advance(k)) && t == Advanced(s, k) && t.queue == s.queue
    ensures StageOk(t)
  {
    assert RequestOk(s, k);
  }

  /** A request that puts its command into the queue. */
  lemma PushedKeeps(s: System, k: nat, e: Entry, phase: Phase, t: System)
    requires Inv(s) && k < |s.requests| && s.requests[k].phase == Holding
    requires s.stage != Gone && |s.queue| < COMMAND_QUEUE_CAPACITY
    requires s.requests[k].kind == Send ==> e == Ordinary && phase == Answered(Queued)
    requires s.requests[k].kind != Send ==> e == Close(k) && phase == Waiting
    requires t == Moved(s.(queue := s.queue + [e]), k, phase)
    ensures Inv(t)
  {
    assert RequestOk(s, k);
    if e.Close? {
      NoOtherClose(s, k);
    }
    forall j | 0 <= j < |t.requests| ensures RequestOk(t, j) {
      assert RequestOk(s, j);
      assert t.queue[|s.queue|] == e;
    }
    forall i | 0 <= i < |t.queue| ensures EntryOk(t, t.queue[i]) {
      if i < |s.queue| {
        assert EntryOk(s, s.queue[i]);
      }
    }
  }

  lemma AdvanceKeeps(s: System, k: nat)
    requires Inv(s) && Enabled(s, Advance(k))
    ensures Inv(Next(s, Advance(k)))
  {
    var t := Advanced(s, k);
    if t.queue == s.queue {
      MovedKeeps(s, k, t);
      MovedKeepsCloser(s, k, t);
      MovedKeepsQueue(s, k, t);
      MovedKeepsStage(s, k, t);
    } else if s.requests[k].kind == Send {
      PushedKeeps(s, k, Ordinary, Answered(Queued), t);
    } else {
      PushedKeeps(s, k, Close(k), Waiting, t);
    }
  }

  lemma ObeyKeepsRequests(s: System, shellAccepts: bool)
    requires Inv(s) && Enabled(s, Obey(shellAccepts))
    ensures RequestsOk(Next(s, Obey(shellAccepts)))
  {
    var t := Next(s, Obey(shellAccepts));
    assert EntryOk(s, s.queue[0]);
    forall k | 0 <= k < |t.requests| ensures RequestOk(t, k) {
      assert RequestOk(s, k);
      if s.requests[k].phase == Waiting && s.queue[0].Close? {
        assert RequestOk(s, s.queue[0].request);
      }
    }
  }

  lemma ObeyKeeps(s: System, shellAccepts: bool)
    requires Inv(s) && Enabled(s, Obey(shellAccepts))
    ensures Inv(Next(s, Obey(shellAccepts)))
  {
    var t := Next(s, Obey(shellAccepts));
    assert EntryOk(s, s.queue[0]);
    forall i | 0 <= i < |t.queue| ensures EntryOk(t, t.queue[i]) {
      assert EntryOk(s, s.queue[i + 1]);
    }
    ObeyKeepsRequests(s, shellAccepts);
  }

  lemma OtherKeeps(s: System, a: Action)
    requires Inv(s) && Enabled(s, a) && !a.Advance? && !a.Obey?
    ensures Inv(Next(s, a))
  {
    var t := Next(s, a);
    forall k | 0 <= k < |t.requests| ensures RequestOk(t, k) {
      if k < |s.requests| {
        assert RequestOk(s, k);
      }
    }
    forall i | 0 <= i < |t.queue| ensures EntryOk(t, t.queue[i]) {
      assert EntryOk(s, s.queue[i]);
    }
  }

  lemma NextKeeps(s: System, a: Action)
    requires Inv(s) && Enabled(s, a)
    ensures Inv(Next(s, a))
  {
    match a
    case Advance(k) => AdvanceKeeps(s, k);
    case Obey(shellAccepts) => ObeyKeeps(s, shellAccepts);
    case _ => OtherKeeps(s, a);
  }

  // Behaviours

  ghost predicate Continues(states: seq<System>, actions: seq<Action>) {
    && |states| == |actions| + 1
    && forall i :: 0 <= i < |actions| ==> Enabled(states[i], actions[i]) && states[i + 1] == Next(states[i], actions[i])
  }

  ghost predicate Reachable(s: System) {
    exists states, actions :: Continues(states, actions) && states[0] == Init() && states[|actions|] == s
  }

  lemma {:induction false} ContinuesKeeps(states: seq<System>, actions: seq<Action>, i: nat)
    requires Continues(states, actions) && Inv(states[0]) && i <= |actions|
    ensures Inv(states[i])
  {
    if i > 0 {
      ContinuesKeeps(states, actions, i - 1);
      NextKeeps(states[i - 1], actions[i - 1]);
    }
  }

  lemma ReachableIsInv(s: System)
    requires Reachable(s)
    ensures Inv(s)
  {
    var states, actions :| Continues(states, actions) && states[0] == Init() && states[|actions|] == s;
    ContinuesKeeps(states, actions, |actions|);
  }

  lemma ReachableNext(s: System, a: Action)
    requires Reachable(s) && Enabled(s, a)
    ensures Reachable(Next(s, a))
  {
    var states, actions :| Continues(states, actions) && states[0] == Init() && states[|actions|] == s;
    var longer, more := states + [Next(s, a)], actions + [a];
    forall i | 0 <= i < |more| ensures Enabled(longer[i], more[i]) && longer[i + 1] == Next(longer[i], more[i]) {
      if i < |actions| {
        assert longer[i] == states[i] && longer[i + 1] == states[i + 1] && more[i] == actions[i];
      }
    }
    assert Continues(longer, more);
  }

  // One answer each

  predicate IsAnswered(s: System, k: nat) {
    k < |s.requests| && s.requests[k].phase.Answered?
  }

  lemma AnswerStays(s: System, a: Action, k: nat)
    requires Enabled(s, a) && IsAnswered(s, k)
    ensures IsAnswered(Next(s, a), k) && Next(s, a).requests[k] == s.requests[k]
  {
  }

  /** An answer once given is the only one, in every continuation. */
  lemma {:induction false} AnsweredOnce(states: seq<System>, actions: seq<Action>, i: nat, k: nat)
    requires Continues(states, actions) && IsAnswered(states[0], k) && i <= |actions|
    ensures IsAnswered(states[i], k) && states[i].requests[k] == states[0].requests[k]
  {
    if i > 0 {
      AnsweredOnce(states, actions, i - 1, k);
      AnswerStays(states[i - 1], actions[i - 1], k);
    }
  }

  /** What the answer to a request to close says: it is `Completed` exactly if its own command ended the loop,
      `SessionClosed` only once the session is gone by another way; all but one are told that there is no
      such session; and after an answer to `close_terminal_session` its window is never authorized. */
  lemma AnswerMeans(s: System, k: nat)
    requires Reachable(s) && IsAnswered(s, k) && s.requests[k].kind != Send
    ensures s.requests[k].phase.answer == Completed <==> s.taken == Some(k)
    ensures s.requests[k].phase.answer == Completed ==> s.stage in {Signalled, Gone}
    ensures s.requests[k].phase.answer == SessionClosed ==> s.stage == Gone
    ensures s.requests[k].phase.answer == NotWaited ==> s.requests[k].kind == CloseAll
    ensures s.requests[k].phase.answer != NotFound ==> !s.listed
    ensures forall j: nat :: IsAnswered(s, j) && j != k && s.requests[j].kind != Send ==>
              NotFound in {s.requests[j].phase.answer, s.requests[k].phase.answer}
    ensures s.requests[k].kind == CloseOne ==> !s.authorized
  {
    ReachableIsInv(s);
    assert RequestOk(s, k);
    forall j: nat | IsAnswered(s, j) && j != k && s.requests[j].kind != Send
      ensures NotFound in {s.requests[j].phase.answer, s.requests[k].phase.answer}
    {
      assert RequestOk(s, j);
      assert Closer(s.requests[j]) <==> s.requests[j].phase.answer != NotFound;
    }
  }

  /** The loop takes its oldest command. A close ends it, whatever the shell makes of it, and is remembered; any other
      command ends it exactly if the shell refuses it. */
  lemma TakenCommand(s: System, shellAccepts: bool)
    requires Enabled(s, Obey(shellAccepts))
    ensures var t := Next(s, Obey(shellAccepts));
            && s.queue == [s.queue[0]] + t.queue
            && (t.stage == Running <==> s.queue[0] == Ordinary && shellAccepts)
            && (t.stage != Running ==> t.stage == Ending)
            && t.taken == if s.queue[0].Close? then Some(s.queue[0].request) else s.taken
  {
  }

  /** The loop gives up for want of senders exactly if nothing is queued and nobody can queue anything any more. */
  lemma NobodyLeft(s: System)
    requires Reachable(s) && s.stage == Running
    ensures Enabled(s, SendersGone) <==>
              s.queue == [] && !s.listed && forall k :: 0 <= k < |s.requests| ==> s.requests[k].phase != Holding
  {
    ReachableIsInv(s);
    forall k | 0 <= k < |s.requests| && s.queue == [] ensures s.requests[k].phase != Waiting {
      assert RequestOk(s, k);
    }
  }

  /** A command that is sent is answered in one of three ways: no such session if the window is not authorized or the
      table does not list it, session closed if the receiver is gone, and otherwise it is queued, last. */
  lemma SendAnswers(s: System, k: nat)
    requires Enabled(s, Advance(k)) && s.requests[k].kind == Send
    ensures var t := Next(s, Advance(k));
            var r, phase := t.requests[k], s.requests[k].phase;
            && (r.phase == Answered(NotFound) <==>
                  (phase == Arrived && !s.authorized) || (phase == Looking && !s.listed))
            && (r.phase == Answered(SessionClosed) <==> phase == Holding && s.stage == Gone)
            && (r.phase == Answered(Queued) <==> phase == Holding && s.stage != Gone)
            && t == s.(requests := t.requests,
                       queue := if r.phase == Answered(Queued) then s.queue + [Ordinary] else s.queue)
    requires Reachable(s)
  {
    ReachableIsInv(s);
    assert RequestOk(s, k);
  }

  // After the end

  /** No request of index `n` or more got past the tables. */
  predicate LateOnesFail(s: System, n: nat) {
    forall k :: n <= k < |s.requests| ==> s.requests[k].phase in {Arrived, Answered(NotFound)}
  }

  lemma EndedStays(s: System, a: Action, n: nat)
    requires Inv(s) && Enabled(s, a) && Ended(s) && n <= |s.requests| && LateOnesFail(s, n)
    ensures Ended(Next(s, a)) && LateOnesFail(Next(s, a), n) && |s.requests| <= |Next(s, a).requests|
  {
  }

  lemma EndedIsUnlisted(s: System)
    requires Inv(s) && Ended(s)
    ensures !s.listed && !s.authorized
  {
  }

  lemma {:induction false} EndedHolds(states: seq<System>, actions: seq<Action>, i: nat)
    requires Continues(states, actions) && Inv(states[0]) && Ended(states[0]) && i <= |actions|
    ensures Inv(states[i]) && Ended(states[i]) && |states[0].requests| <= |states[i].requests|
    ensures LateOnesFail(states[i], |states[0].requests|)
  {
    if i > 0 {
      EndedHolds(states, actions, i - 1);
      var before, a := states[i - 1], actions[i - 1];
      assert Enabled(before, a) && states[i] == Next(before, a);
      NextKeeps(before, a);
      EndedStays(before, a, |states[0].requests|);
    }
  }

  /** After the session has ended neither table holds it in any continuation, and whatever arrives from
      then on, close or command, is told that there is no such session. */
  lemma EndedForGood(states: seq<System>, actions: seq<Action>, i: nat)
    requires Continues(states, actions) && Reachable(states[0]) && Ended(states[0]) && i <= |actions|
    ensures Ended(states[i]) && !states[i].listed && !states[i].authorized
    ensures |states[0].requests| <= |states[i].requests| && LateOnesFail(states[i], |states[0].requests|)
  {
    ReachableIsInv(states[0]);
    EndedHolds(states, actions, i);
    EndedIsUnlisted(states[i]);
  }

  // Every request is answered

  /** A step the session or a request takes on its own; new requests, a broken connection and clearing the
      session manager come from outside. */
  predicate Own(s: System, a: Action) {
    Enabled(s, a) && !a.Arrive? && !a.Break? && !a.Clear?
  }

  ghost predicate Quiet(s: System) {
    forall a :: !Own(s, a)
  }

  function PhaseWeight(p: Phase): nat {
    match p
    case Arrived => 6
    case Looking => 5
    case Holding => 4
    case Waiting => 2
    case Returning(_) => 1
    case Answered(_) => 0
  }

  function StageWeight(stage: Stage): nat {
    match stage
    case Opening => 6
    case Running => 5
    case Ending => 4
    case Unlisted => 3
    case Unauthorized => 2
    case Signalled => 1
    case Gone => 0
  }

  function Weight(requests: seq<Request>): nat {
    if requests == [] then 0 else PhaseWeight(requests[0].phase) + Weight(requests[1..])
  }

  function Rank(s: System): nat {
    Weight(s.requests) + |s.queue| + StageWeight(s.stage)
  }

  lemma {:induction false} WeightOfChanged(requests: seq<Request>, k: nat, r: Request)
    requires k < |requests|
    ensures Weight(requests[k := r]) + PhaseWeight(requests[k].phase) == Weight(requests) + PhaseWeight(r.phase)
  {
    if k == 0 {
      assert requests[k := r][1..] == requests[1..];
    } else {
      WeightOfChanged(requests[1..], k - 1, r);
      assert requests[k := r][1..] == requests[1..][k - 1 := r];
    }
  }

  lemma AdvanceDescends(s: System, k: nat)
    requires Enabled(s, Advance(k))
    ensures Rank(Advanced(s, k)) < Rank(s)
  {
    var t := Advanced(s, k);
    assert t.requests == s.requests[k := t.requests[k]] && t.stage == s.stage;
    assert PhaseWeight(t.requests[k].phase) + |t.queue| < PhaseWeight(s.requests[k].phase) + |s.queue|;
    WeightOfChanged(s.requests, k, t.requests[k]);
  }

  /** Only a new request raises the rank; every own step, and a broken connection, lowers it. */
  lemma StepDescends(s: System, a: Action)
    requires Enabled(s, a) && !a.Arrive?
    ensures if a.Clear? then Rank(Next(s, a)) == Rank(s) else Rank(Next(s, a)) < Rank(s)
  {
    if a.Advance? {
      AdvanceDescends(s, a.request);
    }
  }

  lemma WaitingMeansWork(s: System, k: nat)
    requires Inv(s) && k < |s.requests| && s.requests[k].phase == Waiting && !Enabled(s, Advance(k))
    ensures s.stage != Gone && (s.stage in {Opening, Running} ==> s.queue != [])
  {
    assert RequestOk(s, k);
  }

  lemma AtRestAllAnswered(s: System)
    requires Inv(s) && Quiet(s)
    ensures s.stage in {Running, Gone} && s.queue == []
    ensures forall k :: 0 <= k < |s.requests| ==> IsAnswered(s, k)
  {
    assert !Own(s, Insert) && !Own(s, CleanUp) && !Own(s, Obey(true));
    forall k | 0 <= k < |s.requests| ensures IsAnswered(s, k) {
      assert !Own(s, Advance(k));
      if s.requests[k].phase == Waiting {
        WaitingMeansWork(s, k);
      }
    }
  }

  /** At rest every request has its answer, and the session either goes on serving its queue, with both
      tables in agreement unless the session manager was cleared, or is over and in neither table: once
      any request has taken it out of the table, it does not stay half closed. */
  lemma QuietMeansAnswered(s: System)
    requires Reachable(s) && Quiet(s)
    ensures forall k :: 0 <= k < |s.requests| ==> IsAnswered(s, k)
    ensures s.stage in {Running, Gone} && s.queue == []
    ensures s.listed <==> s.stage == Running
    ensures s.authorized <==> s.stage == Running && !s.cleared
  {
    ReachableIsInv(s);
    AtRestAllAnswered(s);
    assert !Own(s, SendersGone);
    forall k | 0 <= k < |s.requests| ensures !HoldsSender(s.requests[k]) {
      assert IsAnswered(s, k);
    }
  }

  lemma SilentStep(s: System, a: Action)
    requires Reachable(s) && (Own(s, a) || (a.Break? && Enabled(s, a)))
    ensures Reachable(Next(s, a)) && Rank(Next(s, a)) < Rank(s) && |Next(s, a).requests| == |s.requests|
  {
    StepDescends(s, a);
    ReachableNext(s, a);
  }

  /** However the steps are interleaved, while nothing new arrives at most `Rank` of them follow, and when
      no more can be taken every request has been answered. */
  lemma {:induction false} SilenceAnswers(states: seq<System>, actions: seq<Action>)
    requires Continues(states, actions) && Reachable(states[0])
    requires forall i :: 0 <= i < |actions| ==> Own(states[i], actions[i]) || actions[i].Break?
    ensures Reachable(states[|actions|]) && |states[|actions|].requests| == |states[0].requests|
    ensures |actions| + Rank(states[|actions|]) <= Rank(states[0])
    ensures Quiet(states[|actions|]) ==> forall k :: 0 <= k < |states[0].requests| ==> IsAnswered(states[|actions|], k)
  {
    var n := |actions|;
    if n > 0 {
      SilenceAnswers(states[..n], actions[..n - 1]);
      SilentStep(states[n - 1], actions[n - 1]);
    }
    if Quiet(states[n]) {
      QuietMeansAnswered(states[n]);
    }
  }

  // Closing everything

  /** `close_all` goes on before the session is over exactly when it finds the queue full, or finds no sender
      although the session is not over. */
  lemma AnsweredEarly(s: System, k: nat)
    requires Reachable(s) && Enabled(s, Advance(k)) && s.requests[k].kind == CloseAll
    ensures var t := Next(s, Advance(k));
            IsAnswered(t, k) && !Ended(t) <==>
              && !Ended(s)
              && ((s.requests[k].phase == Holding && |s.queue| == COMMAND_QUEUE_CAPACITY)
                  || (s.requests[k].phase == Arrived && !s.listed))
  {
    ReachableIsInv(s);
    assert RequestOk(s, k);
  }

  lemma InitIsReachable()
    ensures Reachable(Init())
  {
    assert Continues([Init()], []);
  }

  lemma OneStep(s: System, a: Action) returns (t: System)
    requires Reachable(s) && Enabled(s, a)
    ensures Reachable(t) && t == Next(s, a)
  {
    ReachableNext(s, a);
    t := Next(s, a);
  }

  /** A session being served, with `count` commands waiting. */
  lemma {:induction false} Busy(count: nat) returns (s: System)
    requires count <= COMMAND_QUEUE_CAPACITY
    ensures Reachable(s) && s.stage == Running && s.listed && s.authorized && |s.queue| == count
    ensures |s.requests| == count
  {
    if count == 0 {
      InitIsReachable();
      s := OneStep(Init(), Insert);
    } else {
      var r := Busy(count - 1);
      s := OneStep(r, Arrive(Send));
      s := OneStep(s, Advance(count - 1));
      s := OneStep(s, Advance(count - 1));
      s := OneStep(s, Advance(count - 1));
    }
  }

  /** A full queue: `close_all` has its answer while the loop still runs, with all its commands ahead of it. */
  lemma FullQueueIsNotWaitedFor() returns (s: System)
    ensures Reachable(s) && IsAnswered(s, COMMAND_QUEUE_CAPACITY)
    ensures s.requests[COMMAND_QUEUE_CAPACITY] == Request(CloseAll, Answered(NotWaited))
    ensures s.stage == Running && s.authorized && |s.queue| == COMMAND_QUEUE_CAPACITY
  {
    s := Busy(COMMAND_QUEUE_CAPACITY);
    s := OneStep(s, Arrive(CloseAll));
    s := OneStep(s, Advance(COMMAND_QUEUE_CAPACITY));
    s := OneStep(s, Advance(COMMAND_QUEUE_CAPACITY));
  }

  /** A session that connects while everything is being closed: `close_all` finds nothing, and then the session
      is served, at rest and in both tables. */
  lemma ConnectingIsMissed() returns (s: System)
    ensures Reachable(s) && s.requests == [Request(CloseAll, Answered(NotFound))]
    ensures s.stage == Running && s.listed && s.authorized && Quiet(s)
  {
    InitIsReachable();
    s := OneStep(Init(), Arrive(CloseAll));
    s := OneStep(s, Advance(0));
    s := OneStep(s, Insert);
  }

  /** The loop has taken the sender out of use: four steps to the end. */
  lemma CleanedUp(r: System) returns (s: System)
    requires Reachable(r) && r.stage == Ending
    ensures Reachable(s) && s == r.(stage := Gone, listed := false, authorized := false, queue := [])
  {
    s := OneStep(r, CleanUp);
    s := OneStep(s, CleanUp);
    s := OneStep(s, CleanUp);
    s := OneStep(s, CleanUp);
  }

  lemma CloseQueued() returns (s: System)
    ensures Reachable(s)
    ensures s == System(false, true, false, Running, [Close(0)], None, [Request(CloseOne, Waiting)])
  {
    InitIsReachable();
    s := OneStep(Init(), Insert);
    s := OneStep(s, Arrive(CloseOne));
    s := OneStep(s, Advance(0));
    s := OneStep(s, Advance(0));
    assert s == System(false, true, false, Running, [], None, [Request(CloseOne, Holding)]);
    s := OneStep(s, Advance(0));
  }

  /** Both answers happen: the shell closes on its own before or after the close is taken from the queue. */
  lemma BothAnswersHappen(taken: bool) returns (s: System)
    ensures Reachable(s) && s.stage == Gone
    ensures s.requests == [Request(CloseOne, Answered(if taken then Completed else SessionClosed))]
  {
    s := CloseQueued();
    s := OneStep(s, if taken then Obey(true) else Break);
    s := CleanedUp(s);
    s := OneStep(s, Advance(0));
    s := OneStep(s, Advance(0));
  }
}
