/** Both ends of the terminal output window as one transition system: the session loop, the
    FIFO output channel, the window's counters and xterm queue, the promise chain, the
    acknowledgement call in progress and the session's command queue. */
module TerminalProtocol {
  import opened Wrappers
  import opened TerminalFlow
  import opened TerminalSession
  import opened TerminalClient

  const COMMAND_QUEUE_CAPACITY: nat := 128

  /** The link of the promise chain that is running. */
  datatype Call = Idle | Requested(sequence: nat) | Replied

  /** `rendered`, `unseen` and `refused` are history: the batches whose write callback fired,
      those counted without being shown, the last acknowledgement whose call failed. */
  datatype System = System(
    loop: Loop,
    commands: seq<SessionCommand>,
    channel: seq<Batch>,
    client: Client,
    call: Call,
    rendered: set<nat>,
    unseen: set<nat>,
    refused: nat)

  datatype Action =
    | Backend(poll: Poll)
    | FinishLoop(accepted: bool)
    | Deliver(shown: bool)
    | Render
    | Respond(sessionId: string)
    | Invoke
    | Enqueue
    | Refuse
    | Settle
    | User(command: SessionCommand)

  function Init(): System {
    System(NewLoop(), [], [], NewClient(), Idle, {}, {}, 0)
  }

  predicate Enabled(s: System, a: Action) {
    match a
    case Backend(p) =>
      s.loop.running && (if s.commands == [] then !p.received.Command? else p.received == Command(s.commands[0]))
    case FinishLoop(_) => !s.loop.running && !s.loop.finished
    case Deliver(_) => s.channel != []
    case Render => s.client.xterm != []
    case Respond(id) => s.client.sessionId.None? && id != ""
    case Invoke => s.call.Idle? && s.client.chain != []
    case Enqueue => s.call.Requested? && |s.commands| < COMMAND_QUEUE_CAPACITY && !s.loop.finished
    case Refuse => s.call.Requested?
    case Settle => s.call.Replied?
    case User(c) => !c.AcknowledgeOutput? && |s.commands| < COMMAND_QUEUE_CAPACITY
  }

  function Next(s: System, a: Action): System
    requires Enabled(s, a)
  {
    match a
    case Backend(p) =>
      var l := Step(s.loop, p);
      s.(loop := l,
         commands := if Select(s.loop.flow, p) == OnCommand && s.commands != [] then s.commands[1..] else s.commands,
         channel := s.channel + NewlySent(s.loop, l))
    case FinishLoop(accepted) =>
      var l := Finish(s.loop, accepted);
      s.(loop := l, channel := s.channel + NewlySent(s.loop, l))
    case Deliver(shown) =>
      s.(channel := s.channel[1..],
         client := OutputHandled(s.client, shown),
         unseen := if shown then s.unseen else s.unseen + {s.client.received + 1})
    case Render =>
      s.(client := CallbackFired(s.client), rendered := s.rendered + {s.client.xterm[0]})
    case Respond(id) => s.(client := SessionStarted(s.client, id))
    case Invoke =>
      s.(call := Requested(s.client.chain[0]), client := s.client.(chain := s.client.chain[1..]))
    case Enqueue => s.(call := Replied, commands := s.commands + [AcknowledgeOutput(s.call.sequence)])
    case Refuse => s.(call := Replied, refused := s.call.sequence)
    case Settle => s.(call := Idle)
    case User(c) => s.(commands := s.commands + [c])
  }

  function NewlySent(before: Loop, after: Loop): seq<Batch> {
    if |before.sent| <= |after.sent| then after.sent[|before.sent|..] else []
  }

  // The acknowledgements on their way, oldest first

  function Acks(commands: seq<SessionCommand>): seq<nat> {
    if commands == [] then []
    else (if commands[0].AcknowledgeOutput? then [commands[0].sequence] else []) + Acks(commands[1..])
  }

  function Calling(call: Call): seq<nat> {
    if call.Requested? then [call.sequence] else []
  }

  function Unsent(s: System): seq<nat> {
    Calling(s.call) + s.client.chain
  }

  function Pipeline(s: System): seq<nat> {
    Acks(s.commands) + Unsent(s)
  }

  lemma {:induction false} AcksOfAppended(commands: seq<SessionCommand>, c: SessionCommand)
    ensures Acks(commands + [c]) == Acks(commands) + if c.AcknowledgeOutput? then [c.sequence] else []
  {
    if commands != [] {
      assert (commands + [c])[1..] == commands[1..] + [c];
      AcksOfAppended(commands[1..], c);
    }
  }

  ghost predicate Increasing(numbers: seq<nat>) {
    forall i, j :: 0 <= i < j < |numbers| ==> numbers[i] < numbers[j]
  }

  /** Every batch up to `n` has been shown or was counted without being shown. */
  ghost predicate ShownUpTo(n: int, rendered: set<nat>, unseen: set<nat>) {
    forall m: nat :: 0 < m <= n ==> m in rendered || m in unseen
  }

  /** What may be acknowledged: the number of a batch that was not shown, or one up to which
      nothing is outstanding. */
  ghost predicate Accounted(n: int, rendered: set<nat>, unseen: set<nat>) {
    (n >= 0 && n in unseen) || ShownUpTo(n, rendered, unseen)
  }

  /** The client's half: counters, xterm queue and what has been shown. */
  ghost predicate ClientInv(c: Client, rendered: set<nat>, unseen: set<nat>) {
    && c.processed <= c.received
    && Increasing(c.xterm)
    && (forall n :: n in c.xterm ==> 0 < n <= c.received && n !in unseen)
    && (forall n :: n in rendered || n in unseen ==> 0 < n <= c.received)
    && rendered !! unseen
    && (forall n: nat :: 0 < n <= c.received ==> n <= c.processed || n in c.xterm)
    && (forall n: nat :: 0 < n <= c.received ==> n in rendered || n in unseen || n in c.xterm)
    && Accounted(c.processed, rendered, unseen)
    && (c.sessionId.None? || SessionKnown(c))
    && (if SessionKnown(c) then c.queued == c.processed else c.queued == 0)
  }

  /** The numbers on their way: in the command queue, then still at the client. */
  datatype Trail = Trail(sent: seq<nat>, unsent: seq<nat>, retired: int, queued: nat, refused: nat)

  function TrailOf(s: System): Trail {
    Trail(Acks(s.commands), Unsent(s), Retired(s.loop.flow), s.client.queued, s.refused)
  }

  /** Rising, none already applied or refused, the last one issued is still on its way, was applied,
      or was refused, and no refused one was applied. */
  ghost predicate TrailInv(a: Trail) {
    var all := a.sent + a.unsent;
    && Increasing(all)
    && (forall n :: n in all ==> a.retired < n <= a.queued && n != a.refused)
    && 0 <= a.retired <= a.queued
    && a.refused <= a.queued
    && (forall n :: n in a.unsent ==> a.refused < n)
    && (a.queued in all || a.queued == a.retired || a.queued == a.refused)
    && (a.refused > 0 ==> a.refused != a.retired)
  }

  ghost predicate TrailAccounted(a: Trail, rendered: set<nat>, unseen: set<nat>) {
    && (forall n :: n in a.sent + a.unsent ==> Accounted(n, rendered, unseen))
    && Accounted(a.retired, rendered, unseen)
  }

  ghost predicate PipelineInv(s: System) {
    TrailInv(TrailOf(s)) && TrailAccounted(TrailOf(s), s.rendered, s.unseen)
  }

  ghost predicate Inv(s: System) {
    && Consistent(s.loop)
    && s.client.received <= |s.loop.sent|
    && s.channel == s.loop.sent[s.client.received..]
    && ClientInv(s.client, s.rendered, s.unseen)
    && PipelineInv(s)
  }

  // What happens to the numbers on their way

  lemma HeadIsLeast(head: nat, rest: seq<nat>)
    requires Increasing([head] + rest)
    ensures Increasing(rest)
    ensures forall n :: n in rest ==> head < n && n in [head] + rest
  {
    var whole := [head] + rest;
    forall i, j | 0 <= i < j < |rest| ensures rest[i] < rest[j] {
      assert whole[i + 1] == rest[i] && whole[j + 1] == rest[j];
    }
    forall n | n in rest ensures head < n && n in whole {
      var i :| 0 <= i < |rest| && rest[i] == n;
      assert whole[0] == head && whole[i + 1] == n;
    }
  }

  lemma AppendedIsGreatest(front: seq<nat>, last: nat)
    requires Increasing(front) && forall n :: n in front ==> n < last
    ensures Increasing(front + [last])
    ensures last in front + [last]
    ensures forall n :: n in front + [last] <==> n in front || n == last
  {
    var whole := front + [last];
    forall i, j | 0 <= i < j < |whole| ensures whole[i] < whole[j] {
      assert whole[i] == front[i] && front[i] in front;
    }
  }

  lemma Suffix(front: seq<nat>, back: seq<nat>)
    requires Increasing(front + back)
    ensures Increasing(back)
    ensures forall n :: n in back ==> n in front + back
  {
    var whole := front + back;
    forall i, j | 0 <= i < j < |back| ensures back[i] < back[j] {
      assert whole[|front| + i] == back[i] && whole[|front| + j] == back[j];
    }
  }

  lemma Removed(front: seq<nat>, n: nat, back: seq<nat>)
    requires Increasing(front + [n] + back)
    ensures Increasing(front + back)
    ensures forall m :: m in front + [n] + back ==> m == n || m in front + back
    ensures forall m :: m in front + back ==> m in front + [n] + back
  {
    var whole, less := front + [n] + back, front + back;
    forall i, j | 0 <= i < j < |less| ensures less[i] < less[j] {
      var i', j' := if i < |front| then i else i + 1, if j < |front| then j else j + 1;
      assert whole[i'] == less[i] && whole[j'] == less[j];
    }
  }

  lemma TrailTaken(a: Trail, n: nat, rest: seq<nat>)
    requires TrailInv(a) && a.sent == [n] + rest
    ensures TrailInv(a.(sent := rest, retired := n))
  {
    assert a.sent + a.unsent == [n] + (rest + a.unsent);
    assert n in a.sent + a.unsent;
    HeadIsLeast(n, rest + a.unsent);
  }

  lemma TrailTakenAccounted(a: Trail, n: nat, rest: seq<nat>, rendered: set<nat>, unseen: set<nat>)
    requires TrailAccounted(a, rendered, unseen) && a.sent == [n] + rest
    ensures TrailAccounted(a.(sent := rest, retired := n), rendered, unseen)
  {
    assert a.sent + a.unsent == [n] + (rest + a.unsent);
    assert n in a.sent + a.unsent;
  }

  lemma TrailAppended(a: Trail, n: nat)
    requires TrailInv(a) && a.queued < n
    ensures TrailInv(a.(unsent := a.unsent + [n], queued := n))
  {
    assert a.sent + (a.unsent + [n]) == (a.sent + a.unsent) + [n];
    AppendedIsGreatest(a.sent + a.unsent, n);
  }

  lemma TrailAppendedAccounted(a: Trail, n: nat, rendered: set<nat>, unseen: set<nat>)
    requires TrailAccounted(a, rendered, unseen) && Accounted(n, rendered, unseen)
    ensures TrailAccounted(a.(unsent := a.unsent + [n], queued := n), rendered, unseen)
  {
    assert a.sent + (a.unsent + [n]) == (a.sent + a.unsent) + [n];
  }

  lemma TrailRefused(a: Trail, n: nat, rest: seq<nat>)
    requires TrailInv(a) && a.unsent == [n] + rest
    ensures TrailInv(a.(unsent := rest, refused := n))
  {
    assert n in a.unsent;
    assert a.sent + a.unsent == a.sent + [n] + rest;
    Suffix(a.sent, a.unsent);
    HeadIsLeast(n, rest);
    Removed(a.sent, n, rest);
    assert n !in a.sent by {
      if n in a.sent {
        BeforeIsLess(a.sent, n, rest);
      }
    }
  }

  lemma BeforeIsLess(front: seq<nat>, n: nat, rest: seq<nat>)
    requires Increasing(front + [n] + rest)
    ensures n !in front
  {
    var whole := front + [n] + rest;
    forall i | 0 <= i < |front| ensures front[i] != n {
      assert whole[i] == front[i] && whole[|front|] == n;
    }
  }

  lemma TrailRefusedAccounted(a: Trail, n: nat, rest: seq<nat>, rendered: set<nat>, unseen: set<nat>)
    requires TrailAccounted(a, rendered, unseen) && a.unsent == [n] + rest
    ensures TrailAccounted(a.(unsent := rest, refused := n), rendered, unseen)
  {
    assert forall m :: m in a.sent + rest ==> m in a.sent + a.unsent;
  }

  lemma TrailEnqueued(a: Trail, n: nat, rest: seq<nat>, rendered: set<nat>, unseen: set<nat>)
    requires TrailInv(a) && TrailAccounted(a, rendered, unseen) && a.unsent == [n] + rest
    ensures TrailInv(a.(sent := a.sent + [n], unsent := rest))
    ensures TrailAccounted(a.(sent := a.sent + [n], unsent := rest), rendered, unseen)
  {
    assert (a.sent + [n]) + rest == a.sent + a.unsent;
    assert forall m :: m in rest ==> m in a.unsent;
  }

  /** Showing more never takes an account away. */
  lemma TrailStays(a: Trail, rendered: set<nat>, unseen: set<nat>, rendered': set<nat>, unseen': set<nat>)
    requires TrailAccounted(a, rendered, unseen) && rendered <= rendered' && unseen <= unseen'
    ensures TrailAccounted(a, rendered', unseen')
  {
    forall n: int | Accounted(n, rendered, unseen) ensures Accounted(n, rendered', unseen') {
      AccountStays(n, rendered, unseen, rendered', unseen');
    }
  }

  lemma AccountStays(n: int, rendered: set<nat>, unseen: set<nat>, rendered': set<nat>, unseen': set<nat>)
    requires Accounted(n, rendered, unseen) && rendered <= rendered' && unseen <= unseen'
    ensures Accounted(n, rendered', unseen')
  {
  }

  // Every action keeps the invariant

  lemma FlushSends(l: Loop, accepted: bool)
    ensures l.sent <= FlushLoop(l, accepted).sent
    ensures Retired(FlushLoop(l, accepted).flow) == Retired(l.flow)
  {
  }

  lemma StepSends(l: Loop, p: Poll)
    requires Consistent(l) && l.running
    ensures l.sent <= Step(l, p).sent
    ensures Retired(Step(l, p).flow) ==
              if Select(l.flow, p) == OnCommand && p.received.Command? && p.received.command.AcknowledgeOutput?
              then Retired(Acknowledged(l.flow, p.received.command.sequence)) else Retired(l.flow)
  {
    if Select(l.flow, p) == OnEvent {
      match p.event.value {
        case Output(data) => FlushSends(l.(flow := Pushed(l.flow, data, p.now), read := l.read + data),
          p.channelAccepts);
        case ExtendedOutput(data) => FlushSends(l.(flow := Pushed(l.flow, data, p.now), read := l.read + data),
          p.channelAccepts);
        case _ =>
      }
    }
  }

  lemma OtherKeeps(s: System, t: System)
    requires PipelineInv(s) && TrailOf(t) == TrailOf(s) && s.rendered <= t.rendered && s.unseen <= t.unseen
    ensures PipelineInv(t)
  {
    TrailStays(TrailOf(s), s.rendered, s.unseen, t.rendered, t.unseen);
  }

  lemma AcknowledgementLoop(s: System, p: Poll, n: nat)
    requires s.loop.running && s.commands != [] && Enabled(s, Backend(p)) && Select(s.loop.flow, p) == OnCommand
    requires s.commands[0] == AcknowledgeOutput(n)
    ensures Next(s, Backend(p)).loop == s.loop.(flow := Acknowledged(s.loop.flow, n))
    ensures Next(s, Backend(p)).commands == s.commands[1..]
  {
    assert Step(s.loop, p) == OnReceived(s.loop, p.received, p.shellAccepts);
  }

  lemma FirstAcknowledgement(commands: seq<SessionCommand>, n: nat)
    requires commands != [] && commands[0] == AcknowledgeOutput(n)
    ensures Acks(commands) == [n] + Acks(commands[1..])
  {
  }

  lemma AcknowledgementTaken(s: System, p: Poll, n: nat)
    requires Window(s.loop.flow) && PipelineInv(s) && s.client.queued < s.loop.flow.nextSequence
    requires Enabled(s, Backend(p)) && Select(s.loop.flow, p) == OnCommand && s.commands != []
    requires s.commands[0] == AcknowledgeOutput(n)
    ensures TrailOf(Next(s, Backend(p))) == TrailOf(s).(sent := Acks(s.commands[1..]), retired := n)
    ensures TrailOf(s).sent == [n] + Acks(s.commands[1..])
  {
    FirstAcknowledgement(s.commands, n);
    AcknowledgementLoop(s, p, n);
    var a := TrailOf(s);
    assert (a.sent + a.unsent)[0] == n && n in a.sent + a.unsent;
    AcknowledgeRetires(s.loop.flow, n);
  }

  /** Taking the oldest command: an acknowledgement retires exactly up to its number. */
  lemma CommandKeeps(s: System, p: Poll)
    requires Window(s.loop.flow) && PipelineInv(s) && s.client.queued < s.loop.flow.nextSequence
    requires Enabled(s, Backend(p)) && Select(s.loop.flow, p) == OnCommand && s.commands != []
    ensures PipelineInv(Next(s, Backend(p)))
  {
    var t := Next(s, Backend(p));
    if s.commands[0].AcknowledgeOutput? {
      var n := s.commands[0].sequence;
      AcknowledgementTaken(s, p, n);
      TrailTaken(TrailOf(s), n, Acks(s.commands[1..]));
      TrailTakenAccounted(TrailOf(s), n, Acks(s.commands[1..]), s.rendered, s.unseen);
    } else {
      assert t.loop == OnReceived(s.loop, p.received, p.shellAccepts);
      OtherKeeps(s, t);
    }
  }

  lemma ChannelGrows(before: seq<Batch>, after: seq<Batch>, received: nat)
    requires before <= after && received <= |before|
    ensures before[received..] + after[|before|..] == after[received..]
  {
  }

  lemma BackendPipelineKeeps(s: System, p: Poll)
    requires Inv(s) && Enabled(s, Backend(p))
    ensures PipelineInv(Next(s, Backend(p)))
  {
    if Select(s.loop.flow, p) == OnCommand && s.commands != [] {
      CommandKeeps(s, p);
    } else {
      StepSends(s.loop, p);
      OtherKeeps(s, Next(s, Backend(p)));
    }
  }

  lemma BackendKeeps(s: System, p: Poll)
    requires Inv(s) && Enabled(s, Backend(p))
    ensures Inv(Next(s, Backend(p)))
  {
    StepKeeps(s.loop, p);
    BackendPipelineKeeps(s, p);
    StepSends(s.loop, p);
    ChannelGrows(s.loop.sent, Step(s.loop, p).sent, s.client.received);
  }

  /** Queueing an acknowledgement of what has been processed. */
  lemma QueueKeeps(s: System, t: System, c: Client, n: nat)
    requires PipelineInv(s)
    requires t == s.(client := AcknowledgementQueued(c, n), channel := t.channel,
                     rendered := t.rendered, unseen := t.unseen)
    requires c.chain == s.client.chain && c.queued == s.client.queued
    requires s.rendered <= t.rendered && s.unseen <= t.unseen && Accounted(t.client.processed, t.rendered, t.unseen)
    ensures PipelineInv(t)
  {
    TrailStays(TrailOf(s), s.rendered, s.unseen, t.rendered, t.unseen);
    if t.client.queued != s.client.queued {
      assert Unsent(t) == Unsent(s) + [t.client.queued];
      TrailAppended(TrailOf(s), t.client.queued);
      TrailAppendedAccounted(TrailOf(s), t.client.queued, t.rendered, t.unseen);
    }
  }

  lemma ShownKeeps(c: Client, rendered: set<nat>, unseen: set<nat>)
    requires ClientInv(c, rendered, unseen)
    ensures ClientInv(OutputHandled(c, true), rendered, unseen)
  {
    var d := OutputHandled(c, true);
    AppendedIsGreatest(c.xterm, d.received);
  }

  lemma UnseenKeeps(c: Client, rendered: set<nat>, unseen: set<nat>)
    requires ClientInv(c, rendered, unseen)
    ensures ClientInv(OutputHandled(c, false), rendered, unseen + {c.received + 1})
  {
    assert OutputHandled(c, false).processed == c.received + 1;
  }

  lemma CallbackAccounts(c: Client, rendered: set<nat>, unseen: set<nat>)
    requires ClientInv(c, rendered, unseen) && c.xterm != []
    ensures Accounted(c.xterm[0], rendered + {c.xterm[0]}, unseen)
    ensures Accounted(Max(c.processed, c.xterm[0]), rendered + {c.xterm[0]}, unseen)
  {
    var head, rest := c.xterm[0], c.xterm[1..];
    assert c.xterm == [head] + rest;
    HeadIsLeast(head, rest);
    assert head in c.xterm;
    forall m: nat | 0 < m <= head ensures m in rendered + {head} || m in unseen {
      assert m in c.xterm ==> m == head || m in rest;
    }
    assert ShownUpTo(head, rendered + {head}, unseen);
    AccountStays(c.processed, rendered, unseen, rendered + {head}, unseen);
  }

  lemma CallbackKeeps(c: Client, rendered: set<nat>, unseen: set<nat>)
    requires ClientInv(c, rendered, unseen) && c.xterm != []
    ensures ClientInv(CallbackFired(c), rendered + {c.xterm[0]}, unseen)
  {
    CallbackAccounts(c, rendered, unseen);
    RestOfQueue(c);
    var d := CallbackFired(c);
    assert d.processed == Max(c.processed, c.xterm[0]);
  }

  lemma RestOfQueue(c: Client)
    requires Increasing(c.xterm) && c.xterm != []
    ensures c.xterm[0] in c.xterm && Increasing(c.xterm[1..])
    ensures forall n :: n in c.xterm <==> n == c.xterm[0] || n in c.xterm[1..]
    ensures forall n :: n in c.xterm[1..] ==> c.xterm[0] < n
  {
    assert c.xterm == [c.xterm[0]] + c.xterm[1..];
    HeadIsLeast(c.xterm[0], c.xterm[1..]);
  }

  lemma ShowKeeps(s: System)
    requires Inv(s) && Enabled(s, Deliver(true))
    ensures Inv(Next(s, Deliver(true)))
  {
    ShownKeeps(s.client, s.rendered, s.unseen);
    OtherKeeps(s, Next(s, Deliver(true)));
  }

  lemma HideKeeps(s: System)
    requires Inv(s) && Enabled(s, Deliver(false))
    ensures Inv(Next(s, Deliver(false)))
  {
    UnseenKeeps(s.client, s.rendered, s.unseen);
    QueueKeeps(s, Next(s, Deliver(false)), s.client.(received := s.client.received + 1), s.client.received + 1);
  }

  lemma RenderKeeps(s: System)
    requires Inv(s) && Enabled(s, Render)
    ensures Inv(Next(s, Render))
  {
    CallbackKeeps(s.client, s.rendered, s.unseen);
    QueueKeeps(s, Next(s, Render), s.client.(xterm := s.client.xterm[1..]), s.client.xterm[0]);
  }

  lemma RespondKeeps(s: System, id: string)
    requires Inv(s) && Enabled(s, Respond(id))
    ensures Inv(Next(s, Respond(id)))
  {
    QueueKeeps(s, Next(s, Respond(id)), s.client.(sessionId := Some(id)), s.client.processed);
  }

  lemma RefuseKeeps(s: System)
    requires PipelineInv(s) && Enabled(s, Refuse)
    ensures PipelineInv(Next(s, Refuse))
  {
    var n := s.call.sequence;
    assert Unsent(s) == [n] + s.client.chain && Unsent(Next(s, Refuse)) == s.client.chain;
    TrailRefused(TrailOf(s), n, s.client.chain);
    TrailRefusedAccounted(TrailOf(s), n, s.client.chain, s.rendered, s.unseen);
  }

  lemma EnqueueKeeps(s: System)
    requires PipelineInv(s) && Enabled(s, Enqueue)
    ensures PipelineInv(Next(s, Enqueue))
  {
    var n := s.call.sequence;
    AcksOfAppended(s.commands, AcknowledgeOutput(n));
    assert Unsent(s) == [n] + s.client.chain && Unsent(Next(s, Enqueue)) == s.client.chain;
    TrailEnqueued(TrailOf(s), n, s.client.chain, s.rendered, s.unseen);
  }

  lemma CallKeeps(s: System, a: Action)
    requires PipelineInv(s) && Enabled(s, a) && (a.Invoke? || a.Settle? || a.User?)
    ensures PipelineInv(Next(s, a))
  {
    if a.User? {
      AcksOfAppended(s.commands, a.command);
    }
    if a.Invoke? {
      assert s.client.chain == [s.client.chain[0]] + s.client.chain[1..];
    }
    assert Unsent(Next(s, a)) == Unsent(s);
    OtherKeeps(s, Next(s, a));
  }

  lemma FinishSends(l: Loop, accepted: bool)
    ensures l.sent <= Finish(l, accepted).sent && Retired(Finish(l, accepted).flow) == Retired(l.flow)
  {
    FlushSends(l, accepted);
  }

  lemma FinishLoopKeeps(s: System, accepted: bool)
    requires Inv(s) && Enabled(s, FinishLoop(accepted))
    ensures Inv(Next(s, FinishLoop(accepted)))
  {
    var t := Next(s, FinishLoop(accepted));
    FinishKeeps(s.loop, accepted);
    FinishSends(s.loop, accepted);
    ChannelGrows(s.loop.sent, t.loop.sent, s.client.received);
    OtherKeeps(s, t);
  }

  lemma NextKeeps(s: System, a: Action)
    requires Inv(s) && Enabled(s, a)
    ensures Inv(Next(s, a))
  {
    match a
    case Backend(p) => BackendKeeps(s, p);
    case FinishLoop(accepted) => FinishLoopKeeps(s, accepted);
    case Deliver(shown) => if shown { ShowKeeps(s); } else { HideKeeps(s); }
    case Render => RenderKeeps(s);
    case Respond(id) => RespondKeeps(s, id);
    case Refuse => RefuseKeeps(s);
    case Enqueue => EnqueueKeeps(s);
    case _ => CallKeeps(s, a);
  }

  // Behaviours

  ghost predicate Behaviour(states: seq<System>, actions: seq<Action>) {
    && |states| == |actions| + 1
    && states[0] == Init()
    && forall i :: 0 <= i < |actions| ==> Enabled(states[i], actions[i]) && states[i + 1] == Next(states[i], actions[i])
  }

  ghost predicate Reachable(s: System) {
    exists states, actions :: Behaviour(states, actions) && states[|actions|] == s
  }

  lemma {:induction false} BehaviourKeeps(states: seq<System>, actions: seq<Action>, i: nat)
    requires Behaviour(states, actions) && i <= |actions|
    ensures Inv(states[i])
  {
    if i > 0 {
      BehaviourKeeps(states, actions, i - 1);
      NextKeeps(states[i - 1], actions[i - 1]);
    } else {
      assert Pipeline(Init()) == [];
    }
  }

  lemma ReachableIsInv(s: System)
    requires Reachable(s)
    ensures Inv(s)
  {
    var states, actions :| Behaviour(states, actions) && states[|actions|] == s;
    BehaviourKeeps(states, actions, |actions|);
  }

  lemma ReachableNext(s: System, a: Action)
    requires Reachable(s) && Enabled(s, a)
    ensures Reachable(Next(s, a))
  {
    var states, actions :| Behaviour(states, actions) && states[|actions|] == s;
    var longer, more := states + [Next(s, a)], actions + [a];
    forall i | 0 <= i < |more| ensures Enabled(longer[i], more[i]) && longer[i + 1] == Next(longer[i], more[i]) {
      if i < |actions| {
        assert longer[i] == states[i] && longer[i + 1] == states[i + 1] && more[i] == actions[i];
      }
    }
    assert Behaviour(longer, more);
  }

  // What the acknowledgements mean

  ghost predicate RetiredAreShown(s: System) {
    forall n: nat :: 0 < n <= Retired(s.loop.flow) ==> n in s.rendered
  }

  ghost predicate UnseenAreInFlight(s: System) {
    forall n :: n in s.unseen ==> Retired(s.loop.flow) < n
  }

  /** Although no number is transmitted, the n-th arrival is the batch the backend numbered n. All
      batches that left the backend's window were processed by the terminal if and only if none
      of them was counted without being shown; in particular always while a terminal is mounted. */
  lemma AcknowledgementsAreSound(s: System)
    requires Reachable(s)
    ensures s.client.received <= |s.loop.sent| && s.channel == s.loop.sent[s.client.received..]
    ensures s.loop.flow.nextSequence == |s.loop.sent| + 1
    ensures RetiredAreShown(s) <==> UnseenAreInFlight(s)
    ensures s.unseen == {} ==> RetiredAreShown(s)
  {
    ReachableIsInv(s);
    assert Accounted(Retired(s.loop.flow), s.rendered, s.unseen);
    if UnseenAreInFlight(s) {
      assert ShownUpTo(Retired(s.loop.flow), s.rendered, s.unseen);
    }
    if RetiredAreShown(s) {
      forall n | n in s.unseen ensures Retired(s.loop.flow) < n {
        assert n !in s.rendered;
      }
    }
  }

  /** When the session has ended, no batch was refused and nothing is left on its way to a
      terminal that was mounted throughout, every byte the shell wrote has been processed. */
  lemma EverythingIsShown(s: System)
    requires Reachable(s) && s.loop.finished && s.loop.lost == []
    requires s.channel == [] && s.client.xterm == [] && s.unseen == {}
    ensures Concat(s.loop.sent) == s.loop.read
    ensures forall n: nat :: 0 < n <= |s.loop.sent| ==> n in s.rendered
  {
    ReachableIsInv(s);
  }

  /** The guard against acknowledgements from the future never meets one. */
  lemma GuardNeverRejects(s: System, p: Poll, sequence: nat)
    requires Reachable(s) && Enabled(s, Backend(p)) && p.received == Command(AcknowledgeOutput(sequence))
    ensures sequence < s.loop.flow.nextSequence
    ensures Select(s.loop.flow, p) == OnCommand ==>
              Retired(Next(s, Backend(p)).loop.flow) == sequence > Retired(s.loop.flow)
  {
    ReachableIsInv(s);
    StepSends(s.loop, p);
    var a := TrailOf(s);
    FirstAcknowledgement(s.commands, sequence);
    assert (a.sent + a.unsent)[0] == sequence && sequence in a.sent + a.unsent;
    AcknowledgeRetires(s.loop.flow, sequence);
  }

  // Progress

  /** The steps the system can take on its own: no new shell output, no user, no failing call,
      the transport stays up and the command senders stay alive. */
  predicate Internal(s: System, a: Action) {
    && Enabled(s, a)
    && match a
       case Backend(p) => p.transport.None? && p.event.None? && !p.received.SendersGone?
         && Select(s.loop.flow, p) != Waiting
       case FinishLoop(_) => true
       case Deliver(_) => true
       case Render => true
       case Respond(_) => true
       case Invoke => true
       case Enqueue => true
       case Settle => true
       case Refuse => false
       case User(_) => false
  }

  ghost predicate Quiet(s: System) {
    forall a :: !Internal(s, a)
  }

  function Timer(s: System, now: nat): Action {
    Backend(Poll(now, None, if s.commands == [] then NothingQueued else Command(s.commands[0]), None, true, true))
  }

  /** The last acknowledgement the client issued is the one whose call failed. */
  predicate LastRefused(s: System) {
    0 < s.client.queued && s.refused == s.client.queued
  }

  /** The own steps other than the flush timer and the last flush: delivery, xterm, the start
      response, the promise chain, and the session loop taking a queued command. */
  predicate Draining(s: System, a: Action) {
    Internal(s, a) && !a.FinishLoop? && (a.Backend? ==> a.poll.received.Command?)
  }

  /** When none of them can be taken, everything sent was processed and the window is empty if and
      only if the last acknowledgement issued was not refused. */
  lemma NothingDrains(s: System)
    requires Inv(s) && s.loop.running && forall a :: !Draining(s, a)
    ensures s.channel == [] && s.client.xterm == [] && s.commands == [] && s.client.chain == [] && s.call == Idle
    ensures SessionKnown(s.client) && s.client.processed == |s.loop.sent|
    ensures s.loop.flow.inFlight == [] <==> !LastRefused(s)
  {
    assert !Draining(s, Deliver(true));
    assert !Draining(s, Render);
    assert !Draining(s, Respond("s"));
    assert !Draining(s, Invoke);
    assert !Draining(s, Enqueue);
    assert !Draining(s, Settle);
    assert !Draining(s, Timer(s, 0));
    assert TrailOf(s).sent + TrailOf(s).unsent == [];
    assert s.client.received !in s.client.xterm;
  }

  /** No deadlock: whenever the loop runs and nothing can move, everything sent was processed, and
      the window is empty if and only if the last acknowledgement issued was not refused. A
      drained window reads again. */
  lemma QuietMeansDrained(s: System)
    requires Reachable(s) && s.loop.running && Quiet(s)
    ensures s.channel == [] && s.client.xterm == [] && s.commands == [] && s.client.chain == [] && s.call == Idle
    ensures s.loop.flow.pending == []
    ensures SessionKnown(s.client) && s.client.processed == |s.loop.sent|
    ensures s.loop.flow.inFlight == [] <==> !LastRefused(s)
    ensures s.loop.flow.inFlight == [] ==> CanRead(s.loop.flow)
  {
    ReachableIsInv(s);
    NothingDrains(s);
    var late := if s.loop.flow.pendingSince.Some? then s.loop.flow.pendingSince.value + OUTPUT_BATCH_MAX_DELAY else 0;
    assert !Internal(s, Timer(s, late));
  }

  /** Unless its last acknowledgement was refused, a stalled window always has a delivery, an xterm
      callback, the start response, a link of the promise chain or a queued command left to do;
      no timer and no new output is needed. */
  lemma NoBackpressureDeadlock(s: System)
    requires Reachable(s) && s.loop.running && !LastRefused(s) && s.loop.flow.inFlight != []
    ensures exists a :: Draining(s, a)
  {
    ReachableIsInv(s);
    if forall a :: !Draining(s, a) {
      NothingDrains(s);
      assert false;
    }
  }

  function Rank(s: System): nat {
    (if s.loop.running then 2 else if !s.loop.finished then 1 else 0)
    + (if s.loop.flow.pending != [] then 7 else 0)
    + 6 * |s.channel| + 5 * |s.client.xterm| + (if s.client.sessionId.None? then 5 else 0)
    + 4 * |s.client.chain|
    + (match s.call case Idle => 0 case Requested(_) => 3 case Replied => 1)
    + |s.commands|
  }

  lemma SilentBackendDescends(s: System, p: Poll)
    requires Inv(s) && Internal(s, Backend(p))
    ensures Rank(Next(s, Backend(p))) < Rank(s)
  {
    var t := Next(s, Backend(p));
    match Select(s.loop.flow, p)
    case OnCommand => assert t.channel == s.channel;
    case OnDeadline => assert |NewlySent(s.loop, t.loop)| <= 1;
    case _ =>
  }

  lemma FinishDescends(s: System, accepted: bool)
    requires Enabled(s, FinishLoop(accepted))
    ensures Rank(Next(s, FinishLoop(accepted))) < Rank(s)
  {
    var l := FlushLoop(s.loop, accepted);
    assert Finish(s.loop, accepted).sent == l.sent;
    assert |NewlySent(s.loop, Finish(s.loop, accepted))| <= if s.loop.flow.pending == [] then 0 else 1;
  }

  lemma ClientDescends(s: System, a: Action)
    requires Enabled(s, a) && (a.Deliver? || a.Render? || a.Respond?)
    ensures Rank(Next(s, a)) < Rank(s)
  {
    assert |Next(s, a).client.chain| <= |s.client.chain| + 1;
  }

  lemma CallDescends(s: System, a: Action)
    requires Enabled(s, a) && (a.Invoke? || a.Enqueue? || a.Settle?)
    ensures Rank(Next(s, a)) < Rank(s)
  {
    assert Next(s, a).loop == s.loop;
  }

  /** Every step the system takes on its own brings it closer to rest. */
  lemma InternalDescends(s: System, a: Action)
    requires Inv(s) && Internal(s, a)
    ensures Rank(Next(s, a)) < Rank(s)
  {
    match a
    case Backend(p) => SilentBackendDescends(s, p);
    case FinishLoop(accepted) => FinishDescends(s, accepted);
    case Deliver(_) => ClientDescends(s, a);
    case Render => ClientDescends(s, a);
    case Respond(_) => ClientDescends(s, a);
    case Invoke => CallDescends(s, a);
    case Enqueue => CallDescends(s, a);
    case Settle => CallDescends(s, a);
    case _ =>
  }

  /** While the shell is silent and nothing fails, no more than `Rank` steps can follow, and then the
      window is empty unless the last acknowledgement had been refused before: also when every
      batch was processed before the session id arrived. */
  lemma {:induction false} SilenceDrains(states: seq<System>, actions: seq<Action>)
    requires |states| == |actions| + 1 && Reachable(states[0])
    requires forall i :: 0 <= i < |actions| ==>
              Internal(states[i], actions[i]) && states[i + 1] == Next(states[i], actions[i])
    ensures Reachable(states[|actions|])
    ensures |actions| + Rank(states[|actions|]) <= Rank(states[0])
    ensures states[|actions|].refused == states[0].refused
    ensures states[|actions|].loop.running && Quiet(states[|actions|]) ==>
              (states[|actions|].loop.flow.inFlight == [] <==> !LastRefused(states[|actions|]))
  {
    var n := |actions|;
    if n > 0 {
      SilenceDrains(states[..n], actions[..n - 1]);
      ReachableIsInv(states[n - 1]);
      InternalDescends(states[n - 1], actions[n - 1]);
      ReachableNext(states[n - 1], actions[n - 1]);
    }
    if states[n].loop.running && Quiet(states[n]) {
      QuietMeansDrained(states[n]);
    }
  }

  // Where the two hypotheses are needed

  function Quietly(now: nat, event: Option<ShellEvent>): Poll {
    Poll(now, None, NothingQueued, event, true, true)
  }

  /** One shell event and one timer tick make one batch. */
  lemma {:induction false} FilledWindow(count: nat) returns (s: System)
    requires count <= OUTPUT_MAX_IN_FLIGHT_BATCHES
    ensures Reachable(s) && s.loop.running && s.commands == [] && s.client == NewClient() && s.call == Idle
    ensures s.refused == 0 && s.loop.flow.pending == [] && |s.loop.flow.inFlight| == count && s.rendered == {}
  {
    if count == 0 {
      s := Init();
      assert Behaviour([Init()], []);
    } else {
      var r := FilledWindow(count - 1);
      ReachableIsInv(r);
      var byte0: byte := 0;
      var output := Backend(Quietly(0, Some(Output([byte0]))));
      var m := Next(r, output);
      ReachableNext(r, output);
      var tick := Backend(Quietly(OUTPUT_BATCH_MAX_DELAY, None));
      assert Select(m.loop.flow, tick.poll) == OnDeadline;
      s := Next(m, tick);
      ReachableNext(m, tick);
    }
  }

  /** The window shows everything that was sent. */
  lemma {:induction false} ShownAndProcessed(r: System) returns (s: System)
    requires Reachable(r) && !SessionKnown(r.client)
    ensures Reachable(s) && s == r.(channel := [], client := s.client, rendered := s.rendered)
    ensures s.client.xterm == [] && s.client.chain == r.client.chain && s.client.sessionId == r.client.sessionId
    decreases |r.channel|, |r.client.xterm|
  {
    if r.channel != [] {
      ReachableNext(r, Deliver(true));
      s := ShownAndProcessed(Next(r, Deliver(true)));
    } else if r.client.xterm != [] {
      ReachableNext(r, Render);
      s := ShownAndProcessed(Next(r, Render));
    } else {
      s := r;
    }
  }

  /** A full window with nothing pending and no acknowledgement anywhere on its way. */
  predicate Stuck(s: System) {
    && !CanRead(s.loop.flow) && s.loop.flow.pending == []
    && s.channel == [] && s.client.xterm == [] && s.client.sessionId.Some?
    && !s.call.Requested? && s.client.chain == [] && Acks(s.commands) == []
  }

  lemma StuckLoop(l: Loop, p: Poll)
    requires !CanRead(l.flow) && l.flow.pending == []
    requires Select(l.flow, p) == OnCommand && p.received.Command? ==> !p.received.command.AcknowledgeOutput?
    ensures Step(l, p).flow == l.flow && Step(l, p).sent == l.sent
  {
    match Select(l.flow, p)
    case OnCommand => assert OnReceived(l, p.received, p.shellAccepts).flow == l.flow;
    case _ =>
  }

  lemma NoAcknowledgementFirst(commands: seq<SessionCommand>)
    requires Acks(commands) == [] && commands != []
    ensures !commands[0].AcknowledgeOutput? && Acks(commands[1..]) == []
  {
  }

  /** Whatever anyone does next, the window of a stuck system does not change. */
  lemma StuckStays(s: System, a: Action)
    requires Stuck(s) && Enabled(s, a)
    ensures Stuck(Next(s, a)) && Next(s, a).loop.flow == s.loop.flow
  {
    match a
    case Backend(p) =>
      if s.commands != [] {
        NoAcknowledgementFirst(s.commands);
      }
      StuckLoop(s.loop, p);
    case User(c) => AcksOfAppended(s.commands, c);
    case _ =>
  }

  ghost predicate Continues(states: seq<System>, actions: seq<Action>) {
    && |states| == |actions| + 1
    && forall j :: 0 <= j < |actions| ==> Enabled(states[j], actions[j]) && states[j + 1] == Next(states[j], actions[j])
  }

  /** So it is in every continuation. */
  lemma {:induction false} StuckForGood(states: seq<System>, actions: seq<Action>, i: nat)
    requires Continues(states, actions) && Stuck(states[0]) && i <= |actions|
    ensures Stuck(states[i]) && states[i].loop.flow == states[0].loop.flow
  {
    if i > 0 {
      StuckForGood(states, actions, i - 1);
      StuckStays(states[i - 1], actions[i - 1]);
    }
  }

  /** A running system at rest with a full window is stuck. */
  lemma FullAtRestIsStuck(s: System)
    requires Reachable(s) && s.loop.running && Quiet(s) && !CanRead(s.loop.flow)
    ensures Stuck(s) && LastRefused(s)
  {
    ReachableIsInv(s);
    QuietMeansDrained(s);
    assert !Internal(s, Respond("s"));
  }

  /** A full window whose batches are all on screen, answered by one coalesced acknowledgement
      that fails, is stuck: nothing moves by itself, and in no continuation, with or without user
      commands, shell output or a closing connection, is a slot freed or the shell read again. */
  lemma OneRefusedCallStalls() returns (s: System)
    ensures Reachable(s) && s.loop.running && Quiet(s) && Stuck(s) && LastRefused(s)
    ensures !CanRead(s.loop.flow) && s.client.processed == |s.loop.sent|
  {
    var full := FilledWindow(OUTPUT_MAX_IN_FLIGHT_BATCHES);
    var shown := ShownAndProcessed(full);
    ReachableIsInv(shown);
    assert shown.client.received == |shown.loop.sent| == OUTPUT_MAX_IN_FLIGHT_BATCHES;
    assert shown.client.received !in shown.client.xterm;
    ReachableNext(shown, Respond("s"));
    var known := Next(shown, Respond("s"));
    s := OnlyCallRefused(known);
  }

  /** The one acknowledgement due is invoked and refused. */
  lemma OnlyCallRefused(r: System) returns (s: System)
    requires Reachable(r) && r.loop.running && r.commands == [] && r.call == Idle && r.channel == []
    requires r.loop.flow.pending == [] && r.client.xterm == [] && r.client.sessionId.Some?
    requires r.client.chain == [r.client.queued] && 0 < r.client.queued
    ensures Reachable(s) && s.loop.running && Quiet(s) && LastRefused(s) && (!CanRead(s.loop.flow) ==> Stuck(s))
    ensures s.client.processed == r.client.processed && s.loop == r.loop
  {
    ReachableNext(r, Invoke);
    var calling := Next(r, Invoke);
    ReachableNext(calling, Refuse);
    var refused := Next(calling, Refuse);
    ReachableNext(refused, Settle);
    s := Next(refused, Settle);
    ReachableIsInv(s);
  }

  /** Two batches, the second counted after the terminal was unmounted: the acknowledgement of
      the second retires the first although the terminal has not processed it. */
  lemma UnmountingAcknowledgesTooMuch() returns (s: System)
    ensures Reachable(s) && 1 <= Retired(s.loop.flow) && 1 !in s.rendered
  {
    var two := FilledWindow(2);
    ReachableIsInv(two);
    ReachableNext(two, Deliver(true));
    var one := Next(two, Deliver(true));
    ReachableNext(one, Deliver(false));
    var none := Next(one, Deliver(false));
    assert 1 !in none.rendered;
    s := AcknowledgedAll(none);
  }

  /** The session id arrives and the one acknowledgement due travels all the way. */
  lemma AcknowledgedAll(r: System) returns (s: System)
    requires Reachable(r) && r.loop.running && r.commands == [] && r.call == Idle
    requires r.client.sessionId == None && r.client.chain == [] && 0 < r.client.processed
    ensures Reachable(s) && s.rendered == r.rendered && Retired(s.loop.flow) == r.client.processed
  {
    ReachableIsInv(r);
    ReachableNext(r, Respond("s"));
    var known := Next(r, Respond("s"));
    assert known.client.chain == [r.client.processed];
    ReachableNext(known, Invoke);
    var calling := Next(known, Invoke);
    ReachableNext(calling, Enqueue);
    var queued := Next(calling, Enqueue);
    assert queued.commands == [AcknowledgeOutput(r.client.processed)];
    s := TakenUp(queued, r.client.processed);
  }

  lemma TakenUp(r: System, sequence: nat) returns (s: System)
    requires Reachable(r) && r.loop.running && r.commands == [AcknowledgeOutput(sequence)]
    ensures Reachable(s) && s.rendered == r.rendered && Retired(s.loop.flow) == sequence
  {
    var take := Backend(Quietly(0, None).(received := Command(AcknowledgeOutput(sequence))));
    ReachableNext(r, take);
    s := Next(r, take);
    GuardNeverRejects(r, take.poll, sequence);
  }
}
