/** The select loop that owns one remote shell (apps/desktop/src-tauri/src/terminal.rs,
    `run_session`). Each iteration is told what every branch would yield if it were polled. */
module TerminalSession {
  import opened Wrappers
  import opened TerminalFlow

  datatype SessionCommand =
    | Write(data: Batch)
    | Resize(columns: nat, rows: nat)
    | AcknowledgeOutput(sequence: nat)
    | Close(wantsCompletion: bool)

  datatype ShellEvent =
    | Output(data: Batch)
    | ExtendedOutput(data: Batch)
    | ExitStatus(code: nat)
    | ExitSignal(signal: string)
    | Eof
    | Closed
    | Failure

  datatype Received = NothingQueued | SendersGone | Command(command: SessionCommand)

  datatype TerminalEvent = Exited(code: Option<nat>, signal: Option<string>) | Error

  /** One wake-up of the loop: the clock, what is ready, and whether the shell and the
      output channel accept what the chosen branch asks of them. */
  datatype Poll = Poll(
    now: nat,
    transport: Option<bool>,
    received: Received,
    event: Option<ShellEvent>,
    shellAccepts: bool,
    channelAccepts: bool)

  datatype Branch = OnTransport | OnCommand | OnEvent | OnDeadline | Waiting

  /** The state of the loop, with the bytes read, sent and lost so far and what the shell was given. */
  datatype Loop = Loop(
    flow: Flow,
    sent: seq<Batch>,
    lost: Batch,
    read: Batch,
    running: bool,
    finished: bool,
    failed: bool,
    exitCode: Option<nat>,
    exitSignal: Option<string>,
    completion: bool,
    events: seq<TerminalEvent>,
    given: seq<SessionCommand>)

  function NewLoop(): Loop {
    Loop(NewFlow(), [], [], [], true, false, false, None, None, false, [], [])
  }

  /** `biased`: the branches are tried in the order they are written. */
  function Select(f: Flow, p: Poll): Branch {
    if p.transport.Some? then OnTransport
    else if !p.received.NothingQueued? then OnCommand
    else if p.event.Some? && CanRead(f) then OnEvent
    else if FlushDeadline(f).Some? && FlushDeadline(f).value <= p.now then OnDeadline
    else Waiting
  }

  function FlushLoop(l: Loop, accepted: bool): Loop {
    if l.flow.pending == [] then l
    else if accepted then l.(flow := Flushed(l.flow, true), sent := l.sent + [l.flow.pending])
    else l.(flow := Flushed(l.flow, false), lost := l.lost + l.flow.pending, running := false)
  }

  function Stopped(l: Loop): Loop {
    l.(running := false)
  }

  function FailedLoop(l: Loop): Loop {
    l.(running := false, failed := true, events := l.events + [Error])
  }

  function GivenToShell(l: Loop, command: SessionCommand, shellAccepts: bool): Loop {
    var asked := l.(given := l.given + [command]);
    if shellAccepts then asked else FailedLoop(asked)
  }

  function OnReceived(l: Loop, received: Received, shellAccepts: bool): Loop {
    match received
    case NothingQueued => l
    case SendersGone => if shellAccepts then Stopped(l) else FailedLoop(l)
    case Command(Write(_)) => GivenToShell(l, received.command, shellAccepts)
    case Command(Resize(_, _)) => GivenToShell(l, received.command, shellAccepts)
    case Command(AcknowledgeOutput(sequence)) => l.(flow := Acknowledged(l.flow, sequence))
    case Command(Close(wants)) =>
      var closing := l.(completion := wants);
      if shellAccepts then Stopped(closing) else FailedLoop(closing)
  }

  function OnOutput(l: Loop, data: Batch, now: nat, accepted: bool): Loop {
    var pushed := l.(flow := Pushed(l.flow, data, now), read := l.read + data);
    if ShouldFlush(pushed.flow) then FlushLoop(pushed, accepted) else pushed
  }

  function OnShellEvent(l: Loop, event: ShellEvent, now: nat, accepted: bool): Loop {
    match event
    case Output(data) => OnOutput(l, data, now, accepted)
    case ExtendedOutput(data) => OnOutput(l, data, now, accepted)
    case ExitStatus(code) => l.(exitCode := Some(code))
    case ExitSignal(signal) => l.(exitSignal := Some(signal))
    case Eof => l
    case Closed => Stopped(l)
    case Failure => FailedLoop(l)
  }

  /** One iteration. */
  function Step(l: Loop, p: Poll): Loop {
    match Select(l.flow, p)
    case OnTransport => if p.transport.value then Stopped(l) else FailedLoop(l)
    case OnCommand => OnReceived(l, p.received, p.shellAccepts)
    case OnEvent => OnShellEvent(l, p.event.value, p.now, p.channelAccepts)
    case OnDeadline => FlushLoop(l, p.channelAccepts)
    case Waiting => l
  }

  function Run(l: Loop, polls: seq<Poll>): Loop {
    if polls == [] then l
    else
      var before := Run(l, polls[..|polls| - 1]);
      if before.running then Step(before, polls[|polls| - 1]) else before
  }

  /** What follows the loop: the last flush, then `Exited` unless an error was reported. */
  function Finish(l: Loop, accepted: bool): Loop {
    var flushed := FlushLoop(l, accepted);
    flushed.(finished := true,
             events := if l.failed then l.events else l.events + [Exited(l.exitCode, l.exitSignal)])
  }

  function Concat(batches: seq<Batch>): Batch {
    if batches == [] then [] else Concat(batches[..|batches| - 1]) + batches[|batches| - 1]
  }

  /** What every iteration keeps. */
  ghost predicate Consistent(l: Loop) {
    && Window(l.flow)
    && l.flow.nextSequence == |l.sent| + 1
    && Concat(l.sent) + l.lost + l.flow.pending == l.read
    && (l.lost != [] ==> !l.running && l.flow.pending == [])
    && (l.lost == [] ==> (l.flow.pendingSince.Some? <==> l.flow.pending != []))
    && (l.running ==> !l.failed && !l.finished && !ShouldFlush(l.flow) && !l.completion)
    && (l.finished ==> l.flow.pending == [])
    && l.events == (if l.failed then [Error] else if l.finished then [Exited(l.exitCode, l.exitSignal)] else [])
  }

  lemma FlushKeeps(l: Loop, accepted: bool)
    requires Window(l.flow)
    requires |l.flow.inFlight| < OUTPUT_MAX_IN_FLIGHT_BATCHES || l.flow.pending == []
    requires l.flow.nextSequence == |l.sent| + 1
    requires Concat(l.sent) + l.lost + l.flow.pending == l.read
    requires l.lost == [] || l.flow.pending == []
    ensures var m := FlushLoop(l, accepted);
            && Window(m.flow) && m.flow.pending == []
            && m.flow.nextSequence == |m.sent| + 1
            && Concat(m.sent) + m.lost + m.flow.pending == m.read
            && (l.flow.pending != [] && accepted ==> m.flow.pendingSince == None)
  {
    var m := FlushLoop(l, accepted);
    if l.flow.pending != [] && accepted {
      assert m.sent[..|m.sent| - 1] == l.sent;
      assert Concat(m.sent) == Concat(l.sent) + l.flow.pending;
    }
  }

  lemma OutputKeeps(l: Loop, data: Batch, now: nat, accepted: bool)
    requires Consistent(l) && l.running && CanRead(l.flow)
    ensures Consistent(OnOutput(l, data, now, accepted))
  {
    var pushed := l.(flow := Pushed(l.flow, data, now), read := l.read + data);
    assert Concat(pushed.sent) + pushed.lost + pushed.flow.pending == pushed.read by {
      assert Concat(l.sent) + l.lost + (l.flow.pending + data) == (Concat(l.sent) + l.lost + l.flow.pending) + data;
    }
    FlushKeeps(pushed, accepted);
  }

  lemma ReceivedKeeps(l: Loop, received: Received, shellAccepts: bool)
    requires Consistent(l) && l.running
    ensures Consistent(OnReceived(l, received, shellAccepts))
  {
    match received
    case Command(AcknowledgeOutput(sequence)) => AcknowledgeRetires(l.flow, sequence);
    case _ =>
  }

  lemma EventKeeps(l: Loop, event: ShellEvent, now: nat, accepted: bool)
    requires Consistent(l) && l.running && CanRead(l.flow)
    ensures Consistent(OnShellEvent(l, event, now, accepted))
  {
    match event
    case Output(data) => OutputKeeps(l, data, now, accepted);
    case ExtendedOutput(data) => OutputKeeps(l, data, now, accepted);
    case _ =>
  }

  lemma DeadlineKeeps(l: Loop, accepted: bool)
    requires Consistent(l) && l.running
    ensures Consistent(FlushLoop(l, accepted))
  {
    FlushKeeps(l, accepted);
  }

  lemma StepKeeps(l: Loop, p: Poll)
    requires Consistent(l) && l.running
    ensures Consistent(Step(l, p))
  {
    match Select(l.flow, p)
    case OnTransport =>
    case OnCommand => ReceivedKeeps(l, p.received, p.shellAccepts);
    case OnEvent => EventKeeps(l, p.event.value, p.now, p.channelAccepts);
    case OnDeadline => DeadlineKeeps(l, p.channelAccepts);
    case Waiting =>
  }

  /** Every run of the loop, however long and whatever fails: the window is a run of at most
      eight consecutive numbers below `nextSequence`, a full window has nothing pending, every
      byte read is in a sent batch, in the refused batch or pending, in order, and the flush
      timer is set exactly while bytes are pending as long as no batch was refused. */
  lemma {:induction false} EveryRunIsConsistent(polls: seq<Poll>)
    ensures Consistent(Run(NewLoop(), polls))
  {
    if polls != [] {
      var before := Run(NewLoop(), polls[..|polls| - 1]);
      EveryRunIsConsistent(polls[..|polls| - 1]);
      if before.running {
        StepKeeps(before, polls[|polls| - 1]);
      }
    }
  }

  lemma FinishKeeps(l: Loop, accepted: bool)
    requires Consistent(l) && !l.running && !l.finished
    ensures Consistent(Finish(l, accepted))
  {
    FlushKeeps(l, accepted);
  }

  /** After the loop the last flush never opens a ninth slot, leaves nothing pending, and, when
      the channel took every batch, everything the shell wrote has been sent. The window is
      told exactly one of `Exited` and `Error`. */
  lemma FinishedSession(polls: seq<Poll>, accepted: bool)
    requires !Run(NewLoop(), polls).running
    ensures var end := Finish(Run(NewLoop(), polls), accepted);
            && |end.flow.inFlight| <= OUTPUT_MAX_IN_FLIGHT_BATCHES
            && end.flow.pending == []
            && Concat(end.sent) + end.lost == end.read
            && (Run(NewLoop(), polls).lost == [] && accepted ==> Concat(end.sent) == end.read)
            && |end.events| == 1
            && (end.events == [Error] <==> end.failed)
  {
    EveryRunIsConsistent(polls);
    NotFinishedYet(polls);
    FinishKeeps(Run(NewLoop(), polls), accepted);
    assert [Exited(Run(NewLoop(), polls).exitCode, Run(NewLoop(), polls).exitSignal)][0] != Error;
  }

  lemma StepNeverFinishes(l: Loop, p: Poll)
    ensures Step(l, p).finished == l.finished
  {
    match Select(l.flow, p)
    case OnEvent => assert OnShellEvent(l, p.event.value, p.now, p.channelAccepts).finished == l.finished;
    case OnCommand => assert OnReceived(l, p.received, p.shellAccepts).finished == l.finished;
    case _ =>
  }

  lemma {:induction false} NotFinishedYet(polls: seq<Poll>)
    ensures !Run(NewLoop(), polls).finished
  {
    if polls != [] {
      NotFinishedYet(polls[..|polls| - 1]);
      StepNeverFinishes(Run(NewLoop(), polls[..|polls| - 1]), polls[|polls| - 1]);
    }
  }

  // Memory bound

  function ChunkSize(p: Poll): nat {
    match p.event
    case Some(Output(data)) => |data|
    case Some(ExtendedOutput(data)) => |data|
    case _ => 0
  }

  /** The bytes of the last `count` batches sent. */
  function TailBytes(sent: seq<Batch>, count: nat): nat
    requires count <= |sent|
  {
    if count == 0 then 0 else |sent[|sent| - 1]| + TailBytes(sent[..|sent| - 1], count - 1)
  }

  ghost predicate BatchesWithin(sent: seq<Batch>, limit: nat) {
    forall i :: 0 <= i < |sent| ==> |sent[i]| <= limit
  }

  lemma {:induction false} TailIsSmall(sent: seq<Batch>, count: nat, limit: nat)
    requires count <= |sent| && BatchesWithin(sent, limit)
    ensures TailBytes(sent, count) <= count * limit
  {
    if count > 0 {
      TailIsSmall(sent[..|sent| - 1], count - 1, limit);
      assert count * limit == (count - 1) * limit + limit;
    }
  }

  lemma {:induction false} BatchesStaySmall(polls: seq<Poll>, chunk: nat)
    requires forall i :: 0 <= i < |polls| ==> ChunkSize(polls[i]) <= chunk
    ensures BatchesWithin(Run(NewLoop(), polls).sent, OUTPUT_BATCH_MAX_BYTES - 1 + chunk)
  {
    if polls != [] {
      BatchesStaySmall(polls[..|polls| - 1], chunk);
      EveryRunIsConsistent(polls[..|polls| - 1]);
      assert ChunkSize(polls[|polls| - 1]) <= chunk;
    }
  }

  /** Bytes held for the window: pending plus sent but not yet acknowledged. */
  function Held(l: Loop): nat
    requires |l.flow.inFlight| <= |l.sent|
  {
    |l.flow.pending| + TailBytes(l.sent, |l.flow.inFlight|)
  }

  /** At the top of the loop a stalled window can never make the backend hold more than eight
      batches, each short of 64 KiB plus one shell event. */
  lemma MemoryIsBounded(polls: seq<Poll>, chunk: nat)
    requires forall i :: 0 <= i < |polls| ==> ChunkSize(polls[i]) <= chunk
    requires Run(NewLoop(), polls).running
    ensures |Run(NewLoop(), polls).flow.inFlight| <= |Run(NewLoop(), polls).sent|
    ensures Held(Run(NewLoop(), polls)) <= OUTPUT_MAX_IN_FLIGHT_BATCHES * (OUTPUT_BATCH_MAX_BYTES - 1 + chunk)
  {
    var l := Run(NewLoop(), polls);
    EveryRunIsConsistent(polls);
    BatchesStaySmall(polls, chunk);
    TailIsSmall(l.sent, |l.flow.inFlight|, OUTPUT_BATCH_MAX_BYTES - 1 + chunk);
    SlotsAreEnough(|l.flow.inFlight|, OUTPUT_BATCH_MAX_BYTES - 1 + chunk);
  }

  lemma SlotsAreEnough(slots: nat, limit: nat)
    ensures slots < OUTPUT_MAX_IN_FLIGHT_BATCHES ==> slots * limit + limit <= OUTPUT_MAX_IN_FLIGHT_BATCHES * limit
  {
  }

  /** The locals of the loop. */
  datatype Locals = Locals(
    running: bool,
    failed: bool,
    exitCode: Option<nat>,
    exitSignal: Option<string>,
    completion: bool,
    events: seq<TerminalEvent>)

  function LocalsOf(l: Loop): Locals {
    Locals(l.running, l.failed, l.exitCode, l.exitSignal, l.completion, l.events)
  }

  /** The other end of the shell: the writes and resizes it was given, in order. */
  class RemoteShell {
    var given: seq<SessionCommand>

    constructor ()
      ensures given == []
    {
      given := [];
    }

    method Give(command: SessionCommand, accepts: bool) returns (ok: bool)
      modifies this
      ensures given == old(given) + [command] && ok == accepts
    {
      given := given + [command];
      ok := accepts;
    }
  }

  /** The loop itself, over a script of wake-ups. `ended.running` tells that the script ended first. */
  method RunSession(polls: seq<Poll>, lastFlushAccepted: bool, shell: RemoteShell, onOutput: OutputChannel)
    returns (ended: Locals, output: TerminalOutputFlow)
    requires onOutput.delivered == [] && shell.given == []
    modifies onOutput, shell
    ensures var ran := Run(NewLoop(), polls);
            var end := if ran.running then ran else Finish(ran, lastFlushAccepted);
            && ended == LocalsOf(end)
            && output.View() == end.flow
            && onOutput.delivered == end.sent
            && shell.given == end.given
    ensures fresh(output)
  {
    output := new TerminalOutputFlow();
    ended := Locals(true, false, None, None, false, []);
    var i := 0;
    while ended.running && i < |polls|
      invariant 0 <= i <= |polls|
      invariant fresh(output)
      invariant ended == LocalsOf(Run(NewLoop(), polls[..i]))
      invariant output.View() == Run(NewLoop(), polls[..i]).flow
      invariant onOutput.delivered == Run(NewLoop(), polls[..i]).sent
      invariant shell.given == Run(NewLoop(), polls[..i]).given
      decreases |polls| - i
    {
      ghost var l := Run(NewLoop(), polls[..i]);
      assert Run(NewLoop(), polls[..i + 1]) == Step(l, polls[i]) by {
        assert polls[..i + 1][..i] == polls[..i];
      }
      ended := Iterate(l, polls[i], ended, output, shell, onOutput);
      i := i + 1;
    }
    if ended.running {
      assert polls[..i] == polls;
      return;
    }
    StoppedForGood(NewLoop(), polls, i);
    var _ := output.Flush(onOutput, lastFlushAccepted);
    if !ended.failed {
      ended := ended.(events := ended.events + [Exited(ended.exitCode, ended.exitSignal)]);
    }
    ended := ended.(running := false);
  }

  /** One pass through the select. */
  method Iterate(ghost l: Loop, p: Poll, before: Locals, output: TerminalOutputFlow, shell: RemoteShell,
      onOutput: OutputChannel)
    returns (after: Locals)
    requires l.running && before == LocalsOf(l) && output.View() == l.flow && onOutput.delivered == l.sent
    requires shell.given == l.given
    modifies output, onOutput, shell
    ensures after == LocalsOf(Step(l, p))
    ensures output.View() == Step(l, p).flow && onOutput.delivered == Step(l, p).sent && shell.given == Step(l, p).given
  {
    after := before;
    if p.transport.Some? {
      assert Step(l, p) == if p.transport.value then Stopped(l) else FailedLoop(l);
      if !p.transport.value {
        after := Report(after);
      }
      after := after.(running := false);
    } else if !p.received.NothingQueued? {
      assert Step(l, p) == OnReceived(l, p.received, p.shellAccepts);
      after := Obey(l, p, before, output, shell);
    } else if p.event.Some? && |output.inFlight| < OUTPUT_MAX_IN_FLIGHT_BATCHES {
      assert Step(l, p) == OnShellEvent(l, p.event.value, p.now, p.channelAccepts);
      after := TakeEvent(l, p.event.value, p, before, output, onOutput);
    } else {
      after := WaitForFlush(l, p, before, output, onOutput);
    }
  }

  /** The timer branch. */
  method WaitForFlush(ghost l: Loop, p: Poll, before: Locals, output: TerminalOutputFlow, onOutput: OutputChannel)
    returns (after: Locals)
    requires l.running && before == LocalsOf(l) && output.View() == l.flow && onOutput.delivered == l.sent
    requires Select(l.flow, p) in {OnDeadline, Waiting}
    modifies output, onOutput
    ensures after == LocalsOf(Step(l, p))
    ensures output.View() == Step(l, p).flow && onOutput.delivered == Step(l, p).sent
    ensures Step(l, p).given == l.given
  {
    after := before;
    if output.pendingSince.Some? && output.pendingSince.value + OUTPUT_BATCH_MAX_DELAY <= p.now {
      assert Step(l, p) == FlushLoop(l, p.channelAccepts);
      var ok := output.Flush(onOutput, p.channelAccepts);
      after := after.(running := ok);
    }
  }

  /** The shell branch. */
  method TakeEvent(ghost l: Loop, event: ShellEvent, p: Poll, before: Locals,
                   output: TerminalOutputFlow, onOutput: OutputChannel)
    returns (after: Locals)
    requires l.running && before == LocalsOf(l) && output.View() == l.flow && onOutput.delivered == l.sent
    modifies output, onOutput
    ensures after == LocalsOf(OnShellEvent(l, event, p.now, p.channelAccepts))
    ensures output.View() == OnShellEvent(l, event, p.now, p.channelAccepts).flow
    ensures onOutput.delivered == OnShellEvent(l, event, p.now, p.channelAccepts).sent
    ensures OnShellEvent(l, event, p.now, p.channelAccepts).given == l.given
  {
    after := before;
    match event {
      case Output(data) =>
        var goesOn := Receive(output, data, p, onOutput);
        after := after.(running := goesOn);
      case ExtendedOutput(data) =>
        var goesOn := Receive(output, data, p, onOutput);
        after := after.(running := goesOn);
      case ExitStatus(code) => after := after.(exitCode := Some(code));
      case ExitSignal(signal) => after := after.(exitSignal := Some(signal));
      case Eof =>
      case Closed => after := after.(running := false);
      case Failure => after := Report(after).(running := false);
    }
  }

  function Report(locals: Locals): Locals {
    locals.(failed := true, events := locals.events + [Error])
  }

  /** The command branch. */
  method Obey(ghost l: Loop, p: Poll, before: Locals, output: TerminalOutputFlow, shell: RemoteShell)
    returns (after: Locals)
    requires l.running && before == LocalsOf(l) && output.View() == l.flow && shell.given == l.given
    requires !p.received.NothingQueued?
    modifies output, shell
    ensures after == LocalsOf(OnReceived(l, p.received, p.shellAccepts))
    ensures output.View() == OnReceived(l, p.received, p.shellAccepts).flow
    ensures shell.given == OnReceived(l, p.received, p.shellAccepts).given
  {
    after := before;
    match p.received {
      case SendersGone =>
        if !p.shellAccepts {
          after := Report(after);
        }
        after := after.(running := false);
      case Command(AcknowledgeOutput(sequence)) =>
        output.Acknowledge(sequence);
      case Command(Close(wants)) =>
        after := after.(completion := wants);
        if !p.shellAccepts {
          after := Report(after);
        }
        after := after.(running := false);
      case Command(_) =>
        var ok := shell.Give(p.received.command, p.shellAccepts);
        if !ok {
          after := Report(after).(running := false);
        }
    }
  }

  /** The body of the output branch: push, then flush a full batch. */
  method Receive(output: TerminalOutputFlow, data: Batch, p: Poll, onOutput: OutputChannel) returns (goesOn: bool)
    modifies output, onOutput
    ensures var pushed := Pushed(old(output.View()), data, p.now);
            && output.View() == (if ShouldFlush(pushed) then Flushed(pushed, p.channelAccepts) else pushed)
            && goesOn == !(ShouldFlush(pushed) && !p.channelAccepts)
            && onOutput.delivered == old(onOutput.delivered) +
                 if ShouldFlush(pushed) && p.channelAccepts then [pushed.pending] else []
  {
    output.Push(data, p.now);
    goesOn := true;
    if |output.pending| >= OUTPUT_BATCH_MAX_BYTES {
      goesOn := output.Flush(onOutput, p.channelAccepts);
    }
  }

  lemma {:induction false} StoppedForGood(l: Loop, polls: seq<Poll>, i: nat)
    requires i <= |polls| && !Run(l, polls[..i]).running
    ensures Run(l, polls) == Run(l, polls[..i])
  {
    if i == |polls| {
      assert polls[..i] == polls;
    } else {
      var shorter := polls[..|polls| - 1];
      assert shorter[..i] == polls[..i];
      StoppedForGood(l, shorter, i);
    }
  }
}
