/** What a run of the session loop has done, told from its wake-ups
    (apps/desktop/src-tauri/src/terminal.rs, `run_session`): which of them took something, when
    the flush timer fires, what was read, when the loop ends and what it reports. */
module TerminalTimeline {
  import opened Wrappers
  import opened TerminalFlow
  import opened TerminalSession

  function Ran(polls: seq<Poll>): Loop {
    Run(NewLoop(), polls)
  }

  /** The loop is still running when wake-up `i` comes. */
  predicate Awake(polls: seq<Poll>, i: nat) {
    i < |polls| && Ran(polls[..i]).running
  }

  /** Wake-up `i` takes a command: one is queued, or all senders are gone, and the transport stands. */
  predicate TakesCommand(polls: seq<Poll>, i: nat) {
    Awake(polls, i) && polls[i].transport.None? && polls[i].received != NothingQueued
  }

  /** Wake-up `i` takes what the shell offers: nothing else is ready and fewer than eight batches
      are unacknowledged. */
  predicate TakesEvent(polls: seq<Poll>, i: nat) {
    && Awake(polls, i) && polls[i].transport.None? && polls[i].received == NothingQueued
    && polls[i].event.Some? && |Ran(polls[..i]).flow.inFlight| < 8
  }

  /** The bytes of a shell event. */
  function DataOf(event: ShellEvent): Batch {
    match event
    case Output(data) => data
    case ExtendedOutput(data) => data
    case _ => []
  }

  function TakenData(polls: seq<Poll>, i: nat): Batch
    requires i < |polls|
  {
    if TakesEvent(polls, i) then DataOf(polls[i].event.value) else []
  }

  lemma Prefixes(polls: seq<Poll>, i: nat)
    requires i < |polls|
    ensures var shorter := polls[..|polls| - 1];
            i < |polls| - 1 ==> shorter[i] == polls[i] && shorter[..i] == polls[..i]
  {
  }

  lemma OneMorePoll(polls: seq<Poll>)
    requires polls != []
    ensures var before := Ran(polls[..|polls| - 1]);
            Ran(polls) == if before.running then Step(before, polls[|polls| - 1]) else before
  {
  }

  // The flush timer

  /** Bytes have been pending ever since wake-up `s`, and not before it. */
  predicate PendingSince(polls: seq<Poll>, s: nat) {
    && s < |polls| && Ran(polls[..s]).flow.pending == []
    && forall i :: s < i <= |polls| ==> Ran(polls[..i]).flow.pending != []
  }

  lemma PendingGoesOn(polls: seq<Poll>, s: nat)
    requires polls != [] && PendingSince(polls[..|polls| - 1], s) && Ran(polls).flow.pending != []
    ensures PendingSince(polls, s)
  {
    var shorter := polls[..|polls| - 1];
    assert polls[..|polls|] == polls && shorter[..s] == polls[..s];
    forall i | s < i <= |polls| ensures Ran(polls[..i]).flow.pending != [] {
      if i < |polls| {
        assert shorter[..i] == polls[..i];
      }
    }
  }

  lemma PendingStarts(polls: seq<Poll>)
    requires polls != [] && Ran(polls[..|polls| - 1]).flow.pending == [] && Ran(polls).flow.pending != []
    ensures PendingSince(polls, |polls| - 1)
  {
    assert polls[..|polls|] == polls;
  }

  /** The timer counts from the wake-up that made something pending. */
  lemma {:induction false} TimerIsSet(polls: seq<Poll>) returns (s: nat)
    requires Ran(polls).running && Ran(polls).flow.pending != []
    ensures PendingSince(polls, s) && Ran(polls).flow.pendingSince == Some(polls[s].now)
  {
    var before := Ran(polls[..|polls| - 1]);
    var p := polls[|polls| - 1];
    StepEffect(before, p);
    if before.flow.pending == [] {
      s := |polls| - 1;
      PendingStarts(polls);
    } else {
      s := TimerIsSet(polls[..|polls| - 1]);
      PendingGoesOn(polls, s);
    }
  }

  lemma CommandsKeep(l: Loop, received: Received, shellAccepts: bool)
    ensures var m := OnReceived(l, received, shellAccepts);
            && m.flow == l.flow.(inFlight := m.flow.inFlight)
            && m.read == l.read && m.exitCode == l.exitCode && m.exitSignal == l.exitSignal
            && m.completion == if received.Command? && received.command.Close? then received.command.wantsCompletion
                 else l.completion
  {
  }

  lemma FlushKeepsReport(l: Loop, accepted: bool)
    ensures var m := FlushLoop(l, accepted);
            && m.read == l.read && m.exitCode == l.exitCode && m.exitSignal == l.exitSignal
            && m.completion == l.completion && m.flow.pending == []
  {
  }

  /** What a shell event does to the timer, the bytes read and the report. */
  lemma EventEffect(l: Loop, event: ShellEvent, now: nat, accepted: bool)
    ensures var m := OnShellEvent(l, event, now, accepted);
            && (m.flow.pending != [] ==>
                  m.flow.pendingSince == if l.flow.pending == [] then Some(now) else l.flow.pendingSince)
            && m.read == l.read + DataOf(event) && m.completion == l.completion
            && m.exitCode == (if event.ExitStatus? then Some(event.code) else l.exitCode)
            && m.exitSignal == (if event.ExitSignal? then Some(event.signal) else l.exitSignal)
  {
    if event.Output? || event.ExtendedOutput? {
      FlushKeepsReport(l.(flow := Pushed(l.flow, event.data, now), read := l.read + event.data), accepted);
    } else {
      assert l.read + [] == l.read;
    }
  }

  predicate OffersEvent(l: Loop, p: Poll) {
    p.transport.None? && p.received == NothingQueued && p.event.Some? && |l.flow.inFlight| < 8
  }

  /** A wake-up is one of these. */
  lemma StepCases(l: Loop, p: Poll)
    ensures if OffersEvent(l, p) then Step(l, p) == OnShellEvent(l, p.event.value, p.now, p.channelAccepts)
            else if p.transport.None? && p.received != NothingQueued
            then Step(l, p) == OnReceived(l, p.received, p.shellAccepts)
            else Step(l, p) in {Stopped(l), FailedLoop(l), FlushLoop(l, p.channelAccepts), l}
  {
  }

  lemma StepEffect(l: Loop, p: Poll)
    ensures var m := Step(l, p);
            && (m.flow.pending != [] ==>
                  m.flow.pendingSince == if l.flow.pending == [] then Some(p.now) else l.flow.pendingSince)
            && m.read == (if OffersEvent(l, p) then l.read + DataOf(p.event.value) else l.read)
  {
    StepCases(l, p);
    CommandsKeep(l, p.received, p.shellAccepts);
    FlushKeepsReport(l, p.channelAccepts);
    if p.event.Some? {
      EventEffect(l, p.event.value, p.now, p.channelAccepts);
    }
  }

  lemma StepReport(l: Loop, p: Poll)
    ensures var m := Step(l, p);
            && m.exitCode ==
                 (if OffersEvent(l, p) && p.event.value.ExitStatus? then Some(p.event.value.code) else l.exitCode)
            && m.exitSignal ==
                 (if OffersEvent(l, p) && p.event.value.ExitSignal? then Some(p.event.value.signal) else l.exitSignal)
            && m.completion ==
                 (if p.transport.None? && p.received.Command? && p.received.command.Close?
                  then p.received.command.wantsCompletion else l.completion)
  {
    StepCases(l, p);
    CommandsKeep(l, p.received, p.shellAccepts);
    FlushKeepsReport(l, p.channelAccepts);
    if p.event.Some? {
      EventEffect(l, p.event.value, p.now, p.channelAccepts);
    }
  }

  /** Nothing but the timer is ready at this wake-up. */
  predicate OnlyTimer(p: Poll) {
    p.transport.None? && p.received == NothingQueued && p.event.None?
  }

  /** While bytes are pending, a wake-up at which nothing else is ready sends exactly them if at least eight
      milliseconds have passed since the output that made something pending, and otherwise changes nothing.
      If the channel refuses them they are lost and the loop ends. */
  lemma TimerFlushes(polls: seq<Poll>, p: Poll) returns (s: nat)
    requires Ran(polls).running && Ran(polls).flow.pending != [] && OnlyTimer(p)
    ensures PendingSince(polls, s)
    ensures var before, after := Ran(polls), Ran(polls + [p]);
            if p.now < polls[s].now + 8 then after == before
            else if p.channelAccepts then
              && after == before.(flow := after.flow, sent := before.sent + [before.flow.pending])
              && after.flow == Flow([], None, before.flow.inFlight + [|before.sent| + 1], |before.sent| + 2)
            else
              after == before.(flow := before.flow.(pending := []), lost := before.flow.pending, running := false)
  {
    s := TimerIsSet(polls);
    assert (polls + [p])[..|polls|] == polls;
    EveryRunIsConsistent(polls);
  }

  /** Output that is taken is sent, with all that was pending, as soon as 64 KiB are pending, and
      waits until then. */
  lemma OutputIsBatched(polls: seq<Poll>, p: Poll)
    requires TakesEvent(polls + [p], |polls|) && DataOf(p.event.value) != []
    ensures var before, after := Ran(polls), Ran(polls + [p]);
            var pending := before.flow.pending + DataOf(p.event.value);
            if |pending| < 65536 then
              after.sent == before.sent && after.flow.pending == pending && after.running
            else if p.channelAccepts then
              after.sent == before.sent + [pending] && after.flow.pending == [] && after.running
            else
              after.sent == before.sent && after.lost == before.lost + pending && !after.running
  {
    assert (polls + [p])[..|polls|] == polls;
  }

  /** A batch is sent at a wake-up exactly if output fills one or the timer is due and the channel accepts it;
      it holds all that was pending and what the wake-up took. */
  lemma SendsWhen(polls: seq<Poll>, p: Poll)
    requires Ran(polls).running
    ensures var all, i := polls + [p], |polls|;
            Ran(all).sent == Ran(polls).sent
              + if (FillsBatch(all, i) || TimerIsDue(all, i)) && p.channelAccepts
                then [Ran(polls).flow.pending + TakenData(all, i)] else []
  {
    var all, i := polls + [p], |polls|;
    assert all[..i] == polls;
    DueWhen(all, i);
    EveryRunIsConsistent(polls);
    var before := Ran(polls);
    assert before.flow.pending + [] == before.flow.pending;
    match Select(before.flow, p)
    case OnCommand => assert OnReceived(before, p.received, p.shellAccepts).sent == before.sent;
    case OnEvent => assert Step(before, p) == OnShellEvent(before, p.event.value, p.now, p.channelAccepts);
    case _ =>
  }

  // What was read

  function Concatenated(polls: seq<Poll>, n: nat): Batch
    requires n <= |polls|
  {
    if n == 0 then [] else Concatenated(polls, n - 1) + TakenData(polls, n - 1)
  }

  lemma {:induction false} ReadPrefix(polls: seq<Poll>, n: nat)
    requires n <= |polls|
    ensures Ran(polls[..n]).read == Concatenated(polls, n)
  {
    if n > 0 {
      ReadPrefix(polls, n - 1);
      OneMorePoll(polls[..n]);
      assert polls[..n][..n - 1] == polls[..n - 1];
      StepEffect(Ran(polls[..n - 1]), polls[n - 1]);
    }
  }

  /** The bytes read are those of the shell events that were taken, in order. */
  lemma ReadIsTaken(polls: seq<Poll>)
    ensures Ran(polls).read == Concatenated(polls, |polls|)
  {
    ReadPrefix(polls, |polls|);
    assert polls[..|polls|] == polls;
  }

  // How it ends

  /** The shell has been asked for something it refuses. */
  predicate RefusedByShell(polls: seq<Poll>, i: nat) {
    && TakesCommand(polls, i) && !polls[i].shellAccepts
    && (polls[i].received.Command? ==> !polls[i].received.command.AcknowledgeOutput?)
  }

  /** Wake-up `i` ends the loop with an error: the transport failed, the shell refused a write, a resize or
      its closing, or its next event is a failure. */
  predicate Breaks(polls: seq<Poll>, i: nat) {
    || (Awake(polls, i) && polls[i].transport == Some(false))
    || RefusedByShell(polls, i)
    || (TakesEvent(polls, i) && polls[i].event.value.Failure?)
  }

  /** Wake-up `i` ends the loop in good order: the transport ended, a close was obeyed, the last sender is
      gone, or the shell closed. */
  predicate Concludes(polls: seq<Poll>, i: nat) {
    || (Awake(polls, i) && polls[i].transport == Some(true))
    || (TakesCommand(polls, i) && polls[i].shellAccepts
        && (polls[i].received.SendersGone? || polls[i].received.command.Close?))
    || (TakesEvent(polls, i) && polls[i].event.value.Closed?)
  }

  /** The output taken at wake-up `i` fills a batch. */
  predicate FillsBatch(polls: seq<Poll>, i: nat) {
    && TakesEvent(polls, i) && DataOf(polls[i].event.value) != []
    && |Ran(polls[..i]).flow.pending| + |DataOf(polls[i].event.value)| >= 65536
  }

  /** Only the timer is left at wake-up `i`, and it is due. */
  ghost predicate TimerIsDue(polls: seq<Poll>, i: nat) {
    && Awake(polls, i) && polls[i].transport.None? && polls[i].received == NothingQueued && !TakesEvent(polls, i)
    && exists s: nat :: PendingSince(polls[..i], s) && polls[s].now + 8 <= polls[i].now
  }

  /** Wake-up `i` loses a batch: the channel refuses what a full batch or the timer sends. */
  ghost predicate Loses(polls: seq<Poll>, i: nat) {
    (FillsBatch(polls, i) || TimerIsDue(polls, i)) && !polls[i].channelAccepts
  }

  lemma OnePendingSince(polls: seq<Poll>, s: nat, t: nat)
    requires PendingSince(polls, s) && PendingSince(polls, t)
    ensures s == t
  {
    LastEmpty(polls, s);
    LastEmpty(polls, t);
  }

  lemma LastEmpty(polls: seq<Poll>, s: nat)
    requires PendingSince(polls, s)
    ensures forall i :: 0 <= i <= |polls| && Ran(polls[..i]).flow.pending == [] ==> i <= s
    ensures Ran(polls).flow.pending != []
  {
    assert polls[..|polls|] == polls;
  }

  /** The timer is due exactly when bytes are pending and their deadline has come. */
  lemma DueWhen(polls: seq<Poll>, i: nat)
    requires Awake(polls, i)
    ensures TimerIsDue(polls, i) <==> Select(Ran(polls[..i]).flow, polls[i]) == OnDeadline
    ensures TimerIsDue(polls, i) ==> Ran(polls[..i]).flow.pending != []
  {
    var before := Ran(polls[..i]);
    EveryRunIsConsistent(polls[..i]);
    assert polls[..i][..i] == polls[..i];
    forall t | PendingSince(polls[..i], t) ensures before.flow.pending != [] {
      LastEmpty(polls[..i], t);
    }
    if before.flow.pending != [] {
      var s := TimerIsSet(polls[..i]);
      assert polls[..i][s] == polls[s];
      forall t | PendingSince(polls[..i], t) ensures t == s {
        OnePendingSince(polls[..i], s, t);
      }
    }
  }

  lemma OneMoreEnd(polls: seq<Poll>)
    requires polls != [] && Ran(polls[..|polls| - 1]).running
    ensures var i := |polls| - 1;
            && (Ran(polls).failed <==> Breaks(polls, i))
            && (!Ran(polls).running <==> Breaks(polls, i) || Concludes(polls, i) || Loses(polls, i))
  {
    var i := |polls| - 1;
    var before, p := Ran(polls[..i]), polls[i];
    EveryRunIsConsistent(polls[..i]);
    DueWhen(polls, i);
    match Select(before.flow, p)
    case OnCommand => assert Step(before, p) == OnReceived(before, p.received, p.shellAccepts);
    case OnEvent => assert Step(before, p) == OnShellEvent(before, p.event.value, p.now, p.channelAccepts);
    case _ =>
  }

  lemma EndsAlike(polls: seq<Poll>, n: nat, i: nat)
    requires i < n <= |polls|
    ensures Breaks(polls[..n], i) == Breaks(polls, i) && Concludes(polls[..n], i) == Concludes(polls, i)
    ensures Loses(polls[..n], i) == Loses(polls, i) && TakesCommand(polls[..n], i) == TakesCommand(polls, i)
    ensures TakesEvent(polls[..n], i) == TakesEvent(polls, i)
  {
    assert polls[..n][..i] == polls[..i] && polls[..n][i] == polls[i];
    assert forall s :: 0 <= s < i ==> polls[..n][s] == polls[s];
  }

  ghost predicate Unended(polls: seq<Poll>, n: nat) {
    forall i :: 0 <= i < n ==> !Breaks(polls, i) && !Concludes(polls, i) && !Loses(polls, i)
  }

  predicate Broken(polls: seq<Poll>, n: nat) {
    exists i :: 0 <= i < n && Breaks(polls, i)
  }

  lemma OneMoreUnended(polls: seq<Poll>, n: nat)
    requires 0 < n <= |polls|
    ensures Unended(polls, n) <==>
              Unended(polls, n - 1) && !Breaks(polls, n - 1) && !Concludes(polls, n - 1) && !Loses(polls, n - 1)
    ensures Broken(polls, n) <==> Broken(polls, n - 1) || Breaks(polls, n - 1)
  {
  }

  lemma {:induction false} EndsPrefix(polls: seq<Poll>, n: nat)
    requires n <= |polls|
    ensures Ran(polls[..n]).running <==> Unended(polls, n)
    ensures Ran(polls[..n]).failed <==> Broken(polls, n)
  {
    if n > 0 {
      EndsPrefix(polls, n - 1);
      OneMoreUnended(polls, n);
      assert polls[..n][..n - 1] == polls[..n - 1];
      EveryRunIsConsistent(polls[..n - 1]);
      if Ran(polls[..n - 1]).running {
        OneMoreEnd(polls[..n]);
        EndsAlike(polls, n, n - 1);
      }
    }
  }

  /** The loop runs as long as no wake-up breaks it, concludes it or loses a batch, and it has failed exactly if
      some wake-up broke it. */
  lemma EndsWhen(polls: seq<Poll>)
    ensures Ran(polls).running <==>
              forall i :: 0 <= i < |polls| ==> !Breaks(polls, i) && !Concludes(polls, i) && !Loses(polls, i)
    ensures Ran(polls).failed <==> exists i :: 0 <= i < |polls| && Breaks(polls, i)
  {
    EndsPrefix(polls, |polls|);
    assert polls[..|polls|] == polls;
    assert Unended(polls, |polls|) || !Unended(polls, |polls|);
  }

  // What is reported

  /** The last exit status among the first `n` wake-ups that took one. */
  function LastStatus(polls: seq<Poll>, n: nat): Option<nat>
    requires n <= |polls|
  {
    if n == 0 then None
    else if TakesEvent(polls, n - 1) && polls[n - 1].event.value.ExitStatus? then Some(polls[n - 1].event.value.code)
    else LastStatus(polls, n - 1)
  }

  function LastSignal(polls: seq<Poll>, n: nat): Option<string>
    requires n <= |polls|
  {
    if n == 0 then None
    else if TakesEvent(polls, n - 1) && polls[n - 1].event.value.ExitSignal? then Some(polls[n - 1].event.value.signal)
    else LastSignal(polls, n - 1)
  }

  /** Some wake-up took a close that wants to be told. */
  predicate ClosedWithCompletion(polls: seq<Poll>, n: nat)
    requires n <= |polls|
  {
    exists i :: 0 <= i < n && TakesCommand(polls, i) && polls[i].received == Command(Close(true))
  }

  lemma ReportOneMore(polls: seq<Poll>, n: nat)
    requires 0 < n <= |polls|
    ensures var before, after, p := Ran(polls[..n - 1]), Ran(polls[..n]), polls[n - 1];
            && after.exitCode == (if TakesEvent(polls, n - 1) && p.event.value.ExitStatus?
                                  then Some(p.event.value.code) else before.exitCode)
            && after.exitSignal == (if TakesEvent(polls, n - 1) && p.event.value.ExitSignal?
                                    then Some(p.event.value.signal) else before.exitSignal)
            && (after.completion <==>
                  before.completion || (TakesCommand(polls, n - 1) && p.received == Command(Close(true))))
  {
    OneMorePoll(polls[..n]);
    assert polls[..n][..n - 1] == polls[..n - 1];
    EveryRunIsConsistent(polls[..n - 1]);
    StepReport(Ran(polls[..n - 1]), polls[n - 1]);
  }

  lemma ClosedOneMore(polls: seq<Poll>, n: nat)
    requires 0 < n <= |polls|
    ensures ClosedWithCompletion(polls, n) <==>
              ClosedWithCompletion(polls, n - 1)
              || (TakesCommand(polls, n - 1) && polls[n - 1].received == Command(Close(true)))
  {
  }

  lemma {:induction false} ReportPrefix(polls: seq<Poll>, n: nat)
    requires n <= |polls|
    ensures Ran(polls[..n]).exitCode == LastStatus(polls, n) && Ran(polls[..n]).exitSignal == LastSignal(polls, n)
    ensures Ran(polls[..n]).completion <==> ClosedWithCompletion(polls, n)
  {
    if n > 0 {
      ReportPrefix(polls, n - 1);
      ReportOneMore(polls, n);
      ClosedOneMore(polls, n);
    }
  }

  /** After the loop the window is told of the error, if a wake-up broke the loop, and otherwise of the last exit
      status and the last signal the shell gave; and the completion of a close is owed exactly if one was taken. */
  lemma WhatIsReported(polls: seq<Poll>, accepted: bool)
    ensures var end := Finish(Ran(polls), accepted);
            && end.events == (if exists i :: 0 <= i < |polls| && Breaks(polls, i) then [Error]
                 else [Exited(LastStatus(polls, |polls|), LastSignal(polls, |polls|))])
            && (end.completion <==> ClosedWithCompletion(polls, |polls|))
  {
    EndsWhen(polls);
    ReportPrefix(polls, |polls|);
    EveryRunIsConsistent(polls);
    NotFinishedYet(polls);
    assert polls[..|polls|] == polls;
  }

  // What the shell is given

  predicate ForShell(c: SessionCommand) {
    c.Write? || c.Resize?
  }

  /** The writes and resizes among the commands the first `n` wake-ups took, in order. */
  function TakenForShell(polls: seq<Poll>, n: nat): seq<SessionCommand>
    requires n <= |polls|
  {
    if n == 0 then []
    else TakenForShell(polls, n - 1)
         + if TakesCommand(polls, n - 1) && polls[n - 1].received.Command? && ForShell(polls[n - 1].received.command)
           then [polls[n - 1].received.command] else []
  }

  lemma StepGives(l: Loop, p: Poll)
    ensures Step(l, p).given ==
              l.given + if p.transport.None? && p.received.Command? && ForShell(p.received.command)
                        then [p.received.command] else []
  {
    StepCases(l, p);
    if OffersEvent(l, p) && (p.event.value.Output? || p.event.value.ExtendedOutput?) {
      var pushed := l.(flow := Pushed(l.flow, p.event.value.data, p.now), read := l.read + p.event.value.data);
      assert FlushLoop(pushed, p.channelAccepts).given == l.given;
    }
  }

  lemma {:induction false} GivenPrefix(polls: seq<Poll>, n: nat)
    requires n <= |polls|
    ensures Ran(polls[..n]).given == TakenForShell(polls, n)
  {
    if n > 0 {
      GivenPrefix(polls, n - 1);
      OneMorePoll(polls[..n]);
      assert polls[..n][..n - 1] == polls[..n - 1];
      StepGives(Ran(polls[..n - 1]), polls[n - 1]);
    }
  }

  /** The shell is given every write and resize that was taken, in order, and nothing else. */
  lemma GivenIsTaken(polls: seq<Poll>)
    ensures Ran(polls).given == TakenForShell(polls, |polls|)
  {
    GivenPrefix(polls, |polls|);
    assert polls[..|polls|] == polls;
  }
}
