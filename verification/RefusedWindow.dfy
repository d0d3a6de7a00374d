/** What can still happen to a terminal window whose last acknowledgement was refused
    (apps/desktop/src/App.tsx, `queueAcknowledgement`; apps/desktop/src-tauri/src/terminal.rs). */
module RefusedWindow {
  import opened Wrappers
  import opened TerminalFlow
  import opened TerminalSession
  import opened TerminalClient
  import opened TerminalProtocol

  /** Some continuation of `s` ends in `t`. */
  ghost predicate Leads(s: System, t: System) {
    exists states, actions :: Continues(states, actions) && states[0] == s && states[|actions|] == t
  }

  /** The window is the same in every continuation. */
  ghost predicate Frozen(s: System) {
    forall t :: Leads(s, t) ==> t.loop.flow == s.loop.flow
  }

  /** Some continuation empties the window. */
  ghost predicate CanDrain(s: System) {
    exists t :: Leads(s, t) && t.loop.flow.inFlight == []
  }

  lemma LeadsToItself(s: System)
    ensures Leads(s, s)
  {
    assert Continues([s], []);
  }

  lemma LeadsOn(s: System, t: System, a: Action)
    requires Leads(s, t) && Enabled(t, a)
    ensures Leads(s, Next(t, a))
  {
    var states, actions :| Continues(states, actions) && states[0] == s && states[|actions|] == t;
    ContinuesOn(states, actions, a);
  }

  lemma ContinuesOn(states: seq<System>, actions: seq<Action>, a: Action)
    requires Continues(states, actions) && Enabled(states[|actions|], a)
    ensures Continues(states + [Next(states[|actions|], a)], actions + [a])
  {
    var longer, more := states + [Next(states[|actions|], a)], actions + [a];
    forall j | 0 <= j < |more| ensures Enabled(longer[j], more[j]) && longer[j + 1] == Next(longer[j], more[j]) {
      if j < |actions| {
        assert longer[j] == states[j] && longer[j + 1] == states[j + 1] && more[j] == actions[j];
      }
    }
  }

  lemma OneStep(s: System, t: System, a: Action) returns (u: System)
    requires Reachable(t) && Leads(s, t) && Enabled(t, a)
    ensures Reachable(u) && Leads(s, u) && u == Next(t, a)
  {
    ReachableNext(t, a);
    LeadsOn(s, t, a);
    u := Next(t, a);
  }

  lemma StuckIsFrozen(s: System)
    requires Stuck(s)
    ensures Frozen(s) && !CanDrain(s)
  {
    forall t | Leads(s, t) ensures t.loop.flow == s.loop.flow {
      var states, actions :| Continues(states, actions) && states[0] == s && states[|actions|] == t;
      StuckForGood(states, actions, |actions|);
    }
  }

  // One more batch of output

  /** At rest with a free slot: one shell event and one timer tick send one more batch. */
  lemma OneMoreBatch(s: System) returns (t: System)
    requires Reachable(s) && s.loop.running && Quiet(s) && CanRead(s.loop.flow)
    ensures Reachable(t) && Leads(s, t) && t.loop.running
    ensures |t.channel| == 1 && |t.loop.sent| == |s.loop.sent| + 1
    ensures t == s.(loop := t.loop, channel := t.channel)
  {
    QuietMeansDrained(s);
    ReachableIsInv(s);
    var byte0: byte := 0;
    var output := Backend(Quietly(0, Some(Output([byte0]))));
    LeadsToItself(s);
    assert Select(s.loop.flow, output.poll) == OnEvent;
    var m := OneStep(s, s, output);
    assert m.loop.flow == Pushed(s.loop.flow, [byte0], 0) && m.loop.flow.pending == [byte0];
    var tick := Backend(Quietly(OUTPUT_BATCH_MAX_DELAY, None));
    assert Select(m.loop.flow, tick.poll) == OnDeadline;
    t := OneStep(s, m, tick);
    assert t.loop.sent == s.loop.sent + [[byte0]];
  }

  lemma OneMoreShown(s: System, r: System) returns (t: System)
    requires Reachable(r) && Leads(s, r) && |r.channel| == 1 && r.client.xterm == []
    ensures Reachable(t) && Leads(s, t) && r.client.received + 1 == |r.loop.sent|
    ensures t == r.(channel := [], client := r.client.(received := |r.loop.sent|, xterm := [|r.loop.sent|]))
  {
    AcknowledgementsAreSound(r);
    t := OneStep(s, r, Deliver(true));
  }

  /** Shown and processed, the batch is acknowledged with everything before it. */
  lemma OneMoreProcessed(s: System, r: System, n: nat) returns (t: System)
    requires Reachable(r) && Leads(s, r) && r.client.xterm == [n] && r.client.received == n && r.client.processed < n
    requires SessionKnown(r.client) && r.client.chain == []
    ensures Reachable(t) && Leads(s, t) && t.client.chain == [n]
    ensures t.loop == r.loop && t.call == r.call && t.commands == r.commands
  {
    ReachableIsInv(r);
    t := OneStep(s, r, Render);
  }

  lemma OneMoreInvoked(s: System, r: System, n: nat) returns (t: System)
    requires Reachable(r) && Leads(s, r) && r.loop.running && r.commands == [] && r.call == Idle
    requires r.client.chain == [n]
    ensures Reachable(t) && Leads(s, t) && t.loop == r.loop && t.commands == [] && t.call == Requested(n)
  {
    t := OneStep(s, r, Invoke);
  }

  lemma OneMoreQueued(s: System, r: System, n: nat) returns (t: System)
    requires Reachable(r) && Leads(s, r) && r.loop.running && r.commands == [] && r.call == Requested(n)
    ensures Reachable(t) && Leads(s, t) && t.loop == r.loop && t.commands == [AcknowledgeOutput(n)]
  {
    ReachableIsInv(r);
    t := OneStep(s, r, Enqueue);
  }

  lemma OneMoreTaken(s: System, r: System, n: nat) returns (t: System)
    requires Reachable(r) && Leads(s, r) && r.loop.running && r.commands == [AcknowledgeOutput(n)] && n == |r.loop.sent|
    ensures Leads(s, t) && t.loop.flow.inFlight == []
  {
    ReachableIsInv(r);
    var take := Backend(Quietly(0, None).(received := Command(AcknowledgeOutput(n))));
    GuardNeverRejects(r, take.poll, n);
    AcknowledgementLoop(r, take.poll, n);
    t := OneStep(s, r, take);
    ReachableIsInv(t);
    assert Retired(t.loop.flow) == n && t.loop.sent == r.loop.sent;
  }

  /** With a free slot a window at rest can always be emptied, by one more batch of output. */
  lemma FreeSlotDrains(s: System)
    requires Reachable(s) && s.loop.running && Quiet(s) && CanRead(s.loop.flow)
    ensures CanDrain(s)
  {
    QuietMeansDrained(s);
    var sent := OneMoreBatch(s);
    var shown := OneMoreShown(s, sent);
    var due := OneMoreProcessed(s, shown, |sent.loop.sent|);
    var calling := OneMoreInvoked(s, due, |sent.loop.sent|);
    var queued := OneMoreQueued(s, calling, |sent.loop.sent|);
    var drained := OneMoreTaken(s, queued, |sent.loop.sent|);
  }

  lemma FreeSlotIsNotFrozen(s: System)
    requires Reachable(s) && s.loop.running && Quiet(s) && CanRead(s.loop.flow)
    ensures !Frozen(s)
  {
    var t := OneMoreBatch(s);
    ReachableIsInv(s);
    ReachableIsInv(t);
    assert t.loop.flow.nextSequence != s.loop.flow.nextSequence;
  }

  /** A running window at rest whose last acknowledgement was refused has batches in flight. It is
      lost for good if and only if it is full: then nothing anyone does changes it, otherwise one
      more batch of output drains it. */
  lemma RefusedWindowIsLostWhenFull(s: System)
    requires Reachable(s) && s.loop.running && Quiet(s) && LastRefused(s)
    ensures s.loop.flow.inFlight != []
    ensures Frozen(s) <==> !CanRead(s.loop.flow)
    ensures CanDrain(s) <==> CanRead(s.loop.flow)
  {
    QuietMeansDrained(s);
    if CanRead(s.loop.flow) {
      FreeSlotDrains(s);
      FreeSlotIsNotFrozen(s);
    } else {
      FullAtRestIsStuck(s);
      StuckIsFrozen(s);
    }
  }

  /** Both cases occur: for every number of batches from one to eight, all shown, their one acknowledgement refused. */
  lemma RefusedWindowOf(count: nat) returns (s: System)
    requires 1 <= count <= OUTPUT_MAX_IN_FLIGHT_BATCHES
    ensures Reachable(s) && s.loop.running && Quiet(s) && LastRefused(s) && |s.loop.flow.inFlight| == count
  {
    var sent := FilledWindow(count);
    var shown := ShownAndProcessed(sent);
    ReachableIsInv(shown);
    assert shown.client.received == |shown.loop.sent| == count;
    assert shown.client.received !in shown.client.xterm;
    ReachableNext(shown, Respond("s"));
    var known := Next(shown, Respond("s"));
    s := OnlyCallRefused(known);
  }
}
