/** Batching and the acknowledgement window of one terminal's output
    (apps/desktop/src-tauri/src/terminal.rs, `TerminalOutputFlow`). */
module TerminalFlow {
  import opened Wrappers

  type Batch = seq<byte>

  const OUTPUT_BATCH_MAX_BYTES: nat := 64 * 1024
  const OUTPUT_BATCH_MAX_DELAY: nat := 8
  const OUTPUT_MAX_IN_FLIGHT_BATCHES: nat := 8

  /** The fields of the struct, as a value. */
  datatype Flow = Flow(pending: Batch, pendingSince: Option<nat>, inFlight: seq<nat>, nextSequence: nat)

  function NewFlow(): Flow {
    Flow([], None, [], 1)
  }

  predicate CanRead(f: Flow) {
    |f.inFlight| < OUTPUT_MAX_IN_FLIGHT_BATCHES
  }

  predicate ShouldFlush(f: Flow) {
    |f.pending| >= OUTPUT_BATCH_MAX_BYTES
  }

  function FlushDeadline(f: Flow): Option<nat> {
    match f.pendingSince
    case Some(started) => Some(started + OUTPUT_BATCH_MAX_DELAY)
    case None => None
  }

  function Pushed(f: Flow, data: Batch, now: nat): Flow {
    if data == [] then f
    else f.(pending := f.pending + data,
            pendingSince := if f.pending == [] then Some(now) else f.pendingSince)
  }

  /** `pending` is taken before the channel is asked, so a refused batch is gone and
      `pendingSince` stays behind. */
  function Flushed(f: Flow, accepted: bool): Flow {
    if f.pending == [] then f
    else if !accepted then f.(pending := [])
    else Flow([], None, f.inFlight + [f.nextSequence], f.nextSequence + 1)
  }

  function DropAcknowledged(queue: seq<nat>, sequence: nat): seq<nat> {
    if queue == [] || queue[0] > sequence then queue else DropAcknowledged(queue[1..], sequence)
  }

  function Acknowledged(f: Flow, sequence: nat): Flow {
    if sequence >= f.nextSequence then f else f.(inFlight := DropAcknowledged(f.inFlight, sequence))
  }

  /** `queue` is the run of consecutive numbers that ends just below `next`. */
  ghost predicate EndsBelow(queue: seq<nat>, next: nat) {
    && |queue| < next
    && forall i :: 0 <= i < |queue| ==> queue[i] == next - |queue| + i
  }

  /** The window: consecutive numbers, at most eight, and a full window has nothing pending.
      The last part is what keeps the unguarded deadline flush from opening a ninth slot. */
  ghost predicate Window(f: Flow) {
    && EndsBelow(f.inFlight, f.nextSequence)
    && |f.inFlight| <= OUTPUT_MAX_IN_FLIGHT_BATCHES
    && (|f.inFlight| == OUTPUT_MAX_IN_FLIGHT_BATCHES ==> f.pending == [])
  }

  /** How many batches have been acknowledged. */
  function Retired(f: Flow): int {
    f.nextSequence - 1 - |f.inFlight|
  }

  lemma {:induction false} DropFromRun(queue: seq<nat>, next: nat, sequence: nat)
    requires EndsBelow(queue, next) && sequence < next
    ensures var left := DropAcknowledged(queue, sequence);
            && EndsBelow(left, next)
            && |left| == if sequence < next - |queue| then |queue| else next - 1 - sequence
  {
    if queue != [] && queue[0] <= sequence {
      DropFromRun(queue[1..], next, sequence);
    }
  }

  /** An acknowledgement below `nextSequence` retires exactly the batches up to it, never
      gives a slot back that was already free, and one from the future changes nothing. */
  lemma AcknowledgeRetires(f: Flow, sequence: nat)
    requires Window(f)
    ensures Window(Acknowledged(f, sequence))
    ensures sequence < f.nextSequence ==>
              Retired(Acknowledged(f, sequence)) == if sequence < Retired(f) then Retired(f) else sequence
    ensures sequence >= f.nextSequence ==> Acknowledged(f, sequence) == f
    ensures var g := Acknowledged(f, sequence); g == f.(inFlight := g.inFlight)
  {
    if sequence < f.nextSequence {
      DropFromRun(f.inFlight, f.nextSequence, sequence);
    }
  }

  /** The other end of the output channel: what reached it, in order. */
  class OutputChannel {
    var delivered: seq<Batch>

    constructor ()
      ensures delivered == []
    {
      delivered := [];
    }

    method Send(data: Batch, accepts: bool) returns (ok: bool)
      modifies this
      ensures ok == accepts
      ensures delivered == old(delivered) + if ok then [data] else []
    {
      if accepts {
        delivered := delivered + [data];
      }
      ok := accepts;
    }
  }

  class TerminalOutputFlow {
    var pending: Batch
    var pendingSince: Option<nat>
    var inFlight: seq<nat>
    var nextSequence: nat

    function View(): Flow
      reads this
    {
      Flow(pending, pendingSince, inFlight, nextSequence)
    }

    constructor ()
      ensures View() == NewFlow()
    {
      pending := [];
      pendingSince := None;
      inFlight := [];
      nextSequence := 1;
    }

    method Push(data: Batch, now: nat)
      modifies this
      ensures View() == Pushed(old(View()), data, now)
    {
      if data == [] {
        return;
      }
      if pending == [] {
        pendingSince := Some(now);
      }
      pending := pending + data;
    }

    method Flush(channel: OutputChannel, accepts: bool) returns (ok: bool)
      modifies this, channel
      ensures View() == Flushed(old(View()), accepts)
      ensures ok == (accepts || old(pending) == [])
      ensures channel.delivered == old(channel.delivered) + if old(pending) != [] && accepts then [old(pending)] else []
    {
      if pending == [] {
        return true;
      }
      var data := pending;
      pending := [];
      ok := channel.Send(data, accepts);
      if !ok {
        return;
      }
      pendingSince := None;
      inFlight := inFlight + [nextSequence];
      nextSequence := nextSequence + 1;
    }

    method Acknowledge(sequence: nat)
      modifies this
      ensures View() == Acknowledged(old(View()), sequence)
    {
      if sequence >= nextSequence {
        return;
      }
      while inFlight != [] && inFlight[0] <= sequence
        invariant pending == old(pending) && pendingSince == old(pendingSince) && nextSequence == old(nextSequence)
        invariant DropAcknowledged(inFlight, sequence) == DropAcknowledged(old(inFlight), sequence)
        decreases |inFlight|
      {
        inFlight := inFlight[1..];
      }
    }
  }
}
