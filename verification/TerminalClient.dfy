/** The acknowledgement closures of one terminal connection in the window
    (apps/desktop/src/App.tsx, `connectTerminal`). No sequence number is ever received:
    the client counts what arrives. */
module TerminalClient {
  import opened Wrappers

  /** The captured variables, the numbers whose xterm write callbacks are outstanding, and the
      acknowledgements chained on the promise that have not been sent. */
  datatype Client = Client(
    received: nat,
    processed: nat,
    queued: nat,
    sessionId: Option<string>,
    xterm: seq<nat>,
    chain: seq<nat>)

  function NewClient(): Client {
    Client(0, 0, 0, None, [], [])
  }

  function Max(a: nat, b: nat): nat {
    if a < b then b else a
  }

  /** An empty session id counts as none. */
  predicate SessionKnown(c: Client) {
    c.sessionId.Some? && c.sessionId.value != ""
  }

  function AcknowledgementQueued(c: Client, sequence: nat): Client {
    var seen := c.(processed := Max(c.processed, sequence));
    if !SessionKnown(seen) || seen.processed <= seen.queued then seen
    else seen.(queued := seen.processed, chain := seen.chain + [seen.processed])
  }

  /** `shown`: the attempt is still the current one and a terminal is mounted. */
  function OutputHandled(c: Client, shown: bool): Client {
    var arrived := c.(received := c.received + 1);
    if shown then arrived.(xterm := arrived.xterm + [arrived.received])
    else AcknowledgementQueued(arrived, arrived.received)
  }

  function CallbackFired(c: Client): Client
    requires c.xterm != []
  {
    AcknowledgementQueued(c.(xterm := c.xterm[1..]), c.xterm[0])
  }

  function SessionStarted(c: Client, sessionId: string): Client {
    AcknowledgementQueued(c.(sessionId := Some(sessionId)), c.processed)
  }

  class TerminalConnection {
    var receivedSequence: nat
    var processedSequence: nat
    var queuedSequence: nat
    var acknowledgementSessionId: Option<string>
    var terminalCallbacks: seq<nat>
    var acknowledgementQueue: seq<nat>

    function View(): Client
      reads this
    {
      Client(receivedSequence, processedSequence, queuedSequence, acknowledgementSessionId,
             terminalCallbacks, acknowledgementQueue)
    }

    constructor ()
      ensures View() == NewClient()
    {
      receivedSequence, processedSequence, queuedSequence := 0, 0, 0;
      acknowledgementSessionId := None;
      terminalCallbacks, acknowledgementQueue := [], [];
    }

    /** At most one number is queued, a new one, and only once the session is known. */
    method QueueAcknowledgement(sequence: nat)
      modifies this
      ensures View() == AcknowledgementQueued(old(View()), sequence)
      ensures acknowledgementQueue == old(acknowledgementQueue)
              || (SessionKnown(View()) && old(queuedSequence) < queuedSequence == processedSequence
                  && acknowledgementQueue == old(acknowledgementQueue) + [processedSequence])
    {
      processedSequence := if processedSequence < sequence then sequence else processedSequence;
      if acknowledgementSessionId.None? || acknowledgementSessionId.value == "" || processedSequence <= queuedSequence {
        return;
      }
      var sequenceToAcknowledge := processedSequence;
      queuedSequence := sequenceToAcknowledge;
      acknowledgementQueue := acknowledgementQueue + [sequenceToAcknowledge];
    }

    method HandleTerminalOutput(current: bool, mounted: bool)
      modifies this
      ensures View() == OutputHandled(old(View()), current && mounted)
    {
      receivedSequence := receivedSequence + 1;
      var sequence := receivedSequence;
      if !current {
        QueueAcknowledgement(sequence);
        return;
      }
      if mounted {
        terminalCallbacks := terminalCallbacks + [sequence];
      } else {
        QueueAcknowledgement(sequence);
      }
    }

    method TerminalProcessed()
      requires terminalCallbacks != []
      modifies this
      ensures View() == CallbackFired(old(View()))
    {
      var sequence := terminalCallbacks[0];
      terminalCallbacks := terminalCallbacks[1..];
      QueueAcknowledgement(sequence);
    }

    method StartResponse(sessionId: string)
      modifies this
      ensures View() == SessionStarted(old(View()), sessionId)
    {
      acknowledgementSessionId := Some(sessionId);
      QueueAcknowledgement(processedSequence);
    }
  }
}
