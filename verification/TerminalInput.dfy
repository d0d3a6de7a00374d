/** What the user types on its way through the command queue to the shell
    (apps/desktop/src-tauri/src/terminal.rs, `write_terminal`, `resize_terminal` and the loop). */
module TerminalInput {
  import opened Wrappers
  import opened Sequences
  import opened TerminalFlow
  import opened TerminalSession
  import opened TerminalTimeline
  import opened TerminalProtocol

  /** The writes and resizes among some commands. */
  function Input(commands: seq<SessionCommand>): seq<SessionCommand> {
    if commands == [] then []
    else (if ForShell(commands[0]) then [commands[0]] else []) + Input(commands[1..])
  }

  lemma {:induction false} InputOfAppended(commands: seq<SessionCommand>, c: SessionCommand)
    ensures Input(commands + [c]) == Input(commands) + if ForShell(c) then [c] else []
  {
    if commands == [] {
      assert commands + [c] == [c];
      assert [c][1..] == [];
    } else {
      assert (commands + [c])[1..] == commands[1..] + [c];
      InputOfAppended(commands[1..], c);
      Associates(if ForShell(commands[0]) then [commands[0]] else [], Input(commands[1..]),
                 if ForShell(c) then [c] else []);
    }
  }

  /** What the user asked for in the first `n` actions of a behaviour. */
  function Typed(actions: seq<Action>, n: nat): seq<SessionCommand>
    requires n <= |actions|
  {
    if n == 0 then []
    else Typed(actions, n - 1)
         + if actions[n - 1].User? && ForShell(actions[n - 1].command) then [actions[n - 1].command] else []
  }

  /** Given to the shell, or still queued. */
  function OnItsWay(s: System): seq<SessionCommand> {
    s.loop.given + Input(s.commands)
  }

  lemma BackendForwards(s: System, p: Poll)
    requires Enabled(s, Backend(p))
    ensures OnItsWay(Next(s, Backend(p))) == OnItsWay(s)
  {
    StepGives(s.loop, p);
    if Select(s.loop.flow, p) == OnCommand && s.commands != [] {
      var head := if ForShell(s.commands[0]) then [s.commands[0]] else [];
      assert Input(s.commands) == head + Input(s.commands[1..]);
      Associates(s.loop.given, head, Input(s.commands[1..]));
    } else {
      assert s.loop.given + [] == s.loop.given;
    }
  }

  lemma ActionForwards(s: System, a: Action)
    requires Enabled(s, a)
    ensures OnItsWay(Next(s, a)) == OnItsWay(s) + if a.User? && ForShell(a.command) then [a.command] else []
  {
    assert OnItsWay(s) + [] == OnItsWay(s);
    match a
    case Backend(p) => BackendForwards(s, p);
    case FinishLoop(accepted) => assert Finish(s.loop, accepted).given == s.loop.given;
    case Enqueue => InputOfAppended(s.commands, AcknowledgeOutput(s.call.sequence));
    case User(c) =>
      InputOfAppended(s.commands, c);
      Associates(s.loop.given, Input(s.commands), if ForShell(c) then [c] else []);
    case _ =>
  }

  /** In every behaviour the shell has been given a prefix of what the user typed, in order and each once, and
      the rest of it is still in the queue: acknowledgements, output and failures never reorder it. */
  lemma {:induction false} InputIsInOrder(states: seq<System>, actions: seq<Action>, i: nat)
    requires Behaviour(states, actions) && i <= |actions|
    ensures Typed(actions, i) == states[i].loop.given + Input(states[i].commands)
  {
    if i > 0 {
      InputIsInOrder(states, actions, i - 1);
      ActionForwards(states[i - 1], actions[i - 1]);
    }
  }

  /** The command queue never holds more than 128 commands, acknowledgements included. */
  lemma {:induction false} QueueIsBounded(states: seq<System>, actions: seq<Action>, i: nat)
    requires Behaviour(states, actions) && i <= |actions|
    ensures |states[i].commands| <= 128
  {
    if i > 0 {
      QueueIsBounded(states, actions, i - 1);
    }
  }
}
