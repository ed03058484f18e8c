/** One run of a task: the runner sends its events and then `Close` into a channel of capacity 10,
    a handler goroutine drains it, and `run` returns after both. */
module Pipeline {
  import opened TaskModel

  const CAPACITY := 10
  const CLOSE := Message(Step.Close, "", Blank)

  /** `todo` is what the runner has not sent yet; `handled` what the handler has recorded. */
  datatype State =
    State(todo: seq<Message>, channel: seq<Message>, handled: seq<Message>, handlerDone: bool, returned: bool)

  datatype Action = Send | Handle | Return

  /** The run of a trace, before anything has happened; `Close` is sent by the deferred call. */
  function Launch(trace: seq<Message>): State {
    State(trace + [CLOSE], [], [], false, false)
  }

  predicate Enabled(s: State, a: Action) {
    match a
    case Send => s.todo != [] && |s.channel| < CAPACITY
    case Handle => s.channel != [] && !s.handlerDone
    case Return => s.todo == [] && s.handlerDone && !s.returned
  }

  function Next(s: State, a: Action): State
    requires Enabled(s, a)
  {
    match a
    case Send => s.(todo := s.todo[1..], channel := s.channel + [s.todo[0]])
    case Handle =>
      var m := s.channel[0];
      if m.step == Step.Close then s.(channel := s.channel[1..], handlerDone := true)
      else s.(channel := s.channel[1..], handled := s.handled + [m])
    case Return => s.(returned := true)
  }

  /** No emitted message is the closing one. */
  predicate Proper(trace: seq<Message>) {
    forall i :: 0 <= i < |trace| ==> trace[i].step != Step.Close
  }

  /** What is handled, buffered and unsent is the trace in order. */
  predicate Inv(trace: seq<Message>, s: State) {
    |s.channel| <= CAPACITY &&
    s.handled + (if s.handlerDone then [CLOSE] else []) + s.channel + s.todo == trace + [CLOSE] &&
    (if s.handlerDone then s.handled == trace && s.channel == [] && s.todo == [] else |s.handled| <= |trace|) &&
    (s.returned ==> s.handlerDone)
  }

  lemma NextKeepsInv(trace: seq<Message>, s: State, a: Action)
    requires Proper(trace) && Inv(trace, s) && Enabled(s, a)
    ensures Inv(trace, Next(s, a))
    ensures a == Handle && s.channel[0].step != Step.Close ==>
      |s.handled| < |trace| && s.channel[0] == trace[|s.handled|]
  {
    var t := Next(s, a);
    var whole := s.handled + (if s.handlerDone then [CLOSE] else []) + s.channel + s.todo;
    match a {
      case Send =>
        assert s.channel + s.todo == t.channel + t.todo;
        assert whole == s.handled + (if s.handlerDone then [CLOSE] else []) + (s.channel + s.todo);
      case Handle =>
        var m := s.channel[0];
        assert m == whole[|s.handled|] == (trace + [CLOSE])[|s.handled|];
        if m.step == Step.Close {
          assert |s.handled| == |trace|;
          assert s.handled == whole[..|trace|] == trace;
        } else {
          assert |s.handled| < |trace|;
        }
      case Return =>
    }
  }

  /** A run that has not returned can take a step. */
  lemma NeverStuck(trace: seq<Message>, s: State)
    requires Proper(trace) && Inv(trace, s) && !s.returned
    ensures exists a :: Enabled(s, a)
  {
    if s.handlerDone {
      assert Enabled(s, Return);
    } else if s.channel != [] {
      assert Enabled(s, Handle);
    } else {
      assert |s.handled| + |s.todo| == |trace| + 1;
      assert Enabled(s, Send);
    }
  }

  /** Work left: unsent messages cost a send and a handling. */
  function Work(s: State): nat {
    2 * |s.todo| + |s.channel| + (if s.returned then 0 else 1)
  }

  lemma NextIsProgress(s: State, a: Action)
    requires Enabled(s, a)
    ensures Work(Next(s, a)) == Work(s) - 1
  {
  }

  /** The states of a schedule, first to last. */
  ghost predicate IsRun(trace: seq<Message>, states: seq<State>, actions: seq<Action>) {
    |states| == |actions| + 1 && states[0] == Launch(trace) &&
    forall i :: 0 <= i < |actions| ==> Enabled(states[i], actions[i]) && states[i + 1] == Next(states[i], actions[i])
  }

  /** In every interleaving the handler has seen a prefix of the trace in order, all of it before
      `run` returns; no reachable state is stuck, and every schedule that cannot go on has returned
      after exactly two steps per message, the closing one included, and the return. */
  lemma {:induction false} EveryScheduleHandlesTheTrace(trace: seq<Message>, states: seq<State>, actions: seq<Action>)
    requires Proper(trace) && IsRun(trace, states, actions)
    ensures var s := states[|actions|];
      Inv(trace, s) && s.handled <= trace && (s.returned ==> s.handled == trace) &&
      (s.returned || exists a :: Enabled(s, a)) &&
      |actions| + Work(s) == 2 * |trace| + 3
  {
    var n := |actions|;
    if n > 0 {
      EveryScheduleHandlesTheTrace(trace, states[..n], actions[..n - 1]);
      NextKeepsInv(trace, states[n - 1], actions[n - 1]);
      NextIsProgress(states[n - 1], actions[n - 1]);
    }
    var s := states[n];
    HandledIsPrefix(trace, s);
    if !s.returned { NeverStuck(trace, s); }
  }

  lemma HandledIsPrefix(trace: seq<Message>, s: State)
    requires Proper(trace) && Inv(trace, s)
    ensures s.handled <= trace
  {
    if !s.handlerDone {
      var whole := s.handled + [] + s.channel + s.todo;
      assert whole[..|s.handled|] == s.handled;
      assert (trace + [CLOSE])[..|s.handled|] == trace[..|s.handled|];
    }
  }
}
