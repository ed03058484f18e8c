/** The consumer of a task queue: it starts one runner per new task ID and remembers the IDs it has
    handled, while finished runners write into the same memory. */
module Dispatch {
  import opened TaskModel

  const CAPACITY := 10

  /** A queued message; `valid` says whether `CreateTask` accepts its configuration. */
  datatype Delivery = Delivery(id: TaskID, valid: bool)

  datatype Mark = IsRunning | IsComplete

  /** The consumer is waiting, or has started a runner and not yet recorded it. */
  datatype Phase = Waiting | Launched(id: TaskID)

  /** `consumed`, `started` and `rejected` record the past in order. */
  datatype State = State(queue: seq<Delivery>, phase: Phase, handled: map<TaskID, Mark>,
    consumed: seq<Delivery>, started: seq<TaskID>, finished: seq<TaskID>, rejected: seq<TaskID>)

  datatype Action = Enqueue(d: Delivery) | Consume | Record | Finish(id: TaskID)

  const EMPTY := State([], Waiting, map[], [], [], [], [])

  predicate Enabled(s: State, a: Action) {
    match a
    case Enqueue(_) => |s.queue| < CAPACITY
    case Consume => s.queue != [] && s.phase == Waiting
    case Record => s.phase.Launched?
    case Finish(id) => id in s.started && id !in s.finished
  }

  function Next(s: State, a: Action): State
    requires Enabled(s, a)
  {
    match a
    case Enqueue(d) => s.(queue := s.queue + [d])
    case Consume =>
      var d, rest := s.queue[0], s.(queue := s.queue[1..], consumed := s.consumed + [s.queue[0]]);
      if d.id in s.handled then rest
      else if !d.valid then rest.(rejected := rest.rejected + [d.id])
      else rest.(phase := Launched(d.id), started := rest.started + [d.id])
    case Record => s.(phase := Waiting, handled := s.handled[s.phase.id := IsRunning])
    case Finish(id) => s.(handled := s.handled[id := IsComplete], finished := s.finished + [id])
  }

  /** The number of starts of a task. */
  function Starts(started: seq<TaskID>, id: TaskID): nat {
    if started == [] then 0
    else Starts(started[..|started| - 1], id) + (if started[|started| - 1] == id then 1 else 0)
  }

  lemma {:induction false} StartsPositive(started: seq<TaskID>, id: TaskID)
    ensures Starts(started, id) > 0 <==> id in started
  {
    if started != [] {
      StartsPositive(started[..|started| - 1], id);
      assert started == started[..|started| - 1] + [started[|started| - 1]];
    }
  }

  predicate ValidSeen(consumed: seq<Delivery>, id: TaskID) {
    Delivery(id, true) in consumed
  }

  ghost predicate Inv(s: State) {
    (forall id :: Starts(s.started, id) == if ValidSeen(s.consumed, id) then 1 else 0) &&
    (forall id :: id in s.handled ==> ValidSeen(s.consumed, id)) &&
    (forall id :: ValidSeen(s.consumed, id) ==> id in s.handled || s.phase == Launched(id)) &&
    (s.phase.Launched? ==> ValidSeen(s.consumed, s.phase.id)) &&
    (forall id :: id in s.finished ==> ValidSeen(s.consumed, id))
  }

  lemma SeenAfter(consumed: seq<Delivery>, d: Delivery, id: TaskID)
    ensures ValidSeen(consumed + [d], id) <==> ValidSeen(consumed, id) || (d.id == id && d.valid)
  {
    assert d.valid ==> d == Delivery(d.id, true);
  }

  lemma StartsAfter(started: seq<TaskID>, next: TaskID, id: TaskID)
    ensures Starts(started + [next], id) == Starts(started, id) + if next == id then 1 else 0
  {
    assert (started + [next])[..|started|] == started;
  }

  lemma ConsumeKeepsInv(s: State)
    requires Inv(s) && Enabled(s, Consume)
    ensures Inv(Next(s, Consume))
  {
    var t, d := Next(s, Consume), s.queue[0];
    assert t.consumed == s.consumed + [d];
    forall id
      ensures ValidSeen(t.consumed, id) <==> ValidSeen(s.consumed, id) || (d.id == id && d.valid)
      ensures Starts(t.started, id) == if ValidSeen(t.consumed, id) then 1 else 0
    {
      SeenAfter(s.consumed, d, id);
      StartsAfter(s.started, d.id, id);
    }
  }

  lemma NextKeepsInv(s: State, a: Action)
    requires Inv(s) && Enabled(s, a)
    ensures Inv(Next(s, a))
    ensures Next(s, a).consumed + Next(s, a).queue == s.consumed + s.queue + if a.Enqueue? then [a.d] else []
  {
    match a {
      case Enqueue(_) =>
      case Consume => ConsumeKeepsInv(s);
      case Record =>
      case Finish(id) => StartsPositive(s.started, id);
    }
  }

  /** What was put into the queue, in order. */
  function Deliveries(actions: seq<Action>): seq<Delivery> {
    if actions == [] then []
    else
      var a := actions[|actions| - 1];
      Deliveries(actions[..|actions| - 1]) + if a.Enqueue? then [a.d] else []
  }

  ghost predicate IsRun(states: seq<State>, actions: seq<Action>) {
    |states| == |actions| + 1 && states[0] == EMPTY &&
    forall i :: 0 <= i < |actions| ==> Enabled(states[i], actions[i]) && states[i + 1] == Next(states[i], actions[i])
  }

  /** For any deliveries, redeliveries included, and any interleaving of the consumer with finishing
      runners: deliveries are consumed in order, and a task is started exactly once if a message of it
      that passes `CreateTask` was consumed and otherwise not at all, whatever its mark says. */
  lemma {:induction false} StartedOnce(states: seq<State>, actions: seq<Action>, id: TaskID)
    requires IsRun(states, actions)
    ensures var s := states[|actions|];
      Inv(s) && Starts(s.started, id) == (if Delivery(id, true) in s.consumed then 1 else 0) &&
      s.consumed + s.queue == Deliveries(actions)
  {
    var n := |actions|;
    if n > 0 {
      StartedOnce(states[..n], actions[..n - 1], id);
      NextKeepsInv(states[n - 1], actions[n - 1]);
    }
  }

  /** The messages that fail in `CreateTask`, in order: of a task that no earlier message has started. */
  function Refused(consumed: seq<Delivery>): seq<TaskID> {
    if consumed == [] then []
    else
      var n := |consumed| - 1;
      Refused(consumed[..n]) +
      if consumed[n].valid || ValidSeen(consumed[..n], consumed[n].id) then [] else [consumed[n].id]
  }

  lemma RefusedNext(s: State, a: Action)
    requires Inv(s) && Enabled(s, a) && s.rejected == Refused(s.consumed)
    ensures Next(s, a).rejected == Refused(Next(s, a).consumed)
  {
    if a.Consume? {
      var t := Next(s, a);
      assert t.consumed[..|s.consumed|] == s.consumed;
      assert s.queue[0].id in s.handled <==> ValidSeen(s.consumed, s.queue[0].id);
    }
  }

  /** A message that fails in `CreateTask` is answered with a failure event each time it is delivered,
      unless its task was started before; no other message is. */
  lemma {:induction false} RejectedAre(states: seq<State>, actions: seq<Action>)
    requires IsRun(states, actions)
    ensures states[|actions|].rejected == Refused(states[|actions|].consumed)
  {
    var n := |actions|;
    if n > 0 {
      RejectedAre(states[..n], actions[..n - 1]);
      StartedOnce(states[..n], actions[..n - 1], "");
      RefusedNext(states[n - 1], actions[n - 1]);
    }
  }

  /** Recording the start of the task turns its mark from complete to running. */
  predicate Overwrites(s: State, id: TaskID) {
    s.phase == Launched(id) && id in s.handled && s.handled[id] == IsComplete &&
    Next(s, Record).handled[id] == IsRunning
  }

  /** While a launch is not recorded, the task has a mark exactly if its runner has already finished. */
  predicate MarkedByRunner(s: State) {
    (forall id :: id in s.finished ==> id in s.handled) &&
    (s.phase.Launched? ==> (s.phase.id in s.handled <==> s.phase.id in s.finished)) &&
    (s.phase.Launched? && s.phase.id in s.handled ==> s.handled[s.phase.id] == IsComplete)
  }

  lemma NextKeepsMarks(s: State, a: Action)
    requires MarkedByRunner(s) && Enabled(s, a)
    ensures MarkedByRunner(Next(s, a))
  {
    if a.Consume? && s.queue[0].id in s.finished {
      assert s.queue[0].id in s.handled;
    }
  }

  lemma {:induction false} RunsKeepMarks(states: seq<State>, actions: seq<Action>)
    requires IsRun(states, actions)
    ensures MarkedByRunner(states[|actions|])
  {
    var n := |actions|;
    if n > 0 {
      RunsKeepMarks(states[..n], actions[..n - 1]);
      NextKeepsMarks(states[n - 1], actions[n - 1]);
    }
  }

  /** In every run, recording the start of a task loses its mark `complete` exactly if its runner has
      finished before the start was recorded. */
  lemma OverwrittenIff(states: seq<State>, actions: seq<Action>)
    requires IsRun(states, actions) && Enabled(states[|actions|], Record)
    ensures var s := states[|actions|];
      Overwrites(s, s.phase.id) <==> s.phase.id in s.finished
  {
    RunsKeepMarks(states, actions);
  }

  /** And that happens: the runner may end before its start is recorded. */
  lemma CompleteMayBeOverwritten(id: TaskID)
    ensures exists states, actions ::
      IsRun(states, actions) && Enabled(states[|actions|], Record) && Overwrites(states[|actions|], id)
  {
    var d := Delivery(id, true);
    var s1 := Next(EMPTY, Enqueue(d));
    var s2 := Next(s1, Consume);
    assert s2.started == [id];
    var s3 := Next(s2, Finish(id));
    var states, actions := [EMPTY, s1, s2, s3], [Enqueue(d), Consume, Finish(id)];
    assert IsRun(states, actions) && states[|actions|] == s3;
  }
}
