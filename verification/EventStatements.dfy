/** Recording events at the grain of its statements, with everything the program runs beside it: one
    handler per task, and listings whose synchronisation collects event IDs and marks them later.
    Since a failure is the last message of such a task, its events are marked only when no handler is
    between lookup and write-back, and no stored success is ever lost. */
module EventStatements {
  import opened Basics
  import opened TaskModel
  import opened EventLog
  import opened ClusterUsecase
  import opened InitRegion

  /** A row that has been looked up for a message: its place, and the row if there was one. */
  datatype Lookup = Lookup(m: Message, at: nat, stale: Option<TaskEvent>)

  /** What the handler of a task has still to record; `own` marks the init tasks of self-managed clusters. */
  datatype Handler = Handler(todo: seq<Message>, pending: Option<Lookup>, own: bool)

  /** The IDs that a listing of the task has collected and not yet marked. */
  datatype Collected = Collected(taskID: TaskID, ids: seq<string>)

  datatype Sys = Sys(log: seq<TaskEvent>, handlers: map<TaskID, Handler>, syncs: map<nat, Collected>)

  datatype Action =
    | Launch(id: TaskID, ms: seq<Message>, own: bool)
    | Take(id: TaskID)
    | Save(id: TaskID, freshID: string)
    | Collect(k: nat, id: TaskID, status: RegionStatus)
    | MarkAll(k: nat)

  /** A new UUID. */
  predicate Fresh(s: Sys, id: string) {
    (forall i :: 0 <= i < |s.log| ==> s.log[i].eventID != id) && forall k :: k in s.syncs ==> id !in s.syncs[k].ids
  }

  predicate Enabled(s: Sys, a: Action) {
    match a
    case Launch(id, ms, own) => id !in s.handlers && OfTask(s.log, id) == [] && (own ==> FailsLast(ms))
    case Take(id) => id in s.handlers && s.handlers[id].pending.None? && s.handlers[id].todo != []
    case Save(id, freshID) => id in s.handlers && s.handlers[id].pending.Some? && Fresh(s, freshID)
    case Collect(k, id, _) =>
      k !in s.syncs && id in s.handlers && s.handlers[id].own && Failed(OfTask(s.log, id))
    case MarkAll(k) => k in s.syncs
  }

  /** The table after the row looked up is written back, or a new one inserted. */
  function Saved(log: seq<TaskEvent>, id: TaskID, p: Lookup, freshID: string): seq<TaskEvent> {
    var e := EventOf(id, p.m, freshID);
    if p.stale.None? then log + [e]
    else if p.stale.value.status != Success && p.at < |log|
    then log[p.at := p.stale.value.(text := e.text, status := e.status, reason := e.reason)]
    else log
  }

  function Next(s: Sys, a: Action): Sys
    requires Enabled(s, a)
  {
    match a
    case Launch(id, ms, own) => s.(handlers := s.handlers[id := Handler(ms, None, own)])
    case Take(id) =>
      var h := s.handlers[id];
      var i := Find(s.log, id, h.todo[0].step);
      var p := Lookup(h.todo[0], i, if i < |s.log| then Some(s.log[i]) else None);
      s.(handlers := s.handlers[id := h.(todo := h.todo[1..], pending := Some(p))])
    case Save(id, freshID) =>
      var h := s.handlers[id];
      s.(log := Saved(s.log, id, h.pending.value, freshID), handlers := s.handlers[id := h.(pending := None)])
    case Collect(k, id, status) =>
      s.(syncs := s.syncs[k := Collected(id, SyncIDs(OfTask(s.log, id), status))])
    case MarkAll(k) =>
      s.(log := MarkSucceeded(s.log, s.syncs[k].ids), syncs := s.syncs - {k})
  }

  ghost predicate IsExecution(states: seq<Sys>, actions: seq<Action>) {
    |states| == |actions| + 1 &&
    DistinctIDs(states[0].log) && states[0].handlers == map[] && states[0].syncs == map[] &&
    forall i :: 0 <= i < |actions| ==> Enabled(states[i], actions[i]) && states[i + 1] == Next(states[i], actions[i])
  }

  // ----- the invariant

  /** The row is where and as it was looked up. */
  predicate Unchanged(log: seq<TaskEvent>, id: TaskID, p: Lookup)
    requires p.stale.Some?
  {
    p.at == Find(log, id, p.m.step) && p.at < |log| && log[p.at] == p.stale.value
  }

  /** The task has a stored failure. */
  predicate HasFailed(log: seq<TaskEvent>, id: TaskID) {
    exists i :: 0 <= i < |log| && log[i].taskID == id && log[i].status == Failure
  }

  /** Nothing is left to record. */
  predicate Over(h: Handler) {
    h.pending.None? && h.todo == []
  }

  function Unrecorded(h: Handler): seq<Message> {
    (if h.pending.Some? then [h.pending.value.m] else []) + h.todo
  }

  predicate GoodHandler(log: seq<TaskEvent>, id: TaskID, h: Handler) {
    (h.pending.Some? ==>
      (if h.pending.value.stale.None? then Find(log, id, h.pending.value.m.step) == |log|
       else Unchanged(log, id, h.pending.value))) &&
    (h.own ==> FailsLast(Unrecorded(h)) && (HasFailed(log, id) ==> Over(h)))
  }

  /** The ID is that of an event of the task. */
  predicate IsOwnID(log: seq<TaskEvent>, taskID: TaskID, id: string) {
    exists i :: 0 <= i < |log| && log[i].taskID == taskID && log[i].eventID == id
  }

  predicate GoodSync(log: seq<TaskEvent>, handlers: map<TaskID, Handler>, c: Collected) {
    c.taskID in handlers && Over(handlers[c.taskID]) && forall x :: x in c.ids ==> IsOwnID(log, c.taskID, x)
  }

  predicate Inv(s: Sys) {
    DistinctIDs(s.log) && (forall id :: id in s.handlers ==> GoodHandler(s.log, id, s.handlers[id])) &&
    forall k :: k in s.syncs ==> GoodSync(s.log, s.handlers, s.syncs[k])
  }

  /** Rows keep their keys and IDs; those of the task stay as they are, and none is added to it. */
  predicate KeepsTask(log: seq<TaskEvent>, after: seq<TaskEvent>, id: TaskID) {
    KeepsKeys(log, after) && (forall i :: 0 <= i < |log| && log[i].taskID == id ==> after[i] == log[i]) &&
    forall i :: |log| <= i < |after| ==> after[i].taskID != id
  }

  predicate KeepsKeys(log: seq<TaskEvent>, after: seq<TaskEvent>) {
    |log| <= |after| &&
    forall i :: 0 <= i < |log| ==>
      after[i].taskID == log[i].taskID && after[i].step == log[i].step && after[i].eventID == log[i].eventID
  }

  lemma FindKept(log: seq<TaskEvent>, after: seq<TaskEvent>, id: TaskID, step: Step)
    requires KeepsTask(log, after, id)
    ensures Find(after, id, step) == if Find(log, id, step) < |log| then Find(log, id, step) else |after|
  {
    var i, j := Find(log, id, step), Find(after, id, step);
    if i < |log| { assert Matches(after[i], id, step); }
    if j < |log| { assert Matches(log[j], id, step); }
  }

  lemma KeptHandlerIsGood(log: seq<TaskEvent>, after: seq<TaskEvent>, id: TaskID, h: Handler)
    requires KeepsTask(log, after, id) && GoodHandler(log, id, h)
    ensures GoodHandler(after, id, h)
  {
    if h.pending.Some? { FindKept(log, after, id, h.pending.value.m.step); }
    if i :| 0 <= i < |after| && after[i].taskID == id && after[i].status == Failure {
      assert log[i].taskID == id && log[i].status == Failure;
    }
  }

  lemma KeptSyncIsGood(log: seq<TaskEvent>, after: seq<TaskEvent>, handlers: map<TaskID, Handler>,
    later: map<TaskID, Handler>, c: Collected)
    requires KeepsKeys(log, after) && GoodSync(log, handlers, c)
    requires c.taskID in later && later[c.taskID] == handlers[c.taskID]
    ensures GoodSync(after, later, c)
  {
    forall x | x in c.ids
      ensures IsOwnID(after, c.taskID, x)
    {
      assert IsOwnID(log, c.taskID, x);
      var i :| 0 <= i < |log| && log[i].taskID == c.taskID && log[i].eventID == x;
      assert after[i].taskID == c.taskID && after[i].eventID == x;
    }
  }

  // ----- lookup and write-back

  lemma TakeKeepsInv(s: Sys, id: TaskID)
    requires Inv(s) && Enabled(s, Take(id))
    ensures Inv(Next(s, Take(id)))
  {
    var h, h1 := s.handlers[id], Next(s, Take(id)).handlers[id];
    assert GoodHandler(s.log, id, h);
    assert [h.todo[0]] + h1.todo == h.todo && [] + h.todo == h.todo;
    assert GoodHandler(s.log, id, h1);
    forall k | k in s.syncs
      ensures GoodSync(s.log, Next(s, Take(id)).handlers, s.syncs[k])
    {
      assert GoodSync(s.log, s.handlers, s.syncs[k]);
    }
  }

  /** Writing back changes the rows of its own task only. */
  lemma SavedKeeps(log: seq<TaskEvent>, id: TaskID, h: Handler, freshID: string, other: TaskID)
    requires GoodHandler(log, id, h) && h.pending.Some?
    ensures var after := Saved(log, id, h.pending.value, freshID);
      KeepsKeys(log, after) && (other != id ==> KeepsTask(log, after, other))
  {
  }

  /** In such an execution writing back is one upsert. */
  lemma SavedIsUpsert(log: seq<TaskEvent>, id: TaskID, h: Handler, freshID: string)
    requires GoodHandler(log, id, h) && h.pending.Some?
    ensures Saved(log, id, h.pending.value, freshID) == Upsert(log, EventOf(id, h.pending.value.m, freshID))
  {
    UpsertAt(log, EventOf(id, h.pending.value.m, freshID));
  }

  lemma SavedHandlerIsGood(log: seq<TaskEvent>, id: TaskID, h: Handler, freshID: string)
    requires GoodHandler(log, id, h) && h.pending.Some?
    ensures GoodHandler(Saved(log, id, h.pending.value, freshID), id, h.(pending := None))
  {
    var p, after := h.pending.value, Saved(log, id, h.pending.value, freshID);
    var whole := [p.m] + h.todo;
    if h.own {
      assert forall i :: 0 <= i < |h.todo| ==> h.todo[i] == whole[i + 1];
      assert [] + h.todo == h.todo;
      if i :| 0 <= i < |after| && after[i].taskID == id && after[i].status == Failure {
        assert i < |log| && after[i] == log[i] ==> HasFailed(log, id);
        assert p.m.status == Failure && whole[0] == p.m;
      }
    }
  }

  lemma SaveKeepsInv(s: Sys, id: TaskID, freshID: string)
    requires Inv(s) && Enabled(s, Save(id, freshID))
    ensures Inv(Next(s, Save(id, freshID)))
  {
    var t, h := Next(s, Save(id, freshID)), s.handlers[id];
    assert GoodHandler(s.log, id, h);
    forall other | other in t.handlers
      ensures GoodHandler(t.log, other, t.handlers[other])
    {
      SavedKeeps(s.log, id, h, freshID, other);
      if other == id { SavedHandlerIsGood(s.log, id, h, freshID); }
      else { KeptHandlerIsGood(s.log, t.log, other, s.handlers[other]); }
    }
    forall k | k in t.syncs
      ensures GoodSync(t.log, t.handlers, t.syncs[k])
    {
      SavedKeeps(s.log, id, h, freshID, id);
      assert GoodSync(s.log, s.handlers, s.syncs[k]);
      KeptSyncIsGood(s.log, t.log, s.handlers, t.handlers, s.syncs[k]);
    }
  }

  // ----- collecting and marking

  lemma LaunchKeepsInv(s: Sys, id: TaskID, ms: seq<Message>, own: bool)
    requires Inv(s) && Enabled(s, Launch(id, ms, own))
    ensures Inv(Next(s, Launch(id, ms, own)))
  {
    var t := Next(s, Launch(id, ms, own));
    assert [] + ms == ms;
    forall i | 0 <= i < |s.log|
      ensures s.log[i].taskID != id
    {
      assert s.log[i] in s.log;
    }
    forall k | k in s.syncs
      ensures GoodSync(s.log, t.handlers, s.syncs[k])
    {
      assert GoodSync(s.log, s.handlers, s.syncs[k]);
    }
  }

  /** A listing collects only when nothing is left to record, and only IDs of the task's own events. */
  lemma CollectKeepsInv(s: Sys, k: nat, id: TaskID, status: RegionStatus)
    requires Inv(s) && Enabled(s, Collect(k, id, status))
    ensures Inv(Next(s, Collect(k, id, status)))
  {
    var t, events := Next(s, Collect(k, id, status)), OfTask(s.log, id);
    FailedIff(events);
    var e :| e in events && e.status == Failure;
    var i :| 0 <= i < |s.log| && s.log[i] == e;
    assert HasFailed(s.log, id) && GoodHandler(s.log, id, s.handlers[id]);
    forall x | x in SyncIDs(events, status)
      ensures IsOwnID(s.log, id, x)
    {
      CollectedIsOwn(s.log, id, status, x);
    }
    forall j | j in t.syncs
      ensures GoodSync(t.log, t.handlers, t.syncs[j])
    {
      assert j != k ==> GoodSync(s.log, s.handlers, s.syncs[j]);
    }
  }

  lemma CollectedIsOwn(log: seq<TaskEvent>, id: TaskID, status: RegionStatus, x: string)
    requires x in SyncIDs(OfTask(log, id), status)
    ensures IsOwnID(log, id, x)
  {
    var events := OfTask(log, id);
    SyncedIDs(events, status, x);
    var i :| ToMark(events, status, i, x);
    assert events[i] in events;
    var j :| 0 <= j < |log| && log[j] == events[i];
    assert log[j].taskID == id && log[j].eventID == x;
  }

  /** Marking changes the rows of the collecting task only. */
  lemma MarkedKeeps(log: seq<TaskEvent>, handlers: map<TaskID, Handler>, c: Collected, other: TaskID)
    requires DistinctIDs(log) && GoodSync(log, handlers, c)
    ensures var after := MarkSucceeded(log, c.ids);
      KeepsKeys(log, after) && (other != c.taskID ==> KeepsTask(log, after, other))
  {
    forall i | 0 <= i < |log| && log[i].eventID in c.ids
      ensures log[i].taskID == c.taskID
    {
      assert IsOwnID(log, c.taskID, log[i].eventID);
      var j :| 0 <= j < |log| && log[j].taskID == c.taskID && log[j].eventID == log[i].eventID;
      assert i == j;
    }
  }

  lemma MarkKeepsInv(s: Sys, k: nat)
    requires Inv(s) && Enabled(s, MarkAll(k))
    ensures Inv(Next(s, MarkAll(k)))
  {
    var t, c := Next(s, MarkAll(k)), s.syncs[k];
    forall other | other in t.handlers
      ensures GoodHandler(t.log, other, t.handlers[other])
    {
      MarkedKeeps(s.log, s.handlers, c, other);
      assert GoodHandler(s.log, other, s.handlers[other]);
      if other != c.taskID { KeptHandlerIsGood(s.log, t.log, other, s.handlers[other]); }
    }
    MarkedKeeps(s.log, s.handlers, c, c.taskID);
    forall j | j in t.syncs
      ensures GoodSync(t.log, t.handlers, t.syncs[j])
    {
      KeptSyncIsGood(s.log, t.log, s.handlers, t.handlers, s.syncs[j]);
    }
  }

  lemma NextKeepsInv(s: Sys, a: Action)
    requires Inv(s) && Enabled(s, a)
    ensures Inv(Next(s, a))
  {
    match a {
      case Launch(id, ms, own) => LaunchKeepsInv(s, id, ms, own);
      case Take(id) => TakeKeepsInv(s, id);
      case Save(id, freshID) => SaveKeepsInv(s, id, freshID);
      case Collect(k, id, status) => CollectKeepsInv(s, k, id, status);
      case MarkAll(k) => MarkKeepsInv(s, k);
    }
  }

  lemma {:induction false} ExecutionKeepsInv(states: seq<Sys>, actions: seq<Action>)
    requires IsExecution(states, actions)
    ensures Inv(states[|actions|])
  {
    var n := |actions|;
    if n > 0 {
      ExecutionKeepsInv(states[..n], actions[..n - 1]);
      NextKeepsInv(states[n - 1], actions[n - 1]);
    }
  }

  // ----- what every execution guarantees

  /** Lookup and write-back of a message amount to one upsert at the time of the write. */
  lemma RecordingIsUpsert(states: seq<Sys>, actions: seq<Action>, id: TaskID, freshID: string)
    requires IsExecution(states, actions) && Enabled(states[|actions|], Save(id, freshID))
    ensures var s := states[|actions|];
      Next(s, Save(id, freshID)).log == Upsert(s.log, EventOf(id, s.handlers[id].pending.value.m, freshID))
  {
    ExecutionKeepsInv(states, actions);
    var s := states[|actions|];
    assert GoodHandler(s.log, id, s.handlers[id]);
    SavedIsUpsert(s.log, id, s.handlers[id], freshID);
  }

  lemma NextKeepsSuccesses(s: Sys, a: Action)
    requires Inv(s) && Enabled(s, a)
    ensures Succeeds(Next(s, a).log, s.log)
  {
    if a.Save? {
      var h := s.handlers[a.id];
      assert GoodHandler(s.log, a.id, h);
      SavedIsUpsert(s.log, a.id, h, a.freshID);
      PostSucceeds(s.log, s.log, EventOf(a.id, h.pending.value.m, a.freshID));
    }
  }

  /** No stored success is ever lost or changed, however the statements of handlers and
      synchronisations interleave. */
  lemma {:induction false} SuccessIsNeverLost(states: seq<Sys>, actions: seq<Action>, i: nat)
    requires IsExecution(states, actions) && i <= |actions|
    ensures Succeeds(states[|actions|].log, states[i].log)
  {
    var n := |actions|;
    if i < n {
      SuccessIsNeverLost(states[..n], actions[..n - 1], i);
      LastKeepsSuccesses(states, actions);
      SucceedsOn(states[n].log, states[n - 1].log, states[i].log);
    }
  }

  lemma LastKeepsSuccesses(states: seq<Sys>, actions: seq<Action>)
    requires IsExecution(states, actions) && actions != []
    ensures Succeeds(states[|actions|].log, states[|actions| - 1].log)
  {
    var n := |actions|;
    LastStep(states, actions);
    StepKeepsSuccesses(states[n - 1], actions[n - 1], states[n]);
  }

  lemma LastStep(states: seq<Sys>, actions: seq<Action>)
    requires IsExecution(states, actions) && actions != []
    ensures var n := |actions|;
      Inv(states[n - 1]) && Enabled(states[n - 1], actions[n - 1]) && states[n] == Next(states[n - 1], actions[n - 1])
  {
    ExecutionKeepsInv(states[..|actions|], actions[..|actions| - 1]);
  }

  lemma StepKeepsSuccesses(s: Sys, a: Action, t: Sys)
    requires Inv(s) && Enabled(s, a) && t == Next(s, a)
    ensures Succeeds(t.log, s.log)
  {
    NextKeepsSuccesses(s, a);
  }

  lemma SucceedsOn(a: seq<TaskEvent>, b: seq<TaskEvent>, c: seq<TaskEvent>)
    requires Succeeds(a, b) && Succeeds(b, c)
    ensures Succeeds(a, c)
  {
  }
}
