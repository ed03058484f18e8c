/** The two repository methods of the event table on their own, at the grain of their statements, for
    any caller: the row is read, and later written back whole, and a batch update in between can be
    overwritten; this module says exactly when. `EventStatements` proves that the program never calls
    them so. */
module EventRaces {
  import opened Basics
  import opened TaskModel
  import opened EventLog

  /** An event whose row has been looked up: its place, and the row if there was one. */
  datatype Taken = Taken(event: TaskEvent, at: nat, stale: Option<TaskEvent>)

  /** Events of a run are handled one after the other, so at most one is between its statements. */
  datatype State = State(log: seq<TaskEvent>, pending: Option<Taken>)

  datatype Action = Take(event: TaskEvent) | Save | MarkNow(ids: seq<string>)

  predicate Enabled(s: State, a: Action) {
    match a
    case Take(_) => s.pending.None?
    case Save => s.pending.Some?
    case MarkNow(_) => true
  }

  /** The row that is written back over the one looked up. */
  function Written(p: Taken): TaskEvent
    requires p.stale.Some?
  {
    p.stale.value.(text := p.event.text, status := p.event.status, reason := p.event.reason)
  }

  function Next(s: State, a: Action): State
    requires Enabled(s, a)
  {
    match a
    case Take(e) =>
      var i := Find(s.log, e.taskID, e.step);
      s.(pending := Some(Taken(e, i, if i < |s.log| then Some(s.log[i]) else None)))
    case Save =>
      var p := s.pending.value;
      var done := s.(pending := None);
      if p.stale.None? then done.(log := s.log + [p.event])
      else if p.stale.value.status != Success && p.at < |s.log| then done.(log := s.log[p.at := Written(p)])
      else done
    case MarkNow(ids) => s.(log := MarkSucceeded(s.log, ids))
  }

  ghost predicate IsRun(states: seq<State>, actions: seq<Action>) {
    |states| == |actions| + 1 && states[0].pending.None? &&
    forall i :: 0 <= i < |actions| ==> Enabled(states[i], actions[i]) && states[i + 1] == Next(states[i], actions[i])
  }

  /** A batch update since the last lookup named this event ID. */
  predicate MarkedSince(actions: seq<Action>, id: string) {
    actions != [] &&
    (match actions[|actions| - 1]
     case MarkNow(ids) => id in ids || MarkedSince(actions[..|actions| - 1], id)
     case _ => false)
  }

  /** The row looked up is where it was, and as it was unless a batch update named it. */
  predicate Inv(s: State, actions: seq<Action>) {
    s.pending.Some? ==>
      (var p := s.pending.value;
       p.at == Find(s.log, p.event.taskID, p.event.step) &&
       if p.stale.None? then p.at == |s.log|
       else
         p.at < |s.log| &&
         s.log[p.at] ==
         if MarkedSince(actions, p.stale.value.eventID) then p.stale.value.(status := Success) else p.stale.value)
  }

  lemma {:induction false} FindMarked(log: seq<TaskEvent>, ids: seq<string>, taskID: TaskID, step: Step)
    ensures Find(MarkSucceeded(log, ids), taskID, step) == Find(log, taskID, step)
  {
    if log != [] && !Matches(log[0], taskID, step) {
      FindMarked(log[1..], ids, taskID, step);
      assert MarkSucceeded(log, ids)[1..] == MarkSucceeded(log[1..], ids);
    }
  }

  lemma NextKeepsInv(s: State, actions: seq<Action>, a: Action)
    requires Inv(s, actions) && Enabled(s, a)
    ensures Inv(Next(s, a), actions + [a])
  {
    assert (actions + [a])[..|actions|] == actions;
    if a.MarkNow? && s.pending.Some? {
      FindMarked(s.log, a.ids, s.pending.value.event.taskID, s.pending.value.event.step);
    }
  }

  lemma {:induction false} RunKeepsInv(states: seq<State>, actions: seq<Action>)
    requires IsRun(states, actions)
    ensures Inv(states[|actions|], actions)
  {
    var n := |actions|;
    if n > 0 {
      RunKeepsInv(states[..n], actions[..n - 1]);
      NextKeepsInv(states[n - 1], actions[..n - 1], actions[n - 1]);
      assert actions == actions[..n - 1] + [actions[n - 1]];
    }
  }

  /** A stored success is no success after the action. */
  predicate Loses(s: State, a: Action)
    requires Enabled(s, a)
  {
    exists j :: 0 <= j < |s.log| && s.log[j].status == Success &&
      j < |Next(s, a).log| && Next(s, a).log[j].status != Success
  }

  /** The row about to be overwritten was no success when it was looked up, and a batch update has
      named its event since. */
  predicate Overtaken(s: State, actions: seq<Action>) {
    s.pending.Some? && s.pending.value.stale.Some? && s.pending.value.stale.value.status != Success &&
    MarkedSince(actions, s.pending.value.stale.value.eventID)
  }

  /** In every run of the methods a stored success is lost exactly when an event other than a success is written back
      over a row that a batch update named after it was looked up. */
  lemma LosesIff(states: seq<State>, actions: seq<Action>, a: Action)
    requires IsRun(states, actions) && Enabled(states[|actions|], a)
    ensures var s := states[|actions|];
      Loses(s, a) <==> a.Save? && Overtaken(s, actions) && s.pending.value.event.status != Success
  {
    RunKeepsInv(states, actions);
    var s := states[|actions|];
    if a.Save? && Overtaken(s, actions) && s.pending.value.event.status != Success {
      var j := s.pending.value.at;
      assert s.log[j].status == Success && Next(s, a).log[j].status != Success;
    }
  }

  /** The event writes back what a batch update has left in the row it found. */
  predicate WritesSame(p: Taken) {
    p.stale.Some? && Written(p) == p.stale.value.(status := Success)
  }

  /** Looking up and writing back amount to one upsert at the time of the write exactly if no batch update
      has named the row in between, or the event is a success with the same text and reason. */
  lemma SaveIsUpsertIff(states: seq<State>, actions: seq<Action>)
    requires IsRun(states, actions) && states[|actions|].pending.Some?
    ensures var s := states[|actions|];
      Next(s, Save).log == Upsert(s.log, s.pending.value.event) <==>
      !Overtaken(s, actions) || WritesSame(s.pending.value)
  {
    RunKeepsInv(states, actions);
    var s := states[|actions|];
    var p := s.pending.value;
    UpsertAt(s.log, p.event);
    if Overtaken(s, actions) {
      assert Next(s, Save).log[p.at] == Written(p) && s.log[p.at] == p.stale.value.(status := Success);
    }
  }

  /** A run of the methods in which the success that a batch update stored is lost. */
  lemma MarkIsOverwritten(before: TaskEvent, late: TaskEvent)
    requires before.status != Success && late.status != Success && Matches(before, late.taskID, late.step)
    ensures exists states: seq<State>, actions: seq<Action> ::
      IsRun(states, actions) && states[0].log == [before] && Enabled(states[|actions|], Save) &&
      Loses(states[|actions|], Save)
  {
    var s0 := State([before], None);
    var s1 := Next(s0, Take(late));
    var s2 := Next(s1, MarkNow([before.eventID]));
    var states, actions := [s0, s1, s2], [Take(late), MarkNow([before.eventID])];
    assert s2.log[0].status == Success && Next(s2, Save).log[0].status != Success;
    assert IsRun(states, actions) && states[|actions|] == s2 && Loses(s2, Save);
  }
}
