/** The task-event table: an upsert per (task, step) in which a stored success is final. */
module EventLog {
  import opened Basics
  import opened TaskModel

  const MAX_TEXT := 512
  const TERMINATING := "namespace wt-system because it is being terminated"

  function Cut(text: string): string {
    if |text| > MAX_TEXT then text[..MAX_TEXT] else text
  }

  function Reason(text: string): string {
    if Contains(text, TERMINATING) then "NamespaceBeingTerminated" else ""
  }

  predicate Matches(row: TaskEvent, taskID: TaskID, step: Step) {
    row.taskID == taskID && row.step == step
  }

  /** The row after an event for the same task and step arrives. */
  function Overwrite(row: TaskEvent, e: TaskEvent): TaskEvent {
    if row.status == Success then row else row.(text := e.text, status := e.status, reason := e.reason)
  }

  /** The table after an event arrives. */
  function Upsert(log: seq<TaskEvent>, e: TaskEvent): seq<TaskEvent> {
    if log == [] then [e]
    else if Matches(log[0], e.taskID, e.step) then [Overwrite(log[0], e)] + log[1..]
    else [log[0]] + Upsert(log[1..], e)
  }

  /** `UPDATE ... SET status='success' WHERE event_id IN (ids)` */
  function MarkSucceeded(log: seq<TaskEvent>, ids: seq<string>): (r: seq<TaskEvent>)
    ensures |r| == |log|
    ensures forall i :: 0 <= i < |log| ==> r[i] == if log[i].eventID in ids then log[i].(status := Success) else log[i]
  {
    seq(|log|, i requires 0 <= i < |log| => if log[i].eventID in ids then log[i].(status := Success) else log[i])
  }

  /** The stored events of one task, in table order. */
  function OfTask(log: seq<TaskEvent>, taskID: TaskID): (r: seq<TaskEvent>)
    ensures forall e :: e in r <==> e in log && e.taskID == taskID
  {
    if log == [] then []
    else (if log[0].taskID == taskID then [log[0]] else []) + OfTask(log[1..], taskID)
  }

  /** The list holds the rows of the task, at increasing places of the table, and leaves none out. */
  ghost predicate Lists(events: seq<TaskEvent>, log: seq<TaskEvent>, taskID: TaskID) {
    exists at: seq<nat> :: ListsAt(events, log, taskID, at)
  }

  ghost predicate ListsAt(events: seq<TaskEvent>, log: seq<TaskEvent>, taskID: TaskID, at: seq<nat>) {
    |at| == |events| && (forall i, j :: 0 <= i < j < |at| ==> at[i] < at[j]) &&
    (forall i :: 0 <= i < |at| ==> at[i] < |log| && log[at[i]].taskID == taskID && events[i] == log[at[i]]) &&
    forall k :: 0 <= k < |log| && log[k].taskID == taskID ==> k in at
  }

  lemma {:induction false} OfTaskLists(log: seq<TaskEvent>, taskID: TaskID)
    ensures Lists(OfTask(log, taskID), log, taskID)
  {
    if log == [] {
      assert ListsAt([], log, taskID, []);
    } else {
      OfTaskLists(log[1..], taskID);
      var at: seq<nat> :| ListsAt(OfTask(log[1..], taskID), log[1..], taskID, at);
      ListsNext(log, taskID, at);
    }
  }

  lemma ListsNext(log: seq<TaskEvent>, taskID: TaskID, at: seq<nat>)
    requires log != [] && ListsAt(OfTask(log[1..], taskID), log[1..], taskID, at)
    ensures Lists(OfTask(log, taskID), log, taskID)
  {
    var later: seq<nat> := seq(|at|, i requires 0 <= i < |at| => at[i] + 1);
    ListsLater(OfTask(log[1..], taskID), log, taskID, at, later);
    if log[0].taskID == taskID {
      ListsFirst(OfTask(log[1..], taskID), log, taskID, later);
      assert ListsAt(OfTask(log, taskID), log, taskID, [0] + later);
    } else {
      assert OfTask(log, taskID) == OfTask(log[1..], taskID);
      assert ListsAt(OfTask(log, taskID), log, taskID, later);
    }
  }

  /** The places of the rows after the first. */
  ghost predicate ListsRest(events: seq<TaskEvent>, log: seq<TaskEvent>, taskID: TaskID, at: seq<nat>) {
    |at| == |events| && (forall i, j :: 0 <= i < j < |at| ==> at[i] < at[j]) &&
    (forall i :: 0 <= i < |at| ==> 1 <= at[i] < |log| && log[at[i]].taskID == taskID && events[i] == log[at[i]]) &&
    forall k :: 1 <= k < |log| && log[k].taskID == taskID ==> k in at
  }

  lemma ListsLater(events: seq<TaskEvent>, log: seq<TaskEvent>, taskID: TaskID, at: seq<nat>, later: seq<nat>)
    requires log != [] && ListsAt(events, log[1..], taskID, at)
    requires |later| == |at| && forall i :: 0 <= i < |at| ==> later[i] == at[i] + 1
    ensures ListsRest(events, log, taskID, later)
  {
    forall k | 1 <= k < |log| && log[k].taskID == taskID
      ensures k in later
    {
      assert log[1..][k - 1].taskID == taskID;
      var i :| 0 <= i < |at| && at[i] == k - 1;
      assert later[i] == k;
    }
  }

  lemma ListsFirst(events: seq<TaskEvent>, log: seq<TaskEvent>, taskID: TaskID, later: seq<nat>)
    requires log != [] && log[0].taskID == taskID && ListsRest(events, log, taskID, later)
    ensures ListsAt([log[0]] + events, log, taskID, [0] + later)
  {
  }

  /** The first index of a (task, step) row, or the length of the table. */
  function Find(log: seq<TaskEvent>, taskID: TaskID, step: Step): (i: nat)
    ensures i <= |log|
    ensures i < |log| ==> Matches(log[i], taskID, step)
    ensures forall j :: 0 <= j < i ==> !Matches(log[j], taskID, step)
  {
    if log == [] || Matches(log[0], taskID, step) then 0 else 1 + Find(log[1..], taskID, step)
  }

  lemma {:induction false} UpsertAt(log: seq<TaskEvent>, e: TaskEvent)
    ensures var i := Find(log, e.taskID, e.step);
      Upsert(log, e) == if i == |log| then log + [e] else log[i := Overwrite(log[i], e)]
  {
    if log != [] && !Matches(log[0], e.taskID, e.step) {
      UpsertAt(log[1..], e);
    }
  }

  /** The repository over the task-event table. */
  class TaskEventRepo {
    var rows: seq<TaskEvent>

    constructor (rows: seq<TaskEvent>)
      ensures this.rows == rows
    {
      this.rows := rows;
    }

    /** Stores an event; the argument comes back cut to 512 bytes and, when it was inserted, with an ID. */
    method Create(event: TaskEvent, freshID: string) returns (stored: TaskEvent)
      modifies this
      ensures stored.text <= event.text && |stored.text| == (if |event.text| > 512 then 512 else |event.text|)
      ensures stored.(eventID := event.eventID) == event.(text := Cut(event.text))
      ensures stored.eventID ==
        if Find(old(rows), event.taskID, event.step) == |old(rows)| && event.eventID == "" then freshID
        else event.eventID
      ensures rows == Upsert(old(rows), stored)
    {
      stored := event;
      if |stored.text| > MAX_TEXT {
        stored := stored.(text := stored.text[..MAX_TEXT]);
      }
      var i := Find(rows, stored.taskID, stored.step);
      if i == |rows| {
        if stored.eventID == "" {
          stored := stored.(eventID := freshID);
        }
        UpsertAt(rows, stored);
        rows := rows + [stored];
        return;
      }
      UpsertAt(rows, stored);
      var stale := rows[i];
      if stale.status != Success {
        rows := rows[i := stale.(text := stored.text, status := stored.status, reason := stored.reason)];
      }
    }

    /** The events of the task, each once and in table order. */
    method ListEvent(taskID: TaskID) returns (events: seq<TaskEvent>)
      ensures Lists(events, rows, taskID) && events == OfTask(rows, taskID)
    {
      OfTaskLists(rows, taskID);
      events := OfTask(rows, taskID);
    }

    /** The rows with one of the IDs become successful, and nothing else about any row changes. */
    method UpdateStatusInBatch(eventIDs: seq<string>)
      modifies this
      ensures |rows| == |old(rows)|
      ensures forall i :: 0 <= i < |rows| ==> rows[i].(status := old(rows)[i].status) == old(rows)[i]
      ensures forall i :: 0 <= i < |rows| && rows[i].eventID in eventIDs ==> rows[i].status == Success
      ensures forall i :: 0 <= i < |rows| && rows[i].eventID !in eventIDs ==> rows[i].status == old(rows)[i].status
    {
      rows := MarkSucceeded(rows, eventIDs);
    }
  }

  // ----- a stored success is final, whatever is posted or marked afterwards

  datatype LogOp = Post(event: TaskEvent) | Mark(ids: seq<string>)

  function ExecLog(log: seq<TaskEvent>, ops: seq<LogOp>): seq<TaskEvent> {
    if ops == [] then log
    else
      var before := ExecLog(log, ops[..|ops| - 1]);
      match ops[|ops| - 1]
      case Post(e) => Upsert(before, e)
      case Mark(ids) => MarkSucceeded(before, ids)
  }

  /** No two rows share task and step. */
  predicate OneRowPerStep(log: seq<TaskEvent>) {
    forall i, j :: 0 <= i < j < |log| ==> !Matches(log[i], log[j].taskID, log[j].step)
  }

  /** Rows keep place, key and ID; a success keeps everything. */
  predicate Succeeds(later: seq<TaskEvent>, log: seq<TaskEvent>) {
    |log| <= |later| &&
    forall i :: 0 <= i < |log| ==>
      Matches(later[i], log[i].taskID, log[i].step) && later[i].eventID == log[i].eventID &&
      (log[i].status == Success ==> later[i] == log[i])
  }

  lemma PostSucceeds(log: seq<TaskEvent>, before: seq<TaskEvent>, e: TaskEvent)
    requires Succeeds(before, log)
    ensures Succeeds(Upsert(before, e), log)
    ensures OneRowPerStep(before) ==> OneRowPerStep(Upsert(before, e))
  {
    UpsertAt(before, e);
  }

  lemma {:induction false} SuccessIsFinal(log: seq<TaskEvent>, ops: seq<LogOp>)
    ensures Succeeds(ExecLog(log, ops), log)
    ensures OneRowPerStep(log) ==> OneRowPerStep(ExecLog(log, ops))
  {
    if ops != [] {
      SuccessIsFinal(log, ops[..|ops| - 1]);
      var before := ExecLog(log, ops[..|ops| - 1]);
      match ops[|ops| - 1] {
        case Post(e) => PostSucceeds(log, before, e);
        case Mark(ids) =>
      }
    }
  }

  // ----- what the rows of one task hold

  /** A stored row without its generated ID. */
  datatype StepRow = StepRow(step: Step, text: string, status: Status, reason: string)

  function RowOf(m: Message): StepRow {
    StepRow(m.step, Cut(m.text), m.status, Reason(m.text))
  }

  function EventOf(taskID: TaskID, m: Message, eventID: string): TaskEvent {
    TaskEvent(taskID, m.step, Cut(m.text), m.status, eventID, Reason(m.text))
  }

  function View(log: seq<TaskEvent>, taskID: TaskID): seq<StepRow> {
    if log == [] then []
    else
      (if log[0].taskID == taskID then [StepRow(log[0].step, log[0].text, log[0].status, log[0].reason)] else [])
      + View(log[1..], taskID)
  }

  function Absorb(rows: seq<StepRow>, m: Message): seq<StepRow> {
    if rows == [] then [RowOf(m)]
    else if rows[0].step == m.step then [if rows[0].status == Success then rows[0] else RowOf(m)] + rows[1..]
    else [rows[0]] + Absorb(rows[1..], m)
  }

  /** The rows of a task whose messages so far are `ms`. */
  function Rows(ms: seq<Message>): seq<StepRow> {
    if ms == [] then [] else Absorb(Rows(ms[..|ms| - 1]), ms[|ms| - 1])
  }

  lemma {:induction false} ViewOfUpsert(log: seq<TaskEvent>, taskID: TaskID, m: Message, eventID: string, other: TaskID)
    ensures View(Upsert(log, EventOf(taskID, m, eventID)), other) ==
      if other == taskID then Absorb(View(log, other), m) else View(log, other)
  {
    if log != [] {
      ViewOfUpsert(log[1..], taskID, m, eventID, other);
      var e := EventOf(taskID, m, eventID);
      var up := Upsert(log, e);
      if Matches(log[0], taskID, m.step) {
        assert up[1..] == log[1..];
      } else {
        assert up == [log[0]] + Upsert(log[1..], e);
        assert up[1..] == Upsert(log[1..], e);
        var row := StepRow(log[0].step, log[0].text, log[0].status, log[0].reason);
        var here := if log[0].taskID == other then [row] else [];
        assert View(log, other) == here + View(log[1..], other);
        assert View(up, other) == here + View(up[1..], other);
        assert here == [] ==> here + View(log[1..], other) == View(log[1..], other);
        assert here == [] ==> here + View(up[1..], other) == View(up[1..], other);
        assert here != [] ==> (here + View(log[1..], other))[1..] == View(log[1..], other);
      }
    }
  }

  /** The view lists the stored events of the task in table order. */
  lemma {:induction false} ViewListsEvents(log: seq<TaskEvent>, taskID: TaskID)
    ensures var own := OfTask(log, taskID);
      |View(log, taskID)| == |own| &&
      forall i :: 0 <= i < |own| ==>
        View(log, taskID)[i] == StepRow(own[i].step, own[i].text, own[i].status, own[i].reason)
  {
    if log != [] { ViewListsEvents(log[1..], taskID); }
  }

  /** The index of the row of a step, or the number of rows. */
  function RowIndex(rows: seq<StepRow>, step: Step): (i: nat)
    ensures i <= |rows| && (i < |rows| ==> rows[i].step == step)
    ensures forall j :: 0 <= j < i ==> rows[j].step != step
  {
    if rows == [] || rows[0].step == step then 0 else 1 + RowIndex(rows[1..], step)
  }

  /** The first index of a message for the step, or the number of messages. */
  function First(ms: seq<Message>, step: Step): (i: nat)
    ensures i <= |ms| && (i < |ms| ==> ms[i].step == step)
    ensures forall j :: 0 <= j < i ==> ms[j].step != step
  {
    var all := seq(|ms|, k requires 0 <= k < |ms| => RowOf(ms[k]));
    assert forall k :: 0 <= k < |ms| ==> all[k].step == ms[k].step;
    RowIndex(all, step)
  }

  lemma FirstOfAppend(ms: seq<Message>, m: Message, step: Step)
    ensures First(ms + [m], step) ==
      if First(ms, step) < |ms| then First(ms, step) else if m.step == step then |ms| else |ms| + 1
  {
    var all, i, n := ms + [m], First(ms, step), First(ms + [m], step);
    assert all[|ms|] == m;
    if i < |ms| { assert all[i].step == step; }
    if n < |ms| { assert ms[n].step == step; }
  }

  /** Message `k` decides its step: the first success if there is one, otherwise the last message. */
  predicate Decides(ms: seq<Message>, k: int) {
    0 <= k < |ms| &&
    if ms[k].status == Success
    then forall j :: 0 <= j < k && ms[j].step == ms[k].step ==> ms[j].status != Success
    else forall j :: 0 <= j < |ms| && ms[j].step == ms[k].step ==> j <= k && ms[j].status != Success
  }

  lemma DeciderIsUnique(ms: seq<Message>, j: int, k: int)
    requires Decides(ms, j) && Decides(ms, k) && ms[j].step == ms[k].step
    ensures j == k
  {
  }

  /** The row holds the message that decides its step. */
  ghost predicate Decided(row: StepRow, ms: seq<Message>) {
    exists k :: Decides(ms, k) && row == RowOf(ms[k])
  }

  /** Every step that occurred has a row. */
  ghost predicate Covered(rows: seq<StepRow>, ms: seq<Message>) {
    forall k :: 0 <= k < |ms| ==> RowIndex(rows, ms[k].step) < |rows|
  }

  /** The rows are in order of first occurrence of their steps; in particular no step has two. */
  ghost predicate Ordered(rows: seq<StepRow>, ms: seq<Message>) {
    forall i, j :: 0 <= i < j < |rows| ==> First(ms, rows[i].step) < First(ms, rows[j].step)
  }

  /** One row per step that occurred, in order of first occurrence, each holding its deciding message. */
  ghost predicate Summarises(rows: seq<StepRow>, ms: seq<Message>) {
    (forall i :: 0 <= i < |rows| ==> Decided(rows[i], ms)) && Covered(rows, ms) && Ordered(rows, ms)
  }

  lemma {:induction false} AbsorbAt(rows: seq<StepRow>, m: Message)
    ensures var i := RowIndex(rows, m.step);
      Absorb(rows, m) ==
        if i == |rows| then rows + [RowOf(m)]
        else if rows[i].status == Success then rows
        else rows[i := RowOf(m)]
  {
    if rows != [] && rows[0].step != m.step {
      AbsorbAt(rows[1..], m);
    }
  }

  lemma {:induction false} AbsorbKeepsSteps(rows: seq<StepRow>, m: Message, step: Step)
    ensures RowIndex(Absorb(rows, m), step) < |Absorb(rows, m)| <==> RowIndex(rows, step) < |rows| || step == m.step
  {
    if rows != [] && rows[0].step != m.step {
      AbsorbKeepsSteps(rows[1..], m, step);
    }
  }

  /** An existing row keeps holding its deciding message. */
  lemma DecidedAfter(row: StepRow, ms: seq<Message>, m: Message)
    requires Decided(row, ms)
    ensures Decided(if row.step == m.step && row.status != Success then RowOf(m) else row, ms + [m])
  {
    var k :| Decides(ms, k) && row == RowOf(ms[k]);
    if row.step == m.step && row.status != Success {
      assert Decides(ms + [m], |ms|);
    } else {
      assert Decides(ms + [m], k);
    }
  }

  lemma CoveredAfter(rows: seq<StepRow>, ms: seq<Message>, m: Message)
    requires Covered(rows, ms)
    ensures Covered(Absorb(rows, m), ms + [m])
  {
    forall k | 0 <= k < |ms + [m]|
      ensures RowIndex(Absorb(rows, m), (ms + [m])[k].step) < |Absorb(rows, m)|
    {
      AbsorbKeepsSteps(rows, m, (ms + [m])[k].step);
    }
  }

  lemma OrderedAfter(rows: seq<StepRow>, ms: seq<Message>, m: Message)
    requires Ordered(rows, ms)
    requires forall i :: 0 <= i < |rows| ==> First(ms, rows[i].step) < |ms|
    requires Covered(rows, ms)
    ensures Ordered(Absorb(rows, m), ms + [m])
  {
    AbsorbAt(rows, m);
    forall i | 0 <= i < |Absorb(rows, m)|
      ensures First(ms + [m], Absorb(rows, m)[i].step) == if i < |rows| then First(ms, rows[i].step) else |ms|
    {
      FirstAfter(rows, ms, m, i);
    }
  }

  /** Old rows keep their first occurrence; a new row has the new message as its first. */
  lemma FirstAfter(rows: seq<StepRow>, ms: seq<Message>, m: Message, i: nat)
    requires Covered(rows, ms) && i < |Absorb(rows, m)|
    requires i < |rows| ==> First(ms, rows[i].step) < |ms|
    ensures First(ms + [m], Absorb(rows, m)[i].step) == if i < |rows| then First(ms, rows[i].step) else |ms|
  {
    AbsorbAt(rows, m);
    FirstOfAppend(ms, m, Absorb(rows, m)[i].step);
    if i >= |rows| { FirstAbsent(rows, ms, m.step); }
  }

  /** A step without a row has not occurred. */
  lemma FirstAbsent(rows: seq<StepRow>, ms: seq<Message>, step: Step)
    requires Covered(rows, ms) && RowIndex(rows, step) == |rows|
    ensures First(ms, step) == |ms|
  {
  }

  lemma DecidedOccurs(row: StepRow, ms: seq<Message>)
    requires Decided(row, ms)
    ensures First(ms, row.step) < |ms|
  {
    var k :| Decides(ms, k) && row == RowOf(ms[k]);
  }

  lemma NewStepDecides(ms: seq<Message>, m: Message)
    requires First(ms, m.step) == |ms|
    ensures Decided(RowOf(m), ms + [m])
  {
    assert Decides(ms + [m], |ms|);
  }

  lemma AllDecidedAfter(rows: seq<StepRow>, ms: seq<Message>, m: Message, i: nat)
    requires forall j :: 0 <= j < |rows| ==> Decided(rows[j], ms)
    requires Covered(rows, ms) && Ordered(rows, ms) && i < |Absorb(rows, m)|
    ensures Decided(Absorb(rows, m)[i], ms + [m])
  {
    AbsorbAt(rows, m);
    if i < |rows| {
      DecidedAfter(rows[i], ms, m);
      OnlyRow(rows, ms, i);
    } else {
      FirstAbsent(rows, ms, m.step);
      NewStepDecides(ms, m);
    }
  }

  /** Rows in order have distinct steps, so the first row of a step is its only one. */
  lemma OnlyRow(rows: seq<StepRow>, ms: seq<Message>, i: nat)
    requires Ordered(rows, ms) && i < |rows|
    ensures RowIndex(rows, rows[i].step) == i
  {
  }

  /** After any messages of a task, its rows summarise them. */
  lemma {:induction false} RowsSummariseMessages(ms: seq<Message>)
    ensures Summarises(Rows(ms), ms)
  {
    if ms != [] {
      var init, m := ms[..|ms| - 1], ms[|ms| - 1];
      assert ms == init + [m];
      RowsSummariseMessages(init);
      var before := Rows(init);
      forall i | 0 <= i < |before|
        ensures First(init, before[i].step) < |init|
      {
        DecidedOccurs(before[i], init);
      }
      forall i | 0 <= i < |Rows(ms)|
        ensures Decided(Rows(ms)[i], ms)
      {
        AllDecidedAfter(before, init, m, i);
      }
      CoveredAfter(before, init, m);
      OrderedAfter(before, init, m);
    }
  }
}
