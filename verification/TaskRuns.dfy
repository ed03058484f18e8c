/** From the trace of a run to the task rows: a run that ends its work leaves nothing stuck. */
module TaskRuns {
  import opened Basics
  import opened TaskModel
  import opened EventLog
  import opened ClusterUsecase
  import opened TaskHistory
  import RkeAdaptor

  /** Once a properly ended run is recorded, the stored log shows the end of its work. */
  lemma RecordedRunIsEnded(log: seq<TaskEvent>, id: TaskID, ms: seq<Message>, table: Table)
    requires View(log, id) == Rows(ms)
    requires RkeAdaptor.WellEnded(ms, if table == Creates then InstallKubernetes else UpdateKubernetes)
    ensures Ended(OfTask(log, id), table)
  {
    var last, own := ms[|ms| - 1], OfTask(log, id);
    DecidedIsStored(log, id, ms, |ms| - 1);
    var e :| e in own && e.step == last.step && e.status == last.status;
    var j :| 0 <= j < |own| && own[j] == e;
    assert Ends(own[j], table);
  }

  /** Self-healing of create tasks: for every way an RKE create run goes, every interleaving of its
      events with late `start` writes, with whatever happens to other tasks and with batch updates of
      other tasks' events, one later listing leaves the create row complete. */
  lemma CreateTaskHeals(db: Db, ops: seq<DbOp>, id: TaskID)
    requires View(db.events, id) == [] && AllSpare(db, ops, id) && RkeAdaptor.IsCreateRun(Own(ops, id))
    ensures AllHave(Recompute(Exec(db, ops), id).creates, id, Complete)
  {
    LogFollowsOwnMessages(db, ops, id);
    RkeAdaptor.CreateRunsEndWell(Own(ops, id));
    RecordedRunIsEnded(Exec(db, ops).events, id, Own(ops, id), Creates);
    ListingHeals(Exec(db, ops), id);
  }

  /** The message completes the create row of its task as it is recorded. */
  predicate Completes(m: Message) {
    m.status == Failure || (Creation(m.step) && m.status == Success)
  }

  /** The late `start` write of the producer does undo a completion, so the listing is needed. */
  lemma LateStartUndoesCompletion(db: Db, id: TaskID, m: Message, freshID: string)
    requires HasTask(db.creates, id) && Completes(m)
    ensures var done, late := [Posted(id, m, freshID)], [Posted(id, m, freshID), Wrote(Write(Creates, id, Started))];
      AllHave(Exec(db, done).creates, id, Complete) && AllHave(Exec(db, late).creates, id, Started) &&
      !AllHave(Exec(db, late).creates, id, Complete)
  {
    var done, late := [Posted(id, m, freshID)], [Posted(id, m, freshID), Wrote(Write(Creates, id, Started))];
    WritesOfTwo(Posted(id, m, freshID), Wrote(Write(Creates, id, Started)), Creates, id);
    MessageWrites(id, m, id);
    RowsHaveLastStatus(db, done, id, Complete);
    RowsHaveLastStatus(db, late, id, Started);
    RowsHaveLastStatus(db, late, id, Complete);
  }

  /** Recording completes an update row on the success of the update alone: a failed run leaves its row
      incomplete until its events are listed. */
  lemma RecordingLeavesFailedUpdate(db: Db, id: TaskID, m: Message, freshID: string)
    ensures Record(db, id, m, freshID).updates ==
      if m.step == UpdateKubernetes && m.status == Success then SetStatus(db.updates, id, Complete) else db.updates
  {
    PutAllPost(db.(events := Upsert(db.events, EventOf(id, m, freshID))), id, m.step, m.status);
  }

  // ----- recordings that the database refuses

  /** The messages that are recorded when the handler drops those with the refused numbers. */
  function Kept(ms: seq<Message>, refused: set<nat>, n: nat): seq<Message>
    requires n <= |ms|
  {
    if n == 0 then [] else Kept(ms, refused, n - 1) + if n - 1 in refused then [] else [ms[n - 1]]
  }

  lemma {:induction false} KeptFrom(ms: seq<Message>, refused: set<nat>, n: nat, k: nat) returns (j: nat)
    requires n <= |ms| && k < |Kept(ms, refused, n)|
    ensures j < n && j !in refused && Kept(ms, refused, n)[k] == ms[j]
  {
    if n - 1 !in refused && k == |Kept(ms, refused, n)| - 1 { j := n - 1; }
    else { j := KeptFrom(ms, refused, n - 1, k); }
  }

  lemma KeptLastDecides(ms: seq<Message>, refused: set<nat>)
    requires RkeAdaptor.WellEnded(ms, UpdateKubernetes) && |ms| - 1 !in refused
    ensures var kept := Kept(ms, refused, |ms|);
      kept != [] && kept[|kept| - 1] == ms[|ms| - 1] && Decides(kept, |kept| - 1)
  {
    var kept := Kept(ms, refused, |ms|);
    forall k | 0 <= k < |kept| - 1 && kept[k].step == ms[|ms| - 1].step
      ensures kept[k].status != Success
    {
      var j := KeptFrom(ms, refused, |ms| - 1, k);
    }
  }

  lemma EndsIsFinal(e: TaskEvent, m: Message)
    requires e.step == m.step && e.status == m.status
    ensures Ends(e, Updates) <==> RkeAdaptor.Final(m, UpdateKubernetes)
  {
  }

  lemma RecordedEndIsEnded(log: seq<TaskEvent>, id: TaskID, ms: seq<Message>, refused: set<nat>)
    requires RkeAdaptor.WellEnded(ms, UpdateKubernetes) && View(log, id) == Rows(Kept(ms, refused, |ms|))
    requires |ms| - 1 !in refused
    ensures Ended(OfTask(log, id), Updates)
  {
    var own, kept := OfTask(log, id), Kept(ms, refused, |ms|);
    KeptLastDecides(ms, refused);
    DecidedIsStored(log, id, kept, |kept| - 1);
    var e :| e in own && e.step == ms[|ms| - 1].step && e.status == ms[|ms| - 1].status;
    EndsIsFinal(e, ms[|ms| - 1]);
    var i :| 0 <= i < |own| && own[i] == e;
  }

  lemma EndedHasRecordedEnd(log: seq<TaskEvent>, id: TaskID, ms: seq<Message>, refused: set<nat>)
    requires RkeAdaptor.WellEnded(ms, UpdateKubernetes) && View(log, id) == Rows(Kept(ms, refused, |ms|))
    requires Ended(OfTask(log, id), Updates)
    ensures |ms| - 1 !in refused
  {
    var own, kept := OfTask(log, id), Kept(ms, refused, |ms|);
    var i :| 0 <= i < |own| && Ends(own[i], Updates);
    assert own[i] in own;
    StoredIsDecided(log, id, kept, own[i]);
    var k :| Decides(kept, k) && kept[k].step == own[i].step && kept[k].status == own[i].status;
    EndsIsFinal(own[i], kept[k]);
    FinalKeptIsLast(ms, refused, k);
  }

  lemma FinalKeptIsLast(ms: seq<Message>, refused: set<nat>, k: nat)
    requires RkeAdaptor.WellEnded(ms, UpdateKubernetes) && k < |Kept(ms, refused, |ms|)|
    requires RkeAdaptor.Final(Kept(ms, refused, |ms|)[k], UpdateKubernetes)
    ensures |ms| - 1 !in refused
  {
    var j := KeptFrom(ms, refused, |ms|, k);
  }

  /** The stored log shows the end of an update exactly if its last message was recorded. */
  lemma KeptIsEndedIff(log: seq<TaskEvent>, id: TaskID, ms: seq<Message>, refused: set<nat>)
    requires RkeAdaptor.WellEnded(ms, UpdateKubernetes) && View(log, id) == Rows(Kept(ms, refused, |ms|))
    ensures Ended(OfTask(log, id), Updates) <==> |ms| - 1 !in refused
  {
    if |ms| - 1 !in refused { RecordedEndIsEnded(log, id, ms, refused); }
    if Ended(OfTask(log, id), Updates) { EndedHasRecordedEnd(log, id, ms, refused); }
  }

  /** No operation but a recorded success of the update writes its row. */
  predicate OthersSpareRow(ops: seq<DbOp>, id: TaskID) {
    forall i :: 0 <= i < |ops| && ops[i].Wrote? ==> !(ops[i].w.table == Updates && ops[i].w.taskID == id)
  }

  lemma {:induction false} NoCompletionWritten(ops: seq<DbOp>, id: TaskID)
    requires OthersSpareRow(ops, id)
    requires forall k :: 0 <= k < |Own(ops, id)| ==> !RkeAdaptor.Final(Own(ops, id)[k], UpdateKubernetes)
    ensures LastWrite(AllWrites(ops), Updates, id) == None
  {
    if ops != [] {
      var init, op := ops[..|ops| - 1], ops[|ops| - 1];
      assert forall k :: 0 <= k < |Own(init, id)| ==> Own(init, id)[k] == Own(ops, id)[k];
      NoCompletionWritten(init, id);
      if op.Posted? && op.taskID == id { assert Own(ops, id)[|Own(ops, id)| - 1] == op.m; }
      OpWritesNoCompletion(op, id);
      LastWriteAppend(AllWrites(init), OpWrites(op), Updates, id);
    }
  }

  lemma OpWritesNoCompletion(op: DbOp, id: TaskID)
    requires op.Wrote? ==> !(op.w.table == Updates && op.w.taskID == id)
    requires op.Posted? && op.taskID == id ==> !RkeAdaptor.Final(op.m, UpdateKubernetes)
    ensures LastWrite(OpWrites(op), Updates, id) == None
  {
    match op {
      case Posted(t, m, _) => MessageWrites(t, m, id);
      case Wrote(w) => assert [w][1..] == [];
      case Marked(_) =>
    }
  }

  lemma UpdateWriteEnds(e: TaskEvent, w: Write)
    requires w in EventWrites(e) && w.table == Updates
    ensures Ends(e, Updates)
  {
  }

  lemma UpdateWriteMeansEnded(events: seq<TaskEvent>, w: Write)
    requires w in ListWrites(events) && w.table == Updates
    ensures Ended(events, Updates)
  {
    var e := ListWriteFrom(events, w);
    UpdateWriteEnds(e, w);
    var i :| 0 <= i < |events| && events[i] == e;
  }

  lemma UnendedListsNothing(events: seq<TaskEvent>, id: TaskID)
    ensures LastWrite(ListWrites(events), Updates, id).Some? ==> Ended(events, Updates)
  {
    var last := LastWrite(ListWrites(events), Updates, id);
    LastWriteIsWritten(ListWrites(events), Updates, id);
    if last.Some? { UpdateWriteMeansEnded(events, Write(Updates, id, last.value)); }
  }

  lemma UnwrittenRowSticks(db: Db, ops: seq<DbOp>, id: TaskID)
    requires HasTask(db.updates, id) && !AllHave(db.updates, id, Complete)
    requires LastWrite(AllWrites(ops), Updates, id) == None
    requires LastWrite(ListWrites(OfTask(Exec(db, ops).events, id)), Updates, id) == None
    ensures !AllHave(Recompute(Exec(db, ops), id).updates, id, Complete)
  {
    RowsHaveLastStatus(db, ops, id, Complete);
    var s := Exec(db, ops);
    UnlistedRowSticks(s, id);
  }

  lemma UnlistedRowSticks(s: Db, id: TaskID)
    requires HasTask(s.updates, id) && !AllHave(s.updates, id, Complete)
    requires LastWrite(ListWrites(OfTask(s.events, id)), Updates, id) == None
    ensures !AllHave(Recompute(s, id).updates, id, Complete)
  {
    var ws := ListWrites(OfTask(s.events, id));
    PutAllRewrites(s, ws);
    RewrittenHasLast(s.updates, ws, Updates, id, Complete);
  }

  lemma KeptHasNoEnd(ms: seq<Message>, refused: set<nat>)
    requires RkeAdaptor.WellEnded(ms, UpdateKubernetes) && |ms| - 1 in refused
    ensures var kept := Kept(ms, refused, |ms|);
      forall k :: 0 <= k < |kept| ==> !RkeAdaptor.Final(kept[k], UpdateKubernetes)
  {
    forall k | 0 <= k < |Kept(ms, refused, |ms|)|
      ensures !RkeAdaptor.Final(Kept(ms, refused, |ms|)[k], UpdateKubernetes)
    {
      var j := KeptFrom(ms, refused, |ms|, k);
    }
  }

  lemma UnrecordedEndSticks(db: Db, ops: seq<DbOp>, id: TaskID, ms: seq<Message>, refused: set<nat>)
    requires RkeAdaptor.WellEnded(ms, UpdateKubernetes) && Own(ops, id) == Kept(ms, refused, |ms|)
    requires HasTask(db.updates, id) && !AllHave(db.updates, id, Complete) && OthersSpareRow(ops, id)
    requires |ms| - 1 in refused && !Ended(OfTask(Exec(db, ops).events, id), Updates)
    ensures !AllHave(Recompute(Exec(db, ops), id).updates, id, Complete)
  {
    KeptHasNoEnd(ms, refused);
    NoCompletionWritten(ops, id);
    UnendedListsNothing(OfTask(Exec(db, ops).events, id), id);
    UnwrittenRowSticks(db, ops, id);
  }

  /** The handler drops the error of a recording. Whichever messages of an update run are refused, and
      whatever interleaves, a listing after the run completes its row if and only if its last message
      was recorded; otherwise no listing ever does. */
  lemma UpdateHealsIff(db: Db, ops: seq<DbOp>, id: TaskID, ms: seq<Message>, refused: set<nat>)
    requires View(db.events, id) == [] && AllSpare(db, ops, id) && OthersSpareRow(ops, id)
    requires RkeAdaptor.IsUpdateRun(ms) && Own(ops, id) == Kept(ms, refused, |ms|)
    requires HasTask(db.updates, id) && !AllHave(db.updates, id, Complete)
    ensures AllHave(Recompute(Exec(db, ops), id).updates, id, Complete) <==> |ms| - 1 !in refused
  {
    RkeAdaptor.UpdateRunsEndWell(ms);
    LogFollowsOwnMessages(db, ops, id);
    KeptIsEndedIff(Exec(db, ops).events, id, ms, refused);
    ListingHeals(Exec(db, ops), id);
    if |ms| - 1 in refused { UnrecordedEndSticks(db, ops, id, ms, refused); }
  }
}
