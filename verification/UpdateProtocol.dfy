/** Cluster updates end to end: request threads under the optimistic lock, the queue and its
    consumer, one runner and handler per task, concurrent listings, and everything else that touches
    the four tables, as one transition system. Every action is one atomic step: a read, a statement,
    a transaction, a channel operation. */
module UpdateProtocol {
  import opened Basics
  import opened TaskModel
  import opened EventLog
  import opened ClusterUsecase
  import opened TaskHistory
  import opened UpdateTasks
  import TaskRuns
  import RkeAdaptor
  import Pipeline
  import Dispatch

  /** A thread in `UpdateKubernetesCluster`, by what it has done. */
  datatype Request =
    | Opened(clusterID: string)
    | ReadUpdate(clusterID: string, version: nat)
    | ReadCreate(clusterID: string, version: nat)
    | Inserted(id: TaskID)
    | Sent(id: TaskID)

  datatype Run = Run(trace: seq<Message>, pipe: Pipeline.State)

  /** `listings` holds, for every thread in `ListTaskEvent`, the status writes it has still to make. */
  datatype Sys = Sys(db: Db, requests: map<nat, Request>, listings: map<nat, seq<Write>>, dispatch: Dispatch.State,
    runs: map<TaskID, Run>)

  datatype Action =
    | Open(r: nat, clusterID: string)
    | DoCheckUpdate(r: nat)
    | DoCheckCreate(r: nat)
    | Insert(r: nat, row: UpdateRow)
    | GiveUp(r: nat)
    | Enqueue(r: nat)
    | MarkStarted(r: nat)
    | Consume(trace: seq<Message>)
    | Recorded
    | Finish(id: TaskID)
    | RunStep(id: TaskID, a: Pipeline.Action, eventID: string)
    | StartListing(l: nat, id: TaskID)
    | ListingStep(l: nat)
    | Foreign(op: DbOp)
    | AddCreate(create: CreateRow)
    | AddInit(init: InitRow)

  /** No trace of the task ID anywhere: what a new UUID is. */
  predicate Unused(s: Sys, id: TaskID) {
    !HasTask(s.db.updates, id) && OfTask(s.db.events, id) == []
  }

  predicate Above(rows: seq<UpdateRow>, id: nat) {
    forall i :: 0 <= i < |rows| ==> rows[i].id < id
  }

  /** No event of an update task has one of the IDs. */
  predicate SparesUpdates(s: Sys, ids: seq<string>) {
    forall i :: 0 <= i < |s.db.events| && s.db.events[i].eventID in ids ==>
      !HasTask(s.db.updates, s.db.events[i].taskID)
  }

  ghost predicate Enabled(s: Sys, a: Action) {
    match a
    case Open(r, _) => r !in s.requests
    case DoCheckUpdate(r) => r in s.requests && s.requests[r].Opened?
    case DoCheckCreate(r) => r in s.requests && s.requests[r].ReadUpdate?
    case Insert(r, row) =>
      r in s.requests && s.requests[r].ReadCreate? && row.clusterID == s.requests[r].clusterID &&
      row.extra == s.requests[r].version + 1 && row.status == Unset && Above(s.db.updates, row.id) &&
      Unused(s, row.taskID)
    case GiveUp(r) => r in s.requests && !s.requests[r].Inserted?
    case Enqueue(r) => r in s.requests && s.requests[r].Inserted? && |s.dispatch.queue| < Dispatch.CAPACITY
    case MarkStarted(r) => r in s.requests && s.requests[r].Sent?
    case Consume(trace) => Dispatch.Enabled(s.dispatch, Dispatch.Consume) && RkeAdaptor.IsUpdateRun(trace)
    case Recorded => Dispatch.Enabled(s.dispatch, Dispatch.Record)
    case Finish(id) => Dispatch.Enabled(s.dispatch, Dispatch.Finish(id)) && id in s.runs && s.runs[id].pipe.returned
    case RunStep(id, pa, _) => id in s.runs && Pipeline.Enabled(s.runs[id].pipe, pa)
    case StartListing(l, _) => l !in s.listings
    case ListingStep(l) => l in s.listings
    case Foreign(op) =>
      (match op
       case Posted(id, _, _) => !HasTask(s.db.updates, id)
       case Wrote(w) => w.table != Updates
       case Marked(ids) => SparesUpdates(s, ids))
    case AddCreate(_) => true
    case AddInit(_) => true
  }

  function Without<X>(m: map<nat, X>, k: nat): map<nat, X> {
    m - {k}
  }

  /** The handler takes a message to record. */
  predicate Records(pipe: Pipeline.State, pa: Pipeline.Action)
    requires Pipeline.Enabled(pipe, pa)
  {
    pa == Pipeline.Handle && pipe.channel[0].step != Step.Close
  }

  function Stepped(runs: map<TaskID, Run>, id: TaskID, pa: Pipeline.Action): map<TaskID, Run>
    requires id in runs && Pipeline.Enabled(runs[id].pipe, pa)
  {
    runs[id := runs[id].(pipe := Pipeline.Next(runs[id].pipe, pa))]
  }

  /** The run is added if the consumer launched it. */
  function AfterConsume(d: Dispatch.State, runs: map<TaskID, Run>, run: Run): map<TaskID, Run> {
    if d.phase.Launched? then runs[d.phase.id := run] else runs
  }

  ghost function Next(s: Sys, a: Action): Sys
    requires Enabled(s, a)
  {
    match a
    case Open(r, c) => s.(requests := s.requests[r := Opened(c)])
    case DoCheckUpdate(r) =>
      var c := s.requests[r].clusterID;
      match CheckUpdate(s.db.updates, c) {
        case Err(_) => s.(requests := Without(s.requests, r))
        case Ok(v) => s.(requests := s.requests[r := ReadUpdate(c, v)])
      }
    case DoCheckCreate(r) =>
      var q := s.requests[r];
      if CheckCreate(s.db.creates, q.clusterID) then s.(requests := s.requests[r := ReadCreate(q.clusterID, q.version)])
      else s.(requests := Without(s.requests, r))
    case Insert(r, row) =>
      if InsertionOf(s.db.updates, row) == Added
      then s.(db := s.db.(updates := s.db.updates + [row]), requests := s.requests[r := Inserted(row.taskID)])
      else s.(requests := Without(s.requests, r))
    case GiveUp(r) => s.(requests := Without(s.requests, r))
    case Enqueue(r) =>
      var id := s.requests[r].id;
      s.(requests := s.requests[r := Sent(id)],
         dispatch := Dispatch.Next(s.dispatch, Dispatch.Enqueue(Dispatch.Delivery(id, true))))
    case MarkStarted(r) =>
      s.(db := Put(s.db, Write(Creates, s.requests[r].id, Started)), requests := Without(s.requests, r))
    case Consume(trace) =>
      var d := Dispatch.Next(s.dispatch, Dispatch.Consume);
      s.(dispatch := d, runs := AfterConsume(d, s.runs, Run(trace, Pipeline.Launch(trace))))
    case Recorded => s.(dispatch := Dispatch.Next(s.dispatch, Dispatch.Record))
    case Finish(id) => s.(dispatch := Dispatch.Next(s.dispatch, Dispatch.Finish(id)))
    case RunStep(id, pa, eventID) =>
      var t := s.(runs := Stepped(s.runs, id, pa));
      if Records(s.runs[id].pipe, pa) then t.(db := Record(s.db, id, s.runs[id].pipe.channel[0], eventID)) else t
    case StartListing(l, id) =>
      s.(listings := s.listings[l := if TaskExists(s.db, id) then ListWrites(OfTask(s.db.events, id)) else []])
    case ListingStep(l) =>
      if s.listings[l] == [] then s.(listings := Without(s.listings, l))
      else s.(db := Put(s.db, s.listings[l][0]), listings := s.listings[l := s.listings[l][1..]])
    case Foreign(op) => s.(db := Step1(s.db, op))
    case AddCreate(row) => s.(db := s.db.(creates := s.db.creates + [row]))
    case AddInit(row) => s.(db := s.db.(inits := s.db.inits + [row]))
  }

  ghost predicate Initial(s: Sys) {
    s.db.updates == [] && s.requests == map[] && s.listings == map[] && s.dispatch == Dispatch.EMPTY && s.runs == map[]
  }

  ghost predicate IsExecution(states: seq<Sys>, actions: seq<Action>) {
    |states| == |actions| + 1 && Initial(states[0]) &&
    forall i :: 0 <= i < |actions| ==> Enabled(states[i], actions[i]) && states[i + 1] == Next(states[i], actions[i])
  }

  // ----- the invariant

  /** The chains of versions, and what the requests may build on. */
  ghost predicate LockInv(updates: seq<UpdateRow>, requests: map<nat, Request>) {
    (forall c :: Chain(OfCluster(updates, c))) &&
    (forall r :: r in requests && (requests[r].ReadUpdate? || requests[r].ReadCreate?) ==>
      Built(OfCluster(updates, requests[r].clusterID), requests[r].version))
  }

  /** Rows are distinct in ID and in task. */
  predicate RowsInv(updates: seq<UpdateRow>) {
    forall i, j :: 0 <= i < j < |updates| ==> updates[i].id < updates[j].id && updates[i].taskID != updates[j].taskID
  }

  predicate Delivered(d: Dispatch.State, id: TaskID) {
    Dispatch.Delivery(id, true) in d.consumed + d.queue
  }

  /** The thread that inserted the task has still to send it. */
  ghost predicate Unsent(requests: map<nat, Request>, id: TaskID) {
    exists r :: r in requests && requests[r] == Inserted(id)
  }

  /** Every task is with its request, or was delivered; not both. */
  ghost predicate TaskInv(updates: seq<UpdateRow>, requests: map<nat, Request>, d: Dispatch.State) {
    (forall id :: HasTask(updates, id) ==> Unsent(requests, id) || Delivered(d, id)) &&
    (forall x :: x in d.consumed + d.queue ==> x.valid && HasTask(updates, x.id)) &&
    (forall r :: r in requests && requests[r].Inserted? ==>
      HasTask(updates, requests[r].id) && !Delivered(d, requests[r].id)) &&
    (forall q, r :: q in requests && r in requests && q != r && requests[q].Inserted? && requests[r].Inserted? ==>
      requests[q].id != requests[r].id)
  }

  ghost predicate GoodRun(run: Run) {
    RkeAdaptor.IsUpdateRun(run.trace) && Pipeline.Proper(run.trace) && Pipeline.Inv(run.trace, run.pipe)
  }

  /** There is one run for every task started. */
  ghost predicate RunInv(d: Dispatch.State, runs: map<TaskID, Run>) {
    Dispatch.Inv(d) && (forall id :: id in runs <==> Dispatch.ValidSeen(d.consumed, id)) && AllGoodRuns(runs)
  }

  ghost predicate AllGoodRuns(runs: map<TaskID, Run>) {
    forall id :: id in runs ==> GoodRun(runs[id])
  }

  /** The messages of a task handled so far. */
  function Handled(runs: map<TaskID, Run>, id: TaskID): seq<Message> {
    if id in runs then runs[id].pipe.handled else []
  }

  /** The log of an update task holds what its run has handled. */
  ghost predicate LogInv(updates: seq<UpdateRow>, events: seq<TaskEvent>, runs: map<TaskID, Run>) {
    forall id :: HasTask(updates, id) ==> View(events, id) == Rows(Handled(runs, id))
  }

  /** The run has emitted and recorded all it ever will. */
  predicate AllRecorded(runs: map<TaskID, Run>, id: TaskID) {
    id in runs && runs[id].pipe.handled == runs[id].trace
  }

  /** A complete row belongs to a run that has nothing left to record. */
  predicate DoneInv(updates: seq<UpdateRow>, runs: map<TaskID, Run>) {
    forall i :: 0 <= i < |updates| && updates[i].status == Complete ==> AllRecorded(runs, updates[i].taskID)
  }

  /** A pending write of a listing is about a logged task; to an update row only completion, and only
      when its run has nothing left to record. */
  ghost predicate GoodWrite(updates: seq<UpdateRow>, events: seq<TaskEvent>, runs: map<TaskID, Run>, w: Write) {
    OfTask(events, w.taskID) != [] &&
    (w.table == Updates ==> w.status == Complete && (HasTask(updates, w.taskID) ==> AllRecorded(runs, w.taskID)))
  }

  ghost predicate ListInv(updates: seq<UpdateRow>, events: seq<TaskEvent>, runs: map<TaskID, Run>,
    listings: map<nat, seq<Write>>)
  {
    forall l, i :: l in listings && 0 <= i < |listings[l]| ==> GoodWrite(updates, events, runs, listings[l][i])
  }

  ghost predicate Inv(s: Sys) {
    LockInv(s.db.updates, s.requests) && RowsInv(s.db.updates) && TaskInv(s.db.updates, s.requests, s.dispatch) &&
    RunInv(s.dispatch, s.runs) && LogInv(s.db.updates, s.db.events, s.runs) && DoneInv(s.db.updates, s.runs) &&
    ListInv(s.db.updates, s.db.events, s.runs, s.listings)
  }

  // ----- every action keeps the invariant

  lemma HasTaskSetStatus(rows: seq<UpdateRow>, taskID: TaskID, status: TaskStatus, id: TaskID)
    ensures HasTask(SetStatus(rows, taskID, status), id) <==> HasTask(rows, id)
  {
    var after := SetStatus(rows, taskID, status);
    assert forall i :: 0 <= i < |rows| ==> after[i].taskID == rows[i].taskID;
  }

  /** A status write to the update table that the invariant allows. */
  ghost predicate Allowed(s: Sys, w: Write) {
    w.table == Updates ==> w.status == Complete && (HasTask(s.db.updates, w.taskID) ==> AllRecorded(s.runs, w.taskID))
  }

  ghost predicate SameTasks(rows: seq<UpdateRow>, after: seq<UpdateRow>) {
    forall id :: HasTask(rows, id) <==> HasTask(after, id)
  }

  lemma SameTasksKeep(s: Sys, after: seq<UpdateRow>)
    requires SameTasks(s.db.updates, after)
    ensures TaskInv(s.db.updates, s.requests, s.dispatch) ==> TaskInv(after, s.requests, s.dispatch)
    ensures LogInv(s.db.updates, s.db.events, s.runs) ==> LogInv(after, s.db.events, s.runs)
    ensures ListInv(s.db.updates, s.db.events, s.runs, s.listings) ==> ListInv(after, s.db.events, s.runs, s.listings)
  {
  }

  lemma CompletionKeepsLock(updates: seq<UpdateRow>, requests: map<nat, Request>, id: TaskID)
    requires LockInv(updates, requests)
    ensures LockInv(SetStatus(updates, id, Complete), requests)
  {
    forall c
      ensures Chain(OfCluster(SetStatus(updates, id, Complete), c))
      ensures forall v :: Built(OfCluster(updates, c), v) ==> Built(OfCluster(SetStatus(updates, id, Complete), c), v)
    {
      CompletionKeepsChain(updates, id, c);
    }
  }

  lemma CompletionKeepsRows(updates: seq<UpdateRow>, runs: map<TaskID, Run>, id: TaskID)
    requires RowsInv(updates) && DoneInv(updates, runs) && (HasTask(updates, id) ==> AllRecorded(runs, id))
    ensures RowsInv(SetStatus(updates, id, Complete)) && DoneInv(SetStatus(updates, id, Complete), runs)
  {
    var after := SetStatus(updates, id, Complete);
    assert forall i :: 0 <= i < |updates| ==> after[i].taskID == updates[i].taskID && after[i].id == updates[i].id;
    forall i | 0 <= i < |after| && after[i].status == Complete
      ensures AllRecorded(runs, after[i].taskID)
    {
      assert updates[i].taskID == id ==> HasTask(updates, id);
    }
  }

  lemma PutKeepsInv(s: Sys, w: Write)
    requires Inv(s) && Allowed(s, w)
    ensures Inv(s.(db := Put(s.db, w)))
    ensures SameTasks(s.db.updates, Put(s.db, w).updates)
  {
    if w.table == Updates {
      forall id { HasTaskSetStatus(s.db.updates, w.taskID, Complete, id); }
      SameTasksKeep(s, SetStatus(s.db.updates, w.taskID, Complete));
      CompletionKeepsLock(s.db.updates, s.requests, w.taskID);
      CompletionKeepsRows(s.db.updates, s.runs, w.taskID);
    }
  }

  lemma {:induction false} PutAllKeepsInv(s: Sys, ws: seq<Write>)
    requires Inv(s) && forall i :: 0 <= i < |ws| ==> Allowed(s, ws[i])
    ensures Inv(s.(db := PutAll(s.db, ws)))
    decreases |ws|
  {
    if ws != [] {
      PutKeepsInv(s, ws[0]);
      var t := s.(db := Put(s.db, ws[0]));
      PutAllKeepsInv(t, ws[1..]);
      assert s.(db := PutAll(s.db, ws)) == t.(db := PutAll(t.db, ws[1..]));
    }
  }

  lemma {:induction false} UpsertKeepsLogged(log: seq<TaskEvent>, e: TaskEvent, id: TaskID)
    ensures OfTask(log, id) != [] ==> OfTask(Upsert(log, e), id) != []
    ensures OfTask(Upsert(log, e), e.taskID) != []
  {
    UpsertAt(log, e);
    var after := Upsert(log, e);
    var i := Find(log, e.taskID, e.step);
    assert after[i] in after && after[i].taskID == e.taskID;
    assert after[i] in OfTask(after, e.taskID);
    if OfTask(log, id) != [] {
      var old' := OfTask(log, id)[0];
      assert old' in OfTask(log, id);
      var k :| 0 <= k < |log| && log[k] == old';
      assert after[k] in after && after[k].taskID == id;
      assert after[k] in OfTask(after, id);
    }
  }

  /** A final message is the last of an update run. */
  lemma FinalIsLast(run: Run, k: nat)
    requires GoodRun(run) && k < |run.pipe.handled| && RkeAdaptor.Final(run.pipe.handled[k], UpdateKubernetes)
    ensures run.pipe.handled == run.trace
  {
    RkeAdaptor.UpdateRunsEndWell(run.trace);
    Pipeline.HandledIsPrefix(run.trace, run.pipe);
  }

  lemma EventWriteOf(e: TaskEvent, w: Write)
    requires w in EventWrites(e)
    ensures w.taskID == e.taskID
    ensures w.table == Updates ==> w.status == Complete && Ends(e, Updates)
  {
  }

  lemma EndedRunIsRecorded(s: Sys, id: TaskID, e: TaskEvent)
    requires Inv(s) && HasTask(s.db.updates, id) && e in OfTask(s.db.events, id) && Ends(e, Updates)
    ensures AllRecorded(s.runs, id)
  {
    var ms := Handled(s.runs, id);
    StoredIsDecided(s.db.events, id, ms, e);
    var k :| Decides(ms, k) && ms[k].step == e.step && ms[k].status == e.status;
    FinalIsLast(s.runs[id], k);
  }

  /** Whatever the listing reads, its writes are good. */
  lemma ListingIsGood(s: Sys, id: TaskID, w: Write)
    requires Inv(s) && w in ListWrites(OfTask(s.db.events, id))
    ensures GoodWrite(s.db.updates, s.db.events, s.runs, w)
  {
    var e := ListWriteFrom(OfTask(s.db.events, id), w);
    EventWriteOf(e, w);
    if w.table == Updates && HasTask(s.db.updates, id) {
      EndedRunIsRecorded(s, id, e);
    }
  }

  // ----- runners

  /** Every run belongs to an update row. */
  lemma RunsHaveRows(s: Sys, id: TaskID)
    requires Inv(s) && id in s.runs
    ensures HasTask(s.db.updates, id)
  {
    assert Dispatch.Delivery(id, true) in s.dispatch.consumed + s.dispatch.queue;
  }

  /** What is recorded stays recorded when runs advance. */
  ghost predicate RunsAdvance(runs: map<TaskID, Run>, after: map<TaskID, Run>) {
    forall id :: AllRecorded(runs, id) ==> AllRecorded(after, id)
  }

  lemma RunsAdvanceKeep(s: Sys, events: seq<TaskEvent>, runs: map<TaskID, Run>)
    requires RunsAdvance(s.runs, runs)
    requires forall id :: OfTask(s.db.events, id) != [] ==> OfTask(events, id) != []
    ensures DoneInv(s.db.updates, s.runs) ==> DoneInv(s.db.updates, runs)
    ensures ListInv(s.db.updates, s.db.events, s.runs, s.listings) ==> ListInv(s.db.updates, events, runs, s.listings)
  {
    if ListInv(s.db.updates, s.db.events, s.runs, s.listings) {
      forall l, i | l in s.listings && 0 <= i < |s.listings[l]|
        ensures GoodWrite(s.db.updates, events, runs, s.listings[l][i])
      {
        assert GoodWrite(s.db.updates, s.db.events, s.runs, s.listings[l][i]);
      }
    }
  }

  /** The system after a run has handled a message, before the task rows are written. */
  ghost function Logged(s: Sys, id: TaskID, eventID: string): Sys
    requires id in s.runs && Pipeline.Enabled(s.runs[id].pipe, Pipeline.Handle)
  {
    s.(runs := Stepped(s.runs, id, Pipeline.Handle),
       db := s.db.(events := Upsert(s.db.events, EventOf(id, s.runs[id].pipe.channel[0], eventID))))
  }

  lemma LoggingKeepsLog(updates: seq<UpdateRow>, events: seq<TaskEvent>, runs: map<TaskID, Run>, id: TaskID, run: Run,
    m: Message, eventID: string)
    requires LogInv(updates, events, runs) && id in runs && HasTask(updates, id)
    requires run.pipe.handled == runs[id].pipe.handled + [m]
    ensures LogInv(updates, Upsert(events, EventOf(id, m, eventID)), runs[id := run])
  {
    forall x | HasTask(updates, x)
      ensures View(Upsert(events, EventOf(id, m, eventID)), x) == Rows(Handled(runs[id := run], x))
    {
      ViewOfUpsert(events, id, m, eventID, x);
      assert run.pipe.handled[..|run.pipe.handled| - 1] == runs[id].pipe.handled;
    }
  }

  lemma RunStepKeepsGood(run: Run, pa: Pipeline.Action)
    requires GoodRun(run) && Pipeline.Enabled(run.pipe, pa)
    ensures GoodRun(run.(pipe := Pipeline.Next(run.pipe, pa)))
    ensures if Records(run.pipe, pa) then run.pipe.handled != run.trace
      else Pipeline.Next(run.pipe, pa).handled == run.pipe.handled
  {
    Pipeline.NextKeepsInv(run.trace, run.pipe, pa);
  }

  lemma RunStepKeepsAllGood(runs: map<TaskID, Run>, id: TaskID, pa: Pipeline.Action)
    requires AllGoodRuns(runs) && id in runs && Pipeline.Enabled(runs[id].pipe, pa)
    ensures AllGoodRuns(Stepped(runs, id, pa)) && RunsAdvance(runs, Stepped(runs, id, pa))
    ensures !Records(runs[id].pipe, pa) ==> forall x :: Handled(Stepped(runs, id, pa), x) == Handled(runs, x)
  {
    RunStepKeepsGood(runs[id], pa);
  }

  lemma RunStepKeepsRuns(d: Dispatch.State, runs: map<TaskID, Run>, id: TaskID, pa: Pipeline.Action)
    requires RunInv(d, runs) && id in runs && Pipeline.Enabled(runs[id].pipe, pa)
    ensures RunInv(d, Stepped(runs, id, pa)) && RunsAdvance(runs, Stepped(runs, id, pa))
    ensures !Records(runs[id].pipe, pa) ==> forall x :: Handled(Stepped(runs, id, pa), x) == Handled(runs, x)
  {
    RunStepKeepsAllGood(runs, id, pa);
  }

  lemma LoggingKeepsInv(s: Sys, id: TaskID, eventID: string)
    requires Inv(s) && id in s.runs && Pipeline.Enabled(s.runs[id].pipe, Pipeline.Handle)
    requires Records(s.runs[id].pipe, Pipeline.Handle)
    ensures Inv(Logged(s, id, eventID))
  {
    var t, m := Logged(s, id, eventID), s.runs[id].pipe.channel[0];
    RunsHaveRows(s, id);
    RunStepKeepsRuns(s.dispatch, s.runs, id, Pipeline.Handle);
    LoggingKeepsLog(s.db.updates, s.db.events, s.runs, id, t.runs[id], m, eventID);
    forall x
      ensures OfTask(s.db.events, x) != [] ==> OfTask(t.db.events, x) != []
    {
      UpsertKeepsLogged(s.db.events, EventOf(id, m, eventID), x);
    }
    RunsAdvanceKeep(s, t.db.events, t.runs);
  }

  lemma RecordingKeepsInv(s: Sys, id: TaskID, eventID: string)
    requires Inv(s) && id in s.runs && Pipeline.Enabled(s.runs[id].pipe, Pipeline.Handle)
    requires Records(s.runs[id].pipe, Pipeline.Handle)
    ensures Inv(s.(runs := Stepped(s.runs, id, Pipeline.Handle),
      db := Record(s.db, id, s.runs[id].pipe.channel[0], eventID)))
  {
    var t, m := Logged(s, id, eventID), s.runs[id].pipe.channel[0];
    LoggingKeepsInv(s, id, eventID);
    PostingKeepsInv(t, id, m);
  }

  /** The status writes of a message just handled. */
  lemma PostingKeepsInv(t: Sys, id: TaskID, m: Message)
    requires Inv(t) && id in t.runs && t.runs[id].pipe.handled != []
    requires t.runs[id].pipe.handled[|t.runs[id].pipe.handled| - 1] == m
    ensures Inv(t.(db := PutAll(t.db, PostWrites(id, m.step, m.status))))
  {
    var ws := PostWrites(id, m.step, m.status);
    forall i | 0 <= i < |ws|
      ensures Allowed(t, ws[i])
    {
      PostWriteOf(id, m, ws[i]);
      if ws[i].table == Updates {
        FinalMakesRecorded(t.dispatch, t.runs, id, m);
      }
    }
    PutAllKeepsInv(t, ws);
  }

  lemma FinalMakesRecorded(d: Dispatch.State, runs: map<TaskID, Run>, id: TaskID, m: Message)
    requires RunInv(d, runs) && id in runs && RkeAdaptor.Final(m, UpdateKubernetes)
    requires runs[id].pipe.handled != [] && runs[id].pipe.handled[|runs[id].pipe.handled| - 1] == m
    ensures AllRecorded(runs, id)
  {
    FinalIsLast(runs[id], |runs[id].pipe.handled| - 1);
  }

  lemma PostWriteOf(id: TaskID, m: Message, w: Write)
    requires w in PostWrites(id, m.step, m.status)
    ensures w.taskID == id
    ensures w.table == Updates ==> w.status == Complete && RkeAdaptor.Final(m, UpdateKubernetes)
  {
  }

  lemma SameHandledKeepsLog(updates: seq<UpdateRow>, events: seq<TaskEvent>, runs: map<TaskID, Run>,
    after: map<TaskID, Run>)
    requires LogInv(updates, events, runs) && forall x :: Handled(after, x) == Handled(runs, x)
    ensures LogInv(updates, events, after)
  {
  }

  /** Sending, handling the closing message, and returning. */
  lemma QuietRunStepKeepsInv(s: Sys, id: TaskID, pa: Pipeline.Action)
    requires Inv(s) && id in s.runs && Pipeline.Enabled(s.runs[id].pipe, pa) && !Records(s.runs[id].pipe, pa)
    ensures Inv(s.(runs := Stepped(s.runs, id, pa)))
  {
    RunStepKeepsRuns(s.dispatch, s.runs, id, pa);
    RunsAdvanceKeep(s, s.db.events, Stepped(s.runs, id, pa));
    SameHandledKeepsLog(s.db.updates, s.db.events, s.runs, Stepped(s.runs, id, pa));
  }

  // ----- the consumer

  lemma SameDeliveriesKeepTasks(updates: seq<UpdateRow>, requests: map<nat, Request>, d: Dispatch.State,
    after: Dispatch.State)
    requires TaskInv(updates, requests, d) && after.consumed + after.queue == d.consumed + d.queue
    ensures TaskInv(updates, requests, after)
  {
  }

  lemma ConsumeKeepsRuns(d: Dispatch.State, runs: map<TaskID, Run>, run: Run)
    requires RunInv(d, runs) && Dispatch.Enabled(d, Dispatch.Consume) && d.queue[0].valid && GoodRun(run)
    requires run.pipe.handled == []
    ensures var after := Dispatch.Next(d, Dispatch.Consume);
      RunInv(after, AfterConsume(after, runs, run)) && (after.phase.Launched? ==> after.phase.id !in runs)
  {
    var after, first := Dispatch.Next(d, Dispatch.Consume), d.queue[0];
    Dispatch.NextKeepsInv(d, Dispatch.Consume);
    assert first == Dispatch.Delivery(first.id, true);
    assert after.consumed == d.consumed + [first];
    forall id { Dispatch.SeenAfter(d.consumed, first, id); }
    LaunchedIsNew(d);
  }

  lemma NewRunIsEmpty(d: Dispatch.State, runs: map<TaskID, Run>, run: Run)
    requires run.pipe.handled == [] && (d.phase.Launched? ==> d.phase.id !in runs)
    ensures RunsAdvance(runs, AfterConsume(d, runs, run))
    ensures forall x :: Handled(AfterConsume(d, runs, run), x) == Handled(runs, x)
  {
  }

  lemma LaunchedIsNew(d: Dispatch.State)
    requires Dispatch.Inv(d) && Dispatch.Enabled(d, Dispatch.Consume) && d.queue[0].valid
    ensures var after := Dispatch.Next(d, Dispatch.Consume);
      if after.phase.Launched? then after.phase.id == d.queue[0].id && !Dispatch.ValidSeen(d.consumed, d.queue[0].id)
      else Dispatch.ValidSeen(d.consumed, d.queue[0].id)
  {
  }

  lemma ConsumeKeepsInv(s: Sys, run: Run)
    requires Inv(s) && Dispatch.Enabled(s.dispatch, Dispatch.Consume) && GoodRun(run) && run.pipe.handled == []
    ensures var d := Dispatch.Next(s.dispatch, Dispatch.Consume);
      Inv(s.(dispatch := d, runs := AfterConsume(d, s.runs, run)))
  {
    var after := Dispatch.Next(s.dispatch, Dispatch.Consume);
    var runs := AfterConsume(after, s.runs, run);
    FirstIsValid(s.db.updates, s.requests, s.dispatch);
    ConsumeKeepsRuns(s.dispatch, s.runs, run);
    NewRunIsEmpty(after, s.runs, run);
    Dispatch.NextKeepsInv(s.dispatch, Dispatch.Consume);
    SameDeliveriesKeepTasks(s.db.updates, s.requests, s.dispatch, after);
    RunsAdvanceKeep(s, s.db.events, runs);
    SameHandledKeepsLog(s.db.updates, s.db.events, s.runs, runs);
  }

  lemma FirstIsValid(updates: seq<UpdateRow>, requests: map<nat, Request>, d: Dispatch.State)
    requires TaskInv(updates, requests, d) && d.queue != []
    ensures d.queue[0].valid
  {
    assert d.queue[0] in d.consumed + d.queue;
  }

  lemma LaunchIsGood(trace: seq<Message>)
    requires RkeAdaptor.IsUpdateRun(trace)
    ensures GoodRun(Run(trace, Pipeline.Launch(trace)))
  {
    RkeAdaptor.UpdateRunsEndWell(trace);
  }

  lemma ConsumerStepKeepsRuns(d: Dispatch.State, runs: map<TaskID, Run>, a: Dispatch.Action)
    requires RunInv(d, runs) && Dispatch.Enabled(d, a) && !a.Consume?
    ensures RunInv(Dispatch.Next(d, a), runs)
  {
    Dispatch.NextKeepsInv(d, a);
  }

  lemma ConsumerStepKeepsInv(s: Sys, a: Action)
    requires Inv(s) && Enabled(s, a) && (a.Recorded? || a.Finish?)
    ensures Inv(Next(s, a))
  {
    var da := if a.Recorded? then Dispatch.Record else Dispatch.Finish(a.id);
    ConsumerStepKeepsRuns(s.dispatch, s.runs, da);
    SameDeliveriesKeepTasks(s.db.updates, s.requests, s.dispatch, Dispatch.Next(s.dispatch, da));
  }

  // ----- requests

  lemma EnqueueKeepsTasks(updates: seq<UpdateRow>, requests: map<nat, Request>, d: Dispatch.State,
    after: Dispatch.State, r: nat)
    requires TaskInv(updates, requests, d) && r in requests && requests[r].Inserted?
    requires after.consumed + after.queue == d.consumed + d.queue + [Dispatch.Delivery(requests[r].id, true)]
    ensures TaskInv(updates, requests[r := Sent(requests[r].id)], after)
  {
    var id, later := requests[r].id, requests[r := Sent(requests[r].id)];
    forall x | HasTask(updates, x)
      ensures Unsent(later, x) || Delivered(after, x)
    {
      if Unsent(requests, x) && x != id {
        var q :| q in requests && requests[q] == Inserted(x);
        assert later[q] == Inserted(x);
      }
    }
  }

  lemma EnqueueKeepsInv(s: Sys, r: nat)
    requires Inv(s) && Enabled(s, Enqueue(r))
    ensures Inv(Next(s, Enqueue(r)))
  {
    var da := Dispatch.Enqueue(Dispatch.Delivery(s.requests[r].id, true));
    Dispatch.NextKeepsInv(s.dispatch, da);
    EnqueueKeepsTasks(s.db.updates, s.requests, s.dispatch, Dispatch.Next(s.dispatch, da), r);
    ConsumerStepKeepsRuns(s.dispatch, s.runs, da);
  }

  /** The thread holds no task, and a version only if it may build on it. */
  predicate Harmless(updates: seq<UpdateRow>, q: Request) {
    !q.Inserted? && (q.ReadUpdate? || q.ReadCreate? ==> Built(OfCluster(updates, q.clusterID), q.version))
  }

  /** Steps of request threads before they have inserted anything, or after they have sent their task. */
  lemma RequestKeepsInv(s: Sys, requests: map<nat, Request>)
    requires Inv(s)
    requires forall q :: q in requests ==>
      (q in s.requests && requests[q] == s.requests[q]) || Harmless(s.db.updates, requests[q])
    requires forall q :: q in s.requests && s.requests[q].Inserted? ==> q in requests && requests[q] == s.requests[q]
    ensures Inv(s.(requests := requests))
  {
    RequestKeepsTasks(s.db.updates, s.requests, s.dispatch, requests);
  }

  lemma RequestKeepsTasks(updates: seq<UpdateRow>, before: map<nat, Request>, d: Dispatch.State,
    requests: map<nat, Request>)
    requires TaskInv(updates, before, d)
    requires forall q :: q in requests ==> (q in before && requests[q] == before[q]) || Harmless(updates, requests[q])
    requires forall q :: q in before && before[q].Inserted? ==> q in requests && requests[q] == before[q]
    ensures TaskInv(updates, requests, d)
  {
    forall id | Unsent(before, id)
      ensures Unsent(requests, id)
    {
      var q :| q in before && before[q] == Inserted(id);
      assert requests[q] == Inserted(id);
    }
  }

  lemma HasTaskAppend(rows: seq<UpdateRow>, row: UpdateRow, id: TaskID)
    ensures HasTask(rows + [row], id) <==> HasTask(rows, id) || id == row.taskID
  {
    var after := rows + [row];
    assert after[|rows|] == row;
    assert forall i :: 0 <= i < |rows| ==> after[i] == rows[i];
  }

  lemma UnusedIsUnknown(s: Sys, id: TaskID)
    requires Inv(s) && Unused(s, id)
    ensures !Delivered(s.dispatch, id) && id !in s.runs && View(s.db.events, id) == []
  {
    ViewListsEvents(s.db.events, id);
    if id in s.runs { RunsHaveRows(s, id); }
  }

  lemma InsertKeepsLock(updates: seq<UpdateRow>, requests: map<nat, Request>, r: nat, row: UpdateRow)
    requires LockInv(updates, requests) && r in requests && requests[r].ReadCreate?
    requires row.clusterID == requests[r].clusterID && row.extra == requests[r].version + 1
    requires !HasTask(updates, row.taskID) && InsertionOf(updates, row) == Added
    ensures LockInv(updates + [row], requests[r := Inserted(row.taskID)])
  {
    InsertionAccepted(updates, row, requests[r].version);
    forall c
      ensures Chain(OfCluster(updates + [row], c))
      ensures forall v :: Built(OfCluster(updates, c), v) ==> Built(OfCluster(updates + [row], c), v)
    {
      ChainGrows(updates, row, c);
    }
  }

  lemma InsertKeepsTasks(s: Sys, r: nat, row: UpdateRow)
    requires Inv(s) && Enabled(s, Insert(r, row))
    ensures TaskInv(s.db.updates + [row], s.requests[r := Inserted(row.taskID)], s.dispatch)
  {
    var after, requests := s.db.updates + [row], s.requests[r := Inserted(row.taskID)];
    UnusedIsUnknown(s, row.taskID);
    forall id { HasTaskAppend(s.db.updates, row, id); }
    forall id | HasTask(after, id)
      ensures Unsent(requests, id) || Delivered(s.dispatch, id)
    {
      if id == row.taskID {
        assert requests[r] == Inserted(id);
      } else if Unsent(s.requests, id) {
        var q :| q in s.requests && s.requests[q] == Inserted(id);
        assert requests[q] == Inserted(id);
      }
    }
  }

  lemma InsertKeepsInv(s: Sys, r: nat, row: UpdateRow)
    requires Inv(s) && Enabled(s, Insert(r, row)) && InsertionOf(s.db.updates, row) == Added
    ensures Inv(Next(s, Insert(r, row)))
  {
    var t, after := Next(s, Insert(r, row)), s.db.updates + [row];
    UnusedIsUnknown(s, row.taskID);
    InsertKeepsLock(s.db.updates, s.requests, r, row);
    InsertKeepsTasks(s, r, row);
    forall id { HasTaskAppend(s.db.updates, row, id); }
    assert RowsInv(after) by {
      forall i | 0 <= i < |s.db.updates|
        ensures s.db.updates[i].taskID != row.taskID
      {
      }
    }
    assert ListInv(after, s.db.events, s.runs, s.listings) by {
      forall l, i | l in s.listings && 0 <= i < |s.listings[l]|
        ensures GoodWrite(after, s.db.events, s.runs, s.listings[l][i])
      {
        assert GoodWrite(s.db.updates, s.db.events, s.runs, s.listings[l][i]);
      }
    }
  }

  // ----- everything else

  lemma ForeignEventKeepsInv(s: Sys, op: DbOp)
    requires Inv(s) && op.Posted? && !HasTask(s.db.updates, op.taskID)
    ensures Inv(s.(db := Step1(s.db, op)))
  {
    var e := EventOf(op.taskID, op.m, op.freshID);
    var t := s.(db := s.db.(events := Upsert(s.db.events, e)));
    forall x
      ensures OfTask(s.db.events, x) != [] ==> OfTask(t.db.events, x) != []
      ensures HasTask(s.db.updates, x) ==> View(t.db.events, x) == View(s.db.events, x)
    {
      UpsertKeepsLogged(s.db.events, e, x);
      ViewOfUpsert(s.db.events, op.taskID, op.m, op.freshID, x);
    }
    RunsAdvanceKeep(s, t.db.events, s.runs);
    var ws := PostWrites(op.taskID, op.m.step, op.m.status);
    forall i | 0 <= i < |ws|
      ensures Allowed(t, ws[i])
    {
      PostWriteOf(op.taskID, op.m, ws[i]);
    }
    PutAllKeepsInv(t, ws);
  }

  lemma SyncKeepsInv(s: Sys, ids: seq<string>)
    requires Inv(s) && SparesUpdates(s, ids)
    ensures Inv(s.(db := s.db.(events := MarkSucceeded(s.db.events, ids))))
  {
    var events := MarkSucceeded(s.db.events, ids);
    forall x
      ensures OfTask(s.db.events, x) != [] ==> OfTask(events, x) != []
      ensures HasTask(s.db.updates, x) ==> View(events, x) == View(s.db.events, x)
    {
      MarkingKeepsLogged(s.db.events, ids, x);
      if HasTask(s.db.updates, x) { MarkingKeepsView(s.db.events, ids, x); }
    }
    RunsAdvanceKeep(s, events, s.runs);
  }

  lemma NewListingIsGood(s: Sys, l: nat, ws: seq<Write>)
    requires ListInv(s.db.updates, s.db.events, s.runs, s.listings)
    requires forall i :: 0 <= i < |ws| ==> GoodWrite(s.db.updates, s.db.events, s.runs, ws[i])
    ensures ListInv(s.db.updates, s.db.events, s.runs, s.listings[l := ws])
  {
    var after := s.listings[l := ws];
    forall k, i | k in after && 0 <= i < |after[k]|
      ensures GoodWrite(s.db.updates, s.db.events, s.runs, after[k][i])
    {
      if k != l { assert GoodWrite(s.db.updates, s.db.events, s.runs, s.listings[k][i]); }
    }
  }

  lemma StartListingKeepsInv(s: Sys, l: nat, id: TaskID)
    requires Inv(s) && l !in s.listings
    ensures Inv(s.(listings := s.listings[l := ListWrites(OfTask(s.db.events, id))]))
    ensures Inv(s.(listings := s.listings[l := []]))
  {
    var ws := ListWrites(OfTask(s.db.events, id));
    forall i | 0 <= i < |ws|
      ensures GoodWrite(s.db.updates, s.db.events, s.runs, ws[i])
    {
      ListingIsGood(s, id, ws[i]);
    }
    NewListingIsGood(s, l, ws);
    NewListingIsGood(s, l, []);
  }

  lemma ListingStepKeepsInv(s: Sys, l: nat)
    requires Inv(s) && l in s.listings
    ensures s.listings[l] == [] ==> Inv(s.(listings := Without(s.listings, l)))
    ensures s.listings[l] != [] ==>
      Inv(s.(db := Put(s.db, s.listings[l][0]), listings := s.listings[l := s.listings[l][1..]]))
  {
    if s.listings[l] != [] {
      var ws := s.listings[l];
      assert GoodWrite(s.db.updates, s.db.events, s.runs, ws[0]);
      PutKeepsInv(s, ws[0]);
      var t := s.(db := Put(s.db, ws[0]));
      ShorterListingIsGood(t.db.updates, t.db.events, t.runs, t.listings, l);
    }
  }

  lemma ShorterListingIsGood(updates: seq<UpdateRow>, events: seq<TaskEvent>, runs: map<TaskID, Run>,
    listings: map<nat, seq<Write>>, l: nat)
    requires ListInv(updates, events, runs, listings) && l in listings && listings[l] != []
    ensures ListInv(updates, events, runs, listings[l := listings[l][1..]])
  {
    var after := listings[l := listings[l][1..]];
    forall k, i | k in after && 0 <= i < |after[k]|
      ensures GoodWrite(updates, events, runs, after[k][i])
    {
      if k == l {
        assert GoodWrite(updates, events, runs, listings[l][i + 1]);
      } else {
        assert GoodWrite(updates, events, runs, listings[k][i]);
      }
    }
  }

  lemma CheckUpdateKeepsInv(s: Sys, r: nat)
    requires Inv(s) && Enabled(s, DoCheckUpdate(r))
    ensures Inv(Next(s, DoCheckUpdate(r)))
  {
    var c := s.requests[r].clusterID;
    if CheckUpdate(s.db.updates, c).Ok? {
      CheckedVersionIsBuilt(s.db.updates, c);
      RequestKeepsInv(s, s.requests[r := ReadUpdate(c, CheckUpdate(s.db.updates, c).value)]);
    } else {
      RequestKeepsInv(s, Without(s.requests, r));
    }
  }

  lemma CheckCreateKeepsInv(s: Sys, r: nat)
    requires Inv(s) && Enabled(s, DoCheckCreate(r))
    ensures Inv(Next(s, DoCheckCreate(r)))
  {
    var q := s.requests[r];
    if CheckCreate(s.db.creates, q.clusterID) {
      RequestKeepsInv(s, s.requests[r := ReadCreate(q.clusterID, q.version)]);
    } else {
      RequestKeepsInv(s, Without(s.requests, r));
    }
  }

  lemma MarkStartedKeepsInv(s: Sys, r: nat)
    requires Inv(s) && Enabled(s, MarkStarted(r))
    ensures Inv(Next(s, MarkStarted(r)))
  {
    var w := Write(Creates, s.requests[r].id, Started);
    PutKeepsInv(s, w);
    RequestKeepsInv(s.(db := Put(s.db, w)), Without(s.requests, r));
  }

  lemma InsertActionKeepsInv(s: Sys, r: nat, row: UpdateRow)
    requires Inv(s) && Enabled(s, Insert(r, row))
    ensures Inv(Next(s, Insert(r, row)))
  {
    if InsertionOf(s.db.updates, row) == Added { InsertKeepsInv(s, r, row); }
    else { RequestKeepsInv(s, Without(s.requests, r)); }
  }

  predicate OfRequest(a: Action) {
    a.Open? || a.DoCheckUpdate? || a.DoCheckCreate? || a.Insert? || a.GiveUp? || a.Enqueue? || a.MarkStarted?
  }

  lemma RequestActionKeepsInv(s: Sys, a: Action)
    requires Inv(s) && Enabled(s, a) && OfRequest(a)
    ensures Inv(Next(s, a))
  {
    match a {
      case Open(r, c) => RequestKeepsInv(s, s.requests[r := Opened(c)]);
      case DoCheckUpdate(r) => CheckUpdateKeepsInv(s, r);
      case DoCheckCreate(r) => CheckCreateKeepsInv(s, r);
      case Insert(r, row) => InsertActionKeepsInv(s, r, row);
      case GiveUp(r) => RequestKeepsInv(s, Without(s.requests, r));
      case Enqueue(r) => EnqueueKeepsInv(s, r);
      case MarkStarted(r) => MarkStartedKeepsInv(s, r);
    }
  }

  predicate OfWorker(a: Action) {
    a.Consume? || a.Recorded? || a.Finish? || a.RunStep?
  }

  lemma WorkerActionKeepsInv(s: Sys, a: Action)
    requires Inv(s) && Enabled(s, a) && OfWorker(a)
    ensures Inv(Next(s, a))
  {
    match a {
      case Consume(trace) =>
        LaunchIsGood(trace);
        ConsumeKeepsInv(s, Run(trace, Pipeline.Launch(trace)));
      case Recorded => ConsumerStepKeepsInv(s, a);
      case Finish(_) => ConsumerStepKeepsInv(s, a);
      case RunStep(id, pa, eventID) =>
        if Records(s.runs[id].pipe, pa) { RecordingKeepsInv(s, id, eventID); } else { QuietRunStepKeepsInv(s, id, pa); }
    }
  }

  /** Listings and whatever else touches the tables. */
  lemma OtherActionKeepsInv(s: Sys, a: Action)
    requires Inv(s) && Enabled(s, a) && !OfRequest(a) && !OfWorker(a)
    ensures Inv(Next(s, a))
  {
    match a {
      case StartListing(l, id) => StartListingKeepsInv(s, l, id);
      case ListingStep(l) => ListingStepKeepsInv(s, l);
      case Foreign(Posted(_, _, _)) => ForeignEventKeepsInv(s, a.op);
      case Foreign(Wrote(w)) => PutKeepsInv(s, w);
      case Foreign(Marked(ids)) => SyncKeepsInv(s, ids);
      case AddCreate(_) =>
      case AddInit(_) =>
    }
  }

  /** Every enabled action keeps the invariant. */
  lemma NextKeepsInv(s: Sys, a: Action)
    requires Inv(s) && Enabled(s, a)
    ensures Inv(Next(s, a))
  {
    if OfRequest(a) { RequestActionKeepsInv(s, a); }
    else if OfWorker(a) { WorkerActionKeepsInv(s, a); }
    else { OtherActionKeepsInv(s, a); }
  }

  lemma {:induction false} ExecutionKeepsInv(states: seq<Sys>, actions: seq<Action>)
    requires IsExecution(states, actions)
    ensures Inv(states[|actions|])
  {
    var n := |actions|;
    if n == 0 {
      assert states[0].db.updates == [];
    } else {
      ExecutionKeepsInv(states[..n], actions[..n - 1]);
      NextKeepsInv(states[n - 1], actions[n - 1]);
    }
  }

  // ----- what every execution guarantees

  /** In every interleaving the update rows of a cluster have versions 1, 2, ..., n in ID order, and
      only the last may be incomplete. */
  lemma VersionsAreConsecutive(states: seq<Sys>, actions: seq<Action>, clusterID: string)
    requires IsExecution(states, actions)
    ensures var rows, own := states[|actions|].db.updates, OfCluster(states[|actions|].db.updates, clusterID);
      (forall i, j :: 0 <= i < j < |rows| ==> rows[i].id < rows[j].id) &&
      (forall k :: 0 <= k < |own| ==> own[k].extra == k + 1) &&
      (forall k :: 0 <= k < |own| - 1 ==> own[k].status == Complete)
  {
    ExecutionKeepsInv(states, actions);
  }

  /** Of two update tasks of one cluster, the run of at least one has recorded its last message: two
      updates of a cluster never work at the same time. */
  lemma UpdatesExcludeEachOther(states: seq<Sys>, actions: seq<Action>, i: nat, j: nat)
    requires IsExecution(states, actions)
    requires var rows := states[|actions|].db.updates;
      i < |rows| && j < |rows| && i != j && rows[i].clusterID == rows[j].clusterID
    ensures var s := states[|actions|];
      AllRecorded(s.runs, s.db.updates[i].taskID) || AllRecorded(s.runs, s.db.updates[j].taskID)
  {
    ExecutionKeepsInv(states, actions);
    var rows := states[|actions|].db.updates;
    OfClusterMembers(rows, rows[i].clusterID);
    var own := OfCluster(rows, rows[i].clusterID);
    assert rows[i] in own && rows[j] in own;
    var p :| 0 <= p < |own| && own[p] == rows[i];
    var q :| 0 <= q < |own| && own[q] == rows[j];
  }

  lemma VersionStaysTaken(s: Sys, a: Action, clusterID: string, version: nat)
    requires Enabled(s, a) && VersionTaken(s.db.updates, clusterID, version)
    ensures VersionTaken(Next(s, a).db.updates, clusterID, version)
  {
    var i :| 0 <= i < |s.db.updates| && s.db.updates[i].clusterID == clusterID && s.db.updates[i].extra == version;
    var after := Next(s, a).db.updates;
    RowsPersist(s, a, i);
    assert after[i].clusterID == clusterID && after[i].extra == version;
  }

  /** Rows never disappear and keep everything but their status. */
  lemma RowsPersist(s: Sys, a: Action, i: nat)
    requires Enabled(s, a) && i < |s.db.updates|
    ensures var after := Next(s, a).db.updates;
      i < |after| && after[i] == s.db.updates[i].(status := after[i].status)
  {
    match a {
      case RunStep(id, pa, eventID) =>
        if Records(s.runs[id].pipe, pa) {
          var m := s.runs[id].pipe.channel[0];
          PutAllRewrites(s.db.(events := Upsert(s.db.events, EventOf(id, m, eventID))),
            PostWrites(id, m.step, m.status));
        }
      case Foreign(op) =>
        if op.Posted? {
          PutAllRewrites(s.db.(events := Upsert(s.db.events, EventOf(op.taskID, op.m, op.freshID))),
            PostWrites(op.taskID, op.m.step, op.m.status));
        }
      case _ =>
    }
  }

  /** No row changes but by completion. */
  ghost predicate Restated(rows: seq<UpdateRow>, after: seq<UpdateRow>) {
    after == rows || exists id :: after == SetStatus(rows, id, Complete)
  }

  /** One row of a new task is added. */
  ghost predicate Extended(rows: seq<UpdateRow>, after: seq<UpdateRow>) {
    exists row :: after == rows + [row] && !HasTask(rows, row.taskID)
  }

  /** What any action does to the update table: a completion, if anything, or the row it inserts. */
  lemma UpdatesChange(s: Sys, a: Action)
    requires ListInv(s.db.updates, s.db.events, s.runs, s.listings) && Enabled(s, a)
    ensures var after := Next(s, a).db.updates;
      if a.Insert? && InsertionOf(s.db.updates, a.row) == Added
      then after == s.db.updates + [a.row] && Extended(s.db.updates, after)
      else Restated(s.db.updates, after)
  {
    match a {
      case RunStep(id, pa, eventID) =>
        if Records(s.runs[id].pipe, pa) {
          TaskRuns.RecordingLeavesFailedUpdate(s.db, id, s.runs[id].pipe.channel[0], eventID);
        }
      case ListingStep(l) =>
        if s.listings[l] != [] { assert GoodWrite(s.db.updates, s.db.events, s.runs, s.listings[l][0]); }
      case Foreign(Posted(id, m, freshID)) => TaskRuns.RecordingLeavesFailedUpdate(s.db, id, m, freshID);
      case _ =>
    }
  }

  /** Of several requests holding the same version exactly one wins: an insertion is accepted exactly
      when its version is the next of the cluster, and from then on the same version is refused. */
  lemma {:induction false} OneRequestWins(states: seq<Sys>, actions: seq<Action>, k: nat)
    requires IsExecution(states, actions) && k < |actions| && actions[k].Insert?
    ensures var s, row := states[k], actions[k].row;
      InsertionOf(s.db.updates, row) == Added <==> row.extra == |OfCluster(s.db.updates, row.clusterID)| + 1
    ensures VersionTaken(states[|actions|].db.updates, actions[k].row.clusterID, actions[k].row.extra)
  {
    var s, row, n := states[k], actions[k].row, |actions|;
    ExecutionKeepsInv(states[..k + 1], actions[..k]);
    InsertionAccepted(s.db.updates, row, s.requests[actions[k].r].version);
    if n == k + 1 {
      var after := states[n].db.updates;
      if InsertionOf(s.db.updates, row) == Added {
        assert after[|s.db.updates|] == row;
      }
    } else {
      OneRequestWins(states[..n], actions[..n - 1], k);
      VersionStaysTaken(states[n - 1], actions[n - 1], row.clusterID, row.extra);
    }
  }

  /** What lets a request go on: the last update task of the cluster, then its last create task, complete
      if there is one; it then holds the version of that update task. */
  lemma ChecksLetPassIff(s: Sys, r: nat)
    ensures Enabled(s, DoCheckUpdate(r)) ==>
      (var own, t := OfCluster(s.db.updates, s.requests[r].clusterID), Next(s, DoCheckUpdate(r));
       (r in t.requests <==> own == [] || own[|own| - 1].status == Complete) &&
       (r in t.requests ==>
         (t.requests[r] == ReadUpdate(s.requests[r].clusterID, if own == [] then 0 else own[|own| - 1].extra))))
    ensures Enabled(s, DoCheckCreate(r)) ==>
      (var made, t := OfCluster(s.db.creates, s.requests[r].clusterID), Next(s, DoCheckCreate(r));
       (r in t.requests <==> made == [] || made[|made| - 1].status == Complete) &&
       (r in t.requests ==> t.requests[r] == ReadCreate(s.requests[r].clusterID, s.requests[r].version)))
  {
  }

  /** A request that runs alone when the last tasks of its cluster are complete inserts its row, with
      the next version; whoever has updated the cluster before, it can be updated again. */
  lemma LoneRequestInserts(states: seq<Sys>, actions: seq<Action>, r: nat, row: UpdateRow)
    requires IsExecution(states, actions) && r in states[|actions|].requests
    requires states[|actions|].requests[r] == Opened(row.clusterID)
    requires var db := states[|actions|].db;
      LastComplete(OfCluster(db.updates, row.clusterID)) && LastComplete(OfCluster(db.creates, row.clusterID)) &&
      row.extra == |OfCluster(db.updates, row.clusterID)| + 1 && row.status == Unset && Above(db.updates, row.id)
    requires Unused(states[|actions|], row.taskID)
    ensures var s := states[|actions|];
      Enabled(s, DoCheckUpdate(r)) &&
      (var s1 := Next(s, DoCheckUpdate(r));
       Enabled(s1, DoCheckCreate(r)) &&
       (var s2 := Next(s1, DoCheckCreate(r));
        Enabled(s2, Insert(r, row)) && Next(s2, Insert(r, row)).db.updates == s.db.updates + [row]))
  {
    ExecutionKeepsInv(states, actions);
    LoneRequest(states[|actions|], r, row);
  }

  lemma LoneRequest(s: Sys, r: nat, row: UpdateRow)
    requires Chain(OfCluster(s.db.updates, row.clusterID))
    requires r in s.requests && s.requests[r] == Opened(row.clusterID)
    requires LastComplete(OfCluster(s.db.updates, row.clusterID))
    requires LastComplete(OfCluster(s.db.creates, row.clusterID))
    requires row.extra == |OfCluster(s.db.updates, row.clusterID)| + 1 && row.status == Unset
    requires Above(s.db.updates, row.id) && Unused(s, row.taskID)
    ensures var s1 := Next(s, DoCheckUpdate(r));
      Enabled(s1, DoCheckCreate(r)) &&
      (var s2 := Next(s1, DoCheckCreate(r));
       Enabled(s2, Insert(r, row)) && Next(s2, Insert(r, row)).db.updates == s.db.updates + [row])
  {
    NextVersionIsAccepted(s.db.updates, s.db.creates, row);
  }

  /** The `start` write of an update request goes to the create table. */
  lemma StartGoesToCreates(s: Sys, r: nat)
    requires Enabled(s, MarkStarted(r))
    ensures var t := Next(s, MarkStarted(r));
      AllHave(t.db.creates, s.requests[r].id, Started) && t.db.updates == s.db.updates && t.db.inits == s.db.inits
  {
  }

  /** The action inserts a row of this cluster and version. */
  predicate Claims(a: Action, clusterID: string, version: nat) {
    a.Insert? && a.row.clusterID == clusterID && a.row.extra == version
  }

  lemma TakenByAction(s: Sys, a: Action, clusterID: string, version: nat)
    requires ListInv(s.db.updates, s.db.events, s.runs, s.listings) && Enabled(s, a)
    requires VersionTaken(Next(s, a).db.updates, clusterID, version)
    ensures VersionTaken(s.db.updates, clusterID, version) || Claims(a, clusterID, version)
  {
    UpdatesChange(s, a);
    var rows, after := s.db.updates, Next(s, a).db.updates;
    var i :| 0 <= i < |after| && after[i].clusterID == clusterID && after[i].extra == version;
    if i < |rows| { assert rows[i].clusterID == clusterID && rows[i].extra == version; }
  }

  /** A version is taken only by an insertion of it. */
  lemma {:induction false} TakenByInsertion(states: seq<Sys>, actions: seq<Action>, clusterID: string, version: nat)
    requires IsExecution(states, actions) && VersionTaken(states[|actions|].db.updates, clusterID, version)
    ensures exists j :: 0 <= j < |actions| && Claims(actions[j], clusterID, version)
  {
    if actions != [] {
      var n := |actions|;
      LastStep(states, actions);
      TakenByAction(states[n - 1], actions[n - 1], clusterID, version);
      if !Claims(actions[n - 1], clusterID, version) {
        TakenByInsertion(states[..n], actions[..n - 1], clusterID, version);
        var j :| 0 <= j < n - 1 && Claims(actions[..n - 1][j], clusterID, version);
        assert Claims(actions[j], clusterID, version);
      }
    }
  }

  lemma ExecutionPrefix(states: seq<Sys>, actions: seq<Action>, k: nat)
    requires IsExecution(states, actions) && k <= |actions|
    ensures IsExecution(states[..k + 1], actions[..k])
  {
  }

  /** Exactly one insertion of each version of a cluster is accepted, the first: no other request
      that read the same version gets a row. */
  lemma FirstInsertionWins(states: seq<Sys>, actions: seq<Action>, k: nat)
    requires IsExecution(states, actions) && k < |actions| && actions[k].Insert?
    ensures var row := actions[k].row;
      InsertionOf(states[k].db.updates, row) == Added <==>
      forall j :: 0 <= j < k ==> !Claims(actions[j], row.clusterID, row.extra)
  {
    var row, rows := actions[k].row, states[k].db.updates;
    var before, done := states[..k + 1], actions[..k];
    ExecutionPrefix(states, actions, k);
    NewTaskIsAdded(states[k], actions[k]);
    if VersionTaken(rows, row.clusterID, row.extra) {
      TakenByInsertion(before, done, row.clusterID, row.extra);
      var j :| 0 <= j < k && Claims(done[j], row.clusterID, row.extra);
      assert Claims(actions[j], row.clusterID, row.extra);
    } else if j :| 0 <= j < k && Claims(actions[j], row.clusterID, row.extra) {
      OneRequestWins(before, done, j);
      assert false;
    }
  }

  lemma NewTaskIsAdded(s: Sys, a: Action)
    requires Enabled(s, a) && a.Insert?
    ensures InsertionOf(s.db.updates, a.row) == Added <==> !VersionTaken(s.db.updates, a.row.clusterID, a.row.extra)
  {
  }

  /** Nothing is under way: no task waits to be sent or consumed, and every run has returned. */
  ghost predicate Quiet(s: Sys) {
    (forall r :: r in s.requests ==> !s.requests[r].Inserted?) && s.dispatch.queue == [] &&
    (forall id :: id in s.runs ==> s.runs[id].pipe.returned)
  }

  // ----- no stuck cluster

  /** The row is complete, or the listing has still to complete it. */
  predicate WillComplete(s: Sys, l: nat, id: TaskID) {
    AllHave(s.db.updates, id, Complete) || (l in s.listings && Write(Updates, id, Complete) in s.listings[l])
  }

  lemma RecordedTaskIsListed(s: Sys, id: TaskID)
    requires Inv(s) && HasTask(s.db.updates, id) && AllRecorded(s.runs, id)
    ensures Write(Updates, id, Complete) in ListWrites(OfTask(s.db.events, id))
  {
    var events := OfTask(s.db.events, id);
    assert GoodRun(s.runs[id]);
    RkeAdaptor.UpdateRunsEndWell(s.runs[id].trace);
    TaskRuns.RecordedRunIsEnded(s.db.events, id, s.runs[id].trace, Updates);
    var i :| 0 <= i < |events| && Ends(events[i], Updates);
    assert events[i] in events;
    EventCompletes(events[i], Updates);
    ListWritesHave(events, i, Write(Updates, id, Complete));
  }

  /** A row once complete stays complete. */
  lemma ChangeKeepsComplete(rows: seq<UpdateRow>, after: seq<UpdateRow>, id: TaskID)
    requires (Restated(rows, after) || Extended(rows, after)) && HasTask(rows, id)
    ensures HasTask(after, id)
    ensures AllHave(rows, id, Complete) ==> AllHave(after, id, Complete)
  {
    var i :| 0 <= i < |rows| && rows[i].taskID == id;
    assert after[i].taskID == id;
  }

  lemma OtherListingsStay(s: Sys, a: Action, l: nat)
    requires Enabled(s, a) && l in s.listings && a != ListingStep(l)
    ensures l in Next(s, a).listings && Next(s, a).listings[l] == s.listings[l]
  {
  }

  lemma OwnListingGoesOn(s: Sys, l: nat, id: TaskID)
    requires l in s.listings && Write(Updates, id, Complete) in s.listings[l]
    ensures WillComplete(Next(s, ListingStep(l)), l, id)
  {
    var ws := s.listings[l];
    assert ws == [ws[0]] + ws[1..];
  }

  lemma WillCompleteStays(s: Sys, a: Action, l: nat, id: TaskID)
    requires ListInv(s.db.updates, s.db.events, s.runs, s.listings)
    requires Enabled(s, a) && HasTask(s.db.updates, id) && WillComplete(s, l, id)
    ensures HasTask(Next(s, a).db.updates, id) && WillComplete(Next(s, a), l, id)
  {
    UpdatesChange(s, a);
    ChangeKeepsComplete(s.db.updates, Next(s, a).db.updates, id);
    if !AllHave(s.db.updates, id, Complete) {
      if a == ListingStep(l) { OwnListingGoesOn(s, l, id); } else { OtherListingsStay(s, a, l); }
    }
  }

  lemma StartedListingWillComplete(s: Sys, l: nat, id: TaskID)
    requires Inv(s) && Enabled(s, StartListing(l, id)) && HasTask(s.db.updates, id) && AllRecorded(s.runs, id)
    ensures HasTask(Next(s, StartListing(l, id)).db.updates, id) && WillComplete(Next(s, StartListing(l, id)), l, id)
  {
    RecordedTaskIsListed(s, id);
  }

  lemma LastStep(states: seq<Sys>, actions: seq<Action>)
    requires IsExecution(states, actions) && actions != []
    ensures var n := |actions|;
      IsExecution(states[..n], actions[..n - 1]) && Inv(states[n - 1]) && Enabled(states[n - 1], actions[n - 1]) &&
      states[n] == Next(states[n - 1], actions[n - 1])
  {
    ExecutionKeepsInv(states[..|actions|], actions[..|actions| - 1]);
  }

  /** One step of the listing's history: the start, or any later action. */
  lemma WillCompleteNext(s: Sys, a: Action, t: Sys, l: nat, id: TaskID, start: bool)
    requires Inv(s) && Enabled(s, a) && t == Next(s, a) && HasTask(s.db.updates, id)
    requires if start then a == StartListing(l, id) && AllRecorded(s.runs, id) else WillComplete(s, l, id)
    ensures HasTask(t.db.updates, id) && WillComplete(t, l, id)
  {
    if start { StartedListingWillComplete(s, l, id); } else { WillCompleteStays(s, a, l, id); }
  }

  lemma WillCompleteLast(states: seq<Sys>, actions: seq<Action>, l: nat, id: TaskID, start: bool)
    requires IsExecution(states, actions) && actions != [] && HasTask(states[|actions| - 1].db.updates, id)
    requires if start then actions[|actions| - 1] == StartListing(l, id) && AllRecorded(states[|actions| - 1].runs, id)
      else WillComplete(states[|actions| - 1], l, id)
    ensures HasTask(states[|actions|].db.updates, id) && WillComplete(states[|actions|], l, id)
  {
    var n := |actions|;
    LastStep(states, actions);
    WillCompleteNext(states[n - 1], actions[n - 1], states[n], l, id, start);
  }

  lemma ShorterExecution(states: seq<Sys>, actions: seq<Action>)
    requires IsExecution(states, actions) && actions != []
    ensures IsExecution(states[..|actions|], actions[..|actions| - 1])
  {
  }

  lemma {:induction false} ListingWillComplete(states: seq<Sys>, actions: seq<Action>, k: nat, l: nat, id: TaskID)
    requires IsExecution(states, actions) && k < |actions| && actions[k] == StartListing(l, id)
    requires HasTask(states[k].db.updates, id) && AllRecorded(states[k].runs, id)
    ensures HasTask(states[|actions|].db.updates, id) && WillComplete(states[|actions|], l, id)
    decreases |actions|
  {
    var n := |actions|;
    if n > k + 1 {
      ShorterExecution(states, actions);
      var before := states[..n];
      assert before[n - 1] == states[n - 1] && before[k] == states[k];
      ListingWillComplete(before, actions[..n - 1], k, l, id);
    }
    WillCompleteLast(states, actions, l, id, n == k + 1);
  }

  /** No stuck cluster: whatever else happens, a listing that starts after the run of an update has
      recorded its last message has completed the row when it ends, and for ever; if that update is
      then still the last of its cluster, the check of the next request finds it complete. */
  lemma NoStuckCluster(states: seq<Sys>, actions: seq<Action>, k: nat, l: nat, id: TaskID)
    requires IsExecution(states, actions) && k < |actions| && actions[k] == StartListing(l, id)
    requires HasTask(states[k].db.updates, id) && AllRecorded(states[k].runs, id)
    requires l !in states[|actions|].listings
    ensures var rows := states[|actions|].db.updates;
      HasTask(rows, id) && AllHave(rows, id, Complete) &&
      forall c :: LastOfCluster(rows, c).Some? && LastOfCluster(rows, c).value.taskID == id ==> CheckUpdate(rows, c).Ok?
  {
    ListingWillComplete(states, actions, k, l, id);
    var rows := states[|actions|].db.updates;
    forall c | LastOfCluster(rows, c).Some? && LastOfCluster(rows, c).value.taskID == id
      ensures CheckUpdate(rows, c).Ok?
    {
      LastOfClusterIsRow(rows, c);
    }
  }

  lemma LastOfClusterIsRow(rows: seq<UpdateRow>, c: string)
    requires LastOfCluster(rows, c).Some?
    ensures LastOfCluster(rows, c).value in rows
  {
    LastIsLastOfCluster(rows, c);
    OfClusterMembers(rows, c);
    var own := OfCluster(rows, c);
    assert own[|own| - 1] in own;
  }

  /** A run that has returned has recorded its last message. */
  lemma ReturnedRunIsRecorded(states: seq<Sys>, actions: seq<Action>, id: TaskID)
    requires IsExecution(states, actions) && id in states[|actions|].runs && states[|actions|].runs[id].pipe.returned
    ensures HasTask(states[|actions|].db.updates, id) && AllRecorded(states[|actions|].runs, id)
  {
    ExecutionKeepsInv(states, actions);
    RunsHaveRows(states[|actions|], id);
    assert GoodRun(states[|actions|].runs[id]);
  }

  /** The system is never deadlocked: while something is under way, the sender, the consumer or a
      runner can take a step. */
  lemma NeverDeadlocked(states: seq<Sys>, actions: seq<Action>)
    requires IsExecution(states, actions) && !Quiet(states[|actions|])
    ensures exists a :: Enabled(states[|actions|], a) && (a.Enqueue? || a.Consume? || a.Recorded? || a.RunStep?)
  {
    var s := states[|actions|];
    ExecutionKeepsInv(states, actions);
    if s.dispatch.phase.Launched? {
      assert Enabled(s, Recorded);
    } else if s.dispatch.queue != [] {
      var trace := RkeAdaptor.RunnerTrace(Some(""), RkeAdaptor.ExpansionTrace(RkeAdaptor.Upgraded, ""));
      assert RkeAdaptor.IsUpdateRun(trace);
      assert Enabled(s, Consume(trace));
    } else if r :| r in s.requests && s.requests[r].Inserted? {
      assert Enabled(s, Enqueue(r));
    } else {
      var id :| id in s.runs && !s.runs[id].pipe.returned;
      assert GoodRun(s.runs[id]);
      Pipeline.NeverStuck(s.runs[id].trace, s.runs[id].pipe);
      var pa :| Pipeline.Enabled(s.runs[id].pipe, pa);
      assert Enabled(s, RunStep(id, pa, ""));
    }
  }

  // ----- the work under way is finite

  /** What brings the work forward: sending, consuming, recording a start, and the steps of a run. */
  predicate Working(a: Action) {
    a.Enqueue? || a.Consume? || a.Recorded? || a.RunStep?
  }

  /** The longest run: six messages and the closing one, each sent and handled, and the return. */
  const RUN := 15

  function Unqueued(requests: map<nat, Request>): set<nat> {
    set r | r in requests && requests[r].Inserted?
  }

  ghost function RunWork(runs: map<TaskID, Run>): nat
    decreases |runs|
  {
    if runs == map[] then 0
    else
      var id :| id in runs;
      Pipeline.Work(runs[id].pipe) + RunWork(runs - {id})
  }

  lemma {:induction false} RunWorkAt(runs: map<TaskID, Run>, id: TaskID)
    requires id in runs
    ensures RunWork(runs) == Pipeline.Work(runs[id].pipe) + RunWork(runs - {id})
    decreases |runs|
  {
    var first :| first in runs && RunWork(runs) == Pipeline.Work(runs[first].pipe) + RunWork(runs - {first});
    if first != id {
      RunWorkAt(runs - {first}, id);
      RunWorkAt(runs - {id}, first);
      assert runs - {first} - {id} == runs - {id} - {first};
    }
  }

  lemma RunWorkWith(runs: map<TaskID, Run>, id: TaskID, run: Run)
    ensures RunWork(runs[id := run]) ==
      RunWork(runs) + Pipeline.Work(run.pipe) - if id in runs then Pipeline.Work(runs[id].pipe) else 0
  {
    RunWorkAt(runs[id := run], id);
    assert runs[id := run] - {id} == runs - {id};
    if id in runs { RunWorkAt(runs, id); } else { assert runs - {id} == runs; }
  }

  ghost function Work(s: Sys): nat {
    (RUN + 3) * |Unqueued(s.requests)| + (RUN + 2) * |s.dispatch.queue| +
    (if s.dispatch.phase.Launched? then 1 else 0) + RunWork(s.runs)
  }

  lemma UpdateRunIsShort(ms: seq<Message>)
    requires RkeAdaptor.IsUpdateRun(ms)
    ensures |ms| <= 6
  {
    var noAdaptor: RkeAdaptor.Call, exit, path :|
      ms == RkeAdaptor.RunnerTrace(noAdaptor, RkeAdaptor.ExpansionTrace(exit, path));
    assert |RkeAdaptor.ExpansionTrace(exit, path)| <= 4;
  }

  lemma EnqueueWork(s: Sys, r: nat)
    requires Enabled(s, Enqueue(r))
    ensures Work(Next(s, Enqueue(r))) + 1 == Work(s)
  {
    var t := Next(s, Enqueue(r));
    assert Unqueued(t.requests) == Unqueued(s.requests) - {r};
    assert r in Unqueued(s.requests);
  }

  lemma UnqueuedAfter(s: Sys, a: Action)
    requires Enabled(s, a) && OfRequest(a) && !a.Enqueue?
    ensures var before, after := Unqueued(s.requests), Unqueued(Next(s, a).requests);
      after == before || (a.Insert? && after == before + {a.r})
  {
  }

  lemma RequestWork(s: Sys, a: Action)
    requires Enabled(s, a) && OfRequest(a) && !a.Enqueue?
    ensures Work(Next(s, a)) <= Work(s) + if a.Insert? then RUN + 3 else 0
  {
    var t := Next(s, a);
    UnqueuedAfter(s, a);
    assert t.runs == s.runs && t.dispatch == s.dispatch;
  }

  lemma LaunchWork(d: Dispatch.State, runs: map<TaskID, Run>, run: Run)
    ensures RunWork(AfterConsume(d, runs, run)) <= RunWork(runs) + Pipeline.Work(run.pipe)
  {
    if d.phase.Launched? { RunWorkWith(runs, d.phase.id, run); }
  }

  lemma LaunchedRunIsShort(trace: seq<Message>)
    requires RkeAdaptor.IsUpdateRun(trace)
    ensures Pipeline.Work(Pipeline.Launch(trace)) <= RUN
  {
    UpdateRunIsShort(trace);
  }

  /** A delivery is worth a launch and a whole run. */
  lemma DeliveryWork(d: Dispatch.State, runs: map<TaskID, Run>, run: Run)
    requires Dispatch.Enabled(d, Dispatch.Consume) && Pipeline.Work(run.pipe) <= RUN
    ensures var after := Dispatch.Next(d, Dispatch.Consume);
      |after.queue| == |d.queue| - 1 && d.phase == Dispatch.Waiting &&
      (if after.phase.Launched? then 1 else 0) + RunWork(AfterConsume(after, runs, run)) <= RunWork(runs) + RUN + 1
  {
    LaunchWork(Dispatch.Next(d, Dispatch.Consume), runs, run);
  }

  lemma ConsumeWork(s: Sys, trace: seq<Message>)
    requires Enabled(s, Consume(trace))
    ensures Work(Next(s, Consume(trace))) + 1 <= Work(s)
  {
    LaunchedRunIsShort(trace);
    DeliveryWork(s.dispatch, s.runs, Run(trace, Pipeline.Launch(trace)));
  }

  lemma RunStepWork(s: Sys, id: TaskID, pa: Pipeline.Action, eventID: string)
    requires Enabled(s, RunStep(id, pa, eventID))
    ensures Work(Next(s, RunStep(id, pa, eventID))) + 1 == Work(s)
  {
    Pipeline.NextIsProgress(s.runs[id].pipe, pa);
    RunWorkWith(s.runs, id, s.runs[id].(pipe := Pipeline.Next(s.runs[id].pipe, pa)));
  }

  lemma WorkerWork(s: Sys, a: Action)
    requires Enabled(s, a) && OfWorker(a)
    ensures Work(Next(s, a)) + (if Working(a) then 1 else 0) <= Work(s)
  {
    match a {
      case Consume(trace) => ConsumeWork(s, trace);
      case Recorded =>
      case Finish(_) =>
      case RunStep(id, pa, eventID) => RunStepWork(s, id, pa, eventID);
    }
  }

  lemma OtherWork(s: Sys, a: Action)
    requires Enabled(s, a) && !OfRequest(a) && !OfWorker(a)
    ensures Work(Next(s, a)) == Work(s)
  {
  }

  /** Every step of the work uses some up, and only an insertion brings more. */
  lemma WorkAfter(s: Sys, a: Action)
    requires Enabled(s, a)
    ensures Work(Next(s, a)) + (if Working(a) then 1 else 0) <= Work(s) + if a.Insert? then RUN + 3 else 0
  {
    if a.Enqueue? { EnqueueWork(s, a.r); }
    else if OfRequest(a) { RequestWork(s, a); }
    else if OfWorker(a) { WorkerWork(s, a); }
    else { OtherWork(s, a); }
  }

  function WorkSteps(actions: seq<Action>): nat {
    if actions == [] then 0
    else WorkSteps(actions[..|actions| - 1]) + if Working(actions[|actions| - 1]) then 1 else 0
  }

  function Insertions(actions: seq<Action>): nat {
    if actions == [] then 0
    else Insertions(actions[..|actions| - 1]) + if actions[|actions| - 1].Insert? then 1 else 0
  }

  /** Each insertion brings at most `RUN + 3` steps of work, whatever interleaves; since a step is
      enabled until the system is quiet, finitely many requests lead to a quiet system. */
  lemma {:induction false} WorkIsFinite(states: seq<Sys>, actions: seq<Action>)
    requires IsExecution(states, actions)
    ensures WorkSteps(actions) + Work(states[|actions|]) <= (RUN + 3) * Insertions(actions)
  {
    var n := |actions|;
    if n == 0 {
      assert Unqueued(states[0].requests) == {};
    } else {
      WorkIsFinite(states[..n], actions[..n - 1]);
      LastWork(states, actions);
    }
  }

  lemma LastWork(states: seq<Sys>, actions: seq<Action>)
    requires IsExecution(states, actions) && actions != []
    ensures var n := |actions|;
      Work(states[n]) + (if Working(actions[n - 1]) then 1 else 0) <=
      Work(states[n - 1]) + if actions[n - 1].Insert? then RUN + 3 else 0
  {
    WorkAfter(states[|actions| - 1], actions[|actions| - 1]);
  }
}
