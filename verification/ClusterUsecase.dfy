/** Recording task events and projecting them onto the three task tables. */
module ClusterUsecase {
  import opened Basics
  import opened TaskModel
  import opened EventLog

  datatype Db = Db(events: seq<TaskEvent>, creates: seq<CreateRow>, inits: seq<InitRow>, updates: seq<UpdateRow>)

  datatype Table = Creates | Inits | Updates

  /** One `UpdateStatus` statement. */
  datatype Write = Write(table: Table, taskID: TaskID, status: TaskStatus)

  function Put(db: Db, w: Write): Db {
    match w.table
    case Creates => db.(creates := SetStatus(db.creates, w.taskID, w.status))
    case Inits => db.(inits := SetStatus(db.inits, w.taskID, w.status))
    case Updates => db.(updates := SetStatus(db.updates, w.taskID, w.status))
  }

  function PutAll(db: Db, ws: seq<Write>): Db
    decreases |ws|
  {
    if ws == [] then db else PutAll(Put(db, ws[0]), ws[1..])
  }

  lemma {:induction false} PutAllAppend(db: Db, a: seq<Write>, b: seq<Write>)
    ensures PutAll(db, a + b) == PutAll(PutAll(db, a), b)
    decreases |a|
  {
    if a == [] {
      assert a + b == b;
    } else {
      assert (a + b)[1..] == a[1..] + b;
      PutAllAppend(Put(db, a[0]), a[1..], b);
    }
  }

  predicate Creation(step: Step) {
    step == CreateCluster || step == InstallKubernetes
  }

  function When(condition: bool, w: Write): seq<Write> {
    if condition then [w] else []
  }

  /** The writes made for a message as it is recorded: a failure leaves the update table alone. */
  function PostWrites(taskID: TaskID, step: Step, status: Status): seq<Write> {
    When(Creation(step) && status == Success, Write(Creates, taskID, Complete)) +
    When(step == Region && status == Success, Write(Inits, taskID, Inited)) +
    When(step == UpdateKubernetes && status == Success, Write(Updates, taskID, Complete)) +
    When(status == Failure, Write(Inits, taskID, Complete)) +
    When(status == Failure, Write(Creates, taskID, Complete))
  }

  /** The writes made for a stored event when events are listed. */
  function EventWrites(e: TaskEvent): seq<Write> {
    PostWrites(e.taskID, e.step, e.status) + When(e.status == Failure, Write(Updates, e.taskID, Complete))
  }

  function ListWrites(events: seq<TaskEvent>): seq<Write> {
    if events == [] then [] else ListWrites(events[..|events| - 1]) + EventWrites(events[|events| - 1])
  }

  /** The whole effect of recording a message. */
  function Record(db: Db, taskID: TaskID, m: Message, eventID: string): Db {
    PutAll(db.(events := Upsert(db.events, EventOf(taskID, m, eventID))), PostWrites(taskID, m.step, m.status))
  }

  /** One of the first `n` events is a failure. */
  predicate FailedBefore(events: seq<TaskEvent>, n: nat)
    requires n <= |events|
  {
    n > 0 && (FailedBefore(events, n - 1) || events[n - 1].status == Failure)
  }

  /** Some stored event is a failure. */
  predicate Failed(events: seq<TaskEvent>) {
    FailedBefore(events, |events|)
  }

  lemma {:induction false} FailedAmong(events: seq<TaskEvent>, n: nat)
    requires n <= |events|
    ensures FailedBefore(events, n) <==> exists i :: 0 <= i < n && events[i].status == Failure
  {
    if n > 0 { FailedAmong(events, n - 1); }
  }

  lemma FailedIff(events: seq<TaskEvent>)
    ensures Failed(events) <==> exists e :: e in events && e.status == Failure
  {
    FailedAmong(events, |events|);
    if i :| 0 <= i < |events| && events[i].status == Failure { assert events[i] in events; }
  }

  predicate TaskExists(db: Db, taskID: TaskID) {
    HasTask(db.inits, taskID) || HasTask(db.creates, taskID) || HasTask(db.updates, taskID)
  }

  /** The status-recomputing loop of listing a task's events. */
  function Recompute(db: Db, taskID: TaskID): Db {
    if TaskExists(db, taskID) then PutAll(db, ListWrites(OfTask(db.events, taskID))) else db
  }

  function PutWhen(db: Db, condition: bool, w: Write): Db {
    if condition then Put(db, w) else db
  }

  lemma PutAllWhen(db: Db, ws: seq<Write>, condition: bool, w: Write)
    ensures PutAll(db, ws + When(condition, w)) == PutWhen(PutAll(db, ws), condition, w)
  {
    PutAllAppend(db, ws, When(condition, w));
  }

  /** The writes for a message, one conditional statement after the other. */
  function PutPost(db: Db, taskID: TaskID, step: Step, status: Status): Db {
    var d1 := PutWhen(db, Creation(step) && status == Success, Write(Creates, taskID, Complete));
    var d2 := PutWhen(d1, step == Region && status == Success, Write(Inits, taskID, Inited));
    var d3 := PutWhen(d2, step == UpdateKubernetes && status == Success, Write(Updates, taskID, Complete));
    var d4 := PutWhen(d3, status == Failure, Write(Inits, taskID, Complete));
    PutWhen(d4, status == Failure, Write(Creates, taskID, Complete))
  }

  lemma PutAllPost(db: Db, taskID: TaskID, step: Step, status: Status)
    ensures PutAll(db, PostWrites(taskID, step, status)) == PutPost(db, taskID, step, status)
  {
    var w1 := When(Creation(step) && status == Success, Write(Creates, taskID, Complete));
    var w2 := w1 + When(step == Region && status == Success, Write(Inits, taskID, Inited));
    var w3 := w2 + When(step == UpdateKubernetes && status == Success, Write(Updates, taskID, Complete));
    var w4 := w3 + When(status == Failure, Write(Inits, taskID, Complete));
    PutAllWhen(db, w4, status == Failure, Write(Creates, taskID, Complete));
    PutAllWhen(db, w3, status == Failure, Write(Inits, taskID, Complete));
    PutAllWhen(db, w2, step == UpdateKubernetes && status == Success, Write(Updates, taskID, Complete));
    PutAllWhen(db, w1, step == Region && status == Success, Write(Inits, taskID, Inited));
  }

  // ----- the operations

  datatype ServiceError = MessageIsNil | Database

  /** The statements of the recording transaction that may fail. */
  datatype Statement = InsertEvent | CreateDone | InitDone | UpdateDone | InitFailed | CreateFailed | CommitTx

  /** The statements executed for a message. */
  function Executed(m: Message): set<Statement> {
    {InsertEvent, CommitTx} +
    (if Creation(m.step) && m.status == Success then {CreateDone} else {}) +
    (if m.step == Region && m.status == Success then {InitDone} else {}) +
    (if m.step == UpdateKubernetes && m.status == Success then {UpdateDone} else {}) +
    (if m.status == Failure then {InitFailed, CreateFailed} else {})
  }

  /** What the cluster reports when the events of a failed init task are synchronised. */
  datatype RegionStatus =
    RegionStatus(operatorReady: bool, imageRepository: bool, packageReady: seq<bool>, running: bool)

  /** `getEvent`: the first event of the step, as a list of at most one ID. */
  function EventID(events: seq<TaskEvent>, step: Step): (r: seq<string>)
    ensures forall id :: id in r ==> exists e :: e in events && e.step == step && e.eventID == id
  {
    if events == [] then []
    else if events[0].step == step then assert events[0] in events; [events[0].eventID]
    else EventID(events[1..], step)
  }

  function Repeated(condition: seq<bool>, ids: seq<string>): seq<string> {
    if condition == [] then []
    else Repeated(condition[..|condition| - 1], ids) + (if condition[|condition| - 1] then ids else [])
  }

  /** The cluster shows the step to be done. */
  predicate Done(status: RegionStatus, step: Step) {
    match step
    case RegionOperator => status.operatorReady
    case RegionImageHub => status.imageRepository
    case RegionPackage => true in status.packageReady
    case Region => status.running
    case _ => false
  }

  /** Event `i` is the first of its step. */
  predicate FirstOfStep(events: seq<TaskEvent>, i: int) {
    0 <= i < |events| && forall j :: 0 <= j < i ==> events[j].step != events[i].step
  }

  lemma {:induction false} RepeatedIDs(condition: seq<bool>, ids: seq<string>, id: string)
    ensures id in Repeated(condition, ids) <==> true in condition && id in ids
  {
    if condition != [] {
      var n := |condition| - 1;
      RepeatedIDs(condition[..n], ids, id);
      assert condition == condition[..n] + [condition[n]];
    }
  }

  /** Event `i` is the first of the step and has the ID. */
  predicate FirstWithID(events: seq<TaskEvent>, step: Step, id: string, i: int) {
    FirstOfStep(events, i) && events[i].step == step && events[i].eventID == id
  }

  lemma FirstInRest(events: seq<TaskEvent>, step: Step, id: string, i: int)
    requires events != [] && events[0].step != step
    ensures FirstWithID(events[1..], step, id, i - 1) <==> FirstWithID(events, step, id, i)
  {
    var rest := events[1..];
    assert forall j :: 0 <= j < |rest| ==> rest[j] == events[j + 1];
    if FirstWithID(rest, step, id, i - 1) {
      assert forall j :: 1 <= j < i ==> events[j] == rest[j - 1];
    }
  }

  lemma {:induction false} FirstEventID(events: seq<TaskEvent>, step: Step, id: string)
    ensures id in EventID(events, step) <==> exists i :: FirstWithID(events, step, id, i)
  {
    if events != [] && events[0].step == step {
      assert EventID(events, step) == [events[0].eventID];
      assert FirstWithID(events, step, events[0].eventID, 0);
    } else if events != [] {
      FirstEventID(events[1..], step, id);
      if i :| FirstWithID(events[1..], step, id, i) { FirstInRest(events, step, id, i + 1); }
      if i :| FirstWithID(events, step, id, i) { FirstInRest(events, step, id, i); }
    }
  }

  lemma InSyncIDs(events: seq<TaskEvent>, status: RegionStatus, id: string)
    ensures id in SyncIDs(events, status) <==> exists step :: Done(status, step) && id in EventID(events, step)
  {
    RepeatedIDs(status.packageReady, EventID(events, RegionPackage), id);
    assert Done(status, RegionOperator) <==> status.operatorReady;
    assert Done(status, RegionImageHub) <==> status.imageRepository;
    assert Done(status, RegionPackage) <==> true in status.packageReady;
    assert Done(status, Region) <==> status.running;
  }

  /** The event is the first of a step that is done, and has this ID. */
  predicate ToMark(events: seq<TaskEvent>, status: RegionStatus, i: int, id: string) {
    FirstOfStep(events, i) && Done(status, events[i].step) && events[i].eventID == id
  }

  /** The IDs collected are those of the first events of the steps that are done. */
  lemma SyncedIDs(events: seq<TaskEvent>, status: RegionStatus, id: string)
    ensures id in SyncIDs(events, status) <==> exists i :: ToMark(events, status, i, id)
  {
    InSyncIDs(events, status, id);
    if step :| Done(status, step) && id in EventID(events, step) {
      FirstEventID(events, step, id);
      var i :| FirstWithID(events, step, id, i);
      assert ToMark(events, status, i, id);
    }
    if i :| ToMark(events, status, i, id) {
      assert FirstWithID(events, events[i].step, id, i);
      FirstEventID(events, events[i].step, id);
    }
  }

  lemma AllSyncedIDs(events: seq<TaskEvent>, status: RegionStatus)
    ensures forall id :: id in SyncIDs(events, status) <==> exists i :: ToMark(events, status, i, id)
  {
    forall id
      ensures id in SyncIDs(events, status) <==> exists i :: ToMark(events, status, i, id)
    {
      SyncedIDs(events, status, id);
    }
  }

  /** No two events have the same ID. */
  predicate DistinctIDs(log: seq<TaskEvent>) {
    forall i, j :: 0 <= i < j < |log| ==> log[i].eventID != log[j].eventID
  }

  /** The first event of each step that is done is successful, every other row of the table unchanged. */
  predicate MarksDoneSteps(after: seq<TaskEvent>, log: seq<TaskEvent>, taskID: TaskID, status: RegionStatus) {
    |after| == |log| &&
    forall i :: 0 <= i < |log| ==>
      after[i] ==
      if Done(status, log[i].step) && Find(log, taskID, log[i].step) == i
      then log[i].(status := Success) else log[i]
  }

  lemma {:induction false} EventIDOfTask(log: seq<TaskEvent>, taskID: TaskID, step: Step)
    ensures var i := Find(log, taskID, step);
      EventID(OfTask(log, taskID), step) == if i < |log| then [log[i].eventID] else []
  {
    if log != [] {
      EventIDOfTask(log[1..], taskID, step);
      var rest := OfTask(log[1..], taskID);
      if log[0].taskID == taskID {
        assert OfTask(log, taskID) == [log[0]] + rest && ([log[0]] + rest)[1..] == rest;
      } else {
        assert OfTask(log, taskID) == rest;
      }
    }
  }

  lemma IDOfStep(log: seq<TaskEvent>, taskID: TaskID, step: Step, i: nat)
    requires DistinctIDs(log) && i < |log|
    ensures log[i].eventID in EventID(OfTask(log, taskID), step) <==> Find(log, taskID, step) == i
  {
    EventIDOfTask(log, taskID, step);
  }

  lemma SyncedAt(log: seq<TaskEvent>, taskID: TaskID, status: RegionStatus, i: nat)
    requires DistinctIDs(log) && i < |log|
    ensures log[i].eventID in SyncIDs(OfTask(log, taskID), status) <==>
      Done(status, log[i].step) && Find(log, taskID, log[i].step) == i
  {
    var events, id := OfTask(log, taskID), log[i].eventID;
    InSyncIDs(events, status, id);
    if id in SyncIDs(events, status) {
      var step :| Done(status, step) && id in EventID(events, step);
      IDOfStep(log, taskID, step, i);
    }
    IDOfStep(log, taskID, log[i].step, i);
  }

  /** Which conditions of the cluster show which steps to be done. */
  lemma DoneIff(status: RegionStatus, step: Step)
    ensures Done(status, step) <==>
      (step == RegionOperator && status.operatorReady) || (step == RegionImageHub && status.imageRepository) ||
      (step == RegionPackage && true in status.packageReady) || (step == Region && status.running)
  {
  }

  /** What a synchronisation does to the event table. */
  lemma SyncMarksDoneSteps(log: seq<TaskEvent>, taskID: TaskID, status: RegionStatus)
    requires DistinctIDs(log)
    ensures MarksDoneSteps(MarkSucceeded(log, SyncIDs(OfTask(log, taskID), status)), log, taskID, status)
  {
    forall i | 0 <= i < |log|
      ensures log[i].eventID in SyncIDs(OfTask(log, taskID), status) <==>
        Done(status, log[i].step) && Find(log, taskID, log[i].step) == i
    {
      SyncedAt(log, taskID, status, i);
    }
  }

  /** The IDs of the events that the cluster shows to have succeeded. */
  function SyncIDs(events: seq<TaskEvent>, status: RegionStatus): seq<string> {
    (if status.operatorReady then EventID(events, RegionOperator) else []) +
    (if status.imageRepository then EventID(events, RegionImageHub) else []) +
    Repeated(status.packageReady, EventID(events, RegionPackage)) +
    (if status.running then EventID(events, Region) else [])
  }

  /** Only init tasks of self-managed clusters are synchronised; a task found in a later table is not an init task. */
  predicate Syncable(db: Db, taskID: TaskID) {
    !HasTask(db.updates, taskID) && !HasTask(db.creates, taskID) &&
    exists i :: 0 <= i < |db.inits| && db.inits[i].taskID == taskID &&
      (forall j :: 0 <= j < i ==> db.inits[j].taskID != taskID) && db.inits[i].provider in ["rke", "custom"]
  }

  // ----- listing when the database refuses statements

  /** A status write of a listing; a refused one panics, since the error logged is not the one that
      occurred, or is logged and passed over. */
  datatype Attempt = Attempt(w: Write, fatal: bool)

  /** The writes for an event, with what becomes of a refused one: at most one, or, for a failure, three. */
  function EventAttempts(e: TaskEvent): seq<Attempt> {
    if e.status == Failure then
      [Attempt(Write(Inits, e.taskID, Complete), true), Attempt(Write(Creates, e.taskID, Complete), true),
       Attempt(Write(Updates, e.taskID, Complete), true)]
    else if e.status != Success then []
    else if Creation(e.step) then [Attempt(Write(Creates, e.taskID, Complete), true)]
    else if e.step == Region then [Attempt(Write(Inits, e.taskID, Inited), false)]
    else if e.step == UpdateKubernetes then [Attempt(Write(Updates, e.taskID, Complete), false)]
    else []
  }

  function Attempts(events: seq<TaskEvent>): seq<Attempt> {
    if events == [] then [] else Attempts(events[..|events| - 1]) + EventAttempts(events[|events| - 1])
  }

  /** The attempts are those of these writes. */
  predicate Attempting(attempts: seq<Attempt>, ws: seq<Write>) {
    |attempts| == |ws| && forall i :: 0 <= i < |ws| ==> attempts[i].w == ws[i]
  }

  lemma EventAttemptsWrite(e: TaskEvent)
    ensures Attempting(EventAttempts(e), EventWrites(e))
  {
  }

  lemma {:induction false} AttemptsWrite(events: seq<TaskEvent>)
    ensures Attempting(Attempts(events), ListWrites(events))
  {
    if events != [] {
      AttemptsWrite(events[..|events| - 1]);
      EventAttemptsWrite(events[|events| - 1]);
    }
  }

  /** One of the first `n` attempts is refused and panics. */
  predicate Panics(attempts: seq<Attempt>, failing: set<nat>, n: nat) {
    exists k :: 0 <= k < n && k < |attempts| && k in failing && attempts[k].fatal
  }

  /** The writes that take effect among the first `n` attempts: those not refused, up to a panic. */
  function Carried(attempts: seq<Attempt>, failing: set<nat>, n: nat): seq<Write>
    requires n <= |attempts|
  {
    if n == 0 then []
    else
      Carried(attempts, failing, n - 1) +
      if n - 1 in failing || Panics(attempts, failing, n - 1) then [] else [attempts[n - 1].w]
  }

  lemma {:induction false} NothingRefused(attempts: seq<Attempt>, ws: seq<Write>, failing: set<nat>, n: nat)
    requires Attempting(attempts, ws)
    requires n <= |attempts| && forall k :: 0 <= k < |attempts| ==> k !in failing
    ensures Carried(attempts, failing, n) == ws[..n]
  {
    if n > 0 {
      NothingRefused(attempts, ws, failing, n - 1);
      assert ws[..n] == ws[..n - 1] + [ws[n - 1]];
    }
  }

  lemma CarriedNext(db: Db, attempts: seq<Attempt>, failing: set<nat>, n: nat)
    requires n < |attempts| && !Panics(attempts, failing, n)
    ensures PutAll(db, Carried(attempts, failing, n + 1)) ==
      if n in failing then PutAll(db, Carried(attempts, failing, n))
      else Put(PutAll(db, Carried(attempts, failing, n)), attempts[n].w)
    ensures Panics(attempts, failing, n + 1) <==> n in failing && attempts[n].fatal
  {
    var before := Carried(attempts, failing, n);
    if n !in failing {
      PutAllAppend(db, before, [attempts[n].w]);
    } else {
      assert before + [] == before;
    }
  }

  lemma {:induction false} AfterPanic(attempts: seq<Attempt>, failing: set<nat>, n: nat, m: nat)
    requires n <= m <= |attempts| && Panics(attempts, failing, n)
    ensures Carried(attempts, failing, m) == Carried(attempts, failing, n) && Panics(attempts, failing, m)
  {
    if n < m { AfterPanic(attempts, failing, n, m - 1); }
  }

  /** The first `k` attempts are made, without a panic unless it says so. */
  ghost predicate Progress(db: Db, before: Db, attempts: seq<Attempt>, refused: set<nat>, k: nat, panicked: bool) {
    k <= |attempts| && db == PutAll(before, Carried(attempts, refused, k)) && db.events == before.events &&
    (panicked <==> Panics(attempts, refused, k))
  }

  lemma PanicEnds(db: Db, before: Db, attempts: seq<Attempt>, refused: set<nat>, k: nat)
    requires Progress(db, before, attempts, refused, k, true)
    ensures Progress(db, before, attempts, refused, |attempts|, true)
  {
    AfterPanic(attempts, refused, k, |attempts|);
  }

  /** Part of the attempts, from number `k` on. */
  predicate StandAt(part: seq<Attempt>, attempts: seq<Attempt>, k: nat) {
    k + |part| <= |attempts| && forall j :: 0 <= j < |part| ==> attempts[k + j] == part[j]
  }

  lemma PrefixStands(a: seq<Attempt>, b: seq<Attempt>, all: seq<Attempt>)
    requires a + b <= all
    ensures StandAt(b, all, |a|)
  {
    forall j | 0 <= j < |b|
      ensures all[|a| + j] == b[j]
    {
      assert (a + b)[|a| + j] == b[j];
    }
  }

  /** The number of attempts for the first `i` events. */
  function AttemptCount(events: seq<TaskEvent>, i: nat): nat
    requires i <= |events|
  {
    if i == 0 then 0 else AttemptCount(events, i - 1) + |EventAttempts(events[i - 1])|
  }

  lemma {:induction false} CountIsLength(events: seq<TaskEvent>, i: nat)
    requires i <= |events|
    ensures AttemptCount(events, i) == |Attempts(events[..i])|
  {
    if i > 0 {
      CountIsLength(events, i - 1);
      AttemptsNext(events, i - 1);
    }
  }

  lemma AllAttempts(events: seq<TaskEvent>)
    ensures AttemptCount(events, |events|) == |Attempts(events)|
  {
    CountIsLength(events, |events|);
    assert events[..|events|] == events;
  }

  lemma AttemptsNext(events: seq<TaskEvent>, i: nat)
    requires i < |events|
    ensures Attempts(events[..i + 1]) == Attempts(events[..i]) + EventAttempts(events[i])
  {
    assert events[..i + 1][..i] == events[..i];
  }

  /** The attempts of event `i` follow those of the earlier ones. */
  lemma AttemptsAt(events: seq<TaskEvent>, i: nat)
    requires i < |events|
    ensures StandAt(EventAttempts(events[i]), Attempts(events), AttemptCount(events, i))
  {
    CountIsLength(events, i);
    AttemptsNext(events, i);
    AttemptsPrefix(events, i + 1);
    PrefixStands(Attempts(events[..i]), EventAttempts(events[i]), Attempts(events));
  }

  lemma {:induction false} AttemptsPrefix(events: seq<TaskEvent>, i: nat)
    requires i <= |events|
    ensures Attempts(events[..i]) <= Attempts(events)
  {
    if i < |events| {
      var init := events[..|events| - 1];
      AttemptsPrefix(init, i);
      assert init[..i] == events[..i];
    } else {
      assert events[..i] == events;
    }
  }

  /** The database refuses no status write of the listing. */
  predicate NoneRefused(db: Db, taskID: TaskID, refused: set<nat>) {
    forall k :: 0 <= k < |ListWrites(OfTask(db.events, taskID))| ==> k !in refused
  }

  /** The events after a listing that does not panic: those of the steps that are done are marked
      exactly after a stored failure of an init task of a self-managed cluster that could be queried. */
  ghost predicate EventsMarked(db: Db, after: seq<TaskEvent>, taskID: TaskID, cluster: Option<RegionStatus>,
    markFails: bool)
  {
    var events := OfTask(db.events, taskID);
    if Failed(events) && Syncable(db, taskID) && cluster.Some? && !markFails
    then
      after == MarkSucceeded(db.events, SyncIDs(events, cluster.value)) &&
      (DistinctIDs(db.events) ==> MarksDoneSteps(after, db.events, taskID, cluster.value))
    else after == db.events
  }

  /** What comes of a listing. */
  datatype Listing = Events(events: seq<TaskEvent>) | ReadError | Panic

  /** Which refused writes panic: all those after a failure, and that of the create row after a success;
      the errors of the other two writes after a success are logged as they should be. */
  lemma FatalIff(events: seq<TaskEvent>, k: nat) returns (i: nat)
    requires k < |Attempts(events)|
    ensures i < |events| && Attempts(events)[k].w.taskID == events[i].taskID
    ensures events[i].status == Failure || events[i].status == Success
    ensures Attempts(events)[k].fatal <==> events[i].status == Failure || Attempts(events)[k].w.table == Creates
  {
    var n := |events| - 1;
    if k < |Attempts(events[..n])| { i := FatalIff(events[..n], k); } else { i := n; }
  }

  /** Only the first init row of a task counts, and only for clusters that their owners manage; a task with
      a create or an update row is never synchronised. */
  lemma SyncableIff(db: Db, taskID: TaskID)
    ensures HasTask(db.updates, taskID) || HasTask(db.creates, taskID) || !HasTask(db.inits, taskID) ==>
      !Syncable(db, taskID)
    ensures forall i :: 0 <= i < |db.inits| && FirstRow(db.inits, taskID, i) ==>
      (Syncable(db, taskID) <==>
        !HasTask(db.updates, taskID) && !HasTask(db.creates, taskID) &&
        (db.inits[i].provider == "rke" || db.inits[i].provider == "custom"))
  {
    forall i | 0 <= i < |db.inits| && FirstRow(db.inits, taskID, i)
      ensures Syncable(db, taskID) <==>
        !HasTask(db.updates, taskID) && !HasTask(db.creates, taskID) &&
        (db.inits[i].provider == "rke" || db.inits[i].provider == "custom")
    {
    }
  }

  /** Row `i` is the first of the task. */
  predicate FirstRow<X>(rows: seq<TaskRow<X>>, taskID: TaskID, i: int)
    requires 0 <= i < |rows|
  {
    rows[i].taskID == taskID && forall j :: 0 <= j < i ==> rows[j].taskID != taskID
  }

  /** `WHERE task_id = ?`: the first row of the task. */
  function TakeRow<X>(rows: seq<TaskRow<X>>, taskID: TaskID): (r: Option<TaskRow<X>>)
    ensures r.None? <==> !HasTask(rows, taskID)
    ensures r.Some? ==> exists i :: 0 <= i < |rows| && FirstRow(rows, taskID, i) && rows[i] == r.value
  {
    if rows == [] then None
    else if rows[0].taskID == taskID then
      assert FirstRow(rows, taskID, 0);
      Some(rows[0])
    else
      var rest := TakeRow(rows[1..], taskID);
      assert forall j :: 1 <= j < |rows| ==> rows[j] == rows[1..][j - 1];
      assert rest.Some? ==> exists i :: 0 <= i < |rows| && FirstRow(rows, taskID, i) && rows[i] == rest.value by {
        if rest.Some? {
          var i :| 0 <= i < |rows[1..]| && FirstRow(rows[1..], taskID, i) && rows[1..][i] == rest.value;
          assert FirstRow(rows, taskID, i + 1);
        }
      }
      rest
  }

  datatype TaskType = OfInit | OfCreate | OfUpdate

  datatype ClusterTask = ClusterTask(kind: TaskType, provider: string)

  /** The effect of listing the events of a task; `cluster` is what the cluster reports, if it can be queried. */
  function Listed(db: Db, taskID: TaskID, cluster: Option<RegionStatus>): Db {
    var events := if TaskExists(db, taskID) then OfTask(db.events, taskID) else [];
    var after := Recompute(db, taskID);
    if Failed(events) && Syncable(db, taskID) && cluster.Some?
    then after.(events := MarkSucceeded(db.events, SyncIDs(events, cluster.value)))
    else after
  }

  lemma ListedIfNoneRefused(db: Db, taskID: TaskID, refused: set<nat>)
    requires NoneRefused(db, taskID, refused)
    ensures var attempts := Attempts(OfTask(db.events, taskID));
      Carried(attempts, refused, |attempts|) == ListWrites(OfTask(db.events, taskID)) &&
      !Panics(attempts, refused, |attempts|)
  {
    var attempts, ws := Attempts(OfTask(db.events, taskID)), ListWrites(OfTask(db.events, taskID));
    AttemptsWrite(OfTask(db.events, taskID));
    NothingRefused(attempts, ws, refused, |ws|);
    assert ws[..|ws|] == ws;
  }

  class Service {
    var db: Db

    constructor (db: Db)
      ensures this.db == db
    {
      this.db := db;
    }

    /** Records a message in one transaction; `failing` says which statements the database refuses. */
    method CreateTaskEvent(em: EventMessage, freshID: string, failing: set<Statement>)
      returns (result: Result<TaskEvent, ServiceError>)
      modifies this
      ensures result.Ok? <==> em.message.Some? && Executed(em.message.value) !! failing
      ensures em.message.Some? ==>
        (var m := em.message.value;
         result.Ok? <==>
           InsertEvent !in failing && CommitTx !in failing &&
           (m.status == Success && (m.step == CreateCluster || m.step == InstallKubernetes) ==>
             CreateDone !in failing) &&
           (m.status == Success && m.step == Region ==> InitDone !in failing) &&
           (m.status == Success && m.step == UpdateKubernetes ==> UpdateDone !in failing) &&
           (m.status == Failure ==> InitFailed !in failing && CreateFailed !in failing))
      ensures result.Err? ==> db == old(db)
      ensures result.Ok? ==>
        (var e, m := result.value, em.message.value;
         e.taskID == em.taskID && e.step == m.step && e.status == m.status &&
         e.text <= m.text && |e.text| == (if |m.text| > 512 then 512 else |m.text|) &&
         e.reason == if Contains(m.text, "namespace wt-system because it is being terminated")
           then "NamespaceBeingTerminated" else "")
      ensures result.Ok? ==>
        result.value == EventOf(em.taskID, em.message.value, result.value.eventID) &&
        db == Record(old(db), em.taskID, em.message.value, freshID)
    {
      if em.message.None? {
        return Err(MessageIsNil);
      }
      var m := em.message.value;
      var tx := db;
      var repo := new TaskEventRepo(tx.events);
      var reason := Reason(m.text);
      if InsertEvent in failing { return Err(Database); }
      var stored := repo.Create(TaskEvent(em.taskID, m.step, m.text, m.status, "", reason), freshID);
      UpsertIgnoresID(tx.events, em.taskID, m, stored.eventID, freshID);
      tx := tx.(events := repo.rows);
      var projected;
      projected, tx := Project(tx, em.taskID, m, failing);
      if !projected { return Err(Database); }
      if CommitTx in failing { return Err(Database); }
      db := tx;
      return Ok(stored);
    }

    /** The status statements of the recording transaction. */
    method Project(before: Db, taskID: TaskID, m: Message, failing: set<Statement>) returns (ok: bool, tx: Db)
      ensures ok <==> Executed(m) - {InsertEvent, CommitTx} !! failing
      ensures ok ==> tx == PutAll(before, PostWrites(taskID, m.step, m.status))
    {
      tx := before;
      PutAllPost(tx, taskID, m.step, m.status);
      if Creation(m.step) && m.status == Success {
        if CreateDone in failing { return false, tx; }
        tx := Put(tx, Write(Creates, taskID, Complete));
      }
      if m.step == Region && m.status == Success {
        if InitDone in failing { return false, tx; }
        tx := Put(tx, Write(Inits, taskID, Inited));
      }
      if m.step == UpdateKubernetes && m.status == Success {
        if UpdateDone in failing { return false, tx; }
        tx := Put(tx, Write(Updates, taskID, Complete));
      }
      if m.status == Failure {
        if InitFailed in failing { return false, tx; }
        tx := Put(tx, Write(Inits, taskID, Complete));
        if CreateFailed in failing { return false, tx; }
        tx := Put(tx, Write(Creates, taskID, Complete));
      }
      return true, tx;
    }

    method UpdateStatus(table: Table, taskID: TaskID, status: TaskStatus)
      modifies this
      ensures db == Put(old(db), Write(table, taskID, status))
    {
      db := Put(db, Write(table, taskID, status));
    }

    /** The task, looked up in the three tables; the last table in which it is found says its type. */
    method GetTask(taskID: TaskID) returns (task: Option<ClusterTask>)
      ensures task.Some? <==> TaskExists(db, taskID)
      ensures task.Some? ==>
        (task.value.kind == OfUpdate <==> HasTask(db.updates, taskID)) &&
        (task.value.kind == OfInit <==> !HasTask(db.updates, taskID) && !HasTask(db.creates, taskID))
      ensures Syncable(db, taskID) <==>
        task.Some? && task.value.kind == OfInit && (task.value.provider == "rke" || task.value.provider == "custom")
    {
      SyncableIff(db, taskID);
      task := None;
      var initTask := TakeRow(db.inits, taskID);
      if initTask.Some? {
        task := Some(ClusterTask(OfInit, initTask.value.provider));
      }
      var createTask := TakeRow(db.creates, taskID);
      if createTask.Some? {
        task := Some(ClusterTask(OfCreate, createTask.value.provider));
      }
      var updateTask := TakeRow(db.updates, taskID);
      if updateTask.Some? {
        task := Some(ClusterTask(OfUpdate, updateTask.value.provider));
      }
    }

    /** Lists the events of a task, rewriting its task rows from them and, after a failure, the events
        from the cluster. `refused` holds the status writes, by their number, that the database refuses;
        `readFails` and `markFails` say whether a read or the batch update fails. */
    method ListTaskEvent(taskID: TaskID, cluster: Option<RegionStatus>, refused: set<nat>, readFails: bool,
      markFails: bool)
      returns (listing: Listing)
      modifies this
      ensures listing == ReadError <==> readFails
      ensures readFails ==> db == old(db)
      ensures var events := if TaskExists(old(db), taskID) then OfTask(old(db).events, taskID) else [];
        !readFails ==>
          ((listing == Panic <==> Panics(Attempts(events), refused, |Attempts(events)|)) &&
           db.(events := old(db).events) == PutAll(old(db), Carried(Attempts(events), refused, |Attempts(events)|)) &&
           (listing == Panic ==> db.events == old(db).events) &&
           (listing != Panic ==>
             (listing == Events(events) && EventsMarked(old(db), db.events, taskID, cluster, markFails))))
      ensures db.events == old(db).events ||
        (cluster.Some? && !markFails && !HasTask(old(db).updates, taskID) && !HasTask(old(db).creates, taskID) &&
         exists e :: e in old(db).events && e.taskID == taskID && e.status == Failure)
      ensures !readFails && !markFails && NoneRefused(old(db), taskID, refused) ==>
        listing.Events? && db == Listed(old(db), taskID, cluster)
    {
      if readFails {
        return ReadError;
      }
      ghost var before := db;
      var task := GetTask(taskID);
      if task.None? {
        return Events([]);
      }
      var events := OfTask(db.events, taskID);
      var needSync, panicked := RecomputeStatuses(events, refused);
      if NoneRefused(before, taskID, refused) { ListedIfNoneRefused(before, taskID, refused); }
      if panicked {
        return Panic;
      }
      var syncable := task.value.kind == OfInit && (task.value.provider == "rke" || task.value.provider == "custom");
      if needSync && syncable && cluster.Some? && !markFails {
        FailedIff(events);
        MarkEvents(events, cluster.value);
        if DistinctIDs(before.events) { SyncMarksDoneSteps(before.events, taskID, cluster.value); }
      }
      assert EventsMarked(before, db.events, taskID, cluster, markFails);
      return Events(events);
    }

    /** Marks the events that the cluster shows to have succeeded. */
    method MarkEvents(events: seq<TaskEvent>, status: RegionStatus)
      modifies this
      ensures db == old(db).(events := MarkSucceeded(old(db).events, SyncIDs(events, status)))
    {
      var ids := SyncTaskEvents(events, status);
      var repo := new TaskEventRepo(db.events);
      repo.UpdateStatusInBatch(ids);
      assert repo.rows == MarkSucceeded(db.events, ids);
      db := db.(events := repo.rows);
    }

    /** One status write; `refused` says of its number whether the database refuses it. */
    method TryUpdate(a: Attempt, refused: set<nat>, k: nat, ghost before: Db, ghost attempts: seq<Attempt>)
      returns (panicked: bool)
      requires k < |attempts| && attempts[k] == a && Progress(db, before, attempts, refused, k, false)
      modifies this
      ensures Progress(db, before, attempts, refused, k + 1, panicked)
    {
      CarriedNext(before, attempts, refused, k);
      if k in refused {
        return a.fatal;
      }
      UpdateStatus(a.w.table, a.w.taskID, a.w.status);
      return false;
    }

    /** Projects one stored event again; a failure completes the rows of all three tables. */
    method Replay(e: TaskEvent, refused: set<nat>, k: nat, ghost before: Db, ghost attempts: seq<Attempt>)
      returns (failure: bool, panicked: bool, next: nat)
      requires StandAt(EventAttempts(e), attempts, k) && Progress(db, before, attempts, refused, k, false)
      modifies this
      ensures Progress(db, before, attempts, refused, k + |EventAttempts(e)|, panicked)
      ensures !panicked ==> next == k + |EventAttempts(e)|
      ensures failure <==> e.status == Failure
    {
      ghost var own := EventAttempts(e);
      assert own != [] ==> attempts[k] == own[0];
      assert |own| == 3 ==> attempts[k + 1] == own[1] && attempts[k + 2] == own[2];
      failure, panicked, next := false, false, k;
      if Creation(e.step) && e.status == Success {
        panicked := TryUpdate(Attempt(Write(Creates, e.taskID, Complete), true), refused, k, before, attempts);
        next := k + 1;
      }
      if e.step == Region && e.status == Success {
        panicked := TryUpdate(Attempt(Write(Inits, e.taskID, Inited), false), refused, k, before, attempts);
        next := k + 1;
      }
      if e.step == UpdateKubernetes && e.status == Success {
        panicked := TryUpdate(Attempt(Write(Updates, e.taskID, Complete), false), refused, k, before, attempts);
        next := k + 1;
      }
      if e.status == Failure {
        failure := true;
        panicked, next := ReplayFailure(e, refused, k, before, attempts);
      }
    }

    /** The same, as part of a listing: a panic ends it. */
    method ReplayNext(e: TaskEvent, refused: set<nat>, k: nat, ghost before: Db, ghost attempts: seq<Attempt>)
      returns (failure: bool, panicked: bool, next: nat)
      requires StandAt(EventAttempts(e), attempts, k) && Progress(db, before, attempts, refused, k, false)
      modifies this
      ensures panicked ==> Progress(db, before, attempts, refused, |attempts|, true)
      ensures !panicked ==> next == k + |EventAttempts(e)| && Progress(db, before, attempts, refused, next, false)
      ensures failure <==> e.status == Failure
    {
      failure, panicked, next := Replay(e, refused, k, before, attempts);
      if panicked { PanicEnds(db, before, attempts, refused, k + |EventAttempts(e)|); }
    }

    method ReplayFailure(e: TaskEvent, refused: set<nat>, k: nat, ghost before: Db, ghost attempts: seq<Attempt>)
      returns (panicked: bool, next: nat)
      requires k + 3 <= |attempts| && Progress(db, before, attempts, refused, k, false)
      requires attempts[k] == Attempt(Write(Inits, e.taskID, Complete), true)
      requires attempts[k + 1] == Attempt(Write(Creates, e.taskID, Complete), true)
      requires attempts[k + 2] == Attempt(Write(Updates, e.taskID, Complete), true)
      modifies this
      ensures Progress(db, before, attempts, refused, k + 3, panicked)
      ensures !panicked ==> next == k + 3
    {
      next := k + 3;
      panicked := TryUpdate(Attempt(Write(Inits, e.taskID, Complete), true), refused, k, before, attempts);
      if panicked {
        AfterPanic(attempts, refused, k + 1, k + 3);
        return;
      }
      panicked := TryUpdate(Attempt(Write(Creates, e.taskID, Complete), true), refused, k + 1, before, attempts);
      if panicked {
        AfterPanic(attempts, refused, k + 2, k + 3);
        return;
      }
      panicked := TryUpdate(Attempt(Write(Updates, e.taskID, Complete), true), refused, k + 2, before, attempts);
    }

    /** The loop of listing: every stored event is projected again, a failure onto all three tables. */
    method RecomputeStatuses(events: seq<TaskEvent>, refused: set<nat>) returns (needSync: bool, panicked: bool)
      modifies this
      ensures Progress(db, old(db), Attempts(events), refused, |Attempts(events)|, panicked)
      ensures !panicked ==> (needSync <==> FailedBefore(events, |events|))
    {
      needSync, panicked := false, false;
      ghost var before, attempts := db, Attempts(events);
      AllAttempts(events);
      var i, k := 0, 0;
      while i < |events|
        invariant 0 <= i <= |events| && k == AttemptCount(events, i)
        invariant Progress(db, before, attempts, refused, k, false)
        invariant needSync <==> FailedBefore(events, i)
      {
        var failure;
        AttemptsAt(events, i);
        failure, panicked, k := ReplayNext(events[i], refused, k, before, attempts);
        needSync := needSync || failure;
        if panicked {
          return;
        }
        i := i + 1;
      }
    }

    /** The IDs of the events to mark as succeeded: those of the first event of each step that is done. */
    method SyncTaskEvents(events: seq<TaskEvent>, status: RegionStatus) returns (updates: seq<string>)
      ensures forall id :: id in updates <==> exists i :: ToMark(events, status, i, id)
      ensures forall i :: FirstOfStep(events, i) ==>
        (events[i].step == RegionOperator && status.operatorReady ==> events[i].eventID in updates) &&
        (events[i].step == RegionImageHub && status.imageRepository ==> events[i].eventID in updates) &&
        (events[i].step == RegionPackage && true in status.packageReady ==> events[i].eventID in updates) &&
        (events[i].step == Region && status.running ==> events[i].eventID in updates)
      ensures updates == SyncIDs(events, status)
    {
      updates := [];
      if status.operatorReady {
        updates := updates + EventID(events, RegionOperator);
      }
      if status.imageRepository {
        updates := updates + EventID(events, RegionImageHub);
      }
      var package := ReadyPackages(status.packageReady, EventID(events, RegionPackage));
      updates := updates + package;
      if status.running {
        updates := updates + EventID(events, Region);
      }
      assert updates == SyncIDs(events, status);
      AllSyncedIDs(events, status);
      forall i | FirstOfStep(events, i) && Done(status, events[i].step)
        ensures events[i].eventID in updates
      {
        assert ToMark(events, status, i, events[i].eventID);
      }
    }

    /** The loop over the conditions of the package. */
    method ReadyPackages(ready: seq<bool>, ids: seq<string>) returns (package: seq<string>)
      ensures package == Repeated(ready, ids)
      ensures forall id :: id in package <==> true in ready && id in ids
    {
      package := [];
      var i := 0;
      while i < |ready|
        invariant 0 <= i <= |ready|
        invariant package == Repeated(ready[..i], ids)
      {
        assert ready[..i + 1][..i] == ready[..i];
        if ready[i] {
          package := package + ids;
        }
        i := i + 1;
      }
      assert ready[..|ready|] == ready;
      forall id { RepeatedIDs(ready, ids, id); }
    }
  }

  /** The ID only matters for a new row, where it is the fresh one. */
  lemma UpsertIgnoresID(log: seq<TaskEvent>, taskID: TaskID, m: Message, stored: string, freshID: string)
    requires stored == if Find(log, taskID, m.step) == |log| then freshID else ""
    ensures Upsert(log, EventOf(taskID, m, stored)) == Upsert(log, EventOf(taskID, m, freshID))
  {
    UpsertAt(log, EventOf(taskID, m, stored));
    UpsertAt(log, EventOf(taskID, m, freshID));
  }
}
