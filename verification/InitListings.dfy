/** Listings of a finished init run, write by write and overlapping as they may, with the
    synchronisation at the end of a listing and other writers of the row: what the row ends with. */
module InitListings {
  import opened Basics
  import opened TaskModel
  import opened EventLog
  import opened ClusterUsecase
  import opened TaskHistory
  import opened InitRegion

  /** A listing under way: the events it has read, and the status writes it has still to make. */
  datatype Open = Open(read: seq<TaskEvent>, pending: seq<Write>)

  datatype Sys = Sys(db: Db, open: map<nat, Open>)

  /** The steps of listings of one task, and what others do. */
  datatype Action = Begin(l: nat) | Step(l: nat) | End(l: nat, cluster: Option<RegionStatus>) | Other(op: DbOp)

  /** The run is over, so nothing is posted for the task any more, and no one else marks its events. */
  predicate Enabled(s: Sys, id: TaskID, a: Action) {
    match a
    case Begin(l) => l !in s.open && TaskExists(s.db, id)
    case Step(l) => l in s.open && s.open[l].pending != []
    case End(l, _) => l in s.open && s.open[l].pending == []
    case Other(Posted(t, _, _)) => t != id
    case Other(Wrote(_)) => true
    case Other(Marked(ids)) => Spares(s.db.events, ids, id)
  }

  function Next(s: Sys, id: TaskID, a: Action): Sys
    requires Enabled(s, id, a)
  {
    match a
    case Begin(l) =>
      var own := OfTask(s.db.events, id);
      s.(open := s.open[l := Open(own, ListWrites(own))])
    case Step(l) =>
      var o := s.open[l];
      Sys(Put(s.db, o.pending[0]), s.open[l := o.(pending := o.pending[1..])])
    case End(l, cluster) =>
      Sys(s.db.(events := EndLog(s.db.events, s.open[l].read, Syncable(s.db, id), cluster)), s.open - {l})
    case Other(op) => s.(db := Step1(s.db, op))
  }

  ghost predicate IsExecution(id: TaskID, states: seq<Sys>, actions: seq<Action>) {
    |states| == |actions| + 1 && states[0].open == map[] &&
    forall i :: 0 <= i < |actions| ==>
      Enabled(states[i], id, actions[i]) && states[i + 1] == Next(states[i], id, actions[i])
  }

  /** A listing ends, having seen the region running. */
  predicate SeesRunning(a: Action) {
    a.End? && a.cluster.Some? && a.cluster.value.running
  }

  predicate SawRunning(actions: seq<Action>) {
    exists i :: 0 <= i < |actions| && SeesRunning(actions[i])
  }

  // ----- the stored events of the run

  /** The status of the stored region event, which is the last, if there is one; event IDs are distinct. */
  predicate Shape(own: seq<TaskEvent>, id: TaskID, region: Option<Status>) {
    (forall i :: 0 <= i < |own| ==> own[i].taskID == id) && DistinctIDs(own) &&
    (forall i :: 0 <= i < |own| - 1 ==> own[i].step != Region) &&
    if region.Some?
    then own != [] && own[|own| - 1].step == Region && own[|own| - 1].status == region.value
    else own != [] ==> own[|own| - 1].step != Region
  }

  /** How the run left its region event. */
  function RegionOf(ms: seq<Message>): Option<Status>
    requires ms != []
  {
    if ms[|ms| - 1].step == Region then Some(ms[|ms| - 1].status) else None
  }

  lemma RunLeavesShape(log: seq<TaskEvent>, id: TaskID, ms: seq<Message>)
    requires View(log, id) == Rows(ms) && Stops(ms) && DistinctIDs(OfTask(log, id))
    ensures Shape(OfTask(log, id), id, RegionOf(ms))
  {
    var own, rows := OfTask(log, id), Rows(ms);
    ViewListsEvents(log, id);
    OwnIDs(log, id);
    forall i | 0 <= i < |own| && own[i].step == Region
      ensures RegionOf(ms).Some? && i == |own| - 1 && own[i].status == RegionOf(ms).value
    {
      RegionRowIsLast(ms, i);
    }
    if RegionOf(ms).Some? {
      RegionIsFirstAtEnd(ms);
      LastStepHasLastRow(ms);
    }
  }

  lemma OwnIDs(log: seq<TaskEvent>, id: TaskID)
    ensures forall i :: 0 <= i < |OfTask(log, id)| ==> OfTask(log, id)[i].taskID == id
  {
    forall i | 0 <= i < |OfTask(log, id)|
      ensures OfTask(log, id)[i].taskID == id
    {
      assert OfTask(log, id)[i] in OfTask(log, id);
    }
  }

  lemma RegionComesLast(ms: seq<Message>)
    requires Stops(ms) && First(ms, Region) < |ms|
    ensures ms[|ms| - 1].step == Region && First(ms, Region) == |ms| - 1
  {
    assert forall j :: 0 <= j < |ms| - 1 ==> ms[j] == ms[..|ms| - 1][j];
  }

  /** A region row comes from the last message and is the last row. */
  lemma RegionRowIsLast(ms: seq<Message>, i: nat)
    requires Stops(ms) && i < |Rows(ms)| && Rows(ms)[i].step == Region
    ensures ms[|ms| - 1].step == Region && i == |Rows(ms)| - 1 && Rows(ms)[i].status == ms[|ms| - 1].status
  {
    var rows := Rows(ms);
    RowsSummariseMessages(ms);
    DecidedOccurs(rows[i], ms);
    RegionComesLast(ms);
    LastStepHasLastRow(ms);
    OnlyRow(rows, ms, i);
    OnlyRow(rows, ms, |rows| - 1);
  }

  // ----- what a listing reads and writes

  lemma ShapeWrites(own: seq<TaskEvent>, id: TaskID, region: Option<Status>)
    requires Shape(own, id, region)
    ensures var last := LastWrite(ListWrites(own), Inits, id);
      if region == Some(Success) then last == Some(Inited) else last.Some? ==> last.value == Complete
  {
    if region == Some(Success) {
      LastEventWritesLast(ListWrites(own[..|own| - 1]), own[|own| - 1]);
    } else {
      UnfinishedWritesComplete(own, id, region);
    }
  }

  lemma UnfinishedWritesComplete(own: seq<TaskEvent>, id: TaskID, region: Option<Status>)
    requires Shape(own, id, region) && region != Some(Success)
    ensures var last := LastWrite(ListWrites(own), Inits, id);
      last.Some? ==> last.value == Complete
  {
    var ws := ListWrites(own);
    LastWriteIsWritten(ws, Inits, id);
    if LastWrite(ws, Inits, id).Some? {
      var w := Write(Inits, id, LastWrite(ws, Inits, id).value);
      var e := ListWriteFrom(own, w);
      InitWriteOf(e, w);
      var i :| 0 <= i < |own| && own[i] == e;
    }
  }

  /** The status of the region event after a listing. */
  function AfterMark(region: Option<Status>, running: bool): Option<Status> {
    if region.Some? && running then Some(Success) else region
  }

  /** The region event is marked exactly if the region is running. */
  lemma RegionIsMarkedIff(own: seq<TaskEvent>, id: TaskID, region: Option<Status>, status: RegionStatus)
    requires Shape(own, id, region) && region.Some?
    ensures own[|own| - 1].eventID in SyncIDs(own, status) <==> status.running
  {
    var n := |own| - 1;
    SyncedIDs(own, status, own[n].eventID);
    assert FirstOfStep(own, n);
    assert status.running ==> ToMark(own, status, n, own[n].eventID);
  }

  lemma ShapeMark(own: seq<TaskEvent>, id: TaskID, region: Option<Status>, status: RegionStatus)
    requires Shape(own, id, region)
    ensures Shape(MarkSucceeded(own, SyncIDs(own, status)), id, AfterMark(region, status.running))
  {
    if region.Some? { RegionIsMarkedIff(own, id, region, status); }
  }

  lemma FailedRegionFails(own: seq<TaskEvent>, id: TaskID)
    requires Shape(own, id, Some(Failure))
    ensures Failed(own)
  {
    FailedIff(own);
    assert own[|own| - 1] in own;
  }

  // ----- which events are the run's own

  lemma {:induction false} OfTaskUpsert(log: seq<TaskEvent>, e: TaskEvent, id: TaskID)
    requires e.taskID != id
    ensures OfTask(Upsert(log, e), id) == OfTask(log, id)
  {
    if log != [] {
      OfTaskUpsert(log[1..], e, id);
      var after := Upsert(log, e);
      if Matches(log[0], e.taskID, e.step) {
        assert after[1..] == log[1..];
      } else {
        assert after[1..] == Upsert(log[1..], e);
      }
    }
  }

  lemma MarkFirst(e: TaskEvent, rest: seq<TaskEvent>, ids: seq<string>)
    ensures MarkSucceeded([e] + rest, ids) == MarkSucceeded([e], ids) + MarkSucceeded(rest, ids)
  {
  }

  lemma {:induction false} OfTaskMark(log: seq<TaskEvent>, ids: seq<string>, id: TaskID)
    ensures OfTask(MarkSucceeded(log, ids), id) == MarkSucceeded(OfTask(log, id), ids)
  {
    if log == [] {
      assert MarkSucceeded([], ids) == [];
    } else {
      var rest, after := log[1..], MarkSucceeded(log, ids);
      OfTaskMark(rest, ids, id);
      assert after[1..] == MarkSucceeded(rest, ids);
      if log[0].taskID == id {
        MarkFirst(log[0], OfTask(rest, id), ids);
        assert MarkSucceeded([log[0]], ids) == [after[0]];
      } else {
        assert OfTask(log, id) == OfTask(rest, id);
        assert OfTask(after, id) == OfTask(after[1..], id);
      }
    }
  }

  lemma SparedEventsStay(log: seq<TaskEvent>, ids: seq<string>, id: TaskID)
    requires Spares(log, ids, id)
    ensures OfTask(MarkSucceeded(log, ids), id) == OfTask(log, id)
  {
    OfTaskMark(log, ids, id);
    var own := OfTask(log, id);
    forall i | 0 <= i < |own|
      ensures own[i].eventID !in ids
    {
      assert own[i] in own;
      var k :| 0 <= k < |log| && log[k] == own[i];
    }
    assert MarkSucceeded(own, ids) == own;
  }

  // ----- what stays the same

  /** The same tasks are in the tables, by the same providers. */
  predicate SameTasks(db: Db, after: Db) {
    SameKeys(db.creates, after.creates) && SameKeys(db.inits, after.inits) && SameKeys(db.updates, after.updates)
  }

  predicate SameKeys<X>(rows: seq<TaskRow<X>>, after: seq<TaskRow<X>>) {
    |after| == |rows| &&
    forall i :: 0 <= i < |rows| ==> after[i].taskID == rows[i].taskID && after[i].provider == rows[i].provider
  }

  lemma PutAllKeepsTasks(db: Db, ws: seq<Write>)
    ensures SameTasks(db, PutAll(db, ws))
  {
    PutAllRewrites(db, ws);
  }

  lemma SameKeysHave<X>(rows: seq<TaskRow<X>>, after: seq<TaskRow<X>>, id: TaskID)
    requires SameKeys(rows, after)
    ensures HasTask(rows, id) <==> HasTask(after, id)
  {
    if i :| 0 <= i < |rows| && rows[i].taskID == id { assert after[i].taskID == id; }
    if i :| 0 <= i < |rows| && after[i].taskID == id { assert rows[i].taskID == id; }
  }

  /** The first row of the task is one of a self-managed cluster. */
  predicate FirstIsOwn(rows: seq<InitRow>, id: TaskID, i: int) {
    0 <= i < |rows| && rows[i].taskID == id && (forall j :: 0 <= j < i ==> rows[j].taskID != id) &&
    rows[i].provider in ["rke", "custom"]
  }

  lemma SameTasksSync(db: Db, after: Db, id: TaskID)
    requires SameTasks(db, after)
    ensures Syncable(db, id) == Syncable(after, id) && TaskExists(db, id) == TaskExists(after, id)
  {
    SameKeysHave(db.creates, after.creates, id);
    SameKeysHave(db.inits, after.inits, id);
    SameKeysHave(db.updates, after.updates, id);
    if i :| FirstIsOwn(db.inits, id, i) { assert FirstIsOwn(after.inits, id, i); }
    if i :| FirstIsOwn(after.inits, id, i) { assert FirstIsOwn(db.inits, id, i); }
  }

  lemma Step1KeepsTasks(db: Db, op: DbOp)
    ensures SameTasks(db, Step1(db, op))
  {
    match op {
      case Posted(t, m, freshID) =>
        PutAllKeepsTasks(db.(events := Upsert(db.events, EventOf(t, m, freshID))), PostWrites(t, m.step, m.status));
      case Wrote(w) =>
      case Marked(_) =>
    }
  }

  // ----- what a listing does

  function RegionIn(own: seq<TaskEvent>): Option<Status> {
    if own != [] && own[|own| - 1].step == Region then Some(own[|own| - 1].status) else None
  }

  /** The status that a listing of these events leaves in the row. */
  function FinalOf(read: seq<TaskEvent>): TaskStatus {
    if RegionIn(read) == Some(Success) then Inited else Complete
  }

  /** The same events up to their statuses. */
  predicate SameIDs(a: seq<TaskEvent>, b: seq<TaskEvent>) {
    |a| == |b| && forall i :: 0 <= i < |a| ==> a[i].eventID == b[i].eventID && a[i].step == b[i].step
  }

  lemma {:induction false} SameEventID(a: seq<TaskEvent>, b: seq<TaskEvent>, step: Step)
    requires SameIDs(a, b)
    ensures EventID(a, step) == EventID(b, step)
  {
    if a != [] && a[0].step != step { SameEventID(a[1..], b[1..], step); }
  }

  lemma SameSyncIDs(a: seq<TaskEvent>, b: seq<TaskEvent>, status: RegionStatus)
    requires SameIDs(a, b)
    ensures SyncIDs(a, status) == SyncIDs(b, status)
  {
    SameEventID(a, b, RegionOperator);
    SameEventID(a, b, RegionImageHub);
    SameEventID(a, b, RegionPackage);
    SameEventID(a, b, Region);
  }

  /** The region event after a synchronisation, which turns it if the region is seen running. */
  function TurnedBy(region: Option<Status>, turns: bool): Option<Status> {
    if region == Some(Failure) && turns then Some(Success) else region
  }

  /** The run failed while it waited for the region, and a synchronisation may mark that event. */
  predicate Exposed(db: Db, id: TaskID, ms: seq<Message>)
    requires ms != []
  {
    RegionOf(ms) == Some(Failure) && Syncable(db, id)
  }

  /** The region event after the actions, if the run left it so. */
  function RegionAfter(ms: seq<Message>, exposed: bool, actions: seq<Action>): Option<Status>
    requires ms != []
  {
    if exposed && SawRunning(actions) then Some(Success) else RegionOf(ms)
  }

  /** What the listing has read is what is stored, or was stored before the region event was marked;
      its last write to the row is still that of all it read. */
  predicate GoodOpen(o: Open, id: TaskID, ms: seq<Message>, own: seq<TaskEvent>, region: Option<Status>)
    requires ms != []
  {
    Shape(o.read, id, RegionIn(o.read)) && SameIDs(o.read, own) &&
    (RegionIn(o.read) == RegionOf(ms) || RegionIn(o.read) == Some(Success)) &&
    (RegionIn(o.read) == Some(Success) ==> region == Some(Success)) &&
    (forall i :: 0 <= i < |o.pending| ==> o.pending[i].taskID == id) &&
    (LastWrite(o.pending, Inits, id).Some? ==> LastWrite(o.pending, Inits, id) == Some(FinalOf(o.read)))
  }

  predicate AllGood(s: Sys, id: TaskID, ms: seq<Message>, region: Option<Status>)
    requires ms != []
  {
    forall l :: l in s.open ==> GoodOpen(s.open[l], id, ms, OfTask(s.db.events, id), region)
  }

  /** The stored events and the open listings, with the tasks of the start `db`. */
  predicate Inv(db: Db, s: Sys, id: TaskID, ms: seq<Message>, region: Option<Status>)
    requires ms != []
  {
    SameTasks(db, s.db) && Shape(OfTask(s.db.events, id), id, region) &&
    (region == RegionOf(ms) || region == Some(Success)) && AllGood(s, id, ms, region)
  }

  lemma ShapeIsOf(own: seq<TaskEvent>, id: TaskID, region: Option<Status>)
    requires Shape(own, id, region)
    ensures RegionIn(own) == region
  {
  }

  lemma {:induction false} OwnWrites(own: seq<TaskEvent>, id: TaskID)
    requires forall i :: 0 <= i < |own| ==> own[i].taskID == id
    ensures forall i :: 0 <= i < |ListWrites(own)| ==> ListWrites(own)[i].taskID == id
  {
    forall i | 0 <= i < |ListWrites(own)|
      ensures ListWrites(own)[i].taskID == id
    {
      var e := ListWriteFrom(own, ListWrites(own)[i]);
      EventWritesOwn(e);
    }
  }

  lemma EventWritesOwn(e: TaskEvent)
    ensures forall i :: 0 <= i < |EventWrites(e)| ==> EventWrites(e)[i].taskID == e.taskID
  {
  }

  lemma BegunIsGood(own: seq<TaskEvent>, id: TaskID, ms: seq<Message>, region: Option<Status>)
    requires ms != [] && Shape(own, id, region) && (region == RegionOf(ms) || region == Some(Success))
    ensures GoodOpen(Open(own, ListWrites(own)), id, ms, own, region)
  {
    ShapeIsOf(own, id, region);
    ShapeWrites(own, id, region);
    OwnWrites(own, id);
  }

  lemma BeginKeepsInv(db: Db, s: Sys, id: TaskID, ms: seq<Message>, region: Option<Status>, l: nat)
    requires ms != [] && Inv(db, s, id, ms, region) && Enabled(s, id, Begin(l))
    ensures Inv(db, Next(s, id, Begin(l)), id, ms, region)
  {
    BegunIsGood(OfTask(s.db.events, id), id, ms, region);
  }

  lemma PutKeepsTasks(db: Db, w: Write)
    ensures SameTasks(db, Put(db, w)) && Put(db, w).events == db.events
  {
  }

  lemma SteppedIsGood(o: Open, id: TaskID, ms: seq<Message>, own: seq<TaskEvent>, region: Option<Status>)
    requires ms != [] && GoodOpen(o, id, ms, own, region) && o.pending != []
    ensures GoodOpen(o.(pending := o.pending[1..]), id, ms, own, region)
  {
  }

  lemma StepKeepsInv(db: Db, s: Sys, id: TaskID, ms: seq<Message>, region: Option<Status>, l: nat)
    requires ms != [] && Inv(db, s, id, ms, region) && Enabled(s, id, Step(l))
    ensures Inv(db, Next(s, id, Step(l)), id, ms, region)
  {
    var t, own := Next(s, id, Step(l)), OfTask(s.db.events, id);
    PutKeepsTasks(s.db, s.open[l].pending[0]);
    SameTasksOn(db, s.db, t.db);
    forall k | k in t.open
      ensures GoodOpen(t.open[k], id, ms, own, region)
    {
      if k == l { SteppedIsGood(s.open[l], id, ms, own, region); }
    }
  }

  lemma SameTasksOn(a: Db, b: Db, c: Db)
    requires SameTasks(a, b) && SameTasks(b, c)
    ensures SameTasks(a, c)
  {
  }

  /** Marking turns the region event if the region is seen running, whenever the listing has read. */
  lemma MarkedShape(read: seq<TaskEvent>, own: seq<TaskEvent>, id: TaskID, region: Option<Status>, status: RegionStatus)
    requires SameIDs(read, own) && Shape(own, id, region)
    ensures var after := MarkSucceeded(own, SyncIDs(read, status));
      SameIDs(own, after) && Shape(after, id, AfterMark(region, status.running))
  {
    SameSyncIDs(read, own, status);
    ShapeMark(own, id, region, status);
  }

  /** Only a listing that has read the region event as a success may find no failure. */
  lemma UnturnedHasFailed(o: Open, id: TaskID, ms: seq<Message>, own: seq<TaskEvent>, region: Option<Status>)
    requires ms != [] && GoodOpen(o, id, ms, own, region) && region == Some(Failure)
    requires region == RegionOf(ms) || region == Some(Success)
    ensures Failed(o.read)
  {
    FailedRegionFails(o.read, id);
  }

  /** The event table after a listing that has read these events ends. */
  function EndLog(log: seq<TaskEvent>, read: seq<TaskEvent>, syncable: bool, cluster: Option<RegionStatus>):
    seq<TaskEvent>
  {
    if Failed(read) && syncable && cluster.Some? then MarkSucceeded(log, SyncIDs(read, cluster.value)) else log
  }

  lemma EndTurns(log: seq<TaskEvent>, id: TaskID, read: seq<TaskEvent>, region: Option<Status>, syncable: bool,
    cluster: Option<RegionStatus>)
    requires SameIDs(read, OfTask(log, id)) && Shape(OfTask(log, id), id, region)
    requires (region == Some(Failure) ==> Failed(read)) && region in {None, Some(Failure), Some(Success)}
    ensures var after := OfTask(EndLog(log, read, syncable, cluster), id);
      SameIDs(OfTask(log, id), after) &&
      Shape(after, id, TurnedBy(region, syncable && cluster.Some? && cluster.value.running))
  {
    if cluster.Some? { MarkedOwn(log, id, read, region, cluster.value); }
  }

  lemma MarkingTurns(db: Db, s: Sys, id: TaskID, ms: seq<Message>, region: Option<Status>, a: Action)
    requires ms != [] && Inv(db, s, id, ms, region) && Enabled(s, id, a) && a.End?
    requires region in {None, Some(Failure), Some(Success)}
    ensures var own, after := OfTask(s.db.events, id), OfTask(Next(s, id, a).db.events, id);
      SameIDs(own, after) && Shape(after, id, TurnedBy(region, Syncable(s.db, id) && SeesRunning(a)))
  {
    var read := s.open[a.l].read;
    assert GoodOpen(s.open[a.l], id, ms, OfTask(s.db.events, id), region);
    if region == Some(Failure) { UnturnedHasFailed(s.open[a.l], id, ms, OfTask(s.db.events, id), region); }
    EndTurns(s.db.events, id, read, region, Syncable(s.db, id), a.cluster);
  }

  lemma MarkedOwn(log: seq<TaskEvent>, id: TaskID, read: seq<TaskEvent>, region: Option<Status>, status: RegionStatus)
    requires SameIDs(read, OfTask(log, id)) && Shape(OfTask(log, id), id, region)
    ensures var after := OfTask(MarkSucceeded(log, SyncIDs(read, status)), id);
      SameIDs(OfTask(log, id), after) && Shape(after, id, AfterMark(region, status.running))
  {
    MarkedShape(read, OfTask(log, id), id, region, status);
    OfTaskMark(log, SyncIDs(read, status), id);
  }

  lemma GoodOpenLater(o: Open, id: TaskID, ms: seq<Message>, own: seq<TaskEvent>, after: seq<TaskEvent>,
    region: Option<Status>, turned: Option<Status>)
    requires ms != [] && GoodOpen(o, id, ms, own, region) && SameIDs(own, after)
    requires region == Some(Success) ==> turned == Some(Success)
    ensures GoodOpen(o, id, ms, after, turned)
  {
  }

  lemma EndKeepsInv(db: Db, s: Sys, id: TaskID, ms: seq<Message>, region: Option<Status>, a: Action)
    requires ms != [] && Inv(db, s, id, ms, region) && Enabled(s, id, a) && a.End?
    requires region in {None, Some(Failure), Some(Success)}
    ensures Inv(db, Next(s, id, a), id, ms, TurnedBy(region, Syncable(s.db, id) && SeesRunning(a)))
  {
    MarkingTurns(db, s, id, ms, region, a);
    var t, turned := Next(s, id, a), TurnedBy(region, Syncable(s.db, id) && SeesRunning(a));
    assert SameTasks(s.db, t.db);
    forall l | l in t.open
      ensures GoodOpen(t.open[l], id, ms, OfTask(t.db.events, id), turned)
    {
      GoodOpenLater(s.open[l], id, ms, OfTask(s.db.events, id), OfTask(t.db.events, id), region, turned);
    }
  }

  lemma OtherKeepsInv(db: Db, s: Sys, id: TaskID, ms: seq<Message>, region: Option<Status>, op: DbOp)
    requires ms != [] && Inv(db, s, id, ms, region) && Enabled(s, id, Other(op))
    ensures Inv(db, Next(s, id, Other(op)), id, ms, region)
  {
    Step1KeepsTasks(s.db, op);
    SameTasksOn(db, s.db, Step1(s.db, op));
    match op {
      case Posted(t, m, freshID) =>
        OfTaskUpsert(s.db.events, EventOf(t, m, freshID), id);
        PutAllKeepsEvents(s.db.(events := Upsert(s.db.events, EventOf(t, m, freshID))),
          PostWrites(t, m.step, m.status));
      case Wrote(w) =>
      case Marked(ids) => SparedEventsStay(s.db.events, ids, id);
    }
  }

  lemma NextKeepsInv(db: Db, s: Sys, id: TaskID, ms: seq<Message>, region: Option<Status>, a: Action)
    requires ms != [] && Inv(db, s, id, ms, region) && Enabled(s, id, a)
    requires region in {None, Some(Failure), Some(Success)}
    ensures Inv(db, Next(s, id, a), id, ms, TurnedBy(region, Syncable(db, id) && SeesRunning(a)))
  {
    SameTasksSync(db, s.db, id);
    assert !a.End? ==> TurnedBy(region, Syncable(db, id) && SeesRunning(a)) == region;
    match a {
      case Begin(l) => BeginKeepsInv(db, s, id, ms, region, l);
      case Step(l) => StepKeepsInv(db, s, id, ms, region, l);
      case End(l, cluster) => EndKeepsInv(db, s, id, ms, region, a);
      case Other(op) => OtherKeepsInv(db, s, id, ms, region, op);
    }
  }

  lemma SawLast(actions: seq<Action>)
    requires actions != []
    ensures SawRunning(actions) <==> SawRunning(actions[..|actions| - 1]) || SeesRunning(actions[|actions| - 1])
  {
    var n := |actions| - 1;
    if i :| 0 <= i < n && SeesRunning(actions[..n][i]) { assert SeesRunning(actions[i]); }
    if i :| 0 <= i < |actions| && SeesRunning(actions[i]) && i < n { assert SeesRunning(actions[..n][i]); }
  }

  /** In every execution after a finished run, the stored region event is the one the run left, until
      a listing of an exposed run has seen the region running; from then on it is a success. */
  lemma {:induction false} ExecutionKeepsInv(id: TaskID, states: seq<Sys>, actions: seq<Action>, ms: seq<Message>)
    requires IsExecution(id, states, actions) && Finished(states[0].db, id, ms)
    ensures var db := states[0].db;
      Inv(db, states[|actions|], id, ms, RegionAfter(ms, Exposed(db, id, ms), actions))
  {
    var db, n := states[0].db, |actions|;
    if n == 0 {
      RunLeavesShape(db.events, id, ms);
    } else {
      ExecutionKeepsInv(id, states[..n], actions[..n - 1], ms);
      SawLast(actions);
      NextKeepsInv(db, states[n - 1], id, ms, RegionAfter(ms, Exposed(db, id, ms), actions[..n - 1]), actions[n - 1]);
    }
  }

  /** All messages of a run that has stopped are recorded. */
  predicate Finished(db: Db, id: TaskID, ms: seq<Message>) {
    Stops(ms) && View(db.events, id) == Rows(ms) && DistinctIDs(OfTask(db.events, id))
  }

  // ----- who wrote the row last

  predicate WritesRow(s: Sys, id: TaskID, a: Action)
    requires Enabled(s, id, a)
  {
    match a
    case Step(l) => s.open[l].pending[0].table == Inits
    case Other(Wrote(w)) => w.table == Inits && w.taskID == id
    case _ => false
  }

  /** The last writer of the row: nobody yet, a listing that read these events, or someone else. */
  datatype Writer = Nobody | Listing(l: nat, read: seq<TaskEvent>) | Someone(status: TaskStatus)

  ghost function LastWriter(id: TaskID, states: seq<Sys>, actions: seq<Action>): Writer
    requires IsExecution(id, states, actions)
  {
    if actions == [] then Nobody
    else
      var n := |actions|;
      var s, a := states[n - 1], actions[n - 1];
      if !WritesRow(s, id, a) then LastWriter(id, states[..n], actions[..n - 1])
      else if a.Step? then Listing(a.l, s.open[a.l].read)
      else Someone(a.op.w.status)
  }

  /** The row holds what its last writer leaves there, unless that is a listing with writes to come. */
  ghost predicate RowInv(db: Db, s: Sys, id: TaskID, writer: Writer) {
    match writer
    case Nobody => forall status :: AllHave(db.inits, id, status) ==> AllHave(s.db.inits, id, status)
    case Listing(l, read) =>
      AllHave(s.db.inits, id, FinalOf(read)) ||
      (l in s.open && LastWrite(s.open[l].pending, Inits, id).Some?)
    case Someone(status) => AllHave(s.db.inits, id, status)
  }

  /** Without a write to the row its status stays. */
  lemma UnwrittenStays(s: Sys, id: TaskID, a: Action, status: TaskStatus)
    requires Enabled(s, id, a) && !WritesRow(s, id, a) && AllHave(s.db.inits, id, status)
    ensures AllHave(Next(s, id, a).db.inits, id, status)
  {
    if a.Other? { UntouchedKeepsInit(s.db, a.op, id, status); }
  }

  lemma UnwrittenKeepsRow(db: Db, s: Sys, id: TaskID, a: Action, writer: Writer)
    requires Enabled(s, id, a) && !WritesRow(s, id, a) && RowInv(db, s, id, writer)
    ensures RowInv(db, Next(s, id, a), id, writer)
  {
    forall status | AllHave(s.db.inits, id, status)
      ensures AllHave(Next(s, id, a).db.inits, id, status)
    {
      UnwrittenStays(s, id, a, status);
    }
    if writer.Listing? && !AllHave(s.db.inits, id, FinalOf(writer.read)) {
      PendingStays(s, id, a, writer.l);
    }
  }

  lemma PendingStays(s: Sys, id: TaskID, a: Action, l: nat)
    requires Enabled(s, id, a) && !WritesRow(s, id, a) && l in s.open && LastWrite(s.open[l].pending, Inits, id).Some?
    ensures l in Next(s, id, a).open && LastWrite(Next(s, id, a).open[l].pending, Inits, id).Some?
  {
  }

  lemma WrittenByListing(s: Sys, id: TaskID, l: nat)
    requires Enabled(s, id, Step(l)) && WritesRow(s, id, Step(l))
    requires s.open[l].pending[0].taskID == id
    requires LastWrite(s.open[l].pending, Inits, id) == Some(FinalOf(s.open[l].read))
    ensures RowInv(s.db, Next(s, id, Step(l)), id, Listing(l, s.open[l].read))
  {
  }

  lemma {:induction false} ExecutionKeepsRow(id: TaskID, states: seq<Sys>, actions: seq<Action>, ms: seq<Message>)
    requires IsExecution(id, states, actions) && Finished(states[0].db, id, ms)
    ensures RowInv(states[0].db, states[|actions|], id, LastWriter(id, states, actions))
  {
    var n := |actions|;
    if n > 0 {
      var s, a := states[n - 1], actions[n - 1];
      ExecutionKeepsRow(id, states[..n], actions[..n - 1], ms);
      if !WritesRow(s, id, a) {
        UnwrittenKeepsRow(states[0].db, s, id, a, LastWriter(id, states[..n], actions[..n - 1]));
      } else if a.Step? {
        ExecutionKeepsInv(id, states[..n], actions[..n - 1], ms);
        StepFinal(states[0].db, s, id, ms, RegionAfter(ms, Exposed(states[0].db, id, ms), actions[..n - 1]), a.l);
        WrittenByListing(s, id, a.l);
      }
    }
  }

  lemma StepFinal(db: Db, s: Sys, id: TaskID, ms: seq<Message>, region: Option<Status>, l: nat)
    requires ms != [] && Inv(db, s, id, ms, region) && Enabled(s, id, Step(l)) && WritesRow(s, id, Step(l))
    ensures s.open[l].pending[0].taskID == id
    ensures LastWrite(s.open[l].pending, Inits, id) == Some(FinalOf(s.open[l].read))
  {
    assert GoodOpen(s.open[l], id, ms, OfTask(s.db.events, id), region);
  }

  // ----- the theorem

  /** After a finished run, once no listing is under way, the row has the status that its last writer
      gave it. If that is a listing, then in every interleaving it is the outcome of the run, whatever
      the row was before, unless the run failed and the listing read the region event as a success. */
  lemma OutcomeKeptIff(id: TaskID, states: seq<Sys>, actions: seq<Action>, ms: seq<Message>)
    requires IsExecution(id, states, actions) && Finished(states[0].db, id, ms) && states[|actions|].open == map[]
    ensures var rows, writer := states[|actions|].db.inits, LastWriter(id, states, actions);
      match writer
      case Nobody => forall status :: AllHave(states[0].db.inits, id, status) ==> AllHave(rows, id, status)
      case Someone(status) => AllHave(rows, id, status)
      case Listing(_, read) =>
        AllHave(rows, id, FinalOf(read)) &&
        (FinalOf(read) == Outcome(ms) <==> Succeeded(ms) || RegionIn(read) != Some(Success))
  {
    ExecutionKeepsRow(id, states, actions, ms);
    var writer := LastWriter(id, states, actions);
    if writer.Listing? { WriterHasRead(id, states, actions, ms); }
  }

  lemma {:induction false} WriterHasRead(id: TaskID, states: seq<Sys>, actions: seq<Action>, ms: seq<Message>)
    requires IsExecution(id, states, actions) && Finished(states[0].db, id, ms)
    requires LastWriter(id, states, actions).Listing?
    ensures var region := RegionIn(LastWriter(id, states, actions).read);
      region == RegionOf(ms) || region == Some(Success)
  {
    var n := |actions|;
    var s, a := states[n - 1], actions[n - 1];
    if !WritesRow(s, id, a) {
      WriterHasRead(id, states[..n], actions[..n - 1], ms);
    } else {
      ExecutionKeepsInv(id, states[..n], actions[..n - 1], ms);
      assert GoodOpen(s.open[a.l], id, ms, OfTask(s.db.events, id),
        RegionAfter(ms, Exposed(states[0].db, id, ms), actions[..n - 1]));
    }
  }

  /** A listing reads the region event as a success exactly if the run succeeded, or it failed waiting
      for the region of a self-managed cluster and an earlier listing has seen the region running. */
  lemma ReadsSuccessIff(id: TaskID, states: seq<Sys>, actions: seq<Action>, ms: seq<Message>)
    requires IsExecution(id, states, actions) && Finished(states[0].db, id, ms)
    ensures RegionIn(OfTask(states[|actions|].db.events, id)) == Some(Success) <==>
      Succeeded(ms) || (Exposed(states[0].db, id, ms) && SawRunning(actions))
  {
    ExecutionKeepsInv(id, states, actions, ms);
    ShapeIsOf(OfTask(states[|actions|].db.events, id), id,
      RegionAfter(ms, Exposed(states[0].db, id, ms), actions));
  }

  // ----- an input for which the outcome is lost

  /** An event table with the given rows of one task. */
  function Stored(id: TaskID, rows: seq<StepRow>): (log: seq<TaskEvent>)
    ensures |log| == |rows|
    ensures forall i :: 0 <= i < |rows| ==>
      log[i] == TaskEvent(id, rows[i].step, rows[i].text, rows[i].status, seq(i, _ => 'e'), rows[i].reason)
  {
    seq(|rows|, i requires 0 <= i < |rows| =>
      TaskEvent(id, rows[i].step, rows[i].text, rows[i].status, seq(i, _ => 'e'), rows[i].reason))
  }

  lemma {:induction false} AllOwn(log: seq<TaskEvent>, id: TaskID)
    requires forall i :: 0 <= i < |log| ==> log[i].taskID == id
    ensures OfTask(log, id) == log
  {
    if log != [] { AllOwn(log[1..], id); }
  }

  lemma StoredView(id: TaskID, rows: seq<StepRow>)
    ensures View(Stored(id, rows), id) == rows && DistinctIDs(OfTask(Stored(id, rows), id))
  {
    var log := Stored(id, rows);
    AllOwn(log, id);
    ViewListsEvents(log, id);
    forall i, j | 0 <= i < j < |log|
      ensures log[i].eventID != log[j].eventID
    {
      assert |log[i].eventID| == i && |log[j].eventID| == j;
    }
  }

  /** An init run that waits for the region until its time is up. */
  function TimeoutTrace(clusterID: string): seq<Message> {
    RunTrace(Looped([], [TimedOut]), clusterID)
  }

  /** The database after such a run of an RKE cluster. */
  function TimeoutDb(clusterID: string): Db {
    Db(Stored("t", Rows(TimeoutTrace(clusterID))), [], [TaskRow(1, "t", clusterID, "rke", Complete, ())], [])
  }

  lemma TimeoutFails(clusterID: string)
    ensures var ms := TimeoutTrace(clusterID);
      IsInitRun(ms) && ms != [] && RegionOf(ms) == Some(Failure) && Outcome(ms) == Complete
  {
    var ms, course := TimeoutTrace(clusterID), Looped([], [TimedOut]);
    var sent := Polled(NO_FLAGS, [TimedOut], clusterID).sent;
    assert IsOver(course, clusterID) && OwnSteps([]);
    assert |sent| == 1 && ms[|ms| - 1] == sent[0];
  }

  /** A listing in one piece marks the region event of an exposed run as a success. */
  lemma ListedTurns(db: Db, id: TaskID, status: RegionStatus)
    requires Shape(OfTask(db.events, id), id, Some(Failure)) && Syncable(db, id) && status.running
    ensures var after := Listed(db, id, Some(status));
      Shape(OfTask(after.events, id), id, Some(Success)) && SameTasks(db, after) &&
      after.inits == Recompute(db, id).inits
  {
    var own := OfTask(db.events, id);
    PutAllKeepsTasks(db, ListWrites(own));
    FailedRegionFails(own, id);
    ShapeMark(own, id, Some(Failure), status);
    OfTaskMark(db.events, SyncIDs(own, status), id);
  }

  lemma MarkedListingInits(db: Db, id: TaskID)
    requires Shape(OfTask(db.events, id), id, Some(Success))
    ensures AllHave(Recompute(db, id).inits, id, Inited)
  {
    ShapeWrites(OfTask(db.events, id), id, Some(Success));
    PutAllRewrites(db, ListWrites(OfTask(db.events, id)));
  }

  lemma TimeoutIsFinished(clusterID: string)
    ensures var db, ms := TimeoutDb(clusterID), TimeoutTrace(clusterID);
      Finished(db, "t", ms) && Exposed(db, "t", ms) && HasTask(db.inits, "t")
  {
    var db, ms := TimeoutDb(clusterID), TimeoutTrace(clusterID);
    TimeoutFails(clusterID);
    InitRunEnds(ms);
    StoredView("t", Rows(ms));
    assert db.inits[0].taskID == "t" && FirstIsOwn(db.inits, "t", 0);
  }

  /** The first listing that finds the region running leaves the outcome of an exposed run, the next
      one does not. */
  lemma ListedTwice(db: Db, id: TaskID, ms: seq<Message>, status: RegionStatus, later: Option<RegionStatus>)
    requires Finished(db, id, ms) && IsInitRun(ms) && Exposed(db, id, ms) && status.running
    ensures var once := Listed(db, id, Some(status));
      AllHave(once.inits, id, Complete) && AllHave(Listed(once, id, later).inits, id, Inited)
  {
    var once := Listed(db, id, Some(status));
    RunLeavesShape(db.events, id, ms);
    ListedTurns(db, id, status);
    ListingSetsOutcome(db, id, ms);
    MarkedListingInits(once, id);
  }

  lemma ListedKeepsTasks(db: Db, id: TaskID, cluster: Option<RegionStatus>)
    ensures SameTasks(db, Listed(db, id, cluster))
  {
    PutAllKeepsTasks(db, ListWrites(OfTask(db.events, id)));
  }

  /** That run failed and its row is complete; one listing that finds the region running leaves it so,
      the next one turns it to `inited`. */
  lemma TimeoutTurnsInited(clusterID: string, status: RegionStatus, later: Option<RegionStatus>)
    requires status.running
    ensures var db, ms := TimeoutDb(clusterID), TimeoutTrace(clusterID);
      var once := Listed(db, "t", Some(status));
      IsInitRun(ms) && Finished(db, "t", ms) && HasTask(Listed(once, "t", later).inits, "t") &&
      AllHave(once.inits, "t", Complete) && AllHave(Listed(once, "t", later).inits, "t", Inited)
  {
    var db, ms := TimeoutDb(clusterID), TimeoutTrace(clusterID);
    var once := Listed(db, "t", Some(status));
    TimeoutFails(clusterID);
    TimeoutIsFinished(clusterID);
    ListedTwice(db, "t", ms, status, later);
    ListedKeepsTasks(db, "t", Some(status));
    ListedKeepsTasks(once, "t", later);
    SameTasksOn(db, once, Listed(once, "t", later));
    SameKeysHave(db.inits, Listed(once, "t", later).inits, "t");
  }
}
