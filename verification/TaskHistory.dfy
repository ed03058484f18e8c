/** Any interleaving of recorded messages and single status writes, and what listing events makes of it. */
module TaskHistory {
  import opened Basics
  import opened TaskModel
  import opened EventLog
  import opened ClusterUsecase

  /** An atomic change of the database: a recording transaction, one status write of whoever makes
      it (the producer's late `start`, a listing, a user), or the batch update of a synchronisation. */
  datatype DbOp =
    | Posted(taskID: TaskID, m: Message, freshID: string)
    | Wrote(w: Write)
    | Marked(ids: seq<string>)

  function Step1(db: Db, op: DbOp): Db {
    match op
    case Posted(t, m, id) => Record(db, t, m, id)
    case Wrote(w) => Put(db, w)
    case Marked(ids) => db.(events := MarkSucceeded(db.events, ids))
  }

  function Exec(db: Db, ops: seq<DbOp>): Db {
    if ops == [] then db else Step1(Exec(db, ops[..|ops| - 1]), ops[|ops| - 1])
  }

  /** The messages posted for one task. */
  function Own(ops: seq<DbOp>, taskID: TaskID): seq<Message> {
    if ops == [] then []
    else
      var op := ops[|ops| - 1];
      Own(ops[..|ops| - 1], taskID) + if op.Posted? && op.taskID == taskID then [op.m] else []
  }

  // ----- the effect of a list of writes on every row

  function LastWrite(ws: seq<Write>, table: Table, taskID: TaskID): Option<TaskStatus> {
    if ws == [] then None
    else
      var later := LastWrite(ws[1..], table, taskID);
      if later.Some? then later
      else if ws[0].table == table && ws[0].taskID == taskID then Some(ws[0].status) else None
  }

  function WithLast<X>(row: TaskRow<X>, status: Option<TaskStatus>): TaskRow<X> {
    if status.Some? then row.(status := status.value) else row
  }

  function Rewritten<X>(rows: seq<TaskRow<X>>, ws: seq<Write>, table: Table): (r: seq<TaskRow<X>>)
    ensures |r| == |rows|
    ensures forall i :: 0 <= i < |rows| ==>
      r[i] == WithLast(rows[i], LastWrite(ws, table, rows[i].taskID))
  {
    seq(|rows|, i requires 0 <= i < |rows| => WithLast(rows[i], LastWrite(ws, table, rows[i].taskID)))
  }

  /** Each row ends with the last status written to its task. */
  lemma {:induction false} PutAllRewrites(db: Db, ws: seq<Write>)
    ensures PutAll(db, ws) == Db(db.events, Rewritten(db.creates, ws, Creates), Rewritten(db.inits, ws, Inits),
      Rewritten(db.updates, ws, Updates))
    decreases |ws|
  {
    if ws == [] {
      assert Rewritten(db.creates, ws, Creates) == db.creates;
      assert Rewritten(db.inits, ws, Inits) == db.inits;
      assert Rewritten(db.updates, ws, Updates) == db.updates;
    } else {
      var next := Put(db, ws[0]);
      PutAllRewrites(next, ws[1..]);
      assert Rewritten(next.creates, ws[1..], Creates) == Rewritten(db.creates, ws, Creates);
      assert Rewritten(next.inits, ws[1..], Inits) == Rewritten(db.inits, ws, Inits);
      assert Rewritten(next.updates, ws[1..], Updates) == Rewritten(db.updates, ws, Updates);
    }
  }

  lemma {:induction false} UniformLastWrite(ws: seq<Write>, table: Table, taskID: TaskID, status: TaskStatus, k: nat)
    requires forall i :: 0 <= i < |ws| && ws[i].table == table && ws[i].taskID == taskID ==> ws[i].status == status
    requires k < |ws| && ws[k].table == table && ws[k].taskID == taskID
    ensures LastWrite(ws, table, taskID) == Some(status)
  {
    if k > 0 {
      UniformLastWrite(ws[1..], table, taskID, status, k - 1);
    } else {
      LastWriteIsWritten(ws[1..], table, taskID);
    }
  }

  lemma {:induction false} LastWriteIsWritten(ws: seq<Write>, table: Table, taskID: TaskID)
    ensures var last := LastWrite(ws, table, taskID);
      last.Some? ==> Write(table, taskID, last.value) in ws
  {
    if ws != [] { LastWriteIsWritten(ws[1..], table, taskID); }
  }

  /** Every write of a listing comes from one of the events. */
  lemma {:induction false} ListWriteFrom(events: seq<TaskEvent>, w: Write) returns (e: TaskEvent)
    requires w in ListWrites(events)
    ensures e in events && w in EventWrites(e)
  {
    var init, last := events[..|events| - 1], events[|events| - 1];
    if w in EventWrites(last) { e := last; } else { e := ListWriteFrom(init, w); }
  }

  lemma {:induction false} ListWritesHave(events: seq<TaskEvent>, i: nat, w: Write)
    requires i < |events| && w in EventWrites(events[i])
    ensures w in ListWrites(events)
  {
    if i < |events| - 1 { ListWritesHave(events[..|events| - 1], i, w); }
  }

  // ----- the rows after any operations

  function OpWrites(op: DbOp): seq<Write> {
    match op
    case Posted(t, m, _) => PostWrites(t, m.step, m.status)
    case Wrote(w) => [w]
    case Marked(_) => []
  }

  /** All status writes of the operations, in order. */
  function AllWrites(ops: seq<DbOp>): seq<Write> {
    if ops == [] then [] else AllWrites(ops[..|ops| - 1]) + OpWrites(ops[|ops| - 1])
  }

  /** The two differ in their events at most. */
  predicate SameTables(a: Db, b: Db) {
    a.creates == b.creates && a.inits == b.inits && a.updates == b.updates
  }

  lemma SameTablesPut(a: Db, b: Db, ws: seq<Write>)
    requires SameTables(a, b)
    ensures SameTables(PutAll(a, ws), PutAll(b, ws))
  {
    PutAllRewrites(a, ws);
    PutAllRewrites(b, ws);
  }

  lemma OpPuts(db: Db, op: DbOp)
    ensures SameTables(Step1(db, op), PutAll(db, OpWrites(op)))
  {
    match op {
      case Posted(t, m, freshID) =>
        SameTablesPut(db.(events := Upsert(db.events, EventOf(t, m, freshID))), db, OpWrites(op));
      case Wrote(w) => assert OpWrites(op)[1..] == [];
      case Marked(_) =>
    }
  }

  /** Operations change the rows by their status writes alone. */
  lemma {:induction false} TablesFollowWrites(db: Db, ops: seq<DbOp>)
    ensures SameTables(Exec(db, ops), PutAll(db, AllWrites(ops)))
  {
    if ops != [] {
      var init, op := ops[..|ops| - 1], ops[|ops| - 1];
      TablesFollowWrites(db, init);
      OpPuts(Exec(db, init), op);
      SameTablesPut(Exec(db, init), PutAll(db, AllWrites(init)), OpWrites(op));
      PutAllAppend(db, AllWrites(init), OpWrites(op));
    }
  }

  /** The rows of the task have the status exactly if the last write gave it, or, without a write, had it before. */
  predicate HasLast<X>(rows: seq<TaskRow<X>>, after: seq<TaskRow<X>>, last: Option<TaskStatus>, id: TaskID,
    status: TaskStatus)
  {
    HasTask(rows, id) ==>
      (HasTask(after, id) && (AllHave(after, id, status) <==>
         if last.Some? then last.value == status else AllHave(rows, id, status)))
  }

  lemma RewrittenHasLast<X>(rows: seq<TaskRow<X>>, ws: seq<Write>, table: Table, id: TaskID, status: TaskStatus)
    ensures HasLast(rows, Rewritten(rows, ws, table), LastWrite(ws, table, id), id, status)
  {
    var after := Rewritten(rows, ws, table);
    assert forall k :: 0 <= k < |rows| && rows[k].taskID == id ==>
      after[k] == WithLast(rows[k], LastWrite(ws, table, id));
    if i :| 0 <= i < |rows| && rows[i].taskID == id { assert after[i].taskID == id; }
  }

  /** After any operations each row has the status that the last write to its task in its table gave
      it, or the status it had: a late write of whoever makes it stays. */
  lemma RowsHaveLastStatus(db: Db, ops: seq<DbOp>, id: TaskID, status: TaskStatus)
    ensures var after, ws := Exec(db, ops), AllWrites(ops);
      HasLast(db.creates, after.creates, LastWrite(ws, Creates, id), id, status) &&
      HasLast(db.inits, after.inits, LastWrite(ws, Inits, id), id, status) &&
      HasLast(db.updates, after.updates, LastWrite(ws, Updates, id), id, status)
  {
    var ws := AllWrites(ops);
    TablesFollowWrites(db, ops);
    PutAllRewrites(db, ws);
    RewrittenHasLast(db.creates, ws, Creates, id, status);
    RewrittenHasLast(db.inits, ws, Inits, id, status);
    RewrittenHasLast(db.updates, ws, Updates, id, status);
  }

  lemma LastOfTwo(a: Write, b: Write, table: Table, id: TaskID)
    ensures LastWrite([a, b], table, id) ==
      if b.table == table && b.taskID == id then Some(b.status)
      else if a.table == table && a.taskID == id then Some(a.status) else None
  {
    assert [a, b][1..] == [b];
    assert LastWrite([b], table, id) == if b.table == table && b.taskID == id then Some(b.status) else None;
  }

  /** What a message writes to the rows of its task as it is recorded. */
  lemma MessageWrites(t: TaskID, m: Message, id: TaskID)
    ensures var ws := PostWrites(t, m.step, m.status);
      LastWrite(ws, Creates, id) ==
        (if t == id && (m.status == Failure || (Creation(m.step) && m.status == Success)) then Some(Complete)
         else None) &&
      LastWrite(ws, Inits, id) ==
        (if t == id && m.status == Failure then Some(Complete)
         else if t == id && m.step == Region && m.status == Success then Some(Inited) else None) &&
      LastWrite(ws, Updates, id) ==
        (if t == id && m.step == UpdateKubernetes && m.status == Success then Some(Complete) else None)
  {
    var ws := PostWrites(t, m.step, m.status);
    if m.status == Failure {
      assert ws == [Write(Inits, t, Complete), Write(Creates, t, Complete)];
      LastOfTwo(ws[0], ws[1], Creates, id);
      LastOfTwo(ws[0], ws[1], Inits, id);
      LastOfTwo(ws[0], ws[1], Updates, id);
    } else if m.status == Success && Creation(m.step) {
      assert ws == [Write(Creates, t, Complete)];
    } else if m.status == Success && m.step == Region {
      assert ws == [Write(Inits, t, Inited)];
    } else if m.status == Success && m.step == UpdateKubernetes {
      assert ws == [Write(Updates, t, Complete)];
    } else {
      assert ws == [];
    }
  }

  lemma {:induction false} LastWriteAppend(a: seq<Write>, b: seq<Write>, table: Table, id: TaskID)
    ensures LastWrite(a + b, table, id) ==
      if LastWrite(b, table, id).Some? then LastWrite(b, table, id) else LastWrite(a, table, id)
  {
    if a == [] {
      assert a + b == b;
    } else {
      assert (a + b)[1..] == a[1..] + b;
      LastWriteAppend(a[1..], b, table, id);
    }
  }

  lemma WritesOfTwo(a: DbOp, b: DbOp, table: Table, id: TaskID)
    ensures LastWrite(AllWrites([a]), table, id) == LastWrite(OpWrites(a), table, id)
    ensures LastWrite(AllWrites([a, b]), table, id) ==
      if LastWrite(OpWrites(b), table, id).Some? then LastWrite(OpWrites(b), table, id)
      else LastWrite(OpWrites(a), table, id)
  {
    assert [a][..0] == [] && [a, b][..1] == [a];
    assert AllWrites([a]) == OpWrites(a);
    LastWriteAppend(OpWrites(a), OpWrites(b), table, id);
  }

  // ----- listing events is idempotent and heals

  /** Repeating the recomputation on an unchanged log changes nothing in any table. */
  lemma RecomputeIdempotent(db: Db, taskID: TaskID)
    ensures Recompute(Recompute(db, taskID), taskID) == Recompute(db, taskID)
  {
    var ws := ListWrites(OfTask(db.events, taskID));
    var once := Recompute(db, taskID);
    if TaskExists(db, taskID) {
      PutAllRewrites(db, ws);
      PutAllRewrites(once, ws);
      assert Rewritten(once.creates, ws, Creates) == once.creates;
      assert Rewritten(once.inits, ws, Inits) == once.inits;
      assert Rewritten(once.updates, ws, Updates) == once.updates;
    }
  }

  /** The event ends the task's work as far as this table is concerned. */
  predicate Ends(e: TaskEvent, table: Table) {
    e.status == Failure ||
    (e.status == Success && if table == Creates then Creation(e.step) else e.step == UpdateKubernetes)
  }

  /** The stored log says that the task's work in this table is over. */
  predicate Ended(events: seq<TaskEvent>, table: Table) {
    exists i :: 0 <= i < |events| && Ends(events[i], table)
  }

  lemma EventCompletes(e: TaskEvent, table: Table)
    requires table != Inits
    ensures Ends(e, table) ==> Write(table, e.taskID, Complete) in EventWrites(e)
    ensures forall w :: w in EventWrites(e) && w.table == table ==> w == Write(table, e.taskID, Complete)
  {
  }

  lemma EndedWritesComplete(db: Db, taskID: TaskID, table: Table)
    requires table != Inits
    requires Ended(OfTask(db.events, taskID), table)
    ensures LastWrite(ListWrites(OfTask(db.events, taskID)), table, taskID) == Some(Complete)
  {
    var events := OfTask(db.events, taskID);
    var ws, w := ListWrites(events), Write(table, taskID, Complete);
    var i :| 0 <= i < |events| && Ends(events[i], table);
    assert events[i] in events;
    EventCompletes(events[i], table);
    ListWritesHave(events, i, w);
    var k :| 0 <= k < |ws| && ws[k] == w;
    forall j | 0 <= j < |ws| && ws[j].table == table && ws[j].taskID == taskID
      ensures ws[j].status == Complete
    {
      var f := ListWriteFrom(events, ws[j]);
      EventCompletes(f, table);
    }
    UniformLastWrite(ws, table, taskID, Complete, k);
  }

  lemma RewrittenHas<X>(rows: seq<TaskRow<X>>, ws: seq<Write>, table: Table, taskID: TaskID, status: TaskStatus)
    requires LastWrite(ws, table, taskID) == Some(status)
    ensures AllHave(Rewritten(rows, ws, table), taskID, status)
  {
  }

  /** Whatever statuses were written in whatever order, one listing completes the create and update
      rows of a task whose stored log shows the end of the work. */
  lemma ListingHeals(db: Db, taskID: TaskID)
    ensures Ended(OfTask(db.events, taskID), Creates) ==> AllHave(Recompute(db, taskID).creates, taskID, Complete)
    ensures Ended(OfTask(db.events, taskID), Updates) ==> AllHave(Recompute(db, taskID).updates, taskID, Complete)
  {
    var ws := ListWrites(OfTask(db.events, taskID));
    PutAllRewrites(db, ws);
    if Ended(OfTask(db.events, taskID), Creates) {
      EndedWritesComplete(db, taskID, Creates);
      RewrittenHas(db.creates, ws, Creates, taskID, Complete);
    }
    if Ended(OfTask(db.events, taskID), Updates) {
      EndedWritesComplete(db, taskID, Updates);
      RewrittenHas(db.updates, ws, Updates, taskID, Complete);
    }
  }

  // ----- the log of a task depends on its own messages only

  lemma {:induction false} PutAllKeepsEvents(db: Db, ws: seq<Write>)
    ensures PutAll(db, ws).events == db.events
    decreases |ws|
  {
    if ws != [] { PutAllKeepsEvents(Put(db, ws[0]), ws[1..]); }
  }

  /** No event of the task has one of the IDs. */
  predicate Spares(log: seq<TaskEvent>, ids: seq<string>, taskID: TaskID) {
    forall i :: 0 <= i < |log| && log[i].eventID in ids ==> log[i].taskID != taskID
  }

  /** No batch update is about an event of the task. */
  predicate AllSpare(db: Db, ops: seq<DbOp>, taskID: TaskID) {
    ops != [] ==>
      (var init, op := ops[..|ops| - 1], ops[|ops| - 1];
       AllSpare(db, init, taskID) && (op.Marked? ==> Spares(Exec(db, init).events, op.ids, taskID)))
  }

  lemma {:induction false} MarkingKeepsView(log: seq<TaskEvent>, ids: seq<string>, taskID: TaskID)
    requires Spares(log, ids, taskID)
    ensures View(MarkSucceeded(log, ids), taskID) == View(log, taskID)
  {
    if log != [] {
      MarkingKeepsView(log[1..], ids, taskID);
      assert MarkSucceeded(log, ids)[1..] == MarkSucceeded(log[1..], ids);
    }
  }

  lemma {:induction false} MarkingKeepsLogged(log: seq<TaskEvent>, ids: seq<string>, taskID: TaskID)
    ensures |OfTask(MarkSucceeded(log, ids), taskID)| == |OfTask(log, taskID)|
  {
    if log != [] {
      MarkingKeepsLogged(log[1..], ids, taskID);
      assert MarkSucceeded(log, ids)[1..] == MarkSucceeded(log[1..], ids);
    }
  }

  lemma RowsOfOwn(ops: seq<DbOp>, taskID: TaskID)
    requires ops != []
    ensures var init, op := ops[..|ops| - 1], ops[|ops| - 1];
      Rows(Own(ops, taskID)) ==
      if op.Posted? && op.taskID == taskID then Absorb(Rows(Own(init, taskID)), op.m) else Rows(Own(init, taskID))
  {
    var init, op := ops[..|ops| - 1], ops[|ops| - 1];
    if op.Posted? && op.taskID == taskID {
      assert (Own(init, taskID) + [op.m])[..|Own(init, taskID)|] == Own(init, taskID);
    } else {
      assert Own(ops, taskID) == Own(init, taskID);
    }
  }

  lemma ViewAfter(db: Db, op: DbOp, taskID: TaskID)
    requires op.Marked? ==> Spares(db.events, op.ids, taskID)
    ensures View(Step1(db, op).events, taskID) ==
      if op.Posted? && op.taskID == taskID then Absorb(View(db.events, taskID), op.m) else View(db.events, taskID)
  {
    match op {
      case Posted(_, _, _) => PostedView(db, op, taskID);
      case Wrote(_) =>
      case Marked(ids) => MarkingKeepsView(db.events, ids, taskID);
    }
  }

  /** Without batch updates of its events, the log of a task follows from its messages, however
      they interleave with everything else. */
  lemma {:induction false} LogFollowsOwnMessages(db: Db, ops: seq<DbOp>, taskID: TaskID)
    requires View(db.events, taskID) == [] && AllSpare(db, ops, taskID)
    ensures View(Exec(db, ops).events, taskID) == Rows(Own(ops, taskID))
  {
    if ops != [] {
      var init, op := ops[..|ops| - 1], ops[|ops| - 1];
      LogFollowsOwnMessages(db, init, taskID);
      RowsOfOwn(ops, taskID);
      ViewAfter(Exec(db, init), op, taskID);
    }
  }

  lemma PostedView(db: Db, op: DbOp, taskID: TaskID)
    requires op.Posted?
    ensures View(Step1(db, op).events, taskID) ==
      if op.taskID == taskID then Absorb(View(db.events, taskID), op.m) else View(db.events, taskID)
  {
    ViewOfUpsert(db.events, op.taskID, op.m, op.freshID, taskID);
    PutAllKeepsEvents(db.(events := Upsert(db.events, EventOf(op.taskID, op.m, op.freshID))),
      PostWrites(op.taskID, op.m.step, op.m.status));
  }

  /** A deciding message is what the stored event of its step holds. */
  lemma {:induction false} DecidedIsStored(log: seq<TaskEvent>, taskID: TaskID, ms: seq<Message>, k: nat)
    requires View(log, taskID) == Rows(ms) && Decides(ms, k)
    ensures exists e :: e in OfTask(log, taskID) && e.step == ms[k].step && e.status == ms[k].status
  {
    var rows := Rows(ms);
    RowsSummariseMessages(ms);
    var i := RowIndex(rows, ms[k].step);
    assert Decided(rows[i], ms);
    var j :| Decides(ms, j) && rows[i] == RowOf(ms[j]);
    DeciderIsUnique(ms, j, k);
    ViewListsEvents(log, taskID);
    assert OfTask(log, taskID)[i] in OfTask(log, taskID);
  }

  /** Conversely every stored event is a deciding message. */
  lemma StoredIsDecided(log: seq<TaskEvent>, taskID: TaskID, ms: seq<Message>, e: TaskEvent)
    requires View(log, taskID) == Rows(ms) && e in OfTask(log, taskID)
    ensures exists k :: Decides(ms, k) && ms[k].step == e.step && ms[k].status == e.status
  {
    RowsSummariseMessages(ms);
    ViewListsEvents(log, taskID);
    var i :| 0 <= i < |OfTask(log, taskID)| && OfTask(log, taskID)[i] == e;
    assert Decided(Rows(ms)[i], ms);
  }
}
