/** Backing up the nine tables and recovering them in one transaction; row IDs are not part of a backup. */
module Recovery {

  datatype Kind =
    | AccessKeys | CreateTasks | InitTasks | UpdateTasks | TaskEvents
    | CustomClusters | RKEClusters | ClusterConfigs | AppStores

  const DELETED := [AccessKeys, CreateTasks, InitTasks, UpdateTasks, TaskEvents, CustomClusters, RKEClusters,
    ClusterConfigs, AppStores]
  const CREATED := [AccessKeys, CreateTasks, InitTasks, TaskEvents, UpdateTasks, CustomClusters, RKEClusters,
    ClusterConfigs, AppStores]

  /** The columns of a row other than its ID, timestamps included. */
  type Payload = map<string, string>

  datatype Row = Row(id: nat, data: Payload)

  /** `next` is the next value of the auto-increment ID, which no rollback takes back. */
  datatype Table = Table(rows: seq<Row>, next: nat)

  type Database = Kind -> Table
  type Backup = Kind -> seq<Payload>

  /** The columns of the unique index of a table, if it has one. */
  function UniqueColumns(kind: Kind): seq<string> {
    match kind
    case UpdateTasks => ["cluster_id", "version"]
    case AppStores => ["name"]
    case _ => []
  }

  function Value(data: Payload, column: string): string {
    if column in data then data[column] else ""
  }

  /** The unique index refuses the two together. */
  predicate Clash(kind: Kind, a: Payload, b: Payload) {
    var columns := UniqueColumns(kind);
    columns != [] && forall k :: 0 <= k < |columns| ==> Value(a, columns[k]) == Value(b, columns[k])
  }

  /** The unique indexes: update tasks by cluster and version, application stores by name, and no others. */
  lemma ClashIff(kind: Kind, a: Payload, b: Payload)
    ensures Clash(kind, a, b) <==>
      (kind == UpdateTasks && Value(a, "cluster_id") == Value(b, "cluster_id") &&
       Value(a, "version") == Value(b, "version")) ||
      (kind == AppStores && Value(a, "name") == Value(b, "name"))
  {
    var columns := UniqueColumns(kind);
    if columns != [] { assert Value(a, columns[0]) == Value(b, columns[0]) || !Clash(kind, a, b); }
    if |columns| > 1 { assert Value(a, columns[1]) == Value(b, columns[1]) || !Clash(kind, a, b); }
  }

  function Payloads(rows: seq<Row>): (r: seq<Payload>)
    ensures |r| == |rows| && forall i :: 0 <= i < |rows| ==> r[i] == rows[i].data
  {
    seq(|rows|, i requires 0 <= i < |rows| => rows[i].data)
  }

  /** Nothing in the list clashes. */
  predicate Distinct(kind: Kind, data: seq<Payload>) {
    forall i, j :: 0 <= i < j < |data| ==> !Clash(kind, data[i], data[j])
  }

  predicate Increasing(rows: seq<Row>) {
    forall i, j :: 0 <= i < j < |rows| ==> rows[i].id < rows[j].id
  }

  /** IDs increase, new ones will be larger, and the unique index holds. */
  predicate ValidTable(kind: Kind, t: Table) {
    Increasing(t.rows) && (forall i :: 0 <= i < |t.rows| ==> t.rows[i].id < t.next) && Distinct(kind, Payloads(t.rows))
  }

  ghost predicate ValidDatabase(db: Database) {
    forall kind :: ValidTable(kind, db(kind))
  }

  function Dump(db: Database): Backup {
    kind => Payloads(db(kind).rows)
  }

  /** What scans that give so many rows of each table leave of them. */
  function Scanned(db: Database, got: Kind -> nat): Backup {
    kind => if got(kind) < |db(kind).rows| then Payloads(db(kind).rows)[..got(kind)] else Payloads(db(kind).rows)
  }

  /** The statements of the transaction that the database may refuse. */
  datatype Statement = Delete(kind: Kind) | Create(kind: Kind, i: nat) | Commit

  /** The table holds the list, in order, under new IDs. */
  ghost predicate Holds(t: Table, was: Table, data: seq<Payload>) {
    Payloads(t.rows) == data && Increasing(t.rows) && was.next <= t.next &&
    forall i :: 0 <= i < |t.rows| ==> was.next <= t.rows[i].id < t.next
  }

  class SystemHandler {
    var db: Database

    constructor (db: Database)
      requires ValidDatabase(db)
      ensures this.db == db
    {
      this.db := db;
    }

    /** The rows of all tables in ID order without their IDs; they can be inserted again. The error of a
        scan is ignored: `got` says how many rows of a table it gives before it ends. */
    method Backup(got: Kind -> nat) returns (data: Backup)
      ensures forall kind ::
        |data(kind)| == (if got(kind) < |db(kind).rows| then got(kind) else |db(kind).rows|) &&
        forall i :: 0 <= i < |data(kind)| ==> data(kind)[i] == db(kind).rows[i].data
      ensures ValidDatabase(db) ==> forall kind :: Recreates(kind, data(kind), {})
      ensures forall kind :: data(kind) == Dump(db)(kind) <==> |db(kind).rows| <= got(kind)
    {
      data := Scanned(db, got);
      forall kind | ValidDatabase(db)
        ensures Distinct(kind, Scanned(db, got)(kind))
      {
        assert ValidTable(kind, db(kind));
      }
    }

    /** Recovers a decoded backup: all tables or none. */
    method Recover(data: Backup, failing: set<Statement>) returns (ok: bool)
      requires ValidDatabase(db)
      modifies this
      ensures ValidDatabase(db)
      ensures ok <==>
        (Commit !in failing && (forall kind :: Delete(kind) !in failing && Distinct(kind, data(kind))) &&
         forall kind, i :: 0 <= i < |data(kind)| ==> Create(kind, i) !in failing)
      ensures ok ==> forall kind :: Holds(db(kind), old(db)(kind), data(kind))
      ensures !ok ==> forall kind :: db(kind).rows == old(db)(kind).rows
    {
      ghost var was := db;
      var tx;
      ok, tx := DeleteAll(failing);
      if ok {
        ok, tx := CreateAll(tx, data, failing);
      }
      if ok && Commit in failing {
        ok := false;
      }
      if ok {
        db := tx;
      } else {
        db := Rollback(db, tx);
      }
    }

    /** Empties every table, one statement each. */
    method DeleteAll(failing: set<Statement>) returns (ok: bool, tx: Database)
      ensures ok <==> forall kind :: Delete(kind) !in failing
      ensures forall kind :: tx(kind).next == db(kind).next
      ensures ok ==> forall kind :: tx(kind).rows == []
    {
      tx, ok := db, true;
      var k := 0;
      while k < |DELETED|
        invariant 0 <= k <= |DELETED|
        invariant forall j :: 0 <= j < k ==> Delete(DELETED[j]) !in failing && tx(DELETED[j]).rows == []
        invariant forall kind :: tx(kind).next == db(kind).next
      {
        if Delete(DELETED[k]) in failing {
          return false, tx;
        }
        tx := With(tx, DELETED[k], Table([], tx(DELETED[k]).next));
        k := k + 1;
      }
      AllDeleted();
      forall kind
        ensures Delete(kind) !in failing && tx(kind).rows == []
      {
        assert kind in DELETED;
      }
    }

    /** Re-creates every table row by row. */
    method CreateAll(empty: Database, data: Backup, failing: set<Statement>) returns (ok: bool, tx: Database)
      requires forall kind :: empty(kind).rows == []
      ensures ok <==> forall kind :: Recreates(kind, data(kind), failing)
      ensures forall kind :: empty(kind).next <= tx(kind).next
      ensures ok ==> forall kind :: Holds(tx(kind), empty(kind), data(kind))
    {
      tx, ok := empty, true;
      var k := 0;
      while k < |CREATED|
        invariant 0 <= k <= |CREATED|
        invariant forall j :: 0 <= j < k ==>
          Recreates(CREATED[j], data(CREATED[j]), failing) && Holds(tx(CREATED[j]), empty(CREATED[j]), data(CREATED[j]))
        invariant forall j :: k <= j < |CREATED| ==> tx(CREATED[j]) == empty(CREATED[j])
        invariant forall kind :: empty(kind).next <= tx(kind).next
      {
        var kind := CREATED[k];
        var table;
        ok, table := CreateRows(kind, tx(kind), data(kind), failing);
        tx := With(tx, kind, table);
        if !ok {
          return;
        }
        k := k + 1;
      }
      AllCreated();
      forall kind
        ensures Recreates(kind, data(kind), failing) && Holds(tx(kind), empty(kind), data(kind))
      {
        assert kind in CREATED;
      }
    }

    /** Inserts the rows of one table. */
    method CreateRows(kind: Kind, empty: Table, data: seq<Payload>, failing: set<Statement>)
      returns (ok: bool, table: Table)
      requires empty.rows == []
      ensures ok <==> Recreates(kind, data, failing)
      ensures empty.next <= table.next
      ensures ok ==> Holds(table, empty, data)
    {
      table, ok := empty, true;
      var i := 0;
      while i < |data|
        invariant 0 <= i <= |data|
        invariant Recreates(kind, data[..i], failing) && Holds(table, empty, data[..i])
      {
        RowRecreated(kind, table, empty, data, failing, i);
        if Create(kind, i) in failing || exists j :: 0 <= j < |table.rows| && Clash(kind, table.rows[j].data, data[i]) {
          return false, table;
        }
        table := Table(table.rows + [Row(table.next, data[i])], table.next + 1);
        i := i + 1;
      }
      assert data[..i] == data;
    }
  }

  function With(db: Database, kind: Kind, t: Table): (r: Database)
    ensures forall k :: r(k) == if k == kind then t else db(k)
  {
    k => if k == kind then t else db(k)
  }

  function Rollback(db: Database, tx: Database): (r: Database)
    ensures forall k :: r(k) == Table(db(k).rows, tx(k).next)
  {
    k => Table(db(k).rows, tx(k).next)
  }

  /** Every row of the list can be inserted into the empty table. */
  predicate Recreates(kind: Kind, data: seq<Payload>, failing: set<Statement>) {
    Distinct(kind, data) && forall i :: 0 <= i < |data| ==> Create(kind, i) !in failing
  }

  /** Inserting row `i` succeeds exactly if the list up to it can be re-created. */
  lemma RowRecreated(kind: Kind, t: Table, was: Table, data: seq<Payload>, failing: set<Statement>, i: nat)
    requires i < |data| && Recreates(kind, data[..i], failing) && Holds(t, was, data[..i])
    ensures var refused :=
        Create(kind, i) in failing || exists j :: 0 <= j < |t.rows| && Clash(kind, t.rows[j].data, data[i]);
      if refused then !Recreates(kind, data, failing)
      else
        Recreates(kind, data[..i + 1], failing) &&
        Holds(Table(t.rows + [Row(t.next, data[i])], t.next + 1), was, data[..i + 1])
  {
    assert |t.rows| == i && forall j :: 0 <= j < i ==> t.rows[j].data == Payloads(t.rows)[j] == data[j];
    assert data[..i + 1] == data[..i] + [data[i]];
    assert Payloads(t.rows + [Row(t.next, data[i])]) == Payloads(t.rows) + [data[i]];
  }

  lemma AllDeleted()
    ensures forall kind :: kind in DELETED
  {
    forall kind: Kind
      ensures kind in DELETED
    {
      match kind {
        case AccessKeys => assert DELETED[0] == kind;
        case CreateTasks => assert DELETED[1] == kind;
        case InitTasks => assert DELETED[2] == kind;
        case UpdateTasks => assert DELETED[3] == kind;
        case TaskEvents => assert DELETED[4] == kind;
        case CustomClusters => assert DELETED[5] == kind;
        case RKEClusters => assert DELETED[6] == kind;
        case ClusterConfigs => assert DELETED[7] == kind;
        case AppStores => assert DELETED[8] == kind;
      }
    }
  }

  lemma AllCreated()
    ensures forall kind :: kind in CREATED
  {
    forall kind: Kind
      ensures kind in CREATED
    {
      match kind {
        case AccessKeys => assert CREATED[0] == kind;
        case CreateTasks => assert CREATED[1] == kind;
        case InitTasks => assert CREATED[2] == kind;
        case TaskEvents => assert CREATED[3] == kind;
        case UpdateTasks => assert CREATED[4] == kind;
        case CustomClusters => assert CREATED[5] == kind;
        case RKEClusters => assert CREATED[6] == kind;
        case ClusterConfigs => assert CREATED[7] == kind;
        case AppStores => assert CREATED[8] == kind;
      }
    }
  }

  // ----- what a recovery keeps

  /** `WHERE filter ORDER BY id DESC LIMIT 1`: row `i` is the answer. */
  ghost predicate IsLatest(rows: seq<Row>, filter: Payload -> bool, i: nat) {
    i < |rows| && filter(rows[i].data) &&
    forall j :: 0 <= j < |rows| && filter(rows[j].data) ==> rows[j].id <= rows[i].id
  }

  /** The same rows in the same order, under other IDs. */
  ghost predicate Renumbered(a: seq<Row>, b: seq<Row>) {
    Payloads(a) == Payloads(b) && Increasing(a) && Increasing(b)
  }

  lemma LatestSurvives(a: seq<Row>, b: seq<Row>, filter: Payload -> bool, i: nat)
    requires Renumbered(a, b) && IsLatest(a, filter, i)
    ensures IsLatest(b, filter, i) && a[i].data == b[i].data
  {
    assert Payloads(a)[i] == Payloads(b)[i];
    forall j | 0 <= j < |b| && filter(b[j].data)
      ensures b[j].id <= b[i].id
    {
      assert Payloads(a)[j] == Payloads(b)[j];
      assert a[j].id <= a[i].id;
    }
  }

  /** A backup can always be recovered unless the database refuses a statement, into whatever database; then
      every table holds the backed-up rows in order, and each filtered query for the latest row finds the
      same row as in the database backed up, or none in both. */
  lemma RecoveryKeepsLatest(db: Database, later: Database, recovered: Database, kind: Kind,
    filter: Payload -> bool, i: nat)
    requires ValidDatabase(db) && forall k :: Holds(recovered(k), later(k), Dump(db)(k))
    ensures Distinct(kind, Dump(db)(kind)) && Renumbered(db(kind).rows, recovered(kind).rows)
    ensures IsLatest(db(kind).rows, filter, i) <==> IsLatest(recovered(kind).rows, filter, i)
    ensures i < |db(kind).rows| ==> db(kind).rows[i].data == recovered(kind).rows[i].data
  {
    assert Holds(recovered(kind), later(kind), Dump(db)(kind)) && ValidTable(kind, db(kind));
    var a, b := db(kind).rows, recovered(kind).rows;
    if i < |a| { assert Payloads(a)[i] == Payloads(b)[i]; }
    if IsLatest(a, filter, i) { LatestSurvives(a, b, filter, i); }
    if IsLatest(b, filter, i) { LatestSurvives(b, a, filter, i); }
  }

  /** A table comes back with all its rows exactly if its scan has given all of them. */
  lemma CutScanLosesRows(db: Database, got: Kind -> nat, later: Database, recovered: Database, kind: Kind)
    requires forall k :: Holds(recovered(k), later(k), Scanned(db, got)(k))
    ensures Payloads(recovered(kind).rows) == Payloads(db(kind).rows) <==> |db(kind).rows| <= got(kind)
  {
    assert Holds(recovered(kind), later(kind), Scanned(db, got)(kind));
  }
}
