/** The update-task table and its optimistic lock. */
module UpdateTasks {
  import opened Basics
  import opened TaskModel

  datatype Insertion = Added | DuplicateVersion | TaskIsExit

  /** The unique index over (cluster_id, version) has an entry. */
  predicate VersionTaken(rows: seq<UpdateRow>, clusterID: string, version: nat) {
    exists i :: 0 <= i < |rows| && rows[i].clusterID == clusterID && rows[i].extra == version
  }

  predicate SameTask(rows: seq<UpdateRow>, taskID: TaskID, clusterID: string) {
    exists i :: 0 <= i < |rows| && rows[i].taskID == taskID && rows[i].clusterID == clusterID
  }

  function InsertionOf(rows: seq<UpdateRow>, row: UpdateRow): Insertion {
    if SameTask(rows, row.taskID, row.clusterID) then TaskIsExit
    else if VersionTaken(rows, row.clusterID, row.extra) then DuplicateVersion
    else Added
  }

  datatype CheckError = LastTaskNotComplete

  /** No task of the cluster, or the last one complete. */
  predicate LastComplete<X>(own: seq<TaskRow<X>>) {
    own == [] || own[|own| - 1].status == Complete
  }

  /** The first half of the check: the version of the last update task, which must be complete. */
  function CheckUpdate(rows: seq<UpdateRow>, clusterID: string): (r: Result<nat, CheckError>)
    ensures var own := OfCluster(rows, clusterID);
      (r.Ok? <==> LastComplete(own)) &&
      (r.Ok? ==> r.value == if own == [] then 0 else own[|own| - 1].extra)
  {
    LastIsLastOfCluster(rows, clusterID);
    match LastOfCluster(rows, clusterID)
    case None => Ok(0)
    case Some(row) => if row.status != Complete then Err(LastTaskNotComplete) else Ok(row.extra)
  }

  /** The second half: the last create task, if any, must be complete. */
  predicate CheckCreate(rows: seq<CreateRow>, clusterID: string): (r: bool)
    ensures r <==> LastComplete(OfCluster(rows, clusterID))
  {
    LastIsLastOfCluster(rows, clusterID);
    match LastOfCluster(rows, clusterID)
    case None => true
    case Some(row) => row.status == Complete
  }

  class UpdateKubernetesTaskRepo {
    var rows: seq<UpdateRow>

    constructor ()
      ensures rows == []
    {
      rows := [];
    }

    /** Inserts a row under the unique index; a refused row changes nothing. */
    method Create(row: UpdateRow) returns (r: Insertion)
      modifies this
      ensures r == TaskIsExit <==>
        exists i :: 0 <= i < |old(rows)| && old(rows)[i].taskID == row.taskID && old(rows)[i].clusterID == row.clusterID
      ensures r == Added <==> forall i :: 0 <= i < |old(rows)| && old(rows)[i].clusterID == row.clusterID ==>
        old(rows)[i].taskID != row.taskID && old(rows)[i].extra != row.extra
      ensures r == InsertionOf(old(rows), row)
      ensures rows == if r == Added then old(rows) + [row] else old(rows)
    {
      if SameTask(rows, row.taskID, row.clusterID) {
        return TaskIsExit;
      }
      if VersionTaken(rows, row.clusterID, row.extra) {
        return DuplicateVersion;
      }
      rows := rows + [row];
      return Added;
    }

    method GetTaskByClusterID(clusterID: string) returns (task: Option<UpdateRow>)
      ensures var own := OfCluster(rows, clusterID);
        task == if own == [] then None else Some(own[|own| - 1])
    {
      LastIsLastOfCluster(rows, clusterID);
      task := LastOfCluster(rows, clusterID);
    }

    /** The rows of the task get the status; no other row and no other column changes. */
    method UpdateStatus(taskID: TaskID, status: TaskStatus)
      modifies this
      ensures |rows| == |old(rows)| && AllHave(rows, taskID, status)
      ensures forall i :: 0 <= i < |rows| ==> rows[i].(status := old(rows)[i].status) == old(rows)[i]
      ensures forall i :: 0 <= i < |rows| && rows[i].taskID != taskID ==> rows[i] == old(rows)[i]
      ensures status == Complete ==> forall c :: Chain(OfCluster(old(rows), c)) ==> Chain(OfCluster(rows, c))
    {
      forall c | status == Complete && Chain(OfCluster(rows, c)) { CompletionKeepsChain(rows, taskID, c); }
      rows := SetStatus(rows, taskID, status);
    }

    /** `isLastTaskComplete`: the version to build on, if the last update and create tasks are complete. */
    method IsLastTaskComplete(creates: seq<CreateRow>, clusterID: string) returns (r: Result<nat, CheckError>)
      ensures var own, made := OfCluster(rows, clusterID), OfCluster(creates, clusterID);
        (r.Ok? <==>
          (own == [] || own[|own| - 1].status == Complete) && (made == [] || made[|made| - 1].status == Complete)) &&
        (r.Ok? ==> r.value == if own == [] then 0 else own[|own| - 1].extra)
      ensures r == if CheckUpdate(rows, clusterID).Ok? && CheckCreate(creates, clusterID)
        then CheckUpdate(rows, clusterID) else Err(LastTaskNotComplete)
    {
      LastIsLastOfCluster(rows, clusterID);
      LastIsLastOfCluster(creates, clusterID);
      var updateTask := GetTaskByClusterID(clusterID);
      if updateTask.Some? && updateTask.value.status != Complete {
        return Err(LastTaskNotComplete);
      }
      var createTask := LastOfCluster(creates, clusterID);
      if createTask.Some? && createTask.value.status != Complete {
        return Err(LastTaskNotComplete);
      }
      if updateTask.Some? {
        return Ok(updateTask.value.extra);
      }
      return Ok(0);
    }
  }

  // ----- the chain of versions

  /** Versions 1, 2, ... in order, and all rows but the last complete. */
  predicate Chain(rows: seq<UpdateRow>) {
    forall k :: 0 <= k < |rows| ==> rows[k].extra == k + 1 && (k < |rows| - 1 ==> rows[k].status == Complete)
  }

  /** A version that a request may build on: that of a complete row, or none. */
  predicate Built(rows: seq<UpdateRow>, version: nat) {
    version <= |rows| && (version > 0 ==> rows[version - 1].status == Complete)
  }

  lemma CheckedVersionIsBuilt(rows: seq<UpdateRow>, clusterID: string)
    requires Chain(OfCluster(rows, clusterID))
    ensures CheckUpdate(rows, clusterID).Ok? ==>
      CheckUpdate(rows, clusterID).value == |OfCluster(rows, clusterID)| &&
      Built(OfCluster(rows, clusterID), CheckUpdate(rows, clusterID).value)
  {
  }

  /** Exactly the rows of the chain take versions. */
  lemma VersionTakenIff(rows: seq<UpdateRow>, clusterID: string, version: nat)
    requires Chain(OfCluster(rows, clusterID))
    ensures VersionTaken(rows, clusterID, version) <==> 1 <= version <= |OfCluster(rows, clusterID)|
  {
    var own := OfCluster(rows, clusterID);
    OfClusterMembers(rows, clusterID);
    if VersionTaken(rows, clusterID, version) {
      var i :| 0 <= i < |rows| && rows[i].clusterID == clusterID && rows[i].extra == version;
      assert rows[i] in own;
    }
    if 1 <= version <= |own| {
      assert own[version - 1] in own;
      assert own[version - 1] in rows;
    }
  }

  /** Of the requests that may build on a version, an insertion is accepted exactly when the version
      is the last one. */
  lemma InsertionAccepted(rows: seq<UpdateRow>, row: UpdateRow, version: nat)
    requires Chain(OfCluster(rows, row.clusterID)) && Built(OfCluster(rows, row.clusterID), version)
    requires row.extra == version + 1 && !HasTask(rows, row.taskID)
    ensures InsertionOf(rows, row) == Added <==> version == |OfCluster(rows, row.clusterID)|
  {
    VersionTakenIff(rows, row.clusterID, version + 1);
  }

  /** Progress: on a chain whose last row is complete, with the last create task complete, the check
      passes with the number of rows, and a new row with the next version is accepted. */
  lemma NextVersionIsAccepted(rows: seq<UpdateRow>, creates: seq<CreateRow>, row: UpdateRow)
    requires Chain(OfCluster(rows, row.clusterID))
    requires LastComplete(OfCluster(rows, row.clusterID)) && LastComplete(OfCluster(creates, row.clusterID))
    requires row.extra == |OfCluster(rows, row.clusterID)| + 1 && !HasTask(rows, row.taskID)
    ensures CheckUpdate(rows, row.clusterID) == Ok(|OfCluster(rows, row.clusterID)|)
    ensures CheckCreate(creates, row.clusterID) && InsertionOf(rows, row) == Added
  {
    InsertionAccepted(rows, row, |OfCluster(rows, row.clusterID)|);
  }

  /** A row accepted on top of a complete last row extends the chain of its cluster and no other. */
  lemma ChainGrows(rows: seq<UpdateRow>, row: UpdateRow, clusterID: string)
    requires var own := OfCluster(rows, clusterID);
      Chain(own) && (clusterID == row.clusterID ==> Built(own, |own|) && row.extra == |own| + 1)
    ensures var own, after := OfCluster(rows, clusterID), OfCluster(rows + [row], clusterID);
      Chain(after) && forall v :: Built(own, v) ==> Built(after, v)
  {
    OfClusterAppend(rows, row, clusterID);
  }

  /** Completing a task keeps every chain and every version built on. */
  lemma CompletionKeepsChain(rows: seq<UpdateRow>, taskID: TaskID, clusterID: string)
    requires Chain(OfCluster(rows, clusterID))
    ensures var own, after := OfCluster(rows, clusterID), OfCluster(SetStatus(rows, taskID, Complete), clusterID);
      Chain(after) && |after| == |own| && forall v :: Built(own, v) ==> Built(after, v)
  {
    OfClusterSetStatus(rows, taskID, Complete, clusterID);
  }
}
