/** The messages, stored events and task rows of the asynchronous task engine. */
module TaskModel {
  import opened Basics

  type TaskID = string

  /** Step names emitted by the runners; `Close` ends a run's message stream. */
  datatype Step =
    | Init | CreateTask | InitClusterConfig | InstallKubernetes | UpdateKubernetes | CreateCluster
    | CheckCluster | RegionOperator | RegionImageHub | RegionPackage | RegionConfig | Region
    | Close | OtherStep(name: string)

  datatype Status = Start | Success | Failure | Blank | OtherStatus(name: string)

  datatype Message = Message(step: Step, text: string, status: Status)

  datatype EventMessage = EventMessage(taskID: TaskID, message: Option<Message>)

  /** A row of the task-event table. */
  datatype TaskEvent =
    TaskEvent(taskID: TaskID, step: Step, text: string, status: Status, eventID: string, reason: string)

  datatype TaskStatus = Unset | Started | Complete | Inited | OtherTaskStatus(name: string)

  /** The columns shared by the three task tables, and those of one table only. */
  datatype TaskRow<X> =
    TaskRow(id: nat, taskID: TaskID, clusterID: string, provider: string, status: TaskStatus, extra: X)

  type CreateRow = TaskRow<string>  // the cluster name
  type InitRow = TaskRow<()>
  type UpdateRow = TaskRow<nat>     // the version of the optimistic lock

  /** `UPDATE ... SET status WHERE task_id`: every row of the task changes, no other. */
  function SetStatus<X>(rows: seq<TaskRow<X>>, taskID: TaskID, status: TaskStatus): (r: seq<TaskRow<X>>)
    ensures |r| == |rows|
    ensures forall i :: 0 <= i < |rows| ==>
      r[i] == if rows[i].taskID == taskID then rows[i].(status := status) else rows[i]
  {
    seq(|rows|, i requires 0 <= i < |rows| =>
      if rows[i].taskID == taskID then rows[i].(status := status) else rows[i])
  }

  /** Some row carries this task ID. */
  predicate HasTask<X>(rows: seq<TaskRow<X>>, taskID: TaskID) {
    exists i :: 0 <= i < |rows| && rows[i].taskID == taskID
  }

  /** Every row of the task has the given status. */
  predicate AllHave<X>(rows: seq<TaskRow<X>>, taskID: TaskID, status: TaskStatus) {
    forall i :: 0 <= i < |rows| && rows[i].taskID == taskID ==> rows[i].status == status
  }

  /** The rows of one cluster, in table order. */
  function OfCluster<X>(rows: seq<TaskRow<X>>, clusterID: string): seq<TaskRow<X>> {
    if rows == [] then []
    else
      OfCluster(rows[..|rows| - 1], clusterID) +
      (if rows[|rows| - 1].clusterID == clusterID then [rows[|rows| - 1]] else [])
  }

  /** `WHERE cluster_id = ? ORDER BY id DESC LIMIT 1` */
  function LastOfCluster<X>(rows: seq<TaskRow<X>>, clusterID: string): (r: Option<TaskRow<X>>) {
    if rows == [] then None
    else if rows[|rows| - 1].clusterID == clusterID then Some(rows[|rows| - 1])
    else LastOfCluster(rows[..|rows| - 1], clusterID)
  }

  lemma {:induction false} LastIsLastOfCluster<X>(rows: seq<TaskRow<X>>, clusterID: string)
    ensures var own := OfCluster(rows, clusterID);
      LastOfCluster(rows, clusterID) == if own == [] then None else Some(own[|own| - 1])
  {
    if rows != [] { LastIsLastOfCluster(rows[..|rows| - 1], clusterID); }
  }

  lemma OfClusterAppend<X>(rows: seq<TaskRow<X>>, row: TaskRow<X>, clusterID: string)
    ensures OfCluster(rows + [row], clusterID) ==
      OfCluster(rows, clusterID) + if row.clusterID == clusterID then [row] else []
  {
    assert (rows + [row])[..|rows|] == rows;
  }

  lemma {:induction false} OfClusterSetStatus<X>(rows: seq<TaskRow<X>>, taskID: TaskID, status: TaskStatus,
    clusterID: string)
    ensures OfCluster(SetStatus(rows, taskID, status), clusterID) ==
      SetStatus(OfCluster(rows, clusterID), taskID, status)
  {
    if rows != [] {
      var init := rows[..|rows| - 1];
      OfClusterSetStatus(init, taskID, status, clusterID);
      assert SetStatus(rows, taskID, status)[..|rows| - 1] == SetStatus(init, taskID, status);
    }
  }

  lemma {:induction false} OfClusterMembers<X>(rows: seq<TaskRow<X>>, clusterID: string)
    ensures forall r :: r in OfCluster(rows, clusterID) <==> r in rows && r.clusterID == clusterID
  {
    if rows != [] {
      OfClusterMembers(rows[..|rows| - 1], clusterID);
      assert rows == rows[..|rows| - 1] + [rows[|rows| - 1]];
    }
  }
}
