/** The RKE adaptor's two long-running operations, as emitters of step events over a stored cluster
    row, and the runners that wrap them. Calls into the RKE library, the file system and the
    database are inputs: each either works or fails with a text. */
module RkeAdaptor {
  import opened Basics
  import opened TaskModel
  import EventLog
  import NodeConfig

  datatype Stats = Initial | InstallFailed | Running | OtherStats(name: string)

  datatype Cluster = Cluster(id: string, stats: Stats, kubeConfig: string, apiURL: string)

  /** A library call: it works, or fails with a text. */
  type Call = Option<string>

  const GO_ON := Message(InitClusterConfig, "", Start)

  function Failed(step: Step, text: string): Message {
    Message(step, text, Failure)
  }

  /** The ways `ExpansionNode` returns. */
  datatype ExpansionExit =
    | LookupFailed | NoStateFile | RenameFailed(text: string) | WriteFailed(text: string)
    | InitFailed(text: string) | UpFailed(text: string) | Upgraded

  datatype ExpansionInputs = ExpansionInputs(firstSave: bool, lastSave: bool, stateFile: bool, rename: Call,
    write: Call, clusterInit: Call, clusterUp: Result<(string, string), string>, path: string)

  function ExpansionExitOf(found: bool, inp: ExpansionInputs): ExpansionExit {
    if !found then LookupFailed
    else if !inp.stateFile then NoStateFile
    else if inp.rename.Some? then RenameFailed(inp.rename.value)
    else if inp.write.Some? then WriteFailed(inp.write.value)
    else if inp.clusterInit.Some? then InitFailed(inp.clusterInit.value)
    else if inp.clusterUp.Err? then UpFailed(inp.clusterUp.error)
    else Upgraded
  }

  /** The events of `ExpansionNode` by the way it returns. */
  function ExpansionTrace(exit: ExpansionExit, path: string): seq<Message> {
    match exit
    case LookupFailed => [GO_ON, Failed(InitClusterConfig, "Get cluster meta info failure")]
    case NoStateFile => [GO_ON, Failed(InitClusterConfig, "state file not exist, can not support expansion node")]
    case RenameFailed(text) => [GO_ON, Failed(InitClusterConfig, text)]
    case WriteFailed(text) => [GO_ON, Failed(InitClusterConfig, text)]
    case InitFailed(text) => [GO_ON, Failed(InitClusterConfig, text)]
    case UpFailed(text) =>
      [GO_ON, Message(InitClusterConfig, "", Success), Message(UpdateKubernetes, path, Start),
       Failed(UpdateKubernetes, text)]
    case Upgraded =>
      [GO_ON, Message(InitClusterConfig, "", Success), Message(UpdateKubernetes, path, Start),
       Message(UpdateKubernetes, "", Success)]
  }

  /** The ways `CreateWutongKubernetes` returns. */
  datatype CreateExit =
    | CreateLookupFailed | NoConfig | Refused(why: NodeConfig.GateError) | CreateWriteFailed(text: string)
    | CreateInitFailed(text: string) | InstallationFailed(text: string) | Installed

  datatype CreateInputs = CreateInputs(nodes: Option<seq<NodeConfig.RKENode>>, resetSave: bool, metaSave: bool,
    lastSave: bool, write: Call, clusterInit: Call, clusterUp: Result<(string, string), string>)

  function CreateExitOf(found: bool, inp: CreateInputs): CreateExit {
    if !found then CreateLookupFailed
    else if inp.nodes.None? then NoConfig
    else
      var gate := NodeConfig.Gate(NodeConfig.RKERoles(inp.nodes.value));
      if gate.Some? then Refused(gate.value)
      else if inp.write.Some? then CreateWriteFailed(inp.write.value)
      else if inp.clusterInit.Some? then CreateInitFailed(inp.clusterInit.value)
      else if inp.clusterUp.Err? then InstallationFailed(inp.clusterUp.error)
      else Installed
  }

  function GateText(why: NodeConfig.GateError): string {
    match why
    case NoNodes => "Provide at least one node"
    case NoWorker => "Provide at least one compute node"
    case NoMaster => "Provide at least one master node"
    case NoEtcd => "Provide at least one etcd node"
  }

  /** The outcome of a creation, by what it was given: success exactly if every call works and the nodes
      pass the gate, otherwise the first obstacle with its text. */
  lemma CreationOutcome(found: bool, inp: CreateInputs, id: string)
    ensures var trace := CreateTrace(CreateExitOf(found, inp), id);
      var last := trace[|trace| - 1];
      if !found then last == Message(InitClusterConfig, "Get cluster meta info failure", Failure)
      else if inp.nodes.None? then last == Message(InitClusterConfig, "RKE config not found", Failure)
      else if !NodeConfig.Passes(inp.nodes.value)
      then last == Message(InitClusterConfig, GateFailure(inp.nodes.value), Failure)
      else if inp.write.Some? then last == Message(InitClusterConfig, inp.write.value, Failure)
      else if inp.clusterInit.Some? then last == Message(InitClusterConfig, inp.clusterInit.value, Failure)
      else if inp.clusterUp.Err? then last == Message(InstallKubernetes, inp.clusterUp.error, Failure)
      else last == Message(InstallKubernetes, id, Success)
  {
    if inp.nodes.Some? { NodeConfig.GateErrors(inp.nodes.value); }
  }

  /** What the operator is told of nodes that do not pass: the first thing that is missing. */
  function GateFailure(nodes: seq<NodeConfig.RKENode>): string {
    if nodes == [] then "Provide at least one node"
    else if !NodeConfig.SomeRKENodeHas(nodes, "worker") then "Provide at least one compute node"
    else if !NodeConfig.SomeRKENodeHas(nodes, "controlplane") then "Provide at least one master node"
    else "Provide at least one etcd node"
  }

  const INIT_OK := Message(InitClusterConfig, "init cluster config success", Success)

  /** The events of `CreateWutongKubernetes` by the way it returns. */
  function CreateTrace(exit: CreateExit, clusterID: string): seq<Message> {
    match exit
    case CreateLookupFailed => [GO_ON, Failed(InitClusterConfig, "Get cluster meta info failure")]
    case NoConfig => [GO_ON, Failed(InitClusterConfig, "RKE config not found")]
    case Refused(why) => [GO_ON, Failed(InitClusterConfig, GateText(why))]
    case CreateWriteFailed(text) => [GO_ON, Failed(InitClusterConfig, text)]
    case CreateInitFailed(text) => [GO_ON, Failed(InitClusterConfig, text)]
    case InstallationFailed(text) =>
      [GO_ON, INIT_OK, Message(InstallKubernetes, "", Start), Failed(InstallKubernetes, text)]
    case Installed =>
      [GO_ON, INIT_OK, Message(InstallKubernetes, "", Start), Message(InstallKubernetes, clusterID, Success)]
  }

  /** A failed cluster starts again from its initial state. */
  function Reset(cluster: Cluster): Cluster {
    if cluster.stats == InstallFailed then cluster.(stats := Initial) else cluster
  }

  class Adaptor {
    var stored: Option<Cluster>
    var sent: seq<Message>

    constructor (stored: Option<Cluster>)
      ensures this.stored == stored && this.sent == []
    {
      this.stored := stored;
      this.sent := [];
    }

    /** The callback through which the adaptor emits events. */
    method Rollback(step: Step, text: string, status: Status)
      modifies this`sent
      ensures sent == old(sent) + [Message(step, text, status)]
    {
      sent := sent + [Message(step, text, status)];
    }

    /** `Repo.Update`, whose error the adaptor only logs. */
    method Save(cluster: Cluster, works: bool)
      modifies this`stored
      ensures stored == if works then Some(cluster) else old(stored)
    {
      if works {
        stored := Some(cluster);
      }
    }

    /** The update succeeds exactly if every call works; otherwise the first that does not is announced
        with its text. If the last save works, success stores the new access to the cluster, and every
        failure but that of the lookup stores it as failed and changes nothing else. */
    method ExpansionNode(inp: ExpansionInputs)
      modifies this
      ensures sent == old(sent) + ExpansionTrace(ExpansionExitOf(old(stored).Some?, inp), inp.path)
      ensures sent[|sent| - 1] == Message(UpdateKubernetes, "", Success) <==>
        old(stored).Some? && inp.stateFile && inp.rename.None? && inp.write.None? && inp.clusterInit.None? &&
        inp.clusterUp.Ok?
      ensures old(stored).Some? && inp.stateFile && inp.rename.None? && inp.write.None? && inp.clusterInit.None? ==>
        sent == old(sent) +
          [Message(InitClusterConfig, "", Start), Message(InitClusterConfig, "", Success),
           Message(UpdateKubernetes, inp.path, Start),
           if inp.clusterUp.Ok? then Message(UpdateKubernetes, "", Success)
           else Message(UpdateKubernetes, inp.clusterUp.error, Failure)]
      ensures old(stored).None? || !inp.stateFile || inp.rename.Some? || inp.write.Some? || inp.clusterInit.Some? ==>
        sent == old(sent) + [Message(InitClusterConfig, "", Start), sent[|sent| - 1]]
      ensures old(stored).None? ==>
        sent[|sent| - 1] == Message(InitClusterConfig, "Get cluster meta info failure", Failure)
      ensures old(stored).Some? && !inp.stateFile ==>
        (sent[|sent| - 1] ==
         Message(InitClusterConfig, "state file not exist, can not support expansion node", Failure))
      ensures old(stored).Some? && inp.stateFile && inp.rename.Some? ==>
        sent[|sent| - 1] == Message(InitClusterConfig, inp.rename.value, Failure)
      ensures old(stored).Some? && inp.stateFile && inp.rename.None? && inp.write.Some? ==>
        sent[|sent| - 1] == Message(InitClusterConfig, inp.write.value, Failure)
      ensures old(stored).Some? && inp.stateFile && inp.rename.None? && inp.write.None? && inp.clusterInit.Some? ==>
        sent[|sent| - 1] == Message(InitClusterConfig, inp.clusterInit.value, Failure)
      ensures old(stored).None? ==> stored.None?
      ensures old(stored).Some? && inp.lastSave ==>
        stored == Some(
          if sent[|sent| - 1].status == Success
          then old(stored).value.(stats := Running, kubeConfig := inp.clusterUp.value.0,
            apiURL := inp.clusterUp.value.1)
          else old(stored).value.(stats := InstallFailed))
      ensures old(stored).Some? && !inp.lastSave ==>
        (stored == if inp.firstSave then Some(old(stored).value.(stats := Initial)) else old(stored))
    {
      Rollback(InitClusterConfig, "", Start);
      if stored.None? {
        Rollback(InitClusterConfig, "Get cluster meta info failure", Failure);
        return;
      }
      var rkecluster := stored.value.(stats := Initial);
      Save(rkecluster, inp.firstSave);
      rkecluster := rkecluster.(stats := InstallFailed);
      if !inp.stateFile {
        Rollback(InitClusterConfig, "state file not exist, can not support expansion node", Failure);
        Save(rkecluster, inp.lastSave);
        return;
      }
      if inp.rename.Some? {
        Rollback(InitClusterConfig, inp.rename.value, Failure);
        Save(rkecluster, inp.lastSave);
        return;
      }
      if inp.write.Some? {
        Rollback(InitClusterConfig, inp.write.value, Failure);
        Save(rkecluster, inp.lastSave);
        return;
      }
      if inp.clusterInit.Some? {
        Save(rkecluster, inp.lastSave);
        Rollback(InitClusterConfig, inp.clusterInit.value, Failure);
        return;
      }
      Rollback(InitClusterConfig, "", Success);
      Rollback(UpdateKubernetes, inp.path, Start);
      if inp.clusterUp.Err? {
        Save(rkecluster, inp.lastSave);
        Rollback(UpdateKubernetes, inp.clusterUp.error, Failure);
        return;
      }
      rkecluster := rkecluster.(kubeConfig := inp.clusterUp.value.0, apiURL := inp.clusterUp.value.1, stats := Running);
      Save(rkecluster, inp.lastSave);
      Rollback(UpdateKubernetes, "", Success);
    }

    /** The creation succeeds exactly if every call works and the nodes pass the gate; otherwise the first
        obstacle is announced with its text. What stops the run before RKE is started leaves the cluster
        as it is, except that a failed one may be reset. */
    method CreateWutongKubernetes(inp: CreateInputs)
      modifies this
      ensures old(stored).None? || inp.nodes.None? || !NodeConfig.Passes(inp.nodes.value) ==> stored == old(stored)
      ensures old(stored).Some? ==> stored.Some? && stored.value.id == old(stored).value.id
      ensures (old(stored).Some? && inp.nodes.Some? && NodeConfig.Passes(inp.nodes.value) && inp.write.Some?) ==>
        (stored == if old(stored).value.stats == InstallFailed && inp.resetSave
         then Some(old(stored).value.(stats := Initial)) else old(stored))
      ensures (old(stored).Some? && inp.nodes.Some? && NodeConfig.Passes(inp.nodes.value) && inp.write.None? &&
          inp.clusterInit.Some? && inp.lastSave) ==>
        stored == Some(old(stored).value.(stats := InstallFailed))
      ensures sent == old(sent) + CreateTrace(CreateExitOf(old(stored).Some?, inp),
        if old(stored).Some? then old(stored).value.id else "")
      ensures old(stored).Some? && inp.lastSave && sent[|sent| - 1].step == InstallKubernetes ==>
        (stored == Some(
          if sent[|sent| - 1].status == Success
          then old(stored).value.(stats := Running, kubeConfig := inp.clusterUp.value.0,
            apiURL := inp.clusterUp.value.1)
          else old(stored).value.(stats := InstallFailed)))
      ensures (old(stored).Some? && inp.nodes.Some? && NodeConfig.Passes(inp.nodes.value) && inp.write.None? &&
          !inp.lastSave && inp.metaSave) ==>
        (stored.value.stats ==
         if old(stored).value.stats == InstallFailed then Initial else old(stored).value.stats)
    {
      if inp.nodes.Some? { NodeConfig.GateErrors(inp.nodes.value); }
      var cluster := PrepareCluster(inp);
      if cluster.Some? {
        InstallKubernetesWith(cluster.value, inp);
      }
    }

    /** The first part of `CreateWutongKubernetes`: the cluster to install, if nothing stands in the way. */
    method PrepareCluster(inp: CreateInputs) returns (cluster: Option<Cluster>)
      modifies this
      ensures cluster.Some? <==>
        old(stored).Some? && inp.nodes.Some? && NodeConfig.Passes(inp.nodes.value) && inp.write.None?
      ensures sent == old(sent) +
        if cluster.Some? then [GO_ON] else CreateTrace(CreateExitOf(old(stored).Some?, inp), "")
      ensures old(stored).Some? ==> stored.Some? && stored.value.id == old(stored).value.id
      ensures old(stored).None? || inp.nodes.None? || !NodeConfig.Passes(inp.nodes.value) ==> stored == old(stored)
      ensures cluster.Some? ==> cluster.value == Reset(old(stored).value) && (inp.metaSave ==> stored == cluster)
      ensures (old(stored).Some? && inp.nodes.Some? && NodeConfig.Passes(inp.nodes.value) && inp.write.Some?) ==>
        (stored == if old(stored).value.stats == InstallFailed && inp.resetSave
         then Some(old(stored).value.(stats := Initial)) else old(stored))
    {
      Rollback(InitClusterConfig, "", Start);
      if stored.None? {
        Rollback(InitClusterConfig, "Get cluster meta info failure", Failure);
        return None;
      }
      var rkecluster := stored.value;
      if inp.nodes.None? {
        Rollback(InitClusterConfig, "RKE config not found", Failure);
        return None;
      }
      var gate := NodeConfig.RoleGate(inp.nodes.value);
      if gate.Some? {
        Rollback(InitClusterConfig, GateText(gate.value), Failure);
        return None;
      }
      if rkecluster.stats == InstallFailed {
        rkecluster := rkecluster.(stats := Initial);
        Save(rkecluster, inp.resetSave);
      }
      if inp.write.Some? {
        Rollback(InitClusterConfig, inp.write.value, Failure);
        return None;
      }
      Save(rkecluster, inp.metaSave);
      return Some(rkecluster);
    }

    /** The last part of `CreateWutongKubernetes`, which starts RKE. */
    method InstallKubernetesWith(cluster: Cluster, inp: CreateInputs)
      modifies this
      ensures old(stored).Some? ==> stored.Some?
      ensures stored == if !inp.lastSave then old(stored)
        else if inp.clusterInit.Some? || inp.clusterUp.Err? then Some(cluster.(stats := InstallFailed))
        else Some(cluster.(kubeConfig := inp.clusterUp.value.0, apiURL := inp.clusterUp.value.1, stats := Running))
      ensures sent == old(sent) +
        if inp.clusterInit.Some? then [Failed(InitClusterConfig, inp.clusterInit.value)]
        else
          [INIT_OK, Message(InstallKubernetes, "", Start)] +
          if inp.clusterUp.Err? then [Failed(InstallKubernetes, inp.clusterUp.error)]
          else [Message(InstallKubernetes, cluster.id, Success)]
    {
      var rkecluster := cluster;
      if inp.clusterInit.Some? {
        Rollback(InitClusterConfig, inp.clusterInit.value, Failure);
        Save(rkecluster.(stats := InstallFailed), inp.lastSave);
        return;
      }
      Rollback(InitClusterConfig, "init cluster config success", Success);
      Rollback(InstallKubernetes, "", Start);
      if inp.clusterUp.Err? {
        Save(rkecluster.(stats := InstallFailed), inp.lastSave);
        Rollback(InstallKubernetes, inp.clusterUp.error, Failure);
        return;
      }
      rkecluster := rkecluster.(kubeConfig := inp.clusterUp.value.0, apiURL := inp.clusterUp.value.1, stats := Running);
      Save(rkecluster, inp.lastSave);
      Rollback(InstallKubernetes, rkecluster.id, Success);
    }
  }

  // ----- the runners

  /** The update runner: without an adaptor the cluster is not touched. */
  method RunUpdate(adaptor: Adaptor, noAdaptor: Call, inp: ExpansionInputs)
    modifies adaptor
    ensures var trace := ExpansionTrace(ExpansionExitOf(old(adaptor.stored).Some?, inp), inp.path);
      adaptor.sent == old(adaptor.sent) + RunnerTrace(noAdaptor, trace)
    ensures noAdaptor.Some? ==>
      adaptor.stored == old(adaptor.stored) &&
      adaptor.sent[|adaptor.sent| - 1] == Message(Init, "create cloud adaptor failure " + noAdaptor.value, Failure)
    ensures adaptor.sent[|adaptor.sent| - 1] == Message(UpdateKubernetes, "", Success) <==>
      noAdaptor.None? && old(adaptor.stored).Some? && inp.stateFile && inp.rename.None? && inp.write.None? &&
      inp.clusterInit.None? && inp.clusterUp.Ok?
  {
    adaptor.Rollback(Init, "", Start);
    if noAdaptor.Some? {
      adaptor.Rollback(Init, "create cloud adaptor failure " + noAdaptor.value, Failure);
      return;
    }
    adaptor.Rollback(Init, "cloud adaptor create success", Success);
    adaptor.ExpansionNode(inp);
  }

  /** Every result of a step comes after the start of the step. */
  predicate StartsFirst(ms: seq<Message>) {
    forall k :: 0 <= k < |ms| && ms[k].status != Start ==>
      exists j :: 0 <= j < k && ms[j].step == ms[k].step && ms[j].status == Start
  }

  lemma StartsFirstAppend(a: seq<Message>, b: seq<Message>)
    requires StartsFirst(a) && StartsFirst(b)
    ensures StartsFirst(a + b)
  {
    var ms := a + b;
    forall k | 0 <= k < |ms| && ms[k].status != Start
      ensures exists j :: 0 <= j < k && ms[j].step == ms[k].step && ms[j].status == Start
    {
      if k < |a| {
        var j :| 0 <= j < k && a[j].step == a[k].step && a[j].status == Start;
        assert ms[j] == a[j];
      } else {
        var j :| 0 <= j < k - |a| && b[j].step == b[k - |a|].step && b[j].status == Start;
        assert ms[j + |a|] == b[j];
      }
    }
  }

  lemma StartedResult(start: Message, result: Message)
    requires start.status == Start && start.step == result.step
    ensures StartsFirst([start, result])
  {
    assert [start, result][0] == start;
  }

  lemma UpdateRunStartsFirst(noAdaptor: Call, exit: ExpansionExit, path: string)
    ensures StartsFirst(RunnerTrace(noAdaptor, ExpansionTrace(exit, path)))
  {
    TwoStepsStartFirst(ExpansionTrace(exit, path));
    RunnerStartsFirst(noAdaptor, ExpansionTrace(exit, path));
  }

  lemma CreateRunStartsFirst(noAdaptor: Call, exit: CreateExit, clusterID: string)
    ensures StartsFirst(RunnerTrace(noAdaptor, CreateTrace(exit, clusterID)))
  {
    TwoStepsStartFirst(CreateTrace(exit, clusterID));
    RunnerStartsFirst(noAdaptor, CreateTrace(exit, clusterID));
  }

  /** In update and create runs every result of a step comes after its start. */
  lemma RunsStartFirst(ms: seq<Message>)
    requires IsUpdateRun(ms) || IsCreateRun(ms)
    ensures StartsFirst(ms)
  {
    if IsUpdateRun(ms) {
      var noAdaptor: Call, exit, path :| ms == RunnerTrace(noAdaptor, ExpansionTrace(exit, path));
      UpdateRunStartsFirst(noAdaptor, exit, path);
    } else {
      var noAdaptor: Call, exit, clusterID :| ms == RunnerTrace(noAdaptor, CreateTrace(exit, clusterID));
      CreateRunStartsFirst(noAdaptor, exit, clusterID);
    }
  }

  lemma TwoStepsStartFirst(t: seq<Message>)
    requires |t| == 2 || |t| == 4
    requires t[0].status == Start && t[0].step == t[1].step
    requires |t| == 4 ==> t[2].status == Start && t[2].step == t[3].step
    ensures StartsFirst(t)
  {
    StartedResult(t[0], t[1]);
    if |t| == 4 {
      StartedResult(t[2], t[3]);
      StartsFirstAppend([t[0], t[1]], [t[2], t[3]]);
      assert t == [t[0], t[1]] + [t[2], t[3]];
    } else {
      assert t == [t[0], t[1]];
    }
  }

  lemma RunnerStartsFirst(noAdaptor: Call, t: seq<Message>)
    requires StartsFirst(t)
    ensures StartsFirst(RunnerTrace(noAdaptor, t))
  {
    var ms, start := RunnerTrace(noAdaptor, t), Message(Init, "", Start);
    StartedResult(start, ms[1]);
    if noAdaptor.None? {
      StartsFirstAppend([start, ms[1]], t);
      assert ms == [start, ms[1]] + t;
    } else {
      assert ms == [start, ms[1]];
    }
  }

  /** What a runner emits before the closing message: the adaptor's events, unless there is no adaptor. */
  function RunnerTrace(noAdaptor: Call, adaptorTrace: seq<Message>): seq<Message> {
    [Message(Init, "", Start)] +
    match noAdaptor
    case Some(text) => [Failed(Init, "create cloud adaptor failure " + text)]
    case None => [Message(Init, "cloud adaptor create success", Success)] + adaptorTrace
  }

  /** The complete traces of update runs. */
  ghost predicate IsUpdateRun(ms: seq<Message>) {
    exists noAdaptor: Call, exit, path :: ms == RunnerTrace(noAdaptor, ExpansionTrace(exit, path))
  }

  /** The complete traces of create runs of RKE clusters. */
  ghost predicate IsCreateRun(ms: seq<Message>) {
    exists noAdaptor: Call, exit, clusterID :: ms == RunnerTrace(noAdaptor, CreateTrace(exit, clusterID))
  }

  /** The message ends the work of a task of this kind (`work` is the step that succeeds last). */
  predicate Final(m: Message, work: Step) {
    m.status == Failure || (m.status == Success && m.step == work)
  }

  /** The run closes properly: its last message is final and decides its step, no earlier one is
      final, and none is the closing message. */
  predicate WellEnded(ms: seq<Message>, work: Step) {
    ms != [] && Final(ms[|ms| - 1], work) && EventLog.Decides(ms, |ms| - 1) &&
    (forall i :: 0 <= i < |ms| - 1 ==> !Final(ms[i], work)) &&
    (forall i :: 0 <= i < |ms| ==> ms[i].step != Close)
  }

  /** A message that neither ends the work nor succeeds at the last step may come first. */
  lemma Prepend(m: Message, ms: seq<Message>, work: Step)
    requires WellEnded(ms, work) && !Final(m, work) && m.step != Close
    requires m.status == Success ==> m.step != ms[|ms| - 1].step
    ensures WellEnded([m] + ms, work)
  {
    var all := [m] + ms;
    assert forall i :: 1 <= i < |all| ==> all[i] == ms[i - 1];
  }

  /** The two shapes of an adaptor's trace: a failed configuration, or a last step with its outcome. */
  lemma AdaptorTraceEndsWell(ms: seq<Message>, work: Step, ok: Message, start: Message, last: Message)
    requires work != InitClusterConfig && work != Close && Final(last, work)
    requires ok.step == InitClusterConfig && ok.status == Success && start.step == work && start.status == Start
    requires (ms == [GO_ON, last] && last.step == InitClusterConfig) ||
      (ms == [GO_ON, ok, start, last] && last.step == work)
    ensures WellEnded(ms, work)
  {
    assert WellEnded([last], work);
    if ms == [GO_ON, last] {
      Prepend(GO_ON, [last], work);
      assert ms == [GO_ON] + [last];
    } else {
      Prepend(start, [last], work);
      Prepend(ok, [start] + [last], work);
      Prepend(GO_ON, [ok] + ([start] + [last]), work);
      assert ms == [GO_ON] + ([ok] + ([start] + [last]));
    }
  }

  lemma RunnerTraceEndsWell(noAdaptor: Call, adaptorTrace: seq<Message>, work: Step)
    requires WellEnded(adaptorTrace, work) && work != Init
    requires adaptorTrace[|adaptorTrace| - 1].step != Init
    ensures WellEnded(RunnerTrace(noAdaptor, adaptorTrace), work)
  {
    var start := Message(Init, "", Start);
    match noAdaptor {
      case Some(text) =>
        var failed := Failed(Init, "create cloud adaptor failure " + text);
        assert WellEnded([failed], work);
        Prepend(start, [failed], work);
      case None =>
        var ok := Message(Init, "cloud adaptor create success", Success);
        Prepend(ok, adaptorTrace, work);
        Prepend(start, [ok] + adaptorTrace, work);
    }
  }

  lemma ExpansionEndsWell(exit: ExpansionExit, path: string)
    ensures var t := ExpansionTrace(exit, path);
      WellEnded(t, UpdateKubernetes) && t[|t| - 1].step != Init
  {
    var t := ExpansionTrace(exit, path);
    AdaptorTraceEndsWell(t, UpdateKubernetes, Message(InitClusterConfig, "", Success),
      Message(UpdateKubernetes, path, Start), t[|t| - 1]);
  }

  lemma CreationEndsWell(exit: CreateExit, clusterID: string)
    ensures var t := CreateTrace(exit, clusterID);
      WellEnded(t, InstallKubernetes) && t[|t| - 1].step != Init
  {
    var t := CreateTrace(exit, clusterID);
    AdaptorTraceEndsWell(t, InstallKubernetes, INIT_OK, Message(InstallKubernetes, "", Start), t[|t| - 1]);
  }

  /** Every way an RKE update run returns ends its work. */
  lemma UpdateRunsEndWell(ms: seq<Message>)
    requires IsUpdateRun(ms)
    ensures WellEnded(ms, UpdateKubernetes)
  {
    var noAdaptor: Call, exit, path :| ms == RunnerTrace(noAdaptor, ExpansionTrace(exit, path));
    ExpansionEndsWell(exit, path);
    RunnerTraceEndsWell(noAdaptor, ExpansionTrace(exit, path), UpdateKubernetes);
  }

  /** Every way an RKE create run returns ends its work. */
  lemma CreateRunsEndWell(ms: seq<Message>)
    requires IsCreateRun(ms)
    ensures WellEnded(ms, InstallKubernetes)
  {
    var noAdaptor: Call, exit, clusterID :| ms == RunnerTrace(noAdaptor, CreateTrace(exit, clusterID));
    CreationEndsWell(exit, clusterID);
    RunnerTraceEndsWell(noAdaptor, CreateTrace(exit, clusterID), InstallKubernetes);
  }
}
