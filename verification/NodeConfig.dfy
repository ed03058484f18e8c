/** Node lists of a cluster and the node section of an RKE configuration. */
module NodeConfig {
  import opened Basics

  // ----- decimal numbers (`fmt.Sprintf("%d")`, `strconv.Atoi`)

  const MIN_INT := -0x8000_0000_0000_0000
  const MAX_INT := 0x7fff_ffff_ffff_ffff

  /** The range of a Go `int` on the 64-bit platforms the program is built for. */
  type Int64 = n: int | MIN_INT <= n <= MAX_INT

  predicate IsDigit(c: char) {
    '0' <= c <= '9'
  }

  function Digits(n: nat): string {
    (if n < 10 then "" else Digits(n / 10)) + [('0' as int + n % 10) as char]
  }

  function Itoa(n: int): string {
    if n < 0 then "-" + Digits(-n) else Digits(n)
  }

  predicate AllDigits(s: string) {
    forall i :: 0 <= i < |s| ==> IsDigit(s[i])
  }

  function Value(s: string): nat
    requires AllDigits(s)
  {
    if s == "" then 0 else 10 * Value(s[..|s| - 1]) + (s[|s| - 1] as int - '0' as int)
  }

  /** `v` as a Go `int`, if it fits. */
  function InRange(v: int): Option<Int64> {
    if MIN_INT <= v <= MAX_INT then Some(v) else None
  }

  /** An optional sign, then digits, in range. */
  function Atoi(s: string): Option<Int64> {
    var signed := s != "" && (s[0] == '-' || s[0] == '+');
    var body := if signed then s[1..] else s;
    if body == "" || !AllDigits(body) then None
    else
      var magnitude: int := Value(body);
      InRange(if signed && s[0] == '-' then -magnitude else magnitude)
  }

  lemma {:induction false} DigitsValue(n: nat)
    ensures Digits(n) != "" && AllDigits(Digits(n)) && Value(Digits(n)) == n
  {
    var s := Digits(n);
    if n >= 10 { DigitsValue(n / 10); }
    assert s[..|s| - 1] == if n < 10 then "" else Digits(n / 10);
  }

  lemma AtoiUnsigned(body: string)
    requires body != "" && AllDigits(body)
    ensures Atoi(body) == InRange(Value(body))
    ensures Atoi("-" + body) == InRange(-(Value(body) as int))
  {
    assert IsDigit(body[0]);
    assert ("-" + body)[1..] == body;
  }

  /** A number is printed with a minus sign if it is negative, and without leading zeros. */
  lemma ItoaIsCanonical(n: Int64)
    ensures var s := Itoa(n);
      s != "" && (s[0] == '-' <==> n < 0) && (n != 0 ==> s[if n < 0 then 1 else 0] != '0') && (n == 0 ==> s == "0")
  {
    FirstDigit(if n < 0 then -(n as int) else n);
    assert n == 0 ==> Digits(0) == "0";
  }

  lemma {:induction false} FirstDigit(n: nat)
    ensures Digits(n) != "" && IsDigit(Digits(n)[0]) && (n > 0 ==> Digits(n)[0] != '0')
  {
    if n >= 10 { FirstDigit(n / 10); }
  }

  lemma NumeralReads(s: string, sign: string, body: string)
    requires IsNumeral(s, sign, body)
    ensures Atoi(s) == InRange(if sign == "-" then -(Value(body) as int) else Value(body))
  {
    assert IsDigit(body[0]) && s[|sign|..] == body && s[..|sign|] == sign;
    assert sign == "" ==> s[0] == body[0];
  }

  lemma ReadIsNumeral(s: string) returns (sign: string, body: string)
    requires Atoi(s).Some?
    ensures IsNumeral(s, sign, body)
  {
    sign := if s[0] == '-' then "-" else if s[0] == '+' then "+" else "";
    body := s[|sign|..];
    assert s == sign + body;
  }

  /** The texts that read as a number are the numerals, a sign or none and decimal digits, of a value in range. */
  lemma AtoiReads(s: string)
    ensures Atoi(s).Some? ==> exists sign, body :: IsNumeral(s, sign, body)
    ensures forall sign, body :: IsNumeral(s, sign, body) ==>
      Atoi(s) == InRange(if sign == "-" then -(Value(body) as int) else Value(body))
  {
    if Atoi(s).Some? { var sign, body := ReadIsNumeral(s); }
    forall sign, body | IsNumeral(s, sign, body)
      ensures Atoi(s) == InRange(if sign == "-" then -(Value(body) as int) else Value(body))
    {
      NumeralReads(s, sign, body);
    }
  }

  predicate IsNumeral(s: string, sign: string, body: string) {
    s == sign + body && (sign == "" || sign == "+" || sign == "-") && body != "" && AllDigits(body)
  }

  /** Parsing what was printed gives the number back. */
  lemma AtoiOfItoa(n: Int64)
    ensures Atoi(Itoa(n)) == Some(n)
  {
    var abs: nat := if n < 0 then -(n as int) else n;
    DigitsValue(abs);
    AtoiUnsigned(Digits(abs));
  }

  // ----- conversions

  datatype ConfigNode = ConfigNode(ip: string, internalAddress: string, sshUser: string, sshPort: Int64,
    dockerSocketPath: string, roles: seq<string>)

  datatype RKENode = RKENode(nodeName: string, address: string, port: string, internalAddress: string,
    role: seq<string>, user: string, dockerSocket: string, sshKeyPath: string)

  datatype NodeError = EmptyList | IPInvalid | PortInvalid | RoleMiss | EtcdNotOdd | IncorrectPort(port: string)

  function ToRKE(n: ConfigNode): RKENode {
    RKENode("", n.ip, if n.sshPort != 0 then Itoa(n.sshPort) else "22", n.internalAddress, n.roles,
      if n.sshUser != "" then n.sshUser else "docker", n.dockerSocketPath, "~/.ssh/id_rsa")
  }

  function ToRKEs(nodes: seq<ConfigNode>): (r: seq<RKENode>)
    ensures |r| == |nodes| && forall i :: 0 <= i < |nodes| ==> r[i] == ToRKE(nodes[i])
  {
    seq(|nodes|, i requires 0 <= i < |nodes| => ToRKE(nodes[i]))
  }

  /** One node per entry, in order: what the entry gives, with port 22 and user docker for what it leaves out. */
  method NodeListToRKEConfigNodes(nodeList: seq<ConfigNode>) returns (nodes: seq<RKENode>)
    ensures |nodes| == |nodeList|
    ensures forall i :: 0 <= i < |nodes| ==>
      nodes[i].nodeName == "" && nodes[i].sshKeyPath == "~/.ssh/id_rsa" && nodes[i].address == nodeList[i].ip &&
      nodes[i].internalAddress == nodeList[i].internalAddress && nodes[i].role == nodeList[i].roles &&
      nodes[i].dockerSocket == nodeList[i].dockerSocketPath &&
      nodes[i].user == (if nodeList[i].sshUser == "" then "docker" else nodeList[i].sshUser) &&
      (nodeList[i].sshPort == 0 ==> nodes[i].port == "22") &&
      (nodeList[i].sshPort != 0 ==> Atoi(nodes[i].port) == Some(nodeList[i].sshPort))
    ensures nodes == ToRKEs(nodeList)
  {
    nodes := [];
    for i := 0 to |nodeList|
      invariant nodes == ToRKEs(nodeList[..i])
    {
      var node := nodeList[i];
      var port := "22";
      if node.sshPort != 0 {
        port := Itoa(node.sshPort);
      }
      var user := "docker";
      if node.sshUser != "" {
        user := node.sshUser;
      }
      nodes := nodes + [RKENode("", node.ip, port, node.internalAddress, node.roles, user, node.dockerSocketPath,
        "~/.ssh/id_rsa")];
    }
    assert nodeList[..|nodeList|] == nodeList;
    forall i | 0 <= i < |nodes|
      ensures nodeList[i].sshPort != 0 ==> Atoi(nodes[i].port) == Some(nodeList[i].sshPort)
    {
      AtoiOfItoa(nodeList[i].sshPort);
    }
  }

  /** The node list of an RKE configuration; the first unreadable port is the error. */
  method RKEConfigToNodeList(nodes: seq<RKENode>) returns (r: Result<seq<ConfigNode>, NodeError>)
    ensures r.Ok? <==> forall i :: 0 <= i < |nodes| ==> Atoi(nodes[i].port).Some?
    ensures r.Ok? ==> |r.value| == |nodes| && forall i :: 0 <= i < |nodes| ==> Describes(r.value[i], nodes[i])
    ensures r.Err? ==> (exists i ::
      0 <= i < |nodes| && r == Err(IncorrectPort(nodes[i].port)) && Atoi(nodes[i].port).None? &&
      forall j :: 0 <= j < i ==> Atoi(nodes[j].port).Some?)
  {
    var nodeList: seq<ConfigNode> := [];
    for i := 0 to |nodes|
      invariant |nodeList| == i
      invariant forall j :: 0 <= j < i ==> Describes(nodeList[j], nodes[j])
    {
      var node := nodes[i];
      var port := Atoi(node.port);
      if port.None? {
        return Err(IncorrectPort(node.port));
      }
      nodeList := nodeList +
        [ConfigNode(node.address, node.internalAddress, node.user, port.value, node.dockerSocket, node.role)];
    }
    return Ok(nodeList);
  }

  /** The list entry says what the RKE node says. */
  predicate Describes(n: ConfigNode, r: RKENode) {
    n.ip == r.address && n.internalAddress == r.internalAddress && n.sshUser == r.user &&
    n.dockerSocketPath == r.dockerSocket && n.roles == r.role && Atoi(r.port) == Some(n.sshPort)
  }

  /** A node with the two defaults filled in. */
  function Defaulted(n: ConfigNode): ConfigNode {
    n.(sshPort := if n.sshPort == 0 then 22 else n.sshPort, sshUser := if n.sshUser == "" then "docker" else n.sshUser)
  }

  lemma TwentyTwo()
    ensures Itoa(22) == "22" && Atoi("22") == Some(22)
  {
    assert Digits(2) == "2";
    assert Digits(22) == "22";
    AtoiOfItoa(22);
  }

  /** The port printed for a node reads back as its defaulted port, and prints the same again. */
  lemma PortRoundTrip(n: ConfigNode)
    ensures Atoi(ToRKE(n).port) == Some(Defaulted(n).sshPort)
    ensures ToRKE(Defaulted(n)).port == ToRKE(n).port
  {
    TwentyTwo();
    AtoiOfItoa(n.sshPort);
  }

  lemma NodeRoundTrip(n: ConfigNode)
    ensures forall back :: Describes(back, ToRKE(n)) <==> back == Defaulted(n)
    ensures ToRKE(Defaulted(n)) == ToRKE(n)
  {
    PortRoundTrip(n);
  }

  /** A node list with its defaults filled in, converted again, gives the same RKE nodes. */
  lemma ConversionIsStable(nodes: seq<ConfigNode>, back: seq<ConfigNode>)
    requires |back| == |nodes| && forall i :: 0 <= i < |nodes| ==> Describes(back[i], ToRKE(nodes[i]))
    ensures forall i :: 0 <= i < |nodes| ==> back[i] == Defaulted(nodes[i])
    ensures ToRKEs(back) == ToRKEs(nodes)
  {
    forall i | 0 <= i < |nodes|
      ensures back[i] == Defaulted(nodes[i]) && ToRKE(back[i]) == ToRKE(nodes[i])
    {
      NodeRoundTrip(nodes[i]);
    }
  }

  // ----- roles

  /** `strings.Join(parts, ",")` */
  function Join(parts: seq<string>): string {
    if parts == [] then ""
    else if |parts| == 1 then parts[0]
    else parts[0] + "," + Join(parts[1..])
  }

  /** The test of the code: search inside the joined roles. */
  predicate InJoined(roles: seq<string>, name: string) {
    Contains(Join(roles), name)
  }

  /** The meaning: some role string contains the name. */
  predicate HasRole(roles: seq<string>, name: string) {
    exists i :: 0 <= i < |roles| && Contains(roles[i], name)
  }

  lemma OccursInLeft(a: string, b: string, name: string, i: int)
    requires OccursAt(a, name, i)
    ensures OccursAt(a + b, name, i)
  {
    assert (a + b)[i..i + |name|] == a[i..i + |name|];
  }

  lemma OccursInRight(a: string, b: string, name: string, i: int)
    requires OccursAt(b, name, i)
    ensures OccursAt(a + b, name, i + |a|)
  {
    assert (a + b)[i + |a|..i + |a| + |name|] == b[i..i + |name|];
  }

  /** An occurrence that does not touch the separator lies on one side of it. */
  lemma OccursOnOneSide(a: string, b: string, name: string, i: int)
    requires ',' !in name && name != ""
    requires OccursAt(a + "," + b, name, i)
    ensures OccursAt(a, name, i) || OccursAt(b, name, i - |a| - 1)
  {
    var s := a + "," + b;
    if i + |name| <= |a| {
      assert s[i..i + |name|] == a[i..i + |name|];
    } else if i > |a| {
      assert s[i..i + |name|] == b[i - |a| - 1..i - |a| - 1 + |name|];
    } else {
      SeparatorInside(s, name, i, |a|);
    }
  }

  lemma SeparatorInside(s: string, name: string, i: int, at: int)
    requires OccursAt(s, name, i) && i <= at < i + |name|
    ensures s[at] in name
  {
    assert s[i..i + |name|][at - i] == s[at];
  }

  /** Searching the joined roles is searching every role, for names without a comma. */
  lemma {:induction false} JoinedSearchIsPerRole(roles: seq<string>, name: string)
    requires ',' !in name && name != ""
    ensures InJoined(roles, name) <==> HasRole(roles, name)
  {
    if |roles| > 1 {
      var tail, rest := roles[1..], Join(roles[1..]);
      JoinedSearchIsPerRole(tail, name);
      if InJoined(roles, name) {
        var i :| 0 <= i <= |Join(roles)| - |name| && OccursAt(Join(roles), name, i);
        OccursOnOneSide(roles[0], rest, name, i);
        if !OccursAt(roles[0], name, i) {
          var k :| 0 <= k < |tail| && Contains(tail[k], name);
          assert Contains(roles[k + 1], name);
        }
      }
      if HasRole(roles, name) {
        var k :| 0 <= k < |roles| && Contains(roles[k], name);
        assert Join(roles) == roles[0] + ("," + rest) == (roles[0] + ",") + rest;
        if k == 0 {
          var i :| 0 <= i <= |roles[0]| - |name| && OccursAt(roles[0], name, i);
          OccursInLeft(roles[0], "," + rest, name, i);
        } else {
          assert Contains(tail[k - 1], name);
          var i :| 0 <= i <= |rest| - |name| && OccursAt(rest, name, i);
          OccursInRight(roles[0] + ",", rest, name, i);
        }
      }
    } else if |roles| == 1 {
      assert InJoined(roles, name) <==> Contains(roles[0], name);
    }
  }

  const CONTROLPLANE := "controlplane"
  const WORKER := "worker"
  const ETCD := "etcd"

  /** The number of role lists that have the role. */
  function Count(roles: seq<seq<string>>, name: string): nat {
    if roles == [] then 0
    else Count(roles[..|roles| - 1], name) + (if HasRole(roles[|roles| - 1], name) then 1 else 0)
  }

  /** It is the number of the places that have it. */
  lemma {:induction false} CountIs(roles: seq<seq<string>>, name: string)
    ensures Count(roles, name) == |set i | 0 <= i < |roles| && HasRole(roles[i], name)|
  {
    var n := |roles| - 1;
    if n >= 0 {
      CountIs(roles[..n], name);
      var before := set i | 0 <= i < n && HasRole(roles[..n][i], name);
      var last: set<int> := if HasRole(roles[n], name) then {n} else {};
      assert (set i | 0 <= i < |roles| && HasRole(roles[i], name)) == before + last;
    }
  }

  lemma {:induction false} CountPositive(roles: seq<seq<string>>, name: string)
    ensures Count(roles, name) > 0 <==> exists i :: 0 <= i < |roles| && HasRole(roles[i], name)
  {
    if roles != [] {
      CountPositive(roles[..|roles| - 1], name);
    }
  }

  /** The three counters of the validator and of the adaptor, whose loop bodies agree. */
  method CountRoles(roles: seq<string>, masterNode: nat, workerNode: nat, etcdNode: nat)
    returns (master: nat, worker: nat, etcd: nat)
    ensures master == masterNode + if HasRole(roles, CONTROLPLANE) then 1 else 0
    ensures worker == workerNode + if HasRole(roles, WORKER) then 1 else 0
    ensures etcd == etcdNode + if HasRole(roles, ETCD) then 1 else 0
  {
    master, worker, etcd := masterNode, workerNode, etcdNode;
    JoinedSearchIsPerRole(roles, CONTROLPLANE);
    JoinedSearchIsPerRole(roles, WORKER);
    JoinedSearchIsPerRole(roles, ETCD);
    if InJoined(roles, CONTROLPLANE) { master := master + 1; }
    if InJoined(roles, WORKER) { worker := worker + 1; }
    if InJoined(roles, ETCD) { etcd := etcd + 1; }
  }

  // ----- validation

  datatype IPKind = Unparsable | Loopback | Usable

  function Roles(nodes: seq<ConfigNode>): (r: seq<seq<string>>)
    ensures |r| == |nodes| && forall i :: 0 <= i < |nodes| ==> r[i] == nodes[i].roles
  {
    seq(|nodes|, i requires 0 <= i < |nodes| => nodes[i].roles)
  }

  predicate GoodIP(parse: string -> IPKind, n: ConfigNode) {
    parse(n.ip) == Usable
  }

  predicate GoodNode(parse: string -> IPKind, n: ConfigNode) {
    GoodIP(parse, n) && 0 <= n.sshPort <= 65533
  }

  /** Node `i` is the first bad one. */
  predicate FirstBad(parse: string -> IPKind, nodes: seq<ConfigNode>, i: int) {
    0 <= i < |nodes| && !GoodNode(parse, nodes[i]) && forall j :: 0 <= j < i ==> GoodNode(parse, nodes[j])
  }

  predicate AllGood(parse: string -> IPKind, nodes: seq<ConfigNode>) {
    forall i :: 0 <= i < |nodes| ==> GoodNode(parse, nodes[i])
  }

  predicate SomeNodeHas(nodes: seq<ConfigNode>, name: string) {
    exists i :: 0 <= i < |nodes| && HasRole(nodes[i].roles, name)
  }

  /** What `Validate` accepts, in the terms of an operator. */
  predicate Acceptable(parse: string -> IPKind, nodes: seq<ConfigNode>) {
    nodes != [] && AllGood(parse, nodes) && SomeNodeHas(nodes, CONTROLPLANE) && SomeNodeHas(nodes, WORKER) &&
    Count(Roles(nodes), ETCD) % 2 == 1
  }

  lemma SomeNodeCounts(nodes: seq<ConfigNode>, name: string)
    ensures SomeNodeHas(nodes, name) <==> Count(Roles(nodes), name) > 0
  {
    CountPositive(Roles(nodes), name);
    if SomeNodeHas(nodes, name) {
      var i :| 0 <= i < |nodes| && HasRole(nodes[i].roles, name);
      assert HasRole(Roles(nodes)[i], name);
    }
  }

  lemma FirstBadIs(parse: string -> IPKind, nodes: seq<ConfigNode>, i: nat)
    requires i < |nodes| && AllGood(parse, nodes[..i]) && !GoodNode(parse, nodes[i])
    ensures !AllGood(parse, nodes) && FirstBad(parse, nodes, i)
    ensures forall k :: FirstBad(parse, nodes, k) ==> k == i
  {
    assert forall j :: 0 <= j < i ==> nodes[j] == nodes[..i][j];
  }

  lemma AcceptableCounts(parse: string -> IPKind, nodes: seq<ConfigNode>)
    ensures Acceptable(parse, nodes) <==>
      nodes != [] && AllGood(parse, nodes) &&
      Count(Roles(nodes), CONTROLPLANE) > 0 && Count(Roles(nodes), WORKER) > 0 && Count(Roles(nodes), ETCD) % 2 == 1
  {
    SomeNodeCounts(nodes, CONTROLPLANE);
    SomeNodeCounts(nodes, WORKER);
  }

  /** `parse` stands for `net.ParseIP` and `IsLoopback`. Every outcome is characterised. */
  method Validate(parse: string -> IPKind, nodes: seq<ConfigNode>) returns (error: Option<NodeError>)
    ensures error == None <==> Acceptable(parse, nodes)
    ensures error == None ==> forall n :: n in nodes ==> parse(n.ip) == Usable && 0 <= n.sshPort <= 65533
    ensures error == Some(IPInvalid) ==> exists n :: n in nodes && parse(n.ip) != Usable
    ensures error == Some(PortInvalid) ==> exists n :: n in nodes && !(0 <= n.sshPort <= 65533)
    ensures error == Some(EmptyList) <==> nodes == []
    ensures error == Some(IPInvalid) <==> exists i :: FirstBad(parse, nodes, i) && !GoodIP(parse, nodes[i])
    ensures error == Some(PortInvalid) <==> exists i :: FirstBad(parse, nodes, i) && GoodIP(parse, nodes[i])
    ensures error == Some(EtcdNotOdd) <==>
      (nodes != [] && AllGood(parse, nodes) && SomeNodeHas(nodes, CONTROLPLANE) && SomeNodeHas(nodes, WORKER) &&
       SomeNodeHas(nodes, ETCD) && Count(Roles(nodes), ETCD) % 2 == 0)
    ensures error == Some(RoleMiss) <==>
      (nodes != [] && AllGood(parse, nodes) &&
       !(SomeNodeHas(nodes, CONTROLPLANE) && SomeNodeHas(nodes, WORKER) && SomeNodeHas(nodes, ETCD)))
    ensures error.Some? ==> !error.value.IncorrectPort?
  {
    if |nodes| == 0 {
      return Some(EmptyList);
    }
    var bad, masterNode, workerNode, etcdNode := CountNodes(parse, nodes);
    if bad.Some? {
      return bad;
    }
    AcceptableCounts(parse, nodes);
    SomeNodeCounts(nodes, CONTROLPLANE);
    SomeNodeCounts(nodes, WORKER);
    SomeNodeCounts(nodes, ETCD);
    if masterNode == 0 || etcdNode == 0 || workerNode == 0 {
      return Some(RoleMiss);
    }
    if etcdNode % 2 == 0 {
      return Some(EtcdNotOdd);
    }
    return None;
  }

  /** Node `i` is the first bad one, and this is its error. */
  ghost predicate BadAt(parse: string -> IPKind, nodes: seq<ConfigNode>, i: int, error: NodeError) {
    FirstBad(parse, nodes, i) && (forall k :: FirstBad(parse, nodes, k) ==> k == i) &&
    (error == IPInvalid <==> !GoodIP(parse, nodes[i]))
  }

  /** The first `n` nodes are good, and their roles are counted. */
  ghost predicate GoodSoFar(parse: string -> IPKind, nodes: seq<ConfigNode>, n: nat, master: nat, worker: nat,
    etcd: nat)
    requires n <= |nodes|
  {
    AllGood(parse, nodes[..n]) && master == Count(Roles(nodes)[..n], CONTROLPLANE) &&
    worker == Count(Roles(nodes)[..n], WORKER) && etcd == Count(Roles(nodes)[..n], ETCD)
  }

  lemma GoodNext(parse: string -> IPKind, nodes: seq<ConfigNode>, n: nat, master: nat, worker: nat, etcd: nat)
    requires n < |nodes| && GoodSoFar(parse, nodes, n, master, worker, etcd) && GoodNode(parse, nodes[n])
    ensures var roles := nodes[n].roles;
      GoodSoFar(parse, nodes, n + 1, master + (if HasRole(roles, CONTROLPLANE) then 1 else 0),
        worker + (if HasRole(roles, WORKER) then 1 else 0), etcd + if HasRole(roles, ETCD) then 1 else 0)
  {
    assert Roles(nodes)[..n + 1][..n] == Roles(nodes)[..n] && nodes[..n + 1] == nodes[..n] + [nodes[n]];
  }

  /** The loop of the validator: the first bad node ends it, otherwise the roles are counted. */
  method CountNodes(parse: string -> IPKind, nodes: seq<ConfigNode>)
    returns (bad: Option<NodeError>, masterNode: nat, workerNode: nat, etcdNode: nat)
    ensures bad == None <==> AllGood(parse, nodes)
    ensures bad.Some? ==>
      (bad.value == IPInvalid || bad.value == PortInvalid) && exists i :: BadAt(parse, nodes, i, bad.value)
    ensures bad == None ==>
      masterNode == Count(Roles(nodes), CONTROLPLANE) && workerNode == Count(Roles(nodes), WORKER) &&
      etcdNode == Count(Roles(nodes), ETCD)
  {
    bad, masterNode, workerNode, etcdNode := None, 0, 0, 0;
    for i := 0 to |nodes|
      invariant GoodSoFar(parse, nodes, i, masterNode, workerNode, etcdNode)
    {
      var node := nodes[i];
      if parse(node.ip) == Unparsable || parse(node.ip) == Loopback {
        FirstBadIs(parse, nodes, i);
        assert BadAt(parse, nodes, i, IPInvalid);
        bad := Some(IPInvalid);
        return;
      }
      if node.sshPort < 0 || node.sshPort > 65533 {
        FirstBadIs(parse, nodes, i);
        assert BadAt(parse, nodes, i, PortInvalid);
        bad := Some(PortInvalid);
        return;
      }
      GoodNext(parse, nodes, i, masterNode, workerNode, etcdNode);
      masterNode, workerNode, etcdNode := CountRoles(node.roles, masterNode, workerNode, etcdNode);
    }
    assert nodes[..|nodes|] == nodes && Roles(nodes)[..|nodes|] == Roles(nodes);
  }

  // ----- the adaptor's own gate

  datatype GateError = NoNodes | NoWorker | NoMaster | NoEtcd

  function RKERoles(nodes: seq<RKENode>): (r: seq<seq<string>>)
    ensures |r| == |nodes| && forall i :: 0 <= i < |nodes| ==> r[i] == nodes[i].role
  {
    seq(|nodes|, i requires 0 <= i < |nodes| => nodes[i].role)
  }

  /** What the adaptor demands of the roles, and the message it fails with. */
  function Gate(roles: seq<seq<string>>): Option<GateError> {
    if roles == [] then Some(NoNodes)
    else if Count(roles, WORKER) == 0 then Some(NoWorker)
    else if Count(roles, CONTROLPLANE) == 0 then Some(NoMaster)
    else if Count(roles, ETCD) == 0 then Some(NoEtcd)
    else None
  }

  predicate Held(roles: seq<seq<string>>, name: string) {
    exists i :: 0 <= i < |roles| && HasRole(roles[i], name)
  }

  /** The gate lets a configuration through exactly if some node has each of the three roles. */
  lemma GateIff(roles: seq<seq<string>>)
    ensures Gate(roles) == None <==> Held(roles, CONTROLPLANE) && Held(roles, WORKER) && Held(roles, ETCD)
  {
    CountPositive(roles, CONTROLPLANE);
    CountPositive(roles, WORKER);
    CountPositive(roles, ETCD);
  }

  predicate SomeRKENodeHas(nodes: seq<RKENode>, name: string) {
    exists i :: 0 <= i < |nodes| && HasRole(nodes[i].role, name)
  }

  lemma SomeRKENodeCounts(nodes: seq<RKENode>, name: string)
    ensures SomeRKENodeHas(nodes, name) <==> Count(RKERoles(nodes), name) > 0
  {
    CountPositive(RKERoles(nodes), name);
    if i :| 0 <= i < |nodes| && HasRole(nodes[i].role, name) { assert HasRole(RKERoles(nodes)[i], name); }
  }

  /** Some nodes, and each of the three roles held by one of them. */
  predicate Passes(nodes: seq<RKENode>) {
    nodes != [] && SomeRKENodeHas(nodes, "worker") && SomeRKENodeHas(nodes, "controlplane") &&
    SomeRKENodeHas(nodes, "etcd")
  }

  /** The first thing missing is the error: nodes at all, then a worker, a control-plane, an etcd node. */
  lemma GateErrors(nodes: seq<RKENode>)
    ensures var error := Gate(RKERoles(nodes));
      (error == None <==> Passes(nodes)) &&
      (error == Some(NoNodes) <==> nodes == []) &&
      (error == Some(NoWorker) <==> nodes != [] && !SomeRKENodeHas(nodes, "worker")) &&
      (error == Some(NoMaster) <==>
        nodes != [] && SomeRKENodeHas(nodes, "worker") && !SomeRKENodeHas(nodes, "controlplane"))
  {
    SomeRKENodeCounts(nodes, WORKER);
    SomeRKENodeCounts(nodes, CONTROLPLANE);
    SomeRKENodeCounts(nodes, ETCD);
  }

  method RoleGate(nodes: seq<RKENode>) returns (error: Option<GateError>)
    ensures error == Gate(RKERoles(nodes))
    ensures error == None <==> Passes(nodes)
  {
    GateErrors(nodes);
    if |nodes| == 0 {
      return Some(NoNodes);
    }
    var masterNode, etcdNode, workerNode := 0, 0, 0;
    var roles := RKERoles(nodes);
    for i := 0 to |nodes|
      invariant masterNode == Count(roles[..i], CONTROLPLANE)
      invariant workerNode == Count(roles[..i], WORKER)
      invariant etcdNode == Count(roles[..i], ETCD)
    {
      assert roles[..i + 1][..i] == roles[..i];
      masterNode, workerNode, etcdNode := CountRoles(nodes[i].role, masterNode, workerNode, etcdNode);
    }
    assert roles[..|nodes|] == roles;
    if workerNode == 0 { return Some(NoWorker); }
    if masterNode == 0 { return Some(NoMaster); }
    if etcdNode == 0 { return Some(NoEtcd); }
    return None;
  }

  lemma SameRoles(rke: seq<RKENode>, nodes: seq<ConfigNode>)
    requires |nodes| == |rke| && forall i :: 0 <= i < |rke| ==> Describes(nodes[i], rke[i])
    ensures RKERoles(rke) == Roles(nodes)
  {
  }

  /** A configuration that converts and validates passes the adaptor's gate. */
  lemma ValidatedPassesGate(parse: string -> IPKind, rke: seq<RKENode>, nodes: seq<ConfigNode>)
    requires |nodes| == |rke| && forall i :: 0 <= i < |rke| ==> Describes(nodes[i], rke[i])
    requires Acceptable(parse, nodes)
    ensures Gate(RKERoles(rke)) == None
  {
    SameRoles(rke, nodes);
    AcceptableCounts(parse, nodes);
  }

  // ----- the nodes of a default configuration

  /** The index of the last of the first `n` nodes with this address, or -1. */
  function LastIndex(nodes: seq<ConfigNode>, n: nat, address: string): (i: int)
    requires n <= |nodes|
    ensures -1 <= i < n && (i >= 0 ==> nodes[i].ip == address)
    ensures forall j :: i < j < n ==> nodes[j].ip != address
  {
    if n == 0 then -1 else if nodes[n - 1].ip == address then n - 1 else LastIndex(nodes, n - 1, address)
  }

  /** The map holds, for every address of the first `n` nodes, the last of its nodes. */
  ghost predicate LastWins(m: map<string, RKENode>, nodes: seq<ConfigNode>, n: nat)
    requires n <= |nodes|
  {
    forall a :: if LastIndex(nodes, n, a) >= 0 then a in m && m[a] == ToRKE(nodes[LastIndex(nodes, n, a)]) else a !in m
  }

  /** The default configuration has one node per address, the last given, in no particular order. */
  method DefaultNodes(nodes: seq<ConfigNode>) returns (r: seq<RKENode>)
    ensures forall i, j :: 0 <= i < j < |r| ==> r[i].address != r[j].address
    ensures forall n :: n in nodes ==> ToRKE(nodes[LastIndex(nodes, |nodes|, n.ip)]) in r
    ensures forall x :: x in r ==> LastGiven(nodes, x)
  {
    var nodeMaps: map<string, RKENode> := map[];
    for n := 0 to |nodes|
      invariant LastWins(nodeMaps, nodes, n)
    {
      nodeMaps := nodeMaps[nodes[n].ip := ToRKE(nodes[n])];
    }
    r := Values(nodeMaps);
  }

  /** The values of a map keyed by address, in the arbitrary order of a map iteration. */
  method Values(m: map<string, RKENode>) returns (r: seq<RKENode>)
    requires forall a :: a in m ==> m[a].address == a
    ensures forall i, j :: 0 <= i < j < |r| ==> r[i].address != r[j].address
    ensures forall a :: a in m ==> m[a] in r
    ensures forall x :: x in r ==> x.address in m && x == m[x.address]
  {
    r := [];
    var keys := m.Keys;
    while keys != {}
      invariant keys <= m.Keys
      invariant forall a :: a in m && a !in keys ==> m[a] in r
      invariant forall x :: x in r ==> x.address in m && x.address !in keys && x == m[x.address]
      invariant forall i, j :: 0 <= i < j < |r| ==> r[i].address != r[j].address
      decreases |keys|
    {
      var k :| k in keys;
      r := r + [m[k]];
      keys := keys - {k};
    }
  }

  // ----- pruning an update

  lemma PortIsReadable(n: ConfigNode)
    ensures Atoi(ToRKE(n).port).Some?
  {
    NodeRoundTrip(n);
    assert Describes(Defaulted(n), ToRKE(n));
  }

  /** The node is the last given one of its address, with its defaults filled in. */
  predicate FromLast(nodes: seq<ConfigNode>, n: ConfigNode) {
    var last := LastIndex(nodes, |nodes|, n.ip);
    last >= 0 && n == Defaulted(nodes[last])
  }

  /** The configuration in a request, as far as it could be decoded. */
  datatype Given = Absent | Undecodable | Unreadable | Decoded(nodes: seq<RKENode>)

  datatype PruneError = IncorrectConfig | NotEncoded | IncorrectNode(port: string)

  /** The configuration that comes back, unless it cannot be read: given nodes replace those of a
      configuration, and without a configuration the default one is used. */
  predicate Replaced(config: Given, nodes: seq<ConfigNode>, rke: seq<RKENode>) {
    match config
    case Absent =>
      (forall i, j :: 0 <= i < j < |rke| ==> rke[i].address != rke[j].address) &&
      (forall m :: m in nodes ==> ToRKE(nodes[LastIndex(nodes, |nodes|, m.ip)]) in rke) &&
      forall n :: n in rke ==> LastGiven(nodes, n)
    case Decoded(own) => rke == if nodes == [] then own else ToRKEs(nodes)
    case _ => false
  }

  /** The port is that of the first node whose port cannot be read. */
  predicate FirstUnreadable(rke: seq<RKENode>, port: string) {
    exists i :: 0 <= i < |rke| && rke[i].port == port && Atoi(port).None? && ReadableBefore(rke, i)
  }

  predicate ReadableBefore(rke: seq<RKENode>, i: nat)
    requires i <= |rke|
  {
    forall j :: 0 <= j < i ==> Atoi(rke[j].port).Some?
  }

  predicate LastGiven(nodes: seq<ConfigNode>, n: RKENode) {
    var last := LastIndex(nodes, |nodes|, n.address);
    last >= 0 && n == ToRKE(nodes[last])
  }

  /** Replaces the nodes of a configuration, or starts from the default one, and reads the node list
      back; `encodes` says whether the result can be written as YAML. It fails exactly if the
      configuration cannot be decoded, the result not encoded, or a port left in it not read. */
  method PruneUpdateRKEConfig(config: Given, nodes: seq<ConfigNode>, encodes: bool)
    returns (nodeList: Result<seq<ConfigNode>, PruneError>, rke: seq<RKENode>)
    ensures nodeList == Err(IncorrectConfig) <==> config.Undecodable? || config.Unreadable?
    ensures config.Absent? || config.Decoded? ==> Replaced(config, nodes, rke)
    ensures config.Decoded? && nodes == [] ==> rke == config.nodes
    ensures config.Decoded? && nodes != [] ==> rke == ToRKEs(nodes)
    ensures config.Absent? || config.Decoded? ==> (nodeList == Err(NotEncoded) <==> !encodes)
    ensures (config.Absent? || config.Decoded?) && encodes ==>
      (nodeList.Ok? <==> forall i :: 0 <= i < |rke| ==> Atoi(rke[i].port).Some?)
    ensures config.Absent? || (config.Decoded? && nodes != []) ==> (nodeList.Ok? <==> encodes)
    ensures nodeList.Err? && nodeList.error.IncorrectNode? ==> FirstUnreadable(rke, nodeList.error.port)
    ensures nodeList.Ok? ==>
      (|nodeList.value| == |rke| && forall i :: 0 <= i < |rke| ==> Describes(nodeList.value[i], rke[i]))
    ensures nodeList.Ok? && config.Decoded? && nodes != [] ==>
      (|nodeList.value| == |nodes| && forall i :: 0 <= i < |nodes| ==> nodeList.value[i] == Defaulted(nodes[i]))
    ensures nodeList.Ok? && config.Absent? ==> forall n :: n in nodeList.value ==> FromLast(nodes, n)
  {
    rke := [];
    if config.Undecodable? || config.Unreadable? {
      return Err(IncorrectConfig), rke;
    }
    if config.Absent? {
      rke := DefaultNodes(nodes);
    } else if |nodes| > 0 {
      rke := NodeListToRKEConfigNodes(nodes);
    } else {
      rke := config.nodes;
    }
    if !encodes {
      return Err(NotEncoded), rke;
    }
    if config.Absent? || |nodes| > 0 {
      forall i | 0 <= i < |rke|
        ensures Atoi(rke[i].port).Some?
      {
        assert rke[i] in rke;
        var n :| rke[i] == ToRKE(n);
        PortIsReadable(n);
      }
    }
    var list := RKEConfigToNodeList(rke);
    if list.Err? {
      var i :| 0 <= i < |rke| && list == Err(IncorrectPort(rke[i].port)) && Atoi(rke[i].port).None? &&
        forall j :: 0 <= j < i ==> Atoi(rke[j].port).Some?;
      assert ReadableBefore(rke, i);
      return Err(IncorrectNode(list.error.port)), rke;
    }
    nodeList := Ok(list.value);
    if config.Absent? {
      forall n | n in list.value
        ensures FromLast(nodes, n)
      {
        var i :| 0 <= i < |rke| && list.value[i] == n;
        assert rke[i] in rke;
        NodeRoundTrip(nodes[LastIndex(nodes, |nodes|, n.ip)]);
      }
    } else if |nodes| > 0 {
      ConversionIsStable(nodes, list.value);
    }
  }
}
