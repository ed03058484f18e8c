/** Installing the platform into a cluster: the poll loop, the whole run, and its task row. */
module InitRegion {
  import opened Basics
  import opened TaskModel
  import opened EventLog
  import opened ClusterUsecase
  import opened TaskHistory

  /** What one wake-up of the loop finds: a cancelled context, the timer, a missing resource, no
      status at all, or a status. `packages` says of each package condition whether it is ready and completed. */
  datatype Observation =
    | Cancelled | TimedOut | Missing(text: string) | Unavailable
    | Seen(operator: bool, imageHub: bool, packages: seq<bool>, running: bool)

  /** Which milestones have been emitted. */
  datatype Flags = Flags(operator: bool, imageHub: bool, package: bool)

  const NO_FLAGS := Flags(false, false, false)

  function Ok(step: Step): Message {
    Message(step, "", Success)
  }

  function Begin(step: Step): Message {
    Message(step, "", Start)
  }

  function Fail(text: string): Message {
    Message(Region, text, Failure)
  }

  /** The messages of one wake-up, and the flags after it unless it leaves the loop. */
  datatype Turn = Turn(sent: seq<Message>, flags: Option<Flags>)

  function TurnOf(flags: Flags, o: Observation, clusterID: string): Turn {
    match o
    case Cancelled => Turn([Fail("context cancel")], None)
    case TimedOut => Turn([Fail("waiting wutong region ready timeout")], None)
    case Missing(text) => Turn([Fail(text)], None)
    case Unavailable => Turn([], Some(flags))
    case Seen(operator, imageHub, packages, running) =>
      if operator && !flags.operator then
        Turn([Ok(RegionOperator), Begin(RegionImageHub)], Some(flags.(operator := true)))
      else if !flags.imageHub && imageHub then
        Turn([Ok(RegionImageHub), Begin(RegionPackage)], Some(flags.(imageHub := true)))
      else
        var package := if true in packages && !flags.package then [Ok(RegionPackage), Begin(RegionConfig)] else [];
        var after := flags.(package := flags.package || true in packages);
        if running && after.package then Turn(package + [Message(Region, clusterID, Success)], None)
        else Turn(package, Some(after))
  }

  /** The messages of the loop for the observations it gets, and whether it is left. */
  function Polled(flags: Flags, obs: seq<Observation>, clusterID: string): Turn
    decreases |obs|
  {
    if obs == [] then Turn([], Some(flags))
    else
      var turn := TurnOf(flags, obs[0], clusterID);
      if turn.flags.None? then turn
      else
        var rest := Polled(turn.flags.value, obs[1..], clusterID);
        Turn(turn.sent + rest.sent, rest.flags)
  }

  /** The package conditions of one wake-up. */
  method CheckPackages(packages: seq<bool>, announced: bool) returns (sent: seq<Message>, packageMessage: bool)
    ensures packageMessage <==> announced || true in packages
    ensures sent == if true in packages && !announced then [Ok(RegionPackage), Begin(RegionConfig)] else []
  {
    sent, packageMessage := [], announced;
    var k := 0;
    while k < |packages|
      invariant 0 <= k <= |packages|
      invariant packageMessage <==> announced || true in packages[..k]
      invariant sent == if true in packages[..k] && !announced then [Ok(RegionPackage), Begin(RegionConfig)] else []
    {
      assert packages[..k + 1] == packages[..k] + [packages[k]];
      if packages[k] && !packageMessage {
        sent := sent + [Message(RegionPackage, "", Success)];
        sent := sent + [Message(RegionConfig, "", Start)];
        packageMessage := true;
      }
      k := k + 1;
    }
    assert packages[..|packages|] == packages;
  }

  /** One wake-up of the loop. */
  method WakeUp(o: Observation, flags: Flags, clusterID: string) returns (sent: seq<Message>, left: bool, after: Flags)
    ensures TurnOf(flags, o, clusterID) == Turn(sent, if left then None else Some(after))
  {
    sent, left, after := [], false, flags;
    if o.Cancelled? {
      return [Message(Region, "context cancel", Failure)], true, after;
    }
    if o.TimedOut? {
      return [Message(Region, "waiting wutong region ready timeout", Failure)], true, after;
    }
    if o.Missing? {
      return [Message(Region, o.text, Failure)], true, after;
    }
    if o.Unavailable? {
      return;
    }
    if o.operator && !after.operator {
      sent := sent + [Message(RegionOperator, "", Success)];
      sent := sent + [Message(RegionImageHub, "", Start)];
      after := after.(operator := true);
      return;
    }
    if !after.imageHub && o.imageHub {
      sent := sent + [Message(RegionImageHub, "", Success)];
      sent := sent + [Message(RegionPackage, "", Start)];
      after := after.(imageHub := true);
      return;
    }
    var packageMessage;
    sent, packageMessage := CheckPackages(o.packages, after.package);
    after := after.(package := packageMessage);
    if o.running && packageMessage {
      sent := sent + [Message(Region, clusterID, Success)];
      left := true;
    }
  }

  /** What the loop has sent, followed by what it will do. */
  function After(sent: seq<Message>, rest: Turn): Turn {
    Turn(sent + rest.sent, rest.flags)
  }

  lemma PolledFrom(flags: Flags, obs: seq<Observation>, i: nat, clusterID: string, before: seq<Message>)
    requires i < |obs|
    ensures var turn := TurnOf(flags, obs[i], clusterID);
      After(before, Polled(flags, obs[i..], clusterID)) ==
      if turn.flags.None? then Turn(before + turn.sent, None)
      else After(before + turn.sent, Polled(turn.flags.value, obs[i + 1..], clusterID))
  {
    assert obs[i..][1..] == obs[i + 1..];
    var turn := TurnOf(flags, obs[i], clusterID);
    if turn.flags.Some? {
      var rest := Polled(turn.flags.value, obs[i + 1..], clusterID).sent;
      assert before + (turn.sent + rest) == (before + turn.sent) + rest;
    }
  }

  // ----- what the messages of the loop say about the observations

  /** The observation shows the step to be done. */
  predicate Shows(o: Observation, step: Step) {
    o.Seen? &&
    match step
    case RegionOperator => o.operator
    case RegionImageHub => o.imageHub
    case RegionPackage => true in o.packages
    case Region => o.running
    case _ => false
  }

  /** Why a loop is given up, if this observation gives it up. */
  function GivesUp(o: Observation): Option<string> {
    match o
    case Cancelled => Some("context cancel")
    case TimedOut => Some("waiting wutong region ready timeout")
    case Missing(text) => Some(text)
    case _ => None
  }

  /** What `start` goes with a success. */
  function StartAfter(step: Step): Step {
    match step
    case RegionOperator => RegionImageHub
    case RegionImageHub => RegionPackage
    case _ => RegionConfig
  }

  /** The messages come in pairs: a success that one of the observations has shown, and the `start` that
      goes with it. */
  ghost predicate Backed(sent: seq<Message>, obs: seq<Observation>) {
    |sent| % 2 == 0 && forall p :: 0 <= p < |sent| / 2 ==> PairAt(sent, obs, p)
  }

  ghost predicate PairAt(sent: seq<Message>, obs: seq<Observation>, p: nat)
    requires 2 * p + 1 < |sent|
  {
    var m := sent[2 * p];
    m == Message(m.step, "", Success) && m.step in {RegionOperator, RegionImageHub, RegionPackage} &&
    SomeShows(obs, m.step) && sent[2 * p + 1] == Message(StartAfter(m.step), "", Start)
  }

  predicate SomeShows(obs: seq<Observation>, step: Step) {
    exists i :: 0 <= i < |obs| && Shows(obs[i], step)
  }

  /** The loop; `left` is false when the observations given do not yet end it, and `ticks` says how many
      of them it used. */
  method Poll(obs: seq<Observation>, clusterID: string) returns (sent: seq<Message>, left: bool, ticks: nat)
    ensures sent == Polled(NO_FLAGS, obs, clusterID).sent
    ensures left <==> Polled(NO_FLAGS, obs, clusterID).flags.None?
    ensures forall i :: 0 <= i < ticks - (if left then 1 else 0) && i < |obs| ==> GivesUp(obs[i]).None?
    ensures |sent| <= 2 * ticks + if left then 1 else 0
    ensures !left ==> ticks == |obs| && Backed(sent, obs)
    ensures left ==> 0 < ticks <= |obs| && sent != [] && Ends(sent, obs[..ticks], clusterID)
  {
    sent, left, ticks := [], false, 0;
    var flags := NO_FLAGS;
    assert obs[0..] == obs;
    while ticks < |obs| && !left
      invariant Polling(obs, ticks, sent, left, flags, clusterID)
    {
      ghost var before := flags;
      var now;
      now, left, flags := WakeUp(obs[ticks], flags, clusterID);
      PollingNext(obs, ticks, sent, before, flags, clusterID);
      sent := sent + now;
      ticks := ticks + 1;
    }
    PollingDone(obs, ticks, sent, left, flags, clusterID);
  }

  lemma PollingDone(obs: seq<Observation>, ticks: nat, sent: seq<Message>, left: bool, flags: Flags, clusterID: string)
    requires Polling(obs, ticks, sent, left, flags, clusterID) && (ticks == |obs| || left)
    ensures sent == Polled(NO_FLAGS, obs, clusterID).sent && (left <==> Polled(NO_FLAGS, obs, clusterID).flags.None?)
    ensures left ==> 0 < ticks <= |obs| && sent != [] && Ends(sent, obs[..ticks], clusterID)
    ensures !left ==> ticks == |obs| && Backed(sent, obs)
    ensures |sent| <= 2 * ticks + if left then 1 else 0
  {
    assert ticks == |obs| ==> obs[..ticks] == obs && obs[ticks..] == [];
  }

  /** The loop after so many observations. */
  ghost predicate Polling(obs: seq<Observation>, ticks: nat, sent: seq<Message>, left: bool, flags: Flags,
    clusterID: string)
  {
    var whole := Polled(NO_FLAGS, obs, clusterID);
    ticks <= |obs| && |sent| <= 2 * ticks + (if left then 1 else 0) &&
    (forall i :: 0 <= i < ticks - (if left then 1 else 0) ==> GivesUp(obs[i]).None?) &&
    if left then whole == Turn(sent, None) && ticks > 0 && sent != [] && Ends(sent, obs[..ticks], clusterID)
    else
      whole == After(sent, Polled(flags, obs[ticks..], clusterID)) && Backed(sent, obs[..ticks]) &&
      (flags.package ==> Message(RegionPackage, "", Success) in sent)
  }

  lemma TurnIsShort(flags: Flags, o: Observation, clusterID: string)
    ensures var turn := TurnOf(flags, o, clusterID);
      |turn.sent| <= 2 + if turn.flags.None? then 1 else 0
  {
  }

  lemma PollingNext(obs: seq<Observation>, ticks: nat, sent: seq<Message>, flags: Flags, after: Flags,
    clusterID: string)
    requires ticks < |obs| && Polling(obs, ticks, sent, false, flags, clusterID)
    requires var turn := TurnOf(flags, obs[ticks], clusterID);
      turn.flags.Some? ==> after == turn.flags.value
    ensures var turn := TurnOf(flags, obs[ticks], clusterID);
      Polling(obs, ticks + 1, sent + turn.sent, turn.flags.None?, after, clusterID)
  {
    PolledFrom(flags, obs, ticks, clusterID, sent);
    TurnIsShort(flags, obs[ticks], clusterID);
    BackedNext(sent, obs[..ticks], flags, obs[ticks], clusterID);
    assert obs[..ticks + 1] == obs[..ticks] + [obs[ticks]];
  }

  /** The last message is the region's, and the last observation says why; what comes before is backed. */
  ghost predicate Ends(sent: seq<Message>, obs: seq<Observation>, clusterID: string)
    requires sent != [] && obs != []
  {
    var last, o := sent[|sent| - 1], obs[|obs| - 1];
    Backed(sent[..|sent| - 1], obs) &&
    last == (if GivesUp(o).Some? then Message(Region, GivesUp(o).value, Failure)
      else Message(Region, clusterID, Success)) &&
    (GivesUp(o).None? ==> Shows(o, Region) && Message(RegionPackage, "", Success) in sent)
  }

  lemma ShownLater(before: seq<Observation>, o: Observation, step: Step)
    ensures SomeShows(before + [o], step) <==> SomeShows(before, step) || Shows(o, step)
  {
    var obs := before + [o];
    if i :| 0 <= i < |before| && Shows(before[i], step) { assert Shows(obs[i], step); }
    if Shows(o, step) { assert Shows(obs[|before|], step); }
    if i :| 0 <= i < |obs| && Shows(obs[i], step) && i < |before| { assert Shows(before[i], step); }
  }

  lemma BackedLater(sent: seq<Message>, before: seq<Observation>, o: Observation)
    requires Backed(sent, before)
    ensures Backed(sent, before + [o])
  {
    forall p | 0 <= p < |sent| / 2
      ensures PairAt(sent, before + [o], p)
    {
      assert PairAt(sent, before, p);
      ShownLater(before, o, sent[2 * p].step);
    }
  }

  /** A milestone that the new observation shows. */
  lemma BackedPair(sent: seq<Message>, before: seq<Observation>, o: Observation, step: Step)
    requires Backed(sent, before) && Shows(o, step) && step in {RegionOperator, RegionImageHub, RegionPackage}
    ensures Backed(sent + [Ok(step), Begin(StartAfter(step))], before + [o])
  {
    var all := sent + [Ok(step), Begin(StartAfter(step))];
    BackedLater(sent, before, o);
    ShownLater(before, o, step);
    forall p | 0 <= p < |all| / 2
      ensures PairAt(all, before + [o], p)
    {
      if p < |sent| / 2 { assert PairAt(sent, before + [o], p); }
    }
  }

  lemma EndsWith(sent: seq<Message>, obs: seq<Observation>, last: Message, clusterID: string)
    requires obs != [] && Backed(sent, obs)
    requires last == if GivesUp(obs[|obs| - 1]).Some? then Message(Region, GivesUp(obs[|obs| - 1]).value, Failure)
      else Message(Region, clusterID, Success)
    requires GivesUp(obs[|obs| - 1]).None? ==>
      Shows(obs[|obs| - 1], Region) && Message(RegionPackage, "", Success) in sent
    ensures Ends(sent + [last], obs, clusterID)
  {
    assert (sent + [last])[..|sent|] == sent;
  }

  lemma BackedNext(sent: seq<Message>, obs: seq<Observation>, flags: Flags, o: Observation, clusterID: string)
    requires Backed(sent, obs) && (flags.package ==> Message(RegionPackage, "", Success) in sent)
    ensures var turn := TurnOf(flags, o, clusterID);
      if turn.flags.Some?
      then Backed(sent + turn.sent, obs + [o]) && GivesUp(o).None? &&
        (turn.flags.value.package ==> Message(RegionPackage, "", Success) in sent + turn.sent)
      else sent + turn.sent != [] && Ends(sent + turn.sent, obs + [o], clusterID)
  {
    var turn := TurnOf(flags, o, clusterID);
    BackedLater(sent, obs, o);
    match o {
      case Cancelled => EndsWith(sent, obs + [o], turn.sent[0], clusterID);
      case TimedOut => EndsWith(sent, obs + [o], turn.sent[0], clusterID);
      case Missing(_) => EndsWith(sent, obs + [o], turn.sent[0], clusterID);
      case Unavailable => assert sent + [] == sent;
      case Seen(operator, imageHub, packages, running) =>
        if operator && !flags.operator { BackedPair(sent, obs, o, RegionOperator); }
        else if !flags.imageHub && imageHub { BackedPair(sent, obs, o, RegionImageHub); }
        else { PackagesBacked(sent, obs, flags, o, clusterID); }
    }
  }

  lemma PackagesBacked(sent: seq<Message>, obs: seq<Observation>, flags: Flags, o: Observation, clusterID: string)
    requires Backed(sent, obs) && (flags.package ==> Message(RegionPackage, "", Success) in sent) && o.Seen?
    requires !(o.operator && !flags.operator) && !(!flags.imageHub && o.imageHub)
    ensures var turn := TurnOf(flags, o, clusterID);
      if turn.flags.Some?
      then Backed(sent + turn.sent, obs + [o]) &&
        (turn.flags.value.package ==> Message(RegionPackage, "", Success) in sent + turn.sent)
      else sent + turn.sent != [] && Ends(sent + turn.sent, obs + [o], clusterID)
  {
    var turn := TurnOf(flags, o, clusterID);
    var pair := if true in o.packages && !flags.package then [Ok(RegionPackage), Begin(RegionConfig)] else [];
    BackedLater(sent, obs, o);
    if pair != [] {
      BackedPair(sent, obs, o, RegionPackage);
      assert (sent + pair)[|sent|] == Message(RegionPackage, "", Success);
    } else {
      assert sent + pair == sent;
    }
    if turn.flags.None? {
      var last := Message(Region, clusterID, Success);
      EndsWith(sent + pair, obs + [o], last, clusterID);
      assert sent + turn.sent == (sent + pair) + [last];
    }
  }

  // ----- properties of the loop, for arbitrary observations and flags

  function Successes(ms: seq<Message>, step: Step): nat {
    if ms == [] then 0
    else (if ms[0].step == step && ms[0].status == Success then 1 else 0) + Successes(ms[1..], step)
  }

  lemma {:induction false} SuccessesAppend(a: seq<Message>, b: seq<Message>, step: Step)
    ensures Successes(a + b, step) == Successes(a, step) + Successes(b, step)
  {
    if a == [] {
      assert a + b == b;
    } else {
      assert (a + b)[1..] == a[1..] + b;
      SuccessesAppend(a[1..], b, step);
    }
  }

  function Pending(flag: bool): nat {
    if flag then 0 else 1
  }

  /** Each milestone succeeds at most once, and not at all once its flag is set. */
  lemma {:induction false} MilestonesAtMostOnce(flags: Flags, obs: seq<Observation>, clusterID: string)
    ensures var sent := Polled(flags, obs, clusterID).sent;
      Successes(sent, RegionOperator) <= Pending(flags.operator) &&
      Successes(sent, RegionImageHub) <= Pending(flags.imageHub) &&
      Successes(sent, RegionPackage) <= Pending(flags.package)
    decreases |obs|
  {
    if obs != [] {
      var turn := TurnOf(flags, obs[0], clusterID);
      TurnSuccesses(flags, obs[0], clusterID);
      if turn.flags.Some? {
        MilestonesAtMostOnce(turn.flags.value, obs[1..], clusterID);
        var rest := Polled(turn.flags.value, obs[1..], clusterID).sent;
        SuccessesAppend(turn.sent, rest, RegionOperator);
        SuccessesAppend(turn.sent, rest, RegionImageHub);
        SuccessesAppend(turn.sent, rest, RegionPackage);
      }
    }
  }

  lemma TurnSuccesses(flags: Flags, o: Observation, clusterID: string)
    ensures var turn := TurnOf(flags, o, clusterID);
      var after := if turn.flags.Some? then turn.flags.value else Flags(true, true, true);
      Successes(turn.sent, RegionOperator) + Pending(after.operator) <= Pending(flags.operator) &&
      Successes(turn.sent, RegionImageHub) + Pending(after.imageHub) <= Pending(flags.imageHub) &&
      Successes(turn.sent, RegionPackage) + Pending(after.package) <= Pending(flags.package)
  {
    var sent := TurnOf(flags, o, clusterID).sent;
    SuccessesOfFew(sent, RegionOperator);
    SuccessesOfFew(sent, RegionImageHub);
    SuccessesOfFew(sent, RegionPackage);
  }

  lemma SuccessesOfFew(ms: seq<Message>, step: Step)
    requires |ms| <= 3
    ensures Successes(ms, step) ==
      (if |ms| > 0 && ms[0].step == step && ms[0].status == Success then 1 else 0) +
      (if |ms| > 1 && ms[1].step == step && ms[1].status == Success then 1 else 0) +
      (if |ms| > 2 && ms[2].step == step && ms[2].status == Success then 1 else 0)
  {
    if |ms| > 1 {
      assert Successes(ms[1..][1..], step) ==
        if |ms| == 2 then 0 else if ms[2].step == step && ms[2].status == Success then 1 else 0;
    }
  }

  /** A success of the region comes only after a package success, in this trace or before it. */
  lemma {:induction false} RegionAfterPackage(flags: Flags, obs: seq<Observation>, clusterID: string, k: nat)
    requires var sent := Polled(flags, obs, clusterID).sent;
      k < |sent| && sent[k].step == Region && sent[k].status == Success
    ensures flags.package || exists j :: 0 <= j < k && Polled(flags, obs, clusterID).sent[j] == Ok(RegionPackage)
    decreases |obs|
  {
    var turn := TurnOf(flags, obs[0], clusterID);
    var sent := Polled(flags, obs, clusterID).sent;
    if turn.flags.Some? && k >= |turn.sent| {
      var rest := Polled(turn.flags.value, obs[1..], clusterID).sent;
      RegionAfterPackage(turn.flags.value, obs[1..], clusterID, k - |turn.sent|);
      if !turn.flags.value.package {
        var j :| 0 <= j < k - |turn.sent| && rest[j] == Ok(RegionPackage);
        assert sent[j + |turn.sent|] == Ok(RegionPackage);
      } else if !flags.package {
        assert sent[0] == turn.sent[0] == Ok(RegionPackage);
      }
    } else if !flags.package {
      assert sent[0] == turn.sent[0];
    }
  }

  /** The last message is about the region and decides the run; no other is about the region. */
  predicate EndsInRegion(ms: seq<Message>) {
    ms != [] && ms[|ms| - 1].step == Region && (ms[|ms| - 1].status == Success || ms[|ms| - 1].status == Failure) &&
    NoRegion(ms[..|ms| - 1])
  }

  predicate NoRegion(ms: seq<Message>) {
    forall i :: 0 <= i < |ms| ==> ms[i].step != Region
  }

  lemma TurnRegion(flags: Flags, o: Observation, clusterID: string)
    ensures var turn := TurnOf(flags, o, clusterID);
      if turn.flags.None? then EndsInRegion(turn.sent) else NoRegion(turn.sent)
  {
    var turn := TurnOf(flags, o, clusterID);
    if turn.flags.None? && |turn.sent| > 1 {
      assert turn.sent[..|turn.sent| - 1] == [Ok(RegionPackage), Begin(RegionConfig)];
    }
  }

  lemma NoRegionFirst(a: seq<Message>, b: seq<Message>)
    requires NoRegion(a)
    ensures EndsInRegion(b) ==> EndsInRegion(a + b)
    ensures NoRegion(b) ==> NoRegion(a + b)
  {
    if b != [] { assert (a + b)[..|a + b| - 1] == a + b[..|b| - 1]; }
  }

  /** A loop that is left ends in exactly one region message; until then there is none. */
  lemma {:induction false} LeavesWithOneRegionMessage(flags: Flags, obs: seq<Observation>, clusterID: string)
    ensures var turn := Polled(flags, obs, clusterID);
      if turn.flags.None? then EndsInRegion(turn.sent) else NoRegion(turn.sent)
    decreases |obs|
  {
    if obs != [] {
      var turn := TurnOf(flags, obs[0], clusterID);
      TurnRegion(flags, obs[0], clusterID);
      if turn.flags.Some? {
        LeavesWithOneRegionMessage(turn.flags.value, obs[1..], clusterID);
        NoRegionFirst(turn.sent, Polled(turn.flags.value, obs[1..], clusterID).sent);
      }
    }
  }

  /** Everything is up. */
  predicate AllUp(o: Observation) {
    o.Seen? && o.operator && o.imageHub && true in o.packages && o.running
  }

  /** The number of milestones an all-up observation still has to announce before it can leave the loop. */
  function Missed(flags: Flags): nat {
    Pending(flags.operator) + Pending(flags.imageHub)
  }

  /** Three observations of everything up end the loop with success, whatever was announced before. */
  lemma {:induction false} ThreeTicksSuffice(flags: Flags, obs: seq<Observation>, clusterID: string)
    requires |obs| > Missed(flags) && forall i :: 0 <= i <= Missed(flags) ==> AllUp(obs[i])
    ensures Missed(flags) < 3
    ensures var turn := Polled(flags, obs[..Missed(flags) + 1], clusterID);
      turn.flags.None? && turn.sent != [] && turn.sent[|turn.sent| - 1] == Message(Region, clusterID, Success)
    decreases Missed(flags)
  {
    var turn, few := TurnOf(flags, obs[0], clusterID), obs[..Missed(flags) + 1];
    if Missed(flags) > 0 {
      var after := turn.flags.value;
      ThreeTicksSuffice(after, obs[1..], clusterID);
      assert few[1..] == obs[1..][..Missed(after) + 1];
    }
  }

  /** How many of the observations show the step. */
  function TimesShown(obs: seq<Observation>, step: Step): nat {
    if obs == [] then 0 else (if Shows(obs[0], step) then 1 else 0) + TimesShown(obs[1..], step)
  }

  /** How many of the observations show packages ready and the region running. */
  function TimesReady(obs: seq<Observation>): nat {
    if obs == [] then 0
    else (if Shows(obs[0], RegionPackage) && Shows(obs[0], Region) then 1 else 0) + TimesReady(obs[1..])
  }

  /** What is seen often enough is announced, in whatever order and with whatever in between: the operator
      at once, the image hub at the second time at the latest, the packages at the third; and a loop
      that goes on has seen packages and region together at most twice. */
  lemma {:induction false} SeenIsAnnounced(flags: Flags, obs: seq<Observation>, clusterID: string)
    requires Polled(flags, obs, clusterID).flags.Some?
    ensures var after := Polled(flags, obs, clusterID).flags.value;
      (!after.operator ==> TimesShown(obs, RegionOperator) == 0) &&
      (!after.imageHub ==> TimesShown(obs, RegionImageHub) <= Pending(flags.operator) - Pending(after.operator)) &&
      (!after.package ==> TimesShown(obs, RegionPackage) <= Missed(flags) - Missed(after)) &&
      TimesReady(obs) <= Missed(flags) - Missed(after) && Grows(flags, after)
    decreases |obs|
  {
    if obs != [] {
      SeenIsAnnounced(TurnOf(flags, obs[0], clusterID).flags.value, obs[1..], clusterID);
    }
  }

  predicate Grows(flags: Flags, after: Flags) {
    (flags.operator ==> after.operator) && (flags.imageHub ==> after.imageHub) && (flags.package ==> after.package)
  }

  /** The flags are what has been announced. */
  lemma {:induction false} FlagsAreAnnounced(flags: Flags, obs: seq<Observation>, clusterID: string)
    requires Polled(flags, obs, clusterID).flags.Some?
    ensures var turn := Polled(flags, obs, clusterID);
      var after := turn.flags.value;
      (after.operator <==> flags.operator || Ok(RegionOperator) in turn.sent) &&
      (after.imageHub <==> flags.imageHub || Ok(RegionImageHub) in turn.sent) &&
      (after.package <==> flags.package || Ok(RegionPackage) in turn.sent)
    decreases |obs|
  {
    if obs != [] {
      FlagsAreAnnounced(TurnOf(flags, obs[0], clusterID).flags.value, obs[1..], clusterID);
    }
  }

  /** What the loop emits does not depend on observations after it was left. */
  lemma {:induction false} LeavingIsFinal(flags: Flags, obs: seq<Observation>, more: seq<Observation>,
    clusterID: string)
    requires Polled(flags, obs, clusterID).flags.None?
    ensures Polled(flags, obs + more, clusterID) == Polled(flags, obs, clusterID)
    decreases |obs|
  {
    var turn := TurnOf(flags, obs[0], clusterID);
    assert (obs + more)[1..] == obs[1..] + more;
    if turn.flags.Some? {
      LeavingIsFinal(turn.flags.value, obs[1..], more, clusterID);
    }
  }

  /** The image hub may be announced before the operator; then its `start` follows its success. */
  lemma HubStartMayFollowSuccess(clusterID: string)
    ensures var hub := Seen(false, true, [], false);
      Polled(NO_FLAGS, [hub, Seen(true, true, [], false)], clusterID).sent ==
        [Ok(RegionImageHub), Begin(RegionPackage), Ok(RegionOperator), Begin(RegionImageHub)]
  {
    var hub, op := Seen(false, true, [], false), Seen(true, true, [], false);
    assert [hub, op][1..] == [op] && [op][1..] == [];
    assert TurnOf(NO_FLAGS, hub, clusterID) ==
      Turn([Ok(RegionImageHub), Begin(RegionPackage)], Some(Flags(false, true, false)));
    assert Polled(Flags(false, true, false), [op], clusterID).sent == [Ok(RegionOperator), Begin(RegionImageHub)];
  }

  // ----- the whole run

  /** How far a run gets; `adaptor` holds the messages the cloud adaptor emits while it prepares. */
  datatype Course =
    | NoAdaptor(text: string)
    | CheckFailed(text: string)
    | NoAddress(adaptor: seq<Message>)
    | OperatorFailed(adaptor: seq<Message>, text: string)
    | Looped(adaptor: seq<Message>, obs: seq<Observation>)

  /** The adaptor's messages are about its own cloud resources. */
  predicate OwnSteps(ms: seq<Message>) {
    forall i :: 0 <= i < |ms| ==> ms[i].step.OtherStep?
  }

  function Checked(clusterID: string): seq<Message> {
    [Begin(Init), Message(Init, "cloud adaptor create success", Success), Begin(CheckCluster),
     Message(CheckCluster, clusterID, Success)]
  }

  /** The messages of a run before the closing one. */
  function RunTrace(course: Course, clusterID: string): seq<Message> {
    match course
    case NoAdaptor(text) => [Begin(Init), Message(Init, "create cloud adaptor failure " + text, Failure)]
    case CheckFailed(text) => Checked(clusterID)[..3] + [Message(CheckCluster, text, Failure)]
    case NoAddress(adaptor) =>
      Checked(clusterID) + adaptor + [Begin(RegionOperator), Message(RegionOperator, "can not select eip", Failure)]
    case OperatorFailed(adaptor, text) =>
      Checked(clusterID) + adaptor + [Begin(RegionOperator), Message(RegionOperator, text, Failure)]
    case Looped(adaptor, obs) =>
      Checked(clusterID) + adaptor + [Begin(RegionOperator)] + Polled(NO_FLAGS, obs, clusterID).sent
  }

  /** How a run goes, by what its calls give: an adaptor or not, the first problem of the cluster if there
      is one, an address or not, and the installation of the operator. */
  function CourseOf(noAdaptor: Option<string>, check: Option<string>, adaptor: seq<Message>, hasAddress: bool,
    operator: Option<string>, obs: seq<Observation>): Course
  {
    if noAdaptor.Some? then NoAdaptor(noAdaptor.value)
    else if check.Some? then CheckFailed(check.value)
    else if !hasAddress then NoAddress(adaptor)
    else if operator.Some? then OperatorFailed(adaptor, operator.value)
    else Looped(adaptor, obs)
  }

  /** The whole run; `over` is false when the observations given do not yet end it. Each step it gets to
      is announced, and the first call that fails ends it with its text. */
  method Run(clusterID: string, noAdaptor: Option<string>, check: Option<string>, adaptor: seq<Message>,
    hasAddress: bool, operator: Option<string>, obs: seq<Observation>) returns (sent: seq<Message>, over: bool)
    ensures sent == RunTrace(CourseOf(noAdaptor, check, adaptor, hasAddress, operator, obs), clusterID)
    ensures over <==> IsOver(CourseOf(noAdaptor, check, adaptor, hasAddress, operator, obs), clusterID)
    ensures noAdaptor.Some? ==>
      sent == [Message(Init, "", Start), Message(Init, "create cloud adaptor failure " + noAdaptor.value, Failure)]
    ensures noAdaptor.None? ==>
      (sent[..3] == [Message(Init, "", Start), Message(Init, "cloud adaptor create success", Success),
         Message(CheckCluster, "", Start)] &&
       sent[3] == if check.Some? then Message(CheckCluster, check.value, Failure)
         else Message(CheckCluster, clusterID, Success))
    ensures noAdaptor.None? && check.Some? ==> |sent| == 4
    ensures noAdaptor.None? && check.None? ==>
      (var rest := sent[4..];
       |rest| > |adaptor| && rest[..|adaptor|] == adaptor && rest[|adaptor|] == Message(RegionOperator, "", Start) &&
       (!hasAddress ==> rest[|adaptor| + 1..] == [Message(RegionOperator, "can not select eip", Failure)]) &&
       (hasAddress && operator.Some? ==> rest[|adaptor| + 1..] == [Message(RegionOperator, operator.value, Failure)]) &&
       (hasAddress && operator.None? ==> rest[|adaptor| + 1..] == Polled(NO_FLAGS, obs, clusterID).sent))
  {
    sent, over := [Message(Init, "", Start)], true;
    if noAdaptor.Some? {
      sent := sent + [Message(Init, "create cloud adaptor failure " + noAdaptor.value, Failure)];
      return;
    }
    sent := sent + [Message(Init, "cloud adaptor create success", Success), Message(CheckCluster, "", Start)];
    if check.Some? {
      sent := sent + [Message(CheckCluster, check.value, Failure)];
      return;
    }
    sent := sent + [Message(CheckCluster, clusterID, Success)];
    assert sent == Checked(clusterID);
    var tail;
    tail, over := Install(clusterID, hasAddress, operator, obs);
    var before := sent + adaptor;
    var all := before + [Message(RegionOperator, "", Start)] + tail;
    RestOf(sent, adaptor, Message(RegionOperator, "", Start), tail);
    assert !hasAddress || operator.Some? ==> before + ([Begin(RegionOperator)] + tail) == all;
    sent := all;
  }

  /** What follows the start of the operator. */
  method Install(clusterID: string, hasAddress: bool, operator: Option<string>, obs: seq<Observation>)
    returns (sent: seq<Message>, over: bool)
    ensures !hasAddress ==> sent == [Message(RegionOperator, "can not select eip", Failure)]
    ensures hasAddress && operator.Some? ==> sent == [Message(RegionOperator, operator.value, Failure)]
    ensures hasAddress && operator.None? ==> sent == Polled(NO_FLAGS, obs, clusterID).sent
    ensures over <==> !hasAddress || operator.Some? || Polled(NO_FLAGS, obs, clusterID).flags.None?
  {
    if !hasAddress {
      return [Message(RegionOperator, "can not select eip", Failure)], true;
    }
    if operator.Some? {
      return [Message(RegionOperator, operator.value, Failure)], true;
    }
    var ticks;
    sent, over, ticks := Poll(obs, clusterID);
  }

  lemma RestOf(a: seq<Message>, b: seq<Message>, m: Message, c: seq<Message>)
    ensures var all := a + b + [m] + c;
      all[..|a|] == a && all[|a|..][..|b|] == b && all[|a|..][|b|] == m && all[|a|..][|b| + 1..] == c
  {
  }

  /** The run has ended. */
  predicate IsOver(course: Course, clusterID: string) {
    course.Looped? ==> Polled(NO_FLAGS, course.obs, clusterID).flags.None?
  }

  /** The complete traces of init runs. */
  ghost predicate IsInitRun(ms: seq<Message>) {
    exists course: Course, clusterID: string ::
      IsOver(course, clusterID) && (!course.NoAdaptor? && !course.CheckFailed? ==> OwnSteps(course.adaptor)) &&
      ms == RunTrace(course, clusterID)
  }

  /** The run succeeded. */
  predicate Succeeded(ms: seq<Message>) {
    ms != [] && ms[|ms| - 1].step == Region && ms[|ms| - 1].status == Success
  }

  /** No message is a success of the step. */
  predicate NoSuccess(ms: seq<Message>, step: Step) {
    forall i :: 0 <= i < |ms| ==> !(ms[i].step == step && ms[i].status == Success)
  }

  /** The messages end with a failure or with the only region message, a success; the last step has
      not succeeded before. */
  predicate Stops(ms: seq<Message>) {
    ms != [] && NoRegion(ms[..|ms| - 1]) && NoSuccess(ms[..|ms| - 1], ms[|ms| - 1].step) &&
    (Succeeded(ms) || ms[|ms| - 1].status == Failure)
  }

  /** The last message is the one that its step is stored with. */
  lemma StopDecides(ms: seq<Message>)
    requires Stops(ms)
    ensures Decides(ms, |ms| - 1)
  {
    assert forall i :: 0 <= i < |ms| - 1 ==> ms[i] == ms[..|ms| - 1][i];
  }

  lemma StopsInRegion(a: seq<Message>, b: seq<Message>)
    requires NoRegion(a) && EndsInRegion(b)
    ensures Stops(a + b)
  {
    assert (a + b)[..|a + b| - 1] == a + b[..|b| - 1];
  }

  lemma StopsWithFailure(a: seq<Message>, m: Message)
    requires NoRegion(a) && NoSuccess(a, m.step) && m.status == Failure
    ensures Stops(a + [m])
  {
    assert (a + [m])[..|a|] == a;
  }

  lemma PreparationIsSilent(adaptor: seq<Message>, clusterID: string)
    requires OwnSteps(adaptor)
    ensures NoRegion(Checked(clusterID) + adaptor) && NoRegion(Checked(clusterID) + adaptor + [Begin(RegionOperator)])
  {
  }

  lemma FailsOnOperator(adaptor: seq<Message>, clusterID: string, m: Message)
    requires OwnSteps(adaptor) && m.status == Failure && m.step == RegionOperator
    ensures Stops(Checked(clusterID) + adaptor + [Begin(RegionOperator), m])
  {
    var before := Checked(clusterID) + adaptor + [Begin(RegionOperator)];
    PreparationIsSilent(adaptor, clusterID);
    StopsWithFailure(before, m);
    assert before + [m] == Checked(clusterID) + adaptor + [Begin(RegionOperator), m];
  }

  lemma LoopStops(adaptor: seq<Message>, obs: seq<Observation>, clusterID: string)
    requires OwnSteps(adaptor) && Polled(NO_FLAGS, obs, clusterID).flags.None?
    ensures Stops(Checked(clusterID) + adaptor + [Begin(RegionOperator)] + Polled(NO_FLAGS, obs, clusterID).sent)
  {
    PreparationIsSilent(adaptor, clusterID);
    LeavesWithOneRegionMessage(NO_FLAGS, obs, clusterID);
    StopsInRegion(Checked(clusterID) + adaptor + [Begin(RegionOperator)], Polled(NO_FLAGS, obs, clusterID).sent);
  }

  lemma CourseEnds(course: Course, clusterID: string)
    requires IsOver(course, clusterID) && (!course.NoAdaptor? && !course.CheckFailed? ==> OwnSteps(course.adaptor))
    ensures Stops(RunTrace(course, clusterID))
  {
    match course {
      case NoAdaptor(text) =>
      case CheckFailed(text) => StopsWithFailure(Checked(clusterID)[..3], Message(CheckCluster, text, Failure));
      case NoAddress(adaptor) =>
        FailsOnOperator(adaptor, clusterID, Message(RegionOperator, "can not select eip", Failure));
      case OperatorFailed(adaptor, text) => FailsOnOperator(adaptor, clusterID, Message(RegionOperator, text, Failure));
      case Looped(adaptor, obs) => LoopStops(adaptor, obs, clusterID);
    }
  }

  /** A run ends with a failure or with its only region message, a success. */
  lemma InitRunEnds(ms: seq<Message>)
    requires IsInitRun(ms)
    ensures Stops(ms)
  {
    var course: Course, clusterID: string :|
      IsOver(course, clusterID) && (!course.NoAdaptor? && !course.CheckFailed? ==> OwnSteps(course.adaptor)) &&
      ms == RunTrace(course, clusterID);
    CourseEnds(course, clusterID);
  }

  /** Failures come last, if at all. */
  predicate FailsLast(ms: seq<Message>) {
    forall i :: 0 <= i < |ms| - 1 ==> ms[i].status != Failure
  }

  /** A run whose adaptor emits nothing, as those of self-managed clusters do, has no failure but its
      last message. */
  lemma SelfManagedFailsLast(course: Course, clusterID: string)
    requires !course.NoAdaptor? && !course.CheckFailed? ==> course.adaptor == []
    ensures FailsLast(RunTrace(course, clusterID))
  {
    if course.Looped? {
      var before := Checked(clusterID) + [] + [Begin(RegionOperator)];
      var all := before + Polled(NO_FLAGS, course.obs, clusterID).sent;
      forall i | 0 <= i < |all| - 1
        ensures all[i].status != Failure
      {
        if i >= |before| { PolledFailsLast(NO_FLAGS, course.obs, clusterID, i - |before|); }
      }
    }
  }

  lemma {:induction false} PolledFailsLast(flags: Flags, obs: seq<Observation>, clusterID: string, i: nat)
    requires i < |Polled(flags, obs, clusterID).sent| - 1
    ensures Polled(flags, obs, clusterID).sent[i].status != Failure
    decreases |obs|
  {
    var turn := TurnOf(flags, obs[0], clusterID);
    if turn.flags.Some? && i >= |turn.sent| {
      PolledFailsLast(turn.flags.value, obs[1..], clusterID, i - |turn.sent|);
    }
  }

  // ----- the task row of the run

  /** The operation changes the init row of the task. */
  predicate Touches(op: DbOp, id: TaskID) {
    match op
    case Posted(t, _, _) => t == id
    case Wrote(w) => w.table == Inits && w.taskID == id
    case Marked(_) => false
  }

  /** The status that the end of a run gives its row. */
  function Outcome(ms: seq<Message>): TaskStatus {
    if Succeeded(ms) then Inited else Complete
  }

  lemma RecordSetsInit(db: Db, id: TaskID, m: Message, freshID: string)
    ensures m.step == Region && m.status == Success ==> AllHave(Record(db, id, m, freshID).inits, id, Inited)
    ensures m.status == Failure ==> AllHave(Record(db, id, m, freshID).inits, id, Complete)
  {
    var db1 := db.(events := Upsert(db.events, EventOf(id, m, freshID)));
    PutAllPost(db1, id, m.step, m.status);
  }

  lemma LastMessageSetsOutcome(db: Db, id: TaskID, ms: seq<Message>, freshID: string)
    requires Stops(ms)
    ensures AllHave(Record(db, id, ms[|ms| - 1], freshID).inits, id, Outcome(ms))
  {
    RecordSetsInit(db, id, ms[|ms| - 1], freshID);
  }

  lemma RunLeavesOutcome(db: Db, ops: seq<DbOp>, id: TaskID)
    requires ops != [] && ops[|ops| - 1].Posted? && ops[|ops| - 1].taskID == id
    requires Stops(Own(ops, id))
    ensures AllHave(Exec(db, ops).inits, id, Outcome(Own(ops, id)))
  {
    LastMessageSetsOutcome(Exec(db, ops[..|ops| - 1]), id, Own(ops, id), ops[|ops| - 1].freshID);
  }

  lemma {:induction false} ForeignWritesKeepInit(db: Db, ws: seq<Write>, id: TaskID, status: TaskStatus)
    requires forall i :: 0 <= i < |ws| ==> ws[i].taskID != id
    requires AllHave(db.inits, id, status)
    ensures AllHave(PutAll(db, ws).inits, id, status)
    decreases |ws|
  {
    if ws != [] { ForeignWritesKeepInit(Put(db, ws[0]), ws[1..], id, status); }
  }

  lemma UntouchedKeepsInit(db: Db, op: DbOp, id: TaskID, status: TaskStatus)
    requires !Touches(op, id) && AllHave(db.inits, id, status)
    ensures AllHave(Step1(db, op).inits, id, status)
  {
    match op {
      case Posted(t, m, freshID) =>
        forall i | 0 <= i < |PostWrites(t, m.step, m.status)|
          ensures PostWrites(t, m.step, m.status)[i].taskID == t
        {
        }
        ForeignWritesKeepInit(db.(events := Upsert(db.events, EventOf(t, m, freshID))),
          PostWrites(t, m.step, m.status), id, status);
      case Wrote(w) =>
      case Marked(_) =>
    }
  }

  lemma {:induction false} UntouchedSuffix(db: Db, ops: seq<DbOp>, id: TaskID, n: nat, status: TaskStatus)
    requires n <= |ops| && AllHave(Exec(db, ops[..n]).inits, id, status)
    requires forall i :: n <= i < |ops| ==> !Touches(ops[i], id)
    ensures AllHave(Exec(db, ops).inits, id, status) && Own(ops, id) == Own(ops[..n], id)
  {
    if n == |ops| {
      assert ops[..n] == ops;
    } else {
      var init := ops[..|ops| - 1];
      assert init[..n] == ops[..n];
      UntouchedSuffix(db, init, id, n, status);
      UntouchedKeepsInit(Exec(db, init), ops[|ops| - 1], id, status);
    }
  }

  /** After the last message of a run, if nothing else touches the row of its task, the row says how
      the run ended; recordings and writes of other tasks and any batch updates may interleave anywhere. */
  lemma InitRowSaysOutcome(db: Db, ops: seq<DbOp>, id: TaskID, last: nat)
    requires last < |ops| && ops[last].Posted? && ops[last].taskID == id
    requires forall i :: last < i < |ops| ==> !Touches(ops[i], id)
    requires IsInitRun(Own(ops[..last + 1], id))
    ensures Own(ops, id) == Own(ops[..last + 1], id)
    ensures AllHave(Exec(db, ops).inits, id, Outcome(Own(ops, id)))
  {
    var run := ops[..last + 1];
    InitRunEnds(Own(run, id));
    RunLeavesOutcome(db, run, id);
    UntouchedSuffix(db, ops, id, last + 1, Outcome(Own(run, id)));
  }

  /** A success once emitted is what the stored step says, whatever follows it. */
  lemma {:induction false} SuccessIsStored(log: seq<TaskEvent>, id: TaskID, ms: seq<Message>, j: nat)
    requires View(log, id) == Rows(ms) && j < |ms| && ms[j].status == Success
    ensures exists e :: e in OfTask(log, id) && e.step == ms[j].step && e.status == Success
  {
    if i :| 0 <= i < j && ms[i].step == ms[j].step && ms[i].status == Success {
      SuccessIsStored(log, id, ms, i);
    } else {
      assert Decides(ms, j);
      DecidedIsStored(log, id, ms, j);
    }
  }

  // ----- listing the events of the run

  lemma RowOccurs(ms: seq<Message>, step: Step)
    ensures RowIndex(Rows(ms), step) < |Rows(ms)| ==> First(ms, step) < |ms|
  {
    var rows, i := Rows(ms), RowIndex(Rows(ms), step);
    RowsSummariseMessages(ms);
    if i < |rows| { DecidedOccurs(rows[i], ms); }
  }

  /** A step that occurs only at the end has the last row. */
  lemma LastStepHasLastRow(ms: seq<Message>)
    requires ms != [] && First(ms, ms[|ms| - 1].step) == |ms| - 1
    ensures Rows(ms) != [] && Rows(ms)[|Rows(ms)| - 1] == RowOf(ms[|ms| - 1])
  {
    var init, m := ms[..|ms| - 1], ms[|ms| - 1];
    assert ms == init + [m];
    FirstOfAppend(init, m, m.step);
    RowOccurs(init, m.step);
    AbsorbAt(Rows(init), m);
  }

  lemma RegionIsFirstAtEnd(ms: seq<Message>)
    requires ms != [] && NoRegion(ms[..|ms| - 1]) && ms[|ms| - 1].step == Region
    ensures First(ms, Region) == |ms| - 1
  {
    assert forall i :: 0 <= i < |ms| - 1 ==> ms[i] == ms[..|ms| - 1][i];
  }

  /** The stored event of the region, if the run succeeded, is the last one. */
  lemma RegionIsStoredLast(log: seq<TaskEvent>, id: TaskID, ms: seq<Message>)
    requires View(log, id) == Rows(ms) && Stops(ms) && Succeeded(ms)
    ensures var own := OfTask(log, id);
      own != [] && own[|own| - 1].step == Region && own[|own| - 1].status == Success
  {
    RegionIsFirstAtEnd(ms);
    LastStepHasLastRow(ms);
    ViewListsEvents(log, id);
  }

  lemma InitWriteOf(e: TaskEvent, w: Write)
    requires w in EventWrites(e) && w.table == Inits
    ensures w.status == Complete || (e.step == Region && e.status == Success)
  {
  }

  /** A failed run has no stored success of the region, so a listing writes nothing but completion. */
  lemma FailedRunWritesComplete(log: seq<TaskEvent>, id: TaskID, ms: seq<Message>, w: Write)
    requires View(log, id) == Rows(ms) && Stops(ms) && !Succeeded(ms)
    requires w in ListWrites(OfTask(log, id)) && w.table == Inits
    ensures w.status == Complete
  {
    var e := ListWriteFrom(OfTask(log, id), w);
    InitWriteOf(e, w);
    StoredIsDecided(log, id, ms, e);
    var k :| Decides(ms, k) && ms[k].step == e.step && ms[k].status == e.status;
    assert k < |ms| - 1 ==> ms[k] == ms[..|ms| - 1][k];
  }

  lemma RegionSuccessWrites(e: TaskEvent)
    requires e.step == Region && e.status == Success
    ensures EventWrites(e) == [Write(Inits, e.taskID, Inited)]
  {
  }

  lemma LastEventWritesLast(before: seq<Write>, last: TaskEvent)
    requires last.step == Region && last.status == Success
    ensures LastWrite(before + EventWrites(last), Inits, last.taskID) == Some(Inited)
  {
    RegionSuccessWrites(last);
    LastWriteAppend(before, EventWrites(last), Inits, last.taskID);
  }

  lemma SuccessIsWrittenLast(log: seq<TaskEvent>, id: TaskID, ms: seq<Message>)
    requires View(log, id) == Rows(ms) && Stops(ms) && Succeeded(ms)
    ensures LastWrite(ListWrites(OfTask(log, id)), Inits, id) == Some(Inited)
  {
    var own := OfTask(log, id);
    RegionIsStoredLast(log, id, ms);
    assert own[|own| - 1] in own;
    LastEventWritesLast(ListWrites(own[..|own| - 1]), own[|own| - 1]);
  }

  lemma FailureWrites(e: TaskEvent)
    requires e.status == Failure
    ensures Write(Inits, e.taskID, Complete) in EventWrites(e)
  {
  }

  lemma FailureIsWritten(log: seq<TaskEvent>, id: TaskID, ms: seq<Message>)
    requires View(log, id) == Rows(ms) && Stops(ms) && !Succeeded(ms)
    ensures Write(Inits, id, Complete) in ListWrites(OfTask(log, id))
  {
    var own := OfTask(log, id);
    StopDecides(ms);
    DecidedIsStored(log, id, ms, |ms| - 1);
    var e :| e in own && e.step == ms[|ms| - 1].step && e.status == Failure;
    var i :| 0 <= i < |own| && own[i] == e;
    FailureWrites(own[i]);
    ListWritesHave(own, i, Write(Inits, id, Complete));
  }

  lemma FailureIsWrittenLast(log: seq<TaskEvent>, id: TaskID, ms: seq<Message>)
    requires View(log, id) == Rows(ms) && Stops(ms) && !Succeeded(ms)
    ensures LastWrite(ListWrites(OfTask(log, id)), Inits, id) == Some(Complete)
  {
    var ws := ListWrites(OfTask(log, id));
    FailureIsWritten(log, id, ms);
    var k :| 0 <= k < |ws| && ws[k] == Write(Inits, id, Complete);
    forall i | 0 <= i < |ws| && ws[i].table == Inits && ws[i].taskID == id
      ensures ws[i].status == Complete
    {
      FailedRunWritesComplete(log, id, ms, ws[i]);
    }
    UniformLastWrite(ws, Inits, id, Complete, k);
  }

  lemma OutcomeIsWrittenLast(log: seq<TaskEvent>, id: TaskID, ms: seq<Message>)
    requires View(log, id) == Rows(ms) && Stops(ms)
    ensures LastWrite(ListWrites(OfTask(log, id)), Inits, id) == Some(Outcome(ms))
  {
    if Succeeded(ms) { SuccessIsWrittenLast(log, id, ms); } else { FailureIsWrittenLast(log, id, ms); }
  }

  /** Whatever status the row has, the status writes of one listing give it the outcome of the run,
      while the log holds what the run emitted; `InitListings` says what happens once a
      synchronisation has marked events. */
  lemma ListingSetsOutcome(db: Db, id: TaskID, ms: seq<Message>)
    requires View(db.events, id) == Rows(ms) && IsInitRun(ms)
    ensures AllHave(Recompute(db, id).inits, id, Outcome(ms))
  {
    InitRunEnds(ms);
    PutAllRewrites(db, ListWrites(OfTask(db.events, id)));
    OutcomeIsWrittenLast(db.events, id, ms);
  }

  /** Self-healing of init tasks: for every init run and every interleaving of its messages with late
      `start` writes, writes of users, and whatever happens to other tasks, one later listing gives
      the row the outcome of the run. */
  lemma InitTaskHeals(db: Db, ops: seq<DbOp>, id: TaskID)
    requires View(db.events, id) == [] && AllSpare(db, ops, id) && IsInitRun(Own(ops, id))
    ensures AllHave(Recompute(Exec(db, ops), id).inits, id, Outcome(Own(ops, id)))
  {
    LogFollowsOwnMessages(db, ops, id);
    ListingSetsOutcome(Exec(db, ops), id, Own(ops, id));
  }

  /** The status that a message gives the init row as it is recorded. */
  function RecordedStatus(m: Message): Option<TaskStatus> {
    if m.status == Failure then Some(Complete)
    else if m.step == Region && m.status == Success then Some(Inited)
    else None
  }

  /** A later status write, the producer's `start` or a user's, undoes what a message gave the row. */
  lemma LateWriteUndoesOutcome(db: Db, id: TaskID, m: Message, freshID: string, status: TaskStatus)
    requires HasTask(db.inits, id) && RecordedStatus(m).Some? && RecordedStatus(m) != Some(status)
    ensures var done, late := [Posted(id, m, freshID)], [Posted(id, m, freshID), Wrote(Write(Inits, id, status))];
      AllHave(Exec(db, done).inits, id, RecordedStatus(m).value) &&
      AllHave(Exec(db, late).inits, id, status) && !AllHave(Exec(db, late).inits, id, RecordedStatus(m).value)
  {
    var done, late := [Posted(id, m, freshID)], [Posted(id, m, freshID), Wrote(Write(Inits, id, status))];
    var recorded := RecordedStatus(m).value;
    WritesOfTwo(Posted(id, m, freshID), Wrote(Write(Inits, id, status)), Inits, id);
    MessageWrites(id, m, id);
    RowsHaveLastStatus(db, done, id, recorded);
    RowsHaveLastStatus(db, late, id, status);
    RowsHaveLastStatus(db, late, id, recorded);
  }
}
