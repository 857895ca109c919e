/**
 The services that look at a deployment and act on it: fault injection, drift detection,
 link validation and reconcile.  Each finds a host's server in its own way.
 */
module Observers {
  import opened Wrappers
  import opened Topology
  import opened Providers
  import opened LocalState
  import opened ResourceTypes
  import opened Deployment
  import opened Selections
  import Pool = ParallelPings
  import Text

  type TestStatus = Pool.TestStatus

  // ----- failure_service

  datatype FailureError = UnknownHost | NotDeployed

  predicate IsHost(nodes: seq<Node>, name: string) {
    Node(name, "host") in nodes
  }

  /** First row of any instance type with this name. */
  function FirstServer(rows: seq<Row>, name: string): Option<Row> {
    if rows == [] then None
    else if rows[0].rtype in INSTANCE_RESOURCE_TYPES && rows[0].name == name then Some(rows[0])
    else FirstServer(rows[1..], name)
  }

  function FindServer(w: World, t: TopologyRow, name: string): Result<Row, FailureError> {
    if !IsHost(t.topology.nodes, name) then Err(UnknownHost) else
      match FirstServer(RowsOf(w.rows, t.id), name)
      case None => Err(NotDeployed)
      case Some(r) => Ok(r)
  }

  function InjectNodeDown(w: World, t: TopologyRow, name: string): Result<World, FailureError> {
    match FindServer(w, t, name)
    case Err(e) => Err(e)
    case Ok(r) => Ok(w.(provider := Stop(w.provider, r.rid)))
  }

  function RecoverNode(w: World, t: TopologyRow, name: string): Result<World, FailureError> {
    match FindServer(w, t, name)
    case Err(e) => Err(e)
    case Ok(r) => Ok(w.(provider := Start(w.provider, r.rid)))
  }

  method ServerResourceByName(rows: seq<Row>, name: string) returns (found: Option<Row>)
    ensures found == FirstServer(rows, name)
  {
    var i := 0;
    assert rows[0..] == rows;
    while i < |rows|
      invariant 0 <= i <= |rows| && FirstServer(rows, name) == FirstServer(rows[i..], name)
    {
      assert rows[i..][1..] == rows[i + 1..];
      if rows[i].rtype in INSTANCE_RESOURCE_TYPES && rows[i].name == name { return Some(rows[i]); }
      i := i + 1;
    }
    return None;
  }

  method RecordNodeAction(session: Session, store: Store, provider: Provider, t: TopologyRow, name: string, down: bool)
    returns (fault: Option<FailureError>)
    modifies provider
    ensures var w := old(View(session, store, provider));
            match (if down then InjectNodeDown(w, t, name) else RecoverNode(w, t, name))
            case Err(e) => fault == Some(e) && View(session, store, provider) == w
            case Ok(w') => fault == None && View(session, store, provider) == w'
  {
    if Node(name, "host") !in t.topology.nodes { return Some(UnknownHost); }
    var rows := session.ListTopologyResources(t.id);
    var server := ServerResourceByName(rows, name);
    if server.None? { return Some(NotDeployed); }
    if down { provider.StopServer(server.value.rid); } else { provider.StartServer(server.value.rid); }
    return None;
  }

  // ----- drift_service

  datatype DriftItem = DriftItem(rtype: string, name: string, expected: string, actual: string, severity: string)

  function FirstRow(rows: seq<Row>, rtype: string, name: string): Option<Row> {
    if rows == [] then None
    else if rows[0].rtype == rtype && rows[0].name == name then Some(rows[0])
    else FirstRow(rows[1..], rtype, name)
  }

  /** Canonical mock instances before legacy ones. */
  function InstanceRow(rows: seq<Row>, name: string): Option<Row> {
    match FirstRow(rows, PROVIDER_INSTANCE, name)
    case Some(r) => Some(r)
    case None => FirstRow(rows, NOVA_SERVER, name)
  }

  function HostDrift(p: State, rows: seq<Row>, n: Node): seq<DriftItem> {
    if n.kind != "host" then [] else
      match InstanceRow(rows, n.name)
      case None => [DriftItem(PROVIDER_INSTANCE, n.name, "running", "missing", "critical")]
      case Some(r) =>
        if StatusOf(p, r.rid) == Running then []
        else [DriftItem(r.rtype, n.name, "running", "stopped", "warning")]
  }

  function HostsDrift(p: State, rows: seq<Row>, nodes: seq<Node>): seq<DriftItem> {
    if nodes == [] then []
    else HostsDrift(p, rows, nodes[..|nodes| - 1]) + HostDrift(p, rows, nodes[|nodes| - 1])
  }

  /** The mock calls a resource gone when its id says so. */
  ghost predicate Exists(rid: string) {
    !Text.Contains(rid, "missing")
  }

  ghost function SubnetDrift(r: Row): seq<DriftItem> {
    if r.rtype in {PROVIDER_SUBNET, NEUTRON_SUBNET} && !Exists(r.rid)
    then [DriftItem(r.rtype, r.name, "present", "missing", "critical")] else []
  }

  ghost function SubnetsDrift(rows: seq<Row>): seq<DriftItem> {
    if rows == [] then [] else SubnetsDrift(rows[..|rows| - 1]) + SubnetDrift(rows[|rows| - 1])
  }

  ghost function Drift(w: World, t: TopologyRow): seq<DriftItem> {
    var rows := RowsOf(w.rows, t.id);
    HostsDrift(w.provider, rows, t.topology.nodes) + SubnetsDrift(rows)
  }

  method FindRow(rows: seq<Row>, rtype: string, name: string) returns (found: Option<Row>)
    ensures found == FirstRow(rows, rtype, name)
  {
    var i := 0;
    assert rows[0..] == rows;
    while i < |rows|
      invariant 0 <= i <= |rows| && FirstRow(rows, rtype, name) == FirstRow(rows[i..], rtype, name)
    {
      assert rows[i..][1..] == rows[i + 1..];
      if rows[i].rtype == rtype && rows[i].name == name { return Some(rows[i]); }
      i := i + 1;
    }
    return None;
  }

  method ResourceExists(rid: string) returns (exists': bool)
    ensures exists' == Exists(rid)
  {
    var i := 0;
    while i + 7 <= |rid|
      invariant forall j :: 0 <= j < i && j + 7 <= |rid| ==> !Text.OccursAt(rid, "missing", j)
    {
      if rid[i..i + 7] == "missing" {
        assert Text.OccursAt(rid, "missing", i);
        return false;
      }
      i := i + 1;
    }
    return true;
  }

  method FindInstanceResource(rows: seq<Row>, name: string) returns (found: Option<Row>)
    ensures found == InstanceRow(rows, name)
  {
    found := FindRow(rows, PROVIDER_INSTANCE, name);
    if found.None? { found := FindRow(rows, NOVA_SERVER, name); }
  }

  method DetectHostDrift(provider: Provider, rows: seq<Row>, nodes: seq<Node>) returns (items: seq<DriftItem>)
    ensures items == HostsDrift(provider.View(), rows, nodes)
  {
    hide InstanceRow;
    items := [];
    var i := 0;
    while i < |nodes|
      invariant 0 <= i <= |nodes| && items == HostsDrift(provider.View(), rows, nodes[..i])
    {
      assert nodes[..i + 1][..i] == nodes[..i];
      if nodes[i].kind == "host" {
        var row := FindInstanceResource(rows, nodes[i].name);
        if row.None? {
          items := items + [DriftItem(PROVIDER_INSTANCE, nodes[i].name, "running", "missing", "critical")];
        } else {
          var status := provider.GetServerStatus(row.value.rid);
          if status != Running {
            items := items + [DriftItem(row.value.rtype, nodes[i].name, "running", "stopped", "warning")];
          }
        }
      }
      i := i + 1;
    }
    assert nodes[..i] == nodes;
  }

  method DetectSubnetDrift(rows: seq<Row>) returns (items: seq<DriftItem>)
    ensures items == SubnetsDrift(rows)
  {
    hide Exists;
    items := [];
    var i := 0;
    while i < |rows|
      invariant 0 <= i <= |rows| && items == SubnetsDrift(rows[..i])
    {
      assert rows[..i + 1][..i] == rows[..i];
      if rows[i].rtype in {PROVIDER_SUBNET, NEUTRON_SUBNET} {
        var present := ResourceExists(rows[i].rid);
        if !present {
          items := items + [DriftItem(rows[i].rtype, rows[i].name, "present", "missing", "critical")];
        }
      }
      i := i + 1;
    }
    assert rows[..i] == rows;
  }

  /** Detection supports the mock here; any other provider of this model is refused. */
  method DetectTopologyDrift(session: Session, store: Store, provider: Provider, t: TopologyRow)
    returns (items: Option<seq<DriftItem>>)
    ensures items == if provider.name.Mock? then Some(Drift(View(session, store, provider), t)) else None
  {
    hide HostsDrift, SubnetsDrift;
    if provider.name != Mock { return None; }
    var rows := session.ListTopologyResources(t.id);
    var hosts := DetectHostDrift(provider, rows, t.topology.nodes);
    var subnets := DetectSubnetDrift(rows);
    return Some(hosts + subnets);
  }

  // ----- connectivity_service, one ping at a time

  datatype TestResult = TestResult(source: string, target: string, status: TestStatus)

  /** The dictionary comprehension keeps the last instance row of a name. */
  function LastServer(rows: seq<Row>, name: string): Option<Row> {
    if rows == [] then None else
      var r := rows[|rows| - 1];
      if r.rtype in INSTANCE_RESOURCE_TYPES && r.name == name then Some(r) else LastServer(rows[..|rows| - 1], name)
  }

  /**
   A ping on a mock without simulated loss: both ends are deployed hosts and run, and no
   budgeted failure is left.  Only a ping whose target runs spends the budget.
   */
  function Ping(w: World, t: TopologyRow, source: string, target: string): (World, TestStatus) {
    if !IsHost(t.topology.nodes, source) || !IsHost(t.topology.nodes, target) then (w, Pool.FAILED) else
      var rows := RowsOf(w.rows, t.id);
      match (LastServer(rows, source), LastServer(rows, target))
      case (Some(s), Some(d)) =>
        if StatusOf(w.provider, d.rid) != Running then (w, Pool.FAILED) else
          var (p, ok) := PingFrom(w.provider, s.rid);
          (w.(provider := p), if ok then Pool.PASSED else Pool.FAILED)
      case _ => (w, Pool.FAILED)
  }

  /** With firewall rules only those are checked, and only ICMP ones are pinged. */
  function ChecksOf(t: Topology): seq<Pool.Check> {
    if t.rules != [] then
      seq(|t.rules|, i requires 0 <= i < |t.rules| =>
        Pool.Check(t.rules[i].src, t.rules[i].dst, t.rules[i].protocol == "icmp"))
    else
      seq(|t.links|, i requires 0 <= i < |t.links| => Pool.Check(t.links[i].src, t.links[i].dst, true))
  }

  function Results(w: World, t: TopologyRow, checks: seq<Pool.Check>): (World, seq<TestResult>) {
    if checks == [] then (w, []) else
      var (w1, results) := Results(w, t, checks[..|checks| - 1]);
      var c := checks[|checks| - 1];
      var (w2, status) := if c.icmp then Ping(w1, t, c.source, c.target) else (w1, Pool.SKIPPED);
      (w2, results + [TestResult(c.source, c.target, status)])
  }

  /** No link at all is a failure. */
  predicate LinksPass(results: seq<TestResult>) {
    results != [] && forall i :: 0 <= i < |results| ==> results[i].status == Pool.PASSED
  }

  predicate RulesPass(results: seq<TestResult>) {
    forall i :: 0 <= i < |results| ==> results[i].status != Pool.FAILED
  }

  function Verdict(t: Topology, results: seq<TestResult>): TestStatus {
    if (if t.rules != [] then RulesPass(results) else LinksPass(results)) then Pool.PASSED else Pool.FAILED
  }

  /** The validation of a topology as if its pings ran one after another. */
  function Validate(w: World, t: TopologyRow): (World, TestStatus) {
    var (w', results) := Results(w, t, ChecksOf(t.topology));
    (w', Verdict(t.topology, results))
  }

  method ExecutePing(session: Session, store: Store, provider: Provider, t: TopologyRow, source: string, target: string)
    returns (status: TestStatus)
    modifies provider
    ensures (View(session, store, provider), status) == Ping(old(View(session, store, provider)), t, source, target)
  {
    if Node(source, "host") !in t.topology.nodes || Node(target, "host") !in t.topology.nodes { return Pool.FAILED; }
    var rows := session.ListTopologyResources(t.id);
    var s, d := LastServer(rows, source), LastServer(rows, target);
    if s.None? || d.None? { return Pool.FAILED; }
    var targetStatus := provider.GetServerStatus(d.value.rid);
    if targetStatus != Running { return Pool.FAILED; }
    var ok := provider.RunPing(s.value.rid);
    status := if ok then Pool.PASSED else Pool.FAILED;
  }

  lemma ResultsNext(w: World, t: TopologyRow, checks: seq<Pool.Check>, i: nat)
    requires i < |checks|
    ensures var (w1, results) := Results(w, t, checks[..i]);
            var c := checks[i];
            var (w2, status) := if c.icmp then Ping(w1, t, c.source, c.target) else (w1, Pool.SKIPPED);
            Results(w, t, checks[..i + 1]) == (w2, results + [TestResult(c.source, c.target, status)])
  {
    hide Ping;
    assert checks[..i + 1][..i] == checks[..i];
  }

  method ValidateFirewallRules(session: Session, store: Store, provider: Provider, t: TopologyRow)
    returns (status: TestStatus)
    requires t.topology.rules != []
    modifies provider
    ensures (View(session, store, provider), status) == Validate(old(View(session, store, provider)), t)
  {
    hide Ping, Results;
    ghost var w, checks := View(session, store, provider), ChecksOf(t.topology);
    var results, i := [], 0;
    assert (w, []) == Results(w, t, checks[..0]) by { NoResults(w, t); }
    while i < |t.topology.rules|
      invariant 0 <= i <= |t.topology.rules|
      invariant (View(session, store, provider), results) == Results(w, t, checks[..i])
    {
      ResultsNext(w, t, checks, i);
      var rule := t.topology.rules[i];
      var outcome := Pool.SKIPPED;
      if rule.protocol == "icmp" { outcome := ExecutePing(session, store, provider, t, rule.src, rule.dst); }
      results, i := results + [TestResult(rule.src, rule.dst, outcome)], i + 1;
    }
    assert checks[..i] == checks;
    status := if RulesPass(results) then Pool.PASSED else Pool.FAILED;
  }

  lemma NoResults(w: World, t: TopologyRow)
    ensures Results(w, t, []) == (w, [])
  {
  }

  method ValidatePlainLinks(session: Session, store: Store, provider: Provider, t: TopologyRow)
    returns (status: TestStatus)
    requires t.topology.rules == []
    modifies provider
    ensures (View(session, store, provider), status) == Validate(old(View(session, store, provider)), t)
  {
    hide Ping, Results;
    ghost var w, checks := View(session, store, provider), ChecksOf(t.topology);
    var results, i := [], 0;
    assert (w, []) == Results(w, t, checks[..0]) by { NoResults(w, t); }
    while i < |t.topology.links|
      invariant 0 <= i <= |t.topology.links|
      invariant (View(session, store, provider), results) == Results(w, t, checks[..i])
    {
      ResultsNext(w, t, checks, i);
      var link := t.topology.links[i];
      var outcome := ExecutePing(session, store, provider, t, link.src, link.dst);
      results, i := results + [TestResult(link.src, link.dst, outcome)], i + 1;
    }
    assert checks[..i] == checks;
    status := if LinksPass(results) then Pool.PASSED else Pool.FAILED;
  }

  /** One ping after another; `PooledValidations` covers the thread pool. */
  method ValidateTopologyLinks(session: Session, store: Store, provider: Provider, t: TopologyRow)
    returns (status: TestStatus)
    modifies provider
    ensures (View(session, store, provider), status) == Validate(old(View(session, store, provider)), t)
  {
    hide Validate;
    if t.topology.rules != [] {
      status := ValidateFirewallRules(session, store, provider, t);
    } else {
      status := ValidatePlainLinks(session, store, provider, t);
    }
  }

  // ----- control_plane_service.reconcile_topology

  datatype Action = StartNode(node: string) | Validated(status: TestStatus)

  predicate Repairable(h: Handle) {
    h.rtype in {PROVIDER_INSTANCE, NOVA_SERVER}
  }

  /** Start what is stopped, in row order. */
  function Repair(p: State, hs: seq<Handle>): (State, seq<Action>) {
    if hs == [] then (p, []) else
      var (p1, done) := Repair(p, hs[..|hs| - 1]);
      var h := hs[|hs| - 1];
      if Repairable(h) && StatusOf(p1, h.rid) == Stopped then (Start(p1, h.rid), done + [StartNode(h.name)])
      else (p1, done)
  }

  /** The rows count, or the snapshot if there are none. */
  function StartStopped(w: World, t: TopologyRow): (World, seq<Action>) {
    var rows := RowsOf(w.rows, t.id);
    var hs := if rows == [] then ActiveHandles(w.deployments, t.id) else HandlesOf(rows);
    var (p, actions) := Repair(w.provider, hs);
    (w.(provider := p), actions)
  }

  function Reconcile(w: World, t: TopologyRow): (World, seq<Action>) {
    var (w1, actions) := StartStopped(w, t);
    var (w', status) := Validate(w1, t);
    (w', actions + [Validated(status)])
  }

  method ReconcileTopology(session: Session, store: Store, provider: Provider, t: TopologyRow)
    returns (actions: Option<seq<Action>>)
    modifies provider
    ensures provider.name.Mock? ==>
              (View(session, store, provider), actions) ==
                var (w', done) := Reconcile(old(View(session, store, provider)), t); (w', Some(done))
    ensures !provider.name.Mock? ==> actions == None && provider.View() == old(provider.View())
  {
    hide Validate, RowsOf, ActiveHandles, HandlesOf;
    if provider.name != Mock { return None; }
    var rows := session.ListTopologyResources(t.id);
    var hs := HandlesOf(rows);
    if rows == [] { hs := store.ResourcesFromLocalState(t.id); }
    var done := [];
    var i := 0;
    while i < |hs|
      invariant 0 <= i <= |hs| && (provider.View(), done) == Repair(old(provider.View()), hs[..i])
    {
      assert hs[..i + 1][..i] == hs[..i];
      if Repairable(hs[i]) {
        var status := provider.GetServerStatus(hs[i].rid);
        if status == Stopped {
          provider.StartServer(hs[i].rid);
          done := done + [StartNode(hs[i].name)];
        }
      }
      i := i + 1;
    }
    assert hs[..i] == hs;
    var status := ValidateTopologyLinks(session, store, provider, t);
    return Some(done + [Validated(status)]);
  }

  // ----- the three lookups, in any list of rows

  predicate IsServerRow(r: Row, name: string) {
    r.rtype in {"aws_instance", "nova_server", "provider_instance"} && r.name == name
  }

  /** Fault injection takes the first instance row of the name. */
  lemma {:induction false} FirstServerIsFirst(rows: seq<Row>, name: string)
    ensures match FirstServer(rows, name)
            case None => forall i :: 0 <= i < |rows| ==> !IsServerRow(rows[i], name)
            case Some(r) => exists k :: 0 <= k < |rows| && rows[k] == r && IsServerRow(r, name)
                              && forall i :: 0 <= i < k ==> !IsServerRow(rows[i], name)
  {
    if rows != [] && !IsServerRow(rows[0], name) {
      FirstServerIsFirst(rows[1..], name);
      assert forall i :: 0 < i < |rows| ==> rows[i] == rows[1..][i - 1];
      if FirstServer(rows, name).Some? {
        var k :| 0 <= k < |rows[1..]| && rows[1..][k] == FirstServer(rows, name).value
                 && IsServerRow(rows[1..][k], name) && forall i :: 0 <= i < k ==> !IsServerRow(rows[1..][i], name);
        assert rows[k + 1] == rows[1..][k];
      }
    } else if rows != [] {
      assert rows[0] == FirstServer(rows, name).value;
    }
  }

  /** A ping takes the last one. */
  lemma {:induction false} LastServerIsLast(rows: seq<Row>, name: string)
    ensures match LastServer(rows, name)
            case None => forall i :: 0 <= i < |rows| ==> !IsServerRow(rows[i], name)
            case Some(r) => exists k :: 0 <= k < |rows| && rows[k] == r && IsServerRow(r, name)
                              && forall i :: k < i < |rows| ==> !IsServerRow(rows[i], name)
  {
    if rows != [] {
      var n := |rows| - 1;
      if IsServerRow(rows[n], name) {
        assert rows[n] == LastServer(rows, name).value;
      } else {
        LastServerIsLast(rows[..n], name);
        assert forall i :: 0 <= i < n ==> rows[i] == rows[..n][i];
      }
    }
  }

  lemma {:induction false} FirstRowIsFirst(rows: seq<Row>, rtype: string, name: string)
    ensures match FirstRow(rows, rtype, name)
            case None => forall i :: 0 <= i < |rows| ==> !(rows[i].rtype == rtype && rows[i].name == name)
            case Some(r) => exists k :: 0 <= k < |rows| && rows[k] == r && r.rtype == rtype && r.name == name
                              && forall i :: 0 <= i < k ==> !(rows[i].rtype == rtype && rows[i].name == name)
  {
    if rows != [] && !(rows[0].rtype == rtype && rows[0].name == name) {
      FirstRowIsFirst(rows[1..], rtype, name);
      assert forall i :: 0 < i < |rows| ==> rows[i] == rows[1..][i - 1];
      if FirstRow(rows, rtype, name).Some? {
        var k :| 0 <= k < |rows[1..]| && rows[1..][k] == FirstRow(rows, rtype, name).value
                 && rows[1..][k].rtype == rtype && rows[1..][k].name == name
                 && forall i :: 0 <= i < k ==> !(rows[1..][i].rtype == rtype && rows[1..][i].name == name);
        assert rows[k + 1] == rows[1..][k];
      }
    } else if rows != [] {
      assert rows[0] == FirstRow(rows, rtype, name).value;
    }
  }

  /** Drift takes the first canonical instance row and, only if there is none, the first legacy one. */
  lemma InstanceRowPrefersCanonical(rows: seq<Row>, name: string)
    ensures InstanceRow(rows, name) ==
              if exists r :: r in rows && r.rtype == "provider_instance" && r.name == name
              then FirstRow(rows, "provider_instance", name) else FirstRow(rows, "nova_server", name)
  {
    hide FirstRow;
    FirstRowIsFirst(rows, "provider_instance", name);
    if r :| r in rows && r.rtype == "provider_instance" && r.name == name {
      var i :| 0 <= i < |rows| && rows[i] == r;
    }
  }

  /** In every state: which faults are refused and why, and what an accepted one changes. */
  lemma FaultsExactly(w: World, t: TopologyRow, name: string)
    ensures var (down, up) := (InjectNodeDown(w, t, name), RecoverNode(w, t, name));
            if Node(name, "host") !in t.topology.nodes then down == Err(UnknownHost) == up
            else match FirstServer(RowsOf(w.rows, t.id), name)
              case None => down == Err(NotDeployed) == up
              case Some(r) =>
                && down == Ok(w.(provider := w.provider.(statuses := w.provider.statuses[r.rid := Stopped],
                                                         log := w.provider.log + [StopCall(r.rid)])))
                && up == Ok(w.(provider := w.provider.(statuses := w.provider.statuses[r.rid := Running],
                                                       log := w.provider.log + [StartCall(r.rid)])))
  {
    hide RowsOf, FirstServer;
  }

  // ----- drift, in every state

  ghost predicate HostDrifts(p: State, rows: seq<Row>, n: Node) {
    n.kind == "host" && (InstanceRow(rows, n.name).None? || StatusOf(p, InstanceRow(rows, n.name).value.rid) == Stopped)
  }

  ghost function DriftingHosts(p: State, rows: seq<Row>, nodes: seq<Node>): iset<nat> {
    iset i: nat | i < |nodes| && HostDrifts(p, rows, nodes[i])
  }

  /** The item a host without a row, or with a stopped server, gives. */
  ghost predicate IsHostItem(rows: seq<Row>, name: string, item: DriftItem) {
    match InstanceRow(rows, name)
    case None => item == DriftItem("provider_instance", name, "running", "missing", "critical")
    case Some(r) => item == DriftItem(r.rtype, name, "running", "stopped", "warning")
  }

  ghost predicate HostItemsAt(rows: seq<Row>, nodes: seq<Node>, at: seq<nat>, items: seq<DriftItem>) {
    |items| == |at| && forall k :: 0 <= k < |at| ==> at[k] < |nodes| && IsHostItem(rows, nodes[at[k]].name, items[k])
  }

  /** One item for each drifting host, in node order. */
  lemma {:induction false} HostsDriftInOrder(p: State, rows: seq<Row>, nodes: seq<Node>) returns (at: seq<nat>)
    ensures Picks(at, |nodes|, DriftingHosts(p, rows, nodes))
    ensures HostItemsAt(rows, nodes, at, HostsDrift(p, rows, nodes))
  {
    hide Picks, InstanceRow;
    if nodes == [] {
      at := [];
      NonePicked(DriftingHosts(p, rows, nodes));
    } else {
      var n := |nodes| - 1;
      var before := HostsDriftInOrder(p, rows, nodes[..n]);
      at := PicksNext(before, n, DriftingHosts(p, rows, nodes[..n]), DriftingHosts(p, rows, nodes));
      HostDriftIs(p, rows, nodes[n]);
      HostItemsNext(p, rows, nodes, before);
      hide HostDrift, HostsDrift, IsHostItem, HostDrifts, HostItemsAt;
    }
  }

  lemma HostItemsNext(p: State, rows: seq<Row>, nodes: seq<Node>, at: seq<nat>)
    requires nodes != [] && HostItemsAt(rows, nodes[..|nodes| - 1], at, HostsDrift(p, rows, nodes[..|nodes| - 1]))
    ensures var n := |nodes| - 1;
            HostItemsAt(rows, nodes, if HostDrifts(p, rows, nodes[n]) then at + [n] else at, HostsDrift(p, rows, nodes))
  {
    HostDriftIs(p, rows, nodes[|nodes| - 1]);
    hide HostDrift, IsHostItem, HostDrifts;
  }

  lemma HostDriftIs(p: State, rows: seq<Row>, n: Node)
    ensures var items := HostDrift(p, rows, n);
            if HostDrifts(p, rows, n) then |items| == 1 && IsHostItem(rows, n.name, items[0]) else items == []
  {
    hide InstanceRow;
  }

  ghost function GoneSubnets(rows: seq<Row>): iset<nat> {
    iset i: nat | i < |rows| && rows[i].rtype in {"provider_subnet", "neutron_subnet"}
                  && Text.Contains(rows[i].rid, "missing")
  }

  ghost predicate SubnetItemsAt(rows: seq<Row>, at: seq<nat>, items: seq<DriftItem>) {
    && |items| == |at|
    && forall k :: 0 <= k < |at| ==>
         && at[k] < |rows|
         && items[k] == DriftItem(rows[at[k]].rtype, rows[at[k]].name, "present", "missing", "critical")
  }

  lemma SubnetsDriftNext(rows: seq<Row>)
    requires rows != []
    ensures var n, r := |rows| - 1, rows[|rows| - 1];
            SubnetsDrift(rows) ==
              SubnetsDrift(rows[..n]) + if n in GoneSubnets(rows)
                                        then [DriftItem(r.rtype, r.name, "present", "missing", "critical")] else []
  {
    hide Text.Contains;
  }

  /** Then one item for each subnet row whose id contains "missing", in row order. */
  lemma {:induction false} SubnetsDriftInOrder(rows: seq<Row>) returns (at: seq<nat>)
    ensures Picks(at, |rows|, GoneSubnets(rows)) && SubnetItemsAt(rows, at, SubnetsDrift(rows))
  {
    hide Picks, Text.Contains, SubnetDrift;
    if rows == [] {
      at := [];
      NonePicked(GoneSubnets(rows));
    } else {
      var n := |rows| - 1;
      at := SubnetsDriftInOrder(rows[..n]);
      SubnetsDriftNext(rows);
      hide SubnetsDrift;
      at := PicksNext(at, n, GoneSubnets(rows[..n]), GoneSubnets(rows));
    }
  }

  lemma DriftIsHostsThenSubnets(w: World, t: TopologyRow)
    ensures var rows := RowsOf(w.rows, t.id);
            Drift(w, t) == HostsDrift(w.provider, rows, t.topology.nodes) + SubnetsDrift(rows)
  {
  }

  // ----- what a validation checks

  /** Without rules check `i` pings link `i` from its source to its target; with rules it is about rule `i`. */
  lemma ChecksAreLinksOrRules(t: Topology, i: nat)
    ensures |ChecksOf(t)| == if t.rules != [] then |t.rules| else |t.links|
    ensures t.rules == [] && i < |t.links| ==>
              var c := ChecksOf(t)[i]; c.source == t.links[i].src && c.target == t.links[i].dst && c.icmp
    ensures t.rules != [] && i < |t.rules| ==>
              var c := ChecksOf(t)[i];
              c.source == t.rules[i].src && c.target == t.rules[i].dst && (c.icmp <==> t.rules[i].protocol == "icmp")
  {
  }

  // ----- repair, for any list of handles

  /** The mock's servers among the handles, each id once. */
  ghost predicate IsFirstServer(hs: seq<Handle>, i: nat)
    requires i < |hs|
  {
    IsMockServer(hs[i]) && forall j :: 0 <= j < i && hs[j].rid == hs[i].rid ==> !IsMockServer(hs[j])
  }

  predicate IsMockServer(h: Handle) {
    h.rtype == "provider_instance" || h.rtype == "nova_server"
  }

  ghost function StoppedServers(p: State, hs: seq<Handle>): iset<nat> {
    iset i: nat | i < |hs| && IsFirstServer(hs, i) && StatusOf(p, hs[i].rid) == Stopped
  }

  ghost predicate IsRepair(p: State, hs: seq<Handle>, at: seq<nat>, p': State, actions: seq<Action>) {
    && |actions| == |at| && p' == p.(statuses := p'.statuses, log := p.log + CallsAt(hs, at))
    && (forall k :: 0 <= k < |at| ==> at[k] < |hs| && actions[k] == StartNode(hs[at[k]].name))
    && (forall id :: StatusOf(p', id) == if HasServer(hs, id) then Running else StatusOf(p, id))
  }

  ghost predicate HasServer(hs: seq<Handle>, id: string) {
    exists i :: 0 <= i < |hs| && IsMockServer(hs[i]) && hs[i].rid == id
  }

  /** The start calls for the handles at these positions. */
  function CallsAt(hs: seq<Handle>, at: seq<nat>): seq<Call> {
    seq(|at|, k requires 0 <= k < |at| => StartCall(if at[k] < |hs| then hs[at[k]].rid else ""))
  }

  lemma StoppedIffNotYetStarted(p: State, hs: seq<Handle>, at: seq<nat>, p1: State, actions: seq<Action>)
    requires hs != [] && IsRepair(p, hs[..|hs| - 1], at, p1, actions)
    ensures var n := |hs| - 1;
            n in StoppedServers(p, hs) <==> Repairable(hs[n]) && StatusOf(p1, hs[n].rid) == Stopped
  {
    hide StatusOf, CallsAt;
    var n := |hs| - 1;
    assert HasServer(hs[..n], hs[n].rid) <==>
        exists j :: 0 <= j < n && IsMockServer(hs[j]) && hs[j].rid == hs[n].rid by {
      assert forall i :: 0 <= i < n ==> hs[..n][i] == hs[i];
    }
  }

  lemma HasServerNext(hs: seq<Handle>, id: string)
    requires hs != []
    ensures var n := |hs| - 1; HasServer(hs, id) <==> HasServer(hs[..n], id) || (IsMockServer(hs[n]) && hs[n].rid == id)
  {
    var n := |hs| - 1;
    assert forall i :: 0 <= i < n ==> hs[..n][i] == hs[i];
  }

  lemma RepairOneMore(p: State, hs: seq<Handle>, at: seq<nat>, p1: State, actions: seq<Action>)
    requires hs != [] && IsRepair(p, hs[..|hs| - 1], at, p1, actions)
    requires forall k :: 0 <= k < |at| ==> at[k] < |hs| - 1
    ensures var h := hs[|hs| - 1];
            if Repairable(h) && StatusOf(p1, h.rid) == Stopped
            then IsRepair(p, hs, at + [|hs| - 1], Start(p1, h.rid), actions + [StartNode(h.name)])
            else IsRepair(p, hs, at, p1, actions)
  {
    hide HasServer;
    var n, h := |hs| - 1, hs[|hs| - 1];
    assert CallsAt(hs, at) == CallsAt(hs[..n], at);
    assert CallsAt(hs, at + [n]) == CallsAt(hs, at) + [StartCall(h.rid)];
    forall id ensures HasServer(hs, id) <==> HasServer(hs[..n], id) || (IsMockServer(h) && h.rid == id) {
      HasServerNext(hs, id);
    }
    assert forall id :: StatusOf(Start(p1, h.rid), id) == if id == h.rid then Running else StatusOf(p1, id);
    hide CallsAt;
  }

  /**
   One start call, in order, for each distinct id of a mock server that was stopped; afterwards
   every one of these servers runs and no other server's state has moved.
   */
  lemma {:induction false} RepairStartsEachOnce(p: State, hs: seq<Handle>) returns (at: seq<nat>)
    ensures Picks(at, |hs|, StoppedServers(p, hs)) && IsRepair(p, hs, at, Repair(p, hs).0, Repair(p, hs).1)
  {
    hide StatusOf, IsFirstServer;
    if hs == [] {
      at := [];
      NonePicked(StoppedServers(p, hs));
      NothingToRepair(p);
    } else {
      var n := |hs| - 1;
      at := RepairStartsEachOnce(p, hs[..n]);
      var (p1, actions) := Repair(p, hs[..n]);
      StoppedIffNotYetStarted(p, hs, at, p1, actions);
      RepairOneMore(p, hs, at, p1, actions);
      SameStoppedBefore(p, hs, n);
      hide IsRepair, StoppedServers, Picks;
      at := PicksNext(at, n, StoppedServers(p, hs[..n]), StoppedServers(p, hs));
    }
  }

  lemma NothingToRepair(p: State)
    ensures IsRepair(p, [], [], p, [])
  {
    assert p.log + CallsAt([], []) == p.log;
  }

  lemma SameStoppedBefore(p: State, hs: seq<Handle>, n: nat)
    requires n <= |hs|
    ensures forall i: nat :: i < n ==> (i in StoppedServers(p, hs[..n]) <==> i in StoppedServers(p, hs))
  {
    hide StatusOf;
    forall i: nat | i < n ensures IsFirstServer(hs[..n], i) <==> IsFirstServer(hs, i) {
      assert forall j :: 0 <= j < n ==> hs[..n][j] == hs[j];
    }
  }
}
