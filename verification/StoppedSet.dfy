/**
 On a mock deployment the set of stopped hosts is the whole state that fault injection,
 recovery, drift detection, validation and reconcile have in common; each of them is exact
 about it although each looks servers up differently.
 */
module StoppedSet {
  import opened Wrappers
  import opened ChainGraph
  import opened Topology
  import opened Providers
  import opened LocalState
  import opened ResourceTypes
  import opened Deployment
  import opened Selections
  import opened MockDeploy
  import opened Observers
  import opened Validations
  import opened PooledValidations
  import Pool = ParallelPings
  import Text

  /** The hosts of `names` that are stopped, in order. */
  function StoppedHosts(p: State, names: seq<string>): seq<string> {
    if names == [] then [] else
      var h := names[|names| - 1];
      StoppedHosts(p, names[..|names| - 1]) + if StatusOf(p, ServerId(h)) == Stopped then [h] else []
  }

  ghost function StoppedOf(w: World, t: TopologyRow): set<string> {
    set h | h in Hosts(t.topology.nodes) && StatusOf(w.provider, ServerId(h)) == Stopped
  }

  /** A complete mock deployment of a topology whose node names differ. */
  ghost predicate FullyDeployed(w: World, t: TopologyRow) {
    MockDeployed(w, t) && NodesFit(t.topology.nodes)
  }

  lemma ServerIdsDiffer(a: string, b: string)
    requires ServerId(a) == ServerId(b)
    ensures a == b
  {
    var prefix := "mock-server-";
    assert ServerId(a)[|prefix|..] == a && ServerId(b)[|prefix|..] == b;
  }

  lemma {:induction false} HostNamesDiffer(nodes: seq<Node>)
    requires NodesFit(nodes)
    ensures Distinct(Hosts(nodes))
  {
    if nodes != [] {
      var n := |nodes| - 1;
      HostNamesDiffer(nodes[..n]);
      HostsAreNodes(nodes[..n], nodes[n].name);
    }
  }

  lemma {:induction false} StoppedHostsAre(p: State, names: seq<string>)
    ensures forall h :: h in StoppedHosts(p, names) <==> h in names && StatusOf(p, ServerId(h)) == Stopped
    ensures StoppedHosts(p, names) == [] <==> forall h :: h in names ==> StatusOf(p, ServerId(h)) != Stopped
  {
    hide ServerId, StatusOf;
    if names != [] {
      var before, h := names[..|names| - 1], names[|names| - 1];
      StoppedHostsAre(p, before);
      assert forall g :: g in names <==> g in before || g == h by { assert names == before + [h]; }
    }
  }

  // ----- the lookups agree: a host has one instance row

  /** Row `k` is the only instance row of that name. */
  ghost predicate OnlyServer(rows: seq<Row>, k: nat, name: string) {
    && k < |rows| && rows[k].rtype == PROVIDER_INSTANCE && rows[k].name == name
    && forall j :: 0 <= j < |rows| && j != k ==> !(rows[j].rtype in INSTANCE_RESOURCE_TYPES && rows[j].name == name)
  }

  lemma {:induction false} FirstFindsOnly(rows: seq<Row>, k: nat, name: string)
    requires OnlyServer(rows, k, name)
    ensures FirstServer(rows, name) == Some(rows[k]) && FirstRow(rows, PROVIDER_INSTANCE, name) == Some(rows[k])
  {
    if k > 0 {
      assert !(rows[0].rtype in INSTANCE_RESOURCE_TYPES && rows[0].name == name);
      FirstFindsOnly(rows[1..], k - 1, name);
    }
  }

  lemma {:induction false} LastFindsOnly(rows: seq<Row>, k: nat, name: string)
    requires OnlyServer(rows, k, name)
    ensures LastServer(rows, name) == Some(rows[k])
  {
    var n := |rows| - 1;
    if k < n {
      assert !(rows[n].rtype in INSTANCE_RESOURCE_TYPES && rows[n].name == name);
      LastFindsOnly(rows[..n], k, name);
    }
  }

  lemma RowOfHost(w: World, t: TopologyRow, h: string, i: nat)
    requires FullyDeployed(w, t) && i < |Hosts(t.topology.nodes)| && Hosts(t.topology.nodes)[i] == h
    requires Distinct(Hosts(t.topology.nodes))
    ensures var rows, k := RowsOf(w.rows, t.id), 2 * |PlanOf(t.topology).networks| + i;
            && k < |rows| && OnlyServer(rows, k, h)
            && rows[k].rtype == PROVIDER_INSTANCE && rows[k].name == h && rows[k].rid == ServerId(h)
  {
    hide RowsOf, Hosts;
    var rows, plan := RowsOf(w.rows, t.id), PlanOf(t.topology);
    assert |HandlesOf(rows)| == |MockHandles(plan)|;
    forall j | 0 <= j < |rows| ensures HandleOf(rows[j]) == MockHandle(plan, j) {
      assert HandlesOf(rows)[j] == MockHandles(plan)[j];
    }
  }

  /** First match, last match and typed match all find the row of the host's own server. */
  lemma LookupsAgree(w: World, t: TopologyRow, h: string)
    requires FullyDeployed(w, t) && h in Hosts(t.topology.nodes)
    ensures var rows := RowsOf(w.rows, t.id);
            exists r :: r in rows && r.rtype == PROVIDER_INSTANCE && r.name == h && r.rid == ServerId(h)
              && FirstServer(rows, h) == Some(r) && LastServer(rows, h) == Some(r) && InstanceRow(rows, h) == Some(r)
  {
    hide RowsOf, Hosts;
    var rows, plan := RowsOf(w.rows, t.id), PlanOf(t.topology);
    var n, hosts := 2 * |plan.networks|, Hosts(t.topology.nodes);
    HostNamesDiffer(t.topology.nodes);
    var i :| 0 <= i < |hosts| && hosts[i] == h;
    RowOfHost(w, t, h, i);
    hide MockHandle, FullyDeployed;
    FirstFindsOnly(rows, n + i, h);
    LastFindsOnly(rows, n + i, h);
    assert rows[n + i] in rows;
  }

  // ----- fault injection

  lemma NodeDownStops(w: World, t: TopologyRow, h: string)
    requires FullyDeployed(w, t)
    ensures h in Hosts(t.topology.nodes) ==>
              && InjectNodeDown(w, t, h) == Ok(w.(provider := Stop(w.provider, ServerId(h))))
              && FullyDeployed(InjectNodeDown(w, t, h).value, t)
              && StoppedOf(InjectNodeDown(w, t, h).value, t) == StoppedOf(w, t) + {h}
    ensures h !in Hosts(t.topology.nodes) ==> InjectNodeDown(w, t, h) == Err(UnknownHost)
  {
    hide RowsOf, Hosts, MockHandles;
    HostsAreNodes(t.topology.nodes, h);
    if h in Hosts(t.topology.nodes) {
      LookupsAgree(w, t, h);
      forall g | ServerId(g) == ServerId(h) ensures g == h { ServerIdsDiffer(g, h); }
    }
  }

  lemma RecoverStarts(w: World, t: TopologyRow, h: string)
    requires FullyDeployed(w, t)
    ensures h in Hosts(t.topology.nodes) ==>
              && RecoverNode(w, t, h) == Ok(w.(provider := Start(w.provider, ServerId(h))))
              && FullyDeployed(RecoverNode(w, t, h).value, t)
              && StoppedOf(RecoverNode(w, t, h).value, t) == StoppedOf(w, t) - {h}
    ensures h !in Hosts(t.topology.nodes) ==> RecoverNode(w, t, h) == Err(UnknownHost)
  {
    hide RowsOf, Hosts, MockHandles;
    HostsAreNodes(t.topology.nodes, h);
    if h in Hosts(t.topology.nodes) {
      LookupsAgree(w, t, h);
      forall g | ServerId(g) == ServerId(h) ensures g == h { ServerIdsDiffer(g, h); }
    }
  }

  // ----- drift

  function StoppedItem(h: string): DriftItem {
    DriftItem(PROVIDER_INSTANCE, h, "running", "stopped", "warning")
  }

  function StoppedItems(names: seq<string>): seq<DriftItem> {
    seq(|names|, i requires 0 <= i < |names| => StoppedItem(names[i]))
  }

  lemma {:induction false} HostsDriftIsStopped(w: World, t: TopologyRow, nodes: seq<Node>)
    requires FullyDeployed(w, t) && forall h :: h in Hosts(nodes) ==> h in Hosts(t.topology.nodes)
    ensures HostsDrift(w.provider, RowsOf(w.rows, t.id), nodes) == StoppedItems(StoppedHosts(w.provider, Hosts(nodes)))
  {
    hide RowsOf, FullyDeployed, InstanceRow;
    if nodes != [] {
      var n := nodes[|nodes| - 1];
      var before := nodes[..|nodes| - 1];
      HostsDriftIsStopped(w, t, before);
      if n.kind == "host" {
        assert Hosts(nodes) == Hosts(before) + [n.name];
        assert n.name in Hosts(nodes);
        LookupsAgree(w, t, n.name);
        assert Hosts(nodes)[..|Hosts(nodes)| - 1] == Hosts(before);
      } else {
        assert Hosts(nodes) == Hosts(before);
      }
    }
  }

  /** A mock subnet looks gone exactly when its topology's name says "missing". */
  lemma SubnetGoneIffNamedMissing(t: Topology, i: nat)
    ensures Exists("mock-subnet-" + (NetworkName(t, i) + "-subnet")) <==> !Text.Contains(t.name, "missing")
  {
    var pattern, tail := "missing", "net-" + Text.Decimal(i + 1) + "-subnet";
    TailHasNoLetter(i + 1);
    Text.ForeignLetter(tail, pattern, 1);
    Text.ForeignLetter("mock-subnet", pattern, 1);
    assert "mock-subnet-" + (NetworkName(t, i) + "-subnet") == "mock-subnet" + ['-'] + (t.name + ['-'] + tail);
    hide Text.Contains, Text.Decimal, NetworkName;
    Text.NoneStraddles(t.name, '-', tail, pattern);
    Text.NoneStraddles("mock-subnet", '-', t.name + ['-'] + tail, pattern);
  }

  lemma TailHasNoLetter(n: nat)
    ensures 'i' !in "net-" + Text.Decimal(n) + "-subnet"
  {
    Text.DecimalNonEmpty(n);
    hide Text.Decimal;
    assert 'i' !in Text.DIGITS;
    assert 'i' !in "net-" && 'i' !in "-subnet" && 'i' !in Text.Decimal(n);
  }

  lemma {:induction false} SubnetsPresent(rows: seq<Row>)
    requires forall r :: r in rows && r.rtype in {PROVIDER_SUBNET, NEUTRON_SUBNET} ==> Exists(r.rid)
    ensures SubnetsDrift(rows) == []
  {
    hide Exists;
    if rows != [] {
      assert rows[|rows| - 1] in rows;
      SubnetsPresent(rows[..|rows| - 1]);
    }
  }

  /** Drift reports the stopped hosts in node order, as warnings, and nothing else. */
  lemma DriftIsStoppedHosts(w: World, t: TopologyRow)
    requires FullyDeployed(w, t) && !Text.Contains(t.topology.name, "missing")
    ensures Drift(w, t) == StoppedItems(StoppedHosts(w.provider, Hosts(t.topology.nodes)))
    ensures Drift(w, t) == [] <==> StoppedOf(w, t) == {}
  {
    var rows, hosts := RowsOf(w.rows, t.id), Hosts(t.topology.nodes);
    HostsDriftIsStopped(w, t, t.topology.nodes);
    SubnetRowsExist(w, t);
    SubnetsPresent(rows);
    StoppedHostsAre(w.provider, hosts);
    hide FullyDeployed, RowsOf, Hosts, Exists, HostsDrift, SubnetsDrift, StoppedHosts;
    if Drift(w, t) == [] { assert |StoppedHosts(w.provider, hosts)| == 0; }
    if StoppedHosts(w.provider, hosts) != [] {
      assert StoppedHosts(w.provider, hosts)[0] in StoppedOf(w, t);
    }
  }

  lemma SubnetRowsExist(w: World, t: TopologyRow)
    requires FullyDeployed(w, t) && !Text.Contains(t.topology.name, "missing")
    ensures forall r :: r in RowsOf(w.rows, t.id) && r.rtype in {PROVIDER_SUBNET, NEUTRON_SUBNET} ==> Exists(r.rid)
  {
    hide RowsOf, Hosts, Exists, Text.Contains, NetworkName;
    var rows, plan := RowsOf(w.rows, t.id), PlanOf(t.topology);
    forall r | r in rows && r.rtype in {PROVIDER_SUBNET, NEUTRON_SUBNET} ensures Exists(r.rid) {
      var k :| 0 <= k < |rows| && rows[k] == r;
      assert |HandlesOf(rows)| == |MockHandles(plan)|;
      assert HandlesOf(rows)[k] == MockHandles(plan)[k] == MockHandle(plan, k);
      SubnetGoneIffNamedMissing(t.topology, k / 2);
    }
  }

  lemma {:induction false} GoneSubnetShows(rows: seq<Row>, k: nat)
    requires k < |rows| && rows[k].rtype in {PROVIDER_SUBNET, NEUTRON_SUBNET} && !Exists(rows[k].rid)
    ensures SubnetsDrift(rows) != []
  {
    hide Exists;
    if k < |rows| - 1 { GoneSubnetShows(rows[..|rows| - 1], k); }
  }

  /** With that name and a link, drift never looks clean. */
  lemma SubnetsLookGone(w: World, t: TopologyRow)
    requires FullyDeployed(w, t) && Text.Contains(t.topology.name, "missing") && t.topology.links != []
    ensures Drift(w, t) != []
  {
    hide RowsOf, Hosts, Exists, Text.Contains, NetworkName;
    var rows, plan := RowsOf(w.rows, t.id), PlanOf(t.topology);
    assert |HandlesOf(rows)| == |MockHandles(plan)|;
    assert HandlesOf(rows)[1] == MockHandles(plan)[1] == MockHandle(plan, 1);
    SubnetGoneIffNamedMissing(t.topology, 0);
    GoneSubnetShows(rows, 1);
  }

  // ----- reconcile

  function StartCalls(names: seq<string>): seq<Call> {
    seq(|names|, i requires 0 <= i < |names| => StartCall(ServerId(names[i])))
  }

  function StartActions(names: seq<string>): seq<Action> {
    seq(|names|, i requires 0 <= i < |names| => StartNode(names[i]))
  }

  /** After repairing the first `k` resources of a deployment. */
  ghost predicate Repaired(p: State, plan: Plan, k: nat)
    requires k <= Steps(plan)
  {
    var n := 2 * |plan.networks|;
    var names := if k <= n then [] else Hosts(plan.servers)[..k - n];
    var (p', actions) := Repair(p, MockHandles(plan)[..k]);
    && actions == StartActions(StoppedHosts(p, names))
    && p' == p.(statuses := p'.statuses, log := p.log + StartCalls(StoppedHosts(p, names)))
    && (forall h :: StatusOf(p', ServerId(h)) == if h in names then Running else StatusOf(p, ServerId(h)))
  }

  lemma RepairUnfolds(p: State, plan: Plan, k: nat)
    requires 0 < k <= Steps(plan)
    ensures var (p1, done) := Repair(p, MockHandles(plan)[..k - 1]);
            var h := MockHandle(plan, k - 1);
            Repair(p, MockHandles(plan)[..k]) ==
              if Repairable(h) && StatusOf(p1, h.rid) == Stopped then (Start(p1, h.rid), done + [StartNode(h.name)])
              else (p1, done)
  {
    assert MockHandles(plan)[..k][..k - 1] == MockHandles(plan)[..k - 1];
  }

  lemma RepairNetwork(p: State, plan: Plan, k: nat)
    requires 0 < k <= Steps(plan) && k <= 2 * |plan.networks| && Repaired(p, plan, k - 1)
    ensures Repaired(p, plan, k)
  {
    hide Hosts, Repair;
    RepairUnfolds(p, plan, k);
  }

  lemma RepairServer(p: State, plan: Plan, k: nat)
    requires 2 * |plan.networks| < k <= Steps(plan) && Distinct(Hosts(plan.servers)) && Repaired(p, plan, k - 1)
    ensures Repaired(p, plan, k)
  {
    hide Hosts, Repair, StoppedHosts, MockHandles, Steps;
    RepairUnfolds(p, plan, k);
    assert Steps(plan) == 2 * |plan.networks| + |Hosts(plan.servers)| by { StepsAre(plan); }
    var i := k - 1 - 2 * |plan.networks|;
    var h, before := Hosts(plan.servers)[i], Hosts(plan.servers)[..i];
    assert Hosts(plan.servers)[..i + 1] == before + [h] && h !in before;
    assert k - 1 <= 2 * |plan.networks| ==> before == [];
    forall g | ServerId(g) == ServerId(h) ensures g == h { ServerIdsDiffer(g, h); }
    StartOne(p, before, h);
  }

  lemma StepsAre(plan: Plan)
    ensures Steps(plan) == 2 * |plan.networks| + |Hosts(plan.servers)|
  {
  }

  lemma {:induction false} RepairStartsStopped(p: State, plan: Plan, k: nat)
    requires k <= Steps(plan) && Distinct(Hosts(plan.servers))
    ensures Repaired(p, plan, k)
  {
    if k > 0 {
      hide Repaired, Hosts, MockHandle;
      RepairStartsStopped(p, plan, k - 1);
      if k <= 2 * |plan.networks| { RepairNetwork(p, plan, k); } else { RepairServer(p, plan, k); }
    } else {
      NothingRepaired(p, plan);
    }
  }

  lemma NothingRepaired(p: State, plan: Plan)
    ensures Repaired(p, plan, 0)
  {
    hide Hosts, MockHandle;
    assert p.log + StartCalls([]) == p.log && StartActions([]) == [];
  }

  lemma StartOne(p: State, before: seq<string>, h: string)
    ensures StatusOf(p, ServerId(h)) == Stopped ==>
              && StoppedHosts(p, before + [h]) == StoppedHosts(p, before) + [h]
              && StartActions(StoppedHosts(p, before) + [h]) == StartActions(StoppedHosts(p, before)) + [StartNode(h)]
              && StartCalls(StoppedHosts(p, before) + [h]) == StartCalls(StoppedHosts(p, before))
                   + [StartCall(ServerId(h))]
    ensures StatusOf(p, ServerId(h)) != Stopped ==> StoppedHosts(p, before + [h]) == StoppedHosts(p, before)
  {
    assert (before + [h])[..|before|] == before;
  }

  // ----- validation

  /** A ping between these hosts gets as far as the failure budget. */
  predicate ReachesBudget(hosts: seq<string>, stopped: set<string>, c: Pool.Check) {
    c.icmp && c.source in hosts && c.target in hosts && c.target !in stopped
  }

  /** How many pings of a validation do. */
  function Reaching(t: Topology, stopped: set<string>): nat {
    var checks := ChecksOf(t);
    |set i: nat | i < |checks| && ReachesBudget(Hosts(t.nodes), stopped, checks[i])|
  }

  /** Something to check, and each ping is between running hosts, with no failure left to give. */
  predicate ChecksPass(t: Topology, stopped: set<string>, pings: nat) {
    var checks := ChecksOf(t);
    && (t.rules != [] || t.links != [])
    && forall i :: 0 <= i < |checks| && checks[i].icmp ==>
         && checks[i].source in Hosts(t.nodes) && checks[i].target in Hosts(t.nodes)
         && checks[i].source !in stopped && checks[i].target !in stopped && pings == 0
  }

  function VerdictFor(t: Topology, stopped: set<string>, pings: nat): TestStatus {
    if ChecksPass(t, stopped, pings) then Pool.PASSED else Pool.FAILED
  }

  lemma PingOfHosts(w: World, t: TopologyRow, c: Pool.Check)
    requires FullyDeployed(w, t)
    ensures var hosts, stopped := Hosts(t.topology.nodes), StoppedOf(w, t);
            && (c.icmp && TargetUp(w, t, c.source, c.target) <==> ReachesBudget(hosts, stopped, c))
            && (BothUp(w, t, c.source, c.target) <==>
                  c.source in hosts && c.target in hosts && c.source !in stopped && c.target !in stopped)
  {
    hide RowsOf, Hosts, FullyDeployed;
    HostsAreNodes(t.topology.nodes, c.source);
    HostsAreNodes(t.topology.nodes, c.target);
    if c.source in Hosts(t.topology.nodes) { LookupsAgree(w, t, c.source); }
    if c.target in Hosts(t.topology.nodes) { LookupsAgree(w, t, c.target); }
  }

  /** On every deployment the verdict, and what it costs, are functions of the stopped set and the failures left. */
  lemma ValidationOfDeployed(w: World, t: TopologyRow)
    requires FullyDeployed(w, t)
    ensures var (w', status) := Validate(w, t);
            && status in {Pool.PASSED, Pool.FAILED}
            && (status == Pool.PASSED <==> ChecksPass(t.topology, StoppedOf(w, t), PingsLeft(w.provider)))
            && w' == SpendIn(w, Reaching(t.topology, StoppedOf(w, t)))
  {
    hide Hosts, FullyDeployed, TargetUp, BothUp, ReachesBudget, StoppedOf, ChecksOf;
    var checks, hosts, stopped := ChecksOf(t.topology), Hosts(t.topology.nodes), StoppedOf(w, t);
    ValidateExactly(w, t);
    forall i | 0 <= i < |checks|
      ensures (checks[i].icmp && TargetUp(w, t, checks[i].source, checks[i].target))
                <==> ReachesBudget(hosts, stopped, checks[i])
      ensures BothUp(w, t, checks[i].source, checks[i].target) <==>
                checks[i].source in hosts && checks[i].target in hosts
                && checks[i].source !in stopped && checks[i].target !in stopped
    {
      PingOfHosts(w, t, checks[i]);
    }
    assert UpChecks(w, t, checks) == set i: nat | i < |checks| && ReachesBudget(hosts, stopped, checks[i]);
  }

  ghost predicate OnlyHosts(t: Topology) {
    forall i :: 0 <= i < |t.nodes| ==> t.nodes[i].kind == "host"
  }

  lemma NamesAreHosts(t: Topology, name: string)
    requires OnlyHosts(t) && name in Names(t.nodes)
    ensures name in Hosts(t.nodes)
  {
    var i :| 0 <= i < |t.nodes| && Names(t.nodes)[i] == name;
    assert t.nodes[i] == Node(name, "host");
    HostsAreNodes(t.nodes, name);
  }

  /** On linked hosts without rules: nothing stopped, and no ping failure left to give. */
  lemma LinksPassIff(ip: CidrReader, t: Topology, stopped: set<string>, pings: nat)
    requires Accepted(ip, t) && OnlyHosts(t) && EveryHostLinked(t) && t.rules == []
    requires forall h :: h in stopped ==> h in Hosts(t.nodes)
    ensures ChecksPass(t, stopped, pings) <==> t.links != [] && stopped == {} && pings == 0
  {
    hide Hosts, HasCycle, DegreesFit, OnlyHosts, NodesFit;
    var checks := ChecksOf(t);
    forall i | 0 <= i < |t.links| ensures checks[i].source in Hosts(t.nodes) && checks[i].target in Hosts(t.nodes) {
      assert LinkFits(ip, t, i);
      NamesAreHosts(t, t.links[i].src);
      NamesAreHosts(t, t.links[i].dst);
    }
    if h :| h in stopped {
      assert IsLinked(t, h);
      var i :| 0 <= i < |t.links| && (t.links[i].src == h || t.links[i].dst == h);
      assert checks[i].icmp && (checks[i].source == h || checks[i].target == h);
    }
    if t.links != [] { assert checks[0].icmp; }
  }

  /** With rules: no ICMP rule names a stopped host, and no ping failure is left if there is one. */
  lemma RulesPassIff(ip: CidrReader, t: Topology, stopped: set<string>, pings: nat)
    requires Accepted(ip, t) && OnlyHosts(t) && t.rules != []
    ensures ChecksPass(t, stopped, pings) <==>
              forall i :: 0 <= i < |t.rules| && t.rules[i].protocol == "icmp" ==>
                t.rules[i].src !in stopped && t.rules[i].dst !in stopped && pings == 0
  {
    hide Hosts, HasCycle, DegreesFit, OnlyHosts, NodesFit, LinksFit;
    var checks := ChecksOf(t);
    forall i | 0 <= i < |t.rules|
      ensures checks[i].source in Hosts(t.nodes) && checks[i].target in Hosts(t.nodes)
      ensures checks[i] == Pool.Check(t.rules[i].src, t.rules[i].dst, t.rules[i].protocol == "icmp")
    {
      assert RuleFits(t, i);
      NamesAreHosts(t, t.rules[i].src);
      NamesAreHosts(t, t.rules[i].dst);
    }
  }

  lemma DeployedIsLinked(w: World, t: TopologyRow)
    requires FullyDeployed(w, t)
    ensures EveryHostLinked(t.topology)
  {
    hide Hosts, RowsOf, MockHandles;
    LinkedIsPlaced(t.topology);
  }

  /**
   On deployed linked hosts validation passes exactly when there is a link, nothing is stopped and
   no ping failure is left.
   */
  lemma ValidationIffNoneStopped(ip: CidrReader, w: World, t: TopologyRow)
    requires FullyDeployed(w, t) && Accepted(ip, t.topology) && OnlyHosts(t.topology) && t.topology.rules == []
    ensures Validate(w, t).1 == Pool.PASSED <==>
              t.topology.links != [] && StoppedOf(w, t) == {} && Budget(w.provider, Op.RunPing) <= 0
    ensures Validate(w, t).1 in {Pool.PASSED, Pool.FAILED}
  {
    hide Hosts, FullyDeployed, Accepted, OnlyHosts, ChecksPass, Validate;
    DeployedIsLinked(w, t);
    ValidationOfDeployed(w, t);
    LinksPassIff(ip, t.topology, StoppedOf(w, t), PingsLeft(w.provider));
  }

  /** With rules it passes exactly when no ICMP rule names a stopped host and, if there is one, no failure is left. */
  lemma RuleValidationIff(ip: CidrReader, w: World, t: TopologyRow)
    requires FullyDeployed(w, t) && Accepted(ip, t.topology) && OnlyHosts(t.topology) && t.topology.rules != []
    ensures var rules, stopped := t.topology.rules, StoppedOf(w, t);
            Validate(w, t).1 == Pool.PASSED <==>
              forall i :: 0 <= i < |rules| && rules[i].protocol == "icmp" ==>
                rules[i].src !in stopped && rules[i].dst !in stopped && Budget(w.provider, Op.RunPing) <= 0
  {
    hide Hosts, FullyDeployed, Accepted, OnlyHosts, ChecksPass, Validate;
    ValidationOfDeployed(w, t);
    RulesPassIff(ip, t.topology, StoppedOf(w, t), PingsLeft(w.provider));
  }

  // ----- reconcile as a whole

  /** The repair starts exactly the stopped hosts, each once, and leaves none stopped. */
  lemma RepairEmptiesStopped(w: World, t: TopologyRow)
    requires FullyDeployed(w, t) && Hosts(t.topology.nodes) != []
    ensures var names := StoppedHosts(w.provider, Hosts(t.topology.nodes));
            var (w1, actions) := StartStopped(w, t);
            && actions == StartActions(names) && w1.provider.log == w.provider.log + StartCalls(names)
            && w1 == w.(provider := w.provider.(statuses := w1.provider.statuses, log := w1.provider.log))
            && FullyDeployed(w1, t) && StoppedOf(w1, t) == {}
  {
    hide RowsOf, Hosts, MockHandle;
    var plan := PlanOf(t.topology);
    var rows, hosts := RowsOf(w.rows, t.id), Hosts(t.topology.nodes);
    HostNamesDiffer(t.topology.nodes);
    RepairStartsStopped(w.provider, plan, Steps(plan));
    assert MockHandles(plan)[..Steps(plan)] == MockHandles(plan);
    assert hosts[..|hosts|] == hosts;
    assert |HandlesOf(rows)| == |MockHandles(plan)| > 0;
  }

  /**
   Reconcile starts exactly the stopped hosts, each once, and leaves none stopped; its
   validation is that of the repaired deployment.
   */
  lemma ReconcileEmptiesStopped(w: World, t: TopologyRow)
    requires FullyDeployed(w, t) && Hosts(t.topology.nodes) != []
    ensures var names := StoppedHosts(w.provider, Hosts(t.topology.nodes));
            var (w', actions) := Reconcile(w, t);
            && actions == StartActions(names) + [Validated(VerdictFor(t.topology, {}, PingsLeft(w.provider)))]
            && w'.provider.log == w.provider.log + StartCalls(names)
            && FullyDeployed(w', t) && StoppedOf(w', t) == {}
            && w' == w.(provider := w.provider.(statuses := w'.provider.statuses, log := w'.provider.log,
                                                budgets := Spend(w.provider, Reaching(t.topology, {})).budgets))
  {
    hide RowsOf, Hosts, Validate, StartStopped, MockHandles, ChecksPass, Reaching, NodesFit;
    RepairEmptiesStopped(w, t);
    var w1 := StartStopped(w, t).0;
    ValidationOfDeployed(w1, t);
    assert PingsLeft(w1.provider) == PingsLeft(w.provider);
  }

  // ----- reconcile in every state, deployed or not

  /** The stopped servers among `hs` were started once each, in order, and then a validation was made. */
  ghost predicate Restarts(w: World, hs: seq<Handle>, at: seq<nat>, w': World, actions: seq<Action>) {
    && Picks(at, |hs|, StoppedServers(w.provider, hs))
    && |actions| == |at| + 1 && actions[|at|].Validated?
    && (forall k :: 0 <= k < |at| ==> at[k] < |hs| && actions[k] == StartNode(hs[at[k]].name))
    && w'.provider.log == w.provider.log + CallsAt(hs, at)
    && (forall id :: StatusOf(w'.provider, id) == if HasServer(hs, id) then Running else StatusOf(w.provider, id))
    && w' == w.(provider := w'.provider)
  }

  lemma ReconcileRestarts(w: World, t: TopologyRow, hs: seq<Handle>) returns (at: seq<nat>)
    requires StartStopped(w, t) == (w.(provider := Repair(w.provider, hs).0), Repair(w.provider, hs).1)
    ensures Restarts(w, hs, at, Reconcile(w, t).0, Reconcile(w, t).1)
    ensures Validate(StartStopped(w, t).0, t).1 == Reconcile(w, t).1[|at|].status
  {
    at := RepairStartsEachOnce(w.provider, hs);
    var w1 := StartStopped(w, t).0;
    ValidateExactly(w1, t);
    SpendAdds(w1.provider, 0, |UpChecks(w1, t, ChecksOf(t.topology))|);
    hide StartStopped, Repair, Validate, Picks, StoppedServers, CallsAt, HasServer, UpChecks, ChecksOf, Spend;
  }

  /** With a row, what the rows list is restarted. */
  lemma ReconcileByRows(w: World, t: TopologyRow) returns (at: seq<nat>)
    requires exists r :: r in w.rows && r.topologyId == t.id
    ensures Restarts(w, HandlesOf(RowsOf(w.rows, t.id)), at, Reconcile(w, t).0, Reconcile(w, t).1)
  {
    RowlessHasNone(w.rows, t.id);
    hide RowsOf, Reconcile, Restarts, Repair;
    at := ReconcileRestarts(w, t, HandlesOf(RowsOf(w.rows, t.id)));
  }

  /** Without rows, what the readable items of an ACTIVE entry list is restarted. */
  lemma ReconcileBySnapshot(w: World, t: TopologyRow) returns (at: seq<nat>)
    requires forall r :: r in w.rows ==> r.topologyId != t.id
    requires KeyOf(t.id) in w.deployments && w.deployments[KeyOf(t.id)].status == "ACTIVE"
    ensures Restarts(w, ReadItems(w.deployments[KeyOf(t.id)].resources), at, Reconcile(w, t).0, Reconcile(w, t).1)
  {
    RowlessHasNone(w.rows, t.id);
    hide RowsOf, Reconcile, Restarts, Repair, ReadItems, KeyOf;
    at := ReconcileRestarts(w, t, ReadItems(w.deployments[KeyOf(t.id)].resources));
  }

  /** Without rows and without an ACTIVE entry nothing is. */
  lemma ReconcileNothing(w: World, t: TopologyRow)
    requires forall r :: r in w.rows ==> r.topologyId != t.id
    requires KeyOf(t.id) in w.deployments ==> w.deployments[KeyOf(t.id)].status != "ACTIVE"
    ensures Restarts(w, [], [], Reconcile(w, t).0, Reconcile(w, t).1)
  {
    RowlessHasNone(w.rows, t.id);
    hide RowsOf, Reconcile, ReadItems, KeyOf, Picks, CallsAt;
    var at := ReconcileRestarts(w, t, []);
    assert at == [] by { NoneToPick(at, StoppedServers(w.provider, [])); }
  }

  /**
   A mock that was started afresh knows no server, so all of them count as running: nothing of a
   deployment is stopped any more.
   */
  lemma FreshMockForgetsFaults(w: World, t: TopologyRow)
    requires FullyDeployed(w, t) && w.provider.statuses == map[]
    ensures StoppedOf(w, t) == {} && forall id :: StatusOf(w.provider, id) == Running
  {
    hide FullyDeployed, Hosts;
  }

  // ----- any sequence of faults, recoveries and reconciles

  datatype Command = FailHost(host: string) | RecoverHost(host: string) | ReconcileAll | ValidateAll

  function Apply(w: World, t: TopologyRow, c: Command): World {
    match c
    case FailHost(h) => (match InjectNodeDown(w, t, h) case Ok(w') => w' case Err(_) => w)
    case RecoverHost(h) => (match RecoverNode(w, t, h) case Ok(w') => w' case Err(_) => w)
    case ReconcileAll => Reconcile(w, t).0
    case ValidateAll => Validate(w, t).0
  }

  function ApplyAll(w: World, t: TopologyRow, cs: seq<Command>): World {
    if cs == [] then w else Apply(ApplyAll(w, t, cs[..|cs| - 1]), t, cs[|cs| - 1])
  }

  /** All that the services can see of a deployment. */
  datatype Visible = Visible(stopped: set<string>, pings: nat)

  function Left(pings: nat, k: nat): nat { if k <= pings then pings - k else 0 }

  /** What the same commands do to the visible state. */
  function AbstractAll(t: Topology, v: Visible, cs: seq<Command>): Visible {
    if cs == [] then v else
      var before := AbstractAll(t, v, cs[..|cs| - 1]);
      match cs[|cs| - 1]
      case FailHost(h) => if h in Hosts(t.nodes) then before.(stopped := before.stopped + {h}) else before
      case RecoverHost(h) => before.(stopped := before.stopped - {h})
      case ReconcileAll => Visible({}, Left(before.pings, Reaching(t, {})))
      case ValidateAll => before.(pings := Left(before.pings, Reaching(t, before.stopped)))
  }

  ghost predicate Shows(w: World, t: TopologyRow, v: Visible) {
    FullyDeployed(w, t) && StoppedOf(w, t) == v.stopped && PingsLeft(w.provider) == v.pings
  }

  lemma ApplyShows(w: World, t: TopologyRow, v: Visible, c: Command)
    requires Shows(w, t, v) && Hosts(t.topology.nodes) != []
    ensures Shows(Apply(w, t, c), t, AbstractAll(t.topology, v, [c])) && Apply(w, t, c).rows == w.rows
  {
    hide Hosts, RowsOf, InjectNodeDown, RecoverNode, Reconcile, Validate, Reaching, ChecksPass, MockHandles;
    assert AbstractAll(t.topology, v, [c][..0]) == v;
    match c
    case FailHost(h) => NodeDownStops(w, t, h);
    case RecoverHost(h) => RecoverStarts(w, t, h);
    case ReconcileAll =>
      ReconcileEmptiesStopped(w, t);
      SpendAdds(w.provider, 0, Reaching(t.topology, {}));
    case ValidateAll =>
      ValidationOfDeployed(w, t);
      SpendAdds(w.provider, 0, Reaching(t.topology, v.stopped));
  }

  /** Every run refines the abstract one, and its observers see exactly the abstract state. */
  lemma {:induction false} RunsRefineStoppedSet(w: World, t: TopologyRow, cs: seq<Command>)
    requires FullyDeployed(w, t) && Hosts(t.topology.nodes) != []
    ensures var w', hosts := ApplyAll(w, t, cs), Hosts(t.topology.nodes);
            var v := AbstractAll(t.topology, Visible(StoppedOf(w, t), PingsLeft(w.provider)), cs);
            && Shows(w', t, v) && w'.rows == w.rows
            && (!Text.Contains(t.topology.name, "missing") ==>
                  && Drift(w', t) == StoppedItems(StoppedHosts(w'.provider, hosts))
                  && (Drift(w', t) == [] <==> v.stopped == {}))
            && (forall h :: h in StoppedHosts(w'.provider, hosts) <==> h in v.stopped)
            && (Validate(w', t).1 == Pool.PASSED <==> ChecksPass(t.topology, v.stopped, v.pings))
  {
    hide Hosts, Drift, Validate, Text.Contains, Apply, ChecksPass, Reaching, FullyDeployed;
    var w', hosts := ApplyAll(w, t, cs), Hosts(t.topology.nodes);
    var start := Visible(StoppedOf(w, t), PingsLeft(w.provider));
    if cs != [] {
      var n := |cs| - 1;
      RunsRefineStoppedSet(w, t, cs[..n]);
      ApplyShows(ApplyAll(w, t, cs[..n]), t, AbstractAll(t.topology, start, cs[..n]), cs[n]);
      LastCommand(t.topology, start, cs);
    }
    StoppedHostsAre(w'.provider, hosts);
    if !Text.Contains(t.topology.name, "missing") { DriftIsStoppedHosts(w', t); }
    ValidationOfDeployed(w', t);
  }

  lemma LastCommand(t: Topology, v: Visible, cs: seq<Command>)
    requires cs != []
    ensures AbstractAll(t, v, cs) == AbstractAll(t, AbstractAll(t, v, cs[..|cs| - 1]), [cs[|cs| - 1]])
  {
    hide Hosts, Reaching;
    var before := AbstractAll(t, v, cs[..|cs| - 1]);
    assert AbstractAll(t, before, [cs[|cs| - 1]][..0]) == before;
  }

  /** Right after a reconcile, a second one starts nothing. */
  lemma SecondReconcileIdle(w: World, t: TopologyRow)
    requires FullyDeployed(w, t) && Hosts(t.topology.nodes) != []
    ensures var (w1, _) := Reconcile(w, t);
            var (w2, actions) := Reconcile(w1, t);
            && w2.provider.log == w1.provider.log
            && actions == [Validated(VerdictFor(t.topology, {}, PingsLeft(w1.provider)))]
  {
    hide Reconcile, Hosts, FullyDeployed, ChecksPass, Reaching;
    ReconcileEmptiesStopped(w, t);
    var w1 := Reconcile(w, t).0;
    StoppedHostsAre(w1.provider, Hosts(t.topology.nodes));
    var names := StoppedHosts(w1.provider, Hosts(t.topology.nodes));
    forall h | h in Hosts(t.topology.nodes) ensures StatusOf(w1.provider, ServerId(h)) != ServerStatus.Stopped {
      assert h !in StoppedOf(w1, t);
    }
    ReconcileEmptiesStopped(w1, t);
    assert StartCalls([]) == [] && StartActions([]) == [];
  }

  // ----- validation and reconcile by the thread pool

  /** The pairs a validation pings, and those of them that are up. */
  function Pinged(t: Topology): nat {
    |Pool.RuleJobs(ChecksOf(t))|
  }

  function PairsUp(t: Topology, stopped: set<string>): nat {
    var checks := ChecksOf(t);
    |set i: nat | i < |checks| && PairIsUp(Hosts(t.nodes), stopped, checks[i])|
  }

  predicate PairIsUp(hosts: seq<string>, stopped: set<string>, c: Pool.Check) {
    ReachesBudget(hosts, stopped, c) && c.source !in stopped
  }

  /** On every deployment, for every schedule: the verdict, the totals, and what is left of the failures. */
  lemma OutcomeOfDeployed(w: World, t: TopologyRow, w': World, o: Outcome)
    requires FullyDeployed(w, t) && IsOutcome(w, t, w', o)
    ensures FullyDeployed(w', t) && StoppedOf(w', t) == StoppedOf(w, t)
    ensures w' == w.(provider := w.provider.(budgets := w'.provider.budgets))
    ensures forall op :: op != Op.RunPing ==> Budget(w'.provider, op) == Budget(w.provider, op)
    ensures Spends(PingsLeft(w.provider), Reaching(t.topology, StoppedOf(w, t)), PingsLeft(w'.provider))
    ensures o.status in {Pool.PASSED, Pool.FAILED}
    ensures o.status == Pool.PASSED <==>
              ChecksPass(t.topology, StoppedOf(w, t), PingsLeft(w.provider)) && !o.gaveUp
    ensures o.total == Pinged(t.topology) && o.passed <= o.total
    ensures PingsLeft(w.provider) == 0 && !o.gaveUp ==> o.passed == PairsUp(t.topology, StoppedOf(w, t))
  {
    OutcomeExactly(w, t, w', o);
    ValidateExactly(w, t);
    ValidationOfDeployed(w, t);
    SetsOfDeployed(w, t);
    OnlyBudgets(w, t, w');
    hide IsOutcome, FullyDeployed, ValidationHolds, ChecksPass, UpChecks, UpPairs, Reaching, PairsUp, Validate,
         ChecksOf, StoppedOf;
  }

  lemma OnlyBudgets(w: World, t: TopologyRow, w': World)
    requires FullyDeployed(w, t) && w' == w.(provider := w.provider.(budgets := w'.provider.budgets))
    ensures FullyDeployed(w', t) && StoppedOf(w', t) == StoppedOf(w, t)
  {
    hide RowsOf, Hosts, MockHandles, NodesFit;
  }

  lemma SetsOfDeployed(w: World, t: TopologyRow)
    requires FullyDeployed(w, t)
    ensures |UpChecks(w, t, ChecksOf(t.topology))| == Reaching(t.topology, StoppedOf(w, t))
    ensures |UpPairs(w, t, ChecksOf(t.topology))| == PairsUp(t.topology, StoppedOf(w, t))
  {
    hide Hosts, FullyDeployed, TargetUp, BothUp, StoppedOf, ChecksOf;
    var checks, hosts, stopped := ChecksOf(t.topology), Hosts(t.topology.nodes), StoppedOf(w, t);
    forall i | 0 <= i < |checks|
      ensures Reaches(w, t, checks[i]) <==> ReachesBudget(hosts, stopped, checks[i])
      ensures (checks[i].icmp && BothUp(w, t, checks[i].source, checks[i].target)) <==>
                PairIsUp(hosts, stopped, checks[i])
    {
      PingOfHosts(w, t, checks[i]);
    }
    assert UpChecks(w, t, checks) == set i: nat | i < |checks| && ReachesBudget(hosts, stopped, checks[i]);
    assert UpPairs(w, t, checks) == set i: nat | i < |checks| && PairIsUp(hosts, stopped, checks[i]);
  }

  /** Without rules, the pings that can use up a failure: those of links whose ends are hosts and whose target runs. */
  lemma LinksThatReach(t: Topology, stopped: set<string>)
    requires t.rules == []
    ensures Reaching(t, stopped) ==
              |set i: nat | i < |t.links| && Node(t.links[i].src, "host") in t.nodes
                            && Node(t.links[i].dst, "host") in t.nodes && t.links[i].dst !in stopped|
  {
    var checks := ChecksOf(t);
    hide Hosts;
    forall i: nat | i < |t.links|
      ensures ReachesBudget(Hosts(t.nodes), stopped, checks[i]) <==>
                Node(t.links[i].src, "host") in t.nodes && Node(t.links[i].dst, "host") in t.nodes
                && t.links[i].dst !in stopped
    {
      ChecksAreLinksOrRules(t, i);
      HostsAreNodes(t.nodes, t.links[i].src);
      HostsAreNodes(t.nodes, t.links[i].dst);
    }
    assert (set i: nat | i < |checks| && ReachesBudget(Hosts(t.nodes), stopped, checks[i]))
        == set i: nat | i < |t.links| && Node(t.links[i].src, "host") in t.nodes
                        && Node(t.links[i].dst, "host") in t.nodes && t.links[i].dst !in stopped;
  }
}
