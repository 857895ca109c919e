/**
 Deploying on the mock provider: exactly when it succeeds against failure budgets, and exactly
 what it leaves behind.
 */
module MockDeploy {
  import opened Wrappers
  import opened Topology
  import opened Providers
  import opened LocalState
  import opened Deployment
  import opened Rollback
  import opened Lifecycle

  function OpAt(plan: Plan, k: nat): Op
    requires k < Steps(plan)
  {
    if k >= 2 * |plan.networks| then CreateServer else if k % 2 == 0 then CreateNetwork else CreateSubnet
  }

  function MockIdAt(plan: Plan, k: nat): string
    requires k < Steps(plan)
  {
    var name := PlannedName(plan, k);
    if k >= 2 * |plan.networks| then ServerId(name)
    else if k % 2 == 0 then "mock-net-" + name else "mock-subnet-" + name
  }

  function MockHandle(plan: Plan, k: nat): Handle
    requires k < Steps(plan)
  {
    Handle(PlannedType(Mock, plan, k), PlannedName(plan, k), MockIdAt(plan, k))
  }

  /** The resources of a complete mock deployment, in creation order. */
  function MockHandles(plan: Plan): seq<Handle> {
    seq(Steps(plan), k requires 0 <= k < Steps(plan) => MockHandle(plan, k))
  }

  ghost predicate IsPlaced(plan: Plan, h: string) {
    exists i :: 0 <= i < |plan.networks| && h in plan.networks[i].attached
  }

  ghost predicate EveryHostPlaced(plan: Plan) {
    forall h :: h in Hosts(plan.servers) ==> IsPlaced(plan, h)
  }

  /** No operation still to come has a budget beyond the retry limit. */
  ghost predicate BudgetsSuffice(p: State, plan: Plan, k: nat, limit: nat) {
    forall j :: k <= j < Steps(plan) ==> Budget(p, OpAt(plan, j)) <= limit
  }

  /** The servers among the first `k` steps are running; other server states are as in `p0`. */
  ghost predicate ServersStarted(p0: State, p: State, plan: Plan, k: nat)
    requires k <= Steps(plan)
  {
    && (forall id :: id in p.statuses <==> id in p0.statuses || Started(plan, k, id))
    && (forall id :: id in p.statuses ==> p.statuses[id] == if Started(plan, k, id) then Running else p0.statuses[id])
  }

  ghost predicate Started(plan: Plan, k: nat, id: string)
    requires k <= Steps(plan)
  {
    exists j :: 2 * |plan.networks| <= j < k && MockIdAt(plan, j) == id
  }

  lemma MockStep(limit: nat, plan: Plan, p: State, created: seq<Handle>)
    requires p.name.Mock? && |created| < Steps(plan) && EveryHostPlaced(plan)
    ensures NextCreate(Mock, plan, created).Some?
    ensures var next := NextCreate(Mock, plan, created).value;
            && OpOf(next.request) == OpAt(plan, |created|) && MockId(next.request) == MockIdAt(plan, |created|)
            && Handle(next.rtype, next.request.name, MockId(next.request)) == MockHandle(plan, |created|)
            && (next.request.ServerRequest? <==> |created| >= 2 * |plan.networks|)
  {
    hide Hosts;
    var k := |created|;
    if k >= 2 * |plan.networks| { assert IsPlaced(plan, Hosts(plan.servers)[k - 2 * |plan.networks|]); }
  }

  lemma {:induction false} MockProvision(limit: nat, plan: Plan, p0: State, p: State, created: seq<Handle>)
    requires p.name.Mock? && EveryHostPlaced(plan) && |created| <= Steps(plan)
    requires created == MockHandles(plan)[..|created|] && ServersStarted(p0, p, plan, |created|)
    ensures var out := Provision(limit, plan, p, created);
            && (out.complete <==> BudgetsSuffice(p, plan, |created|, limit))
            && out.provider.name.Mock? && |out.created| <= Steps(plan)
            && out.created == MockHandles(plan)[..|out.created|]
            && (out.complete ==> |out.created| == Steps(plan) && ServersStarted(p0, out.provider, plan, Steps(plan)))
            && Budget(out.provider, RunPing) == Budget(p, RunPing)
    decreases Steps(plan) - |created|
  {
    hide Hosts, Steps, EveryHostPlaced, MockHandle, MockIdAt, NextCreate;
    var k := |created|;
    if k < Steps(plan) {
      MockStep(limit, plan, p, created);
      var next := NextCreate(Mock, plan, created).value;
      var out := CreateRetried(p, next.request, limit);
      MockRetryFrom(p, next.request, 0, limit);
      if out.result.Err? {
        assert !BudgetsSuffice(p, plan, k, limit);
      } else {
        var h := Handle(next.rtype, next.request.name, out.result.value);
        assert created + [h] == MockHandles(plan)[..k + 1];
        OneMoreStarted(p0, p, out.state, plan, k);
        MockProvision(limit, plan, p0, out.state, created + [h]);
        BudgetStep(p, out.state, plan, k, limit);
      }
    }
  }

  lemma OneMoreStarted(p0: State, p: State, p': State, plan: Plan, k: nat)
    requires k < Steps(plan) && ServersStarted(p0, p, plan, k)
    requires p'.statuses == if k >= 2 * |plan.networks| then p.statuses[MockIdAt(plan, k) := Running] else p.statuses
    ensures ServersStarted(p0, p', plan, k + 1)
  {
    hide Hosts, Steps, MockIdAt;
    forall id ensures Started(plan, k + 1, id) <==>
        Started(plan, k, id) || (k >= 2 * |plan.networks| && MockIdAt(plan, k) == id)
    {
    }
  }

  lemma BudgetStep(p: State, p': State, plan: Plan, k: nat, limit: nat)
    requires k < Steps(plan) && Budget(p, OpAt(plan, k)) <= limit
    requires forall op :: op != OpAt(plan, k) ==> Budget(p', op) == Budget(p, op)
    requires Budget(p', OpAt(plan, k)) <= 0 || Budget(p', OpAt(plan, k)) <= Budget(p, OpAt(plan, k))
    ensures BudgetsSuffice(p, plan, k, limit) <==> BudgetsSuffice(p', plan, k + 1, limit)
  {
    hide Steps, OpAt;
    forall j | k + 1 <= j < Steps(plan)
      ensures Budget(p, OpAt(plan, j)) <= limit <==> Budget(p', OpAt(plan, j)) <= limit {}
    assert BudgetsSuffice(p', plan, k + 1, limit) ==>
        forall j :: k + 1 <= j < Steps(plan) ==> Budget(p, OpAt(plan, j)) <= limit;
  }

  ghost predicate IsLinked(t: Topology, h: string) {
    exists i :: 0 <= i < |t.links| && (t.links[i].src == h || t.links[i].dst == h)
  }

  /** Every host is an end of some link. */
  ghost predicate EveryHostLinked(t: Topology) {
    forall h :: h in Hosts(t.nodes) ==> IsLinked(t, h)
  }

  lemma LinkedIsPlaced(t: Topology)
    ensures EveryHostLinked(t) <==> EveryHostPlaced(PlanOf(t))
  {
    hide Hosts;
    var plan := PlanOf(t);
    forall h ensures IsLinked(t, h) <==> IsPlaced(plan, h) {
      if i :| 0 <= i < |t.links| && (t.links[i].src == h || t.links[i].dst == h) {
        assert plan.networks[i] == NetworkOf(t, i);
      }
    }
  }

  /**
   A mock deploy of a topology with a host and a link, every host linked, reaches ACTIVE exactly
   when each kind of create has a failure budget within the retry limit.
   */
  lemma MockDeployActiveIff(ip: CidrReader, limit: nat, w: World, t: TopologyRow, runId: Option<int>)
    requires w.provider.name.Mock? && Accepted(ip, t.topology)
    requires RowsOf(w.rows, t.id) == [] && ActiveHandles(w.deployments, t.id) == []
    requires t.topology.links != [] && Hosts(t.topology.nodes) != [] && EveryHostLinked(t.topology)
    ensures Deploy(ip, limit, w, t, runId).1.Deployed? <==>
              forall op :: op in {CreateNetwork, CreateSubnet, CreateServer} ==> Budget(w.provider, op) <= limit
    ensures Deploy(ip, limit, w, t, runId).1.Deployed? || Deploy(ip, limit, w, t, runId).1.DeployFailed?
  {
    hide Accepted, Hosts, Provision, EveryHostLinked, EveryHostPlaced, RowsOf, Record, RollBack, MockHandle;
    var plan := PlanOf(t.topology);
    LinkedIsPlaced(t.topology);
    MockProvision(limit, plan, w.provider, w.provider, []);
    assert OpAt(plan, 0) == CreateNetwork && OpAt(plan, 1) == CreateSubnet
      && OpAt(plan, 2 * |plan.networks|) == CreateServer;
  }

  /** A mock deployment of `t` that is fully there. */
  ghost predicate MockDeployed(w: World, t: TopologyRow) {
    w.provider.name.Mock? && HandlesOf(RowsOf(w.rows, t.id)) == MockHandles(PlanOf(t.topology))
    && EveryHostPlaced(PlanOf(t.topology))
  }

  /** What a successful first deploy on the mock leaves: all planned rows, all its servers running. */
  lemma MockDeployEffect(ip: CidrReader, limit: nat, w: World, t: TopologyRow, runId: Option<int>)
    requires w.provider.name.Mock? && Accepted(ip, t.topology) && EveryHostLinked(t.topology)
    requires RowsOf(w.rows, t.id) == [] && ActiveHandles(w.deployments, t.id) == []
    requires Deploy(ip, limit, w, t, runId).1.Deployed?
    ensures var (w', r) := Deploy(ip, limit, w, t, runId);
            && MockDeployed(w', t) && !r.idempotent && r.resources == MockHandles(PlanOf(t.topology))
            && (forall h :: h in Hosts(t.topology.nodes) ==> StatusOf(w'.provider, ServerId(h)) == Running)
            && Budget(w'.provider, RunPing) == Budget(w.provider, RunPing)
  {
    hide Accepted, Hosts, Provision, EveryHostLinked, EveryHostPlaced, RowsOf, AddRows, Record, RollBack, MockHandle,
         KeyOf;
    var plan := PlanOf(t.topology);
    LinkedIsPlaced(t.topology);
    MockProvision(limit, plan, w.provider, w.provider, []);
    var out := Provision(limit, plan, w.provider, []);
    var w2 := w.(provider := out.provider, rows := AddRows(w.rows, t.id, out.created));
    RowsOfAdded(w.rows, t.id, out.created);
    assert HandlesOf(RowsOf(w.rows, t.id)) + out.created == out.created == MockHandles(plan);
    RecordAgrees(w2, t, runId);
    StartedRun(w.provider, out.provider, plan);
  }

  /** The resources of a complete deployment, spelled out. */
  lemma MockHandlesAre(plan: Plan, i: nat)
    ensures |MockHandles(plan)| == 2 * |plan.networks| + |Hosts(plan.servers)|
    ensures i < |plan.networks| ==>
              var name := plan.networks[i].name;
              && MockHandles(plan)[2 * i] == Handle("provider_network", name, "mock-net-" + name)
              && MockHandles(plan)[2 * i + 1]
                   == Handle("provider_subnet", name + "-subnet", "mock-subnet-" + (name + "-subnet"))
    ensures i < |Hosts(plan.servers)| ==>
              var h := Hosts(plan.servers)[i];
              MockHandles(plan)[2 * |plan.networks| + i] == Handle("provider_instance", h, "mock-server-" + h)
  {
    hide Hosts;
    if i < |plan.networks| { PlannedAt(Mock, plan, i); }
    if i < |Hosts(plan.servers)| { PlannedHostAt(Mock, plan, i); }
    Halves(i);
    hide PlannedName, PlannedType;
  }

  lemma Halves(i: nat)
    ensures 2 * i % 2 == 0 && (2 * i + 1) % 2 == 1 && 2 * i / 2 == i && (2 * i + 1) / 2 == i
  {
  }

  /** Type and name of network `i` and its subnet. */
  lemma PlannedAt(name: ProviderName, plan: Plan, i: nat)
    requires i < |plan.networks|
    ensures 2 * i + 1 < Steps(plan)
    ensures PlannedType(name, plan, 2 * i) == NetworkType(name) && PlannedName(plan, 2 * i) == plan.networks[i].name
    ensures PlannedType(name, plan, 2 * i + 1) == SubnetType(name)
    ensures PlannedName(plan, 2 * i + 1) == plan.networks[i].name + "-subnet"
  {
    hide Hosts;
    Halves(i);
  }

  /** Type and name of host `i`. */
  lemma PlannedHostAt(name: ProviderName, plan: Plan, i: nat)
    requires i < |Hosts(plan.servers)|
    ensures var k := 2 * |plan.networks| + i;
            k < Steps(plan) && PlannedType(name, plan, k) == ServerType(name)
            && PlannedName(plan, k) == Hosts(plan.servers)[i]
  {
    hide Hosts;
  }

  /** Provisioning stops at the first step whose budget exceeds the limit. */
  lemma {:induction false} MockProvisionStops(limit: nat, plan: Plan, p: State, created: seq<Handle>)
    requires p.name.Mock? && EveryHostPlaced(plan) && |created| <= Steps(plan)
    ensures var n := |Provision(limit, plan, p, created).created|;
            && |created| <= n <= Steps(plan)
            && (forall j :: |created| <= j < n ==> Budget(p, OpAt(plan, j)) <= limit)
            && (n < Steps(plan) ==> Budget(p, OpAt(plan, n)) > limit)
    decreases Steps(plan) - |created|
  {
    hide Hosts, Steps, EveryHostPlaced, MockHandle, MockIdAt, NextCreate, OpAt;
    var k := |created|;
    if k < Steps(plan) {
      MockStep(limit, plan, p, created);
      var next := NextCreate(Mock, plan, created).value;
      var out := CreateRetried(p, next.request, limit);
      MockRetryFrom(p, next.request, 0, limit);
      if out.result.Ok? {
        MockProvisionStops(limit, plan, out.state, created + [Handle(next.rtype, next.request.name, out.result.value)]);
      }
    }
  }

  /**
   How far a mock deploy gets with a link and every host linked: nowhere if networks fail, one
   network if subnets do, all networks and subnets if servers do, and to the end otherwise.
   */
  lemma MockDeployStopsAt(limit: nat, t: Topology, p: State)
    requires p.name.Mock? && EveryHostLinked(t) && t.links != []
    ensures var created := Provision(limit, PlanOf(t), p, []).created;
            && created <= MockHandles(PlanOf(t))
            && |created| == (if Budget(p, CreateNetwork) > limit then 0
                             else if Budget(p, CreateSubnet) > limit then 1
                             else if Budget(p, CreateServer) > limit then 2 * |t.links|
                             else 2 * |t.links| + |Hosts(t.nodes)|)
    ensures OpOf(NetworkRequest("", "")) == CreateNetwork && OpOf(SubnetRequest("", "", "")) == CreateSubnet
            && OpOf(ServerRequest("", "")) == CreateServer
  {
    hide Hosts, Provision, EveryHostLinked, EveryHostPlaced, MockHandle;
    var plan := PlanOf(t);
    LinkedIsPlaced(t);
    MockProvision(limit, plan, p, p, []);
    MockProvisionStops(limit, plan, p, []);
    var n := |Provision(limit, plan, p, []).created|;
    assert OpAt(plan, 0) == CreateNetwork && OpAt(plan, 1) == CreateSubnet;
    if n > 2 * |t.links| { assert OpAt(plan, 2 * |t.links|) == CreateServer; }
  }

  lemma StartedRun(p0: State, p: State, plan: Plan)
    requires ServersStarted(p0, p, plan, Steps(plan))
    ensures forall h :: h in Hosts(plan.servers) ==> StatusOf(p, ServerId(h)) == Running
  {
    hide Hosts;
    forall h | h in Hosts(plan.servers) ensures StatusOf(p, ServerId(h)) == Running {
      var i :| 0 <= i < |Hosts(plan.servers)| && Hosts(plan.servers)[i] == h;
      assert MockIdAt(plan, 2 * |plan.networks| + i) == ServerId(h);
      assert Started(plan, Steps(plan), ServerId(h));
    }
  }

  // ----- a cloud that grants everything

  /**
   The deploy of a plan whose hosts can all be placed, on a cloud that grants every request: each
   planned resource gets the next granted id, in plan order, with one call each and no retry.
   */
  lemma {:induction false} GrantedDeployCompletes(limit: nat, plan: Plan, p: State, created: seq<Handle>)
    requires p.name.Cloud? && EveryHostPlaced(plan) && FollowsPlan(Cloud, plan, created)
    requires |p.answers| >= Steps(plan) - |created|
    requires forall i :: 0 <= i < Steps(plan) - |created| ==> p.answers[i].Grant?
    ensures var out, left := Provision(limit, plan, p, created), Steps(plan) - |created|;
            && out.complete && FollowsPlan(Cloud, plan, out.created) && |out.created| == Steps(plan)
            && created <= out.created
            && (forall k :: |created| <= k < Steps(plan) ==> out.created[k].rid == p.answers[k - |created|].id)
            && out.provider.answers == p.answers[left..] && |out.provider.log| == |p.log| + left
    decreases Steps(plan) - |created|
  {
    hide Hosts, Steps, FollowsPlan, EveryHostPlaced, NextCreate;
    StepsLeft(Cloud, plan, created);
    if |created| < Steps(plan) {
      NextIsPlaced(Cloud, plan, created);
      var next := NextCreate(Cloud, plan, created).value;
      GrantedAtOnce(p, next.request, limit);
      var out := CreateRetried(p, next.request, limit);
      var h := Handle(next.rtype, next.request.name, out.result.value);
      NextFollowsPlan(Cloud, plan, created, h);
      hide CreateRetried;
      GrantedDeployCompletes(limit, plan, out.state, created + [h]);
      hide Provision;
    }
  }

  lemma GrantedAtOnce(p: State, r: Request, limit: nat)
    requires p.name.Cloud? && p.answers != [] && p.answers[0].Grant?
    ensures var out := CreateRetried(p, r, limit);
            && out.result == Ok(p.answers[0].id) && out.state.name.Cloud?
            && out.state.answers == p.answers[1..] && |out.state.log| == |p.log| + 1
  {
    CloudRetryExactly(p, r, limit, 0);
    RetryKeepsName(p, r, 0, limit);
    assert CreateCalls(p.log, r, 1) == CreateCalls(p.log, r, 0) + [CreateCall(r)];
    hide CreateRetried, Needs;
  }

  lemma NextIsPlaced(name: ProviderName, plan: Plan, created: seq<Handle>)
    requires |created| < Steps(plan) && EveryHostPlaced(plan)
    ensures NextCreate(name, plan, created).Some?
  {
    hide Hosts;
    var k := |created|;
    if k >= 2 * |plan.networks| { assert IsPlaced(plan, Hosts(plan.servers)[k - 2 * |plan.networks|]); }
  }

  /** The planned types and names, spelled out for clouds. */
  lemma CloudPlanIs(plan: Plan, created: seq<Handle>, i: nat)
    requires FollowsPlan(Cloud, plan, created) && |created| == Steps(plan)
    ensures |created| == 2 * |plan.networks| + |Hosts(plan.servers)|
    ensures i < |plan.networks| ==>
              && created[2 * i].rtype == "neutron_network" && created[2 * i].name == plan.networks[i].name
              && created[2 * i + 1].rtype == "neutron_subnet"
              && created[2 * i + 1].name == plan.networks[i].name + "-subnet"
    ensures i < |Hosts(plan.servers)| ==>
              && created[2 * |plan.networks| + i].rtype == "nova_server"
              && created[2 * |plan.networks| + i].name == Hosts(plan.servers)[i]
  {
    hide Hosts;
    if i < |plan.networks| { PlannedAt(Cloud, plan, i); }
    if i < |Hosts(plan.servers)| { PlannedHostAt(Cloud, plan, i); }
    hide PlannedName, PlannedType;
  }
}
