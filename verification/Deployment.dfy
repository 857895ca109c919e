/**
 `deployment_service`: deploy, idempotent redeploy, hydration, teardown and cleanup over the
 three stores — provider, database session and `state.json`.  The functions say what each
 operation does to the three stores together; the methods are the operations.
 */
module Deployment {
  import opened Wrappers
  import opened Sorting
  import opened Topology
  import opened Providers
  import opened LocalState
  import opened ResourceTypes
  import opened Selections
  import Compiler = TopologyCompiler

  datatype World = World(provider: State, rows: seq<Row>, status: map<nat, string>, deployments: Deployments)

  datatype TopologyRow = TopologyRow(id: nat, topology: Topology)

  datatype DeployResult =
    | Deployed(idempotent: bool, status: string, resources: seq<Handle>)
    | DeployFailed
    | NotCompilable

  datatype CleanupResult = Skipped | Cleaned(removed: nat)

  // ----- the database session

  function RowsOf(rows: seq<Row>, topologyId: nat): seq<Row> {
    if rows == [] then [] else
      var r := rows[|rows| - 1];
      RowsOf(rows[..|rows| - 1], topologyId) + if r.topologyId == topologyId then [r] else []
  }

  function WithoutRowsOf(rows: seq<Row>, topologyId: nat): seq<Row> {
    if rows == [] then [] else
      var r := rows[|rows| - 1];
      WithoutRowsOf(rows[..|rows| - 1], topologyId) + if r.topologyId != topologyId then [r] else []
  }

  function NextRowId(rows: seq<Row>): nat {
    if rows == [] then 1 else rows[|rows| - 1].id + 1
  }

  function AddRows(rows: seq<Row>, topologyId: nat, hs: seq<Handle>): seq<Row> {
    if hs == [] then rows else
      var before, h := AddRows(rows, topologyId, hs[..|hs| - 1]), hs[|hs| - 1];
      before + [Row(NextRowId(before), topologyId, h.rtype, h.name, h.rid)]
  }

  /** Increasing ids, as the primary key assigns them. */
  ghost predicate Ordered(rows: seq<Row>) {
    forall i, j :: 0 <= i < j < |rows| ==> rows[i].id < rows[j].id
  }

  class Session {
    var rows: seq<Row>
    var status: map<nat, string>

    constructor ()
      ensures rows == [] && status == map[]
    {
      rows, status := [], map[];
    }

    method AddResource(topologyId: nat, h: Handle)
      modifies this`rows
      ensures rows == old(rows) + [Row(NextRowId(old(rows)), topologyId, h.rtype, h.name, h.rid)]
    {
      rows := rows + [Row(NextRowId(rows), topologyId, h.rtype, h.name, h.rid)];
    }

    method ListTopologyResources(topologyId: nat) returns (rs: seq<Row>)
      ensures rs == RowsOf(rows, topologyId)
    {
      rs := [];
      var i := 0;
      while i < |rows|
        invariant 0 <= i <= |rows| && rs == RowsOf(rows[..i], topologyId)
      {
        assert rows[..i + 1][..i] == rows[..i];
        if rows[i].topologyId == topologyId { rs := rs + [rows[i]]; }
        i := i + 1;
      }
      assert rows[..i] == rows;
    }

    method DeleteResources(topologyId: nat)
      modifies this`rows
      ensures rows == WithoutRowsOf(old(rows), topologyId)
    {
      var kept, i := [], 0;
      while i < |rows|
        invariant 0 <= i <= |rows| && rows == old(rows) && kept == WithoutRowsOf(rows[..i], topologyId)
      {
        assert rows[..i + 1][..i] == rows[..i];
        if rows[i].topologyId != topologyId { kept := kept + [rows[i]]; }
        i := i + 1;
      }
      assert rows[..i] == rows;
      rows := kept;
    }

    method GetStatus(topologyId: nat) returns (s: string)
      ensures s == if topologyId in status then status[topologyId] else "CREATED"
    {
      s := if topologyId in status then status[topologyId] else "CREATED";
    }

    method SetStatus(topologyId: nat, s: string)
      modifies this`status
      ensures status == old(status)[topologyId := s]
    {
      status := status[topologyId := s];
    }
  }

  // ----- provisioning: which create comes when

  function NetworkType(name: ProviderName): string { if name.Mock? then PROVIDER_NETWORK else NEUTRON_NETWORK }
  function SubnetType(name: ProviderName): string { if name.Mock? then PROVIDER_SUBNET else NEUTRON_SUBNET }
  function ServerType(name: ProviderName): string { if name.Mock? then PROVIDER_INSTANCE else NOVA_SERVER }

  /** The position of the first network that attaches a node. */
  function FirstNetwork(networks: seq<NetworkPlan>, node: string, from: nat): (i: Option<nat>)
    requires from <= |networks|
    ensures i.Some? ==> from <= i.value < |networks| && node in networks[i.value].attached
    ensures i.Some? ==> forall j :: from <= j < i.value ==> node !in networks[j].attached
    ensures i.None? ==> forall j :: from <= j < |networks| ==> node !in networks[j].attached
    decreases |networks| - from
  {
    if from == |networks| then None
    else if node in networks[from].attached then Some(from)
    else FirstNetwork(networks, node, from + 1)
  }

  function Steps(plan: Plan): nat {
    2 * |plan.networks| + |Hosts(plan.servers)|
  }

  datatype Planned = Planned(rtype: string, request: Request)

  /** The create call that follows `created`: each network and its subnet, then each host. */
  function NextCreate(name: ProviderName, plan: Plan, created: seq<Handle>): Option<Planned>
    requires |created| < Steps(plan)
  {
    var k, n := |created|, |plan.networks|;
    if k < 2 * n then
      var network := plan.networks[k / 2];
      if k % 2 == 0 then Some(Planned(NetworkType(name), NetworkRequest(network.name, network.subnet)))
      else Some(Planned(SubnetType(name), SubnetRequest(network.name + "-subnet", created[k - 1].rid, network.subnet)))
    else
      var host := Hosts(plan.servers)[k - 2 * n];
      match FirstNetwork(plan.networks, host, 0)
      case None => None
      case Some(i) => Some(Planned(ServerType(name), ServerRequest(host, created[2 * i].rid)))
  }

  datatype Provisioned = Provisioned(provider: State, created: seq<Handle>, complete: bool)

  function Provision(limit: nat, plan: Plan, p: State, created: seq<Handle>): Provisioned
    requires |created| <= Steps(plan)
    decreases Steps(plan) - |created|
  {
    if |created| == Steps(plan) then Provisioned(p, created, true) else
      match NextCreate(p.name, plan, created)
      case None => Provisioned(p, created, false)
      case Some(next) =>
        var out := CreateRetried(p, next.request, limit);
        if out.result.Err? then Provisioned(out.state, created, false)
        else Provision(limit, plan, out.state, created + [Handle(next.rtype, next.request.name, out.result.value)])
  }

  // ----- teardown

  predicate DeleteFirst(a: Row, b: Row) {
    Tier(a.rtype) < Tier(b.rtype) || (Tier(a.rtype) == Tier(b.rtype) && a.id >= b.id)
  }

  ghost function DeleteAll(p: State, ordered: seq<Row>): (State, bool)
    decreases |ordered|
  {
    if ordered == [] then (p, true) else
      var (p', ok) := Delete(p, ordered[0].rid);
      if ok then DeleteAll(p', ordered[1..]) else (p', false)
  }

  ghost function Teardown(p: State, rows: seq<Row>): (State, bool) {
    DeleteAll(p, Sort(rows, DeleteFirst))
  }

  ghost function CleanUp(w: World, topologyId: nat): World {
    var rs := RowsOf(w.rows, topologyId);
    w.(provider := if rs == [] then w.provider else Teardown(w.provider, rs).0,
       rows := if rs == [] then w.rows else WithoutRowsOf(w.rows, topologyId),
       status := w.status[topologyId := "CREATED"],
       deployments := w.deployments - {KeyOf(topologyId)})
  }

  // ----- deploy

  function Hydrate(w: World, topologyId: nat): World {
    var hs := ActiveHandles(w.deployments, topologyId);
    if hs == [] then w else w.(rows := AddRows(w.rows, topologyId, hs), status := w.status[topologyId := "ACTIVE"])
  }

  /** Mark ACTIVE and write the snapshot of whatever rows there are. */
  function Record(w: World, t: TopologyRow, runId: Option<int>): World {
    w.(status := w.status[t.id := "ACTIVE"],
       deployments := w.deployments[KeyOf(t.id) :=
         Snapshot(t.id, t.topology.name, runId, HandlesOf(RowsOf(w.rows, t.id)), "ACTIVE")])
  }

  ghost function RollBack(w: World, t: TopologyRow, runId: Option<int>): World {
    var partial := RowsOf(w.rows, t.id);
    var failed := w.(status := w.status[t.id := "FAILED"],
                     deployments := w.deployments[KeyOf(t.id) :=
                       FailedSnapshot(w.deployments, t.id, t.topology.name, runId, HandlesOf(partial))]);
    if partial == [] then failed else CleanUp(failed, t.id)
  }

  /** The status column as the answer of a deploy reads it; a new topology is CREATED. */
  function StatusIn(w: World, topologyId: nat): string {
    if topologyId in w.status then w.status[topologyId] else "CREATED"
  }

  ghost function Deploy(ip: CidrReader, limit: nat, w: World, t: TopologyRow, runId: Option<int>)
    : (World, DeployResult)
  {
    var w1 := if RowsOf(w.rows, t.id) == [] then Hydrate(w, t.id) else w;
    var existing := RowsOf(w1.rows, t.id);
    if existing != [] then
      var w2 := Record(w1, t, runId);
      (w2, Deployed(true, StatusIn(w2, t.id), HandlesOf(existing)))
    else if !Accepted(ip, t.topology) then (w1, NotCompilable)
    else
      var out := Provision(limit, PlanOf(t.topology), w1.provider, []);
      var w2 := w1.(provider := out.provider, rows := AddRows(w1.rows, t.id, out.created));
      if out.complete then
        var w3 := Record(w2, t, runId);
        (w3, Deployed(false, StatusIn(w3, t.id), out.created))
      else (RollBack(w2, t, runId), DeployFailed)
  }

  // ----- the operations

  ghost function View(session: Session, store: Store, provider: Provider): World
    reads session, store, provider
  {
    World(provider.View(), session.rows, session.status, store.deployments)
  }

  method TeardownProviderResources(provider: Provider, rows: seq<Row>) returns (ok: bool)
    modifies provider
    ensures (provider.View(), ok) == Teardown(old(provider.View()), rows)
  {
    var ordered := Sort(rows, DeleteFirst);
    var i := 0;
    assert ordered[0..] == ordered;
    while i < |ordered|
      invariant 0 <= i <= |ordered|
      invariant DeleteAll(provider.View(), ordered[i..]) == DeleteAll(old(provider.View()), ordered)
    {
      assert ordered[i..][1..] == ordered[i + 1..];
      ok := provider.DeleteResource(ordered[i].rid);
      if !ok { return; }
      i := i + 1;
    }
    ok := true;
  }

  method CleanupTopologyDeployment(session: Session, store: Store, provider: Provider, topologyId: nat)
    returns (r: CleanupResult)
    modifies session, store, provider
    ensures View(session, store, provider) == CleanUp(old(View(session, store, provider)), topologyId)
    ensures var n := |RowsOf(old(session.rows), topologyId)|; r == if n == 0 then Skipped else Cleaned(n)
  {
    var resources := session.ListTopologyResources(topologyId);
    if resources == [] {
      session.SetStatus(topologyId, "CREATED");
      store.RemoveLocalDeployment(topologyId);
      return Skipped;
    }
    var ok := TeardownProviderResources(provider, resources);   // a failure is logged and ignored
    session.DeleteResources(topologyId);
    session.SetStatus(topologyId, "CREATED");
    store.RemoveLocalDeployment(topologyId);
    return Cleaned(|resources|);
  }

  method HydrateFromLocalState(session: Session, store: Store, topologyId: nat)
    modifies session
    ensures session.rows == AddRows(old(session.rows), topologyId, ActiveHandles(store.deployments, topologyId))
    ensures session.status == if ActiveHandles(store.deployments, topologyId) == [] then old(session.status)
                              else old(session.status)[topologyId := "ACTIVE"]
  {
    var handles := store.ResourcesFromLocalState(topologyId);
    if handles == [] { return; }
    var i := 0;
    while i < |handles|
      invariant 0 <= i <= |handles| && session.status == old(session.status)
      invariant session.rows == AddRows(old(session.rows), topologyId, handles[..i])
    {
      assert handles[..i + 1][..i] == handles[..i];
      session.AddResource(topologyId, handles[i]);
      i := i + 1;
    }
    assert handles[..i] == handles;
    session.SetStatus(topologyId, "ACTIVE");
  }

  method NetworkIdForNode(node: string, networks: seq<NetworkPlan>, idsByName: map<string, string>)
    returns (id: Option<string>)
    requires forall i :: 0 <= i < |networks| ==> networks[i].name in idsByName
    ensures var i := FirstNetwork(networks, node, 0);
            id == if i.None? then None else Some(idsByName[networks[i.value].name])
  {
    var i := 0;
    while i < |networks|
      invariant 0 <= i <= |networks| && FirstNetwork(networks, node, 0) == FirstNetwork(networks, node, i)
    {
      if node in networks[i].attached { return Some(idsByName[networks[i].name]); }
      i := i + 1;
    }
    return None;
  }

  ghost predicate NamesDiffer(networks: seq<NetworkPlan>) {
    forall i, j :: 0 <= i < j < |networks| ==> networks[i].name != networks[j].name
  }

  lemma ProvisionStep(limit: nat, plan: Plan, p: State, created: seq<Handle>, next: Planned)
    requires |created| < Steps(plan) && NextCreate(p.name, plan, created) == Some(next)
    ensures var out := CreateRetried(p, next.request, limit);
            Provision(limit, plan, p, created) ==
              if out.result.Err? then Provisioned(out.state, created, false)
              else
                Provision(limit, plan, out.state,
                          created + [Handle(next.rtype, next.request.name, out.result.value)])
  {
  }

  lemma AddRowsAppends(rows: seq<Row>, topologyId: nat, hs: seq<Handle>, h: Handle)
    ensures var before := AddRows(rows, topologyId, hs);
            AddRows(rows, topologyId, hs + [h]) == before + [Row(NextRowId(before), topologyId, h.rtype, h.name, h.rid)]
  {
    assert (hs + [h])[..|hs|] == hs;
  }

  /** Create one resource with retries and record its row after those of `created`. */
  method CreateAndRecord(session: Session, provider: Provider, limit: nat, topologyId: nat, next: Planned,
                         created: seq<Handle>, ghost plan: Plan, ghost base: seq<Row>)
    returns (ok: bool, created': seq<Handle>)
    requires |created| < Steps(plan) && NextCreate(provider.name, plan, created) == Some(next)
    requires session.rows == AddRows(base, topologyId, created)
    modifies session`rows, provider
    ensures session.rows == AddRows(base, topologyId, created')
    ensures if ok then
              && |created'| == |created| + 1 && created <= created'
              && Provision(limit, plan, old(provider.View()), created) ==
                   Provision(limit, plan, provider.View(), created')
            else
              && created' == created
              && Provision(limit, plan, old(provider.View()), created) == Provisioned(provider.View(), created, false)
  {
    hide Provision, CreateRetried, AddRows, Hosts;
    ProvisionStep(limit, plan, provider.View(), created, next);
    var id, slept := provider.CreateWithRetry(next.request, limit);
    if id.Err? { return false, created; }
    var h := Handle(next.rtype, next.request.name, id.value);
    session.AddResource(topologyId, h);
    AddRowsAppends(base, topologyId, created, h);
    return true, created + [h];
  }

  lemma {:induction false} HostsOfPrefix(nodes: seq<Node>, i: nat)
    requires i <= |nodes|
    ensures |Hosts(nodes[..i])| <= |Hosts(nodes)| && Hosts(nodes)[..|Hosts(nodes[..i])|] == Hosts(nodes[..i])
  {
    if i < |nodes| {
      HostsOfPrefix(nodes[..|nodes| - 1], i);
      assert nodes[..|nodes| - 1][..i] == nodes[..i];
    } else {
      assert nodes[..i] == nodes;
    }
  }

  /** `network_ids_by_name` after the networks `plan.networks[..i]`. */
  ghost predicate IdsMatch(plan: Plan, created: seq<Handle>, idsByName: map<string, string>, i: nat)
    requires i <= |plan.networks| && 2 * i <= |created|
  {
    forall j :: 0 <= j < i ==>
      plan.networks[j].name in idsByName && idsByName[plan.networks[j].name] == created[2 * j].rid
  }

  method ProvisionNetworks(session: Session, provider: Provider, limit: nat, topologyId: nat, plan: Plan)
    returns (ok: bool, created: seq<Handle>, idsByName: map<string, string>)
    requires NamesDiffer(plan.networks)
    modifies session`rows, provider
    ensures |created| <= Steps(plan) && session.rows == AddRows(old(session.rows), topologyId, created)
    ensures Provision(limit, plan, old(provider.View()), []) ==
              if ok then Provision(limit, plan, provider.View(), created)
              else Provisioned(provider.View(), created, false)
    ensures ok ==> |created| == 2 * |plan.networks| && IdsMatch(plan, created, idsByName, |plan.networks|)
  {
    hide Provision, AddRows, Hosts;
    created, idsByName := [], map[];
    var i := 0;
    NoRowsAdded(session.rows, topologyId);
    while i < |plan.networks|
      invariant 0 <= i <= |plan.networks| && |created| == 2 * i && IdsMatch(plan, created, idsByName, i)
      invariant session.rows == AddRows(old(session.rows), topologyId, created)
      invariant Provision(limit, plan, old(provider.View()), []) == Provision(limit, plan, provider.View(), created)
    {
      var network := plan.networks[i];
      var planned := Planned(NetworkType(provider.name), NetworkRequest(network.name, network.subnet));
      ok, created := CreateAndRecord(session, provider, limit, topologyId, planned, created, plan, old(session.rows));
      if !ok { return; }
      var id := created[2 * i].rid;
      idsByName := idsByName[network.name := id];
      planned := Planned(SubnetType(provider.name), SubnetRequest(network.name + "-subnet", id, network.subnet));
      ok, created := CreateAndRecord(session, provider, limit, topologyId, planned, created, plan, old(session.rows));
      if !ok { return; }
      i := i + 1;
    }
    ok := true;
  }

  lemma NoRowsAdded(rows: seq<Row>, topologyId: nat)
    ensures AddRows(rows, topologyId, []) == rows
  {
  }

  lemma HostAt(nodes: seq<Node>, i: nat)
    requires i < |nodes|
    ensures var k := |Hosts(nodes[..i])|;
            if nodes[i].kind == "host"
            then |Hosts(nodes[..i + 1])| == k + 1 <= |Hosts(nodes)| && Hosts(nodes)[k] == nodes[i].name
            else |Hosts(nodes[..i + 1])| == k
  {
    assert nodes[..i + 1][..i] == nodes[..i];
    HostsOfPrefix(nodes, i + 1);
  }

  lemma PlacelessHostFails(limit: nat, plan: Plan, p: State, created: seq<Handle>)
    requires |created| < Steps(plan) && NextCreate(p.name, plan, created) == None
    ensures Provision(limit, plan, p, created) == Provisioned(p, created, false)
  {
  }

  method ProvisionServers(session: Session, provider: Provider, limit: nat, topologyId: nat, plan: Plan,
                          networks: seq<Handle>, idsByName: map<string, string>, ghost base: seq<Row>)
    returns (ok: bool, created: seq<Handle>)
    requires |networks| == 2 * |plan.networks| && IdsMatch(plan, networks, idsByName, |plan.networks|)
    requires session.rows == AddRows(base, topologyId, networks)
    modifies session`rows, provider
    ensures |created| <= Steps(plan) && session.rows == AddRows(base, topologyId, created)
    ensures Provision(limit, plan, old(provider.View()), networks) == Provisioned(provider.View(), created, ok)
  {
    hide Provision, AddRows, Hosts;
    created := networks;
    var i := 0;
    assert |Hosts(plan.servers[..0])| == 0 by { NoHosts(plan.servers); }
    while i < |plan.servers|
      invariant 0 <= i <= |plan.servers|
      invariant networks <= created && |created| == |networks| + |Hosts(plan.servers[..i])| <= Steps(plan)
      invariant session.rows == AddRows(base, topologyId, created)
      invariant Provision(limit, plan, old(provider.View()), networks) ==
                  Provision(limit, plan, provider.View(), created)
    {
      HostAt(plan.servers, i);
      var server := plan.servers[i];
      if server.kind == "host" {
        var networkId := NetworkIdForNode(server.name, plan.networks, idsByName);
        if networkId.None? {
          PlacelessHostFails(limit, plan, provider.View(), created);
          return false, created;
        }
        var planned := Planned(ServerType(provider.name), ServerRequest(server.name, networkId.value));
        ok, created := CreateAndRecord(session, provider, limit, topologyId, planned, created, plan, base);
        if !ok { return; }
      }
      i := i + 1;
    }
    assert plan.servers[..i] == plan.servers;
    AllDone(limit, plan, provider.View(), created);
    ok := true;
  }

  lemma NoHosts(nodes: seq<Node>)
    ensures Hosts(nodes[..0]) == []
  {
  }

  lemma AllDone(limit: nat, plan: Plan, p: State, created: seq<Handle>)
    requires |created| == Steps(plan)
    ensures Provision(limit, plan, p, created) == Provisioned(p, created, true)
  {
  }

  method ProvisionAll(session: Session, provider: Provider, limit: nat, t: TopologyRow, plan: Plan)
    returns (ok: bool, created: seq<Handle>)
    requires plan == PlanOf(t.topology)
    modifies session`rows, provider
    ensures |created| <= Steps(plan) && session.rows == AddRows(old(session.rows), t.id, created)
    ensures Provision(limit, plan, old(provider.View()), []) == Provisioned(provider.View(), created, ok)
  {
    hide Provision, AddRows, Hosts;
    PlannedNamesDiffer(t.topology);
    var idsByName;
    ghost var base := session.rows;
    ok, created, idsByName := ProvisionNetworks(session, provider, limit, t.id, plan);
    if ok {
      ok, created := ProvisionServers(session, provider, limit, t.id, plan, created, idsByName, base);
    }
  }

  /** Set ACTIVE and refresh the snapshot from the rows. */
  method RecordActive(session: Session, store: Store, provider: Provider, t: TopologyRow, runId: Option<int>)
    modifies session, store
    ensures View(session, store, provider) == Record(old(View(session, store, provider)), t, runId)
  {
    session.SetStatus(t.id, "ACTIVE");
    var rows := session.ListTopologyResources(t.id);
    store.RecordDeploySnapshot(t.id, t.topology.name, runId, rows, "ACTIVE");
  }

  method RollBackDeploy(session: Session, store: Store, provider: Provider, t: TopologyRow, runId: Option<int>)
    modifies session, store, provider
    ensures View(session, store, provider) == RollBack(old(View(session, store, provider)), t, runId)
  {
    hide CleanUp;
    session.SetStatus(t.id, "FAILED");
    var partial := session.ListTopologyResources(t.id);
    store.RecordDeployFailed(t.id, t.topology.name, runId, partial);
    if partial != [] {
      var cleaned := CleanupTopologyDeployment(session, store, provider, t.id);
    }
  }

  method DeployTopology(session: Session, store: Store, provider: Provider, ip: CidrReader, limit: nat,
                        t: TopologyRow, runId: Option<int>) returns (r: DeployResult)
    modifies session, store, provider
    ensures (View(session, store, provider), r) == Deploy(ip, limit, old(View(session, store, provider)), t, runId)
  {
    hide Accepted, Provision, Hosts, RowsOf, AddRows, Record, RollBack, ActiveHandles, PlanOf;
    NoRowsAdded(session.rows, t.id);
    var existing := session.ListTopologyResources(t.id);
    if existing == [] {
      HydrateFromLocalState(session, store, t.id);
      existing := session.ListTopologyResources(t.id);
    }
    if existing != [] {
      RecordActive(session, store, provider, t, runId);
      var status := session.GetStatus(t.id);
      return Deployed(true, status, HandlesOf(existing));
    }
    var compiled := Compiler.CompileTopology(ip, t.topology);
    if compiled.Err? { return NotCompilable; }
    var ok, created := ProvisionAll(session, provider, limit, t, compiled.value);
    if !ok {
      RollBackDeploy(session, store, provider, t, runId);
      return DeployFailed;
    }
    RecordActive(session, store, provider, t, runId);
    var status := session.GetStatus(t.id);
    return Deployed(false, status, created);
  }

  lemma PlannedNamesDiffer(t: Topology)
    ensures NamesDiffer(PlanOf(t).networks)
  {
    forall i, j | 0 <= i < j < |t.links| ensures PlanOf(t).networks[i].name != PlanOf(t).networks[j].name {
      if NetworkName(t, i) == NetworkName(t, j) { NetworkNamesDiffer(t, i, j); }
    }
  }

  ghost function PositionsOf(rows: seq<Row>, topologyId: nat): iset<nat> {
    iset i: nat | i < |rows| && rows[i].topologyId == topologyId
  }

  ghost predicate RowsAt(rows: seq<Row>, at: seq<nat>, picked: seq<Row>) {
    |picked| == |at| && forall k :: 0 <= k < |at| ==> at[k] < |rows| && picked[k] == rows[at[k]]
  }

  /** A topology's rows are all the rows with its id, in the order of the table. */
  lemma {:induction false} RowsOfInOrder(rows: seq<Row>, topologyId: nat) returns (at: seq<nat>)
    ensures Picks(at, |rows|, PositionsOf(rows, topologyId)) && RowsAt(rows, at, RowsOf(rows, topologyId))
  {
    hide Picks;
    if rows == [] {
      at := [];
      NonePicked(PositionsOf(rows, topologyId));
    } else {
      var n := |rows| - 1;
      at := RowsOfInOrder(rows[..n], topologyId);
      at := PicksNext(at, n, PositionsOf(rows[..n], topologyId), PositionsOf(rows, topologyId));
    }
  }

  lemma RowlessHasNone(rows: seq<Row>, topologyId: nat)
    ensures RowsOf(rows, topologyId) == [] <==> forall r :: r in rows ==> r.topologyId != topologyId
  {
    hide RowsOf;
    var at := RowsOfInOrder(rows, topologyId);
    if at == [] {
      forall r | r in rows ensures r.topologyId != topologyId {
        var i :| 0 <= i < |rows| && rows[i] == r;
        assert i !in at;
      }
    } else {
      assert rows[at[0]] in rows;
    }
  }
}
