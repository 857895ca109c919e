/**
 Whole lifetimes of the three stores: any run of deploys, cleanups and janitor passes over any
 number of topologies keeps them in agreement, and deploying again changes nothing.
 */
module Lifecycle {
  import opened Wrappers
  import opened Topology
  import opened ProviderRetry
  import opened Providers
  import opened LocalState
  import opened Deployment
  import opened Rollback
  import opened Janitor

  // ----- agreement of the stores

  ghost predicate IsActive(w: World, t: nat) {
    t in w.status && w.status[t] == "ACTIVE"
  }

  ghost predicate EntryAgrees(w: World, t: nat) {
    var k := KeyOf(t);
    && k in w.deployments && w.deployments[k].topologyId == Some(t)
    && w.deployments[k].resources == ItemsOf(HandlesOf(RowsOf(w.rows, t)))
  }

  /**
   A topology is ACTIVE exactly when it has an ACTIVE snapshot entry, that entry lists its rows
   in order, and only ACTIVE topologies have rows.
   */
  ghost predicate Consistent(w: World) {
    && (forall t :: IsActive(w, t) <==> HasActive(w.deployments, t))
    && (forall t :: HasActive(w.deployments, t) ==> EntryAgrees(w, t))
    && (forall t :: RowsOf(w.rows, t) != [] ==> IsActive(w, t))
    && (forall k :: k in w.deployments ==>
          w.deployments[k].topologyId.Some? && k == KeyOf(w.deployments[k].topologyId.value))
  }

  datatype Event =
    | DeployEvent(t: TopologyRow, runId: Option<int>)
    | CleanupEvent(topologyId: nat)
    | JanitorEvent
    | OutsideEvent     // anything that happens at the provider alone

  ghost predicate Next(ip: CidrReader, limit: nat, w: World, e: Event, w': World) {
    match e
    case DeployEvent(t, runId) => w' == Deploy(ip, limit, w, t, runId).0
    case CleanupEvent(id) => w' == CleanUp(w, id)
    case JanitorEvent => exists entries, keys :: Lists(entries, keys, w.deployments) && w' == SweepAll(w, entries).0
    case OutsideEvent => w' == w.(provider := w'.provider)
  }

  /** The two worlds differ only in what they record about topology `t`, and at the provider. */
  ghost predicate OnlyTouches(w: World, w': World, t: nat) {
    && (forall u :: u != t ==> RowsOf(w'.rows, u) == RowsOf(w.rows, u))
    && (forall u :: u != t ==> (IsActive(w', u) <==> IsActive(w, u)))
    && (forall k :: k != KeyOf(t) ==> (k in w'.deployments <==> k in w.deployments))
    && (forall k :: k != KeyOf(t) && k in w.deployments ==> w'.deployments[k] == w.deployments[k])
  }

  lemma OneTopologyAtATime(w: World, w': World, t: nat)
    requires Consistent(w) && OnlyTouches(w, w', t)
    requires IsActive(w', t) <==> HasActive(w'.deployments, t)
    requires IsActive(w', t) ==> EntryAgrees(w', t)
    requires RowsOf(w'.rows, t) != [] ==> IsActive(w', t)
    requires KeyOf(t) in w'.deployments ==> w'.deployments[KeyOf(t)].topologyId == Some(t)
    ensures Consistent(w')
  {
    hide KeyOf, RowsOf, ItemsOf, HandlesOf;
    forall u | u != t
      ensures HasActive(w'.deployments, u) <==> HasActive(w.deployments, u)
      ensures EntryAgrees(w, u) ==> EntryAgrees(w', u)
    {
      if KeyOf(u) == KeyOf(t) { KeysDiffer(u, t); }
    }
    forall k | k in w'.deployments
      ensures w'.deployments[k].topologyId.Some? && k == KeyOf(w'.deployments[k].topologyId.value)
    {
      if k != KeyOf(t) { assert k in w.deployments; }
    }
    hide EntryAgrees, HasActive, IsActive;
  }

  lemma RecordAgrees(w: World, t: TopologyRow, runId: Option<int>)
    ensures var w' := Record(w, t, runId);
            && OnlyTouches(w, w', t.id) && IsActive(w', t.id) && HasActive(w'.deployments, t.id)
            && EntryAgrees(w', t.id)
            && w'.rows == w.rows && w'.provider == w.provider
  {
    hide KeyOf, RowsOf, Classify, ItemsOf, HandlesOf;
  }

  lemma RollBackAgrees(w: World, t: TopologyRow, runId: Option<int>)
    ensures var w' := RollBack(w, t, runId);
            && OnlyTouches(w, w', t.id) && !IsActive(w', t.id) && !HasActive(w'.deployments, t.id)
            && RowsOf(w'.rows, t.id) == []
            && (KeyOf(t.id) in w'.deployments ==> w'.deployments[KeyOf(t.id)].topologyId == Some(t.id))
  {
    hide KeyOf, Classify, ItemsOf, HandlesOf, RowsOf, WithoutRowsOf, Teardown;
    RowsOfRemoved(w.rows, t.id);
  }

  lemma CleanUpAgrees(w: World, t: nat)
    ensures var w' := CleanUp(w, t);
            && OnlyTouches(w, w', t) && !IsActive(w', t) && KeyOf(t) !in w'.deployments && RowsOf(w'.rows, t) == []
  {
    hide KeyOf, RowsOf, WithoutRowsOf, Teardown;
    RowsOfRemoved(w.rows, t);
  }

  /**
   A cleanup, whether or not the provider refused a delete: the topology is CREATED and has
   neither rows nor an entry; nothing recorded about any other topology changes.
   */
  lemma CleanUpClears(w: World, t: nat)
    ensures var w' := CleanUp(w, t);
            && w'.status == w.status[t := "CREATED"] && w'.deployments == w.deployments - {KeyOf(t)}
            && (forall r :: r in w'.rows ==> r.topologyId != t)
            && (forall u :: u != t ==> RowsOf(w'.rows, u) == RowsOf(w.rows, u))
            && ((forall r :: r in w.rows ==> r.topologyId != t) ==> w'.provider == w.provider && w'.rows == w.rows)
            && (RowsOf(w.rows, t) != [] ==> w'.provider == Teardown(w.provider, RowsOf(w.rows, t)).0)
  {
    RowsOfRemoved(w.rows, t);
    RowlessHasNone(w.rows, t);
    RowlessHasNone(CleanUp(w, t).rows, t);
    hide KeyOf, RowsOf, WithoutRowsOf, Teardown;
  }

  lemma NothingToHydrate(w: World, t: nat)
    requires Consistent(w) && RowsOf(w.rows, t) == []
    ensures Hydrate(w, t) == w
  {
    hide KeyOf, RowsOf;
    if HasActive(w.deployments, t) { assert EntryAgrees(w, t); }
  }

  lemma DeployKeepsAgreement(ip: CidrReader, limit: nat, w: World, t: TopologyRow, runId: Option<int>)
    requires Consistent(w)
    ensures Consistent(Deploy(ip, limit, w, t, runId).0)
  {
    hide KeyOf, RowsOf, AddRows, Provision, Accepted, Record, RollBack, Hydrate, ItemsOf, HandlesOf;
    if RowsOf(w.rows, t.id) == [] { NothingToHydrate(w, t.id); }
    var (w', r) := Deploy(ip, limit, w, t, runId);
    if r.NotCompilable? { return; }
    var w2 := w;
    if RowsOf(w.rows, t.id) == [] {
      var out := Provision(limit, PlanOf(t.topology), w.provider, []);
      w2 := w.(provider := out.provider, rows := AddRows(w.rows, t.id, out.created));
      RowsOfAdded(w.rows, t.id, out.created);
    }
    RecordAgrees(w2, t, runId);
    RollBackAgrees(w2, t, runId);
    OneTopologyAtATime(w, w', t.id);
  }

  lemma {:induction false} NoOrphansNoSweep(w: World, entries: seq<Entry>)
    requires forall e :: e in entries ==> !IsOrphan(w.rows, e)
    ensures SweepAll(w, entries) == (w, [])
  {
    if entries != [] {
      var n := |entries| - 1;
      NoOrphansNoSweep(w, entries[..n]);
      assert Sweep(w, entries[n]) == (w, []);
      assert SweepAll(w, entries).1 == [];
    }
  }

  /** In an agreeing world the janitor finds nothing to do. */
  lemma JanitorIdle(w: World, entries: seq<Entry>, keys: seq<string>)
    requires Consistent(w) && Lists(entries, keys, w.deployments)
    ensures SweepAll(w, entries) == (w, [])
  {
    hide KeyOf, RowsOf;
    forall e | e in entries ensures !IsOrphan(w.rows, e) {
      var i :| 0 <= i < |entries| && entries[i] == e;
      assert keys[i] in w.deployments && w.deployments[keys[i]] == e;
      var t := e.topologyId.value;
      if e.status == "ACTIVE" { assert HasActive(w.deployments, t) && EntryAgrees(w, t); }
    }
    NoOrphansNoSweep(w, entries);
  }

  lemma NextKeepsAgreement(ip: CidrReader, limit: nat, w: World, e: Event, w': World)
    requires Consistent(w) && Next(ip, limit, w, e, w')
    ensures Consistent(w')
    ensures e.JanitorEvent? ==> w' == w
  {
    hide RowsOf, KeyOf, CleanUp, Deploy;
    match e
    case DeployEvent(t, runId) => DeployKeepsAgreement(ip, limit, w, t, runId);
    case CleanupEvent(id) =>
      CleanUpAgrees(w, id);
      OneTopologyAtATime(w, w', id);
    case JanitorEvent =>
      var entries, keys :| Lists(entries, keys, w.deployments) && w' == SweepAll(w, entries).0;
      JanitorIdle(w, entries, keys);
    case OutsideEvent =>
      assert forall t :: EntryAgrees(w, t) ==> EntryAgrees(w', t);
      assert forall t :: IsActive(w, t) <==> IsActive(w', t);
  }

  /** Every state of every run agrees, and no janitor pass along the way changed anything. */
  lemma {:induction false} RunsKeepAgreement(ip: CidrReader, limit: nat, ws: seq<World>, es: seq<Event>)
    requires |ws| == |es| + 1 && Consistent(ws[0])
    requires forall i :: 0 <= i < |es| ==> Next(ip, limit, ws[i], es[i], ws[i + 1])
    ensures forall i :: 0 <= i < |ws| ==> Consistent(ws[i])
    ensures forall i :: 0 <= i < |es| && es[i].JanitorEvent? ==> ws[i + 1] == ws[i]
  {
    hide Consistent, Next;
    if es != [] {
      var n := |es| - 1;
      RunsKeepAgreement(ip, limit, ws[..n + 1], es[..n]);
      NextKeepsAgreement(ip, limit, ws[n], es[n], ws[n + 1]);
    }
  }

  lemma FreshStart(p: State)
    ensures Consistent(World(p, [], map[], map[]))
  {
    assert forall t :: !HasActive(map[], t) && !IsActive(World(p, [], map[], map[]), t);
  }

  // ----- deploying again

  /** The state after a successful deploy, as far as topology `t` is concerned. */
  ghost predicate Settled(ip: CidrReader, w: World, t: TopologyRow) {
    && HasActive(w.deployments, t.id) && EntryAgrees(w, t.id)
    && (RowsOf(w.rows, t.id) == [] ==> Accepted(ip, t.topology) && Steps(PlanOf(t.topology)) == 0)
  }

  lemma DeployedIsSettled(ip: CidrReader, limit: nat, w: World, t: TopologyRow, runId: Option<int>)
    requires Deploy(ip, limit, w, t, runId).1.Deployed?
    ensures Settled(ip, Deploy(ip, limit, w, t, runId).0, t)
  {
    hide KeyOf, RowsOf, AddRows, Provision, Accepted, Record, RollBack, Hydrate, ItemsOf;
    var w1 := if RowsOf(w.rows, t.id) == [] then Hydrate(w, t.id) else w;
    var out := Provision(limit, PlanOf(t.topology), w1.provider, []);
    var w2 := if RowsOf(w1.rows, t.id) != [] then w1
              else w1.(provider := out.provider, rows := AddRows(w1.rows, t.id, out.created));
    RowsOfAdded(w1.rows, t.id, out.created);
    RecordAgrees(w2, t, runId);
    assert FollowsPlan(w1.provider.name, PlanOf(t.topology), []);
    ProvisionFollowsPlan(limit, PlanOf(t.topology), w1.provider, []);
    if RowsOf(w2.rows, t.id) == [] { assert HandlesOf(RowsOf(w2.rows, t.id)) == []; assert |out.created| == 0; }
  }

  /** What further deploys leave alone: provider, rows, snapshot resources, other topologies. */
  ghost predicate SameDeployment(w: World, w': World, t: nat) {
    && w'.provider == w.provider
    && HandlesOf(RowsOf(w'.rows, t)) == HandlesOf(RowsOf(w.rows, t))
    && KeyOf(t) in w.deployments && KeyOf(t) in w'.deployments
    && w'.deployments[KeyOf(t)].resources == w.deployments[KeyOf(t)].resources
    && w'.deployments[KeyOf(t)].groups == Classify(w.deployments[KeyOf(t)].resources)
    && OnlyTouches(w, w', t)
  }

  lemma NothingToProvision(limit: nat, plan: Plan, p: State)
    requires Steps(plan) == 0
    ensures Provision(limit, plan, p, []) == Provisioned(p, [], true)
  {
  }

  lemma RedeployChangesNothing(ip: CidrReader, limit: nat, w: World, t: TopologyRow, runId: Option<int>)
    requires Settled(ip, w, t)
    ensures var (w', r) := Deploy(ip, limit, w, t, runId);
            && SameDeployment(w, w', t.id) && w'.rows == w.rows && Settled(ip, w', t)
            && r.Deployed? && r.resources == HandlesOf(RowsOf(w.rows, t.id))
  {
    hide KeyOf, RowsOf, AddRows, Provision, Accepted, Record, Steps, Classify;
    RecordAgrees(w, t, runId);
    RecordKeepsResources(w, t, runId);
    if RowsOf(w.rows, t.id) == [] {
      assert Hydrate(w, t.id) == w;
      NothingToProvision(limit, PlanOf(t.topology), w.provider);
      NoRowsAdded(w.rows, t.id);
    }
  }

  lemma RecordKeepsResources(w: World, t: TopologyRow, runId: Option<int>)
    ensures var e := Record(w, t, runId).deployments[KeyOf(t.id)];
            e.resources == ItemsOf(HandlesOf(RowsOf(w.rows, t.id))) && e.groups == Classify(e.resources)
  {
  }

  /** Whatever the provider and however it got there: a deploy that returns says ACTIVE, and the status column does. */
  lemma DeployReturnsActive(ip: CidrReader, limit: nat, w: World, t: TopologyRow, runId: Option<int>)
    ensures var (w', r) := Deploy(ip, limit, w, t, runId);
            r.Deployed? ==> r.status == "ACTIVE" && IsActive(w', t.id) && HasActive(w'.deployments, t.id)
  {
    hide KeyOf, RowsOf, AddRows, Provision, Accepted, RollBack, Hydrate, Classify;
  }

  /** The entry a deploy that returns leaves: this run's id, the topology's name, its rows in order. */
  lemma DeployedEntryIs(ip: CidrReader, limit: nat, w: World, t: TopologyRow, runId: Option<int>)
    requires Deploy(ip, limit, w, t, runId).1.Deployed?
    ensures var (w', r) := Deploy(ip, limit, w, t, runId);
            && w'.status == w.status[t.id := "ACTIVE"]
            && KeyOf(t.id) in w'.deployments
            && w'.deployments == w.deployments[KeyOf(t.id) := w'.deployments[KeyOf(t.id)]]
            && (var e := w'.deployments[KeyOf(t.id)];
                && e.topologyId == Some(t.id) && e.topologyName == t.topology.name && e.runId == runId
                && e.status == "ACTIVE" && e.resources == ItemsOf(r.resources))
            && r.resources == HandlesOf(RowsOf(w'.rows, t.id))
            && (r.idempotent <==> RowsOf(w.rows, t.id) != [] || ActiveHandles(w.deployments, t.id) != [])
  {
    hide KeyOf, RowsOf, AddRows, Provision, Accepted, RollBack, Classify, ActiveHandles;
    var w1 := if RowsOf(w.rows, t.id) == [] then Hydrate(w, t.id) else w;
    var hs, created := ActiveHandles(w.deployments, t.id), Provision(limit, PlanOf(t.topology), w.provider, []).created;
    RowsOfAdded(w.rows, t.id, hs);
    RowsOfAdded(w.rows, t.id, created);
    assert RowsOf(w.rows, t.id) == [] ==> HandlesOf(RowsOf(w.rows, t.id)) + hs == hs;
    assert RowsOf(w.rows, t.id) == [] ==> HandlesOf(RowsOf(w.rows, t.id)) + created == created;
    if RowsOf(w.rows, t.id) == [] && hs != [] { assert |HandlesOf(RowsOf(w1.rows, t.id))| == |hs|; }
  }

  /** A deploy is refused, and changes nothing, exactly when nothing is recorded and the topology does not compile. */
  lemma DeployRefusesIff(ip: CidrReader, limit: nat, w: World, t: TopologyRow, runId: Option<int>)
    ensures Deploy(ip, limit, w, t, runId).1.NotCompilable? <==>
              (forall r :: r in w.rows ==> r.topologyId != t.id) && ActiveHandles(w.deployments, t.id) == []
              && !Accepted(ip, t.topology)
    ensures Deploy(ip, limit, w, t, runId).1.NotCompilable? ==> Deploy(ip, limit, w, t, runId).0 == w
  {
    hide KeyOf, RowsOf, AddRows, Provision, Accepted, RollBack, Record, ActiveHandles;
    RowlessHasNone(w.rows, t.id);
    var hs := ActiveHandles(w.deployments, t.id);
    RowsOfAdded(w.rows, t.id, hs);
    if RowsOf(w.rows, t.id) == [] && hs != [] {
      assert HandlesOf(RowsOf(w.rows, t.id)) + hs == hs;
      assert |HandlesOf(RowsOf(Hydrate(w, t.id).rows, t.id))| == |hs|;
    }
  }

  ghost function DeployTimes(ip: CidrReader, limit: nat, w: World, t: TopologyRow, runs: seq<Option<int>>): World {
    if runs == [] then w
    else Deploy(ip, limit, DeployTimes(ip, limit, w, t, runs[..|runs| - 1]), t, runs[|runs| - 1]).0
  }

  /** After one successful deploy, any number of further ones makes no provider call at all. */
  lemma {:induction false} DeployIsIdempotent(ip: CidrReader, limit: nat, w: World, t: TopologyRow,
                                              first: Option<int>, runs: seq<Option<int>>)
    requires Deploy(ip, limit, w, t, first).1.Deployed?
    ensures var w1 := Deploy(ip, limit, w, t, first).0;
            var w2 := DeployTimes(ip, limit, w1, t, runs);
            && SameDeployment(w1, w2, t.id) && w2.rows == w1.rows && Settled(ip, w2, t)
  {
    hide Deploy, KeyOf, RowsOf, Classify, Accepted, ItemsOf, Steps;
    var w1 := Deploy(ip, limit, w, t, first).0;
    DeployedIsSettled(ip, limit, w, t, first);
    if runs == [] {
      DeployedGroups(ip, limit, w, t, first);
    } else {
      DeployIsIdempotent(ip, limit, w, t, first, runs[..|runs| - 1]);
      RedeployChangesNothing(ip, limit, DeployTimes(ip, limit, w1, t, runs[..|runs| - 1]), t, runs[|runs| - 1]);
    }
  }

  lemma DeployedGroups(ip: CidrReader, limit: nat, w: World, t: TopologyRow, runId: Option<int>)
    requires Deploy(ip, limit, w, t, runId).1.Deployed?
    ensures var d := Deploy(ip, limit, w, t, runId).0.deployments;
            KeyOf(t.id) in d && d[KeyOf(t.id)].groups == Classify(d[KeyOf(t.id)].resources)
  {
    hide KeyOf, RowsOf, AddRows, Provision, Accepted, RollBack, Hydrate, ItemsOf, Classify;
  }

  ghost function LoseRows(w: World, t: nat): World {
    w.(rows := WithoutRowsOf(w.rows, t))
  }

  /**
   Losing every row of a deployed topology is repaired by the next deploy from the snapshot
   alone: same resources in the same order, and still no provider call.
   */
  lemma LostRowsAreRestored(ip: CidrReader, limit: nat, w: World, t: TopologyRow, runId: Option<int>)
    requires Settled(ip, w, t)
    requires forall h :: h in HandlesOf(RowsOf(w.rows, t.id)) ==> h.rtype != "" && h.rid != ""
    ensures var (w', r) := Deploy(ip, limit, LoseRows(w, t.id), t, runId);
            SameDeployment(w, w', t.id) && Settled(ip, w', t) && r.Deployed?
  {
    hide KeyOf, RowsOf, AddRows, WithoutRowsOf, Provision, Accepted, Record, Steps, Classify;
    var hs := HandlesOf(RowsOf(w.rows, t.id));
    var lost := LoseRows(w, t.id);
    RowsOfRemoved(w.rows, t.id);
    ReadUndoesWrite(hs);
    if hs == [] {
      assert RowsOf(w.rows, t.id) == [];
      RedeployChangesNothing(ip, limit, w, t, runId);
    } else {
      var w1 := Hydrate(lost, t.id);
      RowsOfAdded(lost.rows, t.id, hs);
      assert HandlesOf(RowsOf(lost.rows, t.id)) + hs == hs;
      assert RowsOf(w1.rows, t.id) != [] by { assert |HandlesOf(RowsOf(w1.rows, t.id))| == |hs|; }
      RecordAgrees(w1, t, runId);
      RecordKeepsResources(w1, t, runId);
    }
  }

  // ----- rows a deploy leaves can be read back

  predicate AllReadable(hs: seq<Handle>) {
    forall i :: 0 <= i < |hs| ==> hs[i].rtype != "" && hs[i].rid != ""
  }

  /** The provider never grants an empty id. */
  predicate NamesItsGrants(p: State) {
    forall i :: 0 <= i < |p.answers| && p.answers[i].Grant? ==> p.answers[i].id != ""
  }

  lemma {:induction false} RetriedIdIsNamed(p: State, r: Request, attempt: nat, limit: nat)
    requires NamesItsGrants(p) && attempt <= limit
    ensures var out := Retry(Creating(r), p, attempt, limit);
            NamesItsGrants(out.state) && (out.result.Ok? ==> out.result.value != "")
    decreases limit - attempt
  {
    var (p', result) := Create(p, r);
    assert NamesItsGrants(p');
    if result.Err? && result.error.retryable && attempt < limit { RetriedIdIsNamed(p', r, attempt + 1, limit); }
  }

  lemma {:induction false} ProvisionedIsReadable(limit: nat, plan: Plan, p: State, created: seq<Handle>)
    requires NamesItsGrants(p) && AllReadable(created) && |created| <= Steps(plan)
    ensures AllReadable(Provision(limit, plan, p, created).created)
    decreases Steps(plan) - |created|
  {
    hide NamesItsGrants, Steps, Hosts;
    if |created| < Steps(plan) && NextCreate(p.name, plan, created).Some? {
      var next := NextCreate(p.name, plan, created).value;
      var out := CreateRetried(p, next.request, limit);
      RetriedIdIsNamed(p, next.request, 0, limit);
      if out.result.Ok? {
        var h := Handle(next.rtype, next.request.name, out.result.value);
        ProvisionedIsReadable(limit, plan, out.state, created + [h]);
      }
    }
  }

  lemma {:induction false} ReadIsReadable(items: seq<Item>)
    ensures AllReadable(ReadItems(items))
  {
    if items != [] { ReadIsReadable(items[..|items| - 1]); }
  }

  lemma DeployedIsReadable(ip: CidrReader, limit: nat, w: World, t: TopologyRow, runId: Option<int>)
    requires NamesItsGrants(w.provider) && AllReadable(HandlesOf(RowsOf(w.rows, t.id)))
    requires Deploy(ip, limit, w, t, runId).1.Deployed?
    ensures AllReadable(HandlesOf(RowsOf(Deploy(ip, limit, w, t, runId).0.rows, t.id)))
  {
    hide RowsOf, AddRows, Provision, Accepted, RollBack, KeyOf, ReadItems, NamesItsGrants;
    var hs := ActiveHandles(w.deployments, t.id);
    var out := Provision(limit, PlanOf(t.topology), w.provider, []);
    if RowsOf(w.rows, t.id) == [] {
      if KeyOf(t.id) in w.deployments { ReadIsReadable(w.deployments[KeyOf(t.id)].resources); }
      ProvisionedIsReadable(limit, PlanOf(t.topology), w.provider, []);
      RowsOfAdded(w.rows, t.id, hs);
      RowsOfAdded(w.rows, t.id, out.created);
      assert HandlesOf(RowsOf(w.rows, t.id)) + hs == hs && HandlesOf(RowsOf(w.rows, t.id)) + out.created == out.created;
    }
  }

  lemma SameDeploymentChains(w1: World, w2: World, w3: World, t: nat)
    requires SameDeployment(w1, w2, t) && SameDeployment(w2, w3, t)
    ensures SameDeployment(w1, w3, t)
  {
    hide RowsOf, KeyOf, Classify, IsActive;
  }

  /**
   Deploy, deploy again any number of times, lose all rows of the topology, and deploy again any
   number of times: from the first success on the provider is never called, and rows and
   snapshot end up listing the same resources in the same order.
   */
  lemma DeploysSurviveLostRows(ip: CidrReader, limit: nat, w: World, t: TopologyRow, first: Option<int>,
                               runs: seq<Option<int>>, again: Option<int>, more: seq<Option<int>>)
    requires NamesItsGrants(w.provider) && AllReadable(HandlesOf(RowsOf(w.rows, t.id)))
    requires Deploy(ip, limit, w, t, first).1.Deployed?
    ensures var w1 := Deploy(ip, limit, w, t, first).0;
            var lost := LoseRows(DeployTimes(ip, limit, w1, t, runs), t.id);
            var w2 := DeployTimes(ip, limit, Deploy(ip, limit, lost, t, again).0, t, more);
            SameDeployment(w1, w2, t.id) && Settled(ip, w2, t)
  {
    hide Deploy, RowsOf, KeyOf, Settled, SameDeployment, NamesItsGrants;
    var w1 := Deploy(ip, limit, w, t, first).0;
    var w2 := DeployTimes(ip, limit, w1, t, runs);
    var lost := LoseRows(w2, t.id);
    var w3 := Deploy(ip, limit, lost, t, again).0;
    DeployedIsReadable(ip, limit, w, t, first);
    DeployIsIdempotent(ip, limit, w, t, first, runs);
    assert forall h :: h in HandlesOf(RowsOf(w2.rows, t.id)) ==> h.rtype != "" && h.rid != "";
    LostRowsAreRestored(ip, limit, w2, t, again);
    DeployIsIdempotent(ip, limit, lost, t, again, more);
    SameDeploymentChains(w1, w2, w3, t.id);
    SameDeploymentChains(w1, w3, DeployTimes(ip, limit, w3, t, more), t.id);
  }
}
