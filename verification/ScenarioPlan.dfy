/**
 The dry-run plan: the resource names a deploy would create, compared with the newest ACTIVE
 snapshot of the topology.  Non-AWS deployments match it name for name; AWS ones record a
 part of it.
 */
module ScenarioPlan {
  import opened Wrappers
  import opened Sorting
  import opened Topology
  import opened Providers
  import opened LocalState
  import opened Deployment
  import opened Rollback
  import opened Lifecycle
  import opened Selections
  import Text

  datatype Line = SKIP(title: string, name: string) | CREATE(title: string, name: string) | DELETE(names: set<string>)

  datatype Expectation = Expectation(title: string, name: string)

  function SubnetName(n: NetworkPlan): string { n.name + "-subnet" }

  function NetworkRows(networks: seq<NetworkPlan>): seq<Expectation> {
    if networks == [] then [] else
      var n := networks[|networks| - 1];
      NetworkRows(networks[..|networks| - 1]) + [Expectation("network", n.name), Expectation("subnet", SubnetName(n))]
  }

  function AwsSubnetRows(networks: seq<NetworkPlan>): seq<Expectation> {
    if networks == [] then [] else
      var sn := SubnetName(networks[|networks| - 1]);
      AwsSubnetRows(networks[..|networks| - 1])
        + [Expectation("subnet", sn), Expectation("internet_gateway", sn + "-igw"),
           Expectation("route_table", sn + "-rt"), Expectation("route_table_association", sn + "-rt-assoc")]
  }

  function HostRows(hosts: seq<string>): seq<Expectation> {
    seq(|hosts|, i requires 0 <= i < |hosts| => Expectation("instance", hosts[i]))
  }

  /** `_expected_idempotency_plan_rows`. */
  function ExpectedRows(plan: Plan, aws: bool): seq<Expectation> {
    if aws then
      (if plan.networks == [] then [] else [Expectation("VPC", plan.networks[0].name)])
        + AwsSubnetRows(plan.networks) + [Expectation("security_group", "cloudnet-sg")] + HostRows(Hosts(plan.servers))
    else NetworkRows(plan.networks) + HostRows(Hosts(plan.servers))
  }

  method BuildExpectedRows(plan: Plan, aws: bool) returns (rows: seq<Expectation>)
    ensures rows == ExpectedRows(plan, aws)
  {
    rows := [];
    var i := 0;
    if aws {
      if plan.networks != [] { rows := [Expectation("VPC", plan.networks[0].name)]; }
      ghost var start := rows;
      while i < |plan.networks|
        invariant 0 <= i <= |plan.networks| && rows == start + AwsSubnetRows(plan.networks[..i])
      {
        assert plan.networks[..i + 1][..i] == plan.networks[..i];
        var sn := SubnetName(plan.networks[i]);
        rows := rows + [Expectation("subnet", sn), Expectation("internet_gateway", sn + "-igw"),
                        Expectation("route_table", sn + "-rt"),
                        Expectation("route_table_association", sn + "-rt-assoc")];
        i := i + 1;
      }
      assert plan.networks[..i] == plan.networks;
      rows := rows + [Expectation("security_group", "cloudnet-sg")];
    } else {
      while i < |plan.networks|
        invariant 0 <= i <= |plan.networks| && rows == NetworkRows(plan.networks[..i])
      {
        assert plan.networks[..i + 1][..i] == plan.networks[..i];
        var n := plan.networks[i];
        rows := rows + [Expectation("network", n.name), Expectation("subnet", SubnetName(n))];
        i := i + 1;
      }
      assert plan.networks[..i] == plan.networks;
    }
    rows := rows + HostRows(Hosts(plan.servers));
  }

  // ----- the newest ACTIVE entry of a name

  ghost predicate Candidate(d: Deployments, name: string, k: string) {
    k in d && d[k].topologyName == name && d[k].status == "ACTIVE" && d[k].topologyId.Some?
  }

  ghost predicate IsNewestActive(d: Deployments, name: string, e: Entry) {
    exists k :: Candidate(d, name, k) && d[k] == e
      && forall j :: Candidate(d, name, j) ==> d[j].topologyId.value <= e.topologyId.value
  }

  /** `find_active_deployment_by_topology_name`: the greatest topology id wins. */
  method FindActiveDeployment(d: Deployments, name: string) returns (found: Option<Entry>)
    ensures found.Some? ==> IsNewestActive(d, name, found.value)
    ensures found.None? ==> forall k :: !Candidate(d, name, k)
  {
    found := None;
    var todo := d.Keys;
    while todo != {}
      invariant todo <= d.Keys
      invariant found.None? ==> forall k :: Candidate(d, name, k) ==> k in todo
      invariant found.Some? ==> exists k :: Candidate(d, name, k) && k !in todo && d[k] == found.value
      invariant found.Some? ==>
                  forall j :: Candidate(d, name, j) && j !in todo ==>
                    d[j].topologyId.value <= found.value.topologyId.value
      decreases todo
    {
      var k :| k in todo;
      todo := todo - {k};
      var e := d[k];
      if e.topologyName == name && e.status == "ACTIVE" && e.topologyId.Some? {
        assert Candidate(d, name, k);
        if found.None? || found.value.topologyId.value < e.topologyId.value { found := Some(e); }
      }
    }
  }

  /** Names of a snapshot's resources; missing and empty ones do not count. */
  function RecordedNames(items: seq<Item>): set<string> {
    set i | i in items && i.name.Some? && i.name.value != "" :: i.name.value
  }

  function DesiredNames(expected: seq<Expectation>): set<string> {
    set e | e in expected :: e.name
  }

  function CompareLines(expected: seq<Expectation>, recorded: set<string>): seq<Line> {
    seq(|expected|, i requires 0 <= i < |expected| =>
      if expected[i].name in recorded then SKIP(expected[i].title, expected[i].name)
      else CREATE(expected[i].title, expected[i].name))
  }

  /** `_idempotency_plan_lines` against an entry, if there is one. */
  function PlanLines(plan: Plan, aws: bool, active: Option<Entry>): seq<Line> {
    var expected := ExpectedRows(plan, aws);
    var recorded := if active.Some? then RecordedNames(active.value.resources) else {};
    CompareLines(expected, recorded)
      + if recorded <= DesiredNames(expected) then [] else [DELETE(recorded - DesiredNames(expected))]
  }

  method IdempotencyPlanLines(plan: Plan, aws: bool, active: Option<Entry>) returns (lines: seq<Line>)
    ensures lines == PlanLines(plan, aws, active)
  {
    var expected := BuildExpectedRows(plan, aws);
    var recorded := {};
    var i := 0;
    if active.Some? {
      var items := active.value.resources;
      while i < |items|
        invariant 0 <= i <= |items| && recorded == RecordedNames(items[..i])
      {
        if items[i].name.Some? && items[i].name.value != "" { recorded := recorded + {items[i].name.value}; }
        assert forall x :: x in items[..i + 1] <==> x in items[..i] || x == items[i];
        i := i + 1;
      }
      assert items[..i] == items;
    }
    lines := [];
    i := 0;
    while i < |expected|
      invariant 0 <= i <= |expected| && lines == CompareLines(expected, recorded)[..i]
    {
      var e := expected[i];
      lines := lines + [if e.name in recorded then SKIP(e.title, e.name) else CREATE(e.title, e.name)];
      i := i + 1;
    }
    var orphans := recorded - DesiredNames(expected);
    if orphans == {} {
      forall x | x in recorded ensures x in DesiredNames(expected) { assert x !in orphans; }
    }
    if recorded != {} && orphans != {} { lines := lines + [DELETE(orphans)]; }
  }

  // ----- plan and deploy agree

  function NamesOf(expected: seq<Expectation>): seq<string> {
    seq(|expected|, i requires 0 <= i < |expected| => expected[i].name)
  }

  function HandleNames(hs: seq<Handle>): seq<string> {
    seq(|hs|, i requires 0 <= i < |hs| => hs[i].name)
  }

  lemma {:induction false} NetworkRowAt(networks: seq<NetworkPlan>, k: nat)
    requires k < 2 * |networks|
    ensures |NetworkRows(networks)| == 2 * |networks|
    ensures NetworkRows(networks)[k].name == if k % 2 == 0 then networks[k / 2].name else SubnetName(networks[k / 2])
  {
    hide SubnetName;
    var n := |networks| - 1;
    if k < 2 * n {
      assert k / 2 < n;
      NetworkRowAt(networks[..n], k);
    } else {
      assert k / 2 == n;
      if n > 0 { NetworkRowAt(networks[..n], 0); }
    }
  }

  lemma PlannedNamesAreExpected(plan: Plan, k: nat)
    requires k < Steps(plan)
    ensures |ExpectedRows(plan, false)| == Steps(plan)
    ensures ExpectedRows(plan, false)[k].name == PlannedName(plan, k)
  {
    hide Hosts;
    if plan.networks != [] { NetworkRowAt(plan.networks, 0); }
    if k < 2 * |plan.networks| { NetworkRowAt(plan.networks, k); }
  }

  /** A complete non-AWS deployment has exactly the planned names, in order. */
  lemma DeployedNamesArePlanned(limit: nat, plan: Plan, p: State)
    requires Provision(limit, plan, p, []).complete
    ensures HandleNames(Provision(limit, plan, p, []).created) == NamesOf(ExpectedRows(plan, false))
  {
    hide Provision, ExpectedRows;
    assert FollowsPlan(p.name, plan, []);
    ProvisionFollowsPlan(limit, plan, p, []);
    var created := Provision(limit, plan, p, []).created;
    if Steps(plan) > 0 { PlannedNamesAreExpected(plan, 0); } else { NothingExpected(plan); }
    forall k | 0 <= k < |created| ensures created[k].name == ExpectedRows(plan, false)[k].name {
      PlannedNamesAreExpected(plan, k);
    }
  }

  lemma {:induction false} NetworkTitleAt(networks: seq<NetworkPlan>, i: nat)
    requires i < |networks|
    ensures |NetworkRows(networks)| == 2 * |networks|
    ensures NetworkRows(networks)[2 * i] == Expectation("network", networks[i].name)
    ensures NetworkRows(networks)[2 * i + 1] == Expectation("subnet", networks[i].name + "-subnet")
  {
    var n := |networks| - 1;
    if i < n { NetworkTitleAt(networks[..n], i); } else if n > 0 { NetworkTitleAt(networks[..n], 0); }
  }

  /** The planned lines' titles and names, spelled out. */
  lemma ExpectedRowsAre(plan: Plan, i: nat)
    ensures var rows, n := ExpectedRows(plan, false), |plan.networks|;
            && |rows| == 2 * n + |Hosts(plan.servers)|
            && (i < n ==> rows[2 * i] == Expectation("network", plan.networks[i].name)
                          && rows[2 * i + 1] == Expectation("subnet", plan.networks[i].name + "-subnet"))
            && (i < |Hosts(plan.servers)| ==> rows[2 * n + i] == Expectation("instance", Hosts(plan.servers)[i]))
  {
    hide Hosts, NetworkRows;
    if plan.networks != [] { NetworkTitleAt(plan.networks, 0); } else { NoNetworkRows(); }
    if i < |plan.networks| { NetworkTitleAt(plan.networks, i); }
  }

  lemma NoNetworkRows()
    ensures NetworkRows([]) == []
  {
  }

  ghost predicate IsRecorded(active: Option<Entry>, name: string) {
    active.Some? && name != "" && exists item :: item in active.value.resources && item.name == Some(name)
  }

  ghost predicate IsPlanned(plan: Plan, aws: bool, name: string) {
    exists i :: 0 <= i < |ExpectedRows(plan, aws)| && ExpectedRows(plan, aws)[i].name == name
  }

  /**
   Against any entry or none: a line for each expected resource, SKIP if its name is recorded and
   CREATE if not, then one DELETE line if and only if a recorded name is not planned, with all of these.
   */
  lemma PlanLinesExactly(plan: Plan, aws: bool, active: Option<Entry>)
    ensures var expected, lines := ExpectedRows(plan, aws), PlanLines(plan, aws, active);
            && |expected| <= |lines| <= |expected| + 1
            && (forall i :: 0 <= i < |expected| ==>
                  lines[i] == if IsRecorded(active, expected[i].name) then SKIP(expected[i].title, expected[i].name)
                              else CREATE(expected[i].title, expected[i].name))
            && (|lines| > |expected| <==> exists n :: IsRecorded(active, n) && !IsPlanned(plan, aws, n))
            && (|lines| > |expected| ==>
                  && lines[|expected|].DELETE?
                  && forall n :: n in lines[|expected|].names <==> IsRecorded(active, n) && !IsPlanned(plan, aws, n))
  {
    hide ExpectedRows;
    var expected := ExpectedRows(plan, aws);
    var recorded := if active.Some? then RecordedNames(active.value.resources) else {};
    forall n ensures n in recorded <==> IsRecorded(active, n) {}
    forall n ensures n in DesiredNames(expected) <==> IsPlanned(plan, aws, n) {
      if i :| 0 <= i < |expected| && expected[i].name == n { assert expected[i] in expected; }
    }
    hide RecordedNames, DesiredNames, IsRecorded, IsPlanned;
    if !(recorded <= DesiredNames(expected)) {
      var n :| n in recorded && n !in DesiredNames(expected);
      assert IsRecorded(active, n) && !IsPlanned(plan, aws, n);
    }
  }

  lemma NothingExpected(plan: Plan)
    requires Steps(plan) == 0
    ensures ExpectedRows(plan, false) == []
  {
  }

  ghost predicate NoEmptyNames(plan: Plan) {
    (forall i :: 0 <= i < |plan.networks| ==> plan.networks[i].name != "") && "" !in Hosts(plan.servers)
  }

  lemma {:induction false} ExpectedNamesNonEmpty(plan: Plan, k: nat)
    requires NoEmptyNames(plan) && k < Steps(plan)
    ensures PlannedName(plan, k) != ""
  {
    hide Hosts;
    if k >= 2 * |plan.networks| {
      assert Hosts(plan.servers)[k - 2 * |plan.networks|] in Hosts(plan.servers);
    }
  }

  /**
   Planning against the snapshot a fresh non-AWS deploy has just written shows every resource
   as already there: only SKIP lines, nothing to create or delete.
   */
  lemma PlanAfterDeploySkipsAll(ip: CidrReader, limit: nat, w: World, t: TopologyRow, runId: Option<int>)
    requires Deploy(ip, limit, w, t, runId).1.Deployed? && !Deploy(ip, limit, w, t, runId).1.idempotent
    ensures var e := Deploy(ip, limit, w, t, runId).0.deployments[KeyOf(t.id)];
            var plan := PlanOf(t.topology);
            var lines := PlanLines(plan, false, Some(e));
            && HandleNames(Deploy(ip, limit, w, t, runId).1.resources) == NamesOf(ExpectedRows(plan, false))
            && |lines| == |ExpectedRows(plan, false)|
            && forall i :: 0 <= i < |lines| ==> lines[i].SKIP? && lines[i].name == ExpectedRows(plan, false)[i].name
  {
    var plan := PlanOf(t.topology);
    var created := FreshDeployRecords(ip, limit, w, t, runId);
    PlannedNamesPresent(t.topology, ip);
    hide Deploy, ExpectedRows, KeyOf, Accepted, PlanOf, PlanLines, HandleNames, NamesOf, NoEmptyNames;
    LinesAllSkip(plan, created, Deploy(ip, limit, w, t, runId).0.deployments[KeyOf(t.id)]);
  }

  lemma LinesAllSkip(plan: Plan, created: seq<Handle>, e: Entry)
    requires NoEmptyNames(plan) && HandleNames(created) == NamesOf(ExpectedRows(plan, false))
    requires e.resources == ItemsOf(created)
    ensures var lines := PlanLines(plan, false, Some(e));
            && |lines| == |ExpectedRows(plan, false)|
            && forall i :: 0 <= i < |lines| ==> lines[i].SKIP? && lines[i].name == ExpectedRows(plan, false)[i].name
  {
    NamesGiveSkips(plan, created);
    hide ExpectedRows, RecordedNames, DesiredNames, ItemsOf, HandleNames, NamesOf, NoEmptyNames, CompareLines;
    AllRecordedSkip(ExpectedRows(plan, false), RecordedNames(e.resources));
  }

  lemma AllRecordedSkip(expected: seq<Expectation>, recorded: set<string>)
    requires forall e :: e in expected ==> e.name in recorded
    ensures var lines := CompareLines(expected, recorded);
            && |lines| == |expected|
            && forall i :: 0 <= i < |lines| ==> lines[i].SKIP? && lines[i].name == expected[i].name
  {
    assert forall i :: 0 <= i < |expected| ==> expected[i] in expected;
  }

  /** What a deploy that is not idempotent answers and records. */
  lemma FreshDeployRecords(ip: CidrReader, limit: nat, w: World, t: TopologyRow, runId: Option<int>)
    returns (created: seq<Handle>)
    requires Deploy(ip, limit, w, t, runId).1.Deployed? && !Deploy(ip, limit, w, t, runId).1.idempotent
    ensures Accepted(ip, t.topology) && created == Deploy(ip, limit, w, t, runId).1.resources
    ensures KeyOf(t.id) in Deploy(ip, limit, w, t, runId).0.deployments
    ensures Deploy(ip, limit, w, t, runId).0.deployments[KeyOf(t.id)].resources == ItemsOf(created)
    ensures HandleNames(created) == NamesOf(ExpectedRows(PlanOf(t.topology), false))
  {
    hide Accepted, Provision, RowsOf, AddRows, RollBack, ExpectedRows, Hosts, Hydrate, KeyOf, Classify;
    var w1 := if RowsOf(w.rows, t.id) == [] then Hydrate(w, t.id) else w;
    var plan := PlanOf(t.topology);
    var out := Provision(limit, plan, w1.provider, []);
    var w2 := w1.(provider := out.provider, rows := AddRows(w1.rows, t.id, out.created));
    created := out.created;
    DeployedNamesArePlanned(limit, plan, w1.provider);
    RowsOfAdded(w1.rows, t.id, out.created);
    assert HandlesOf(RowsOf(w1.rows, t.id)) + out.created == out.created;
    RecordKeepsResources(w2, t, runId);
  }

  lemma PlannedNamesPresent(t: Topology, ip: CidrReader)
    requires Accepted(ip, t)
    ensures NoEmptyNames(PlanOf(t))
  {
    HostsAreNodes(t.nodes, "");
  }

  lemma NamesGiveSkips(plan: Plan, created: seq<Handle>)
    requires NoEmptyNames(plan) && HandleNames(created) == NamesOf(ExpectedRows(plan, false))
    ensures var expected := ExpectedRows(plan, false);
            RecordedNames(ItemsOf(created)) == DesiredNames(expected)
            && forall e :: e in expected ==> e.name in RecordedNames(ItemsOf(created))
  {
    hide ExpectedRows;
    var expected, items := ExpectedRows(plan, false), ItemsOf(created);
    assert |created| == |HandleNames(created)| == |NamesOf(expected)| == |expected|;
    if Steps(plan) > 0 { PlannedNamesAreExpected(plan, 0); } else { NothingExpected(plan); }
    forall k | 0 <= k < |expected| ensures expected[k].name in RecordedNames(items) {
      PlannedNamesAreExpected(plan, k);
      ExpectedNamesNonEmpty(plan, k);
      assert HandleNames(created)[k] == NamesOf(expected)[k];
      assert items[k] == ItemOf(created[k]) && items[k] in items;
    }
    forall i | i in items && i.name.Some? && i.name.value != "" ensures i.name.value in DesiredNames(expected) {
      var k :| 0 <= k < |items| && items[k] == i;
      assert HandleNames(created)[k] == NamesOf(expected)[k];
      assert expected[k] in expected;
    }
  }

  /** The entry the plan looks at is the deployed topology's own, unless a newer namesake is ACTIVE. */
  lemma NewestEntryIsOwn(d: Deployments, t: TopologyRow, e: Entry)
    requires KeysMatch(d)
    requires Candidate(d, t.topology.name, KeyOf(t.id)) && d[KeyOf(t.id)].topologyId == Some(t.id)
    requires IsNewestActive(d, t.topology.name, e)
    ensures e == d[KeyOf(t.id)] <==>
              forall j :: Candidate(d, t.topology.name, j) ==> d[j].topologyId.value <= t.id
  {
    hide KeyOf;
    var k :| Candidate(d, t.topology.name, k) && d[k] == e;
    assert k == KeyOf(e.topologyId.value);
  }

  lemma DeployKeepsKeys(ip: CidrReader, limit: nat, w: World, t: TopologyRow, runId: Option<int>)
    requires KeysMatch(w.deployments)
    ensures KeysMatch(Deploy(ip, limit, w, t, runId).0.deployments)
  {
    hide KeyOf, RowsOf, AddRows, Provision, Accepted, RollBack, Hydrate, Snapshot, Record;
    var w1 := if RowsOf(w.rows, t.id) == [] then Hydrate(w, t.id) else w;
    HydrateKeepsEntries(w, t.id);
    var out := Provision(limit, PlanOf(t.topology), w1.provider, []);
    var w2 := w1.(provider := out.provider, rows := AddRows(w1.rows, t.id, out.created));
    RecordKeepsKeys(w1, t, runId);
    RecordKeepsKeys(w2, t, runId);
    RollBackKeepsKeys(w2, t, runId);
  }

  lemma HydrateKeepsEntries(w: World, t: nat)
    ensures Hydrate(w, t).deployments == w.deployments
  {
  }

  lemma RecordKeepsKeys(w: World, t: TopologyRow, runId: Option<int>)
    requires KeysMatch(w.deployments)
    ensures KeysMatch(Record(w, t, runId).deployments)
  {
    hide KeyOf, RowsOf, Classify, ItemsOf;
  }

  lemma RollBackKeepsKeys(w: World, t: TopologyRow, runId: Option<int>)
    requires KeysMatch(w.deployments)
    ensures KeysMatch(RollBack(w, t, runId).deployments)
  {
    hide KeyOf, RowsOf, WithoutRowsOf, Classify, ItemsOf, Teardown;
  }

  /** The entry a deploy writes is found under the topology's name. */
  lemma DeployedIsCandidate(ip: CidrReader, limit: nat, w: World, t: TopologyRow, runId: Option<int>)
    requires Deploy(ip, limit, w, t, runId).1.Deployed?
    ensures var d := Deploy(ip, limit, w, t, runId).0.deployments;
            Candidate(d, t.topology.name, KeyOf(t.id)) && d[KeyOf(t.id)].topologyId == Some(t.id)
  {
    hide KeyOf, RowsOf, AddRows, Provision, Accepted, RollBack, Hydrate, Classify;
  }

  lemma {:induction false} RedeployedIsCandidate(ip: CidrReader, limit: nat, w: World, t: TopologyRow,
                                                 first: Option<int>, runs: seq<Option<int>>)
    requires Deploy(ip, limit, w, t, first).1.Deployed? && KeysMatch(w.deployments)
    ensures var d := DeployTimes(ip, limit, Deploy(ip, limit, w, t, first).0, t, runs).deployments;
            && Candidate(d, t.topology.name, KeyOf(t.id)) && d[KeyOf(t.id)].topologyId == Some(t.id) && KeysMatch(d)
  {
    hide Deploy, KeyOf, Candidate, KeysMatch, Settled;
    var w1 := Deploy(ip, limit, w, t, first).0;
    DeployKeepsKeys(ip, limit, w, t, first);
    if runs == [] {
      DeployedIsCandidate(ip, limit, w, t, first);
    } else {
      var n := |runs| - 1;
      var before := DeployTimes(ip, limit, w1, t, runs[..n]);
      RedeployedIsCandidate(ip, limit, w, t, first, runs[..n]);
      DeployIsIdempotent(ip, limit, w, t, first, runs[..n]);
      RedeployChangesNothing(ip, limit, before, t, runs[n]);
      DeployKeepsKeys(ip, limit, before, t, runs[n]);
      DeployedIsCandidate(ip, limit, before, t, runs[n]);
    }
  }

  /**
   After a fresh non-AWS deploy and any number of further ones, the plan made from the entry that
   the lookup by name returns has only SKIP lines, one for each planned name, unless a newer
   namesake is ACTIVE.
   */
  lemma NewestPlanSkipsAll(ip: CidrReader, limit: nat, w: World, t: TopologyRow, first: Option<int>,
                           runs: seq<Option<int>>, e: Entry)
    requires Deploy(ip, limit, w, t, first).1.Deployed? && !Deploy(ip, limit, w, t, first).1.idempotent
    requires KeysMatch(w.deployments)
    requires var d := DeployTimes(ip, limit, Deploy(ip, limit, w, t, first).0, t, runs).deployments;
             && IsNewestActive(d, t.topology.name, e)
             && forall j :: Candidate(d, t.topology.name, j) ==> d[j].topologyId.value <= t.id
    ensures var plan := PlanOf(t.topology);
            var lines := PlanLines(plan, false, Some(e));
            && |lines| == |ExpectedRows(plan, false)|
            && forall i :: 0 <= i < |lines| ==> lines[i].SKIP? && lines[i].name == ExpectedRows(plan, false)[i].name
  {
    hide Deploy, KeyOf, KeysMatch, Settled, ExpectedRows, IsNewestActive, Candidate;
    var w1 := Deploy(ip, limit, w, t, first).0;
    var d := DeployTimes(ip, limit, w1, t, runs).deployments;
    RedeployedIsCandidate(ip, limit, w, t, first, runs);
    OwnEntryIsNewest(d, t, e);
    DeployIsIdempotent(ip, limit, w, t, first, runs);
    PlanAfterDeploySkipsAll(ip, limit, w, t, first);
    assert e.resources == w1.deployments[KeyOf(t.id)].resources;
  }

  lemma OwnEntryIsNewest(d: Deployments, t: TopologyRow, e: Entry)
    requires KeysMatch(d) && IsNewestActive(d, t.topology.name, e)
    requires Candidate(d, t.topology.name, KeyOf(t.id)) && d[KeyOf(t.id)].topologyId == Some(t.id)
    requires forall j :: Candidate(d, t.topology.name, j) ==> d[j].topologyId.value <= t.id
    ensures KeyOf(t.id) in d && e == d[KeyOf(t.id)]
  {
    hide KeyOf;
    NewestEntryIsOwn(d, t, e);
  }

  // ----- what an AWS deployment records

  /** The ids an AWS subnet create may report besides its own; an absent id is empty. */
  datatype SubnetIds = SubnetIds(subnet: string, igw: string, routeTable: string, association: string)

  datatype ServerIds = ServerIds(instance: string, securityGroup: string)

  /** A row is recorded only for a new, non-empty id. */
  function RecordOptional(rows: seq<Handle>, rtype: string, name: string, id: string): seq<Handle> {
    if id == "" || exists r :: r in rows && r.rid == id then rows else rows + [Handle(rtype, name, id)]
  }

  function AwsSubnet(rows: seq<Handle>, n: NetworkPlan, ids: SubnetIds): seq<Handle> {
    var sn := SubnetName(n);
    var r1 := rows + [Handle("aws_subnet", sn, ids.subnet)];
    var r2 := RecordOptional(r1, "aws_internet_gateway", sn + "-igw", ids.igw);
    var r3 := RecordOptional(r2, "aws_route_table", sn + "-rt", ids.routeTable);
    RecordOptional(r3, "aws_route_table_association", sn + "-rt-assoc", ids.association)
  }

  function AwsSubnets(rows: seq<Handle>, networks: seq<NetworkPlan>, ids: seq<SubnetIds>): seq<Handle>
    requires |networks| == |ids|
  {
    if networks == [] then rows else
      var n := |networks| - 1;
      AwsSubnet(AwsSubnets(rows, networks[..n], ids[..n]), networks[n], ids[n])
  }

  function AwsServer(rows: seq<Handle>, host: string, ids: ServerIds): seq<Handle> {
    RecordOptional(rows, "aws_security_group", "cloudnet-sg", ids.securityGroup)
      + [Handle("aws_instance", host, ids.instance)]
  }

  function AwsServers(rows: seq<Handle>, hosts: seq<string>, ids: seq<ServerIds>): seq<Handle>
    requires |hosts| == |ids|
  {
    if hosts == [] then rows else
      var n := |hosts| - 1;
      AwsServer(AwsServers(rows, hosts[..n], ids[..n]), hosts[n], ids[n])
  }

  /** Everything a successful AWS deploy records: the VPC, subnets with attachments, then hosts by name. */
  function AwsRecorded(plan: Plan, vpc: string, subnets: seq<SubnetIds>, servers: seq<ServerIds>): seq<Handle>
    requires plan.networks != [] && |subnets| == |plan.networks| && |servers| == |Hosts(plan.servers)|
  {
    var hosts := Sort(Hosts(plan.servers), Text.AtMost);
    SortPermutes(Hosts(plan.servers), Text.AtMost);
    AwsServers(AwsSubnets([Handle("aws_vpc", plan.networks[0].name, vpc)], plan.networks, subnets), hosts, servers)
  }

  method DeployAwsResources(plan: Plan, vpc: string, subnets: seq<SubnetIds>, servers: seq<ServerIds>)
    returns (created: seq<Handle>)
    requires plan.networks != [] && |subnets| == |plan.networks| && |servers| == |Hosts(plan.servers)|
    ensures created == AwsRecorded(plan, vpc, subnets, servers)
  {
    hide RecordOptional, AwsSubnet, AwsServer, Sort;
    created := [Handle("aws_vpc", plan.networks[0].name, vpc)];
    var i := 0;
    ghost var start := created;
    while i < |plan.networks|
      invariant 0 <= i <= |plan.networks| && created == AwsSubnets(start, plan.networks[..i], subnets[..i])
    {
      NextSubnet(start, plan.networks, subnets, i);
      var sn := SubnetName(plan.networks[i]);
      created := created + [Handle("aws_subnet", sn, subnets[i].subnet)];
      created := RecordOptional(created, "aws_internet_gateway", sn + "-igw", subnets[i].igw);
      created := RecordOptional(created, "aws_route_table", sn + "-rt", subnets[i].routeTable);
      created := RecordOptional(created, "aws_route_table_association", sn + "-rt-assoc", subnets[i].association);
      i := i + 1;
    }
    assert plan.networks[..i] == plan.networks && subnets[..i] == subnets;
    var hosts := Sort(Hosts(plan.servers), Text.AtMost);
    SortPermutes(Hosts(plan.servers), Text.AtMost);
    ghost var networks := created;
    i := 0;
    while i < |hosts|
      invariant 0 <= i <= |hosts| && created == AwsServers(networks, hosts[..i], servers[..i])
    {
      NextServer(networks, hosts, servers, i);
      created := RecordOptional(created, "aws_security_group", "cloudnet-sg", servers[i].securityGroup);
      created := created + [Handle("aws_instance", hosts[i], servers[i].instance)];
      i := i + 1;
    }
    assert hosts[..i] == hosts && servers[..i] == servers;
  }

  lemma NextSubnet(rows: seq<Handle>, networks: seq<NetworkPlan>, ids: seq<SubnetIds>, i: nat)
    requires i < |networks| == |ids|
    ensures AwsSubnets(rows, networks[..i + 1], ids[..i + 1]) ==
              var sn := SubnetName(networks[i]);
              var r1 := AwsSubnets(rows, networks[..i], ids[..i]) + [Handle("aws_subnet", sn, ids[i].subnet)];
              var r2 := RecordOptional(r1, "aws_internet_gateway", sn + "-igw", ids[i].igw);
              var r3 := RecordOptional(r2, "aws_route_table", sn + "-rt", ids[i].routeTable);
              RecordOptional(r3, "aws_route_table_association", sn + "-rt-assoc", ids[i].association)
  {
    hide RecordOptional, SubnetName;
    assert networks[..i + 1][..i] == networks[..i] && ids[..i + 1][..i] == ids[..i];
  }

  lemma NextServer(rows: seq<Handle>, hosts: seq<string>, ids: seq<ServerIds>, i: nat)
    requires i < |hosts| == |ids|
    ensures AwsServers(rows, hosts[..i + 1], ids[..i + 1]) ==
              RecordOptional(AwsServers(rows, hosts[..i], ids[..i]), "aws_security_group", "cloudnet-sg",
                             ids[i].securityGroup)
              + [Handle("aws_instance", hosts[i], ids[i].instance)]
  {
    hide RecordOptional;
    assert hosts[..i + 1][..i] == hosts[..i] && ids[..i + 1][..i] == ids[..i];
  }

  ghost predicate NamesWithin(rows: seq<Handle>, names: set<string>) {
    forall r :: r in rows ==> r.name in names
  }

  lemma {:induction false} AwsRowAt(networks: seq<NetworkPlan>, i: nat)
    requires i < |networks|
    ensures var rows, sn := AwsSubnetRows(networks), SubnetName(networks[i]);
            && |rows| == 4 * |networks|
            && rows[4 * i].name == sn && rows[4 * i + 1].name == sn + "-igw"
            && rows[4 * i + 2].name == sn + "-rt" && rows[4 * i + 3].name == sn + "-rt-assoc"
  {
    hide SubnetName;
    var n := |networks| - 1;
    if i < n { AwsRowAt(networks[..n], i); } else if n > 0 { AwsRowAt(networks[..n], 0); }
  }

  lemma AwsSubnetRowsOf(networks: seq<NetworkPlan>, i: nat)
    requires i < |networks|
    ensures var sn, names := SubnetName(networks[i]), DesiredNames(AwsSubnetRows(networks));
            sn in names && sn + "-igw" in names && sn + "-rt" in names && sn + "-rt-assoc" in names
  {
    hide SubnetName, AwsSubnetRows;
    AwsRowAt(networks, i);
    var rows := AwsSubnetRows(networks);
    assert rows[4 * i] in rows && rows[4 * i + 1] in rows && rows[4 * i + 2] in rows && rows[4 * i + 3] in rows;
  }

  lemma {:induction false} AwsSubnetsWithin(rows: seq<Handle>, all: seq<NetworkPlan>, networks: seq<NetworkPlan>,
                                            ids: seq<SubnetIds>, names: set<string>)
    requires networks <= all && |networks| == |ids| && NamesWithin(rows, names)
    requires DesiredNames(AwsSubnetRows(all)) <= names
    ensures NamesWithin(AwsSubnets(rows, networks, ids), names)
  {
    hide AwsSubnetRows;
    if networks != [] {
      var n := |networks| - 1;
      AwsSubnetsWithin(rows, all, networks[..n], ids[..n], names);
      AwsSubnetRowsOf(all, n);
      assert all[n] == networks[n];
    }
  }

  lemma {:induction false} AwsServersWithin(rows: seq<Handle>, hosts: seq<string>, ids: seq<ServerIds>,
                                            names: set<string>)
    requires |hosts| == |ids| && NamesWithin(rows, names) && "cloudnet-sg" in names
    requires forall h :: h in hosts ==> h in names
    ensures NamesWithin(AwsServers(rows, hosts, ids), names)
  {
    if hosts != [] {
      var n := |hosts| - 1;
      AwsServersWithin(rows, hosts[..n], ids[..n], names);
      assert hosts[n] in hosts;
    }
  }

  lemma ExpectedNamesOf(plan: Plan)
    requires plan.networks != []
    ensures var names := DesiredNames(ExpectedRows(plan, true));
            && plan.networks[0].name in names && "cloudnet-sg" in names
            && DesiredNames(AwsSubnetRows(plan.networks)) <= names
            && forall h :: h in Hosts(plan.servers) ==> h in names
  {
    hide AwsSubnetRows, Hosts;
    var vpc, subnets := [Expectation("VPC", plan.networks[0].name)], AwsSubnetRows(plan.networks);
    var sg, hosts := [Expectation("security_group", "cloudnet-sg")], HostRows(Hosts(plan.servers));
    var all := ExpectedRows(plan, true);
    assert all == vpc + subnets + sg + hosts;
    assert vpc[0] in all && sg[0] in all;
    assert forall e :: e in subnets ==> e in all;
    forall h | h in Hosts(plan.servers) ensures Expectation("instance", h) in all {
      var i :| 0 <= i < |Hosts(plan.servers)| && Hosts(plan.servers)[i] == h;
      assert hosts[i] in hosts;
    }
  }

  /**
   Whatever optional resources AWS reports, every recorded name is a planned one, so planning
   against an AWS snapshot never suggests a deletion.
   */
  lemma AwsPlanNeverDeletes(plan: Plan, vpc: string, subnets: seq<SubnetIds>, servers: seq<ServerIds>, e: Entry)
    requires plan.networks != [] && |subnets| == |plan.networks| && |servers| == |Hosts(plan.servers)|
    requires e.resources == ItemsOf(AwsRecorded(plan, vpc, subnets, servers))
    ensures NamesWithin(AwsRecorded(plan, vpc, subnets, servers), DesiredNames(ExpectedRows(plan, true)))
    ensures forall l :: l in PlanLines(plan, true, Some(e)) ==> !l.DELETE?
  {
    hide ExpectedRows, Hosts, AwsSubnetRows, AwsSubnets, AwsServers;
    var names := DesiredNames(ExpectedRows(plan, true));
    ExpectedNamesOf(plan);
    SortPermutes(Hosts(plan.servers), Text.AtMost);
    var start := [Handle("aws_vpc", plan.networks[0].name, vpc)];
    AwsSubnetsWithin(start, plan.networks, plan.networks, subnets, names);
    AwsServersWithin(AwsSubnets(start, plan.networks, subnets), Sort(Hosts(plan.servers), Text.AtMost), servers, names);
    var recorded := AwsRecorded(plan, vpc, subnets, servers);
    forall n | n in RecordedNames(e.resources) ensures n in names {
      var i :| i in e.resources && i.name == Some(n);
      var k :| 0 <= k < |e.resources| && e.resources[k] == i;
      assert recorded[k] in recorded;
    }
  }

  /** The AWS plan's titles and names, spelled out. */
  lemma AwsExpectedRowsAre(plan: Plan, i: nat)
    requires plan.networks != []
    ensures var rows, n := ExpectedRows(plan, true), |plan.networks|;
            && |rows| == 4 * n + 2 + |Hosts(plan.servers)|
            && rows[0] == Expectation("VPC", plan.networks[0].name)
            && (i < n ==>
                  var sn := plan.networks[i].name + "-subnet";
                  && rows[4 * i + 1] == Expectation("subnet", sn)
                  && rows[4 * i + 2] == Expectation("internet_gateway", sn + "-igw")
                  && rows[4 * i + 3] == Expectation("route_table", sn + "-rt")
                  && rows[4 * i + 4] == Expectation("route_table_association", sn + "-rt-assoc"))
            && rows[4 * n + 1] == Expectation("security_group", "cloudnet-sg")
            && (i < |Hosts(plan.servers)| ==> rows[4 * n + 2 + i] == Expectation("instance", Hosts(plan.servers)[i]))
  {
    hide Hosts, AwsSubnetRows;
    AwsTitleAt(plan.networks, 0);
    if i < |plan.networks| { AwsTitleAt(plan.networks, i); }
  }

  lemma {:induction false} AwsTitleAt(networks: seq<NetworkPlan>, i: nat)
    requires i < |networks|
    ensures var rows, sn := AwsSubnetRows(networks), networks[i].name + "-subnet";
            && |rows| == 4 * |networks|
            && rows[4 * i] == Expectation("subnet", sn)
            && rows[4 * i + 1] == Expectation("internet_gateway", sn + "-igw")
            && rows[4 * i + 2] == Expectation("route_table", sn + "-rt")
            && rows[4 * i + 3] == Expectation("route_table_association", sn + "-rt-assoc")
  {
    var n := |networks| - 1;
    if i < n { AwsTitleAt(networks[..n], i); } else if n > 0 { AwsTitleAt(networks[..n], 0); }
  }

  // ----- no reported resource is forgotten

  /** An id that was reported is the id of some row; an absent one is empty. */
  ghost predicate HasId(rows: seq<Handle>, id: string) {
    id != "" ==> exists k :: 0 <= k < |rows| && rows[k].rid == id
  }

  lemma HasIdStays(rows: seq<Handle>, more: seq<Handle>, id: string)
    requires rows <= more && HasId(rows, id)
    ensures HasId(more, id)
  {
    if id != "" {
      var k :| 0 <= k < |rows| && rows[k].rid == id;
      assert more[k].rid == id;
    }
  }

  lemma OptionalIsRecorded(rows: seq<Handle>, rtype: string, name: string, id: string)
    ensures var rows' := RecordOptional(rows, rtype, name, id);
            && rows <= rows' && HasId(rows', id) && |rows'| <= |rows| + 1
            && (|rows'| > |rows| ==>
                  rows' == rows + [Handle(rtype, name, id)] && forall r :: r in rows ==> r.rid != id)
  {
    var rows' := RecordOptional(rows, rtype, name, id);
    if |rows'| > |rows| {
      assert rows'[|rows|].rid == id;
    } else if r :| r in rows && r.rid == id {
      var k :| 0 <= k < |rows| && rows[k] == r;
    }
  }

  ghost predicate SubnetRecorded(rows: seq<Handle>, n: NetworkPlan, ids: SubnetIds) {
    && Handle("aws_subnet", n.name + "-subnet", ids.subnet) in rows
    && HasId(rows, ids.igw) && HasId(rows, ids.routeTable) && HasId(rows, ids.association)
  }

  lemma SubnetStaysRecorded(rows: seq<Handle>, more: seq<Handle>, n: NetworkPlan, ids: SubnetIds)
    requires rows <= more && SubnetRecorded(rows, n, ids)
    ensures SubnetRecorded(more, n, ids)
  {
    HasIdStays(rows, more, ids.igw);
    HasIdStays(rows, more, ids.routeTable);
    HasIdStays(rows, more, ids.association);
    hide HasId;
  }

  lemma SubnetIsRecorded(rows: seq<Handle>, n: NetworkPlan, ids: SubnetIds)
    ensures rows <= AwsSubnet(rows, n, ids) && SubnetRecorded(AwsSubnet(rows, n, ids), n, ids)
  {
    hide RecordOptional, HasId;
    var sn := SubnetName(n);
    var r1 := rows + [Handle("aws_subnet", sn, ids.subnet)];
    var r2 := RecordOptional(r1, "aws_internet_gateway", sn + "-igw", ids.igw);
    var r3 := RecordOptional(r2, "aws_route_table", sn + "-rt", ids.routeTable);
    var r4 := RecordOptional(r3, "aws_route_table_association", sn + "-rt-assoc", ids.association);
    OptionalIsRecorded(r1, "aws_internet_gateway", sn + "-igw", ids.igw);
    OptionalIsRecorded(r2, "aws_route_table", sn + "-rt", ids.routeTable);
    OptionalIsRecorded(r3, "aws_route_table_association", sn + "-rt-assoc", ids.association);
    HasIdStays(r2, r4, ids.igw);
    HasIdStays(r3, r4, ids.routeTable);
    assert r1[|rows|] == Handle("aws_subnet", sn, ids.subnet) && r1[|rows|] in r4;
  }

  lemma {:induction false} SubnetsAreRecorded(rows: seq<Handle>, networks: seq<NetworkPlan>, ids: seq<SubnetIds>)
    requires |networks| == |ids|
    ensures rows <= AwsSubnets(rows, networks, ids)
    ensures forall i :: 0 <= i < |networks| ==> SubnetRecorded(AwsSubnets(rows, networks, ids), networks[i], ids[i])
  {
    hide AwsSubnet, SubnetRecorded;
    if networks != [] {
      var n := |networks| - 1;
      SubnetsAreRecorded(rows, networks[..n], ids[..n]);
      var before, all := AwsSubnets(rows, networks[..n], ids[..n]), AwsSubnets(rows, networks, ids);
      SubnetIsRecorded(before, networks[n], ids[n]);
      forall i | 0 <= i < n ensures SubnetRecorded(all, networks[i], ids[i]) {
        assert networks[..n][i] == networks[i] && ids[..n][i] == ids[i];
        SubnetStaysRecorded(before, all, networks[i], ids[i]);
      }
    }
  }

  ghost predicate ServerRecorded(rows: seq<Handle>, host: string, ids: ServerIds, at: nat) {
    at < |rows| && rows[at] == Handle("aws_instance", host, ids.instance) && HasId(rows[..at], ids.securityGroup)
  }

  lemma ServerIsRecorded(rows: seq<Handle>, host: string, ids: ServerIds)
    ensures var rows' := AwsServer(rows, host, ids);
            rows < rows' && ServerRecorded(rows', host, ids, |rows'| - 1)
  {
    var groups := RecordOptional(rows, "aws_security_group", "cloudnet-sg", ids.securityGroup);
    OptionalIsRecorded(rows, "aws_security_group", "cloudnet-sg", ids.securityGroup);
    hide RecordOptional, HasId;
    assert AwsServer(rows, host, ids)[..|groups|] == groups;
  }

  lemma ServerStaysRecorded(rows: seq<Handle>, more: seq<Handle>, host: string, ids: ServerIds, at: nat)
    requires rows <= more && ServerRecorded(rows, host, ids, at)
    ensures ServerRecorded(more, host, ids, at)
  {
    hide HasId;
    assert more[..at] == rows[..at];
  }

  /** The hosts' rows come in host order, each after its security group's. */
  lemma {:induction false} ServersAreRecorded(rows: seq<Handle>, hosts: seq<string>, ids: seq<ServerIds>)
    returns (at: seq<nat>)
    requires |hosts| == |ids|
    ensures rows <= AwsServers(rows, hosts, ids) && |at| == |hosts| && Increasing(at)
    ensures forall k :: 0 <= k < |at| ==> at[k] < |AwsServers(rows, hosts, ids)|
    ensures forall k :: 0 <= k < |at| ==> ServerRecorded(AwsServers(rows, hosts, ids), hosts[k], ids[k], at[k])
  {
    hide AwsServer, ServerRecorded;
    if hosts == [] {
      at := [];
    } else {
      var n := |hosts| - 1;
      at := ServersAreRecorded(rows, hosts[..n], ids[..n]);
      var before, all := AwsServers(rows, hosts[..n], ids[..n]), AwsServers(rows, hosts, ids);
      ServerIsRecorded(before, hosts[n], ids[n]);
      forall k | 0 <= k < n ensures ServerRecorded(all, hosts[k], ids[k], at[k]) {
        assert hosts[..n][k] == hosts[k] && ids[..n][k] == ids[k];
        ServerStaysRecorded(before, all, hosts[k], ids[k], at[k]);
      }
      at := at + [|all| - 1];
    }
  }

  /**
   Everything AWS reports is recorded: the VPC first, each subnet with whatever attachments it
   came with, each host in alphabetical order after its security group.
   */
  lemma AwsRecordsEveryId(plan: Plan, vpc: string, subnets: seq<SubnetIds>, servers: seq<ServerIds>)
    returns (hosts: seq<string>, at: seq<nat>)
    requires plan.networks != [] && |subnets| == |plan.networks| && |servers| == |Hosts(plan.servers)|
    ensures var rows := AwsRecorded(plan, vpc, subnets, servers);
            && |rows| > 0 && rows[0] == Handle("aws_vpc", plan.networks[0].name, vpc)
            && (forall i :: 0 <= i < |plan.networks| ==> SubnetRecorded(rows, plan.networks[i], subnets[i]))
            && multiset(hosts) == multiset(Hosts(plan.servers)) && Sorted(hosts, Text.AtMost)
            && |hosts| == |at| == |servers| && Increasing(at)
            && (forall k :: 0 <= k < |at| ==> ServerRecorded(rows, hosts[k], servers[k], at[k]))
  {
    hide SubnetRecorded, ServerRecorded, AwsSubnets, AwsServers, Hosts, Sort, Increasing;
    hosts := Sort(Hosts(plan.servers), Text.AtMost);
    SortPermutes(Hosts(plan.servers), Text.AtMost);
    Text.AtMostIsTotalOrder();
    SortSorted(Hosts(plan.servers), Text.AtMost);
    var start := [Handle("aws_vpc", plan.networks[0].name, vpc)];
    var before := AwsSubnets(start, plan.networks, subnets);
    SubnetsAreRecorded(start, plan.networks, subnets);
    at := ServersAreRecorded(before, hosts, servers);
    var rows := AwsRecorded(plan, vpc, subnets, servers);
    forall i | 0 <= i < |plan.networks| ensures SubnetRecorded(rows, plan.networks[i], subnets[i]) {
      SubnetStaysRecorded(before, rows, plan.networks[i], subnets[i]);
    }
  }
}
