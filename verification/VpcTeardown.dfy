/**
 `delete_network` on an EC2 account: refuse anything that is not CloudNet's, then terminate,
 detach and delete from the inside out.  Any call may fail; what has been changed by then is
 what the log says.
 */
module VpcTeardown {
  import opened Wrappers

  datatype Tag = Tag(key: string, value: string)

  datatype Vpc = Vpc(id: string, isDefault: bool, tags: seq<Tag>)

  /** `live`: pending, running, stopping or stopped. */
  datatype Instance = Instance(id: string, vpc: string, live: bool, tags: seq<Tag>)

  datatype Group = Group(id: string, vpc: string, name: string, tags: seq<Tag>)

  datatype Association = Association(id: string, main: bool)

  datatype RouteTable = RouteTable(id: string, vpc: string, tags: seq<Tag>, associations: seq<Association>)

  datatype Gateway = Gateway(id: string, attachedTo: seq<string>, tags: seq<Tag>)

  datatype Subnet = Subnet(id: string, vpc: string, tags: seq<Tag>)

  datatype Account = Account(vpcs: seq<Vpc>, instances: seq<Instance>, groups: seq<Group>,
                             routeTables: seq<RouteTable>, gateways: seq<Gateway>, subnets: seq<Subnet>)

  datatype Mutation =
    | TerminateInstances(ids: seq<string>)
    | DeleteGroup(id: string)
    | Disassociate(id: string)
    | DeleteRouteTable(id: string)
    | DetachGateway(id: string, vpc: string)
    | DeleteGateway(id: string)
    | DeleteSubnet(id: string)
    | DeleteVpc(id: string)

  // ----- tags

  function TagValue(tags: seq<Tag>, key: string): string {
    if tags == [] then "" else if tags[0].key == key then tags[0].value else TagValue(tags[1..], key)
  }

  predicate IsCloudNet(tags: seq<Tag>) {
    TagValue(tags, "Project") == "CloudNet" || "cloudnet-" <= TagValue(tags, "Name")
  }

  /** The first tag of that key, or nothing at all. */
  lemma {:induction false} TagValueIsFirst(tags: seq<Tag>, key: string)
    ensures if forall t :: t in tags ==> t.key != key then TagValue(tags, key) == ""
            else exists k :: 0 <= k < |tags| && tags[k] == Tag(key, TagValue(tags, key))
                   && forall j :: 0 <= j < k ==> tags[j].key != key
  {
    if tags != [] && tags[0].key != key {
      TagValueIsFirst(tags[1..], key);
      FirstOfRest(tags, key, TagValue(tags, key));
    } else if tags != [] {
      assert tags[0] == Tag(key, TagValue(tags, key));
    }
  }

  lemma FirstOfRest(tags: seq<Tag>, key: string, value: string)
    requires tags != [] && tags[0].key != key
    requires if forall t :: t in tags[1..] ==> t.key != key then value == ""
             else exists k :: 0 <= k < |tags[1..]| && tags[1..][k] == Tag(key, value)
                    && forall j :: 0 <= j < k ==> tags[1..][j].key != key
    ensures if forall t :: t in tags ==> t.key != key then value == ""
            else exists k :: 0 <= k < |tags| && tags[k] == Tag(key, value)
                   && forall j :: 0 <= j < k ==> tags[j].key != key
  {
    var rest := tags[1..];
    assert tags == [tags[0]] + rest;
    if t :| t in tags && t.key == key {
      assert t in rest;
      var k :| 0 <= k < |rest| && rest[k] == Tag(key, value) && forall j :: 0 <= j < k ==> rest[j].key != key;
      assert tags[k + 1] == Tag(key, value);
      assert forall j :: 0 < j < k + 1 ==> tags[j] == rest[j - 1];
    }
  }

  /** Some tag says Project=CloudNet, or is a Name that starts with "cloudnet-". */
  ghost predicate SaysCloudNet(tags: seq<Tag>) {
    exists t :: t in tags && IsOurTag(t)
  }

  predicate IsOurTag(t: Tag) {
    (t.key == "Project" && t.value == "CloudNet") || (t.key == "Name" && "cloudnet-" <= t.value)
  }

  /** Without such a tag nothing counts as CloudNet's; if no key is repeated, with one it does. */
  lemma CloudNetNeedsTag(tags: seq<Tag>)
    ensures IsCloudNet(tags) ==> SaysCloudNet(tags)
    ensures SaysCloudNet(tags) && (forall i, j :: 0 <= i < j < |tags| ==> tags[i].key != tags[j].key) ==>
              IsCloudNet(tags)
  {
    hide TagValue;
    TagValueIsFirst(tags, "Project");
    TagValueIsFirst(tags, "Name");
    if IsCloudNet(tags) {
      var key := if TagValue(tags, "Project") == "CloudNet" then "Project" else "Name";
      var k :| 0 <= k < |tags| && tags[k] == Tag(key, TagValue(tags, key));
      assert IsOurTag(tags[k]);
    }
    if t :| t in tags && IsOurTag(t) {
      var k :| 0 <= k < |tags| && tags[k] == t;
    }
  }

  // ----- what each mutation may be about

  ghost predicate OwnsInstance(a: Account, vpc: string, id: string) {
    exists i :: i in a.instances && i.id == id && i.vpc == vpc && IsCloudNet(i.tags)
  }

  ghost predicate OwnsGroup(a: Account, vpc: string, id: string) {
    exists g :: g in a.groups && g.id == id && g.vpc == vpc && g.name == "cloudnet-sg" && IsCloudNet(g.tags)
  }

  ghost predicate OwnsAssociation(a: Account, vpc: string, id: string) {
    exists r, s :: r in a.routeTables && r.vpc == vpc && IsCloudNet(r.tags)
                   && s in r.associations && s.id == id && !s.main
  }

  ghost predicate OwnsRouteTable(a: Account, vpc: string, id: string) {
    exists r :: r in a.routeTables && r.id == id && r.vpc == vpc && IsCloudNet(r.tags)
  }

  ghost predicate OwnsGateway(a: Account, vpc: string, id: string) {
    exists g :: g in a.gateways && g.id == id && vpc in g.attachedTo && IsCloudNet(g.tags)
  }

  ghost predicate OwnsSubnet(a: Account, vpc: string, id: string) {
    exists s :: s in a.subnets && s.id == id && s.vpc == vpc && IsCloudNet(s.tags)
  }

  /** The VPC itself: found, not the default one, and CloudNet's. */
  ghost predicate OwnsVpc(a: Account, vpc: string) {
    exists v :: v in a.vpcs && v.id == vpc && !v.isDefault && IsCloudNet(v.tags)
  }

  /** A mutation concerns nothing but CloudNet-tagged parts of this VPC. */
  ghost predicate Permitted(a: Account, vpc: string, m: Mutation) {
    match m
    case TerminateInstances(ids) => forall id :: id in ids ==> OwnsInstance(a, vpc, id)
    case DeleteGroup(id) => OwnsGroup(a, vpc, id)
    case Disassociate(id) => OwnsAssociation(a, vpc, id)
    case DeleteRouteTable(id) => OwnsRouteTable(a, vpc, id)
    case DetachGateway(id, from) => OwnsGateway(a, vpc, id) && from == vpc
    case DeleteGateway(id) => OwnsGateway(a, vpc, id)
    case DeleteSubnet(id) => OwnsSubnet(a, vpc, id)
    case DeleteVpc(id) => id == vpc && OwnsVpc(a, vpc)
  }

  ghost predicate NoForeignInstance(a: Account, vpc: string) {
    forall i :: i in a.instances && i.vpc == vpc && i.live ==> IsCloudNet(i.tags)
  }

  ghost predicate AllSubnetsOwned(a: Account, vpc: string) {
    forall s :: s in a.subnets && s.vpc == vpc ==> IsCloudNet(s.tags)
  }

  // ----- the account as a service

  /**
   Calls on the account.  `faults` says which future calls raise; a raising call changes
   nothing.  Groups, tables, gateways and subnets of the VPC are listed when their
   turn comes; no call of the teardown adds any.
   */
  class Ec2 {
    const account: Account
    var faults: seq<bool>
    ghost var log: seq<Mutation>

    constructor (account: Account, faults: seq<bool>)
      ensures this.account == account && this.faults == faults && log == []
    {
      this.account, this.faults, this.log := account, faults, [];
    }

    method Perform(m: Mutation) returns (ok: bool)
      modifies this
      ensures log == if ok then old(log) + [m] else old(log)
      ensures old(faults) == [] ==> ok && faults == []
    {
      ok := faults == [] || !faults[0];
      faults := if faults == [] then [] else faults[1..];
      if ok { log := log + [m]; }
    }

    /** A call that only reads or waits. */
    method Consult() returns (ok: bool)
      modifies this`faults
      ensures old(faults) == [] ==> ok && faults == []
    {
      ok := faults == [] || !faults[0];
      faults := if faults == [] then [] else faults[1..];
    }

    method InstancesForVpc(vpc: string) returns (found: seq<Instance>)
      ensures forall i :: i in found <==> i in account.instances && i.vpc == vpc && i.live
    {
      found := [];
      var k := 0;
      while k < |account.instances|
        invariant 0 <= k <= |account.instances|
        invariant forall i :: i in found <==> i in account.instances[..k] && i.vpc == vpc && i.live
      {
        var i := account.instances[k];
        assert account.instances[..k + 1] == account.instances[..k] + [i];
        if i.vpc == vpc && i.live { found := found + [i]; }
        k := k + 1;
      }
      assert account.instances[..k] == account.instances;
    }

    method SubnetsForVpc(vpc: string) returns (found: seq<Subnet>)
      ensures forall s :: s in found <==> s in account.subnets && s.vpc == vpc
    {
      found := [];
      var k := 0;
      while k < |account.subnets|
        invariant 0 <= k <= |account.subnets|
        invariant forall s :: s in found <==> s in account.subnets[..k] && s.vpc == vpc
      {
        var s := account.subnets[k];
        assert account.subnets[..k + 1] == account.subnets[..k] + [s];
        if s.vpc == vpc { found := found + [s]; }
        k := k + 1;
      }
      assert account.subnets[..k] == account.subnets;
    }
  }

  /** The order of a teardown: instances, groups, route tables, gateways, subnets, VPC. */
  function Phase(m: Mutation): nat {
    match m
    case TerminateInstances(_) => 0
    case DeleteGroup(_) => 1
    case Disassociate(_) => 2
    case DeleteRouteTable(_) => 2
    case DetachGateway(_, _) => 3
    case DeleteGateway(_) => 3
    case DeleteSubnet(_) => 4
    case DeleteVpc(_) => 5
  }

  /** Since `n` the phases follow each other, up to `last`. */
  ghost predicate InPhases(log: seq<Mutation>, n: nat, last: nat) {
    && n <= |log|
    && (forall i, j :: n <= i <= j < |log| ==> Phase(log[i]) <= Phase(log[j]))
    && (forall i :: n <= i < |log| ==> Phase(log[i]) <= last)
  }

  ghost predicate OnlyPhase(log: seq<Mutation>, n: nat, phase: nat) {
    n <= |log| && forall i :: n <= i < |log| ==> Phase(log[i]) == phase
  }

  lemma NextPhase(log: seq<Mutation>, log': seq<Mutation>, n: nat, last: nat, phase: nat)
    requires log <= log' && InPhases(log, n, last) && OnlyPhase(log', |log|, phase) && last <= phase
    ensures InPhases(log', n, phase)
  {
    hide Phase;
    assert forall i :: 0 <= i < |log| ==> log'[i] == log[i];
  }

  lemma AnyPhase(log: seq<Mutation>, n: nat, last: nat, later: nat)
    requires InPhases(log, n, last) && last <= later
    ensures InPhases(log, n, later)
  {
  }

  /** `a` and later `b`. */
  ghost predicate DidBefore(log: seq<Mutation>, n: nat, a: Mutation, b: Mutation) {
    exists i, j :: n <= i < j < |log| && log[i] == a && log[j] == b
  }

  lemma DidBeforeNext(log: seq<Mutation>, n: nat, b: Mutation)
    requires n <= |log|
    ensures forall a :: Did(log, n, a) ==> DidBefore(log + [b], n, a, b)
  {
    var log' := log + [b];
    forall a | Did(log, n, a) ensures DidBefore(log', n, a, b) {
      var i :| n <= i < |log| && log[i] == a;
      assert log'[i] == a && log'[|log|] == b;
    }
  }

  /** Everything logged since `n` is permitted, and is neither a subnet nor the VPC. */
  ghost predicate InnerWork(a: Account, vpc: string, log: seq<Mutation>, n: nat) {
    && n <= |log|
    && forall i :: n <= i < |log| ==> Permitted(a, vpc, log[i]) && !log[i].DeleteSubnet? && !log[i].DeleteVpc?
  }

  /** Ids of the live instances, or nothing at all if one of them is not CloudNet's. */
  method CloudNetInstanceIds(ec2: Ec2, vpc: string) returns (ids: Option<seq<string>>)
    ensures ids.Some? <==> NoForeignInstance(ec2.account, vpc)
    ensures ids.Some? ==> forall id :: id in ids.value ==> OwnsInstance(ec2.account, vpc, id)
    ensures ids.Some? ==> forall i :: i in ec2.account.instances && i.vpc == vpc && i.live ==> i.id in ids.value
  {
    var found := ec2.InstancesForVpc(vpc);
    var result := [];
    var k := 0;
    while k < |found|
      invariant 0 <= k <= |found|
      invariant forall j :: 0 <= j < k ==> IsCloudNet(found[j].tags)
      invariant forall id :: id in result ==> OwnsInstance(ec2.account, vpc, id)
      invariant forall j :: 0 <= j < k ==> found[j].id in result
    {
      assert found[k] in found;
      if !IsCloudNet(found[k].tags) { return None; }
      result := result + [found[k].id];
      k := k + 1;
    }
    return Some(result);
  }

  predicate OurGroup(g: Group, vpc: string) {
    g.vpc == vpc && g.name == "cloudnet-sg"
  }

  ghost predicate Did(log: seq<Mutation>, n: nat, m: Mutation) {
    exists j :: n <= j < |log| && log[j] == m
  }

  lemma DidNext(log: seq<Mutation>, log': seq<Mutation>, n: nat, m: Mutation)
    requires n <= |log| && log' == log + [m]
    ensures Did(log', n, m) && forall o :: Did(log, n, o) ==> Did(log', n, o)
    ensures forall a :: Did(log, n, a) ==> DidBefore(log', n, a, m)
    ensures forall a, b :: DidBefore(log, n, a, b) ==> DidBefore(log', n, a, b)
  {
    DidBeforeNext(log, n, m);
    assert log'[|log|] == m;
    DidStay(log, log', n, n);
  }

  lemma DidStay(log: seq<Mutation>, log': seq<Mutation>, n: nat, n': nat)
    requires log <= log' && n' <= n
    ensures forall o :: Did(log, n, o) ==> Did(log', n', o)
    ensures forall a, b :: DidBefore(log, n, a, b) ==> DidBefore(log', n', a, b)
  {
    forall o | Did(log, n, o) ensures Did(log', n', o) {
      var j :| n <= j < |log| && log[j] == o;
      assert log'[j] == o;
    }
    forall a, b | DidBefore(log, n, a, b) ensures DidBefore(log', n', a, b) {
      var i, j :| n <= i < j < |log| && log[i] == a && log[j] == b;
      assert log'[i] == a && log'[j] == b;
    }
  }

  method DeleteSecurityGroups(ec2: Ec2, vpc: string) returns (ok: bool)
    modifies ec2
    ensures old(ec2.log) <= ec2.log && InnerWork(ec2.account, vpc, ec2.log, |old(ec2.log)|)
    ensures OnlyPhase(ec2.log, |old(ec2.log)|, 1)
    ensures ok ==> forall g :: g in ec2.account.groups && OurGroup(g, vpc) ==>
              Did(ec2.log, |old(ec2.log)|, DeleteGroup(g.id))
    ensures old(ec2.faults) == [] ==>
              ec2.faults == []
                && (ok <==> forall g :: g in ec2.account.groups && OurGroup(g, vpc) ==> IsCloudNet(g.tags))
  {
    hide Did, DidBefore, IsCloudNet;
    var k := 0;
    while k < |ec2.account.groups|
      invariant 0 <= k <= |ec2.account.groups| && old(ec2.log) <= ec2.log
      invariant forall j :: 0 <= j < k && OurGroup(ec2.account.groups[j], vpc) ==>
                  IsCloudNet(ec2.account.groups[j].tags)
                    && Did(ec2.log, |old(ec2.log)|, DeleteGroup(ec2.account.groups[j].id))
      invariant old(ec2.faults) == [] ==> ec2.faults == []
      invariant InnerWork(ec2.account, vpc, ec2.log, |old(ec2.log)|) && OnlyPhase(ec2.log, |old(ec2.log)|, 1)
    {
      var g := ec2.account.groups[k];
      if g.vpc == vpc && g.name == "cloudnet-sg" {
        if !IsCloudNet(g.tags) { return false; }
        assert OwnsGroup(ec2.account, vpc, g.id);
        ghost var before := ec2.log;
        ok := ec2.Perform(DeleteGroup(g.id));
        if !ok { return; }
        DidNext(before, ec2.log, |old(ec2.log)|, DeleteGroup(g.id));
      }
      k := k + 1;
    }
    ok := true;
  }

  ghost predicate TableGone(log: seq<Mutation>, n: nat, vpc: string, r: RouteTable) {
    r.vpc == vpc && IsCloudNet(r.tags) ==>
      && Did(log, n, DeleteRouteTable(r.id))
      && forall s :: s in r.associations && Detachable(s) ==>
           DidBefore(log, n, Disassociate(s.id), DeleteRouteTable(r.id))
  }

  predicate Detachable(s: Association) {
    !s.main && s.id != ""
  }

  method DeleteRouteTables(ec2: Ec2, vpc: string) returns (ok: bool)
    modifies ec2
    ensures old(ec2.log) <= ec2.log && InnerWork(ec2.account, vpc, ec2.log, |old(ec2.log)|)
    ensures OnlyPhase(ec2.log, |old(ec2.log)|, 2)
    ensures ok ==> forall r :: r in ec2.account.routeTables ==> TableGone(ec2.log, |old(ec2.log)|, vpc, r)
    ensures old(ec2.faults) == [] ==> ok && ec2.faults == []
  {
    hide Did, DidBefore;
    var k := 0;
    while k < |ec2.account.routeTables|
      invariant 0 <= k <= |ec2.account.routeTables| && old(ec2.log) <= ec2.log
      invariant OnlyPhase(ec2.log, |old(ec2.log)|, 2)
      invariant InnerWork(ec2.account, vpc, ec2.log, |old(ec2.log)|)
      invariant forall j :: 0 <= j < k ==> TableGone(ec2.log, |old(ec2.log)|, vpc, ec2.account.routeTables[j])
      invariant old(ec2.faults) == [] ==> ec2.faults == []
    {
      var r := ec2.account.routeTables[k];
      if r.vpc == vpc && IsCloudNet(r.tags) {
        assert r in ec2.account.routeTables;
        ghost var before := ec2.log;
        ok := Disassociations(ec2, vpc, r);
        if !ok { return; }
        DidStay(before, ec2.log, |old(ec2.log)|, |old(ec2.log)|);
        DidStay(ec2.log, ec2.log, |before|, |old(ec2.log)|);
        before := ec2.log;
        assert OwnsRouteTable(ec2.account, vpc, r.id);
        ok := ec2.Perform(DeleteRouteTable(r.id));
        if !ok { return; }
        DidNext(before, ec2.log, |old(ec2.log)|, DeleteRouteTable(r.id));
      }
      k := k + 1;
    }
    ok := true;
  }

  method Disassociations(ec2: Ec2, vpc: string, r: RouteTable) returns (ok: bool)
    requires r in ec2.account.routeTables && r.vpc == vpc && IsCloudNet(r.tags)
    modifies ec2
    ensures old(ec2.log) <= ec2.log && InnerWork(ec2.account, vpc, ec2.log, |old(ec2.log)|)
    ensures OnlyPhase(ec2.log, |old(ec2.log)|, 2)
    ensures ok ==> forall s :: s in r.associations && Detachable(s) ==> Did(ec2.log, |old(ec2.log)|, Disassociate(s.id))
    ensures old(ec2.faults) == [] ==> ok && ec2.faults == []
  {
    hide Did, DidBefore;
    var j := 0;
    while j < |r.associations|
      invariant 0 <= j <= |r.associations| && old(ec2.log) <= ec2.log && OnlyPhase(ec2.log, |old(ec2.log)|, 2)
      invariant InnerWork(ec2.account, vpc, ec2.log, |old(ec2.log)|)
      invariant forall i :: 0 <= i < j && Detachable(r.associations[i]) ==>
                  Did(ec2.log, |old(ec2.log)|, Disassociate(r.associations[i].id))
      invariant old(ec2.faults) == [] ==> ec2.faults == []
    {
      var s := r.associations[j];
      if !s.main && s.id != "" {
        assert s in r.associations;
        assert OwnsAssociation(ec2.account, vpc, s.id);
        ghost var before := ec2.log;
        ok := ec2.Perform(Disassociate(s.id));
        if !ok { return; }
        DidNext(before, ec2.log, |old(ec2.log)|, Disassociate(s.id));
      }
      j := j + 1;
    }
    ok := true;
  }

  ghost predicate GatewayGone(log: seq<Mutation>, n: nat, vpc: string, g: Gateway) {
    vpc in g.attachedTo && IsCloudNet(g.tags) ==>
      DidBefore(log, n, DetachGateway(g.id, vpc), DeleteGateway(g.id))
  }

  method DeleteInternetGateways(ec2: Ec2, vpc: string) returns (ok: bool)
    modifies ec2
    ensures old(ec2.log) <= ec2.log && InnerWork(ec2.account, vpc, ec2.log, |old(ec2.log)|)
    ensures OnlyPhase(ec2.log, |old(ec2.log)|, 3)
    ensures ok ==> forall g :: g in ec2.account.gateways ==> GatewayGone(ec2.log, |old(ec2.log)|, vpc, g)
    ensures old(ec2.faults) == [] ==> ok && ec2.faults == []
  {
    hide Did, DidBefore, InnerWork, IsCloudNet;
    ghost var n := |ec2.log|;
    InnerWorkBegins(ec2.account, vpc, ec2.log);
    var k := 0;
    while k < |ec2.account.gateways|
      invariant 0 <= k <= |ec2.account.gateways| && old(ec2.log) <= ec2.log
      invariant forall j :: 0 <= j < k ==> GatewayGone(ec2.log, n, vpc, ec2.account.gateways[j])
      invariant old(ec2.faults) == [] ==> ec2.faults == []
      invariant InnerWork(ec2.account, vpc, ec2.log, n) && OnlyPhase(ec2.log, n, 3)
    {
      var g := ec2.account.gateways[k];
      if vpc in g.attachedTo && IsCloudNet(g.tags) {
        assert OwnsGateway(ec2.account, vpc, g.id);
        ghost var before := ec2.log;
        ok := ec2.Perform(DetachGateway(g.id, vpc));
        if !ok { return; }
        DidNext(before, ec2.log, n, DetachGateway(g.id, vpc));
        InnerWorkNext(ec2.account, vpc, before, DetachGateway(g.id, vpc), n);
        before := ec2.log;
        ok := ec2.Perform(DeleteGateway(g.id));
        if !ok { return; }
        DidNext(before, ec2.log, n, DeleteGateway(g.id));
        InnerWorkNext(ec2.account, vpc, before, DeleteGateway(g.id), n);
      }
      k := k + 1;
    }
    ok := true;
  }

  /**
   The whole log of a teardown, wherever it stopped: permitted work inside the VPC, then
   subnets, then the VPC, which goes only after every listed subnet.
   */
  ghost predicate SafeTeardown(a: Account, vpc: string, log: seq<Mutation>, n: nat) {
    && n <= |log|
    && (forall i :: n <= i < |log| ==> Permitted(a, vpc, log[i]))
    && (n < |log| ==> OwnsVpc(a, vpc) && NoForeignInstance(a, vpc))
    && (forall i :: n <= i < |log| && log[i].DeleteSubnet? ==> AllSubnetsOwned(a, vpc))
    && (forall i :: n <= i < |log| && log[i].DeleteVpc? ==>
          i == |log| - 1 && forall s :: s in a.subnets && s.vpc == vpc ==> DeletedBetween(log, n, i, s.id))
  }

  ghost predicate DeletedBetween(log: seq<Mutation>, from: nat, to: nat, id: string)
    requires to <= |log|
  {
    exists j :: from <= j < to && log[j] == DeleteSubnet(id)
  }

  lemma DeletedStays(log: seq<Mutation>, log': seq<Mutation>, from: nat, to: nat, to': nat, id: string)
    requires log <= log' && to <= to' <= |log'| && to <= |log| && DeletedBetween(log, from, to, id)
    ensures DeletedBetween(log', from, to', id)
  {
    var j :| from <= j < to && log[j] == DeleteSubnet(id);
    assert log'[j] == log[j];
  }

  method FindVpc(a: Account, vpc: string) returns (found: Option<Vpc>)
    ensures found.Some? ==> found.value in a.vpcs && found.value.id == vpc
    ensures found.None? ==> forall v :: v in a.vpcs ==> v.id != vpc
  {
    var k := 0;
    while k < |a.vpcs|
      invariant 0 <= k <= |a.vpcs| && forall j :: 0 <= j < k ==> a.vpcs[j].id != vpc
    {
      if a.vpcs[k].id == vpc { return Some(a.vpcs[k]); }
      k := k + 1;
    }
    return None;
  }

  method DeleteSubnets(ec2: Ec2, vpc: string, subnets: seq<Subnet>, ghost n: nat) returns (ok: bool)
    requires InnerWork(ec2.account, vpc, ec2.log, n) && OwnsVpc(ec2.account, vpc) && NoForeignInstance(ec2.account, vpc)
    requires forall s :: s in subnets <==> s in ec2.account.subnets && s.vpc == vpc
    requires AllSubnetsOwned(ec2.account, vpc)
    modifies ec2
    ensures OnlyPhase(ec2.log, |old(ec2.log)|, 4)
    ensures old(ec2.log) <= ec2.log && SafeTeardown(ec2.account, vpc, ec2.log, n)
    ensures forall i :: n <= i < |ec2.log| ==> !ec2.log[i].DeleteVpc?
    ensures ok ==> forall s :: s in subnets ==> DeletedBetween(ec2.log, n, |ec2.log|, s.id)
    ensures old(ec2.faults) == [] ==> ok && ec2.faults == []
  {
    var k := 0;
    while k < |subnets|
      invariant 0 <= k <= |subnets| && old(ec2.log) <= ec2.log && n <= |ec2.log|
      invariant OnlyPhase(ec2.log, |old(ec2.log)|, 4)
      invariant forall i :: n <= i < |ec2.log| ==> Permitted(ec2.account, vpc, ec2.log[i]) && !ec2.log[i].DeleteVpc?
      invariant forall j :: 0 <= j < k ==> DeletedBetween(ec2.log, n, |ec2.log|, subnets[j].id)
      invariant old(ec2.faults) == [] ==> ec2.faults == []
    {
      assert subnets[k] in subnets;
      assert OwnsSubnet(ec2.account, vpc, subnets[k].id);
      ghost var before := ec2.log;
      ok := ec2.Perform(DeleteSubnet(subnets[k].id));
      if !ok { return; }
      assert ec2.log[|before|] == DeleteSubnet(subnets[k].id);
      forall j | 0 <= j < k ensures DeletedBetween(ec2.log, n, |ec2.log|, subnets[j].id) {
        DeletedStays(before, ec2.log, n, |before|, |ec2.log|, subnets[j].id);
      }
      k := k + 1;
    }
    ok := true;
  }

  /** Everything of ours inside the VPC has been terminated, detached or deleted since `n`. */
  ghost predicate Emptied(a: Account, vpc: string, log: seq<Mutation>, n: nat) {
    && (forall i :: i in a.instances && i.vpc == vpc && i.live ==>
          exists ids :: i.id in ids && Did(log, n, TerminateInstances(ids)))
    && (forall g :: g in a.groups && OurGroup(g, vpc) ==> Did(log, n, DeleteGroup(g.id)))
    && (forall r :: r in a.routeTables ==> TableGone(log, n, vpc, r))
    && (forall g :: g in a.gateways ==> GatewayGone(log, n, vpc, g))
  }

  ghost predicate NoForeignGroup(a: Account, vpc: string) {
    forall g :: g in a.groups && OurGroup(g, vpc) ==> IsCloudNet(g.tags)
  }

  lemma InnerWorkBegins(a: Account, vpc: string, log: seq<Mutation>)
    ensures InnerWork(a, vpc, log, |log|)
  {
  }

  /** All instances in one call, and a wait until they are gone. */
  method TerminateAll(ec2: Ec2, vpc: string, ids: seq<string>) returns (ok: bool)
    requires forall id :: id in ids ==> OwnsInstance(ec2.account, vpc, id)
    modifies ec2
    ensures old(ec2.log) <= ec2.log && InnerWork(ec2.account, vpc, ec2.log, |old(ec2.log)|)
    ensures InPhases(ec2.log, |old(ec2.log)|, 0)
    ensures ok && ids != [] ==> Did(ec2.log, |old(ec2.log)|, TerminateInstances(ids))
    ensures old(ec2.faults) == [] ==> ok && ec2.faults == []
  {
    hide OwnsInstance;
    if ids == [] { return true; }
    ghost var before := ec2.log;
    ok := ec2.Perform(TerminateInstances(ids));
    if !ok { return; }
    DidNext(before, ec2.log, |before|, TerminateInstances(ids));
    ok := ec2.Consult();
  }

  /** Instances, then groups, route tables and gateways. */
  method DeleteInside(ec2: Ec2, vpc: string, ids: seq<string>) returns (ok: bool)
    requires forall id :: id in ids ==> OwnsInstance(ec2.account, vpc, id)
    requires forall i :: i in ec2.account.instances && i.vpc == vpc && i.live ==> i.id in ids
    modifies ec2
    ensures old(ec2.log) <= ec2.log && InnerWork(ec2.account, vpc, ec2.log, |old(ec2.log)|)
    ensures InPhases(ec2.log, |old(ec2.log)|, 3)
    ensures ok ==> Emptied(ec2.account, vpc, ec2.log, |old(ec2.log)|)
    ensures old(ec2.faults) == [] ==> ec2.faults == [] && (ok <==> NoForeignGroup(ec2.account, vpc))
  {
    hide OwnsInstance, OwnsGroup, OwnsAssociation, OwnsRouteTable, OwnsGateway, OwnsSubnet, OwnsVpc, IsCloudNet, Did,
         DidBefore, Emptied, TableGone, GatewayGone, OurGroup;
    ghost var n := |ec2.log|;
    hide InnerWork, OnlyPhase, InPhases;
    ok := TerminateAll(ec2, vpc, ids);
    AnyPhase(ec2.log, n, 0, 3);
    if !ok { return; }
    ghost var log1 := ec2.log;
    ok := ec2.Consult();
    if !ok { return; }
    ok := DeleteSecurityGroups(ec2, vpc);
    NextPhase(log1, ec2.log, n, 0, 1);
    AnyPhase(ec2.log, n, 1, 3);
    InnerWorkJoins(ec2.account, vpc, log1, ec2.log, n);
    if !ok { return; }
    ghost var log2 := ec2.log;
    ok := ec2.Consult();
    if !ok { return; }
    ok := DeleteRouteTables(ec2, vpc);
    NextPhase(log2, ec2.log, n, 1, 2);
    AnyPhase(ec2.log, n, 2, 3);
    InnerWorkJoins(ec2.account, vpc, log2, ec2.log, n);
    if !ok { return; }
    ghost var log3 := ec2.log;
    ok := ec2.Consult();
    if !ok { return; }
    ok := DeleteInternetGateways(ec2, vpc);
    NextPhase(log3, ec2.log, n, 2, 3);
    InnerWorkJoins(ec2.account, vpc, log3, ec2.log, n);
    if ok {
      AllInsideGone(ec2.account, vpc, ids, log1, log2, log3, ec2.log, n);
    }
  }

  lemma InnerWorkJoins(a: Account, vpc: string, log: seq<Mutation>, log': seq<Mutation>, n: nat)
    requires InnerWork(a, vpc, log, n) && log <= log' && InnerWork(a, vpc, log', |log|)
    ensures InnerWork(a, vpc, log', n)
  {
    hide Permitted;
    assert forall i :: n <= i < |log| ==> log'[i] == log[i];
  }

  lemma InnerWorkNext(a: Account, vpc: string, log: seq<Mutation>, m: Mutation, n: nat)
    requires InnerWork(a, vpc, log, n) && Permitted(a, vpc, m) && !m.DeleteSubnet? && !m.DeleteVpc?
    ensures InnerWork(a, vpc, log + [m], n)
  {
    hide Permitted;
  }

  lemma AllInsideGone(a: Account, vpc: string, ids: seq<string>, log1: seq<Mutation>, log2: seq<Mutation>,
                      log3: seq<Mutation>, log4: seq<Mutation>, n: nat)
    requires n <= |log1| && log1 <= log2 <= log3 <= log4
    requires forall i :: i in a.instances && i.vpc == vpc && i.live ==> i.id in ids
    requires ids != [] ==> Did(log1, n, TerminateInstances(ids))
    requires forall g :: g in a.groups && OurGroup(g, vpc) ==> Did(log2, |log1|, DeleteGroup(g.id))
    requires forall r :: r in a.routeTables ==> TableGone(log3, |log2|, vpc, r)
    requires forall g :: g in a.gateways ==> GatewayGone(log4, |log3|, vpc, g)
    ensures Emptied(a, vpc, log4, n)
  {
    hide Did, DidBefore, OurGroup, IsCloudNet, Detachable;
    DidStay(log1, log4, n, n);
    DidStay(log2, log4, |log1|, n);
    DidStay(log3, log4, |log2|, n);
    DidStay(log4, log4, |log3|, n);
  }

  /** Nothing about the VPC would make the teardown refuse. */
  ghost predicate Removable(a: Account, vpc: string) {
    && OwnsVpc(a, vpc) && (forall v :: v in a.vpcs && v.id == vpc ==> !v.isDefault && IsCloudNet(v.tags))
    && NoForeignInstance(a, vpc) && NoForeignGroup(a, vpc) && AllSubnetsOwned(a, vpc)
  }

  /**
   Tear a VPC down.  Refusals and failures stop it; everything it did before is safe.  Success
   means that the VPC went last and nothing of ours is left inside; without failing calls a
   removable VPC is always removed.
   */
  method DeleteNetwork(ec2: Ec2, vpc: string) returns (ok: bool)
    modifies ec2
    ensures old(ec2.log) <= ec2.log && SafeTeardown(ec2.account, vpc, ec2.log, |old(ec2.log)|)
    ensures InPhases(ec2.log, |old(ec2.log)|, 5)
    ensures ok ==> && |ec2.log| > |old(ec2.log)| && ec2.log[|ec2.log| - 1] == DeleteVpc(vpc)
                   && Emptied(ec2.account, vpc, ec2.log, |old(ec2.log)|)
    ensures old(ec2.faults) == [] && Removable(ec2.account, vpc) ==> ok
    ensures (forall v :: v in ec2.account.vpcs && v.id == vpc ==> v.isDefault || !SaysCloudNet(v.tags)) ==>
              ec2.log == old(ec2.log)
  {
    hide OwnsInstance, OwnsGroup, OwnsAssociation, OwnsRouteTable, OwnsGateway, OwnsSubnet, NoForeignInstance,
         NoForeignGroup, TagValue, Did;
    NothingDone(ec2.account, vpc, ec2.log);
    hide SafeTeardown, InPhases, OnlyPhase, InnerWork, Emptied;
    ok := ec2.Consult();
    if !ok { return; }
    var found := FindVpc(ec2.account, vpc);
    if found.None? || found.value.isDefault || !IsCloudNet(found.value.tags) { return false; }
    assert OwnsVpc(ec2.account, vpc);
    CloudNetNeedsTag(found.value.tags);
    hide OwnsVpc, Permitted, IsCloudNet, SaysCloudNet;
    ok := ec2.Consult();
    if !ok { return; }
    var ids := CloudNetInstanceIds(ec2, vpc);
    if ids.None? { return false; }
    ok := DeleteInside(ec2, vpc, ids.value);
    ghost var inside := ec2.log;
    InnerWorkIsSafe(ec2.account, vpc, inside, |old(ec2.log)|);
    AnyPhase(inside, |old(ec2.log)|, 3, 5);
    if !ok { return; }
    ok := ec2.Consult();
    if !ok { return; }
    var subnets := ec2.SubnetsForVpc(vpc);
    if exists s :: s in subnets && !IsCloudNet(s.tags) { return false; }
    ok := DeleteSubnets(ec2, vpc, subnets, |old(ec2.log)|);
    ghost var before := ec2.log;
    NextPhase(inside, before, |old(ec2.log)|, 3, 4);
    AnyPhase(before, |old(ec2.log)|, 4, 5);
    if !ok { return; }
    ok := ec2.Perform(DeleteVpc(vpc));
    if ok {
      VpcIsLastPhase(before, vpc, |old(ec2.log)|);
      VpcGoesLast(ec2.account, vpc, before, ec2.log, |old(ec2.log)|);
      EmptiedStays(ec2.account, vpc, inside, ec2.log, |old(ec2.log)|);
    }
  }

  lemma NothingDone(a: Account, vpc: string, log: seq<Mutation>)
    ensures SafeTeardown(a, vpc, log, |log|) && InPhases(log, |log|, 5)
  {
  }

  lemma InnerWorkIsSafe(a: Account, vpc: string, log: seq<Mutation>, n: nat)
    requires InnerWork(a, vpc, log, n) && OwnsVpc(a, vpc) && NoForeignInstance(a, vpc)
    ensures SafeTeardown(a, vpc, log, n)
  {
    hide Permitted, OwnsVpc, NoForeignInstance;
  }

  lemma VpcIsLastPhase(log: seq<Mutation>, vpc: string, n: nat)
    requires InPhases(log, n, 4)
    ensures InPhases(log + [DeleteVpc(vpc)], n, 5)
  {
    NextPhase(log, log + [DeleteVpc(vpc)], n, 4, 5);
  }

  lemma EmptiedStays(a: Account, vpc: string, log: seq<Mutation>, log': seq<Mutation>, n: nat)
    requires Emptied(a, vpc, log, n) && log <= log'
    ensures Emptied(a, vpc, log', n)
  {
    hide Did, DidBefore, IsCloudNet, OurGroup;
    DidStay(log, log', n, n);
  }

  lemma VpcGoesLast(a: Account, vpc: string, log: seq<Mutation>, log': seq<Mutation>, n: nat)
    requires SafeTeardown(a, vpc, log, n) && OwnsVpc(a, vpc) && NoForeignInstance(a, vpc)
    requires forall i :: n <= i < |log| ==> !log[i].DeleteVpc?
    requires forall s :: s in a.subnets && s.vpc == vpc ==> DeletedBetween(log, n, |log|, s.id)
    requires log' == log + [DeleteVpc(vpc)]
    ensures SafeTeardown(a, vpc, log', n)
  {
    hide OwnsVpc, NoForeignInstance, AllSubnetsOwned;
    forall s | s in a.subnets && s.vpc == vpc ensures DeletedBetween(log', n, |log|, s.id) {
      DeletedStays(log, log', n, |log|, |log|, s.id);
    }
  }

  /** A default, foreign or missing VPC, or a foreign live instance inside it, is never touched. */
  lemma RefusedVpcIsUntouched(a: Account, vpc: string, log: seq<Mutation>, n: nat)
    requires SafeTeardown(a, vpc, log, n)
    requires (forall v :: v in a.vpcs && v.id == vpc ==> v.isDefault || !IsCloudNet(v.tags))
          || !NoForeignInstance(a, vpc)
    ensures |log| == n
  {
    hide NoForeignInstance, Permitted;
    if OwnsVpc(a, vpc) {
      var v :| v in a.vpcs && v.id == vpc && !v.isDefault && IsCloudNet(v.tags);
    }
  }

  /** An untagged subnet keeps every subnet and the VPC in place. */
  lemma UntaggedSubnetKeepsVpc(a: Account, vpc: string, log: seq<Mutation>, n: nat, s: Subnet)
    requires SafeTeardown(a, vpc, log, n) && s in a.subnets && s.vpc == vpc && !IsCloudNet(s.tags)
    ensures forall i :: n <= i < |log| ==> !log[i].DeleteSubnet? && !log[i].DeleteVpc?
  {
    hide Permitted;
    forall i | n <= i < |log| ensures log[i].DeleteVpc? ==> DeletedBetween(log, n, i, s.id) {}
  }
}
