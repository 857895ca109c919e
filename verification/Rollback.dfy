/**
 A failed deploy gives back what it took: on a provider that refuses to delete anything a
 live resource depends on, whatever prefix of the plan was created is torn down completely.
 */
module Rollback {
  import opened Wrappers
  import opened Sorting
  import opened ChainGraph
  import opened Topology
  import opened ProviderRetry
  import opened Providers
  import opened LocalState
  import opened ResourceTypes
  import opened Deployment

  // ----- rows of one topology among all rows

  lemma RowsOfAppend(rows: seq<Row>, r: Row, t: nat)
    ensures RowsOf(rows + [r], t) == if r.topologyId == t then RowsOf(rows, t) + [r] else RowsOf(rows, t)
    ensures WithoutRowsOf(rows + [r], t)
              == if r.topologyId != t then WithoutRowsOf(rows, t) + [r] else WithoutRowsOf(rows, t)
  {
    assert (rows + [r])[..|rows|] == rows;
  }

  lemma {:induction false} RowsOfAdded(rows: seq<Row>, t: nat, hs: seq<Handle>)
    ensures HandlesOf(RowsOf(AddRows(rows, t, hs), t)) == HandlesOf(RowsOf(rows, t)) + hs
    ensures forall u :: u != t ==> RowsOf(AddRows(rows, t, hs), u) == RowsOf(rows, u)
    ensures WithoutRowsOf(AddRows(rows, t, hs), t) == WithoutRowsOf(rows, t)
  {
    hide RowsOf, WithoutRowsOf;
    if hs == [] {
      assert HandlesOf(RowsOf(rows, t)) + hs == HandlesOf(RowsOf(rows, t));
    } else {
      var k := |hs| - 1;
      RowsOfAdded(rows, t, hs[..k]);
      var before := AddRows(rows, t, hs[..k]);
      var added := Row(NextRowId(before), t, hs[k].rtype, hs[k].name, hs[k].rid);
      forall u ensures u != t ==> RowsOf(before + [added], u) == RowsOf(before, u) {
        RowsOfAppend(before, added, u);
      }
      RowsOfAppend(before, added, t);
      assert HandlesOf(RowsOf(before, t) + [added]) == HandlesOf(RowsOf(before, t)) + [hs[k]];
      assert hs == hs[..k] + [hs[k]];
    }
  }

  lemma {:induction false} RowsOfRemoved(rows: seq<Row>, t: nat)
    ensures RowsOf(WithoutRowsOf(rows, t), t) == []
    ensures forall u :: u != t ==> RowsOf(WithoutRowsOf(rows, t), u) == RowsOf(rows, u)
    ensures RowsOf(rows, t) == [] ==> WithoutRowsOf(rows, t) == rows
  {
    if rows != [] {
      hide RowsOf, WithoutRowsOf;
      var before, r := rows[..|rows| - 1], rows[|rows| - 1];
      assert rows == before + [r];
      RowsOfRemoved(before, t);
      RowsOfAppend(before, r, t);
      forall u | u != t ensures RowsOf(WithoutRowsOf(rows, t), u) == RowsOf(rows, u) {
        RowsOfAppend(before, r, u);
        RowsOfAppend(WithoutRowsOf(before, t), r, u);
      }
      RowsOfAppend(WithoutRowsOf(before, t), r, t);
    }
  }

  lemma {:induction false} AddedStayOrdered(rows: seq<Row>, t: nat, hs: seq<Handle>)
    requires Ordered(rows)
    ensures Ordered(AddRows(rows, t, hs))
  {
    if hs != [] { AddedStayOrdered(rows, t, hs[..|hs| - 1]); }
  }

  // ----- sorting keeps resources apart

  ghost predicate RidsDiffer(rows: seq<Row>) {
    forall i, j :: 0 <= i < j < |rows| ==> rows[i].rid != rows[j].rid
  }

  lemma {:induction false} DistinctIffSingle<T>(s: seq<T>)
    ensures Distinct(s) <==> forall x :: multiset(s)[x] <= 1
  {
    if s != [] {
      var k := |s| - 1;
      DistinctIffSingle(s[..k]);
      assert s == s[..k] + [s[k]];
      assert multiset(s) == multiset(s[..k]) + multiset{s[k]};
      if Distinct(s) {
        assert s[k] !in multiset(s[..k]);
      } else if Distinct(s[..k]) {
        assert s[k] in s[..k];
        assert multiset(s)[s[k]] >= 2;
      } else {
        var x :| multiset(s[..k])[x] > 1;
        assert multiset(s)[x] > 1;
      }
    }
  }

  lemma RidsDifferAfterSort(rows: seq<Row>)
    requires RidsDiffer(rows)
    ensures RidsDiffer(Sort(rows, DeleteFirst))
  {
    hide DeleteFirst;
    var sorted := Sort(rows, DeleteFirst);
    SortPermutes(rows, DeleteFirst);
    assert Distinct(rows);
    DistinctIffSingle(rows);
    DistinctIffSingle(sorted);
    forall i, j | 0 <= i < j < |sorted| ensures sorted[i].rid != sorted[j].rid {
      assert sorted[i] in rows && sorted[j] in rows && sorted[i] != sorted[j];
    }
  }

  lemma DeleteOrder()
    ensures Total(DeleteFirst) && Transitive(DeleteFirst)
  {
    hide Tier;
  }

  /**
   Instances go first, then subnets, then what is attached to a network, networks last; among
   equals the newest goes first, and rows without ids keep their order.
   */
  lemma TeardownOrder(rows: seq<Row>, rtype: string)
    ensures var ordered := Sort(rows, DeleteFirst);
            && multiset(ordered) == multiset(rows)
            && (forall i, j :: 0 <= i < j < |ordered| ==> GoesBefore(ordered[i], ordered[j]))
            && var unsaved := (r: Row) => r.id == 0 && r.rtype == rtype; Only(ordered, unsaved) == Only(rows, unsaved)
  {
    DeleteOrder();
    SortPermutes(rows, DeleteFirst);
    SortSorted(rows, DeleteFirst);
    hide Tier, Only;
    SortIsStable(rows, DeleteFirst, (r: Row) => r.id == 0 && r.rtype == rtype);
    var ordered := Sort(rows, DeleteFirst);
    forall i, j | 0 <= i < j < |ordered| ensures GoesBefore(ordered[i], ordered[j]) {
      assert DeleteFirst(ordered[i], ordered[j]);
      OrderByType(ordered[i], ordered[j]);
    }
  }

  const ATTACHMENT_TYPES := {"aws_security_group", "aws_internet_gateway", "aws_route_table",
                             "aws_route_table_association"}

  ghost predicate GoesBefore(a: Row, b: Row) {
    && (b.rtype in INSTANCE_RESOURCE_TYPES ==> a.rtype in INSTANCE_RESOURCE_TYPES)
    && (b.rtype in SUBNET_RESOURCE_TYPES ==> a.rtype in INSTANCE_RESOURCE_TYPES + SUBNET_RESOURCE_TYPES)
    && (b.rtype in ATTACHMENT_TYPES ==> a.rtype in INSTANCE_RESOURCE_TYPES + SUBNET_RESOURCE_TYPES + ATTACHMENT_TYPES)
    && (a.rtype in NETWORK_RESOURCE_TYPES + {"aws_vpc"} ==> b.rtype in NETWORK_RESOURCE_TYPES + {"aws_vpc"})
    && (a.rtype == b.rtype ==> a.id >= b.id)
  }

  lemma OrderByType(a: Row, b: Row)
    requires DeleteFirst(a, b)
    ensures GoesBefore(a, b)
  {
  }

  /** Each id deleted in turn, and none refused. */
  ghost predicate NeverRefused(p: State, ids: seq<string>) {
    exists ps :: IsDeletion(p, ids, ps)
  }

  ghost predicate IsDeletion(p: State, ids: seq<string>, ps: seq<State>) {
    |ps| == |ids| + 1 && ps[0] == p && forall i :: 0 <= i < |ids| ==> DeletesTo(ps[i], ids[i], ps[i + 1])
  }

  ghost predicate DeletesTo(p: State, id: string, p': State) {
    Delete(p, id) == (p', true)
  }

  function RidsOf(rows: seq<Row>): seq<string> {
    seq(|rows|, i requires 0 <= i < |rows| => rows[i].rid)
  }

  /**
   A teardown deletes in order until a delete is refused: `ps` are the provider's states, all
   deletes but possibly the last one were accepted, and it succeeds if and only if none was refused.
   */
  lemma {:induction false} DeleteAllStopsAtRefusal(p: State, ordered: seq<Row>) returns (ps: seq<State>)
    ensures 1 <= |ps| <= |ordered| + 1 && ps[0] == p && ps[|ps| - 1] == DeleteAll(p, ordered).0
    ensures forall i :: 0 <= i < |ps| - 1 ==> ps[i + 1] == Delete(ps[i], ordered[i].rid).0
    ensures forall i :: 0 <= i < |ps| - 2 ==> DeletesTo(ps[i], ordered[i].rid, ps[i + 1])
    ensures if DeleteAll(p, ordered).1
            then |ps| == |ordered| + 1 && (ordered != [] ==> Delete(ps[|ps| - 2], ordered[|ps| - 2].rid).1)
            else |ps| >= 2 && !Delete(ps[|ps| - 2], ordered[|ps| - 2].rid).1
    decreases |ordered|
  {
    hide Delete;
    if ordered == [] {
      ps := [p];
    } else {
      var (p', ok) := Delete(p, ordered[0].rid);
      if ok {
        var rest := DeleteAllStopsAtRefusal(p', ordered[1..]);
        ps := [p] + rest;
        assert forall i :: 0 < i < |ps| ==> ps[i] == rest[i - 1];
        assert forall i :: 0 < i < |ordered| ==> ordered[i] == ordered[1..][i - 1];
      } else {
        ps := [p, p'];
      }
    }
  }

  lemma TeardownIffNeverRefused(p: State, rows: seq<Row>)
    ensures Teardown(p, rows).1 <==> NeverRefused(p, RidsOf(Sort(rows, DeleteFirst)))
  {
    hide DeleteFirst, Delete, Sort, DeleteAll;
    var ordered := Sort(rows, DeleteFirst);
    var ids := RidsOf(ordered);
    var ps := DeleteAllStopsAtRefusal(p, ordered);
    if Teardown(p, rows).1 {
      assert IsDeletion(p, ids, ps);
    } else if NeverRefused(p, ids) {
      var qs :| IsDeletion(p, ids, qs);
      assert DeletesTo(qs[|ps| - 2], ids[|ps| - 2], qs[|ps| - 1]);
      SameDeletes(ps, qs, ids, |ps| - 2);
      assert false;
    }
  }

  lemma {:induction false} SameDeletes(ps: seq<State>, qs: seq<State>, ids: seq<string>, n: nat)
    requires n < |ps| && n < |qs| && n <= |ids| && ps[0] == qs[0]
    requires forall i :: 0 <= i < n ==> DeletesTo(ps[i], ids[i], ps[i + 1]) && DeletesTo(qs[i], ids[i], qs[i + 1])
    ensures ps[n] == qs[n]
  {
    hide Delete;
    if n > 0 { SameDeletes(ps, qs, ids, n - 1); }
  }

  // ----- what a teardown needs

  /**
   `live` is `base` plus the resources of `rows`, and each of those depends only on
   resources of `rows` that are torn down later.
   */
  ghost predicate Holding(base: map<string, set<string>>, live: map<string, set<string>>, rows: seq<Row>) {
    && RidsDiffer(rows)
    && (forall x :: x in base ==> base[x] <= base.Keys && x in live && live[x] == base[x])
    && (forall r :: r in rows ==> r.rid in live && r.rid !in base)
    && (forall x :: x in live && x !in base ==> exists r :: r in rows && r.rid == x)
    && (forall r, d :: r in rows && d in live[r.rid] ==> Supports(rows, r, d))
  }

  ghost predicate Supports(rows: seq<Row>, r: Row, d: string) {
    exists q :: q in rows && q.rid == d && Tier(q.rtype) > Tier(r.rtype)
  }

  lemma {:induction false} OrderedTeardownEmpties(base: map<string, set<string>>, p: State, rows: seq<Row>)
    requires p.name.Cloud? && Holding(base, p.live, rows) && Sorted(rows, DeleteFirst)
    ensures DeleteAll(p, rows).1 && DeleteAll(p, rows).0.live == base
    decreases |rows|
  {
    if rows == [] {
      assert p.live.Keys == base.Keys;
    } else {
      HeadIsDeletable(base, p.live, rows);
      RestHolds(base, p.live, rows);
      RestSorted(rows);
      hide Holding, Deletable, Sorted;
      OrderedTeardownEmpties(base, Delete(p, rows[0].rid).0, rows[1..]);
    }
  }

  lemma RestSorted(rows: seq<Row>)
    requires rows != [] && Sorted(rows, DeleteFirst)
    ensures Sorted(rows[1..], DeleteFirst)
  {
    hide DeleteFirst;
  }

  lemma HeadIsDeletable(base: map<string, set<string>>, live: map<string, set<string>>, rows: seq<Row>)
    requires rows != [] && Holding(base, live, rows) && Sorted(rows, DeleteFirst)
    ensures Deletable(live, rows[0].rid)
  {
    var head := rows[0];
    assert head in rows;
    hide Tier, Sorted, RidsDiffer, Supports;
    forall x | x in live ensures head.rid !in live[x] {
      if x !in base {
        var r :| r in rows && r.rid == x;
        NotNeeded(rows, live, r);
      }
    }
  }

  lemma HeadTierLeast(rows: seq<Row>)
    requires rows != [] && Sorted(rows, DeleteFirst)
    ensures forall r :: r in rows ==> Tier(rows[0].rtype) <= Tier(r.rtype)
  {
    hide Tier;
    forall r | r in rows ensures Tier(rows[0].rtype) <= Tier(r.rtype) {
      var i :| 0 <= i < |rows| && rows[i] == r;
      if i > 0 { assert DeleteFirst(rows[0], rows[i]); }
    }
  }

  lemma NotNeeded(rows: seq<Row>, live: map<string, set<string>>, r: Row)
    requires rows != [] && Sorted(rows, DeleteFirst) && RidsDiffer(rows) && r in rows && r.rid in live
    requires forall d :: d in live[r.rid] ==> Supports(rows, r, d)
    ensures rows[0].rid !in live[r.rid]
  {
    hide Tier;
    HeadTierLeast(rows);
  }

  lemma RestOf(rows: seq<Row>)
    requires rows != [] && RidsDiffer(rows)
    ensures RidsDiffer(rows[1..])
    ensures forall r :: r in rows <==> r == rows[0] || r in rows[1..]
    ensures forall r :: r in rows[1..] ==> r.rid != rows[0].rid
  {
    var head, rest := rows[0], rows[1..];
    assert rows == [head] + rest;
    forall r | r in rest ensures r.rid != head.rid {
      var i :| 0 <= i < |rest| && rest[i] == r;
      assert rows[i + 1] == r;
    }
  }

  lemma RestSupports(rows: seq<Row>, r: Row, d: string)
    requires rows != [] && RidsDiffer(rows) && Sorted(rows, DeleteFirst) && r in rows && Supports(rows, r, d)
    ensures Supports(rows[1..], r, d)
  {
    hide Tier;
    HeadTierLeast(rows);
    RestOf(rows);
    var q :| q in rows && q.rid == d && Tier(q.rtype) > Tier(r.rtype);
    assert q in rows[1..];
  }

  lemma RestHolds(base: map<string, set<string>>, live: map<string, set<string>>, rows: seq<Row>)
    requires rows != [] && Holding(base, live, rows) && Sorted(rows, DeleteFirst)
    ensures Holding(base, live - {rows[0].rid}, rows[1..])
  {
    hide Tier;
    hide DeleteFirst, Tier, Sorted, Supports, RidsDiffer;
    var rest, live' := rows[1..], live - {rows[0].rid};
    RestOf(rows);
    forall r, d | r in rest && d in live'[r.rid] ensures Supports(rest, r, d) {
      RestSupports(rows, r, d);
    }
  }

  lemma SortedHolds(base: map<string, set<string>>, live: map<string, set<string>>, rows: seq<Row>)
    requires Holding(base, live, rows)
    ensures Holding(base, live, Sort(rows, DeleteFirst))
  {
    hide DeleteFirst, Tier;
    RidsDifferAfterSort(rows);
    SortPermutes(rows, DeleteFirst);
    var sorted := Sort(rows, DeleteFirst);
    forall r, d | r in sorted && d in live[r.rid] ensures Supports(sorted, r, d) {
      assert Supports(rows, r, d);
      var q :| q in rows && q.rid == d && Tier(q.rtype) > Tier(r.rtype);
      assert q in sorted;
    }
  }

  /** Tearing down everything held succeeds and leaves the provider as it was. */
  lemma TeardownEmpties(base: map<string, set<string>>, p: State, rows: seq<Row>)
    requires p.name.Cloud? && Holding(base, p.live, rows)
    ensures Teardown(p, rows).1 && Teardown(p, rows).0.live == base
  {
    DeleteOrder();
    SortedHolds(base, p.live, rows);
    SortSorted(rows, DeleteFirst);
    OrderedTeardownEmpties(base, p, Sort(rows, DeleteFirst));
  }

  // ----- every prefix of the plan is closed under dependency

  function PlannedType(name: ProviderName, plan: Plan, k: nat): string
    requires k < Steps(plan)
  {
    if k >= 2 * |plan.networks| then ServerType(name)
    else if k % 2 == 0 then NetworkType(name) else SubnetType(name)
  }

  function PlannedName(plan: Plan, k: nat): string
    requires k < Steps(plan)
  {
    if k >= 2 * |plan.networks| then Hosts(plan.servers)[k - 2 * |plan.networks|]
    else if k % 2 == 0 then plan.networks[k / 2].name else plan.networks[k / 2].name + "-subnet"
  }

  /** What was created is an initial part of the plan, in plan order. */
  ghost predicate FollowsPlan(name: ProviderName, plan: Plan, created: seq<Handle>) {
    && |created| <= Steps(plan)
    && forall k :: 0 <= k < |created| ==>
         created[k].rtype == PlannedType(name, plan, k) && created[k].name == PlannedName(plan, k)
  }

  lemma {:induction false} ProvisionFollowsPlan(limit: nat, plan: Plan, p: State, created: seq<Handle>)
    requires FollowsPlan(p.name, plan, created)
    ensures var out := Provision(limit, plan, p, created);
            && FollowsPlan(p.name, plan, out.created) && created <= out.created
            && (out.complete <==> |out.created| == Steps(plan))
    decreases Steps(plan) - |created|
  {
    hide FollowsPlan, NextCreate, Steps;
    StepsLeft(p.name, plan, created);
    if |created| < Steps(plan) && NextCreate(p.name, plan, created).Some? {
      var next := NextCreate(p.name, plan, created).value;
      var out := CreateRetried(p, next.request, limit);
      RetryKeepsName(p, next.request, 0, limit);
      if out.result.Ok? {
        var h := Handle(next.rtype, next.request.name, out.result.value);
        NextFollowsPlan(p.name, plan, created, h);
        ProvisionFollowsPlan(limit, plan, out.state, created + [h]);
      }
    }
  }

  lemma StepsLeft(name: ProviderName, plan: Plan, created: seq<Handle>)
    requires FollowsPlan(name, plan, created)
    ensures |created| <= Steps(plan)
  {
  }

  lemma NextIsPlanned(name: ProviderName, plan: Plan, created: seq<Handle>)
    requires |created| < Steps(plan) && NextCreate(name, plan, created).Some?
    ensures var next := NextCreate(name, plan, created).value;
            next.rtype == PlannedType(name, plan, |created|) && next.request.name == PlannedName(plan, |created|)
  {
    hide Hosts;
  }

  lemma NextFollowsPlan(name: ProviderName, plan: Plan, created: seq<Handle>, h: Handle)
    requires FollowsPlan(name, plan, created) && |created| < Steps(plan) && NextCreate(name, plan, created).Some?
    requires var next := NextCreate(name, plan, created).value; h.rtype == next.rtype && h.name == next.request.name
    ensures FollowsPlan(name, plan, created + [h])
  {
    hide Hosts, NextCreate, PlannedType, PlannedName;
    NextIsPlanned(name, plan, created);
    var more := created + [h];
    assert forall k :: 0 <= k < |created| ==> more[k] == created[k];
    assert more[|created|] == h;
  }

  lemma {:induction false} RetryKeepsName(p: State, r: Request, attempt: nat, limit: nat)
    requires attempt <= limit
    ensures Retry(Creating(r), p, attempt, limit).state.name == p.name
    decreases limit - attempt
  {
    var (p', result) := Create(p, r);
    if result.Err? && result.error.retryable && attempt < limit { RetryKeepsName(p', r, attempt + 1, limit); }
  }

  /** The same as `Holding`, for resources that have no rows yet. */
  ghost predicate Taken(base: map<string, set<string>>, live: map<string, set<string>>, hs: seq<Handle>) {
    && (forall i, j :: 0 <= i < j < |hs| ==> hs[i].rid != hs[j].rid)
    && (forall x :: x in base ==> base[x] <= base.Keys && x in live && live[x] == base[x])
    && (forall i :: 0 <= i < |hs| ==> hs[i].rid in live && hs[i].rid !in base)
    && (forall x :: x in live && x !in base ==> exists i :: 0 <= i < |hs| && hs[i].rid == x)
    && (forall i, d :: 0 <= i < |hs| && d in live[hs[i].rid] ==>
          exists j :: 0 <= j < |hs| && hs[j].rid == d && Tier(hs[j].rtype) > Tier(hs[i].rtype))
  }

  lemma TakenGrows(base: map<string, set<string>>, live: map<string, set<string>>, hs: seq<Handle>,
                   h: Handle, needs: set<string>)
    requires Taken(base, live, hs) && h.rid !in live
    requires forall d :: d in needs ==> exists j :: 0 <= j < |hs| && hs[j].rid == d && Tier(hs[j].rtype) > Tier(h.rtype)
    ensures Taken(base, live[h.rid := needs], hs + [h])
  {
    hide Tier;
    var live', hs' := live[h.rid := needs], hs + [h];
    forall x | x in live' && x !in base ensures exists i :: 0 <= i < |hs'| && hs'[i].rid == x {
      if x == h.rid {
        assert hs'[|hs|].rid == x;
      } else {
        var i :| 0 <= i < |hs| && hs[i].rid == x;
        assert hs'[i].rid == x;
      }
    }
    forall i, d | 0 <= i < |hs'| && d in live'[hs'[i].rid]
      ensures exists j :: 0 <= j < |hs'| && hs'[j].rid == d && Tier(hs'[j].rtype) > Tier(hs'[i].rtype)
    {
      var j :| 0 <= j < |hs| && hs[j].rid == d && Tier(hs[j].rtype) > Tier(hs'[i].rtype);
      assert hs'[j] == hs[j];
    }
  }

  lemma CloudTiers()
    ensures Tier(NetworkType(Cloud)) == 4 && Tier(SubnetType(Cloud)) == 1 && Tier(ServerType(Cloud)) == 0
  {
  }

  /** The network that a planned subnet or server is on has been created, and is deleted later. */
  lemma NextNeedsAreLater(plan: Plan, created: seq<Handle>)
    requires FollowsPlan(Cloud, plan, created) && |created| < Steps(plan)
    requires NextCreate(Cloud, plan, created).Some?
    ensures var next := NextCreate(Cloud, plan, created).value;
            forall d :: d in Needs(next.request) ==>
              exists j :: 0 <= j < |created| && created[j].rid == d && Tier(created[j].rtype) > Tier(next.rtype)
  {
    var next := NextCreate(Cloud, plan, created).value;
    CloudTiers();
    if !next.request.NetworkRequest? {
      var j := NetworkCreated(plan, created);
      hide NextCreate, FollowsPlan, PlannedType, Hosts, Tier;
      assert created[j].rid == next.request.networkId;
    }
  }

  lemma NetworkCreated(plan: Plan, created: seq<Handle>) returns (j: nat)
    requires FollowsPlan(Cloud, plan, created) && |created| < Steps(plan)
    requires NextCreate(Cloud, plan, created).Some? && !NextCreate(Cloud, plan, created).value.request.NetworkRequest?
    ensures var next := NextCreate(Cloud, plan, created).value;
            && j < |created| && created[j].rid == next.request.networkId && created[j].rtype == NetworkType(Cloud)
            && next.rtype in {SubnetType(Cloud), ServerType(Cloud)}
  {
    j := NetworkAsked(plan, created);
    NetworkIsTyped(plan, created, j / 2);
  }

  lemma NetworkIsTyped(plan: Plan, created: seq<Handle>, i: nat)
    requires FollowsPlan(Cloud, plan, created) && i < |plan.networks| && 2 * i < |created|
    ensures created[2 * i].rtype == NetworkType(Cloud)
  {
    hide Hosts, Steps;
    assert created[2 * i].rtype == PlannedType(Cloud, plan, 2 * i);
  }

  lemma NetworkAsked(plan: Plan, created: seq<Handle>) returns (j: nat)
    requires |created| < Steps(plan)
    requires NextCreate(Cloud, plan, created).Some? && !NextCreate(Cloud, plan, created).value.request.NetworkRequest?
    ensures var next := NextCreate(Cloud, plan, created).value;
            && j < |created| && j / 2 < |plan.networks| && 2 * (j / 2) == j && created[j].rid == next.request.networkId
            && next.rtype in {SubnetType(Cloud), ServerType(Cloud)}
  {
    hide Hosts;
    var k, n := |created|, |plan.networks|;
    j := if k >= 2 * n then 2 * FirstNetwork(plan.networks, Hosts(plan.servers)[k - 2 * n], 0).value else k - 1;
    hide FirstNetwork, SubnetType, ServerType;
  }

  lemma {:induction false} ProvisionTakes(limit: nat, plan: Plan, p: State, created: seq<Handle>,
                                          base: map<string, set<string>>)
    requires p.name.Cloud? && Honest(p) && FollowsPlan(Cloud, plan, created) && Taken(base, p.live, created)
    requires forall i :: 0 <= i < |created| ==> created[i].rid != ""
    ensures var out := Provision(limit, plan, p, created);
            && out.provider.name.Cloud? && Taken(base, out.provider.live, out.created)
            && forall i :: 0 <= i < |out.created| ==> out.created[i].rid != ""
    decreases Steps(plan) - |created|
  {
    hide Taken, Honest, Tier, FollowsPlan, NextCreate, Needs, Steps;
    StepsLeft(p.name, plan, created);
    if |created| < Steps(plan) && NextCreate(p.name, plan, created).Some? {
      var next := NextCreate(p.name, plan, created).value;
      var out := CreateRetried(p, next.request, limit);
      NextNeedsAreLater(plan, created);
      NeedsAreLive(base, p.live, created, next);
      CloudRetryFrom(p, next.request, 0, limit);
      if out.result.Ok? {
        var h := Handle(next.rtype, next.request.name, out.result.value);
        TakenGrows(base, p.live, created, h, Needs(next.request));
        NextFollowsPlan(Cloud, plan, created, h);
        ProvisionTakes(limit, plan, out.state, created + [h], base);
      }
    }
  }

  lemma NeedsAreLive(base: map<string, set<string>>, live: map<string, set<string>>, created: seq<Handle>,
                     next: Planned)
    requires Taken(base, live, created)
    requires forall d :: d in Needs(next.request) ==>
               exists j :: 0 <= j < |created| && created[j].rid == d && Tier(created[j].rtype) > Tier(next.rtype)
    ensures Needs(next.request) <= live.Keys
  {
  }

  lemma TakenRowsHold(base: map<string, set<string>>, live: map<string, set<string>>, rows: seq<Row>)
    requires Taken(base, live, HandlesOf(rows))
    ensures Holding(base, live, rows)
  {
    hide Tier, Supports;
    var hs := HandlesOf(rows);
    forall r | r in rows ensures r.rid in live && r.rid !in base {
      var i :| 0 <= i < |rows| && rows[i] == r;
      assert hs[i].rid == r.rid;
    }
    forall r, d | r in rows && d in live[r.rid] ensures Supports(rows, r, d) {
      TakenRowSupports(base, live, rows, r, d);
    }
    forall x | x in live && x !in base ensures exists r :: r in rows && r.rid == x {
      var i :| 0 <= i < |hs| && hs[i].rid == x;
      assert rows[i] in rows;
    }
    forall i, j | 0 <= i < j < |rows| ensures rows[i].rid != rows[j].rid { assert hs[i].rid != hs[j].rid; }
  }

  lemma TakenRowSupports(base: map<string, set<string>>, live: map<string, set<string>>, rows: seq<Row>,
                           r: Row, d: string)
    requires Taken(base, live, HandlesOf(rows)) && r in rows && r.rid in live && d in live[r.rid]
    ensures Supports(rows, r, d)
  {
    hide Tier;
    var hs := HandlesOf(rows);
    var i :| 0 <= i < |rows| && rows[i] == r;
    assert hs[i].rid == r.rid && hs[i].rtype == r.rtype;
    var j :| 0 <= j < |hs| && hs[j].rid == d && Tier(hs[j].rtype) > Tier(hs[i].rtype);
    assert rows[j] in rows;
  }

  // ----- the failed deploy

  lemma FailsOnlyFromNothing(ip: CidrReader, limit: nat, w: World, t: TopologyRow, runId: Option<int>)
    requires Deploy(ip, limit, w, t, runId).1.DeployFailed?
    ensures RowsOf(w.rows, t.id) == [] && ActiveHandles(w.deployments, t.id) == []
  {
    hide Provision, Accepted, RollBack, Record, RowsOf, ActiveHandles;
    var hs := ActiveHandles(w.deployments, t.id);
    if RowsOf(w.rows, t.id) == [] && hs != [] {
      RowsOfAdded(w.rows, t.id, hs);
    }
  }

  /**
   On any provider, the mock included: a failed deploy leaves the rows of every topology as they
   were.  If something had been created, the topology is back to CREATED without an entry;
   otherwise it is FAILED, with an empty entry that keeps the earlier run id if there is no new one.
   */
  lemma FailedDeployRestoresStores(ip: CidrReader, limit: nat, w: World, t: TopologyRow, runId: Option<int>)
    requires Deploy(ip, limit, w, t, runId).1.DeployFailed?
    ensures var w', out := Deploy(ip, limit, w, t, runId).0, Provision(limit, PlanOf(t.topology), w.provider, []);
            && w'.rows == w.rows && (out.created == [] ==> w'.provider == out.provider)
            && w'.status == w.status[t.id := if out.created != [] then "CREATED" else "FAILED"]
            && w'.deployments == if out.created != [] then w.deployments - {KeyOf(t.id)}
                                 else w.deployments[KeyOf(t.id) :=
                                        FailedSnapshot(w.deployments, t.id, t.topology.name, runId, [])]
  {
    hide Accepted, Provision, Teardown, Hosts, RowsOf, WithoutRowsOf, ActiveHandles, KeyOf, FailedSnapshot;
    FailsOnlyFromNothing(ip, limit, w, t, runId);
    var out := Provision(limit, PlanOf(t.topology), w.provider, []);
    var partial := RowsOf(AddRows(w.rows, t.id, out.created), t.id);
    RowsOfAdded(w.rows, t.id, out.created);
    RowsOfRemoved(w.rows, t.id);
    assert HandlesOf(RowsOf(w.rows, t.id)) + out.created == out.created;
    if partial == [] {
      assert HandlesOf(partial) == [] == out.created;
      NoRowsAdded(w.rows, t.id);
    } else {
      assert HandlesOf(partial) != [];
    }
  }

  /**
   Wherever a deploy fails, the provider's resources and the rows of every topology are as
   before.  If something had been created, the topology is back to CREATED without a snapshot
   entry; otherwise it is FAILED with an empty FAILED entry.  No other entry changes.
   */
  lemma FailedDeployRollsBack(ip: CidrReader, limit: nat, w: World, t: TopologyRow, runId: Option<int>)
    requires w.provider.name.Cloud? && Honest(w.provider)
    requires Deploy(ip, limit, w, t, runId).1.DeployFailed?
    ensures var w', out := Deploy(ip, limit, w, t, runId).0, Provision(limit, PlanOf(t.topology), w.provider, []);
            && w'.provider.live == w.provider.live
            && w'.rows == w.rows
            && w'.status == w.status[t.id := if out.created != [] then "CREATED" else "FAILED"]
            && (out.created != [] ==> w'.deployments == w.deployments - {KeyOf(t.id)})
            && (out.created == [] ==>
                  && KeyOf(t.id) in w'.deployments && w'.deployments[KeyOf(t.id)].status == "FAILED"
                  && w'.deployments[KeyOf(t.id)].resources == []
                  && w'.deployments == w.deployments[KeyOf(t.id) := w'.deployments[KeyOf(t.id)]])
  {
    hide Honest, Taken, Holding, Accepted, Provision, Teardown, Hosts, RowsOf, WithoutRowsOf, ActiveHandles, KeyOf,
         Classify;
    FailsOnlyFromNothing(ip, limit, w, t, runId);
    var plan := PlanOf(t.topology);
    var out := Provision(limit, plan, w.provider, []);
    var rows := AddRows(w.rows, t.id, out.created);
    assert FollowsPlan(Cloud, plan, []);
    NothingTaken(w.provider);
    ProvisionTakes(limit, plan, w.provider, [], w.provider.live);
    RowsOfAdded(w.rows, t.id, out.created);
    RowsOfRemoved(w.rows, t.id);
    var partial := RowsOf(rows, t.id);
    assert HandlesOf(RowsOf(w.rows, t.id)) + out.created == out.created;
    TakenRowsHold(w.provider.live, out.provider.live, partial);
    TeardownEmpties(w.provider.live, out.provider, partial);
    if partial == [] {
      assert out.created == [];
      NoRowsAdded(w.rows, t.id);
      NothingHeld(w.provider.live, out.provider.live);
    } else {
      assert HandlesOf(partial) != [];
    }
  }

  lemma NothingTaken(p: State)
    requires Honest(p)
    ensures Taken(p.live, p.live, [])
  {
  }

  lemma NothingHeld(base: map<string, set<string>>, live: map<string, set<string>>)
    requires Holding(base, live, [])
    ensures live == base
  {
    assert live.Keys == base.Keys;
  }
}
