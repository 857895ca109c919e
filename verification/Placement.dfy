/**
 Which calls a deploy makes: every create, retries included, is for a planned resource and
 refers to the right network.
 */
module Placement {
  import opened Topology
  import opened ProviderRetry
  import opened Providers
  import opened LocalState
  import opened Deployment
  import opened Rollback

  /** A planned network, a subnet on its own network, or a host on the first network that attaches it. */
  ghost predicate RightRequest(plan: Plan, created: seq<Handle>, r: Request) {
    match r
    case NetworkRequest(name, cidr) =>
      exists i :: 0 <= i < |plan.networks| && plan.networks[i].name == name && plan.networks[i].subnet == cidr
    case SubnetRequest(name, id, cidr) =>
      exists i :: 0 <= i < |plan.networks| && name == plan.networks[i].name + "-subnet"
                  && cidr == plan.networks[i].subnet
                  && IsNetworkId(created, i, id)
    case ServerRequest(name, id) =>
      name in Hosts(plan.servers)
      && exists i :: 0 <= i < |plan.networks| && IsFirstNetwork(plan, i, name) && IsNetworkId(created, i, id)
  }

  ghost predicate IsNetworkId(created: seq<Handle>, i: nat, id: string) {
    2 * i < |created| && created[2 * i].rid == id
  }

  ghost predicate IsFirstNetwork(plan: Plan, i: nat, node: string)
    requires i < |plan.networks|
  {
    node in plan.networks[i].attached && forall j :: 0 <= j < i ==> node !in plan.networks[j].attached
  }

  ghost predicate CallsAreRight(plan: Plan, created: seq<Handle>, log: seq<Call>, log': seq<Call>) {
    && log <= log'
    && forall i :: |log| <= i < |log'| ==> log'[i].CreateCall? && RightRequest(plan, created, log'[i].request)
  }

  lemma {:induction false} RetryLogs(p: State, r: Request, attempt: nat, limit: nat)
    requires attempt <= limit
    ensures var p' := Retry(Creating(r), p, attempt, limit).state;
            p.log <= p'.log && forall i :: |p.log| <= i < |p'.log| ==> p'.log[i] == CreateCall(r)
    decreases limit - attempt
  {
    var (p1, result) := Create(p, r);
    assert p1.log == p.log + [CreateCall(r)];
    if result.Err? && result.error.retryable && attempt < limit { RetryLogs(p1, r, attempt + 1, limit); }
  }

  lemma NextIsRight(name: ProviderName, plan: Plan, created: seq<Handle>, more: seq<Handle>)
    requires |created| < Steps(plan) && NextCreate(name, plan, created).Some? && created <= more
    ensures RightRequest(plan, more, NextCreate(name, plan, created).value.request)
  {
    hide Hosts;
    var k, n, r := |created|, |plan.networks|, NextCreate(name, plan, created).value.request;
    if k >= 2 * n {
      var host := Hosts(plan.servers)[k - 2 * n];
      var i := FirstNetwork(plan.networks, host, 0).value;
      assert host in Hosts(plan.servers) && IsFirstNetwork(plan, i, host) && IsNetworkId(more, i, created[2 * i].rid);
    } else if k % 2 == 1 {
      assert IsNetworkId(more, k / 2, created[k - 1].rid);
    }
  }

  /** However far provisioning gets, and however often it retries, it asks only for the right things. */
  lemma {:induction false} ProvisionAsksRightly(limit: nat, plan: Plan, p: State, created: seq<Handle>)
    requires FollowsPlan(p.name, plan, created)
    ensures var out := Provision(limit, plan, p, created);
            CallsAreRight(plan, out.created, p.log, out.provider.log)
    decreases Steps(plan) - |created|
  {
    hide FollowsPlan, NextCreate, Steps, RightRequest;
    StepsLeft(p.name, plan, created);
    ProvisionFollowsPlan(limit, plan, p, created);
    var all := Provision(limit, plan, p, created).created;
    if |created| < Steps(plan) && NextCreate(p.name, plan, created).Some? {
      var next := NextCreate(p.name, plan, created).value;
      var out := CreateRetried(p, next.request, limit);
      RetryLogs(p, next.request, 0, limit);
      RetryKeepsName(p, next.request, 0, limit);
      NextIsRight(p.name, plan, created, all);
      if out.result.Ok? {
        var h := Handle(next.rtype, next.request.name, out.result.value);
        NextFollowsPlan(p.name, plan, created, h);
        ProvisionAsksRightly(limit, plan, out.state, created + [h]);
      }
    }
  }
}
