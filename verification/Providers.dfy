/**
 The provider behind a deployment.  `Mock` derives ids from names, keeps a run state per
 server and a failure budget per operation, and deletes nothing.  `Cloud` stands for any
 other provider whose failed creates leave no trace: its future answers are a script, so a
 statement about all scripts is a statement about all behaviours.
 */
module Providers {
  import opened Wrappers
  import opened Arithmetic
  import opened ProviderRetry

  datatype ProviderName = Mock | Cloud

  datatype ServerStatus = Running | Stopped

  datatype Op = CreateNetwork | CreateSubnet | CreateServer | RunPing

  datatype Request =
    | NetworkRequest(name: string, cidr: string)
    | SubnetRequest(name: string, networkId: string, cidr: string)
    | ServerRequest(name: string, networkId: string)

  datatype Answer = Grant(id: string) | Refuse(retryable: bool)

  datatype Call = CreateCall(request: Request) | DeleteCall(id: string) | StopCall(id: string) | StartCall(id: string)

  /** `live` maps each cloud resource to the resources it depends on; `log` is every call made. */
  datatype State = State(name: ProviderName,
                         statuses: map<string, ServerStatus>, budgets: map<Op, int>,
                         live: map<string, set<string>>, answers: seq<Answer>, log: seq<Call>)

  function OpOf(r: Request): Op {
    match r
    case NetworkRequest(_, _) => CreateNetwork
    case SubnetRequest(_, _, _) => CreateSubnet
    case ServerRequest(_, _) => CreateServer
  }

  function MockId(r: Request): string {
    match r
    case NetworkRequest(name, _) => "mock-net-" + name
    case SubnetRequest(name, _, _) => "mock-subnet-" + name
    case ServerRequest(name, _) => "mock-server-" + name
  }

  function ServerId(name: string): string {
    "mock-server-" + name
  }

  function Needs(r: Request): set<string> {
    if r.NetworkRequest? then {} else {r.networkId}
  }

  function Budget(p: State, op: Op): int {
    if op in p.budgets then p.budgets[op] else 0
  }

  /** One create call: the new state, and the id or the fault. */
  function Create(before: State, r: Request): (State, Result<string, Fault>) {
    var p := before.(log := before.log + [CreateCall(r)]);
    match p.name
    case Mock =>
      var n := Budget(p, OpOf(r));
      if n > 0 then (p.(budgets := p.budgets[OpOf(r) := n - 1]), Err(Fault(true)))
      else
        var statuses := if r.ServerRequest? then p.statuses[MockId(r) := Running] else p.statuses;
        (p.(statuses := statuses), Ok(MockId(r)))
    case Cloud =>
      if p.answers == [] then (p, Err(Fault(false)))
      else match p.answers[0]
        case Refuse(retryable) => (p.(answers := p.answers[1..]), Err(Fault(retryable)))
        case Grant(id) => (p.(answers := p.answers[1..], live := p.live[id := Needs(r)]), Ok(id))
  }

  function Creating(r: Request): State -> (State, Result<string, Fault>) {
    p => Create(p, r)
  }

  /** Deleting is refused while something live depends on the resource, or if it is gone. */
  ghost predicate Deletable(live: map<string, set<string>>, id: string) {
    id in live && forall x :: x in live ==> id !in live[x]
  }

  ghost function Delete(before: State, id: string): (State, bool) {
    var p := before.(log := before.log + [DeleteCall(id)]);
    if p.name.Mock? then (p, true)
    else if Deletable(p.live, id) then (p.(live := p.live - {id}), true)
    else (p, false)
  }

  function Stop(p: State, id: string): State {
    p.(statuses := p.statuses[id := Stopped], log := p.log + [StopCall(id)])
  }

  function Start(p: State, id: string): State {
    p.(statuses := p.statuses[id := Running], log := p.log + [StartCall(id)])
  }

  function StatusOf(p: State, id: string): ServerStatus {
    if id in p.statuses then p.statuses[id] else Running
  }

  /** A ping from a server: the failures budgeted come first, then the source must run. */
  function PingFrom(p: State, source: string): (State, bool) {
    var n := Budget(p, Op.RunPing);
    if n > 0 then (p.(budgets := p.budgets[Op.RunPing := n - 1]), false) else (p, StatusOf(p, source) == Running)
  }

  /** Fresh, non-empty ids, and a live set that is closed under dependency. */
  ghost predicate Honest(p: State) {
    && (forall x :: x in p.live ==> p.live[x] <= p.live.Keys)
    && (forall i :: 0 <= i < |p.answers| && p.answers[i].Grant? ==> p.answers[i].id !in p.live && p.answers[i].id != "")
    && (forall i, j :: 0 <= i < j < |p.answers| && p.answers[i].Grant? && p.answers[j].Grant?
          ==> p.answers[i].id != p.answers[j].id)
  }

  class Provider {
    const name: ProviderName
    var statuses: map<string, ServerStatus>
    var budgets: map<Op, int>
    var live: map<string, set<string>>
    var answers: seq<Answer>
    ghost var log: seq<Call>

    ghost function View(): State
      reads this
    {
      State(name, statuses, budgets, live, answers, log)
    }

    constructor (name: ProviderName, budgets: map<Op, int>, live: map<string, set<string>>, answers: seq<Answer>)
      ensures View() == State(name, map[], budgets, live, answers, [])
    {
      this.name, this.statuses, this.budgets, this.live, this.answers := name, map[], budgets, live, answers;
      log := [];
    }

    /** Streak failures come first, whatever the operation. */
    method BeforeOp(op: Op) returns (fault: Option<Fault>)
      modifies this`budgets
      ensures var n := old(Budget(View(), op));
              if n > 0 then fault == Some(Fault(true)) && budgets == old(budgets)[op := n - 1]
              else fault == None && budgets == old(budgets)
    {
      var n := if op in budgets then budgets[op] else 0;
      if n > 0 {
        budgets := budgets[op := n - 1];
        return Some(Fault(true));
      }
      return None;
    }

    method CreateResource(r: Request) returns (id: Result<string, Fault>)
      modifies this
      ensures (View(), id) == Create(old(View()), r)
    {
      log := log + [CreateCall(r)];
      match name {
        case Mock =>
          var fault := BeforeOp(OpOf(r));
          if fault.Some? { return Err(fault.value); }
          if r.ServerRequest? { statuses := statuses[MockId(r) := Running]; }
          return Ok(MockId(r));
        case Cloud =>
          if answers == [] { return Err(Fault(false)); }
          var answer := answers[0];
          answers := answers[1..];
          match answer {
            case Refuse(retryable) => return Err(Fault(retryable));
            case Grant(granted) =>
              live := live[granted := Needs(r)];
              return Ok(granted);
          }
      }
    }

    /** `call_with_retry` around one create. */
    method CreateWithRetry(r: Request, limit: nat) returns (id: Result<string, Fault>, slept: nat)
      modifies this
      ensures var out := CreateRetried(old(View()), r, limit);
              View() == out.state && id == out.result && slept == out.slept
    {
      var attempt := 0;
      slept := 0;
      while true
        invariant attempt <= limit
        invariant var out, rest := Retry(Creating(r), old(View()), 0, limit),
                    Retry(Creating(r), View(), attempt, limit);
                  out.state == rest.state && out.result == rest.result && out.slept == slept + rest.slept
        decreases limit - attempt
      {
        id := CreateResource(r);
        if id.Ok? || !id.error.retryable || attempt == limit { return; }
        slept := slept + Delay(attempt);
        attempt := attempt + 1;
      }
    }

    method DeleteResource(id: string) returns (ok: bool)
      modifies this`live, this`log
      ensures (View(), ok) == Delete(old(View()), id)
    {
      log := log + [DeleteCall(id)];
      if name == Mock { return true; }
      if id !in live || exists x :: x in live.Keys && id in live[x] { return false; }
      live := live - {id};
      return true;
    }

    method StopServer(id: string)
      modifies this`statuses, this`log
      ensures View() == Stop(old(View()), id)
    {
      statuses := statuses[id := Stopped];
      log := log + [StopCall(id)];
    }

    method StartServer(id: string)
      modifies this`statuses, this`log
      ensures View() == Start(old(View()), id)
    {
      statuses := statuses[id := Running];
      log := log + [StartCall(id)];
    }

    method RunPing(source: string) returns (ok: bool)
      modifies this`budgets
      ensures (View(), ok) == PingFrom(old(View()), source)
    {
      var fault := BeforeOp(Op.RunPing);
      if fault.Some? { return false; }
      var status := GetServerStatus(source);
      ok := status == Running;
    }

    method GetServerStatus(id: string) returns (status: ServerStatus)
      ensures status == StatusOf(View(), id)
    {
      status := if id in statuses then statuses[id] else Running;
    }
  }

  function CreateRetried(p: State, r: Request, limit: nat): Attempts<State, string> {
    Retry(Creating(r), p, 0, limit)
  }

  // ----- what a retried create does to each kind of provider

  lemma {:induction false} MockRetryFrom(p: State, r: Request, attempt: nat, limit: nat)
    requires p.name.Mock? && attempt <= limit
    ensures var n, out := Budget(p, OpOf(r)), Retry(Creating(r), p, attempt, limit);
            && (out.result == if n <= limit - attempt then Ok(MockId(r)) else Err(Fault(true)))
            && out.state.name.Mock? && out.state.live == p.live && out.state.answers == p.answers
            && (forall op :: op != OpOf(r) ==> Budget(out.state, op) == Budget(p, op))
            && Budget(out.state, OpOf(r)) == (if n <= 0 then n else Max(0, n - (limit - attempt) - 1))
            && out.tries == Min(Max(n, 0), limit - attempt) + 1
            && out.slept == Backoff(attempt + out.tries - 1) - Backoff(attempt)
            && out.state.statuses ==
                 (if out.result.Ok? && r.ServerRequest? then p.statuses[MockId(r) := Running] else p.statuses)
    decreases limit - attempt
  {
    MockCreate(p, r);
    MockRetryCounts(p, r, attempt, limit);
    hide Create, Backoff, MockId, Budget, OpOf;
    if Budget(p, OpOf(r)) > 0 && attempt < limit {
      MockRetryFrom(Create(p, r).0, r, attempt + 1, limit);
    }
  }

  /** Attempts and sleep of such a call. */
  lemma {:induction false} MockRetryCounts(p: State, r: Request, attempt: nat, limit: nat)
    requires p.name.Mock? && attempt <= limit
    ensures var n, out := Budget(p, OpOf(r)), Retry(Creating(r), p, attempt, limit);
            && out.tries == Min(Max(n, 0), limit - attempt) + 1
            && out.slept == Backoff(attempt + out.tries - 1) - Backoff(attempt)
    decreases limit - attempt
  {
    MockCreate(p, r);
    hide Create, Backoff, MockId, Budget, OpOf;
    if Budget(p, OpOf(r)) > 0 && attempt < limit {
      BackoffStep(attempt);
      MockRetryCounts(Create(p, r).0, r, attempt + 1, limit);
    }
  }

  /** One create on the mock: a budgeted failure, or the resource. */
  lemma MockCreate(p: State, r: Request)
    requires p.name.Mock?
    ensures var n, (p', result) := Budget(p, OpOf(r)), Create(p, r);
            && result == (if n > 0 then Err(Fault(true)) else Ok(MockId(r)))
            && p'.name.Mock? && p'.live == p.live && p'.answers == p.answers
            && (forall op :: op != OpOf(r) ==> Budget(p', op) == Budget(p, op))
            && Budget(p', OpOf(r)) == (if n > 0 then n - 1 else n)
            && p'.statuses == if n <= 0 && r.ServerRequest? then p.statuses[MockId(r) := Running] else p.statuses
  {
  }

  lemma {:induction false} CloudRetryFrom(p: State, r: Request, attempt: nat, limit: nat)
    requires p.name.Cloud? && Honest(p) && attempt <= limit
    requires Needs(r) <= p.live.Keys
    ensures var out := Retry(Creating(r), p, attempt, limit);
            && out.state.name.Cloud? && Honest(out.state)
            && (out.result.Err? ==> out.state.live == p.live)
            && (out.result.Ok? ==>
                  && out.result.value != "" && out.result.value !in p.live
                  && out.state.live == p.live[out.result.value := Needs(r)])
    decreases limit - attempt
  {
    hide Honest, Create;
    CloudCreate(p, r);
    var (next, result) := Create(p, r);
    if result.Err? && result.error.retryable && attempt < limit { CloudRetryFrom(next, r, attempt + 1, limit); }
  }

  /** One create of an honest provider: a fresh resource, or no trace at all. */
  lemma CloudCreate(p: State, r: Request)
    requires p.name.Cloud? && Honest(p) && Needs(r) <= p.live.Keys
    ensures var (p', result) := Create(p, r);
            && p'.name.Cloud? && Honest(p')
            && (result.Err? ==> p'.live == p.live)
            && (result.Ok? ==>
                  && result.value != "" && result.value !in p.live
                  && p'.live == p.live[result.value := Needs(r)])
  {
    if p.answers != [] {
      var next := Create(p, r).0;
      assert forall i :: 0 <= i < |next.answers| ==> next.answers[i] == p.answers[i + 1];
    }
  }

  /** The log after `n` more creates of the same thing. */
  function CreateCalls(log: seq<Call>, r: Request, n: nat): seq<Call> {
    if n == 0 then log else CreateCalls(log, r, n - 1) + [CreateCall(r)]
  }

  /** The cloud after `i` refused attempts. */
  function AfterRefusals(p: State, r: Request, i: nat): State
    requires i <= |p.answers|
  {
    p.(answers := p.answers[i..], log := CreateCalls(p.log, r, i))
  }

  lemma NextAnswer(p: State, r: Request, i: nat)
    requires p.name.Cloud? && i < |p.answers|
    ensures Create(AfterRefusals(p, r, i), r) ==
              var next := AfterRefusals(p, r, i + 1);
              match p.answers[i]
              case Refuse(retryable) => (next, Err(Fault(retryable)))
              case Grant(id) => (next.(live := p.live[id := Needs(r)]), Ok(id))
  {
    hide Needs;
    assert p.answers[i..][0] == p.answers[i] && p.answers[i..][1..] == p.answers[i + 1..];
  }

  /**
   A cloud that answers `k` retryable refusals and then something else, with `k` within the limit:
   exactly `k + 1` create calls, that answer, and `Backoff(k)` seconds of sleep.
   */
  lemma CloudRetryExactly(p: State, r: Request, limit: nat, k: nat)
    requires p.name.Cloud? && k <= limit && k < |p.answers| && p.answers[k] != Refuse(true)
    requires forall i :: 0 <= i < k ==> p.answers[i] == Refuse(true)
    ensures var out := CreateRetried(p, r, limit);
            && out.result == (if p.answers[k].Grant? then Ok(p.answers[k].id) else Err(Fault(false)))
            && out.tries == k + 1 && out.slept == Backoff(k)
            && out.state.answers == p.answers[k + 1..] && out.state.log == CreateCalls(p.log, r, k + 1)
            && out.state.live == if p.answers[k].Grant? then p.live[p.answers[k].id := Needs(r)] else p.live
  {
    NextAnswer(p, r, k);
    var last := Create(AfterRefusals(p, r, k), r).0;
    var states := seq(k + 2, i requires 0 <= i <= k + 1 => if i == k + 1 then last else AfterRefusals(p, r, i));
    RefusalsThen(p, r, limit, k, states);
  }

  /** A cloud that refuses every attempt in a retryable way: `limit + 1` calls, and the last fault. */
  lemma CloudRetriesRunOut(p: State, r: Request, limit: nat)
    requires p.name.Cloud? && limit < |p.answers| && forall i :: 0 <= i <= limit ==> p.answers[i] == Refuse(true)
    ensures var out := CreateRetried(p, r, limit);
            && out.result == Err(Fault(true)) && out.tries == limit + 1 && out.slept == Backoff(limit)
            && out.state == p.(answers := p.answers[limit + 1..], log := CreateCalls(p.log, r, limit + 1))
  {
    NextAnswer(p, r, limit);
    var states := seq(limit + 2, i requires 0 <= i <= limit + 1 => AfterRefusals(p, r, i));
    RefusalsThen(p, r, limit, limit, states);
  }

  lemma RefusalsThen(p: State, r: Request, limit: nat, k: nat, states: seq<State>)
    requires p.name.Cloud? && k <= limit && k < |p.answers| && |states| == k + 2
    requires p.answers[k] == Refuse(true) ==> k == limit
    requires forall i :: 0 <= i < k ==> p.answers[i] == Refuse(true)
    requires forall i :: 0 <= i <= k ==> states[i] == AfterRefusals(p, r, i)
    requires states[k + 1] == Create(states[k], r).0
    ensures CreateRetried(p, r, limit) == Attempts(states[k + 1], Create(states[k], r).1, k + 1, Backoff(k))
  {
    forall i | 0 <= i < k ensures Create(states[i], r) == (states[i + 1], Err(Fault(true))) { NextAnswer(p, r, i); }
    NextAnswer(p, r, k);
    assert states[0] == p;
    hide Create, AfterRefusals, Backoff, Retry;
    RetryEndsAtFirstFinal(Creating(r), states, 0, limit);
    NoBackoff();
  }

  lemma NoBackoff()
    ensures Backoff(0) == 0
  {
  }

  /** What a granted subnet or server is on cannot be deleted before it. */
  lemma DependentsHoldNetworks(p: State, r: Request)
    requires p.name.Cloud? && !r.NetworkRequest? && Create(p, r).1.Ok?
    ensures var p' := Create(p, r).0; Delete(p', r.networkId) == (p'.(log := p'.log + [DeleteCall(r.networkId)]), false)
  {
    var (p', id) := Create(p, r);
    assert id.value in p'.live && r.networkId in p'.live[id.value];
  }
}
