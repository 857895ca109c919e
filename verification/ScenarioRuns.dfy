/**
 Scenario runs on the mock provider, whole: every script, on every topology that can be
 deployed, passes exactly when its expectations agree with a small abstract machine that
 knows whether the topology is deployed, which hosts are stopped and how many ping failures
 the mock still has to give.
 */
module ScenarioRuns {
  import opened Wrappers
  import opened Sorting
  import opened Topology
  import opened Providers
  import opened LocalState
  import opened Deployment
  import opened Rollback
  import opened Lifecycle
  import opened MockDeploy
  import opened Observers
  import opened Validations
  import opened PooledValidations
  import opened StoppedSet
  import opened Requirements
  import opened Scenario
  import Cidr
  import Compiler = TopologyCompiler
  import Pool = ParallelPings
  import Text

  // ----- the verdict of runs that really deploy

  /** How a deploy ends for its caller; a topology that does not compile is no answer at all. */
  ghost predicate Replies(r: DeployResult, a: Reply) {
    (r.Deployed? && a == DeployReturned(r.status)) || (r.DeployFailed? && a == DeployError)
  }

  /**
   On any provider and from any state: if the implicit deploy's answer is that of a deploy, the
   verdict is PASSED exactly when every record passed and the gates hold.
   */
  lemma VerdictIsTheRecords(ip: CidrReader, limit: nat, w: World, t: TopologyRow, runId: Option<int>, steps: seq<Step>,
                            maxSeconds: real, implicitDeploy: Happening, hs: seq<Happening>, spec: Option<Spec>)
    requires |steps| <= |hs| && Answers(DeployStep, implicitDeploy.answer)
    requires !HasDeploy(steps) && implicitDeploy.checkedAt <= maxSeconds ==>
               Replies(Deploy(ip, limit, w, t, runId).1, implicitDeploy.answer)
    ensures var rs := Judge(steps, maxSeconds, implicitDeploy, hs, |steps|);
            && (rs.overallOk && MeetsGates(spec, rs) <==> PassedBut(rs.records, false) && MeetsGates(spec, rs))
            && RecordsFollow(steps, hs, rs, |steps|)
  {
    hide Deploy, MeetsGates, Judge, RecordsFollow;
    DeployReturnsActive(ip, limit, w, t, runId);
    VerdictAccounting(steps, maxSeconds, implicitDeploy, hs, spec);
  }

  // ----- the concrete meaning of a step

  datatype Context = Context(ip: CidrReader, limit: nat, t: TopologyRow, runId: Option<int>)

  ghost predicate Reports(a: Reply, o: Outcome) {
    && a.ValidateReturned? && (a.passed <==> o.status == Pool.PASSED)
    && a.testsTotal == o.total && a.testsPassed == o.passed && a.latencies == o.latencies
  }

  /**
   `w'` and `a` are what a step does and answers on the mock, for some schedule of the ping
   pool; `gaveUp` says whether a ping was not waited for.
   */
  ghost predicate Yields(c: Context, w: World, s: Step, w': World, a: Reply, gaveUp: bool) {
    match s
    case DeployStep =>
      var (w1, r) := Deploy(c.ip, c.limit, w, c.t, c.runId);
      w' == w1 && Replies(r, a)
    case ValidateStep(_) => exists o :: IsOutcome(w, c.t, w', o) && Reports(a, o) && gaveUp == o.gaveUp
    case FailStep(n) =>
      (match InjectNodeDown(w, c.t, n)
       case Ok(w1) => w' == w1 && a == FailReturned
       case Err(_) => w' == w && a == FailRefused)
    case DriftStep(_) =>
      w' == w && a == DriftReturned(Drift(w, c.t) != [])
    case ReconcileStep =>
      (exists o :: IsOutcome(StartStopped(w, c.t).0, c.t, w', o)) && a == ReconcileReturned("RECONCILED")
    case CleanupStep =>
      w' == CleanUp(w, c.t.id)
      && a == CleanupReturned(if RowsOf(w.rows, c.t.id) == [] then "SKIPPED" else "CLEANED")
  }

  // ----- the abstract machine

  datatype Abstract = Down(pings: nat) | Up(stopped: set<string>, pings: nat)

  /** One step of the machine.  How many ping failures a validation uses up depends on the schedule. */
  ghost predicate Moves(t: Topology, a: Abstract, s: Step, a': Abstract) {
    match s
    case DeployStep => a' == if a.Down? then Up({}, a.pings) else a
    case ValidateStep(_) =>
      if a.Up? then a' == Up(a.stopped, a'.pings) && Spends(a.pings, Reaching(t, a.stopped), a'.pings) else a' == a
    case FailStep(n) => a' == if a.Up? && n in Hosts(t.nodes) then Up(a.stopped + {n}, a.pings) else a
    case ReconcileStep =>
      if a.Up? then a' == Up({}, a'.pings) && Spends(a.pings, Reaching(t, {}), a'.pings) else a' == a
    case CleanupStep => a' == Down(a.pings)
    case DriftStep(_) => a' == a
  }

  /** Without a deployment every ping fails, so only rules that are not pinged at all can pass. */
  predicate Passes(t: Topology, a: Abstract) {
    if a.Up? then ChecksPass(t, a.stopped, a.pings)
    else t.rules != [] && forall i :: 0 <= i < |t.rules| ==> t.rules[i].protocol != "icmp"
  }

  /** Drift stays away only from a deployment that runs and whose subnets do not look gone. */
  predicate LooksClean(t: Topology, a: Abstract) {
    a.Up? && a.stopped == {} && !Text.Contains(t.name, "missing")
  }

  /** Whether a step's expectation is right; a ping that is given up on counts as failed. */
  predicate Expected(t: Topology, a: Abstract, s: Step, gaveUp: bool) {
    match s
    case DeployStep => true
    case ValidateStep(expectPass) => expectPass == (Passes(t, a) && !gaveUp)
    case FailStep(n) => a.Up? && n in Hosts(t.nodes)
    case DriftStep(expectDetected) => expectDetected == !LooksClean(t, a)
    case ReconcileStep => true
    case CleanupStep => true
  }

  /** The pinged pairs that are up. */
  function UpNow(t: Topology, a: Abstract): nat {
    if a.Up? then PairsUp(t, a.stopped) else 0
  }

  // ----- the two agree

  /** The topologies of the theorem, those a mock can deploy: accepted, with a host, every host on some link. */
  ghost predicate Suitable(ip: CidrReader, t: Topology) {
    Accepted(ip, t) && Hosts(t.nodes) != [] && EveryHostLinked(t)
  }

  /** A mock whose create budgets the retries outlast. */
  ghost predicate Ready(p: State, limit: nat) {
    p.name.Mock? && forall op :: op in {CreateNetwork, CreateSubnet, CreateServer} ==> Budget(p, op) <= limit
  }

  lemma StaysReady(p: State, p': State, limit: nat)
    requires Ready(p, limit) && p'.name == p.name && forall op :: op != Op.RunPing ==> Budget(p', op) == Budget(p, op)
    ensures Ready(p', limit)
  {
  }

  ghost predicate Matches(c: Context, w: World, a: Abstract) {
    && Ready(w.provider, c.limit) && PingsLeft(w.provider) == a.pings
    && match a
       case Down(_) => RowsOf(w.rows, c.t.id) == [] && ActiveHandles(w.deployments, c.t.id) == []
       case Up(stopped, _) => RowsOf(w.rows, c.t.id) != [] && FullyDeployed(w, c.t) && StoppedOf(w, c.t) == stopped
  }

  /** A host on a link: there is a link. */
  lemma LinksExist(ip: CidrReader, t: Topology)
    requires Suitable(ip, t)
    ensures t.links != []
  {
    hide Accepted;
    assert Hosts(t.nodes)[0] in Hosts(t.nodes);
    assert IsLinked(t, Hosts(t.nodes)[0]);
  }

  lemma DeployMatches(c: Context, w: World, a: Abstract, w': World, answer: Reply)
    requires Suitable(c.ip, c.t.topology) && Matches(c, w, a) && Yields(c, w, DeployStep, w', answer, false)
    ensures Matches(c, w', if a.Down? then Up({}, a.pings) else a) && answer == DeployReturned("ACTIVE")
  {
    hide Accepted, RowsOf, Hosts, Provision, Record, RollBack, FullyDeployed, EveryHostLinked, KeyOf;
    LinksExist(c.ip, c.t.topology);
    DeployReturnsActive(c.ip, c.limit, w, c.t, c.runId);
    match a
    case Down(_) =>
      MockDeployActiveIff(c.ip, c.limit, w, c.t, c.runId);
      MockDeployEffect(c.ip, c.limit, w, c.t, c.runId);
      DeployKeepsReady(c, w, a);
      FreshDeployUp(c, w, a);
    case Up(_, _) =>
      RecordAgrees(w, c.t, c.runId);
      RecordKeepsDeployed(w, c.t, c.runId);
  }

  lemma RecordKeepsDeployed(w: World, t: TopologyRow, runId: Option<int>)
    ensures FullyDeployed(Record(w, t, runId), t) <==> FullyDeployed(w, t)
    ensures StoppedOf(Record(w, t, runId), t) == StoppedOf(w, t)
  {
  }

  /** Successful creates leave no budget behind. */
  lemma DeployKeepsReady(c: Context, w: World, a: Abstract)
    requires Suitable(c.ip, c.t.topology) && Matches(c, w, a) && a.Down?
    requires Deploy(c.ip, c.limit, w, c.t, c.runId).1.Deployed?
    ensures Ready(Deploy(c.ip, c.limit, w, c.t, c.runId).0.provider, c.limit)
  {
    hide Accepted, RowsOf, Hosts, RollBack, EveryHostLinked, KeyOf;
    var plan := PlanOf(c.t.topology);
    LinkedIsPlaced(c.t.topology);
    ProvisionKeepsReady(c.limit, plan, w.provider, []);
  }

  lemma {:induction false} ProvisionKeepsReady(limit: nat, plan: Plan, p: State, created: seq<Handle>)
    requires Ready(p, limit) && EveryHostPlaced(plan) && |created| <= Steps(plan)
    ensures Ready(Provision(limit, plan, p, created).provider, limit)
    decreases Steps(plan) - |created|
  {
    hide Hosts, Steps, EveryHostPlaced, NextCreate;
    if |created| < Steps(plan) {
      MockStep(limit, plan, p, created);
      var next := NextCreate(Mock, plan, created).value;
      var out := CreateRetried(p, next.request, limit);
      MockRetryFrom(p, next.request, 0, limit);
      if out.result.Ok? {
        var h := Handle(next.rtype, next.request.name, out.result.value);
        ProvisionKeepsReady(limit, plan, out.state, created + [h]);
      }
    }
  }

  /** A fresh deployment has nothing stopped. */
  lemma FreshDeployUp(c: Context, w: World, a: Abstract)
    requires Suitable(c.ip, c.t.topology) && Matches(c, w, a) && a.Down?
    requires var (w', r) := Deploy(c.ip, c.limit, w, c.t, c.runId);
             && r.Deployed? && MockDeployed(w', c.t)
             && (forall h :: h in Hosts(c.t.topology.nodes) ==> StatusOf(w'.provider, ServerId(h)) == Running)
    ensures var w' := Deploy(c.ip, c.limit, w, c.t, c.runId).0;
            RowsOf(w'.rows, c.t.id) != [] && FullyDeployed(w', c.t) && StoppedOf(w', c.t) == {}
  {
    hide RowsOf, Hosts, Deploy, EveryHostLinked, EveryHostPlaced;
    var w' := Deploy(c.ip, c.limit, w, c.t, c.runId).0;
    assert |HandlesOf(RowsOf(w'.rows, c.t.id))| == |MockHandles(PlanOf(c.t.topology))| > 0;
  }

  lemma CleanupMatches(c: Context, w: World, a: Abstract)
    requires Matches(c, w, a)
    ensures Matches(c, CleanUp(w, c.t.id), Down(a.pings))
  {
    hide RowsOf, WithoutRowsOf, FullyDeployed, Sort;
    RowsOfRemoved(w.rows, c.t.id);
    MockDeleteAll(w.provider, Sort(RowsOf(w.rows, c.t.id), DeleteFirst));
    StaysReady(w.provider, CleanUp(w, c.t.id).provider, c.limit);
  }

  lemma {:induction false} MockDeleteAll(p: State, rows: seq<Row>)
    requires p.name.Mock?
    ensures var (p', ok) := DeleteAll(p, rows); ok && p' == p.(log := p'.log)
    decreases |rows|
  {
    if rows != [] { MockDeleteAll(Delete(p, rows[0].rid).0, rows[1..]); }
  }

  /** Before a deploy no ping is answered, every host drifts and no fault can be injected. */
  lemma DownObservations(c: Context, w: World, a: Abstract, n: string)
    requires Suitable(c.ip, c.t.topology) && Matches(c, w, a) && a.Down?
    ensures Drift(w, c.t) != [] && InjectNodeDown(w, c.t, n).Err?
    ensures StartStopped(w, c.t).0 == w
  {
    hide Accepted, RowsOf, EveryHostLinked, Text.Contains;
    EveryHostMissing(w.provider, c.t.topology.nodes);
  }

  lemma DownOutcome(c: Context, w: World, a: Abstract, w': World, o: Outcome)
    requires Suitable(c.ip, c.t.topology) && Matches(c, w, a) && a.Down? && IsOutcome(w, c.t, w', o)
    ensures Matches(c, w', a)
    ensures o.status == Pool.PASSED <==> Passes(c.t.topology, a) && !o.gaveUp
    ensures o.total == Pinged(c.t.topology) && (a.pings == 0 && !o.gaveUp ==> o.passed == 0)
  {
    LinksExist(c.ip, c.t.topology);
    OutcomeExactly(w, c.t, w', o);
    NoPingAnswered(w, c.t);
    StaysReady(w.provider, w'.provider, c.limit);
    hide Accepted, RowsOf, EveryHostLinked, IsOutcome, ChecksOf, UpChecks, UpPairs, ValidationHolds, Passes,
         ActiveHandles, Ready;
    assert Passes(c.t.topology, a) <==> Passes(c.t.topology, Down(0)) by { SamePasses(c.t.topology, a.pings); }
  }

  lemma SamePasses(t: Topology, pings: nat)
    ensures Passes(t, Down(pings)) == Passes(t, Down(0))
  {
  }

  lemma NoPingAnswered(w: World, t: TopologyRow)
    requires RowsOf(w.rows, t.id) == [] && t.topology.links != []
    ensures |UpChecks(w, t, ChecksOf(t.topology))| == 0 == |UpPairs(w, t, ChecksOf(t.topology))|
    ensures ValidationHolds(w, t) <==> Passes(t.topology, Down(0))
  {
    hide RowsOf;
    var checks := ChecksOf(t.topology);
    assert UpChecks(w, t, checks) == {} == UpPairs(w, t, checks);
    assert forall i :: 0 <= i < |checks| ==> !BothUp(w, t, checks[i].source, checks[i].target);
    if t.topology.rules == [] {
      assert checks[0].icmp;
    } else {
      assert forall i :: 0 <= i < |checks| ==> (checks[i].icmp <==> t.topology.rules[i].protocol == "icmp");
    }
  }

  lemma {:induction false} EveryHostMissing(p: State, nodes: seq<Node>)
    ensures |HostsDrift(p, [], nodes)| == |Hosts(nodes)|
  {
    if nodes != [] { EveryHostMissing(p, nodes[..|nodes| - 1]); }
  }

  lemma UpOutcome(c: Context, w: World, a: Abstract, w': World, o: Outcome)
    requires Suitable(c.ip, c.t.topology) && Matches(c, w, a) && a.Up? && IsOutcome(w, c.t, w', o)
    ensures Matches(c, w', Up(a.stopped, PingsLeft(w'.provider)))
    ensures Spends(a.pings, Reaching(c.t.topology, a.stopped), PingsLeft(w'.provider))
    ensures o.status == Pool.PASSED <==> Passes(c.t.topology, a) && !o.gaveUp
    ensures o.total == Pinged(c.t.topology)
    ensures a.pings == 0 && !o.gaveUp ==> o.passed == PairsUp(c.t.topology, a.stopped)
  {
    OutcomeOfDeployed(w, c.t, w', o);
    StaysReady(w.provider, w'.provider, c.limit);
    hide Accepted, RowsOf, EveryHostLinked, FullyDeployed, IsOutcome, ChecksPass, Reaching, PairsUp, Pinged, Ready,
         StoppedOf;
  }

  /** After the repair nothing is stopped and the failures left are the same. */
  lemma UpRepair(c: Context, w: World, a: Abstract)
    requires Suitable(c.ip, c.t.topology) && Matches(c, w, a) && a.Up?
    ensures Matches(c, StartStopped(w, c.t).0, Up({}, a.pings))
  {
    RepairEmptiesStopped(w, c.t);
    var w1 := StartStopped(w, c.t).0;
    hide StartStopped, Accepted, RowsOf, EveryHostLinked, FullyDeployed, StoppedOf, Hosts;
    assert forall op :: Budget(w1.provider, op) == Budget(w.provider, op);
    StaysReady(w.provider, w1.provider, c.limit);
  }

  lemma UpDrift(c: Context, w: World, a: Abstract)
    requires Suitable(c.ip, c.t.topology) && Matches(c, w, a) && a.Up?
    ensures Drift(w, c.t) == [] <==> LooksClean(c.t.topology, a)
  {
    hide Accepted, RowsOf, Hosts, FullyDeployed, EveryHostLinked, Text.Contains, Drift;
    LinksExist(c.ip, c.t.topology);
    if Text.Contains(c.t.topology.name, "missing") {
      SubnetsLookGone(w, c.t);
    } else {
      DriftIsStoppedHosts(w, c.t);
    }
  }

  /** What the runner is told, and what it makes of it. */
  ghost predicate JudgedRight(t: Topology, a: Abstract, s: Step, answer: Reply, gaveUp: bool) {
    && (Met(s, answer) <==> Expected(t, a, s, gaveUp))
    && Answers(s, answer) && (s.DeployStep? ==> Met(s, answer))
    && (s.ValidateStep? ==>
          && answer.ValidateReturned? && (answer.passed <==> Passes(t, a) && !gaveUp)
          && answer.testsTotal == Pinged(t) && (a.pings == 0 && !gaveUp ==> answer.testsPassed == UpNow(t, a)))
  }

  /** One step: the worlds stay matched and the runner's judgement is the abstract one. */
  lemma StepMatches(c: Context, w: World, a: Abstract, s: Step, w': World, answer: Reply, gaveUp: bool)
    returns (a': Abstract)
    requires Suitable(c.ip, c.t.topology) && Matches(c, w, a) && Yields(c, w, s, w', answer, gaveUp)
    ensures Moves(c.t.topology, a, s, a') && Matches(c, w', a')
    ensures JudgedRight(c.t.topology, a, s, answer, gaveUp)
  {
    hide Suitable, Matches, Passes, Pinged, PairsUp, Reaching, Drift, InjectNodeDown, StartStopped, Deploy, CleanUp,
         Spends, LooksClean, IsOutcome, RowsOf, Hosts;
    match s
    case DeployStep =>
      a' := if a.Down? then Up({}, a.pings) else a;
      DeployMatches(c, w, a, w', answer);
    case ValidateStep(_) =>
      var o :| IsOutcome(w, c.t, w', o) && Reports(answer, o) && gaveUp == o.gaveUp;
      if a.Up? {
        a' := Up(a.stopped, PingsLeft(w'.provider));
        UpOutcome(c, w, a, w', o);
      } else {
        a' := a;
        DownOutcome(c, w, a, w', o);
      }
    case FailStep(n) =>
      a' := if a.Up? && n in Hosts(c.t.topology.nodes) then Up(a.stopped + {n}, a.pings) else a;
      FailMatches(c, w, a, n);
    case DriftStep(_) =>
      a' := a;
      if a.Up? { UpDrift(c, w, a); } else { DownObservations(c, w, a, ""); DownIsNotClean(c.t.topology, a); }
    case ReconcileStep =>
      a' := ReconcileMatches(c, w, a, w');
    case CleanupStep =>
      a' := Down(a.pings);
      CleanupMatches(c, w, a);
  }

  lemma DownIsNotClean(t: Topology, a: Abstract)
    requires a.Down?
    ensures !LooksClean(t, a)
  {
  }

  lemma ReconcileMatches(c: Context, w: World, a: Abstract, w': World) returns (a': Abstract)
    requires Suitable(c.ip, c.t.topology) && Matches(c, w, a)
    requires exists o :: IsOutcome(StartStopped(w, c.t).0, c.t, w', o)
    ensures Moves(c.t.topology, a, ReconcileStep, a') && Matches(c, w', a')
  {
    hide Suitable, Matches, Passes, Pinged, PairsUp, Reaching, StartStopped, Spends, IsOutcome, Drift, InjectNodeDown;
    var w1 := StartStopped(w, c.t).0;
    var o :| IsOutcome(w1, c.t, w', o);
    if a.Up? {
      UpRepair(c, w, a);
      UpOutcome(c, w1, Up({}, a.pings), w', o);
      a' := Up({}, PingsLeft(w'.provider));
    } else {
      DownObservations(c, w, a, "");
      DownOutcome(c, w, a, w', o);
      a' := a;
    }
  }

  lemma FailMatches(c: Context, w: World, a: Abstract, n: string)
    requires Suitable(c.ip, c.t.topology) && Matches(c, w, a)
    ensures match InjectNodeDown(w, c.t, n)
            case Ok(w') => a.Up? && n in Hosts(c.t.topology.nodes) && Matches(c, w', Up(a.stopped + {n}, a.pings))
            case Err(_) => a.Down? || n !in Hosts(c.t.topology.nodes)
  {
    hide Accepted, RowsOf, Hosts, FullyDeployed, EveryHostLinked, InjectNodeDown, ActiveHandles;
    if a.Down? {
      DownObservations(c, w, a, n);
    } else {
      NodeDownStops(w, c.t, n);
      var stopped := Stop(w.provider, ServerId(n));
      assert forall op :: Budget(stopped, op) == Budget(w.provider, op);
      StaysReady(w.provider, stopped, c.limit);
    }
  }

  // ----- whole runs

  /**
   A run on the mock: `ws[i]` is the world before turn `i`, `gaveUps[i]` whether a ping of turn
   `i` was given up on; nothing exceeds the duration quota.
   */
  ghost predicate IsMockRun(c: Context, ws: seq<World>, steps: seq<Step>, hs: seq<Happening>, gaveUps: seq<bool>,
                            maxSeconds: real) {
    && |ws| == |steps| + 1 && |hs| == |gaveUps| == |steps|
    && forall i :: 0 <= i < |steps| ==>
         hs[i].checkedAt <= maxSeconds && Yields(c, ws[i], steps[i], ws[i + 1], hs[i].answer, gaveUps[i])
  }

  ghost predicate IsAbstractRun(t: Topology, xs: seq<Abstract>, steps: seq<Step>) {
    |xs| == |steps| + 1 && forall i :: 0 <= i < |steps| ==> Moves(t, xs[i], steps[i], xs[i + 1])
  }

  /** Each run follows a run of the abstract machine, turn by turn. */
  lemma {:induction false} RunMatches(c: Context, ws: seq<World>, steps: seq<Step>, hs: seq<Happening>,
                                      gaveUps: seq<bool>, maxSeconds: real, a: Abstract, n: nat)
    returns (xs: seq<Abstract>)
    requires Suitable(c.ip, c.t.topology) && IsMockRun(c, ws, steps, hs, gaveUps, maxSeconds) && Matches(c, ws[0], a)
    requires n <= |steps|
    ensures IsAbstractRun(c.t.topology, xs, steps[..n]) && xs[0] == a
    ensures forall i :: 0 <= i <= n ==> Matches(c, ws[i], xs[i])
    ensures forall i :: 0 <= i < n ==> JudgedRight(c.t.topology, xs[i], steps[i], hs[i].answer, gaveUps[i])
  {
    hide Suitable, Matches, Yields, Moves, JudgedRight;
    if n == 0 {
      xs := [a];
    } else {
      var before := RunMatches(c, ws, steps, hs, gaveUps, maxSeconds, a, n - 1);
      assert Yields(c, ws[n - 1], steps[n - 1], ws[n], hs[n - 1].answer, gaveUps[n - 1]);
      var a' := StepMatches(c, ws[n - 1], before[n - 1], steps[n - 1], ws[n], hs[n - 1].answer, gaveUps[n - 1]);
      xs := before + [a'];
    }
  }

  /** Without an aborting step the run executes everything, and its verdict is the conjunction of the steps. */
  lemma {:induction false} JudgeAll(steps: seq<Step>, maxSeconds: real, implicitDeploy: Happening, hs: seq<Happening>,
                                    n: nat)
    requires n <= |steps| <= |hs| && implicitDeploy.checkedAt <= maxSeconds
               && implicitDeploy.answer == DeployReturned("ACTIVE")
    requires forall i :: 0 <= i < |steps| ==> hs[i].checkedAt <= maxSeconds
    requires forall i :: 0 <= i < |steps| && steps[i].DeployStep? ==> Met(steps[i], hs[i].answer)
    ensures var rs := Judge(steps, maxSeconds, implicitDeploy, hs, n);
            && !rs.abort && |rs.records| == Lead(steps) + n
            && (rs.overallOk <==> forall i :: 0 <= i < n ==> Met(steps[i], hs[i].answer))
            && (forall i :: 0 <= i < n ==> rs.records[Lead(steps) + i] == RecordOf(steps[i], hs[i].answer))
            && (Lead(steps) == 1 ==> rs.records[0].passed)
  {
    hide Met, RecordOf, Execute, Begin, HasDeploy;
    if n > 0 {
      JudgeAll(steps, maxSeconds, implicitDeploy, hs, n - 1);
      ExecuteRecords(Judge(steps, maxSeconds, implicitDeploy, hs, n - 1), steps[n - 1], hs[n - 1]);
    } else {
      BeginGood(steps, maxSeconds, implicitDeploy);
    }
  }

  lemma BeginGood(steps: seq<Step>, maxSeconds: real, implicitDeploy: Happening)
    requires implicitDeploy.checkedAt <= maxSeconds && implicitDeploy.answer == DeployReturned("ACTIVE")
    ensures var rs := Begin(steps, maxSeconds, implicitDeploy);
            && !rs.abort && rs.overallOk && |rs.records| == Lead(steps) && (Lead(steps) == 1 ==> rs.records[0].passed)
  {
    MetDeploy(implicitDeploy.answer);
    NotQuota(DeployStep, implicitDeploy.answer);
  }

  lemma ExecuteRecords(rs: RunState, s: Step, h: Happening)
    requires !rs.abort && (s.DeployStep? ==> Met(s, h.answer))
    ensures var rs' := Execute(rs, s, h);
            && !rs'.abort && rs'.records == rs.records + [RecordOf(s, h.answer)]
            && (rs'.overallOk <==> rs.overallOk && Met(s, h.answer))
  {
    hide Met, RecordOf;
  }

  /**
   Every script on every suitable topology, whatever the schedules and time-outs of its pings:
   started on a matching mock world, with a deploy of its own or an implicit one, the run passes
   exactly when its expectations are those of the abstract machine along some run of it, and
   each record says whether its own expectation was right.
   */
  lemma ScriptsAreJudgedExactly(c: Context, w0: World, start: Abstract, implicitDeploy: Happening, ws: seq<World>,
                                steps: seq<Step>, hs: seq<Happening>, gaveUps: seq<bool>, maxSeconds: real)
    returns (xs: seq<Abstract>)
    requires Suitable(c.ip, c.t.topology) && Matches(c, w0, start) && implicitDeploy.checkedAt <= maxSeconds
    requires IsMockRun(c, ws, steps, hs, gaveUps, maxSeconds)
    requires if HasDeploy(steps) then ws[0] == w0 && implicitDeploy.answer == DeployReturned("ACTIVE")
             else Yields(c, w0, DeployStep, ws[0], implicitDeploy.answer, false)
    ensures IsAbstractRun(c.t.topology, xs, steps)
    ensures xs[0] == if HasDeploy(steps) || start.Up? then start else Up({}, start.pings)
    ensures var rs := Judge(steps, maxSeconds, implicitDeploy, hs, |steps|);
            && (rs.overallOk <==> forall i :: 0 <= i < |steps| ==> Expected(c.t.topology, xs[i], steps[i], gaveUps[i]))
            && !rs.abort && |rs.records| == Lead(steps) + |steps|
            && (forall i :: 0 <= i < |steps| ==>
                  (rs.records[Lead(steps) + i].passed <==> Expected(c.t.topology, xs[i], steps[i], gaveUps[i])))
            && (Lead(steps) == 1 ==> rs.records[0].passed)
    ensures forall i :: 0 <= i < |steps| ==>
              JudgedRight(c.t.topology, xs[i], steps[i], hs[i].answer, gaveUps[i])
  {
    hide Suitable, Matches, Yields, Met, Expected, RecordOf, Judge, Moves, Passes, Pinged, UpNow, Answers;
    var t, a := c.t.topology, start;
    if !HasDeploy(steps) {
      a := StepMatches(c, w0, start, DeployStep, ws[0], implicitDeploy.answer, false);
      DeployMove(t, start, a);
      MetDeploy(implicitDeploy.answer);
    }
    xs := RunMatches(c, ws, steps, hs, gaveUps, maxSeconds, a, |steps|);
    assert steps[..|steps|] == steps;
    forall i | 0 <= i < |steps|
      ensures RecordOf(steps[i], hs[i].answer).passed == Met(steps[i], hs[i].answer)
      ensures Met(steps[i], hs[i].answer) <==> Expected(t, xs[i], steps[i], gaveUps[i])
      ensures steps[i].DeployStep? ==> Met(steps[i], hs[i].answer)
    {
      NotQuota(steps[i], hs[i].answer);
      assert JudgedRight(t, xs[i], steps[i], hs[i].answer, gaveUps[i]);
    }
    JudgeAll(steps, maxSeconds, implicitDeploy, hs, |steps|);
  }

  /** The step a failed run on the mock names is the first one whose expectation is wrong. */
  lemma FailedStepIsFirstWrong(c: Context, w0: World, start: Abstract, implicitDeploy: Happening, ws: seq<World>,
                               steps: seq<Step>, hs: seq<Happening>, gaveUps: seq<bool>, maxSeconds: real)
    returns (xs: seq<Abstract>)
    requires Suitable(c.ip, c.t.topology) && Matches(c, w0, start) && implicitDeploy.checkedAt <= maxSeconds
    requires IsMockRun(c, ws, steps, hs, gaveUps, maxSeconds)
    requires if HasDeploy(steps) then ws[0] == w0 && implicitDeploy.answer == DeployReturned("ACTIVE")
             else Yields(c, w0, DeployStep, ws[0], implicitDeploy.answer, false)
    ensures IsAbstractRun(c.t.topology, xs, steps)
    ensures xs[0] == if HasDeploy(steps) || start.Up? then start else Up({}, start.pings)
    ensures match FirstFailedLabel(Judge(steps, maxSeconds, implicitDeploy, hs, |steps|).records)
            case None => forall i :: 0 <= i < |steps| ==> Expected(c.t.topology, xs[i], steps[i], gaveUps[i])
            case Some(name) => exists i :: FirstWrong(c.t.topology, xs, steps, gaveUps, i) && name == StepName(steps[i])
  {
    hide Suitable, Matches, Yields, Expected, Judge, Moves, JudgedRight, FirstFailedLabel, HasDeploy, RecordOf,
         StepName;
    xs := ScriptsAreJudgedExactly(c, w0, start, implicitDeploy, ws, steps, hs, gaveUps, maxSeconds);
    var rs := Judge(steps, maxSeconds, implicitDeploy, hs, |steps|);
    var lead := Lead(steps);
    FirstFailedFindsFailure(rs.records);
    ImplicitAnswers(c, w0, ws[0], implicitDeploy, steps);
    forall i | 0 <= i < |steps| ensures Answers(steps[i], hs[i].answer) {
      AnswersRight(c.t.topology, xs[i], steps[i], hs[i].answer, gaveUps[i]);
    }
    RecordsAreNamed(steps, maxSeconds, implicitDeploy, hs);
    hide Answers, IsAbstractRun, IsMockRun;
    if FirstFailedLabel(rs.records).Some? {
      var k :| IsFirstFailed(rs.records, k) && rs.records[k].name == FirstFailedLabel(rs.records).value;
      FailedIsWrong(c.t.topology, xs, steps, gaveUps, rs.records, lead, k);
      assert rs.records[lead + (k - lead)].name == StepName(steps[k - lead]);
    } else {
      forall i | 0 <= i < |steps| ensures Expected(c.t.topology, xs[i], steps[i], gaveUps[i]) {
        assert rs.records[lead + i].passed;
      }
    }
  }

  lemma FailedIsWrong(t: Topology, xs: seq<Abstract>, steps: seq<Step>, gaveUps: seq<bool>, records: seq<StepRecord>,
                      lead: nat, k: int)
    requires |xs| == |steps| + 1 && |gaveUps| == |steps| && |records| == lead + |steps| && lead <= 1
    requires lead == 1 ==> records[0].passed
    requires forall i :: 0 <= i < |steps| ==> (records[lead + i].passed <==> Expected(t, xs[i], steps[i], gaveUps[i]))
    requires IsFirstFailed(records, k)
    ensures lead <= k && FirstWrong(t, xs, steps, gaveUps, k - lead)
  {
    hide Expected;
    forall i | 0 <= i < k - lead ensures Expected(t, xs[i], steps[i], gaveUps[i]) {
      assert records[lead + i].passed;
    }
  }

  /** What the record of a step is called. */
  function StepName(s: Step): string {
    match s
    case DeployStep => "deploy"
    case ValidateStep(_) => "validate"
    case FailStep(node) => "fail " + node
    case DriftStep(_) => "drift"
    case ReconcileStep => "reconcile"
    case CleanupStep => "cleanup"
  }

  ghost predicate FirstWrong(t: Topology, xs: seq<Abstract>, steps: seq<Step>, gaveUps: seq<bool>, i: int)
    requires |xs| == |steps| + 1 && |gaveUps| == |steps|
  {
    && 0 <= i < |steps| && !Expected(t, xs[i], steps[i], gaveUps[i])
    && forall j :: 0 <= j < i ==> Expected(t, xs[j], steps[j], gaveUps[j])
  }

  /** In a run that is not cut short each step's record follows the implicit deploy's, under its own name. */
  lemma RecordsAreNamed(steps: seq<Step>, maxSeconds: real, implicitDeploy: Happening, hs: seq<Happening>)
    requires |steps| <= |hs| && Answers(DeployStep, implicitDeploy.answer)
    requires forall i :: 0 <= i < |steps| ==> Answers(steps[i], hs[i].answer)
    requires !Judge(steps, maxSeconds, implicitDeploy, hs, |steps|).abort
    ensures var rs := Judge(steps, maxSeconds, implicitDeploy, hs, |steps|);
            && |rs.records| == Lead(steps) + |steps|
            && forall i :: 0 <= i < |steps| ==> rs.records[Lead(steps) + i].name == StepName(steps[i])
  {
    RecordsAccount(steps, maxSeconds, implicitDeploy, hs, |steps|);
    hide Judge, RecordOf, Met, StepName, Answers, Lead;
    var rs, lead := Judge(steps, maxSeconds, implicitDeploy, hs, |steps|), Lead(steps);
    forall i | 0 <= i < |steps| ensures rs.records[lead + i].name == StepName(steps[i]) {
      assert rs.records[lead + i] == RecordOf(steps[i], hs[i].answer);
      NameOfRecord(steps[i], hs[i].answer);
    }
  }

  lemma ImplicitAnswers(c: Context, w: World, w': World, h: Happening, steps: seq<Step>)
    requires if HasDeploy(steps) then h.answer == DeployReturned("ACTIVE")
             else Yields(c, w, DeployStep, w', h.answer, false)
    ensures Answers(DeployStep, h.answer)
  {
    hide Deploy;
  }

  lemma AnswersRight(t: Topology, a: Abstract, s: Step, answer: Reply, gaveUp: bool)
    requires JudgedRight(t, a, s, answer, gaveUp)
    ensures Answers(s, answer)
  {
    hide Expected, Passes, Met, Answers;
  }

  lemma NameOfRecord(s: Step, a: Reply)
    ensures RecordOf(s, a).name == StepName(s)
  {
  }

  lemma DeployMove(t: Topology, a: Abstract, a': Abstract)
    requires Moves(t, a, DeployStep, a')
    ensures a' == if a.Up? then a else Up({}, a.pings)
  {
  }

  // ----- without ping failures the machine is deterministic

  function Advance(t: Topology, a: Abstract, s: Step): Abstract {
    match s
    case DeployStep => if a.Down? then Up({}, a.pings) else a
    case FailStep(n) => if a.Up? && n in Hosts(t.nodes) then Up(a.stopped + {n}, a.pings) else a
    case ReconcileStep => if a.Up? then Up({}, a.pings) else a
    case CleanupStep => Down(a.pings)
    case _ => a
  }

  function After(t: Topology, a: Abstract, steps: seq<Step>): Abstract {
    if steps == [] then a else Advance(t, After(t, a, steps[..|steps| - 1]), steps[|steps| - 1])
  }

  lemma MovesAdvance(t: Topology, a: Abstract, s: Step, a': Abstract)
    requires Moves(t, a, s, a') && a.pings == 0
    ensures a' == Advance(t, a, s) && a'.pings == 0
  {
    hide Hosts, Reaching;
  }

  lemma {:induction false} AfterStep(t: Topology, a: Abstract, steps: seq<Step>, i: nat)
    requires i < |steps|
    ensures After(t, a, steps[..i + 1]) == Advance(t, After(t, a, steps[..i]), steps[i])
  {
    hide Advance;
    assert steps[..i + 1][..i] == steps[..i];
  }

  lemma {:induction false} RunsAreAfter(t: Topology, xs: seq<Abstract>, steps: seq<Step>, n: nat)
    requires IsAbstractRun(t, xs, steps) && n <= |steps| && xs[0].pings == 0
    ensures forall i :: 0 <= i <= n ==> xs[i] == After(t, xs[0], steps[..i]) && xs[i].pings == 0
  {
    hide Moves, Advance;
    if n > 0 {
      RunsAreAfter(t, xs, steps, n - 1);
      MovesAdvance(t, xs[n - 1], steps[n - 1], xs[n]);
      AfterStep(t, xs[0], steps, n - 1);
    } else {
      assert steps[..0] == [];
    }
  }

  predicate ScriptHolds(t: Topology, a: Abstract, steps: seq<Step>) {
    forall i :: 0 <= i < |steps| ==> Expected(t, After(t, a, steps[..i]), steps[i], false)
  }

  // ----- the availability gate

  /** All pings that the validations of a script make. */
  function Tested(t: Topology, steps: seq<Step>): nat {
    if steps == [] then 0 else
      Tested(t, steps[..|steps| - 1]) + if steps[|steps| - 1].ValidateStep? then Pinged(t) else 0
  }

  /** Those of them between running hosts. */
  function TestedUp(t: Topology, a: Abstract, steps: seq<Step>): nat {
    if steps == [] then 0 else
      var before := steps[..|steps| - 1];
      TestedUp(t, a, before) + if steps[|steps| - 1].ValidateStep? then UpNow(t, After(t, a, before)) else 0
  }

  function Availability(t: Topology, a: Abstract, steps: seq<Step>): real {
    if Tested(t, steps) == 0 then 1.0 else TestedUp(t, a, steps) as real / Tested(t, steps) as real
  }

  lemma {:induction false} TotalsAre(t: Topology, a: Abstract, steps: seq<Step>, hs: seq<Happening>, n: nat)
    requires n <= |steps| == |hs|
    requires forall i :: 0 <= i < n && steps[i].ValidateStep? ==>
               && hs[i].answer.ValidateReturned? && hs[i].answer.testsTotal == Pinged(t)
               && hs[i].answer.testsPassed == UpNow(t, After(t, a, steps[..i]))
    ensures SumOf(TotalOf, ValidationReplies(steps, hs, n)) == Tested(t, steps[..n])
    ensures SumOf(PassedOf, ValidationReplies(steps, hs, n)) == TestedUp(t, a, steps[..n])
  {
    hide Pinged, UpNow, After, SumOf, TotalOf, PassedOf;
    if n > 0 {
      var replies, a' := ValidationReplies(steps, hs, n - 1), hs[n - 1].answer;
      TotalsAre(t, a, steps, hs, n - 1);
      assert steps[..n][..n - 1] == steps[..n - 1];
      SumsNext(replies, a');
      assert replies + [] == replies;
      ReturnedTotals(a');
    } else {
      NoSums();
    }
  }

  lemma ReturnedTotals(a: Reply)
    ensures a.ValidateReturned? ==> TotalOf(a) == a.testsTotal && PassedOf(a) == a.testsPassed
  {
  }

  lemma NoSums()
    ensures SumOf(TotalOf, []) == 0 == SumOf(PassedOf, [])
  {
  }

  /**
   Without ping failures and time-outs everything is determined: with an availability
   requirement the run passes exactly when the script's expectations are right and the share of
   pings between running hosts reaches the threshold.
   */
  lemma AvailabilityIsExact(c: Context, w0: World, start: Abstract, implicitDeploy: Happening, ws: seq<World>,
                            steps: seq<Step>, hs: seq<Happening>, gaveUps: seq<bool>, maxSeconds: real,
                            threshold: real)
    requires Suitable(c.ip, c.t.topology) && Matches(c, w0, start) && implicitDeploy.checkedAt <= maxSeconds
    requires IsMockRun(c, ws, steps, hs, gaveUps, maxSeconds)
    requires if HasDeploy(steps) then ws[0] == w0 && implicitDeploy.answer == DeployReturned("ACTIVE")
             else Yields(c, w0, DeployStep, ws[0], implicitDeploy.answer, false)
    requires start.pings == 0 && forall i :: 0 <= i < |steps| ==> !gaveUps[i]
    ensures var t, rs := c.t.topology, Judge(steps, maxSeconds, implicitDeploy, hs, |steps|);
            var a := if HasDeploy(steps) || start.Up? then start else Up({}, start.pings);
            && (rs.overallOk <==> ScriptHolds(t, a, steps))
            && rs.testsTotal == Tested(t, steps) && rs.testsPassed == TestedUp(t, a, steps)
            && (rs.overallOk && MeetsGates(Some(Spec(Some(threshold), None, None, None)), rs) <==>
                  ScriptHolds(t, a, steps) && Availability(t, a, steps) >= threshold)
  {
    hide Suitable, Matches, Yields, Expected, Judge, Moves, Passes, Pinged, UpNow, After, HasDeploy, Executed,
         SumOf, ValidationReplies, Tested, TestedUp;
    var t := c.t.topology;
    var xs := ScriptsAreJudgedExactly(c, w0, start, implicitDeploy, ws, steps, hs, gaveUps, maxSeconds);
    RunsAreAfter(t, xs, steps, |steps|);
    forall i | 0 <= i < |steps| && steps[i].ValidateStep?
      ensures hs[i].answer.ValidateReturned? && hs[i].answer.testsTotal == Pinged(t)
      ensures hs[i].answer.testsPassed == UpNow(t, After(t, xs[0], steps[..i]))
    {
      assert JudgedRight(t, xs[i], steps[i], hs[i].answer, gaveUps[i]);
    }
    TotalsAre(t, xs[0], steps, hs, |steps|);
    assert steps[..|steps|] == steps;
    NotAborted(steps, maxSeconds, implicitDeploy, hs, |steps|);
    TotalsAggregate(steps, maxSeconds, implicitDeploy, hs, |steps|);
  }

  // ----- such runs exist

  /** A mock nobody has used, with nothing in the other two stores, is a place to start. */
  lemma FreshMockIsDown(c: Context, w: World)
    requires w.provider.name.Mock? && w.provider.budgets == map[]
    requires w.rows == [] && w.deployments == map[]
    ensures Matches(c, w, Down(0))
  {
  }

  /** There is a topology to speak of: two hosts on one link. */
  lemma TwoHostsAreSuitable(ip: CidrReader)
    requires ip("10.0.0.0/24") == Some(Cidr.RawPrefix(Cidr.V4, 167772160, 24))
    ensures Suitable(ip, Compiler.TWO_HOSTS) && OnlyHosts(Compiler.TWO_HOSTS) && Compiler.TWO_HOSTS.rules == []
  {
    Compiler.TwoHostsAreAccepted(ip);
    hide Accepted, Hosts;
    var t := Compiler.TWO_HOSTS;
    assert IsLinked(t, "a") && IsLinked(t, "b") by { assert t.links[0].src == "a" && t.links[0].dst == "b"; }
  }

  lemma CompiledDeploys(c: Context, w: World)
    requires Accepted(c.ip, c.t.topology)
    ensures !Deploy(c.ip, c.limit, w, c.t, c.runId).1.NotCompilable?
  {
    hide Accepted, Provision, RollBack, Record, AddRows, RowsOf;
  }

  lemma TotalIsNat(w: World, t: TopologyRow, w': World, o: Outcome)
    requires IsOutcome(w, t, w', o)
    ensures o.total >= 0
  {
    OutcomeExactly(w, t, w', o);
    hide IsOutcome, UpChecks, UpPairs, ChecksOf, ValidationHolds;
  }

  lemma DeployYields(c: Context, w: World) returns (w': World, a: Reply)
    requires Accepted(c.ip, c.t.topology)
    ensures Yields(c, w, DeployStep, w', a, false)
  {
    CompiledDeploys(c, w);
    hide Accepted, Deploy;
    var out := Deploy(c.ip, c.limit, w, c.t, c.runId);
    w', a := out.0, if out.1.Deployed? then DeployReturned(out.1.status) else DeployError;
  }

  lemma ValidateYields(c: Context, w: World, expectPass: bool) returns (w': World, a: Reply)
    ensures Yields(c, w, ValidateStep(expectPass), w', a, false)
  {
    hide IsOutcome;
    var o;
    w', o := OutcomeExists(w, c.t);
    TotalIsNat(w, c.t, w', o);
    a := ValidateReturned(o.status == Pool.PASSED, o.total, o.passed, o.latencies);
    assert IsOutcome(w, c.t, w', o) && Reports(a, o) && false == o.gaveUp;
  }

  lemma ReconcileYields(c: Context, w: World) returns (w': World, a: Reply)
    ensures Yields(c, w, ReconcileStep, w', a, false)
  {
    hide IsOutcome, StartStopped;
    var o;
    w', o := OutcomeExists(StartStopped(w, c.t).0, c.t);
    a := ReconcileReturned("RECONCILED");
  }

  lemma FailYields(c: Context, w: World, n: string) returns (w': World, a: Reply)
    ensures Yields(c, w, FailStep(n), w', a, false)
  {
    hide InjectNodeDown;
    var out := InjectNodeDown(w, c.t, n);
    if out.Ok? { w', a := out.value, FailReturned; } else { w', a := w, FailRefused; }
  }

  lemma CleanupYields(c: Context, w: World) returns (w': World, a: Reply)
    ensures Yields(c, w, CleanupStep, w', a, false)
  {
    hide CleanUp, RowsOf;
    w', a := CleanUp(w, c.t.id), CleanupReturned(if RowsOf(w.rows, c.t.id) == [] then "SKIPPED" else "CLEANED");
  }

  lemma YieldsSomething(c: Context, w: World, s: Step) returns (w': World, a: Reply)
    requires Accepted(c.ip, c.t.topology)
    ensures Yields(c, w, s, w', a, false)
  {
    hide Drift, Accepted;
    match s
    case DeployStep => w', a := DeployYields(c, w);
    case ValidateStep(expectPass) => w', a := ValidateYields(c, w, expectPass);
    case FailStep(n) => w', a := FailYields(c, w, n);
    case DriftStep(_) => w', a := w, DriftReturned(Drift(w, c.t) != []);
    case ReconcileStep => w', a := ReconcileYields(c, w);
    case CleanupStep => w', a := CleanupYields(c, w);
  }

  /** Every script can be run from every world without a time-out, so the theorems speak of something. */
  lemma {:induction false} RunExists(c: Context, w: World, steps: seq<Step>, maxSeconds: real)
    returns (ws: seq<World>, hs: seq<Happening>)
    requires Accepted(c.ip, c.t.topology) && maxSeconds >= 0.0
    ensures IsMockRun(c, ws, steps, hs, seq(|steps|, _ => false), maxSeconds) && ws[0] == w
  {
    hide Yields, Accepted;
    if steps == [] {
      ws, hs := [w], [];
    } else {
      var n := |steps| - 1;
      ws, hs := RunExists(c, w, steps[..n], maxSeconds);
      var w', a := YieldsSomething(c, ws[n], steps[n]);
      ws, hs := ws + [w'], hs + [Happening(0.0, a, 0.0)];
    }
  }

  // ----- the recovery script of the documentation

  function RecoveryScript(n: string): seq<Step> {
    [DeployStep, ValidateStep(true), FailStep(n), ValidateStep(false), DriftStep(true), ReconcileStep,
     ValidateStep(true)]
  }

  /** Some ping of a validation has the host at one end. */
  ghost predicate IsChecked(t: Topology, n: string) {
    exists i :: 0 <= i < |ChecksOf(t)| && NamesHost(ChecksOf(t)[i], n)
  }

  predicate NamesHost(c: Pool.Check, n: string) {
    c.icmp && (c.source == n || c.target == n)
  }

  /** A stopped host is noticed by validation exactly through such a ping. */
  lemma StoppedIsNoticed(t: Topology, stopped: set<string>, n: string, pings: nat)
    requires n in stopped && IsChecked(t, n)
    ensures !ChecksPass(t, stopped, pings)
  {
    hide Hosts;
  }

  lemma OneStopped(t: Topology, n: string, pings: nat)
    requires ChecksPass(t, {}, pings)
    ensures ChecksPass(t, {n}, pings) <==> !IsChecked(t, n)
  {
    hide Hosts;
    if IsChecked(t, n) {
      StoppedIsNoticed(t, {n}, n, pings);
    } else {
      assert forall i :: 0 <= i < |ChecksOf(t)| ==> !NamesHost(ChecksOf(t)[i], n);
    }
  }

  lemma FewerFailures(t: Topology, pings: nat, fewer: nat)
    requires ChecksPass(t, {}, pings) && fewer <= pings
    ensures ChecksPass(t, {}, fewer)
  {
    hide Hosts;
  }

  lemma SpendsDown(pings: nat, reached: nat, left: nat)
    requires Spends(pings, reached, left)
    ensures left <= pings
  {
  }

  /** The states the script goes through, whatever the schedules. */
  lemma RecoveryStates(t: Topology, n: string, pings: nat, xs: seq<Abstract>)
    requires n in Hosts(t.nodes) && IsAbstractRun(t, xs, RecoveryScript(n)) && xs[0] == Down(pings)
    ensures xs[1] == Up({}, pings) && xs[2] == xs[1].(pings := xs[2].pings) && xs[3] == Up({n}, xs[2].pings)
    ensures xs[4] == Up({n}, xs[4].pings) && xs[5] == xs[4] && xs[6] == Up({}, xs[6].pings)
    ensures xs[6].pings <= xs[4].pings <= xs[2].pings <= pings
  {
    hide Hosts, Reaching, Spends;
    var s := RecoveryScript(n);
    assert Moves(t, xs[0], s[0], xs[1]) && Moves(t, xs[1], s[1], xs[2]) && Moves(t, xs[2], s[2], xs[3]);
    assert Moves(t, xs[3], s[3], xs[4]) && Moves(t, xs[4], s[4], xs[5]) && Moves(t, xs[5], s[5], xs[6]);
    SpendsDown(pings, Reaching(t, {}), xs[2].pings);
    assert {} + {n} == {n};
    SpendsDown(xs[3].pings, Reaching(t, {n}), xs[4].pings);
    SpendsDown(xs[5].pings, Reaching(t, {}), xs[6].pings);
  }

  /** When the script's expectations are right. */
  lemma RecoveryExpectations(t: Topology, n: string, pings: nat, xs: seq<Abstract>, gaveUps: seq<bool>)
    requires n in Hosts(t.nodes) && IsAbstractRun(t, xs, RecoveryScript(n)) && xs[0] == Down(pings)
    requires |gaveUps| == 7
    ensures (forall i :: 0 <= i < 7 ==> Expected(t, xs[i], RecoveryScript(n)[i], gaveUps[i])) <==>
              ChecksPass(t, {}, pings) && !gaveUps[1] && !gaveUps[6] && (IsChecked(t, n) || gaveUps[3])
  {
    hide Hosts, Reaching, ChecksPass, IsChecked, Text.Contains, Moves;
    var s := RecoveryScript(n);
    RecoveryStates(t, n, pings, xs);
    forall i | 0 <= i < 7 ensures
        Expected(t, xs[i], s[i], gaveUps[i]) <==>
          && (i == 1 ==> ChecksPass(t, {}, pings) && !gaveUps[1])
          && (i == 3 ==> !ChecksPass(t, {n}, xs[2].pings) || gaveUps[3])
          && (i == 6 ==> ChecksPass(t, {}, xs[6].pings) && !gaveUps[6])
    {
    }
    if ChecksPass(t, {}, pings) {
      FewerFailures(t, pings, xs[2].pings);
      FewerFailures(t, pings, xs[6].pings);
      OneStopped(t, n, xs[2].pings);
    }
  }

  const NOT_USED := Happening(0.0, DeployReturned("ACTIVE"), 0.0)

  /**
   The recovery scenario on any topology a mock can deploy, for any host, any ping failures left
   and any schedule: it passes exactly when validation passes on the running deployment, no ping
   of the first and last validation is given up on, and the middle one pings the host or gives up.
   */
  lemma RecoveryScenarioExactly(c: Context, w0: World, pings: nat, n: string, ws: seq<World>, hs: seq<Happening>,
                                gaveUps: seq<bool>, maxSeconds: real)
    requires Suitable(c.ip, c.t.topology) && Matches(c, w0, Down(pings)) && n in Hosts(c.t.topology.nodes)
    requires IsMockRun(c, ws, RecoveryScript(n), hs, gaveUps, maxSeconds) && ws[0] == w0 && maxSeconds >= 0.0
    ensures Judge(RecoveryScript(n), maxSeconds, NOT_USED, hs, 7).overallOk <==>
              && ChecksPass(c.t.topology, {}, pings) && !gaveUps[1] && !gaveUps[6]
              && (IsChecked(c.t.topology, n) || gaveUps[3])
  {
    hide Suitable, Matches, Yields, Judge, Hosts, ChecksPass, IsChecked, Expected, Moves, JudgedRight;
    var s := RecoveryScript(n);
    assert s[0] == DeployStep && HasDeploy(s);
    var xs := ScriptsAreJudgedExactly(c, w0, Down(pings), NOT_USED, ws, s, hs, gaveUps, maxSeconds);
    RecoveryExpectations(c.t.topology, n, pings, xs, gaveUps);
  }

  /**
   Where it passes, all seven records passed, and the recovery time runs from the fault to the
   last validation.
   */
  lemma RecoveryScenarioPasses(c: Context, w0: World, pings: nat, n: string, ws: seq<World>, hs: seq<Happening>,
                               gaveUps: seq<bool>, maxSeconds: real)
    requires Suitable(c.ip, c.t.topology) && Matches(c, w0, Down(pings)) && n in Hosts(c.t.topology.nodes)
    requires IsMockRun(c, ws, RecoveryScript(n), hs, gaveUps, maxSeconds) && ws[0] == w0 && maxSeconds >= 0.0
    requires ChecksPass(c.t.topology, {}, pings) && !gaveUps[1] && !gaveUps[6]
    requires IsChecked(c.t.topology, n) || gaveUps[3]
    ensures var rs := Judge(RecoveryScript(n), maxSeconds, NOT_USED, hs, 7);
            && rs.overallOk && |rs.records| == 7 && (forall i :: 0 <= i < 7 ==> rs.records[i].passed)
            && rs.recoverySeconds == Some(hs[6].doneAt - hs[2].doneAt)
  {
    hide Suitable, Matches, Yields, Judge, Hosts, ChecksPass, IsChecked, Expected, RecordOf, Measures, Moves, Passes,
         Pinged, UpNow;
    var s, t := RecoveryScript(n), c.t.topology;
    assert s[0] == DeployStep && HasDeploy(s);
    var xs := ScriptsAreJudgedExactly(c, w0, Down(pings), NOT_USED, ws, s, hs, gaveUps, maxSeconds);
    RecoveryExpectations(t, n, pings, xs, gaveUps);
    var rs := Judge(s, maxSeconds, NOT_USED, hs, 7);
    forall i | 0 <= i < 7
      ensures rs.records[i].passed && Answers(s[i], hs[i].answer) && Met(s[i], hs[i].answer)
    {
      assert JudgedRight(t, xs[i], s[i], hs[i].answer, gaveUps[i]);
      assert rs.records[Lead(s) + i].passed;
    }
    RecoveryMeasured(s, maxSeconds, NOT_USED, hs, 7);
    AllOk(n, hs);
    RecoveryTimeFrom(n, hs, rs);
  }

  lemma AllOk(n: string, hs: seq<Happening>)
    requires |hs| == 7 && forall i :: 0 <= i < 7 ==> Met(RecoveryScript(n)[i], hs[i].answer)
    ensures var s := RecoveryScript(n); FailedOk(s[2], hs[2]) && ReconciledOk(s[5], hs[5])
    ensures Answers(RecoveryScript(n)[6], hs[6].answer) ==> PassedOk(RecoveryScript(n)[6], hs[6])
  {
  }

  /** On linked hosts without rules every host qualifies, as long as no ping failure is left. */
  lemma LinkedHostsRecover(ip: CidrReader, t: Topology, n: string, pings: nat)
    requires Suitable(ip, t) && OnlyHosts(t) && t.rules == [] && n in Hosts(t.nodes)
    ensures ChecksPass(t, {}, pings) && IsChecked(t, n) <==> pings == 0
  {
    hide Hosts, Accepted, OnlyHosts, ChecksPass;
    LinksExist(ip, t);
    LinksPassIff(ip, t, {}, pings);
    LinkedIsChecked(t, n);
  }

  /** Without rules every link is pinged. */
  lemma LinkedIsChecked(t: Topology, n: string)
    requires EveryHostLinked(t) && t.rules == [] && n in Hosts(t.nodes)
    ensures IsChecked(t, n)
  {
    hide Hosts;
    assert IsLinked(t, n);
    var i :| 0 <= i < |t.links| && (t.links[i].src == n || t.links[i].dst == n);
    assert NamesHost(ChecksOf(t)[i], n);
  }

  lemma RecoveryTimeFrom(n: string, hs: seq<Happening>, rs: RunState)
    requires |hs| == 7 && Measures(RecoveryScript(n), hs, rs, 7)
    requires var s := RecoveryScript(n); FailedOk(s[2], hs[2]) && ReconciledOk(s[5], hs[5]) && PassedOk(s[6], hs[6])
    ensures rs.recoverySeconds == Some(hs[6].doneAt - hs[2].doneAt)
  {
    hide FailedOk, ReconciledOk, PassedOk;
    var s := RecoveryScript(n);
    assert FaultThenReconcile(s, hs, 6);
    var v, f :| FirstRecovery(s, hs, v, 7) && LatestFault(s, hs, f, v)
                && rs.recoverySeconds == Some(hs[v].doneAt - hs[f].doneAt);
    OnlyRecovery(n, hs, v, f);
  }

  lemma OnlyRecovery(n: string, hs: seq<Happening>, v: int, f: int)
    requires |hs| == 7 && FirstRecovery(RecoveryScript(n), hs, v, 7) && LatestFault(RecoveryScript(n), hs, f, v)
    ensures v == 6 && f == 2
  {
    var s := RecoveryScript(n);
    assert PassedOk(s[v], hs[v]) && FailedOk(s[f], hs[f]);
  }

  // ----- recovery on the mock is real

  /** A host stopped at turn `f` stays stopped until a reconcile, if nothing is cleaned up. */
  lemma {:induction false} StaysStopped(t: Topology, xs: seq<Abstract>, steps: seq<Step>, f: nat, v: nat)
    requires IsAbstractRun(t, xs, steps) && f < v <= |steps| && steps[f].FailStep? && xs[f].Up?
    requires steps[f].node in Hosts(t.nodes)
    requires forall i :: f < i < v ==> !steps[i].CleanupStep? && !steps[i].ReconcileStep?
    ensures xs[v].Up? && steps[f].node in xs[v].stopped
  {
    hide Hosts, Reaching, Spends;
    assert Moves(t, xs[v - 1], steps[v - 1], xs[v]);
    if v > f + 1 { StaysStopped(t, xs, steps, f, v - 1); }
  }

  /**
   On the mock, without cleanup steps, a validation that passes after a successful fault on a
   host it pings has a successful reconcile strictly between the two: recovery is never
   credited to luck.  Without rules every host is pinged.
   */
  lemma ReconcileLiesBetween(c: Context, ws: seq<World>, steps: seq<Step>, hs: seq<Happening>, gaveUps: seq<bool>,
                             maxSeconds: real, a: Abstract, f: nat, v: nat)
    requires Suitable(c.ip, c.t.topology) && IsMockRun(c, ws, steps, hs, gaveUps, maxSeconds)
    requires Matches(c, ws[0], a)
    requires f < v < |steps| && FailedOk(steps[f], hs[f]) && PassedOk(steps[v], hs[v])
    requires c.t.topology.rules == [] || IsChecked(c.t.topology, steps[f].node)
    requires forall i :: 0 <= i < |steps| ==> !steps[i].CleanupStep?
    ensures exists r :: f < r < v && ReconciledOk(steps[r], hs[r])
  {
    var t := c.t.topology;
    SuitableIsLinked(c.ip, t);
    hide Suitable, Matches, Yields, Hosts, IsChecked, EveryHostLinked, Moves, JudgedRight, FailedOk, PassedOk,
         ReconciledOk;
    var xs := RunMatches(c, ws, steps, hs, gaveUps, maxSeconds, a, |steps|);
    assert steps[..|steps|] == steps;
    assert JudgedRight(t, xs[f], steps[f], hs[f].answer, gaveUps[f]);
    assert JudgedRight(t, xs[v], steps[v], hs[v].answer, gaveUps[v]);
    FailedMeansUp(t, xs[f], steps[f], hs[f], gaveUps[f]);
    if t.rules == [] { LinkedIsChecked(t, steps[f].node); }
    var r := FaultNeedsReconcile(t, xs, steps, hs, gaveUps[v], f, v);
    assert Yields(c, ws[r], steps[r], ws[r + 1], hs[r].answer, gaveUps[r]);
    ReconcileAnswers(c, ws[r], steps[r], ws[r + 1], hs[r], gaveUps[r]);
  }

  lemma SuitableIsLinked(ip: CidrReader, t: Topology)
    requires Suitable(ip, t)
    ensures EveryHostLinked(t)
  {
  }

  lemma FailedMeansUp(t: Topology, a: Abstract, s: Step, h: Happening, gaveUp: bool)
    requires JudgedRight(t, a, s, h.answer, gaveUp) && FailedOk(s, h)
    ensures s.FailStep? && a.Up? && s.node in Hosts(t.nodes)
  {
    hide Hosts, Passes, Pinged, UpNow;
  }

  lemma ReconcileAnswers(c: Context, w: World, s: Step, w': World, h: Happening, gaveUp: bool)
    requires s.ReconcileStep? && Yields(c, w, s, w', h.answer, gaveUp)
    ensures ReconciledOk(s, h)
  {
    hide IsOutcome, StartStopped;
  }

  lemma PassedMeansPasses(t: Topology, a: Abstract, s: Step, h: Happening, gaveUp: bool)
    requires JudgedRight(t, a, s, h.answer, gaveUp) && PassedOk(s, h)
    ensures Passes(t, a)
  {
    hide Hosts, Passes, Pinged, UpNow;
  }

  lemma FaultNeedsReconcile(t: Topology, xs: seq<Abstract>, steps: seq<Step>, hs: seq<Happening>, gaveUp: bool,
                            f: nat, v: nat) returns (r: nat)
    requires IsAbstractRun(t, xs, steps) && f < v < |steps| == |hs|
    requires steps[f].FailStep? && xs[f].Up? && steps[f].node in Hosts(t.nodes) && IsChecked(t, steps[f].node)
    requires JudgedRight(t, xs[v], steps[v], hs[v].answer, gaveUp) && PassedOk(steps[v], hs[v])
    requires forall i :: 0 <= i < |steps| ==> !steps[i].CleanupStep?
    ensures f < r < v && steps[r].ReconcileStep?
  {
    hide Hosts, IsChecked, ChecksPass, Moves, JudgedRight, PassedOk;
    if forall r :: f < r < v ==> !steps[r].ReconcileStep? {
      StaysStopped(t, xs, steps, f, v);
      PassedMeansPasses(t, xs[v], steps[v], hs[v], gaveUp);
      StoppedIsNoticed(t, xs[v].stopped, steps[f].node, xs[v].pings);
      assert false;
    }
    r :| f < r < v && steps[r].ReconcileStep?;
  }
}
