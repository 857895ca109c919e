/**
 Link validation by the thread pool.  Workers read the mock's failure counter and store it
 back later, so they may race; the verdict is that of the pings one by one all the same.
 */
module PooledValidations {
  import opened Wrappers
  import opened Arithmetic
  import opened Topology
  import opened Providers
  import opened Deployment
  import opened Observers
  import opened SharedPings
  import opened Validations
  import Pool = ParallelPings

  // ----- the same pings from the thread pool

  /** A worker reads the failure counter. */
  function SeeFailures(p: State, j: Pool.Job): int {
    Budget(p, Op.RunPing)
  }

  /**
   A worker's ping after that: it stores the counter less one if it read a positive one, and
   reports latencies only if it passes.
   */
  function PingWith(w: World, t: TopologyRow, latencies: Pool.Job -> seq<real>): Hand<State, int> {
    (p: State, saw: int, j: Pool.Job) =>
      var now := w.(provider := p);
      if !TargetUp(now, t, j.source, j.target) then (p, Pool.Result(j.source, j.target, Pool.FAILED, []))
      else if saw > 0 then
        (p.(budgets := p.budgets[Op.RunPing := saw - 1]), Pool.Result(j.source, j.target, Pool.FAILED, []))
      else if BothUp(now, t, j.source, j.target) then
        (p, Pool.Result(j.source, j.target, Pool.PASSED, latencies(j)))
      else (p, Pool.Result(j.source, j.target, Pool.FAILED, []))
  }

  /** Undisturbed, the two halves make up one ping. */
  lemma HalvesMakePing(w: World, t: TopologyRow, latencies: Pool.Job -> seq<real>, p: State, j: Pool.Job)
    ensures var now := w.(provider := p);
            var (w', status) := Ping(now, t, j.source, j.target);
            var (p', r) := PingWith(w, t, latencies)(p, SeeFailures(p, j), j);
            w' == now.(provider := p') && r.status == status && r.source == j.source && r.target == j.target
  {
    hide RowsOf, LastServer;
    var now := w.(provider := p);
    assert now == now.(provider := now.provider);
    if TargetUp(now, t, j.source, j.target) {
      var (p', ok) := PingFrom(p, LastServer(RowsOf(w.rows, t.id), j.source).value.rid);
      assert Ping(now, t, j.source, j.target) == (now.(provider := p'), if ok then Pool.PASSED else Pool.FAILED);
      assert BothUp(now, t, j.source, j.target) <==>
          StatusOf(p, LastServer(RowsOf(w.rows, t.id), j.source).value.rid) == Running;
      assert SeeFailures(p, j) == Budget(p, Op.RunPing);
      if Budget(p, Op.RunPing) > 0 {
        assert PingWith(w, t, latencies)(p, SeeFailures(p, j), j).0 == p';
        assert !ok;
      } else {
        assert PingWith(w, t, latencies)(p, SeeFailures(p, j), j).0 == p;
      }
    }
  }

  /** The jobs among some that reach the counter. */
  function UpJobs(w: World, t: TopologyRow, jobs: seq<Pool.Job>, looked: set<nat>): set<nat> {
    set k | k in looked && k < |jobs| && TargetUp(w, t, jobs[k].source, jobs[k].target)
  }

  ghost predicate RightAnswer(w: World, t: TopologyRow, j: Pool.Job, r: Pool.Result) {
    && r.source == j.source && r.target == j.target && r.status in {Pool.PASSED, Pool.FAILED}
    && (r.status == Pool.PASSED ==> BothUp(w, t, j.source, j.target))
    && (PingsLeft(w.provider) == 0 && BothUp(w, t, j.source, j.target) ==> r.status == Pool.PASSED)
  }

  // ----- what racing workers can do to the counter

  /** The counter after `up` of its jobs have read it, and what they read. */
  ghost predicate CounterHolds(pings: nat, now: int, ups: set<nat>, seen: map<nat, int>, finished: set<nat>)
    requires ups <= seen.Keys
  {
    && 0 <= now <= pings && now >= pings - |ups|
    && (forall k :: k in ups ==> 0 <= seen[k] <= pings && seen[k] - 1 >= pings - |ups|)
    && (ups != {} ==> exists k :: k in ups && seen[k] == pings)
    && (forall k :: k in ups && k in finished && seen[k] > 0 ==> now < pings)
  }

  ghost predicate Raced(w: World, t: TopologyRow, jobs: seq<Pool.Job>, x: Shared<State, int>) {
    var ups := UpJobs(w, t, jobs, x.seen.Keys);
    && x.state == w.provider.(budgets := x.state.budgets)
    && (forall op :: op != Op.RunPing ==> Budget(x.state, op) == Budget(w.provider, op))
    && (PingsLeft(w.provider) == 0 || ups == {} ==> x.state == w.provider)
    && (PingsLeft(w.provider) == 0 ==> forall k :: k in x.seen ==> x.seen[k] <= 0)
    && (PingsLeft(w.provider) > 0 ==>
          CounterHolds(PingsLeft(w.provider), Budget(x.state, Op.RunPing), ups, x.seen, x.pool.finished.Keys))
    && (forall k :: k in x.pool.finished ==>
          && k < |jobs| && k in x.seen && RightAnswer(w, t, jobs[k], x.pool.finished[k])
          && (k in ups && x.seen[k] > 0 ==> x.pool.finished[k].status == Pool.FAILED))
  }

  lemma LookKeepsCounter(pings: nat, now: int, ups: set<nat>, seen: map<nat, int>, finished: set<nat>, j: nat)
    requires pings > 0 && ups <= seen.Keys && CounterHolds(pings, now, ups, seen, finished)
    requires j !in seen && j !in finished && (ups == {} ==> now == pings)
    ensures CounterHolds(pings, now, ups + {j}, seen[j := now], finished)
  {
    assert |ups + {j}| == |ups| + 1;
    if ups == {} {
      assert seen[j := now][j] == pings;
    } else {
      var k :| k in ups && seen[k] == pings;
      assert k in ups + {j} && seen[j := now][k] == pings;
    }
  }

  lemma LookPastCounter(pings: nat, now: int, ups: set<nat>, seen: map<nat, int>, finished: set<nat>, j: nat)
    requires ups <= seen.Keys && CounterHolds(pings, now, ups, seen, finished) && j !in seen
    ensures CounterHolds(pings, now, ups, seen[j := now], finished)
  {
    if ups != {} {
      var k :| k in ups && seen[k] == pings;
      assert seen[j := now][k] == pings;
    }
  }

  lemma EndKeepsCounter(pings: nat, now: int, ups: set<nat>, seen: map<nat, int>, finished: set<nat>, j: nat)
    requires pings > 0 && ups <= seen.Keys && CounterHolds(pings, now, ups, seen, finished) && j in seen
    ensures var now' := if j in ups && seen[j] > 0 then seen[j] - 1 else now;
            CounterHolds(pings, now', ups, seen, finished + {j})
  {
  }

  lemma UpsNext(w: World, t: TopologyRow, jobs: seq<Pool.Job>, looked: set<nat>, j: nat)
    requires j < |jobs|
    ensures UpJobs(w, t, jobs, looked + {j})
              == if TargetUp(w, t, jobs[j].source, jobs[j].target) then UpJobs(w, t, jobs, looked) + {j}
                 else UpJobs(w, t, jobs, looked)
  {
    hide TargetUp;
  }

  /** Servers do not move while pings run. */
  lemma SameUps(w: World, t: TopologyRow, p: State, source: string, target: string)
    requires p.statuses == w.provider.statuses
    ensures TargetUp(w.(provider := p), t, source, target) == TargetUp(w, t, source, target)
    ensures BothUp(w.(provider := p), t, source, target) == BothUp(w, t, source, target)
  {
  }

  lemma LookRaces(w: World, t: TopologyRow, jobs: seq<Pool.Job>, x: Shared<State, int>, j: nat)
    requires Raced(w, t, jobs, x) && j < |jobs| && j !in x.seen && j !in x.pool.finished
    ensures Raced(w, t, jobs, x.(seen := x.seen[j := SeeFailures(x.state, jobs[j])]))
  {
    hide TargetUp, RightAnswer, CounterHolds, UpJobs;
    var seen', now := x.seen[j := SeeFailures(x.state, jobs[j])], Budget(x.state, Op.RunPing);
    assert seen'.Keys == x.seen.Keys + {j};
    UpsNext(w, t, jobs, x.seen.Keys, j);
    var ups := UpJobs(w, t, jobs, x.seen.Keys);
    UpsAreSeen(w, t, jobs, x.seen.Keys);
    if PingsLeft(w.provider) > 0 {
      if TargetUp(w, t, jobs[j].source, jobs[j].target) {
        LookKeepsCounter(PingsLeft(w.provider), now, ups, x.seen, x.pool.finished.Keys, j);
      } else {
        LookPastCounter(PingsLeft(w.provider), now, ups, x.seen, x.pool.finished.Keys, j);
      }
    }
  }

  lemma UpsAreSeen(w: World, t: TopologyRow, jobs: seq<Pool.Job>, looked: set<nat>)
    ensures UpJobs(w, t, jobs, looked) <= looked
    ensures forall k :: k in UpJobs(w, t, jobs, looked) <==>
              k in looked && k < |jobs| && TargetUp(w, t, jobs[k].source, jobs[k].target)
  {
    hide TargetUp;
  }

  lemma AnswerRaces(w: World, t: TopologyRow, latencies: Pool.Job -> seq<real>, p: State, saw: int, j: Pool.Job)
    requires p.statuses == w.provider.statuses && (PingsLeft(w.provider) == 0 ==> saw <= 0)
    ensures var (p', r) := PingWith(w, t, latencies)(p, saw, j);
            var up := TargetUp(w, t, j.source, j.target);
            && RightAnswer(w, t, j, r) && (up && saw > 0 ==> r.status == Pool.FAILED)
            && p' == if up && saw > 0 then p.(budgets := p.budgets[Op.RunPing := saw - 1]) else p
  {
    SameUps(w, t, p, j.source, j.target);
    assert BothUp(w, t, j.source, j.target) ==> TargetUp(w, t, j.source, j.target);
    hide TargetUp, BothUp;
  }

  lemma EndRaces(w: World, t: TopologyRow, latencies: Pool.Job -> seq<real>, jobs: seq<Pool.Job>,
                 x: Shared<State, int>, j: nat)
    requires Raced(w, t, jobs, x) && j < |jobs| && j in x.seen
    ensures var (p', r) := PingWith(w, t, latencies)(x.state, x.seen[j], jobs[j]);
            Raced(w, t, jobs, Shared(Pool.End(x.pool, j, r), p', x.seen))
  {
    hide TargetUp, RightAnswer, CounterHolds, UpJobs, PingWith;
    var ups, now := UpJobs(w, t, jobs, x.seen.Keys), Budget(x.state, Op.RunPing);
    UpsAreSeen(w, t, jobs, x.seen.Keys);
    AnswerRaces(w, t, latencies, x.state, x.seen[j], jobs[j]);
    var r := PingWith(w, t, latencies)(x.state, x.seen[j], jobs[j]).1;
    assert x.pool.finished[j := r].Keys == x.pool.finished.Keys + {j};
    if PingsLeft(w.provider) > 0 {
      EndKeepsCounter(PingsLeft(w.provider), now, ups, x.seen, x.pool.finished.Keys, j);
    }
  }

  // ----- any schedule

  function AsResults(slots: seq<Option<Pool.Result>>): seq<TestResult>
    requires forall i :: 0 <= i < |slots| ==> slots[i].Some?
  {
    seq(|slots|, i requires 0 <= i < |slots| =>
      TestResult(slots[i].value.source, slots[i].value.target, slots[i].value.status))
  }

  function JobsOf(t: TopologyRow): seq<Pool.Job> {
    Pool.RuleJobs(ChecksOf(t.topology))
  }

  /** A whole validation by the pool, from its first submission until every worker is done. */
  ghost predicate PoolValidates(w: World, t: TopologyRow, latencies: Pool.Job -> seq<real>, cap: nat,
                                xs: seq<Shared<State, int>>, es: seq<Pool.Event>) {
    && SharedSchedules(SeeFailures, PingWith(w, t, latencies), cap, JobsOf(t), xs, es)
    && xs[0] == StartShared(Pool.RuleSlots(ChecksOf(t.topology)), w.provider)
    && Pool.Done(JobsOf(t), xs[|es|].pool)
  }

  lemma StepRaces(w: World, t: TopologyRow, latencies: Pool.Job -> seq<real>, cap: nat,
                  x: Shared<State, int>, e: Pool.Event, x': Shared<State, int>)
    requires SharedInv(cap, JobsOf(t), x) && Raced(w, t, JobsOf(t), x)
    requires StepShared(SeeFailures, PingWith(w, t, latencies), cap, JobsOf(t), x, e, x')
    ensures Raced(w, t, JobsOf(t), x')
  {
    RunningBound(cap, JobsOf(t), x.pool);
    if e.Look? {
      LookRaces(w, t, JobsOf(t), x, e.job);
    } else if e.Finish? {
      EndRaces(w, t, latencies, JobsOf(t), x, e.job);
    }
    hide UpJobs, CounterHolds, RightAnswer, Pool.Queued, JobsOf, PingWith, SeeFailures;
  }

  lemma RunningBound(cap: nat, jobs: seq<Pool.Job>, p: Pool.Pool)
    requires Pool.Queued(cap, jobs, p)
    ensures forall j :: j in p.running ==> j < |jobs| && j !in p.finished
  {
  }

  lemma {:induction false} SchedulesRace(w: World, t: TopologyRow, latencies: Pool.Job -> seq<real>, cap: nat,
                                         xs: seq<Shared<State, int>>, es: seq<Pool.Event>, n: nat)
    requires SharedSchedules(SeeFailures, PingWith(w, t, latencies), cap, JobsOf(t), xs, es) && n <= |es|
    requires xs[0] == StartShared(Pool.RuleSlots(ChecksOf(t.topology)), w.provider)
    ensures Raced(w, t, JobsOf(t), xs[n]) && SharedInv(cap, JobsOf(t), xs[n])
  {
    hide Raced, SharedInv, StepShared, JobsOf, PingWith, SeeFailures;
    var slots := Pool.RuleSlots(ChecksOf(t.topology));
    SchedulesKeepShared(SeeFailures, PingWith(w, t, latencies), cap, JobsOf(t), w.provider, xs, es, slots, n);
    if n > 0 {
      SchedulesRace(w, t, latencies, cap, xs, es, n - 1);
      StepRaces(w, t, latencies, cap, xs[n - 1], es[n - 1], xs[n]);
    } else {
      StartRaces(w, t, slots);
    }
  }

  lemma StartRaces(w: World, t: TopologyRow, slots: seq<Option<Pool.Result>>)
    ensures Raced(w, t, JobsOf(t), StartShared(slots, w.provider))
  {
    assert UpJobs(w, t, JobsOf(t), {}) == {};
    assert StartShared<State, int>(slots, w.provider).seen.Keys == {};
  }

  /** What the caller ends up with: the raced state, and each job's own answer or a time-out. */
  ghost predicate Gathered(w: World, t: TopologyRow, x: Shared<State, int>) {
    && Filled(t, x.pool)
    && Raced(w, t, JobsOf(t), x)
    && (forall k :: k in x.seen <==> 0 <= k < |JobsOf(t)|)
  }

  lemma PoolGathers(w: World, t: TopologyRow, latencies: Pool.Job -> seq<real>, cap: nat,
                    xs: seq<Shared<State, int>>, es: seq<Pool.Event>)
    requires PoolValidates(w, t, latencies, cap, xs, es)
    ensures |xs| == |es| + 1 && Gathered(w, t, xs[|es|])
  {
    assert |xs| == |es| + 1;
    hide SharedSchedules, PingWith, SeeFailures, Raced, SharedInv, Pool.WellFormed, SlotsGathered, ChecksOf;
    Pool.RuleJobsFit(ChecksOf(t.topology));
    var slots := Pool.RuleSlots(ChecksOf(t.topology));
    SharedGathers(SeeFailures, PingWith(w, t, latencies), cap, JobsOf(t), w.provider, xs, es, slots);
    SchedulesRace(w, t, latencies, cap, xs, es, |es|);
    AllLooked(cap, JobsOf(t), slots, xs[|es|]);
  }

  lemma AllLooked(cap: nat, jobs: seq<Pool.Job>, slots: seq<Option<Pool.Result>>, x: Shared<State, int>)
    requires SharedInv(cap, jobs, x) && SlotsGathered(jobs, slots, x.pool)
    ensures forall k :: k in x.seen <==> 0 <= k < |jobs|
  {
    assert forall k :: k in x.pool.looked <==> k in x.seen;
  }

  /** The slots of a finished validation: each ping has its own answer or a time-out, the rest is skipped. */
  ghost predicate Filled(t: TopologyRow, p: Pool.Pool) {
    SlotsGathered(JobsOf(t), Pool.RuleSlots(ChecksOf(t.topology)), p)
  }

  lemma SlotOf(t: TopologyRow, p: Pool.Pool, i: nat) returns (k: nat)
    requires Filled(t, p) && i < |ChecksOf(t.topology)| && ChecksOf(t.topology)[i].icmp
    ensures var jobs, c := JobsOf(t), ChecksOf(t.topology)[i];
            && k < |jobs| && jobs[k] == Pool.Job(i, c.source, c.target) && k in p.finished
            && i < |p.slots|
            && p.slots[i] == Some(if k in p.timedOut then Pool.TimedOutResult(jobs[k]) else p.finished[k])
  {
    hide Pool.RuleJobs;
    k := Pool.RuleHasJob(ChecksOf(t.topology), i);
    Pool.RuleJobsAre(ChecksOf(t.topology));
  }

  lemma UnpingedSlot(t: TopologyRow, p: Pool.Pool, i: nat)
    requires Filled(t, p) && i < |ChecksOf(t.topology)| && !ChecksOf(t.topology)[i].icmp
    ensures var c := ChecksOf(t.topology)[i];
            i < |p.slots| && p.slots[i] == Some(Pool.Result(c.source, c.target, Pool.SKIPPED, []))
  {
    hide ChecksOf;
    assert Pool.RuleSlots(ChecksOf(t.topology))[i].Some?;
  }

  lemma EverySlotFilled(t: TopologyRow, p: Pool.Pool)
    requires Filled(t, p)
    ensures |p.slots| == |ChecksOf(t.topology)| && forall i :: 0 <= i < |p.slots| ==> p.slots[i].Some?
  {
    hide JobsOf, ChecksOf;
    forall i | 0 <= i < |p.slots| ensures p.slots[i].Some? {
      if ChecksOf(t.topology)[i].icmp { var k := SlotOf(t, p, i); } else { UnpingedSlot(t, p, i); }
    }
  }

  lemma GatheredAnswer(w: World, t: TopologyRow, x: Shared<State, int>, i: nat)
    requires Gathered(w, t, x) && x.pool.timedOut == {} && i < |ChecksOf(t.topology)|
    ensures i < |x.pool.slots| && x.pool.slots[i].Some?
    ensures var r := x.pool.slots[i].value;
            AnsweredAt(w, t, ChecksOf(t.topology)[i], TestResult(r.source, r.target, r.status))
  {
    RightFinished(w, t, x);
    hide Raced, Filled, ChecksOf, BothUp, JobsOf;
    if ChecksOf(t.topology)[i].icmp { var k := SlotOf(t, x.pool, i); } else { UnpingedSlot(t, x.pool, i); }
  }

  /** With failures left some ping has failed: the first to read the counter, or one that reached no server. */
  lemma SomePingFails(w: World, t: TopologyRow, x: Shared<State, int>, i: nat) returns (j: nat)
    requires Gathered(w, t, x) && PingsLeft(w.provider) > 0 && i < |ChecksOf(t.topology)|
    requires ChecksOf(t.topology)[i].icmp
    ensures j < |x.pool.slots| && x.pool.slots[j].Some? && x.pool.slots[j].value.status == Pool.FAILED
  {
    hide UpJobs, CounterHolds, RightAnswer, ChecksOf, PingsLeft;
    var k := SlotOf(t, x.pool, i);
    k := SomeJobFails(w, t, JobsOf(t), x, k);
    hide Raced, JobsOf;
    j := JobsOf(t)[k].slot;
  }

  lemma SomeJobFails(w: World, t: TopologyRow, jobs: seq<Pool.Job>, x: Shared<State, int>, i: nat) returns (k: nat)
    requires Raced(w, t, jobs, x) && PingsLeft(w.provider) > 0 && i < |jobs|
    requires forall k :: 0 <= k < |jobs| ==> k in x.pool.finished && k in x.seen
    ensures k < |jobs| && k in x.pool.finished && x.pool.finished[k].status == Pool.FAILED
  {
    hide PingsLeft, UpJobs, BothUp, TargetUp;
    var ups := UpJobs(w, t, jobs, x.seen.Keys);
    UpsAreSeen(w, t, jobs, x.seen.Keys);
    if ups == {} {
      k := i;
      assert k !in ups;
      NotUpNotBoth(w, t, jobs[k].source, jobs[k].target);
    } else {
      k :| k in ups && x.seen[k] == PingsLeft(w.provider);
    }
  }

  lemma NotUpNotBoth(w: World, t: TopologyRow, source: string, target: string)
    ensures BothUp(w, t, source, target) ==> TargetUp(w, t, source, target)
  {
  }

  lemma GatheredAnswers(w: World, t: TopologyRow, x: Shared<State, int>)
    requires Gathered(w, t, x) && x.pool.timedOut == {}
    ensures forall i :: 0 <= i < |x.pool.slots| ==> x.pool.slots[i].Some?
    ensures Answered(w, t, ChecksOf(t.topology), AsResults(x.pool.slots))
  {
    EverySlotFilled(t, x.pool);
    hide Gathered, Filled, ChecksOf, AnsweredAt;
    var checks, results := ChecksOf(t.topology), AsResults(x.pool.slots);
    forall i | 0 <= i < |checks| ensures AnsweredAt(w, t, checks[i], results[i]) {
      GatheredAnswer(w, t, x, i);
    }
    if PingsLeft(w.provider) > 0 && exists i :: 0 <= i < |checks| && checks[i].icmp {
      var i :| 0 <= i < |checks| && checks[i].icmp;
      var j := SomePingFails(w, t, x, i);
      assert results[j].status == Pool.FAILED;
    }
  }

  /** A job given up on fails the validation, with rules or without. */
  lemma GaveUpFails(t: TopologyRow, p: Pool.Pool)
    requires Filled(t, p) && p.timedOut != {}
    ensures forall i :: 0 <= i < |p.slots| ==> p.slots[i].Some?
    ensures Verdict(t.topology, AsResults(p.slots)) == Pool.FAILED
  {
    EverySlotFilled(t, p);
    var k :| k in p.timedOut;
    var i := JobsOf(t)[k].slot;
    assert p.slots[i] == Some(Pool.TimedOutResult(JobsOf(t)[k]));
    hide Filled, JobsOf;
    assert AsResults(p.slots)[i].status == Pool.FAILED;
  }

  // ----- the counter in the end

  /** What a validation with `reached` pings that read the counter can make of it. */
  predicate Spends(pings: nat, reached: nat, left: nat) {
    if pings == 0 || reached == 0 then left == pings else pings - reached <= left < pings
  }

  lemma {:induction false} ReachingJobs(w: World, t: TopologyRow, checks: seq<Pool.Check>, all: set<nat>)
    requires forall k :: k in all <==> 0 <= k < |Pool.RuleJobs(checks)|
    ensures |UpChecks(w, t, checks)| == |UpJobs(w, t, Pool.RuleJobs(checks), all)|
  {
    hide TargetUp, UpChecks, UpJobs;
    var jobs := Pool.RuleJobs(checks);
    if checks == [] {
      NoUps(w, t, jobs, all);
    } else {
      var n := |checks| - 1;
      var jobs0 := Pool.RuleJobs(checks[..n]);
      var all0 := set k | k in all && k < |jobs0|;
      ReachingJobs(w, t, checks[..n], all0);
      UpChecksNext(w, t, checks);
      SameUpJobs(w, t, jobs0, jobs, all0);
      if checks[n].icmp {
        assert all == all0 + {|jobs0|};
        UpsNext(w, t, jobs, all0, |jobs0|);
        UpsAreSeen(w, t, jobs, all0);
      } else {
        assert all == all0;
      }
    }
  }

  lemma NoUps(w: World, t: TopologyRow, jobs: seq<Pool.Job>, all: set<nat>)
    requires forall k :: k !in all
    ensures UpJobs(w, t, jobs, all) == {} == UpChecks(w, t, [])
  {
  }

  lemma SameUpJobs(w: World, t: TopologyRow, jobs: seq<Pool.Job>, more: seq<Pool.Job>, looked: set<nat>)
    requires jobs <= more && forall k :: k in looked ==> k < |jobs|
    ensures UpJobs(w, t, jobs, looked) == UpJobs(w, t, more, looked)
  {
    hide TargetUp;
  }

  lemma GatheredState(w: World, t: TopologyRow, x: Shared<State, int>)
    requires Gathered(w, t, x)
    ensures x.state == w.provider.(budgets := x.state.budgets)
    ensures forall op :: op != Op.RunPing ==> Budget(x.state, op) == Budget(w.provider, op)
    ensures PingsLeft(w.provider) == 0 ==> x.state == w.provider
    ensures Spends(PingsLeft(w.provider), |UpChecks(w, t, ChecksOf(t.topology))|, PingsLeft(x.state))
  {
    hide ChecksOf, UpChecks, UpJobs, Pool.RuleJobs, RightAnswer;
    var ups := UpJobs(w, t, JobsOf(t), x.seen.Keys);
    ReachingJobs(w, t, ChecksOf(t.topology), x.seen.Keys);
    UpsAreSeen(w, t, JobsOf(t), x.seen.Keys);
    if PingsLeft(w.provider) > 0 && ups != {} {
      var k :| k in ups && x.seen[k] == PingsLeft(w.provider);
      assert k in x.pool.finished;
    }
  }

  /**
   Any schedule of the pool, with rules or without, workers racing for the counter or not: the
   verdict is that of the pings one by one if no job was given up on and FAILED otherwise; of
   the failures left at least one goes, and no more than one by one.  Without failures left
   each result is that of its ping alone and the provider is untouched.
   */
  lemma ParallelAsSequential(w: World, t: TopologyRow, latencies: Pool.Job -> seq<real>, cap: nat,
                             xs: seq<Shared<State, int>>, es: seq<Pool.Event>)
    requires PoolValidates(w, t, latencies, cap, xs, es)
    ensures var x, checks := xs[|es|], ChecksOf(t.topology);
            && x.state == w.provider.(budgets := x.state.budgets)
            && (forall op :: op != Op.RunPing ==> Budget(x.state, op) == Budget(w.provider, op))
            && Spends(PingsLeft(w.provider), |UpChecks(w, t, checks)|, PingsLeft(x.state))
            && PingsLeft(Validate(w, t).0.provider) <= PingsLeft(x.state)
            && (PingsLeft(w.provider) == 0 ==> x.state == Validate(w, t).0.provider)
            && |x.pool.slots| == |checks| && (forall i :: 0 <= i < |checks| ==> x.pool.slots[i].Some?)
            && Verdict(t.topology, AsResults(x.pool.slots))
                 == (if x.pool.timedOut == {} then Validate(w, t).1 else Pool.FAILED)
            && (PingsLeft(w.provider) == 0 && x.pool.timedOut == {} ==>
                  AsResults(x.pool.slots) == Results(w, t, checks).1)
  {
    PoolGathers(w, t, latencies, cap, xs, es);
    hide Results, Validate, PoolValidates, Gathered, Answered, ValidationHolds, ChecksOf, Verdict, UpChecks;
    var x := xs[|es|];
    GatheredState(w, t, x);
    EverySlotFilled(t, x.pool);
    ValidateExactly(w, t);
    SpendAdds(w.provider, 0, |UpChecks(w, t, ChecksOf(t.topology))|);
    if x.pool.timedOut == {} {
      GatheredAnswers(w, t, x);
      AnsweredVerdict(w, t, AsResults(x.pool.slots));
      VerdictIsBinary(t.topology, AsResults(x.pool.slots));
      ResultsExactly(w, t, ChecksOf(t.topology));
      if PingsLeft(w.provider) == 0 {
        AnswersAgree(w, t, ChecksOf(t.topology), AsResults(x.pool.slots), Results(w, t, ChecksOf(t.topology)).1);
      }
    } else {
      GaveUpFails(t, x.pool);
    }
  }

  lemma VerdictIsBinary(t: Topology, results: seq<TestResult>)
    ensures Verdict(t, results) in {Pool.PASSED, Pool.FAILED}
  {
  }

  lemma AnswersAgree(w: World, t: TopologyRow, checks: seq<Pool.Check>, a: seq<TestResult>, b: seq<TestResult>)
    requires Answered(w, t, checks, a) && Answered(w, t, checks, b) && PingsLeft(w.provider) == 0
    ensures a == b
  {
    hide Holds;
    forall i | 0 <= i < |checks| ensures a[i] == b[i] {
      assert AnsweredAt(w, t, checks[i], a[i]) && AnsweredAt(w, t, checks[i], b[i]);
    }
  }

  // ----- totals of any schedule

  lemma OutcomesAreAbout(w: World, t: TopologyRow, jobs: seq<Pool.Job>, finished: map<nat, Pool.Result>)
    requires forall k :: k in finished && k < |jobs| ==> RightAnswer(w, t, jobs[k], finished[k])
    ensures var f := Outcomes(jobs, finished);
            forall j :: f(j).status != Pool.SKIPPED && f(j).source == j.source && f(j).target == j.target
  {
    hide BothUp;
  }

  /** Validating links or rules with the pool: result `i` is about check `i`, and the metrics add up. */
  lemma ParallelAccounts(w: World, t: TopologyRow, latencies: Pool.Job -> seq<real>, cap: nat,
                         xs: seq<Shared<State, int>>, es: seq<Pool.Event>)
    requires PoolValidates(w, t, latencies, cap, xs, es)
    ensures var x, checks := xs[|es|], ChecksOf(t.topology);
            var jobs, slots := JobsOf(t), x.pool.slots;
            && |slots| == |checks|
            && (forall i :: 0 <= i < |checks| ==>
                  && slots[i].Some? && slots[i].value.source == checks[i].source
                  && slots[i].value.target == checks[i].target
                  && (slots[i].value.status == Pool.SKIPPED <==> !checks[i].icmp))
            && Pool.TestsTotal(slots) == Pool.Count(slots, Pool.PASSED) + Pool.Count(slots, Pool.FAILED) == |jobs|
            && Pool.ReplyLatencies(slots)
                 == Pool.JobLatencies(Outcomes(jobs, x.pool.finished), jobs, x.pool.timedOut)
  {
    PoolGathers(w, t, latencies, cap, xs, es);
    hide PingWith, SeeFailures, SharedSchedules, Pool.Schedules, Pool.WellFormed, Gathered, Raced,
         Pool.Count, Pool.ReplyLatencies, Pool.JobLatencies, Pool.TestsTotal, Outcomes, Pool.Sequential, ChecksOf;
    var checks, initial, x := ChecksOf(t.topology), Pool.RuleSlots(ChecksOf(t.topology)), xs[|es|];
    Pool.RuleJobsFit(checks);
    SchedulesAreIndependent(SeeFailures, PingWith(w, t, latencies), cap, JobsOf(t), w.provider, xs, es, initial);
    RightFinished(w, t, x);
    OutcomesAreAbout(w, t, JobsOf(t), x.pool.finished);
    var f := Outcomes(JobsOf(t), x.pool.finished);
    Pool.ParallelRefinesSequential(f, cap, JobsOf(t), initial, Pools(xs), es);
    Pool.ValidationAccounts(f, checks, x.pool.timedOut);
  }

  /** In terms of the topology: slot `i` is about link `i`, from source to target, or about rule `i`. */
  lemma SlotsFollowTopology(w: World, t: TopologyRow, latencies: Pool.Job -> seq<real>, cap: nat,
                            xs: seq<Shared<State, int>>, es: seq<Pool.Event>, i: nat)
    requires PoolValidates(w, t, latencies, cap, xs, es)
    ensures |xs[|es|].pool.slots| == if t.topology.rules != [] then |t.topology.rules| else |t.topology.links|
    ensures t.topology.rules == [] && i < |t.topology.links| ==>
              var slot, l := xs[|es|].pool.slots[i], t.topology.links[i];
              && slot.Some? && slot.value.source == l.src && slot.value.target == l.dst
              && slot.value.status != Pool.SKIPPED
    ensures t.topology.rules != [] && i < |t.topology.rules| ==>
              var slot, r := xs[|es|].pool.slots[i], t.topology.rules[i];
              && slot.Some? && slot.value.source == r.src && slot.value.target == r.dst
              && (slot.value.status == Pool.SKIPPED <==> r.protocol != "icmp")
  {
    ParallelAccounts(w, t, latencies, cap, xs, es);
    hide PoolValidates, ChecksOf, Pool.Count, Pool.TestsTotal, Pool.ReplyLatencies, Pool.JobLatencies, Outcomes, JobsOf;
    ChecksAreLinksOrRules(t.topology, i);
  }

  lemma RightFinished(w: World, t: TopologyRow, x: Shared<State, int>)
    requires Gathered(w, t, x)
    ensures forall k :: k in x.pool.finished && k < |JobsOf(t)| ==> RightAnswer(w, t, JobsOf(t)[k], x.pool.finished[k])
  {
    hide RightAnswer, Filled, UpJobs, CounterHolds;
  }

  // ----- what a validation comes to

  /** Verdict and metrics as the caller sees them; `gaveUp` if some job was not waited for. */
  datatype Outcome = Outcome(status: TestStatus, total: int, passed: nat, latencies: seq<real>, gaveUp: bool)

  function OutcomeIn(t: TopologyRow, x: Shared<State, int>): Outcome
    requires forall i :: 0 <= i < |x.pool.slots| ==> x.pool.slots[i].Some?
  {
    Outcome(Verdict(t.topology, AsResults(x.pool.slots)), Pool.TestsTotal(x.pool.slots),
            Pool.Count(x.pool.slots, Pool.PASSED), Pool.ReplyLatencies(x.pool.slots), x.pool.timedOut != {})
  }

  ghost predicate EndsAs(w: World, t: TopologyRow, x: Shared<State, int>, w': World, o: Outcome) {
    && w' == w.(provider := x.state)
    && (forall i :: 0 <= i < |x.pool.slots| ==> x.pool.slots[i].Some?) && o == OutcomeIn(t, x)
  }

  /** Some schedule of the pool validates `w` with this outcome and leaves `w'`. */
  ghost predicate IsOutcome(w: World, t: TopologyRow, w': World, o: Outcome) {
    exists latencies, cap, xs: seq<Shared<State, int>>, es ::
      PoolValidates(w, t, latencies, cap, xs, es) && EndsAs(w, t, xs[|es|], w', o)
  }

  /** The pinged pairs that are up. */
  function UpPairs(w: World, t: TopologyRow, checks: seq<Pool.Check>): set<nat> {
    set i | 0 <= i < |checks| && checks[i].icmp && BothUp(w, t, checks[i].source, checks[i].target)
  }

  predicate HasStatus(slots: seq<Option<Pool.Result>>, i: nat, status: TestStatus)
    requires i < |slots|
  {
    slots[i].Some? && slots[i].value.status == status
  }

  function Having(slots: seq<Option<Pool.Result>>, status: TestStatus): set<nat> {
    set i: nat | i < |slots| && HasStatus(slots, i, status)
  }

  lemma HavingNext(slots: seq<Option<Pool.Result>>, status: TestStatus)
    requires slots != []
    ensures var n := |slots| - 1;
            |Having(slots, status)| == |Having(slots[..n], status)| + if HasStatus(slots, n, status) then 1 else 0
  {
    var n := |slots| - 1;
    var before := Having(slots[..n], status);
    forall i | 0 <= i < n ensures HasStatus(slots[..n], i, status) == HasStatus(slots, i, status) {}
    hide HasStatus;
    assert n !in before;
    assert Having(slots, status) == before + if HasStatus(slots, n, status) then {n} else {};
  }

  lemma {:induction false} CountIsSize(slots: seq<Option<Pool.Result>>, status: TestStatus)
    ensures Pool.Count(slots, status) == |Having(slots, status)|
  {
    if slots == [] {
      assert Having(slots, status) == {};
    } else {
      hide Having;
      CountIsSize(slots[..|slots| - 1], status);
      HavingNext(slots, status);
    }
  }

  /** Without failures left and without time-outs the passed tests are the pairs that are up. */
  lemma PassedAreUp(w: World, t: TopologyRow, x: Shared<State, int>)
    requires Gathered(w, t, x) && x.pool.timedOut == {} && PingsLeft(w.provider) == 0
    ensures Pool.Count(x.pool.slots, Pool.PASSED) == |UpPairs(w, t, ChecksOf(t.topology))|
  {
    GatheredAnswers(w, t, x);
    hide Gathered, ChecksOf, BothUp, Pool.Count;
    var checks, slots := ChecksOf(t.topology), x.pool.slots;
    CountIsSize(slots, Pool.PASSED);
    var passed := Having(slots, Pool.PASSED);
    forall i | 0 <= i < |checks|
      ensures i in passed <==> checks[i].icmp && BothUp(w, t, checks[i].source, checks[i].target)
    {
      assert AnsweredAt(w, t, checks[i], AsResults(slots)[i]);
    }
    assert passed == UpPairs(w, t, checks);
  }

  /** Everything there is to say about an outcome, in every state and for every schedule. */
  lemma OutcomeExactly(w: World, t: TopologyRow, w': World, o: Outcome)
    requires IsOutcome(w, t, w', o)
    ensures w' == w.(provider := w.provider.(budgets := w'.provider.budgets))
    ensures forall op :: op != Op.RunPing ==> Budget(w'.provider, op) == Budget(w.provider, op)
    ensures Spends(PingsLeft(w.provider), |UpChecks(w, t, ChecksOf(t.topology))|, PingsLeft(w'.provider))
    ensures o.status in {Pool.PASSED, Pool.FAILED}
    ensures o.status == Pool.PASSED <==> ValidationHolds(w, t) && !o.gaveUp
    ensures o.total == |JobsOf(t)| && o.passed <= o.total
    ensures PingsLeft(w.provider) == 0 && !o.gaveUp ==> o.passed == |UpPairs(w, t, ChecksOf(t.topology))|
  {
    var latencies: Pool.Job -> seq<real>, cap: nat, xs: seq<Shared<State, int>>, es: seq<Pool.Event> :|
      PoolValidates(w, t, latencies, cap, xs, es) && EndsAs(w, t, xs[|es|], w', o);
    ParallelAsSequential(w, t, latencies, cap, xs, es);
    ParallelAccounts(w, t, latencies, cap, xs, es);
    PoolGathers(w, t, latencies, cap, xs, es);
    ValidateExactly(w, t);
    hide PoolValidates, Gathered, ChecksOf, Verdict, UpChecks, UpPairs, ValidationHolds, Pool.Count, Pool.TestsTotal,
         Pool.ReplyLatencies, Pool.JobLatencies, Validate, JobsOf, AsResults, Results, Outcomes;
    var x := xs[|es|];
    VerdictIsBinary(t.topology, AsResults(x.pool.slots));
    if PingsLeft(w.provider) == 0 && !o.gaveUp { PassedAreUp(w, t, x); }
  }

  /** Every state can be validated, and without giving up. */
  lemma OutcomeExists(w: World, t: TopologyRow) returns (w': World, o: Outcome)
    ensures IsOutcome(w, t, w', o) && !o.gaveUp
  {
    hide PingWith, SeeFailures, SharedSchedules, SharedInv, Pool.Done, Pool.RuleSlots, ChecksOf, Gathered, OutcomeIn,
         IsOutcome, JobsOf;
    var latencies := (j: Pool.Job) => [];
    var start := StartShared<State, int>(Pool.RuleSlots(ChecksOf(t.topology)), w.provider);
    StartKeepsShared<State, int>(1, JobsOf(t), w.provider, Pool.RuleSlots(ChecksOf(t.topology)));
    var xs, es := ScheduleExists(SeeFailures, PingWith(w, t, latencies), 1, JobsOf(t), start);
    assert PoolValidates(w, t, latencies, 1, xs, es);
    PoolGathers(w, t, latencies, 1, xs, es);
    assert Gathered(w, t, xs[|es|]) ==> Filled(t, xs[|es|].pool) by { GatheredIsFilled(w, t, xs[|es|]); }
    EverySlotFilled(t, xs[|es|].pool);
    w', o := w.(provider := xs[|es|].state), OutcomeIn(t, xs[|es|]);
    EndsIn(w, t, xs[|es|], o);
    assert EndsAs(w, t, xs[|es|], w', o);
    OutcomeOfRun(w, t, latencies, 1, xs, es, w', o);
  }

  lemma GatheredIsFilled(w: World, t: TopologyRow, x: Shared<State, int>)
    ensures Gathered(w, t, x) ==> Filled(t, x.pool)
  {
    hide Raced, Filled;
  }

  lemma EndsIn(w: World, t: TopologyRow, x: Shared<State, int>, o: Outcome)
    requires (forall i :: 0 <= i < |x.pool.slots| ==> x.pool.slots[i].Some?) && o == OutcomeIn(t, x)
    ensures o.gaveUp <==> x.pool.timedOut != {}
  {
    hide Verdict, Pool.TestsTotal, Pool.Count, Pool.ReplyLatencies;
  }

  lemma OutcomeOfRun(w: World, t: TopologyRow, latencies: Pool.Job -> seq<real>, cap: nat,
                     xs: seq<Shared<State, int>>, es: seq<Pool.Event>, w': World, o: Outcome)
    requires PoolValidates(w, t, latencies, cap, xs, es) && EndsAs(w, t, xs[|es|], w', o)
    ensures IsOutcome(w, t, w', o)
  {
    hide PoolValidates, EndsAs;
  }
}
