/**
 The thread pool again, when its jobs share a state, as pings on the mock share its failure
 budget.  A job first looks at the state and later acts on it, so between the two other jobs
 may act as well.
 */
module SharedPings {
  import opened Wrappers
  import opened ParallelPings

  /** What a job sees of the shared state when it looks. */
  type Eye<!S, !V> = (S, Job) -> V

  /** What a job does to the shared state, knowing what it saw, and what it answers. */
  type Hand<!S, !V> = (S, V, Job) -> (S, ParallelPings.Result)

  datatype Shared<S, V> = Shared(pool: Pool, state: S, seen: map<nat, V>)

  ghost predicate StepShared<S, V>(eye: Eye<S, V>, hand: Hand<S, V>, cap: nat, jobs: seq<Job>,
                                   x: Shared<S, V>, e: Event, x': Shared<S, V>) {
    && Enabled(cap, jobs, x.pool, e) && (forall j :: j in x.pool.running ==> j < |jobs|)
    && match e
       case Look(j) =>
         x' == x.(pool := Step(TimedOutResult, jobs, x.pool, e), seen := x.seen[j := eye(x.state, jobs[j])])
       case Finish(j) =>
         j in x.seen && var (s', r) := hand(x.state, x.seen[j], jobs[j]); x' == Shared(End(x.pool, j, r), s', x.seen)
       case _ => x' == x.(pool := Step(TimedOutResult, jobs, x.pool, e))
  }

  ghost predicate SharedSchedules<S, V>(eye: Eye<S, V>, hand: Hand<S, V>, cap: nat, jobs: seq<Job>,
                                        xs: seq<Shared<S, V>>, es: seq<Event>) {
    |xs| == |es| + 1 && forall i :: 0 <= i < |es| ==> StepShared(eye, hand, cap, jobs, xs[i], es[i], xs[i + 1])
  }

  function StartShared<S, V>(slots: seq<Option<ParallelPings.Result>>, s: S): Shared<S, V> {
    Shared(Start(slots), s, map[])
  }

  // ----- invariant

  ghost predicate SharedInv<S, V>(cap: nat, jobs: seq<Job>, x: Shared<S, V>) {
    Queued(cap, jobs, x.pool) && x.seen.Keys == x.pool.looked
  }

  lemma StepKeepsShared<S, V>(eye: Eye<S, V>, hand: Hand<S, V>, cap: nat, jobs: seq<Job>,
                              x: Shared<S, V>, e: Event, x': Shared<S, V>)
    requires SharedInv(cap, jobs, x) && StepShared(eye, hand, cap, jobs, x, e, x')
    ensures SharedInv(cap, jobs, x') && Progress(x'.pool) == Progress(x.pool) + 1
    ensures FinishedKept(x.pool, x'.pool)
  {
    EndsOnce(cap, jobs, x.pool);
    if e.Finish? {
      EndKeepsQueue(cap, jobs, x.pool, e.job, hand(x.state, x.seen[e.job], jobs[e.job]).1);
      hide Queued, Progress;
      assert x.pool.finished.Keys <= x'.pool.finished.Keys;
    } else {
      OtherKeepsShared(eye, hand, cap, jobs, x, e, x');
      hide SharedInv, Progress, StepShared;
    }
  }

  lemma OtherKeepsShared<S, V>(eye: Eye<S, V>, hand: Hand<S, V>, cap: nat, jobs: seq<Job>,
                               x: Shared<S, V>, e: Event, x': Shared<S, V>)
    requires SharedInv(cap, jobs, x) && StepShared(eye, hand, cap, jobs, x, e, x') && !e.Finish?
    ensures SharedInv(cap, jobs, x') && Progress(x'.pool) == Progress(x.pool) + 1
    ensures FinishedKept(x.pool, x'.pool)
  {
    StepKeepsQueue(TimedOutResult, cap, jobs, x.pool, e);
    hide Queued, Progress, Fill, Workers;
    LooksOnly(jobs, x.pool, e);
    hide Step, Enabled;
    if e.Look? { assert x'.seen.Keys == x.seen.Keys + {e.job}; }
  }

  lemma LooksOnly(jobs: seq<Job>, p: Pool, e: Event)
    requires !e.Finish? && (e.Collect? || e.GiveUp? ==> p.collected < |jobs|)
    requires (forall j :: j in p.running ==> j < |jobs|) && (e.Collect? ==> p.collected in p.finished)
    ensures var p' := Step(TimedOutResult, jobs, p, e);
            p'.finished == p.finished && p'.looked == if e.Look? then p.looked + {e.job} else p.looked
  {
    hide Fill;
  }

  lemma EndsOnce(cap: nat, jobs: seq<Job>, p: Pool)
    requires Queued(cap, jobs, p)
    ensures forall j :: j in p.running ==> j !in p.finished
  {
  }

  /** A result, once there, stays. */
  ghost predicate FinishedKept(p: Pool, p': Pool) {
    forall j :: j in p.finished ==> j in p'.finished && p'.finished[j] == p.finished[j]
  }

  lemma {:induction false} SchedulesKeepShared<S, V>(eye: Eye<S, V>, hand: Hand<S, V>, cap: nat, jobs: seq<Job>, s: S,
                                                     xs: seq<Shared<S, V>>, es: seq<Event>,
                                                     slots: seq<Option<ParallelPings.Result>>, n: nat)
    requires SharedSchedules(eye, hand, cap, jobs, xs, es) && xs[0] == StartShared(slots, s) && n <= |es|
    ensures SharedInv(cap, jobs, xs[n])
  {
    hide SharedInv, StepShared;
    if n > 0 {
      SchedulesKeepShared(eye, hand, cap, jobs, s, xs, es, slots, n - 1);
      StepKeepsShared(eye, hand, cap, jobs, xs[n - 1], es[n - 1], xs[n]);
    } else {
      StartKeepsShared<S, V>(cap, jobs, s, slots);
    }
  }

  lemma StartKeepsShared<S, V>(cap: nat, jobs: seq<Job>, s: S, slots: seq<Option<ParallelPings.Result>>)
    ensures SharedInv<S, V>(cap, jobs, StartShared(slots, s))
  {
  }

  lemma {:induction false} FinishedStays<S, V>(eye: Eye<S, V>, hand: Hand<S, V>, cap: nat, jobs: seq<Job>, s: S,
                                               xs: seq<Shared<S, V>>, es: seq<Event>,
                                               slots: seq<Option<ParallelPings.Result>>, m: nat, n: nat)
    requires SharedSchedules(eye, hand, cap, jobs, xs, es) && xs[0] == StartShared(slots, s) && m <= n <= |es|
    ensures FinishedKept(xs[m].pool, xs[n].pool)
  {
    hide SharedInv, StepShared, Progress;
    if m < n {
      FinishedStays(eye, hand, cap, jobs, s, xs, es, slots, m, n - 1);
      SchedulesKeepShared(eye, hand, cap, jobs, s, xs, es, slots, n - 1);
      StepKeepsShared(eye, hand, cap, jobs, xs[n - 1], es[n - 1], xs[n]);
    }
  }

  // ----- the schedule as one of independent jobs

  /** Each job's answer in the end. */
  ghost function Outcomes(jobs: seq<Job>, finished: map<nat, ParallelPings.Result>): Compute {
    (j: Job) => if exists i :: IsJob(jobs, finished, i, j) then
                  (var i :| IsJob(jobs, finished, i, j); finished[i])
                else TimedOutResult(j)
  }

  ghost predicate IsJob(jobs: seq<Job>, finished: map<nat, ParallelPings.Result>, i: nat, j: Job) {
    i < |jobs| && i in finished && jobs[i] == j
  }

  lemma OutcomeOf(jobs: seq<Job>, finished: map<nat, ParallelPings.Result>, i: nat)
    requires forall a, b :: 0 <= a < b < |jobs| ==> jobs[a].slot != jobs[b].slot
    requires i < |jobs| && i in finished
    ensures Outcomes(jobs, finished)(jobs[i]) == finished[i]
  {
    assert IsJob(jobs, finished, i, jobs[i]);
    forall k: nat | IsJob(jobs, finished, k, jobs[i]) ensures k == i {
      assert jobs[k].slot == jobs[i].slot;
    }
  }

  function Pools<S, V>(xs: seq<Shared<S, V>>): seq<Pool> {
    seq(|xs|, i requires 0 <= i < |xs| => xs[i].pool)
  }

  lemma StepIsIndependent<S, V>(eye: Eye<S, V>, hand: Hand<S, V>, cap: nat, jobs: seq<Job>,
                                x: Shared<S, V>, e: Event, x': Shared<S, V>, f: Compute)
    requires StepShared(eye, hand, cap, jobs, x, e, x')
    requires e.Finish? ==> f(jobs[e.job]) == x'.pool.finished[e.job]
    ensures StepOf(f, cap, jobs, x.pool, e, x'.pool)
  {
    hide Fill;
  }

  /** Whatever the jobs do to each other, the schedule is one of independent jobs that answer as these did. */
  lemma SchedulesAreIndependent<S, V>(eye: Eye<S, V>, hand: Hand<S, V>, cap: nat, jobs: seq<Job>, s: S,
                                      xs: seq<Shared<S, V>>, es: seq<Event>, slots: seq<Option<ParallelPings.Result>>)
    requires WellFormed(jobs, slots) && SharedSchedules(eye, hand, cap, jobs, xs, es)
    requires xs[0] == StartShared(slots, s)
    ensures Schedules(Outcomes(jobs, xs[|es|].pool.finished), cap, jobs, Pools(xs), es)
    ensures SharedInv(cap, jobs, xs[|es|])
  {
    hide SharedInv, StepShared, WellFormed, Outcomes, StepOf;
    var f := Outcomes(jobs, xs[|es|].pool.finished);
    SchedulesKeepShared(eye, hand, cap, jobs, s, xs, es, slots, |es|);
    forall i | 0 <= i < |es| ensures StepOf(f, cap, jobs, Pools(xs)[i], es[i], Pools(xs)[i + 1]) {
      if es[i].Finish? {
        FinishGives(eye, hand, cap, jobs, xs[i], es[i], xs[i + 1]);
        FinishedStays(eye, hand, cap, jobs, s, xs, es, slots, i + 1, |es|);
        JobsDiffer(jobs, slots);
        OutcomeOf(jobs, xs[|es|].pool.finished, es[i].job);
      }
      StepIsIndependent(eye, hand, cap, jobs, xs[i], es[i], xs[i + 1], f);
    }
  }

  lemma FinishGives<S, V>(eye: Eye<S, V>, hand: Hand<S, V>, cap: nat, jobs: seq<Job>,
                          x: Shared<S, V>, e: Event, x': Shared<S, V>)
    requires StepShared(eye, hand, cap, jobs, x, e, x') && e.Finish?
    ensures e.job < |jobs| && e.job in x'.pool.finished
  {
  }

  lemma JobsDiffer(jobs: seq<Job>, slots: seq<Option<ParallelPings.Result>>)
    requires WellFormed(jobs, slots)
    ensures forall a, b :: 0 <= a < b < |jobs| ==> jobs[a].slot != jobs[b].slot
  {
  }

  /** When everything is done: each job's slot holds its answer or a time-out, every other slot is as it was. */
  ghost predicate SlotsGathered(jobs: seq<Job>, initial: seq<Option<ParallelPings.Result>>, p: Pool) {
    && |p.slots| == |initial|
    && (forall k :: k in p.finished <==> 0 <= k < |jobs|) && (forall k :: k in p.timedOut ==> k < |jobs|)
    && (forall k :: 0 <= k < |jobs| ==>
          jobs[k].slot < |initial|
          && p.slots[jobs[k].slot] == Some(if k in p.timedOut then TimedOutResult(jobs[k]) else p.finished[k]))
    && (forall s :: 0 <= s < |initial| && initial[s].Some? ==> p.slots[s] == initial[s])
  }

  lemma SharedGathers<S, V>(eye: Eye<S, V>, hand: Hand<S, V>, cap: nat, jobs: seq<Job>, s: S,
                            xs: seq<Shared<S, V>>, es: seq<Event>, initial: seq<Option<ParallelPings.Result>>)
    requires WellFormed(jobs, initial) && SharedSchedules(eye, hand, cap, jobs, xs, es)
    requires xs[0] == StartShared(initial, s) && Done(jobs, xs[|es|].pool)
    ensures SlotsGathered(jobs, initial, xs[|es|].pool) && SharedInv(cap, jobs, xs[|es|])
  {
    assert |xs| == |es| + 1;
    hide StepShared, SharedInv, SharedSchedules, Schedules, WellFormed, Outcomes, Done;
    var p := xs[|es|].pool;
    SchedulesAreIndependent(eye, hand, cap, jobs, s, xs, es, initial);
    JobsDiffer(jobs, initial);
    DoneGathers(Outcomes(jobs, p.finished), cap, jobs, initial, Pools(xs), es);
    forall k | 0 <= k < |jobs|
      ensures p.slots[jobs[k].slot] == Some(if k in p.timedOut then TimedOutResult(jobs[k]) else p.finished[k])
    {
      OutcomeOf(jobs, p.finished, k);
    }
  }

  // ----- schedules exist

  lemma OneMoreStep<S, V>(eye: Eye<S, V>, hand: Hand<S, V>, cap: nat, jobs: seq<Job>, x: Shared<S, V>)
    returns (e: Event, x': Shared<S, V>)
    requires cap >= 1 && SharedInv(cap, jobs, x) && !Done(jobs, x.pool)
    ensures StepShared(eye, hand, cap, jobs, x, e, x') && x'.pool.timedOut == x.pool.timedOut
  {
    e := NextEvent(cap, jobs, x.pool);
    if e.Look? {
      var saw := eye(x.state, jobs[e.job]);
      x' := x.(pool := Step(TimedOutResult, jobs, x.pool, e), seen := x.seen[e.job := saw]);
    } else if e.Finish? {
      var (s', r) := hand(x.state, x.seen[e.job], jobs[e.job]);
      x' := Shared(End(x.pool, e.job, r), s', x.seen);
    } else {
      x' := x.(pool := Step(TimedOutResult, jobs, x.pool, e));
    }
  }

  lemma OneStepEarlier<S, V>(eye: Eye<S, V>, hand: Hand<S, V>, cap: nat, jobs: seq<Job>, x: Shared<S, V>, e: Event,
                             xs: seq<Shared<S, V>>, es: seq<Event>)
    requires SharedSchedules(eye, hand, cap, jobs, xs, es) && StepShared(eye, hand, cap, jobs, x, e, xs[0])
    ensures SharedSchedules(eye, hand, cap, jobs, [x] + xs, [e] + es)
    ensures ([x] + xs)[0] == x && ([x] + xs)[|[e] + es|] == xs[|es|]
  {
    hide StepShared;
  }

  /** From any point the pool can be run to its end without giving up on a job. */
  lemma {:induction false} ScheduleExists<S, V>(eye: Eye<S, V>, hand: Hand<S, V>, cap: nat, jobs: seq<Job>,
                                                x: Shared<S, V>)
    returns (xs: seq<Shared<S, V>>, es: seq<Event>)
    requires cap >= 1 && SharedInv(cap, jobs, x)
    ensures |xs| == |es| + 1 && SharedSchedules(eye, hand, cap, jobs, xs, es) && xs[0] == x
    ensures Done(jobs, xs[|es|].pool) && xs[|es|].pool.timedOut == x.pool.timedOut
    decreases 5 * |jobs| - Progress(x.pool)
  {
    QueueAdvances(cap, jobs, x);
    hide SharedInv, StepShared, Done, Progress, SharedSchedules;
    if Done(jobs, x.pool) {
      xs, es := [x], [];
      NoSteps(eye, hand, cap, jobs, x);
    } else {
      var e, x' := OneMoreStep(eye, hand, cap, jobs, x);
      StepKeepsShared(eye, hand, cap, jobs, x, e, x');
      QueueAdvances(cap, jobs, x');
      xs, es := ScheduleExists(eye, hand, cap, jobs, x');
      OneStepEarlier(eye, hand, cap, jobs, x, e, xs, es);
      xs, es := [x] + xs, [e] + es;
    }
  }

  lemma NoSteps<S, V>(eye: Eye<S, V>, hand: Hand<S, V>, cap: nat, jobs: seq<Job>, x: Shared<S, V>)
    ensures SharedSchedules(eye, hand, cap, jobs, [x], [])
  {
  }

  lemma QueueAdvances<S, V>(cap: nat, jobs: seq<Job>, x: Shared<S, V>)
    requires cap >= 1 && SharedInv(cap, jobs, x)
    ensures Progress(x.pool) <= 5 * |jobs|
  {
    PoolAdvances(cap, jobs, x.pool);
  }
}
