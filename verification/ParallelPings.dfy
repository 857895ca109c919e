/**
 `_run_ping_jobs_parallel` as a state machine: the caller submits every job, a bounded pool
 runs them first come first served, and the caller collects the answers in submission order,
 giving up on a job that is not finished in time.
 */
module ParallelPings {
  import opened Wrappers

  datatype TestStatus = PASSED | FAILED | SKIPPED

  datatype Result = Result(source: string, target: string, status: TestStatus, latencies: seq<real>)

  /** `slot` is the position of the checked link or rule. */
  datatype Job = Job(slot: nat, source: string, target: string)

  /** What a ping computes, whichever worker runs it. */
  type Compute = Job -> Result

  /** `looked` are the jobs that have read the provider's failure counter, which they do while running. */
  datatype Pool = Pool(submitted: nat, started: nat, running: set<nat>, looked: set<nat>, finished: map<nat, Result>,
                       collected: nat, timedOut: set<nat>, slots: seq<Option<Result>>, recorded: seq<Result>)

  datatype Event = Submit | Begin | Look(job: nat) | Finish(job: nat) | Collect | GiveUp

  function Workers(cap: nat, jobs: seq<Job>): nat {
    if cap < |jobs| then cap else |jobs|
  }

  function TimedOutResult(j: Job): Result {
    Result(j.source, j.target, FAILED, [])
  }

  predicate Enabled(cap: nat, jobs: seq<Job>, p: Pool, e: Event) {
    match e
    case Submit => p.submitted < |jobs|
    case Begin => p.started < p.submitted && |p.running| < Workers(cap, jobs)
    case Look(j) => j in p.running && j !in p.looked
    case Finish(j) => j in p.running && j in p.looked
    case Collect => p.submitted == |jobs| && p.collected < |jobs| && p.collected in p.finished
    case GiveUp => p.submitted == |jobs| && p.collected < |jobs| && p.collected !in p.finished
  }

  function Fill(slots: seq<Option<Result>>, at: nat, r: Result): seq<Option<Result>> {
    if at < |slots| then slots[at := Some(r)] else slots
  }

  function End(p: Pool, j: nat, r: Result): Pool {
    p.(running := p.running - {j}, finished := p.finished[j := r])
  }

  function Step(f: Compute, jobs: seq<Job>, p: Pool, e: Event): Pool
    requires forall j :: j in p.running ==> j < |jobs|
    requires e.Collect? || e.GiveUp? ==> p.collected < |jobs|
    requires e.Collect? ==> p.collected in p.finished
    requires e.Finish? ==> e.job in p.running
  {
    match e
    case Submit => p.(submitted := p.submitted + 1)
    case Begin => p.(running := p.running + {p.started}, started := p.started + 1)
    case Look(j) => p.(looked := p.looked + {j})
    case Finish(j) => End(p, j, f(jobs[j]))
    case Collect =>
      var r := p.finished[p.collected];
      p.(slots := Fill(p.slots, jobs[p.collected].slot, r), recorded := p.recorded + [r], collected := p.collected + 1)
    case GiveUp =>
      var r := TimedOutResult(jobs[p.collected]);
      p.(slots := Fill(p.slots, jobs[p.collected].slot, r), recorded := p.recorded + [r], collected := p.collected + 1,
         timedOut := p.timedOut + {p.collected})
  }

  /** Jobs have their own slots, inside the slot list, which starts empty there. */
  ghost predicate WellFormed(jobs: seq<Job>, slots: seq<Option<Result>>) {
    && (forall i :: 0 <= i < |jobs| ==> jobs[i].slot < |slots| && slots[jobs[i].slot] == None)
    && (forall i, j :: 0 <= i < j < |jobs| ==> jobs[i].slot != jobs[j].slot)
  }

  function Start(slots: seq<Option<Result>>): Pool {
    Pool(0, 0, {}, {}, map[], 0, {}, slots, [])
  }

  /** The answer job `i` ends up with: its own computation unless the caller gave up on it. */
  function Answer(f: Compute, jobs: seq<Job>, timedOut: set<nat>, i: nat): Result
    requires i < |jobs|
  {
    if i in timedOut then TimedOutResult(jobs[i]) else f(jobs[i])
  }

  // ----- invariant

  /** Slots of collected jobs hold their answers; every other slot is as it was. */
  ghost predicate SlotsHold(f: Compute, jobs: seq<Job>, initial: seq<Option<Result>>, p: Pool)
    requires p.collected <= |jobs|
  {
    && |p.slots| == |initial| && |p.recorded| == p.collected
    && (forall i :: 0 <= i < p.collected ==>
          jobs[i].slot < |p.slots| && p.slots[jobs[i].slot] == Some(Answer(f, jobs, p.timedOut, i))
          && p.recorded[i] == Answer(f, jobs, p.timedOut, i))
    && (forall s :: 0 <= s < |p.slots| && p.slots[s] != initial[s] ==>
          exists i :: 0 <= i < p.collected && jobs[i].slot == s)
  }

  /**
   Jobs begin in submission order, each looks once and then ends once, and answers are
   collected only after all are submitted.
   */
  ghost predicate Queued(cap: nat, jobs: seq<Job>, p: Pool) {
    && p.started <= p.submitted <= |jobs| && p.collected <= |jobs|
    && (p.collected > 0 ==> p.submitted == |jobs|)
    && |p.running| <= Workers(cap, jobs)
    && (forall j :: j in p.running || j in p.finished <==> 0 <= j < p.started)
    && (forall j :: j in p.running ==> j !in p.finished)
    && (forall j :: j in p.looked ==> j in p.running || j in p.finished)
    && (forall j :: j in p.finished ==> j in p.looked)
    && (forall j :: j in p.timedOut ==> j < p.collected)
  }

  ghost predicate QueueHolds(f: Compute, cap: nat, jobs: seq<Job>, p: Pool) {
    Queued(cap, jobs, p) && forall j :: j in p.finished ==> p.finished[j] == f(jobs[j])
  }

  ghost predicate Inv(f: Compute, cap: nat, jobs: seq<Job>, initial: seq<Option<Result>>, p: Pool) {
    QueueHolds(f, cap, jobs, p) && SlotsHold(f, jobs, initial, p)
  }

  lemma EndKeepsQueue(cap: nat, jobs: seq<Job>, p: Pool, j: nat, r: Result)
    requires Queued(cap, jobs, p) && Enabled(cap, jobs, p, Finish(j))
    ensures Queued(cap, jobs, End(p, j, r)) && Progress(End(p, j, r)) == Progress(p) + 1
  {
    hide Workers;
    var p' := End(p, j, r);
    EndCounts(p.running, p.finished, j, r);
    assert forall k :: k in p'.finished <==> k in p.finished || k == j;
    assert forall k :: k in p'.running <==> k in p.running && k != j;
  }

  lemma EndCounts(running: set<nat>, finished: map<nat, Result>, j: nat, r: Result)
    requires j in running && j !in finished
    ensures |running - {j}| == |running| - 1 && |finished[j := r].Keys| == |finished.Keys| + 1
  {
    assert finished[j := r].Keys == finished.Keys + {j};
  }

  lemma BeginKeepsQueue(f: Compute, cap: nat, jobs: seq<Job>, p: Pool)
    requires Queued(cap, jobs, p) && Enabled(cap, jobs, p, Begin)
    ensures Queued(cap, jobs, Step(f, jobs, p, Begin)) && Progress(Step(f, jobs, p, Begin)) == Progress(p) + 1
  {
    hide Workers;
    assert p.started !in p.running && p.started !in p.finished;
  }

  lemma StepKeepsQueue(f: Compute, cap: nat, jobs: seq<Job>, p: Pool, e: Event)
    requires Queued(cap, jobs, p) && Enabled(cap, jobs, p, e)
    ensures Queued(cap, jobs, Step(f, jobs, p, e)) && Progress(Step(f, jobs, p, e)) == Progress(p) + 1
  {
    if e.Finish? {
      EndKeepsQueue(cap, jobs, p, e.job, f(jobs[e.job]));
    } else if e.Begin? {
      BeginKeepsQueue(f, cap, jobs, p);
    } else if e.Look? {
      LookKeepsQueue(f, cap, jobs, p, e.job);
    } else {
      CallerKeepsQueue(f, cap, jobs, p, e);
    }
    hide Queued, Progress, Step;
  }

  lemma LookKeepsQueue(f: Compute, cap: nat, jobs: seq<Job>, p: Pool, j: nat)
    requires Queued(cap, jobs, p) && Enabled(cap, jobs, p, Look(j))
    ensures Queued(cap, jobs, Step(f, jobs, p, Look(j))) && Progress(Step(f, jobs, p, Look(j))) == Progress(p) + 1
  {
    hide Workers;
    assert |p.looked + {j}| == |p.looked| + 1;
  }

  lemma CallerKeepsQueue(f: Compute, cap: nat, jobs: seq<Job>, p: Pool, e: Event)
    requires Queued(cap, jobs, p) && Enabled(cap, jobs, p, e) && (e.Submit? || e.Collect? || e.GiveUp?)
    ensures Queued(cap, jobs, Step(f, jobs, p, e)) && Progress(Step(f, jobs, p, e)) == Progress(p) + 1
  {
    hide Workers, Fill;
  }

  lemma StepKeepsAnswers(f: Compute, cap: nat, jobs: seq<Job>, p: Pool, e: Event)
    requires QueueHolds(f, cap, jobs, p) && Enabled(cap, jobs, p, e)
    ensures QueueHolds(f, cap, jobs, Step(f, jobs, p, e)) && Progress(Step(f, jobs, p, e)) == Progress(p) + 1
  {
    StepKeepsQueue(f, cap, jobs, p, e);
    hide Queued, Fill;
  }

  lemma StoreKeepsSlots(f: Compute, jobs: seq<Job>, initial: seq<Option<Result>>, p: Pool, timedOut: set<nat>)
    requires WellFormed(jobs, initial) && p.collected < |jobs| && SlotsHold(f, jobs, initial, p)
    requires timedOut == p.timedOut || timedOut == p.timedOut + {p.collected}
    ensures var r := Answer(f, jobs, timedOut, p.collected);
            SlotsHold(f, jobs, initial,
                      p.(slots := Fill(p.slots, jobs[p.collected].slot, r), recorded := p.recorded + [r],
                         collected := p.collected + 1, timedOut := timedOut))
  {
    var c := p.collected;
    var r := Answer(f, jobs, timedOut, c);
    var slots := Fill(p.slots, jobs[c].slot, r);
    forall i | 0 <= i < c
      ensures jobs[i].slot != jobs[c].slot && Answer(f, jobs, timedOut, i) == Answer(f, jobs, p.timedOut, i) {}
    forall s | 0 <= s < |slots| && slots[s] != initial[s] ensures exists i :: 0 <= i < c + 1 && jobs[i].slot == s {
      if s != jobs[c].slot { var i :| 0 <= i < c && jobs[i].slot == s; }
    }
  }

  lemma StepKeepsInv(f: Compute, cap: nat, jobs: seq<Job>, initial: seq<Option<Result>>, p: Pool, e: Event)
    requires WellFormed(jobs, initial) && Inv(f, cap, jobs, initial, p) && Enabled(cap, jobs, p, e)
    ensures Inv(f, cap, jobs, initial, Step(f, jobs, p, e))
    ensures Progress(Step(f, jobs, p, e)) == Progress(p) + 1
  {
    StepKeepsAnswers(f, cap, jobs, p, e);
    hide WellFormed, Fill, QueueHolds, SlotsHold, Progress, Step;
    CollectedBound(f, cap, jobs, p);
    if e.Collect? {
      CollectKeepsSlots(f, cap, jobs, initial, p);
    } else if e.GiveUp? {
      GiveUpKeepsSlots(f, cap, jobs, initial, p);
    } else {
      StepLeavesSlots(f, jobs, p, e);
      OtherKeepsSlots(f, jobs, initial, p, Step(f, jobs, p, e));
    }
  }

  lemma CollectKeepsSlots(f: Compute, cap: nat, jobs: seq<Job>, initial: seq<Option<Result>>, p: Pool)
    requires WellFormed(jobs, initial) && Inv(f, cap, jobs, initial, p) && Enabled(cap, jobs, p, Collect)
    ensures SlotsHold(f, jobs, initial, Step(f, jobs, p, Collect))
  {
    hide WellFormed, Fill, QueueHolds, SlotsHold;
    CollectedBound(f, cap, jobs, p);
    StoreKeepsSlots(f, jobs, initial, p, p.timedOut);
  }

  lemma GiveUpKeepsSlots(f: Compute, cap: nat, jobs: seq<Job>, initial: seq<Option<Result>>, p: Pool)
    requires WellFormed(jobs, initial) && Inv(f, cap, jobs, initial, p) && Enabled(cap, jobs, p, GiveUp)
    ensures SlotsHold(f, jobs, initial, Step(f, jobs, p, GiveUp))
  {
    hide WellFormed, Fill, QueueHolds, SlotsHold;
    CollectedBound(f, cap, jobs, p);
    StoreKeepsSlots(f, jobs, initial, p, p.timedOut + {p.collected});
  }

  lemma StepLeavesSlots(f: Compute, jobs: seq<Job>, p: Pool, e: Event)
    requires (forall j :: j in p.running ==> j < |jobs|) && (e.Finish? ==> e.job in p.running)
    requires !e.Collect? && !e.GiveUp?
    ensures var p' := Step(f, jobs, p, e);
            p'.collected == p.collected && p'.slots == p.slots && p'.recorded == p.recorded && p'.timedOut == p.timedOut
  {
  }

  lemma OtherKeepsSlots(f: Compute, jobs: seq<Job>, initial: seq<Option<Result>>, p: Pool, p': Pool)
    requires p.collected <= |jobs| && SlotsHold(f, jobs, initial, p)
    requires p'.collected == p.collected && p'.slots == p.slots && p'.recorded == p.recorded
    requires p'.timedOut == p.timedOut
    ensures SlotsHold(f, jobs, initial, p')
  {
  }

  lemma CollectedBound(f: Compute, cap: nat, jobs: seq<Job>, p: Pool)
    requires QueueHolds(f, cap, jobs, p)
    ensures p.collected !in p.timedOut && p.collected <= |jobs|
    ensures forall j :: j in p.running ==> j < |jobs|
    ensures forall j :: j in p.finished ==> j < |jobs| && p.finished[j] == f(jobs[j])
  {
  }

  /** Each job is submitted, begun, looks, is finished and collected once: `5 * |jobs|` steps in all. */
  function Progress(p: Pool): int {
    p.submitted + p.started + |p.looked| + |p.finished.Keys| + p.collected
  }

  ghost predicate Done(jobs: seq<Job>, p: Pool) {
    p.submitted == p.started == p.collected == |jobs| && p.running == {}
  }

  lemma SetBound(n: nat, s: set<nat>)
    requires forall j :: j in s ==> j < n
    ensures |s| <= n
  {
    if n > 0 {
      SetBound(n - 1, s - {n - 1});
    } else {
      assert s == {};
    }
  }

  /** The pool is never stuck before it is done, and never takes more than five steps a job. */
  lemma PoolAdvances(cap: nat, jobs: seq<Job>, p: Pool)
    requires cap >= 1 && Queued(cap, jobs, p)
    ensures Progress(p) <= 5 * |jobs|
    ensures !Done(jobs, p) <==> exists e :: Enabled(cap, jobs, p, e)
  {
    SetBound(|jobs|, p.finished.Keys);
    SetBound(|jobs|, p.looked);
    if !Done(jobs, p) {
      var e := NextEvent(cap, jobs, p);
    }
  }

  /** There is always a next event that gives up on nothing. */
  lemma NextEvent(cap: nat, jobs: seq<Job>, p: Pool) returns (e: Event)
    requires cap >= 1 && Queued(cap, jobs, p) && !Done(jobs, p)
    ensures Enabled(cap, jobs, p, e) && !e.GiveUp?
  {
    if p.submitted < |jobs| {
      e := Submit;
    } else if j :| j in p.running {
      e := if j in p.looked then Finish(j) else Look(j);
    } else if p.started < p.submitted {
      e := Begin;
    } else {
      e := Collect;
    }
  }

  // ----- whole schedules

  ghost predicate Schedules(f: Compute, cap: nat, jobs: seq<Job>, ps: seq<Pool>, es: seq<Event>) {
    |ps| == |es| + 1
    && forall i :: 0 <= i < |es| ==> StepOf(f, cap, jobs, ps[i], es[i], ps[i + 1])
  }

  ghost predicate StepOf(f: Compute, cap: nat, jobs: seq<Job>, p: Pool, e: Event, p': Pool) {
    Enabled(cap, jobs, p, e) && (forall j :: j in p.running ==> j < |jobs|) && p' == Step(f, jobs, p, e)
  }

  lemma {:induction false} SchedulesKeepInv(f: Compute, cap: nat, jobs: seq<Job>, initial: seq<Option<Result>>,
                                            ps: seq<Pool>, es: seq<Event>)
    requires WellFormed(jobs, initial) && Schedules(f, cap, jobs, ps, es) && ps[0] == Start(initial)
    ensures forall i :: 0 <= i < |ps| ==> Inv(f, cap, jobs, initial, ps[i]) && Progress(ps[i]) == i
  {
    hide Inv, Step;
    if es != [] {
      var n := |es| - 1;
      SchedulesKeepInv(f, cap, jobs, initial, ps[..n + 1], es[..n]);
      assert StepOf(f, cap, jobs, ps[n], es[n], ps[n + 1]);
      StepKeepsInv(f, cap, jobs, initial, ps[n], es[n]);
    } else {
      StartInv(f, cap, jobs, initial);
    }
  }

  lemma StartInv(f: Compute, cap: nat, jobs: seq<Job>, initial: seq<Option<Result>>)
    ensures Inv(f, cap, jobs, initial, Start(initial)) && Progress(Start(initial)) == 0
  {
  }

  /** The sequential validator: each job in turn, answering as if it were alone. */
  function Sequential(f: Compute, jobs: seq<Job>, timedOut: set<nat>, initial: seq<Option<Result>>,
                      n: nat): seq<Option<Result>>
    requires n <= |jobs|
  {
    if n == 0 then initial
    else Fill(Sequential(f, jobs, timedOut, initial, n - 1), jobs[n - 1].slot, Answer(f, jobs, timedOut, n - 1))
  }

  lemma {:induction false} SequentialFills(f: Compute, jobs: seq<Job>, timedOut: set<nat>,
                                           initial: seq<Option<Result>>, n: nat)
    requires n <= |jobs| && WellFormed(jobs, initial)
    ensures var s := Sequential(f, jobs, timedOut, initial, n);
            && |s| == |initial|
            && (forall i :: 0 <= i < n ==> s[jobs[i].slot] == Some(Answer(f, jobs, timedOut, i)))
            && (forall k :: 0 <= k < |s| && s[k] != initial[k] ==> exists i :: 0 <= i < n && jobs[i].slot == k)
  {
    if n > 0 {
      SequentialFills(f, jobs, timedOut, initial, n - 1);
      var before, s := Sequential(f, jobs, timedOut, initial, n - 1), Sequential(f, jobs, timedOut, initial, n);
      forall k | 0 <= k < |s| && s[k] != initial[k] ensures exists i :: 0 <= i < n && jobs[i].slot == k {
        if k != jobs[n - 1].slot {
          var i :| 0 <= i < n - 1 && jobs[i].slot == k;
        }
      }
    }
  }

  lemma DoneSlots(f: Compute, cap: nat, jobs: seq<Job>, initial: seq<Option<Result>>, p: Pool)
    requires WellFormed(jobs, initial) && Inv(f, cap, jobs, initial, p) && Done(jobs, p)
    ensures p.slots == Sequential(f, jobs, p.timedOut, initial, |jobs|)
    ensures p.recorded == seq(|jobs|, i requires 0 <= i < |jobs| => Answer(f, jobs, p.timedOut, i))
    ensures Progress(p) == 5 * |jobs|
  {
    hide Sequential, Answer;
    SequentialFills(f, jobs, p.timedOut, initial, |jobs|);
    var s := Sequential(f, jobs, p.timedOut, initial, |jobs|);
    forall k | 0 <= k < |initial| ensures p.slots[k] == s[k] {
      if i :| 0 <= i < |jobs| && jobs[i].slot == k {
        assert p.slots[jobs[i].slot] == s[jobs[i].slot];
      }
    }
    AllFinished(jobs, p.finished.Keys);
    AllFinished(jobs, p.looked);
  }

  /**
   Whatever the schedule, a finished validation filled the slots as the sequential one would,
   with the jobs it gave up on marked failed; no more jobs than workers ever ran at once.
   */
  lemma {:induction false} ParallelRefinesSequential(f: Compute, cap: nat, jobs: seq<Job>, initial: seq<Option<Result>>,
                                                     ps: seq<Pool>, es: seq<Event>)
    requires WellFormed(jobs, initial) && Schedules(f, cap, jobs, ps, es) && ps[0] == Start(initial)
    requires Done(jobs, ps[|es|])
    ensures var p := ps[|es|];
            && p.slots == Sequential(f, jobs, p.timedOut, initial, |jobs|)
            && p.recorded == seq(|jobs|, i requires 0 <= i < |jobs| => Answer(f, jobs, p.timedOut, i))
    ensures forall i :: 0 <= i < |ps| ==> |ps[i].running| <= cap && |ps[i].running| <= |jobs|
    ensures |es| == 5 * |jobs|
  {
    hide Sequential, Answer, SlotsHold, WellFormed, Progress, Done;
    SchedulesKeepInv(f, cap, jobs, initial, ps, es);
    DoneSlots(f, cap, jobs, initial, ps[|es|]);
    forall i | 0 <= i < |ps| ensures |ps[i].running| <= cap && |ps[i].running| <= |jobs| {
      assert Inv(f, cap, jobs, initial, ps[i]);
    }
  }

  lemma AllFinished(jobs: seq<Job>, s: set<nat>)
    requires forall j :: j in s <==> 0 <= j < |jobs|
    ensures |s| == |jobs|
  {
    if |jobs| == 0 {
      assert s == {};
    } else {
      AllFinished(jobs[..|jobs| - 1], s - {|jobs| - 1});
    }
  }

  /** What a finished validation leaves: every job's answer in its slot, all other slots as they were. */
  lemma DoneGathers(f: Compute, cap: nat, jobs: seq<Job>, initial: seq<Option<Result>>, ps: seq<Pool>, es: seq<Event>)
    requires WellFormed(jobs, initial) && Schedules(f, cap, jobs, ps, es) && ps[0] == Start(initial)
    requires Done(jobs, ps[|es|])
    ensures var p := ps[|es|];
            && |p.slots| == |initial|
            && (forall k :: k in p.finished <==> 0 <= k < |jobs|) && (forall k :: k in p.timedOut ==> k < |jobs|)
            && (forall k :: 0 <= k < |jobs| ==>
                  jobs[k].slot < |initial| && p.slots[jobs[k].slot] == Some(Answer(f, jobs, p.timedOut, k)))
            && (forall s :: 0 <= s < |initial| && initial[s].Some? ==> p.slots[s] == initial[s])
  {
    hide Answer, StepOf;
    SchedulesKeepInv(f, cap, jobs, initial, ps, es);
    assert Inv(f, cap, jobs, initial, ps[|es|]);
  }

  // ----- the collecting loop, in place

  /** The caller's side: wait for each job in submission order and store its answer. */
  method CollectAnswers(jobs: seq<Job>, answers: seq<Option<Result>>, slots: array<Option<Result>>)
    returns (recorded: seq<Result>)
    requires |answers| == |jobs| && WellFormed(jobs, slots[..])
    modifies slots
    ensures recorded == seq(|jobs|, i requires 0 <= i < |jobs| => answers[i].GetOr(TimedOutResult(jobs[i])))
    ensures slots[..] == Collected(jobs, answers, old(slots[..]), |jobs|)
  {
    recorded := [];
    var i := 0;
    while i < |jobs|
      invariant 0 <= i <= |jobs| && |recorded| == i
      invariant forall j :: 0 <= j < i ==> recorded[j] == answers[j].GetOr(TimedOutResult(jobs[j]))
      invariant slots[..] == Collected(jobs, answers, old(slots[..]), i) && slots.Length == |old(slots[..])|
    {
      var r := if answers[i].Some? then answers[i].value else TimedOutResult(jobs[i]);
      recorded := recorded + [r];
      slots[jobs[i].slot] := Some(r);
      i := i + 1;
    }
  }

  function Collected(jobs: seq<Job>, answers: seq<Option<Result>>, initial: seq<Option<Result>>,
                     n: nat): seq<Option<Result>>
    requires n <= |jobs| == |answers|
  {
    if n == 0 then initial
    else Fill(Collected(jobs, answers, initial, n - 1), jobs[n - 1].slot,
              answers[n - 1].GetOr(TimedOutResult(jobs[n - 1])))
  }

  /** With the pool's answers the loop stores exactly the sequential result. */
  lemma {:induction false} CollectedIsSequential(f: Compute, jobs: seq<Job>, timedOut: set<nat>,
                                                 answers: seq<Option<Result>>, initial: seq<Option<Result>>, n: nat)
    requires n <= |jobs| == |answers|
    requires forall i :: 0 <= i < |jobs| ==> answers[i] == if i in timedOut then None else Some(f(jobs[i]))
    ensures Collected(jobs, answers, initial, n) == Sequential(f, jobs, timedOut, initial, n)
  {
    if n > 0 { CollectedIsSequential(f, jobs, timedOut, answers, initial, n - 1); }
  }

  // ----- the two validators

  /** What a result slot is about: a plain link, which is always pinged, or a firewall rule. */
  datatype Check = Check(source: string, target: string, icmp: bool)

  /** One job per link or ICMP rule, at its own position. */
  function RuleJobs(checks: seq<Check>): seq<Job> {
    if checks == [] then [] else
      var n := |checks| - 1;
      RuleJobs(checks[..n]) + if checks[n].icmp then [Job(n, checks[n].source, checks[n].target)] else []
  }

  function RuleSlots(checks: seq<Check>): seq<Option<Result>> {
    seq(|checks|, i requires 0 <= i < |checks| =>
      if checks[i].icmp then None else Some(Result(checks[i].source, checks[i].target, SKIPPED, [])))
  }

  lemma {:induction false} RuleJobsAre(checks: seq<Check>)
    ensures forall i :: 0 <= i < |RuleJobs(checks)| ==>
              var j := RuleJobs(checks)[i];
              j.slot < |checks| && checks[j.slot] == Check(j.source, j.target, true)
    ensures forall i, j :: 0 <= i < j < |RuleJobs(checks)| ==> RuleJobs(checks)[i].slot < RuleJobs(checks)[j].slot
  {
    if checks != [] { RuleJobsAre(checks[..|checks| - 1]); }
  }

  /** Plain links are all pinged: one job per link in link order, and no slot is prefilled. */
  lemma {:induction false} LinkJobsAre(checks: seq<Check>)
    requires forall i :: 0 <= i < |checks| ==> checks[i].icmp
    ensures |RuleJobs(checks)| == |checks|
    ensures forall i :: 0 <= i < |checks| ==>
              RuleJobs(checks)[i] == Job(i, checks[i].source, checks[i].target) && RuleSlots(checks)[i] == None
  {
    if checks != [] { LinkJobsAre(checks[..|checks| - 1]); }
  }

  lemma {:induction false} RuleHasJob(checks: seq<Check>, s: nat) returns (i: nat)
    requires s < |checks| && checks[s].icmp
    ensures i < |RuleJobs(checks)| && RuleJobs(checks)[i].slot == s
  {
    var n := |checks| - 1;
    if s < n { i := RuleHasJob(checks[..n], s); } else { i := |RuleJobs(checks)| - 1; }
  }

  lemma {:induction false} RuleJobsFit(checks: seq<Check>)
    ensures WellFormed(RuleJobs(checks), RuleSlots(checks))
  {
    hide RuleJobs;
    RuleJobsAre(checks);
  }

  // ----- accounting

  function Count(slots: seq<Option<Result>>, status: TestStatus): nat {
    if slots == [] then 0 else
      var r := slots[|slots| - 1];
      Count(slots[..|slots| - 1], status) + if r.Some? && r.value.status == status then 1 else 0
  }

  /** `tests_total`: the results that were not skipped. */
  function TestsTotal(slots: seq<Option<Result>>): int {
    |slots| - Count(slots, SKIPPED)
  }

  lemma {:induction false} CountAfterFill(slots: seq<Option<Result>>, at: nat, r: Result, status: TestStatus)
    requires at < |slots| && slots[at] == None
    ensures Count(slots[at := Some(r)], status) == Count(slots, status) + if r.status == status then 1 else 0
  {
    var n := |slots| - 1;
    if at < n {
      CountAfterFill(slots[..n], at, r, status);
      assert slots[at := Some(r)][..n] == slots[..n][at := Some(r)];
    } else {
      assert slots[at := Some(r)][..n] == slots[..n];
    }
  }

  lemma {:induction false} CountsAdd(slots: seq<Option<Result>>)
    requires forall i :: 0 <= i < |slots| ==> slots[i].Some?
    ensures Count(slots, PASSED) + Count(slots, FAILED) + Count(slots, SKIPPED) == |slots|
  {
    if slots != [] { CountsAdd(slots[..|slots| - 1]); }
  }

  /** No ping result is ever "skipped", so the totals count the ping jobs. */
  lemma {:induction false} PingsAreCounted(f: Compute, jobs: seq<Job>, timedOut: set<nat>,
                                           initial: seq<Option<Result>>, n: nat)
    requires n <= |jobs| && WellFormed(jobs, initial) && forall j :: f(j).status != SKIPPED
    ensures Count(Sequential(f, jobs, timedOut, initial, n), SKIPPED) == Count(initial, SKIPPED)
    ensures Count(Sequential(f, jobs, timedOut, initial, n), PASSED)
              + Count(Sequential(f, jobs, timedOut, initial, n), FAILED)
              == Count(initial, PASSED) + Count(initial, FAILED) + n
  {
    hide Count;
    if n > 0 {
      PingsAreCounted(f, jobs, timedOut, initial, n - 1);
      SequentialFills(f, jobs, timedOut, initial, n - 1);
      var before, job := Sequential(f, jobs, timedOut, initial, n - 1), jobs[n - 1];
      var r := Answer(f, jobs, timedOut, n - 1);
      assert before[job.slot] == None;
      CountAfterFill(before, job.slot, r, PASSED);
      CountAfterFill(before, job.slot, r, FAILED);
      CountAfterFill(before, job.slot, r, SKIPPED);
    }
  }

  lemma {:induction false} InitialCounts(checks: seq<Check>)
    ensures var slots := RuleSlots(checks);
            && Count(slots, PASSED) == Count(slots, FAILED) == 0
            && |slots| == Count(slots, SKIPPED) + |RuleJobs(checks)|
  {
    if checks != [] {
      InitialCounts(checks[..|checks| - 1]);
      assert RuleSlots(checks)[..|checks| - 1] == RuleSlots(checks[..|checks| - 1]);
    }
  }

  /** `reply_latencies_ms`: those of the results that passed, in result order. */
  function ReplyLatencies(slots: seq<Option<Result>>): seq<real> {
    if slots == [] then [] else
      var r := slots[|slots| - 1];
      ReplyLatencies(slots[..|slots| - 1]) + if r.Some? && r.value.status == PASSED then r.value.latencies else []
  }

  /** A result that passed contributes all its replies, after those of the results before it; any other none. */
  lemma {:induction false} RepliesInSlotOrder(slots: seq<Option<Result>>, i: nat)
    requires i < |slots|
    ensures var before, after := |ReplyLatencies(slots[..i])|, |ReplyLatencies(slots[..i + 1])|;
            && before <= after <= |ReplyLatencies(slots)|
            && ReplyLatencies(slots)[before..after]
                 == (if slots[i].Some? && slots[i].value.status == PASSED then slots[i].value.latencies else [])
            && (i + 1 == |slots| ==> after == |ReplyLatencies(slots)|) && (i == 0 ==> before == 0)
  {
    if i == 0 { NoReplies(slots[..0]); }
    var n := |slots| - 1;
    RepliesNext(slots);
    hide ReplyLatencies;
    if i < n {
      RepliesInSlotOrder(slots[..n], i);
      assert slots[..n][..i] == slots[..i] && slots[..n][..i + 1] == slots[..i + 1];
    } else {
      assert slots[..i + 1] == slots;
    }
  }

  lemma NoReplies(slots: seq<Option<Result>>)
    requires slots == []
    ensures ReplyLatencies(slots) == []
  {
  }

  /** The replies of the jobs that passed in time, in submission order. */
  function JobLatencies(f: Compute, jobs: seq<Job>, timedOut: set<nat>): seq<real> {
    if jobs == [] then [] else
      var n := |jobs| - 1;
      JobLatencies(f, jobs[..n], timedOut)
        + if n !in timedOut && f(jobs[n]).status == PASSED then f(jobs[n]).latencies else []
  }

  /** The slots of a validation: skipped where nothing is pinged, else the job's answer. */
  ghost predicate AnswersIn(f: Compute, checks: seq<Check>, timedOut: set<nat>, slots: seq<Option<Result>>) {
    && |slots| == |checks|
    && (forall i :: 0 <= i < |checks| && !checks[i].icmp ==> slots[i].Some? && slots[i].value.status == SKIPPED)
    && (forall k :: 0 <= k < |RuleJobs(checks)| ==> AnswerAt(f, RuleJobs(checks), timedOut, slots, k))
  }

  ghost predicate AnswerAt(f: Compute, jobs: seq<Job>, timedOut: set<nat>, slots: seq<Option<Result>>, k: nat)
    requires k < |jobs|
  {
    jobs[k].slot < |slots| && slots[jobs[k].slot] == Some(Answer(f, jobs, timedOut, k))
  }

  lemma {:induction false} LatenciesFollowJobs(f: Compute, checks: seq<Check>, timedOut: set<nat>,
                                               slots: seq<Option<Result>>)
    requires AnswersIn(f, checks, timedOut, slots)
    ensures ReplyLatencies(slots) == JobLatencies(f, RuleJobs(checks), timedOut)
  {
    if checks != [] {
      var n := |checks| - 1;
      AnswersBefore(f, checks, timedOut, slots);
      LastAnswer(f, checks, timedOut, slots);
      JobsNext(checks);
      hide RuleJobs, Answer, JobLatencies, AnswersIn, ReplyLatencies;
      RepliesNext(slots);
      LatenciesFollowJobs(f, checks[..n], timedOut, slots[..n]);
      if checks[n].icmp {
        LatenciesNext(f, RuleJobs(checks[..n]), Job(n, checks[n].source, checks[n].target), timedOut);
      }
    }
  }

  lemma RepliesNext(slots: seq<Option<Result>>)
    requires slots != []
    ensures var r := slots[|slots| - 1];
            ReplyLatencies(slots) == ReplyLatencies(slots[..|slots| - 1])
              + if r.Some? && r.value.status == PASSED then r.value.latencies else []
  {
  }

  lemma AnswersBefore(f: Compute, checks: seq<Check>, timedOut: set<nat>, slots: seq<Option<Result>>)
    requires checks != [] && AnswersIn(f, checks, timedOut, slots)
    ensures AnswersIn(f, checks[..|checks| - 1], timedOut, slots[..|checks| - 1])
  {
    var n := |checks| - 1;
    var jobs, jobs0 := RuleJobs(checks), RuleJobs(checks[..n]);
    RuleJobsAre(checks[..n]);
    JobsNext(checks);
    hide RuleJobs, Answer;
    forall k | 0 <= k < |jobs0| ensures AnswerAt(f, jobs0, timedOut, slots[..n], k) {
      assert AnswerAt(f, jobs, timedOut, slots, k) && jobs[k] == jobs0[k];
      SameAnswer(f, jobs0, jobs, timedOut, k);
    }
  }

  lemma LastAnswer(f: Compute, checks: seq<Check>, timedOut: set<nat>, slots: seq<Option<Result>>)
    requires checks != [] && AnswersIn(f, checks, timedOut, slots)
    ensures var n, jobs0 := |checks| - 1, RuleJobs(checks[..|checks| - 1]);
            && n < |slots|
            && (checks[n].icmp ==>
                  slots[n] == Some(Answer(f, jobs0 + [Job(n, checks[n].source, checks[n].target)], timedOut, |jobs0|)))
            && (!checks[n].icmp ==> slots[n].Some? && slots[n].value.status == SKIPPED)
  {
    JobsNext(checks);
    hide RuleJobs, Answer;
    var n := |checks| - 1;
    if checks[n].icmp { assert AnswerAt(f, RuleJobs(checks), timedOut, slots, |RuleJobs(checks[..n])|); }
  }

  lemma JobsNext(checks: seq<Check>)
    requires checks != []
    ensures var n := |checks| - 1;
            RuleJobs(checks) ==
              if checks[n].icmp then RuleJobs(checks[..n]) + [Job(n, checks[n].source, checks[n].target)]
              else RuleJobs(checks[..n])
  {
  }

  lemma SameAnswer(f: Compute, jobs: seq<Job>, more: seq<Job>, timedOut: set<nat>, k: nat)
    requires k < |jobs| <= |more| && more[k] == jobs[k]
    ensures Answer(f, jobs, timedOut, k) == Answer(f, more, timedOut, k)
  {
  }

  lemma LatenciesNext(f: Compute, jobs: seq<Job>, j: Job, timedOut: set<nat>)
    ensures var r := Answer(f, jobs + [j], timedOut, |jobs|);
            JobLatencies(f, jobs + [j], timedOut)
              == JobLatencies(f, jobs, timedOut) + if r.status == PASSED then r.latencies else []
  {
    assert (jobs + [j])[..|jobs|] == jobs;
  }

  /**
   Every link or rule gets a result, result `i` is about check `i`, and the totals agree:
   tests_total = passed + failed = number of ping jobs, and the latencies are those of the
   jobs that passed in time.
   */
  lemma ValidationAccounts(f: Compute, checks: seq<Check>, timedOut: set<nat>)
    requires forall j: Job :: f(j).status != SKIPPED && f(j).source == j.source && f(j).target == j.target
    ensures var jobs := RuleJobs(checks);
            var results := Sequential(f, jobs, timedOut, RuleSlots(checks), |jobs|);
            && |results| == |checks|
            && (forall i :: 0 <= i < |checks| ==>
                  && results[i].Some? && results[i].value.source == checks[i].source
                  && results[i].value.target == checks[i].target
                  && (results[i].value.status == SKIPPED <==> !checks[i].icmp))
            && TestsTotal(results) == Count(results, PASSED) + Count(results, FAILED) == |jobs|
            && ReplyLatencies(results) == JobLatencies(f, jobs, timedOut)
  {
    hide Count, RuleJobs, Sequential, ReplyLatencies, JobLatencies;
    var jobs, initial := RuleJobs(checks), RuleSlots(checks);
    RuleJobsFit(checks);
    RuleJobsAre(checks);
    SequentialFills(f, jobs, timedOut, initial, |jobs|);
    PingsAreCounted(f, jobs, timedOut, initial, |jobs|);
    InitialCounts(checks);
    var results := Sequential(f, jobs, timedOut, initial, |jobs|);
    forall i | 0 <= i < |checks|
      ensures results[i].Some? && results[i].value.source == checks[i].source
                && results[i].value.target == checks[i].target
      ensures results[i].value.status == SKIPPED <==> !checks[i].icmp
    {
      if checks[i].icmp {
        var k := RuleHasJob(checks, i);
        assert results[jobs[k].slot] == Some(Answer(f, jobs, timedOut, k));
      }
    }
    CountsAdd(results);
    LatenciesFollowJobs(f, checks, timedOut, results);
  }
}
