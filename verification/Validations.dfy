/**
 When link validation passes, exactly, with the pings made one after another.  The ping
 failures a mock still has to give are part of the answer.
 */
module Validations {
  import opened Arithmetic
  import opened Topology
  import opened Providers
  import opened Deployment
  import opened Observers
  import Pool = ParallelPings

  // ----- one ping

  /** A ping gets as far as the provider's failure budget: both ends are deployed hosts and the target runs. */
  predicate TargetUp(w: World, t: TopologyRow, source: string, target: string) {
    var rows := RowsOf(w.rows, t.id);
    && IsHost(t.topology.nodes, source) && IsHost(t.topology.nodes, target)
    && LastServer(rows, source).Some? && LastServer(rows, target).Some?
    && StatusOf(w.provider, LastServer(rows, target).value.rid) == Running
  }

  predicate BothUp(w: World, t: TopologyRow, source: string, target: string) {
    TargetUp(w, t, source, target)
    && StatusOf(w.provider, LastServer(RowsOf(w.rows, t.id), source).value.rid) == Running
  }

  /** Ping failures still to be given. */
  function PingsLeft(p: State): nat {
    Max(0, Budget(p, Op.RunPing))
  }

  /** The provider after `k` pings that reached the budget. */
  function Spend(p: State, k: nat): State {
    if k == 0 || PingsLeft(p) == 0 then p else p.(budgets := p.budgets[Op.RunPing := Max(0, PingsLeft(p) - k)])
  }

  lemma SpendAdds(p: State, j: nat, k: nat)
    ensures Spend(Spend(p, j), k) == Spend(p, j + k)
    ensures PingsLeft(Spend(p, k)) == Max(0, PingsLeft(p) - k)
    ensures Spend(p, k) == p.(budgets := Spend(p, k).budgets)
    ensures forall op :: op != Op.RunPing ==> Budget(Spend(p, k), op) == Budget(p, op)
  {
    SpendLeaves(p, j);
    SpendLeaves(p, k);
    if j > 0 && k > 0 && PingsLeft(p) > 0 {
      assert p.budgets[Op.RunPing := Max(0, PingsLeft(p) - j)][Op.RunPing := Max(0, PingsLeft(p) - j - k)]
          == p.budgets[Op.RunPing := Max(0, PingsLeft(p) - j - k)];
    }
  }

  lemma SpendLeaves(p: State, k: nat)
    ensures PingsLeft(Spend(p, k)) == Max(0, PingsLeft(p) - k)
  {
  }

  /** `w` after `k` such pings. */
  function SpendIn(w: World, k: nat): World {
    w.(provider := Spend(w.provider, k))
  }

  lemma PingExactly(w: World, t: TopologyRow, k: nat, source: string, target: string)
    ensures var (w', status) := Ping(SpendIn(w, k), t, source, target);
            && w' == SpendIn(w, k + if TargetUp(w, t, source, target) then 1 else 0)
            && status in {Pool.PASSED, Pool.FAILED}
            && (status == Pool.PASSED <==> BothUp(w, t, source, target) && PingsLeft(w.provider) <= k)
  {
    hide RowsOf, LastServer;
    SpendAdds(w.provider, k, 1);
  }

  // ----- all checks in turn

  /** The checks that reach the budget. */
  function UpChecks(w: World, t: TopologyRow, checks: seq<Pool.Check>): set<nat> {
    set i | 0 <= i < |checks| && Reaches(w, t, checks[i])
  }

  /** A check that is pinged as far as the budget. */
  predicate Reaches(w: World, t: TopologyRow, c: Pool.Check) {
    c.icmp && TargetUp(w, t, c.source, c.target)
  }

  predicate Holds(w: World, t: TopologyRow, c: Pool.Check) {
    c.icmp ==> BothUp(w, t, c.source, c.target)
  }

  lemma UpChecksNext(w: World, t: TopologyRow, checks: seq<Pool.Check>)
    requires checks != []
    ensures var n := |checks| - 1;
            |UpChecks(w, t, checks)| == |UpChecks(w, t, checks[..n])| + if Reaches(w, t, checks[n]) then 1 else 0
  {
    hide Reaches;
    var n := |checks| - 1;
    var before := UpChecks(w, t, checks[..n]);
    assert n !in before;
    if Reaches(w, t, checks[n]) {
      assert UpChecks(w, t, checks) == before + {n};
    } else {
      assert UpChecks(w, t, checks) == before;
    }
  }

  lemma NothingPinged(w: World, t: TopologyRow, checks: seq<Pool.Check>)
    requires forall i :: 0 <= i < |checks| ==> !checks[i].icmp
    ensures UpChecks(w, t, checks) == {}
  {
    hide TargetUp;
  }

  /** A result about its check: only a check that holds passes, and does so if no failure is left. */
  ghost predicate AnsweredAt(w: World, t: TopologyRow, c: Pool.Check, r: TestResult) {
    && r.source == c.source && r.target == c.target
    && (r.status == Pool.SKIPPED <==> !c.icmp)
    && (r.status == Pool.PASSED ==> c.icmp && Holds(w, t, c))
    && (PingsLeft(w.provider) == 0 && c.icmp && Holds(w, t, c) ==> r.status == Pool.PASSED)
  }

  /** Result `i` is about check `i`, and with failures left some ping fails. */
  ghost predicate Answered(w: World, t: TopologyRow, checks: seq<Pool.Check>, results: seq<TestResult>) {
    && |results| == |checks|
    && (forall i :: 0 <= i < |checks| ==> AnsweredAt(w, t, checks[i], results[i]))
    && (PingsLeft(w.provider) > 0 && (exists i :: 0 <= i < |checks| && checks[i].icmp) ==>
          exists i :: 0 <= i < |checks| && results[i].status == Pool.FAILED)
  }

  lemma {:induction false} ResultsExactly(w: World, t: TopologyRow, checks: seq<Pool.Check>)
    ensures var (w', results) := Results(w, t, checks);
            w' == SpendIn(w, |UpChecks(w, t, checks)|) && Answered(w, t, checks, results)
  {
    hide Ping, Answered, UpChecks;
    if checks == [] {
      NothingPinged(w, t, checks);
      NothingAnswered(w, t);
    } else {
      var n := |checks| - 1;
      var k, results := |UpChecks(w, t, checks[..n])|, Results(w, t, checks[..n]).1;
      ResultsExactly(w, t, checks[..n]);
      UpChecksNext(w, t, checks);
      PingExactly(w, t, k, checks[n].source, checks[n].target);
      OneMoreAnswered(w, t, checks, results);
    }
  }

  lemma NothingAnswered(w: World, t: TopologyRow)
    ensures Answered(w, t, [], [])
  {
  }

  lemma OneMoreAnswered(w: World, t: TopologyRow, checks: seq<Pool.Check>, results: seq<TestResult>)
    requires checks != [] && Answered(w, t, checks[..|checks| - 1], results)
    ensures var n, k := |checks| - 1, |UpChecks(w, t, checks[..|checks| - 1])|;
            var c := checks[n];
            var status := if c.icmp then Ping(SpendIn(w, k), t, c.source, c.target).1 else Pool.SKIPPED;
            Answered(w, t, checks, results + [TestResult(c.source, c.target, status)])
  {
    hide Ping, TargetUp, BothUp, UpChecks;
    var n, c := |checks| - 1, checks[|checks| - 1];
    var k := |UpChecks(w, t, checks[..n])|;
    PingExactly(w, t, k, c.source, c.target);
    var status := if c.icmp then Ping(SpendIn(w, k), t, c.source, c.target).1 else Pool.SKIPPED;
    var more := results + [TestResult(c.source, c.target, status)];
    assert forall i :: 0 <= i < n ==> more[i] == results[i] && checks[..n][i] == checks[i];
    assert more[n].status == status && AnsweredAt(w, t, checks[n], more[n]);
    hide AnsweredAt;
    if PingsLeft(w.provider) > 0 && exists i :: 0 <= i < |checks| && checks[i].icmp {
      if exists i :: 0 <= i < n && checks[i].icmp {
        assert exists i :: 0 <= i < |checks[..n]| && checks[..n][i].icmp;
        var j :| 0 <= j < n && results[j].status == Pool.FAILED;
        assert more[j].status == Pool.FAILED;
      } else {
        NothingPinged(w, t, checks[..n]);
        assert more[n].status == Pool.FAILED;
      }
    }
  }

  /** What it takes for a validation to pass: something to check, and every ping answered. */
  ghost predicate ValidationHolds(w: World, t: TopologyRow) {
    && (t.topology.rules != [] || t.topology.links != [])
    && forall i :: 0 <= i < |ChecksOf(t.topology)| && ChecksOf(t.topology)[i].icmp ==>
         Holds(w, t, ChecksOf(t.topology)[i]) && PingsLeft(w.provider) == 0
  }

  lemma AnsweredVerdict(w: World, t: TopologyRow, results: seq<TestResult>)
    requires Answered(w, t, ChecksOf(t.topology), results)
    ensures Verdict(t.topology, results) == Pool.PASSED <==> ValidationHolds(w, t)
  {
    hide Holds;
    var checks := ChecksOf(t.topology);
    if PingsLeft(w.provider) > 0 && exists i :: 0 <= i < |checks| && checks[i].icmp {
      var j :| 0 <= j < |checks| && results[j].status == Pool.FAILED;
    }
  }

  /** In every state: the verdict, and what the pings cost. */
  lemma ValidateExactly(w: World, t: TopologyRow)
    ensures var (w', status) := Validate(w, t);
            && w' == SpendIn(w, |UpChecks(w, t, ChecksOf(t.topology))|)
            && status in {Pool.PASSED, Pool.FAILED}
            && (status == Pool.PASSED <==> ValidationHolds(w, t))
  {
    hide Results, Answered, ValidationHolds;
    ResultsExactly(w, t, ChecksOf(t.topology));
    AnsweredVerdict(w, t, Results(w, t, ChecksOf(t.topology)).1);
  }

  /** With neither rules nor links there is nothing to check, and that is a failure. */
  lemma NothingToCheckFails(w: World, t: TopologyRow)
    requires t.topology.rules == [] && t.topology.links == []
    ensures Validate(w, t) == (w, Pool.FAILED)
  {
    hide Ping;
  }
}
