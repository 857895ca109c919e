/**
 What the accepted link sets look like: the nodes can be threaded into disjoint chains so
 that the links are exactly the steps between neighbours on a chain, one link per step.
 This is a second, independent description of "every degree at most two and no cycle".
 */
module ChainCover {
  import opened ChainGraph

  type Chain = seq<string>

  ghost predicate Step(c: Chain, u: string, v: string) {
    exists i :: 0 <= i < |c| - 1 && StepAt(c, i, u, v)
  }

  ghost predicate StepAt(c: Chain, i: nat, u: string, v: string)
    requires i < |c| - 1
  {
    (c[i] == u && c[i + 1] == v) || (c[i] == v && c[i + 1] == u)
  }

  ghost predicate OnlyLink(es: seq<Edge>, e: nat)
    requires e < |es|
  {
    forall f :: 0 <= f < |es| && Joins(es[f], es[e].a, es[e].b) ==> f == e
  }

  ghost predicate IsChainCover(es: seq<Edge>, cs: set<Chain>) {
    && (forall c :: c in cs ==> c != [] && Distinct(c))
    && (forall c, d, v :: c in cs && d in cs && v in c && v in d ==> c == d)
    && (forall e :: 0 <= e < |es| && es[e].a != es[e].b ==>
          OnlyLink(es, e) && exists c :: c in cs && Step(c, es[e].a, es[e].b))
    && (forall c, i :: c in cs && 0 <= i < |c| - 1 ==> Adjacent(es, c[i], c[i + 1]))
  }

  // ----- a cover makes the graph a forest of degree at most two

  ghost function Covered(cs: set<Chain>): set<string> {
    set c, v | c in cs && v in c :: v
  }

  ghost function ChainOf(cs: set<Chain>, v: string): (c: Chain)
    requires v in Covered(cs)
    ensures c in cs && v in c
  {
    var c :| c in cs && v in c; c
  }

  ghost function PlaceOf(c: Chain, v: string): (i: nat)
    requires v in c
    ensures i < |c| && c[i] == v
  {
    var i :| 0 <= i < |c| && c[i] == v; i
  }

  ghost function CoverTrees(cs: set<Chain>): Trees {
    var all := Covered(cs);
    Trees(all, all,
          map v | v in all ::
            var c := ChainOf(cs, v); var i := PlaceOf(c, v);
            if i == 0 then Root else Child(c[i - 1]),
          map v | v in all :: PlaceOf(ChainOf(cs, v), v))
  }

  lemma PlaceInCover(es: seq<Edge>, cs: set<Chain>, c: Chain, i: nat)
    requires IsChainCover(es, cs) && c in cs && i < |c|
    ensures c[i] in Covered(cs) && ChainOf(cs, c[i]) == c && PlaceOf(c, c[i]) == i
  {
    assert c[i] in c;
  }

  lemma LinkIsStep(es: seq<Edge>, cs: set<Chain>, e: nat, u: string, v: string) returns (c: Chain, i: nat)
    requires IsChainCover(es, cs) && e < |es| && Joins(es[e], u, v)
    ensures c in cs && i < |c| - 1 && StepAt(c, i, u, v)
  {
    c :| c in cs && Step(c, es[e].a, es[e].b);
    i :| 0 <= i < |c| - 1 && StepAt(c, i, es[e].a, es[e].b);
  }

  lemma NeighbourIsBeside(es: seq<Edge>, cs: set<Chain>, x: string, k: nat)
    requires IsChainCover(es, cs) && k < |Neighbours(es, x)|
    ensures x in Covered(cs) && Neighbours(es, x)[k] in Covered(cs)
    ensures var t, y := CoverTrees(cs), Neighbours(es, x)[k];
            t.parentOf[x] == Child(y) || t.parentOf[y] == Child(x)
  {
    hide Neighbours, Incident, IsChainCover;
    IncidentFacts(es, x);
    var y := Neighbours(es, x)[k];
    var c, i := LinkIsStep(es, cs, Incident(es, x)[k], x, y);
    PlaceInCover(es, cs, c, i);
    PlaceInCover(es, cs, c, i + 1);
  }

  lemma NeighboursDiffer(es: seq<Edge>, cs: set<Chain>, x: string, j: nat, k: nat)
    requires IsChainCover(es, cs) && j < k < |Neighbours(es, x)|
    ensures Neighbours(es, x)[j] != Neighbours(es, x)[k]
  {
    hide Neighbours, Incident;
    IncidentFacts(es, x);
    var e := Incident(es, x)[j];
    assert Joins(es[e], x, Neighbours(es, x)[j]);
    assert OnlyLink(es, e);
  }

  lemma CoverIsForest(es: seq<Edge>, cs: set<Chain>)
    requires IsChainCover(es, cs)
    ensures IsForest(es, CoverTrees(cs)) && Covers(es, Covered(cs))
  {
    hide Neighbours, Incident, Adjacent, IsChainCover;
    var t := CoverTrees(cs);
    CoverParents(es, cs);
    forall x, k | x in t.done && 0 <= k < |Neighbours(es, x)|
      ensures var y := Neighbours(es, x)[k];
              t.parentOf[x] == Child(y) || (y in t.done && t.parentOf[y] == Child(x))
    {
      NeighbourIsBeside(es, cs, x, k);
    }
    forall x, j, k | x in t.done && 0 <= j < k < |Neighbours(es, x)|
      ensures Neighbours(es, x)[j] != Neighbours(es, x)[k]
    {
      NeighboursDiffer(es, cs, x, j, k);
    }
    CoverReaches(es, cs);
  }

  lemma CoverParents(es: seq<Edge>, cs: set<Chain>)
    requires IsChainCover(es, cs)
    ensures var t := CoverTrees(cs);
            forall x :: x in t.seen && t.parentOf[x].Child? ==>
              t.parentOf[x].parent in t.seen && t.depth[t.parentOf[x].parent] < t.depth[x]
  {
    hide Neighbours, Incident, Adjacent;
    var t := CoverTrees(cs);
    forall x | x in t.seen && t.parentOf[x].Child?
      ensures t.parentOf[x].parent in t.seen && t.depth[t.parentOf[x].parent] < t.depth[x]
    {
      var c := ChainOf(cs, x);
      PlaceInCover(es, cs, c, PlaceOf(c, x) - 1);
    }
  }

  lemma CoverReaches(es: seq<Edge>, cs: set<Chain>)
    requires IsChainCover(es, cs)
    ensures Covers(es, Covered(cs))
  {
    hide Neighbours, Incident, Adjacent;
    forall e, v | 0 <= e < |es| && Touches(es[e], v) ensures v in Covered(cs) {
      var c, i := LinkIsStep(es, cs, e, v, Other(es[e], v));
      assert v in c;
    }
  }

  lemma CoverBoundsDegree(es: seq<Edge>, cs: set<Chain>, x: string)
    requires IsChainCover(es, cs)
    ensures Degree(es, x) <= 2
  {
    hide Neighbours, Incident, IsChainCover;
    IncidentFacts(es, x);
    if Degree(es, x) > 2 {
      var t, ns := CoverTrees(cs), Neighbours(es, x);
      NeighbourIsBeside(es, cs, x, 0);
      forall k | 0 <= k < 3 ensures t.parentOf[x] == Child(ns[k]) || ChildPlace(es, cs, x, ns[k]) {
        NeighbourIsBeside(es, cs, x, k);
      }
      NeighboursDiffer(es, cs, x, 0, 1);
      NeighboursDiffer(es, cs, x, 1, 2);
      NeighboursDiffer(es, cs, x, 0, 2);
      forall j, k | 0 <= j < k < 3 && ChildPlace(es, cs, x, ns[j]) && ChildPlace(es, cs, x, ns[k])
        ensures ns[j] == ns[k]
      {
        OneChild(es, cs, x, ns[j], ns[k]);
      }
      assert false;
    }
  }

  ghost predicate ChildPlace(es: seq<Edge>, cs: set<Chain>, x: string, y: string) {
    y in Covered(cs) && CoverTrees(cs).parentOf[y] == Child(x)
  }

  lemma OneChild(es: seq<Edge>, cs: set<Chain>, x: string, y: string, z: string)
    requires IsChainCover(es, cs) && ChildPlace(es, cs, x, y) && ChildPlace(es, cs, x, z)
    ensures y == z
  {
    hide IsChainCover;
    var c, d := ChainOf(cs, y), ChainOf(cs, z);
    PlaceInCover(es, cs, c, PlaceOf(c, y) - 1);
    PlaceInCover(es, cs, d, PlaceOf(d, z) - 1);
  }

  // ----- and every such graph has a cover, built link by link

  function Reverse(c: Chain): (r: Chain)
    ensures |r| == |c| && forall i :: 0 <= i < |c| ==> r[i] == c[|c| - 1 - i]
  {
    seq(|c|, i requires 0 <= i < |c| => c[|c| - 1 - i])
  }

  lemma AdjacentSymmetric(es: seq<Edge>, u: string, v: string)
    requires Adjacent(es, u, v)
    ensures Adjacent(es, v, u)
  {
    var e :| 0 <= e < |es| && Joins(es[e], u, v);
    assert Joins(es[e], v, u);
  }

  lemma Flip(es: seq<Edge>, cs: set<Chain>, c: Chain)
    requires IsChainCover(es, cs) && c in cs
    ensures IsChainCover(es, cs - {c} + {Reverse(c)})
  {
    hide Adjacent, OnlyLink;
    var r := Reverse(c);
    var cs' := cs - {c} + {r};
    assert forall v :: v in r <==> v in c by {
      forall v | v in c ensures v in r { assert r[|c| - 1 - PlaceOf(c, v)] == v; }
    }
    forall e | 0 <= e < |es| && es[e].a != es[e].b
      ensures exists d :: d in cs' && Step(d, es[e].a, es[e].b)
    {
      var d, i := LinkIsStep(es, cs, e, es[e].a, es[e].b);
      if d == c {
        assert StepAt(r, |c| - 2 - i, es[e].a, es[e].b);
        assert Step(r, es[e].a, es[e].b);
      } else {
        assert Step(d, es[e].a, es[e].b);
      }
    }
    forall i | 0 <= i < |r| - 1 ensures Adjacent(es, r[i], r[i + 1]) {
      var j := |c| - 2 - i;
      assert Adjacent(es, c[j], c[j + 1]);
      AdjacentSymmetric(es, c[j], c[j + 1]);
    }
  }

  lemma WithNode(es: seq<Edge>, cs: set<Chain>, v: string) returns (cs': set<Chain>, c: Chain)
    requires IsChainCover(es, cs)
    ensures IsChainCover(es, cs') && cs <= cs' && c in cs' && v in c
  {
    if v in Covered(cs) {
      cs', c := cs, ChainOf(cs, v);
    } else {
      cs', c := cs + {[v]}, [v];
      forall e | 0 <= e < |es| && es[e].a != es[e].b
        ensures exists d :: d in cs' && Step(d, es[e].a, es[e].b)
      {
        var d :| d in cs && Step(d, es[e].a, es[e].b);
        assert d in cs';
      }
    }
  }

  /** A node with a free end is at an end of its chain, and the chain can be turned to finish there. */
  lemma EndAt(es: seq<Edge>, cs: set<Chain>, c: Chain, v: string) returns (c': Chain)
    requires IsChainCover(es, cs) && c in cs && v in c && Degree(es, v) <= 1
    ensures c' != [] && c'[|c'| - 1] == v && IsChainCover(es, cs - {c} + {c'})
    ensures forall u :: u in c' <==> u in c
  {
    var i := PlaceOf(c, v);
    if 0 < i < |c| - 1 {
      AdjacentSymmetric(es, c[i - 1], c[i]);
      TwoNeighbours(es, v, c[i - 1], c[i + 1]);
    }
    if i == |c| - 1 {
      c' := c;
      assert cs - {c} + {c} == cs;
    } else {
      c' := Reverse(c);
      Flip(es, cs, c);
      forall u | u in c ensures u in c' { assert c'[|c| - 1 - PlaceOf(c, u)] == u; }
    }
  }

  lemma TwoNeighbours(es: seq<Edge>, v: string, u: string, w: string)
    requires Adjacent(es, v, u) && Adjacent(es, v, w) && u != w
    ensures Degree(es, v) >= 2
  {
    hide Incident, Neighbours;
    var e :| 0 <= e < |es| && Joins(es[e], v, u);
    var f :| 0 <= f < |es| && Joins(es[f], v, w);
    var j := NeighbourOfEdge(es, e, v, u);
    var k := NeighbourOfEdge(es, f, v, w);
    assert j != k;
  }

  lemma BridgeIsNew(es: seq<Edge>, cs: set<Chain>, c: Chain, d: Chain, e: Edge, f: nat)
    requires IsChainCover(es, cs) && c in cs && d in cs && c != d && e.a in c && e.b in d && f < |es|
    ensures !Joins(es[f], e.a, e.b)
  {
    if Joins(es[f], e.a, e.b) {
      var h, i := LinkIsStep(es, cs, f, e.a, e.b);
      assert false;
    }
  }

  lemma JoinChains(es: seq<Edge>, e: Edge, cs: set<Chain>, c: Chain, d: Chain)
    requires IsChainCover(es, cs) && c in cs && d in cs && c != d
    requires e.a == c[|c| - 1] && e.b == d[0]
    ensures IsChainCover(es + [e], cs - {c, d} + {c + d})
  {
    hide Adjacent;
    var es', cs', cd := es + [e], cs - {c, d} + {c + d}, c + d;
    assert e.a in c && e.b in d && e.a != e.b;
    assert forall v :: v in cd <==> v in c || v in d;
    forall i, j | 0 <= i < j < |cd| ensures cd[i] != cd[j] {
      if i < |c| <= j { assert cd[i] in c && cd[j] in d; }
    }
    assert StepAt(cd, |c| - 1, e.a, e.b);
    assert Step(cd, e.a, e.b);
    forall f | 0 <= f < |es| && es[f].a != es[f].b
      ensures OnlyLink(es', f) && exists h :: h in cs' && Step(h, es[f].a, es[f].b)
    {
      var h, i := LinkIsStep(es, cs, f, es[f].a, es[f].b);
      assert OnlyLink(es, f);
      BridgeIsNew(es, cs, c, d, e, f);
      if h == c {
        assert StepAt(cd, i, es[f].a, es[f].b);
        assert Step(cd, es[f].a, es[f].b);
      } else if h == d {
        assert StepAt(cd, |c| + i, es[f].a, es[f].b);
        assert Step(cd, es[f].a, es[f].b);
      } else {
        assert Step(h, es[f].a, es[f].b);
      }
    }
    forall f | 0 <= f < |es'| && Joins(es'[f], e.a, e.b) ensures f == |es| {
      if f < |es| { BridgeIsNew(es, cs, c, d, e, f); }
    }
    forall h, i | h in cs' && 0 <= i < |h| - 1 ensures Adjacent(es', h[i], h[i + 1]) {
      if h == cd && i == |c| - 1 {
        LastLinkAdjacent(es, e);
      } else {
        if h == cd { assert if i < |c| - 1 then h[i] == c[i] && h[i + 1] == c[i + 1]
                            else h[i] == d[i - |c|] && h[i + 1] == d[i + 1 - |c|]; }
        assert Adjacent(es, h[i], h[i + 1]);
        AdjacentGrows(es, e, h[i], h[i + 1]);
      }
    }
  }

  lemma LastLinkAdjacent(es: seq<Edge>, e: Edge)
    requires e.a != e.b
    ensures Adjacent(es + [e], e.a, e.b)
  {
    assert Joins((es + [e])[|es|], e.a, e.b);
  }

  lemma AdjacentGrows(es: seq<Edge>, e: Edge, u: string, v: string)
    requires Adjacent(es, u, v)
    ensures Adjacent(es + [e], u, v)
  {
    var f :| 0 <= f < |es| && Joins(es[f], u, v);
    assert Joins((es + [e])[f], u, v);
  }

  /** A link between two nodes of one chain closes a ring. */
  lemma ChordMakesCycle(es: seq<Edge>, e: Edge, c: Chain, i: nat, j: nat)
    requires i < j < |c| && Distinct(c) && Joins(e, c[i], c[j])
    requires forall k :: 0 <= k < |c| - 1 ==> Adjacent(es, c[k], c[k + 1])
    ensures HasCycle(es + [e])
  {
    hide Adjacent, HasCycle;
    var es' := es + [e];
    if j == i + 1 {
      assert Adjacent(es, c[i], c[i + 1]);
      ParallelMakesCycle(es, e, c[i], c[j]);
    } else {
      var ring := c[i..j + 1];
      forall k | 0 <= k < |ring| - 1 ensures Adjacent(es', ring[k], ring[k + 1]) {
        assert Adjacent(es, c[i + k], c[i + k + 1]);
        AdjacentGrows(es, e, ring[k], ring[k + 1]);
      }
      LastLinkAdjacent(es, e);
      if e.a == c[i] { AdjacentSymmetric(es', e.a, e.b); }
      RingMakesCycle(es', ring);
    }
  }

  lemma ParallelMakesCycle(es: seq<Edge>, e: Edge, u: string, v: string)
    requires Adjacent(es, u, v) && Joins(e, u, v)
    ensures HasCycle(es + [e])
  {
    var f :| 0 <= f < |es| && Joins(es[f], u, v);
    assert IsClosedTrail(es + [e], [u, v, u], [f, |es|]);
  }

  lemma SubgraphFits(es: seq<Edge>, e: Edge)
    requires DegreesFit(es + [e]) && !HasCycle(es + [e])
    ensures DegreesFit(es) && !HasCycle(es)
    ensures e.a != e.b ==> Degree(es, e.a) <= 1 && Degree(es, e.b) <= 1
  {
    forall v ensures Degree(es, v) <= Degree(es + [e], v)
      ensures Touches(e, v) ==> Degree(es, v) < Degree(es + [e], v)
    {
      assert (es + [e])[..|es|] == es;
    }
    if HasCycle(es) {
      var nodes, ids :| IsClosedTrail(es, nodes, ids);
      assert IsClosedTrail(es + [e], nodes, ids);
    }
  }

  lemma {:induction false} ChainsExist(es: seq<Edge>) returns (cs: set<Chain>)
    requires DegreesFit(es) && !HasCycle(es)
    ensures IsChainCover(es, cs)
  {
    hide HasCycle, Adjacent, DegreesFit, Degree;
    if es == [] { return {}; }
    var rest, e := es[..|es| - 1], es[|es| - 1];
    assert es == rest + [e];
    SubgraphFits(rest, e);
    cs := ChainsExist(rest);
    if e.a == e.b {
      LoopKeepsCover(rest, e, cs);
      return;
    }
    var c, d;
    cs, c := WithNode(rest, cs, e.a);
    cs, d := WithNode(rest, cs, e.b);
    if c == d {
      var i, j := PlaceOf(c, e.a), PlaceOf(c, e.b);
      ChordMakesCycle(rest, e, c, if i < j then i else j, if i < j then j else i);
    }
    var c' := EndAt(rest, cs, c, e.a);
    cs := cs - {c} + {c'};
    var d' := EndAt(rest, cs, d, e.b);
    cs := cs - {d} + {d'};
    Flip(rest, cs, d');
    cs := cs - {d'} + {Reverse(d')};
    JoinChains(rest, e, cs, c', Reverse(d'));
    cs := cs - {c', Reverse(d')} + {c' + Reverse(d')};
  }

  lemma LoopKeepsCover(es: seq<Edge>, e: Edge, cs: set<Chain>)
    requires IsChainCover(es, cs) && e.a == e.b
    ensures IsChainCover(es + [e], cs)
  {
    hide Adjacent;
    forall f | 0 <= f < |es| && es[f].a != es[f].b ensures OnlyLink(es + [e], f) {
      assert OnlyLink(es, f);
    }
    forall c, i | c in cs && 0 <= i < |c| - 1 ensures Adjacent(es + [e], c[i], c[i + 1]) {
      AdjacentGrows(es, e, c[i], c[i + 1]);
    }
  }

  /** The accepted link sets are exactly the ones that are disjoint chains. */
  lemma AcceptedGraphsAreChains(es: seq<Edge>)
    ensures (DegreesFit(es) && !HasCycle(es)) <==> exists cs :: IsChainCover(es, cs)
  {
    hide HasCycle, Degree, IsChainCover, IsForest;
    if DegreesFit(es) && !HasCycle(es) {
      var cs := ChainsExist(es);
    }
    if cs :| IsChainCover(es, cs) {
      CoverIsForest(es, cs);
      ForestHasNoCycle(es, CoverTrees(cs));
      forall v ensures Degree(es, v) <= 2 { CoverBoundsDegree(es, cs, v); }
    }
  }

  /** The smallest case. */
  lemma OneLinkIsChain(a: string, b: string)
    requires a != b
    ensures DegreesFit([Edge(a, b)]) && !HasCycle([Edge(a, b)])
  {
    var es, c := [Edge(a, b)], [a, b];
    hide DegreesFit, HasCycle;
    assert StepAt(c, 0, a, b) && Step(c, a, b);
    assert Joins(es[0], a, b) && Adjacent(es, c[0], c[1]);
    assert IsChainCover(es, {c});
    AcceptedGraphsAreChains(es);
  }
}
