/**
 The undirected multigraph of a topology's links, and what it means for it to be a
 collection of chains.  A link from a node to itself carries no edge.
 */
module ChainGraph {
  datatype Edge = Edge(a: string, b: string)

  predicate Touches(e: Edge, v: string) {
    e.a != e.b && (e.a == v || e.b == v)
  }

  predicate Joins(e: Edge, u: string, v: string) {
    u != v && (e == Edge(u, v) || e == Edge(v, u))
  }

  function Other(e: Edge, v: string): string {
    if e.a == v then e.b else e.a
  }

  /** The positions of the edges at `v`, in link order. */
  function Incident(es: seq<Edge>, v: string): seq<nat> {
    if es == [] then [] else
      var n := |es| - 1;
      Incident(es[..n], v) + if Touches(es[n], v) then [n] else []
  }

  /** The far ends of the edges at `v`, in link order; a parallel link repeats its far end. */
  function Neighbours(es: seq<Edge>, v: string): seq<string> {
    if es == [] then [] else
      var n := |es| - 1;
      Neighbours(es[..n], v) + if Touches(es[n], v) then [Other(es[n], v)] else []
  }

  function Degree(es: seq<Edge>, v: string): nat {
    |Incident(es, v)|
  }

  ghost predicate Adjacent(es: seq<Edge>, u: string, v: string) {
    exists e :: 0 <= e < |es| && Joins(es[e], u, v)
  }

  ghost predicate Distinct<T>(s: seq<T>) {
    forall i, j :: 0 <= i < j < |s| ==> s[i] != s[j]
  }

  /** A walk along the edges `ids` that uses no edge twice. */
  ghost predicate IsTrail(es: seq<Edge>, nodes: seq<string>, ids: seq<nat>) {
    && |nodes| == |ids| + 1
    && (forall i :: 0 <= i < |ids| ==> ids[i] < |es| && Joins(es[ids[i]], nodes[i], nodes[i + 1]))
    && Distinct(ids)
  }

  ghost predicate IsClosedTrail(es: seq<Edge>, nodes: seq<string>, ids: seq<nat>) {
    IsTrail(es, nodes, ids) && |ids| > 0 && nodes[0] == nodes[|ids|]
  }

  ghost predicate HasCycle(es: seq<Edge>) {
    exists nodes, ids :: IsClosedTrail(es, nodes, ids)
  }

  ghost predicate DegreesFit(es: seq<Edge>) {
    forall v :: Degree(es, v) <= 2
  }

  // ----- positions in the neighbour list are edges

  lemma {:induction false} IncidentFacts(es: seq<Edge>, v: string)
    ensures |Neighbours(es, v)| == |Incident(es, v)|
    ensures forall k :: 0 <= k < |Incident(es, v)| ==>
              && Incident(es, v)[k] < |es|
              && Joins(es[Incident(es, v)[k]], v, Neighbours(es, v)[k])
    ensures Distinct(Incident(es, v))
    ensures forall e :: 0 <= e < |es| && Touches(es[e], v) ==> e in Incident(es, v)
  {
    if es != [] {
      var n := |es| - 1;
      IncidentFacts(es[..n], v);
      OtherJoins(es[n], v);
      ListedNext(es, v, Incident(es[..n], v), Neighbours(es[..n], v));
    }
  }

  lemma OtherJoins(e: Edge, v: string)
    ensures Touches(e, v) ==> Joins(e, v, Other(e, v))
  {
  }

  /** The lists of all but the last edge, and what that one adds. */
  lemma ListedNext(es: seq<Edge>, v: string, ids: seq<nat>, ends: seq<string>)
    requires es != [] && |ids| == |ends| && Distinct(ids)
    requires forall k :: 0 <= k < |ids| ==> ids[k] < |es| - 1 && Joins(es[..|es| - 1][ids[k]], v, ends[k])
    requires forall e :: 0 <= e < |es| - 1 && Touches(es[..|es| - 1][e], v) ==> e in ids
    requires Touches(es[|es| - 1], v) ==> Joins(es[|es| - 1], v, Other(es[|es| - 1], v))
    ensures var n := |es| - 1;
            var ids' := ids + if Touches(es[n], v) then [n] else [];
            var ends' := ends + if Touches(es[n], v) then [Other(es[n], v)] else [];
            && (forall k :: 0 <= k < |ids'| ==> ids'[k] < |es| && Joins(es[ids'[k]], v, ends'[k]))
            && Distinct(ids') && (forall e :: 0 <= e < |es| && Touches(es[e], v) ==> e in ids')
  {
    hide Joins, Touches, Other;
    assert forall k :: 0 <= k < |es| - 1 ==> es[..|es| - 1][k] == es[k];
  }

  lemma NeighbourOfEdge(es: seq<Edge>, e: nat, u: string, v: string) returns (k: nat)
    requires e < |es| && Joins(es[e], u, v)
    ensures k < |Neighbours(es, u)| == |Incident(es, u)|
    ensures Incident(es, u)[k] == e && Neighbours(es, u)[k] == v
  {
    IncidentFacts(es, u);
    k :| 0 <= k < |Incident(es, u)| && Incident(es, u)[k] == e;
  }

  // ----- how a cycle is exhibited

  lemma TwoEdgesMakeCycle(es: seq<Edge>, u: string, j: nat, k: nat)
    requires j < k < |Neighbours(es, u)| && Neighbours(es, u)[j] == Neighbours(es, u)[k]
    ensures HasCycle(es)
  {
    IncidentFacts(es, u);
    var v := Neighbours(es, u)[k];
    assert IsClosedTrail(es, [u, v, u], [Incident(es, u)[j], Incident(es, u)[k]]);
  }

  ghost function EdgeBetween(es: seq<Edge>, u: string, v: string): (e: nat)
    requires Adjacent(es, u, v)
    ensures e < |es| && Joins(es[e], u, v)
  {
    var e :| 0 <= e < |es| && Joins(es[e], u, v); e
  }

  /** The steps round a ring, the last one closing it, as edge positions. */
  ghost function RingEdges(es: seq<Edge>, ring: seq<string>, n: nat): (ids: seq<nat>)
    requires n < |ring| && forall i :: 0 <= i < n ==> Adjacent(es, ring[i], ring[i + 1])
    ensures |ids| == n
    ensures forall i :: 0 <= i < n ==> ids[i] < |es| && Joins(es[ids[i]], ring[i], ring[i + 1])
  {
    if n == 0 then [] else RingEdges(es, ring, n - 1) + [EdgeBetween(es, ring[n - 1], ring[n])]
  }

  lemma RingMakesCycle(es: seq<Edge>, ring: seq<string>)
    requires |ring| >= 3 && Distinct(ring)
    requires forall i :: 0 <= i < |ring| - 1 ==> Adjacent(es, ring[i], ring[i + 1])
    requires Adjacent(es, ring[|ring| - 1], ring[0])
    ensures HasCycle(es)
  {
    var n := |ring|;
    var path := RingEdges(es, ring, n - 1);
    var last := EdgeBetween(es, ring[n - 1], ring[0]);
    var nodes, ids := ring + [ring[0]], path + [last];
    forall i | 0 <= i < n ensures ids[i] < |es| && Joins(es[ids[i]], nodes[i], nodes[i + 1]) {
      if i < n - 1 { assert ids[i] == path[i]; }
    }
    forall i, j | 0 <= i < j < n ensures ids[i] != ids[j] {
      assert Joins(es[ids[i]], nodes[i], nodes[i + 1]) && Joins(es[ids[j]], nodes[j], nodes[j + 1]);
      assert nodes[i] == ring[i] && nodes[j] == ring[j] && nodes[i + 1] == ring[i + 1];
    }
    assert IsClosedTrail(es, nodes, ids);
  }

  // ----- how the absence of cycles is certified

  datatype ParentLink = Root | Child(parent: string)

  /** Rooted trees over the `seen` nodes; `done` are those whose edges have all been followed. */
  datatype Trees = Trees(done: set<string>, seen: set<string>,
                         parentOf: map<string, ParentLink>, depth: map<string, nat>)

  /**
   Every edge end of a done node is its parent or one of its children, and no child is
   reached by two edges.
   */
  ghost predicate IsForest(es: seq<Edge>, t: Trees) {
    && t.done <= t.seen && t.parentOf.Keys == t.seen && t.depth.Keys == t.seen
    && (forall x :: x in t.seen && t.parentOf[x].Child? ==>
          t.parentOf[x].parent in t.seen && t.depth[t.parentOf[x].parent] < t.depth[x])
    && (forall x, k :: x in t.done && 0 <= k < |Neighbours(es, x)| ==>
          var y := Neighbours(es, x)[k];
          t.parentOf[x] == Child(y) || (y in t.done && t.parentOf[y] == Child(x)))
    && (forall x, j, k ::
          (x in t.done && 0 <= j < k < |Neighbours(es, x)| && Neighbours(es, x)[j] == Neighbours(es, x)[k])
          ==> t.parentOf[x] == Child(Neighbours(es, x)[k]))
  }

  ghost predicate Covers(es: seq<Edge>, nodes: set<string>) {
    forall e, v :: 0 <= e < |es| && Touches(es[e], v) ==> v in nodes
  }

  lemma {:induction false} DeepestNode(nodes: seq<string>, n: nat, depth: map<string, nat>) returns (m: nat)
    requires 0 < n <= |nodes| && forall i :: 0 <= i < n ==> nodes[i] in depth
    ensures m < n && forall i :: 0 <= i < n ==> depth[nodes[i]] <= depth[nodes[m]]
  {
    if n == 1 {
      m := 0;
    } else {
      m := DeepestNode(nodes, n - 1, depth);
      if depth[nodes[m]] < depth[nodes[n - 1]] { m := n - 1; }
    }
  }

  lemma ForestHasNoCycle(es: seq<Edge>, t: Trees)
    requires IsForest(es, t) && t.seen == t.done && Covers(es, t.seen)
    ensures !HasCycle(es)
  {
    forall nodes, ids | IsClosedTrail(es, nodes, ids) ensures false {
      var n := |ids|;
      assert Joins(es[ids[0]], nodes[0], nodes[1]);
      forall i | 0 <= i < n ensures nodes[i] in t.seen {
        assert Joins(es[ids[i]], nodes[i], nodes[i + 1]);
        assert Touches(es[ids[i]], nodes[i]);
      }
      var m := DeepestNode(nodes, n, t.depth);
      var before := if m == 0 then n - 1 else m - 1;
      DeepestEdgeLeadsToParent(es, t, nodes[m], nodes[before], ids[before]);
      DeepestEdgeLeadsToParent(es, t, nodes[m], nodes[m + 1], ids[m]);
      var p := t.parentOf[nodes[m]].parent;
      var j := NeighbourOfEdge(es, ids[before], p, nodes[m]);
      var k := NeighbourOfEdge(es, ids[m], p, nodes[m]);
      assert false;
    }
  }

  lemma DeepestEdgeLeadsToParent(es: seq<Edge>, t: Trees, m: string, y: string, e: nat)
    requires IsForest(es, t) && t.seen == t.done && m in t.seen && y in t.seen
    requires e < |es| && Joins(es[e], m, y) && t.depth[y] <= t.depth[m]
    ensures t.parentOf[m] == Child(y)
  {
    var k := NeighbourOfEdge(es, e, m, y);
  }
}
