/**
 `_reject_cycles` of the topology compiler: count links per node, then a depth-first
 search that skips the parent and reports a cycle at any other visited neighbour.
 */
module CycleSearch {
  import opened Wrappers
  import opened Sorting
  import opened ChainGraph
  import Text

  datatype GraphError =
    | TooManyLinks(node: string, count: nat)
    | CyclicLinks(walk: seq<string>)

  // ----- the adjacency and counter dictionaries

  /** Both dictionaries hold exactly the touched names, which `order` lists as they appear. */
  ghost predicate Tabulates(es: seq<Edge>, order: seq<string>,
                            adjacency: map<string, seq<string>>, linkCounts: map<string, nat>) {
    && Distinct(order)
    && (forall v :: v in order <==> Incident(es, v) != [])
    && (forall v :: v in order <==> v in adjacency)
    && (forall v :: v in order <==> v in linkCounts)
    && (forall v :: v in order ==> adjacency[v] == Neighbours(es, v) && linkCounts[v] == Degree(es, v))
  }

  lemma IncidentGrows(es: seq<Edge>, e: Edge, v: string)
    ensures Incident(es + [e], v) == Incident(es, v) + if Touches(e, v) then [|es|] else []
    ensures Neighbours(es + [e], v) == Neighbours(es, v) + if Touches(e, v) then [Other(e, v)] else []
  {
    assert (es + [e])[..|es|] == es;
  }

  lemma {:induction false} UntouchedHasNone(es: seq<Edge>, v: string)
    requires Incident(es, v) == []
    ensures Neighbours(es, v) == []
  {
    IncidentFacts(es, v);
  }

  lemma {:induction false} TouchedIsListed(es: seq<Edge>, e: nat, v: string)
    requires e < |es| && Touches(es[e], v)
    ensures Incident(es, v) != []
  {
    IncidentFacts(es, v);
  }

  /** `setdefault(key, []).append(value)` with the counter beside it. */
  ghost predicate Appended(key: string, value: string,
                           order: seq<string>, adjacency: map<string, seq<string>>, linkCounts: map<string, nat>,
                           order': seq<string>, adjacency': map<string, seq<string>>, linkCounts': map<string, nat>) {
    && order' == (if key in adjacency then order else order + [key])
    && adjacency' == adjacency[key := (if key in adjacency then adjacency[key] else []) + [value]]
    && linkCounts' == linkCounts[key := (if key in linkCounts then linkCounts[key] else 0) + 1]
  }

  lemma TabulatesNext(es: seq<Edge>, e: Edge,
                      order: seq<string>, adjacency: map<string, seq<string>>, linkCounts: map<string, nat>,
                      order1: seq<string>, adjacency1: map<string, seq<string>>, linkCounts1: map<string, nat>,
                      order2: seq<string>, adjacency2: map<string, seq<string>>, linkCounts2: map<string, nat>)
    requires Tabulates(es, order, adjacency, linkCounts) && e.a != e.b
    requires Appended(e.a, e.b, order, adjacency, linkCounts, order1, adjacency1, linkCounts1)
    requires Appended(e.b, e.a, order1, adjacency1, linkCounts1, order2, adjacency2, linkCounts2)
    ensures Tabulates(es + [e], order2, adjacency2, linkCounts2)
  {
    hide Incident, Neighbours, Appended, Distinct;
    AppendedLists(e.a, e.b, order, adjacency, linkCounts, order1, adjacency1, linkCounts1);
    AppendedLists(e.b, e.a, order1, adjacency1, linkCounts1, order2, adjacency2, linkCounts2);
    forall v
      ensures v in order2 <==> Incident(es + [e], v) != []
      ensures v in order2 ==> adjacency2[v] == Neighbours(es + [e], v) && linkCounts2[v] == Degree(es + [e], v)
    {
      NameNext(es, e, v, order, adjacency, linkCounts);
      AppendedAt(e.a, e.b, order, adjacency, linkCounts, order1, adjacency1, linkCounts1, v);
      AppendedAt(e.b, e.a, order1, adjacency1, linkCounts1, order2, adjacency2, linkCounts2, v);
    }
  }

  lemma AppendedAt(key: string, value: string,
                   order: seq<string>, adjacency: map<string, seq<string>>, linkCounts: map<string, nat>,
                   order': seq<string>, adjacency': map<string, seq<string>>, linkCounts': map<string, nat>, v: string)
    requires Appended(key, value, order, adjacency, linkCounts, order', adjacency', linkCounts')
    ensures v in adjacency' <==> v in adjacency || v == key
    ensures v in linkCounts' <==> v in linkCounts || v == key
    ensures v in adjacency' ==>
              adjacency'[v] == (if v in adjacency then adjacency[v] else []) + if v == key then [value] else []
    ensures v in linkCounts' ==>
              linkCounts'[v] == (if v in linkCounts then linkCounts[v] else 0) + if v == key then 1 else 0
  {
  }

  /** One name's entries before and after a link. */
  lemma NameNext(es: seq<Edge>, e: Edge, v: string,
                 order: seq<string>, adjacency: map<string, seq<string>>, linkCounts: map<string, nat>)
    requires Tabulates(es, order, adjacency, linkCounts) && e.a != e.b
    ensures Incident(es + [e], v) != [] <==> v in order || Touches(e, v)
    ensures Neighbours(es + [e], v)
              == (if v in order then adjacency[v] else []) + if Touches(e, v) then [Other(e, v)] else []
    ensures Degree(es + [e], v) == (if v in order then linkCounts[v] else 0) + if Touches(e, v) then 1 else 0
  {
    hide Incident, Neighbours;
    IncidentGrows(es, e, v);
    if v !in order { UntouchedHasNone(es, v); }
  }

  lemma AppendedLists(key: string, value: string,
                      order: seq<string>, adjacency: map<string, seq<string>>, linkCounts: map<string, nat>,
                      order': seq<string>, adjacency': map<string, seq<string>>, linkCounts': map<string, nat>)
    requires Appended(key, value, order, adjacency, linkCounts, order', adjacency', linkCounts')
    requires Distinct(order)
    requires (forall v :: v in order <==> v in adjacency) && (forall v :: v in order <==> v in linkCounts)
    ensures Distinct(order') && (forall v :: v in order' <==> v in order || v == key)
    ensures (forall v :: v in order' <==> v in adjacency') && (forall v :: v in order' <==> v in linkCounts')
  {
  }

  lemma TabulatesLoop(es: seq<Edge>, e: Edge,
                      order: seq<string>, adjacency: map<string, seq<string>>, linkCounts: map<string, nat>)
    requires Tabulates(es, order, adjacency, linkCounts) && e.a == e.b
    ensures Tabulates(es + [e], order, adjacency, linkCounts)
  {
    forall v ensures Incident(es + [e], v) == Incident(es, v) && Neighbours(es + [e], v) == Neighbours(es, v) {
      IncidentGrows(es, e, v);
    }
  }

  // ----- what one visit adds to the forest

  function LinkTo(parent: Option<string>): ParentLink {
    if parent.Some? then Child(parent.value) else Root
  }

  ghost function Enter(t: Trees, node: string, parent: Option<string>): Trees
    requires parent.Some? ==> parent.value in t.depth
  {
    Trees(t.done, t.seen + {node}, t.parentOf[node := LinkTo(parent)],
          t.depth[node := if parent.Some? then t.depth[parent.value] + 1 else 0])
  }

  ghost function Leave(t: Trees, node: string): Trees {
    t.(done := t.done + {node})
  }

  /** `path` is the chain of callers, outermost first; the other seen nodes are done. */
  ghost predicate OnStack(es: seq<Edge>, path: seq<string>, t: Trees) {
    && Distinct(path)
    && (forall v :: v in t.seen <==> v in t.done || v in path)
    && (forall v :: v in path ==> v !in t.done)
    && (forall i :: 0 <= i < |path| - 1 ==> Adjacent(es, path[i], path[i + 1]))
  }

  ghost predicate Top(path: seq<string>, parent: Option<string>) {
    parent == if path == [] then None else Some(path[|path| - 1])
  }

  /** Between `t0` and `t` only descendants of `node` were finished, below `parent`. */
  ghost predicate Grew(t0: Trees, t: Trees, node: string, parent: Option<string>) {
    && t0.done <= t.done && t0.seen <= t.seen && t.seen <= t.parentOf.Keys && t0.seen <= t0.parentOf.Keys
    && t.done <= t.seen && node in t.seen && node !in t0.seen && t.parentOf[node] == LinkTo(parent)
    && (forall v :: v in t0.seen ==> t.parentOf[v] == t0.parentOf[v])
    && (forall v :: v in t.done - t0.done && v != node ==>
          t.parentOf[v].Child? && (t.parentOf[v].parent == node || t.parentOf[v].parent in t.done - t0.done))
  }

  /** The neighbours `next[..k]` of `node` have been dealt with. */
  ghost predicate Explored(t: Trees, node: string, parent: Option<string>, next: seq<string>, k: nat)
    requires k <= |next| && t.done <= t.parentOf.Keys
  {
    && (forall j :: 0 <= j < k ==>
          Some(next[j]) == parent || (next[j] in t.done && t.parentOf[next[j]] == Child(node)))
    && (forall i, j :: 0 <= i < j < k && next[i] == next[j] ==> Some(next[j]) == parent)
    && (forall v :: v in t.done && t.parentOf[v] == Child(node) ==> v in next[..k])
  }

  /** The loop invariant of a visit. */
  ghost predicate InProgress(es: seq<Edge>, t0: Trees, t: Trees, node: string, parent: Option<string>,
                             path: seq<string>, k: nat) {
    && IsForest(es, t0) && OnStack(es, path, t0) && node !in t0.seen
    && IsForest(es, t) && OnStack(es, path + [node], t) && Top(path, parent)
    && Grew(t0, t, node, parent)
    && k <= |Neighbours(es, node)|
    && Explored(t, node, parent, Neighbours(es, node), k)
  }

  lemma Begin(es: seq<Edge>, t0: Trees, node: string, parent: Option<string>, path: seq<string>)
    requires IsForest(es, t0) && OnStack(es, path, t0) && node !in t0.seen && Top(path, parent)
    requires parent.Some? ==> Adjacent(es, parent.value, node)
    ensures parent.Some? ==> parent.value in t0.depth
    ensures InProgress(es, t0, Enter(t0, node, parent), node, parent, path, 0)
  {
    hide Neighbours, Adjacent;
    assert parent.Some? ==> parent.value in t0.depth;
    EnterStack(es, t0, node, parent, path);
    EnterForest(es, t0, node, parent);
  }

  lemma EnterForest(es: seq<Edge>, t0: Trees, node: string, parent: Option<string>)
    requires IsForest(es, t0) && node !in t0.seen && (parent.Some? ==> parent.value in t0.seen)
    ensures IsForest(es, Enter(t0, node, parent))
  {
    hide Neighbours;
  }

  lemma EnterStack(es: seq<Edge>, t0: Trees, node: string, parent: Option<string>, path: seq<string>)
    requires OnStack(es, path, t0) && node !in t0.seen && Top(path, parent) && t0.done <= t0.seen
    requires parent.Some? ==> parent.value in t0.depth && Adjacent(es, parent.value, node)
    ensures OnStack(es, path + [node], Enter(t0, node, parent))
  {
    hide Adjacent;
    var stack := path + [node];
    assert forall v :: v in stack <==> v in path || v == node;
  }

  lemma ExploredParent(t: Trees, node: string, parent: Option<string>, next: seq<string>, k: nat)
    requires k < |next| && t.done <= t.parentOf.Keys && Explored(t, node, parent, next, k)
    requires Some(next[k]) == parent
    ensures Explored(t, node, parent, next, k + 1)
  {
    assert forall v :: v in next[..k] ==> v in next[..k + 1];
  }

  lemma ExploredChild(t: Trees, t': Trees, node: string, parent: Option<string>, next: seq<string>, k: nat)
    requires k < |next| && t.done <= t.seen && Grew(t, t', next[k], Some(node)) && Explored(t, node, parent, next, k)
    requires next[k] in t'.done && node !in t'.done
    ensures Explored(t', node, parent, next, k + 1)
  {
    var y := next[k];
    forall v | v in t'.done && t'.parentOf[v] == Child(node) ensures v in next[..k + 1] {
      if v in t.done {
        assert v in next[..k];
      } else {
        assert v == next[..k + 1][k];
      }
    }
  }

  lemma GrewThroughChild(t0: Trees, t: Trees, t': Trees, node: string, parent: Option<string>, y: string)
    requires Grew(t0, t, node, parent) && Grew(t, t', y, Some(node)) && y in t'.done
    ensures Grew(t0, t', node, parent)
  {
  }

  lemma SkipParent(es: seq<Edge>, t0: Trees, t: Trees, node: string, parent: Option<string>, path: seq<string>, k: nat)
    requires InProgress(es, t0, t, node, parent, path, k)
    requires k < |Neighbours(es, node)| && Some(Neighbours(es, node)[k]) == parent
    ensures InProgress(es, t0, t, node, parent, path, k + 1)
  {
    hide Neighbours, OnStack, IsForest, Explored;
    ExploredParent(t, node, parent, Neighbours(es, node), k);
  }

  lemma AfterChild(es: seq<Edge>, t0: Trees, t: Trees, t': Trees, node: string, parent: Option<string>,
                   path: seq<string>, k: nat)
    requires InProgress(es, t0, t, node, parent, path, k) && k < |Neighbours(es, node)|
    requires var y := Neighbours(es, node)[k];
             Some(y) != parent && Grew(t, t', y, Some(node)) && y in t'.done
    requires IsForest(es, t') && OnStack(es, path + [node], t')
    ensures InProgress(es, t0, t', node, parent, path, k + 1)
  {
    hide Neighbours, IsForest, Adjacent, Explored;
    assert node in path + [node];
    ExploredChild(t, t', node, parent, Neighbours(es, node), k);
    GrewThroughChild(t0, t, t', node, parent, Neighbours(es, node)[k]);
  }

  lemma Finish(es: seq<Edge>, t0: Trees, t: Trees, node: string, parent: Option<string>, path: seq<string>)
    requires InProgress(es, t0, t, node, parent, path, |Neighbours(es, node)|)
    ensures IsForest(es, Leave(t, node)) && OnStack(es, path, Leave(t, node))
    ensures Grew(t0, Leave(t, node), node, parent)
  {
    hide Neighbours, Adjacent;
    LeaveForest(es, t0, t, node, parent, path);
    LeaveStack(es, path, t, node);
  }

  lemma LeaveStack(es: seq<Edge>, path: seq<string>, t: Trees, node: string)
    requires OnStack(es, path + [node], t) && node in t.seen
    ensures OnStack(es, path, Leave(t, node))
  {
    hide Adjacent;
    var stack := path + [node];
    assert forall v :: v in stack <==> v in path || v == node;
    assert forall i :: 0 <= i < |path| ==> stack[i] == path[i];
    assert stack[|path|] == node;
  }

  lemma LeaveForest(es: seq<Edge>, t0: Trees, t: Trees, node: string, parent: Option<string>, path: seq<string>)
    requires InProgress(es, t0, t, node, parent, path, |Neighbours(es, node)|)
    ensures IsForest(es, Leave(t, node))
  {
    hide Neighbours, Adjacent, OnStack;
    var next := Neighbours(es, node);
    assert next[..|next|] == next;
  }

  /** The reported walk follows links and ends where it has been before, or doubles its last link. */
  ghost predicate ClosesUp(es: seq<Edge>, walk: seq<string>) {
    && |walk| >= 2 && (forall i :: 0 <= i < |walk| - 1 ==> Adjacent(es, walk[i], walk[i + 1]))
    && var last, before := walk[|walk| - 1], walk[|walk| - 2];
       last in walk[..|walk| - 1] || Doubled(es, before, last)
  }

  ghost predicate Doubled(es: seq<Edge>, u: string, v: string) {
    exists j, k :: 0 <= j < k < |Neighbours(es, u)| && Neighbours(es, u)[j] == v == Neighbours(es, u)[k]
  }

  /** A visited neighbour other than the parent closes a ring or doubles a link. */
  lemma RepeatMakesCycle(es: seq<Edge>, t0: Trees, t: Trees, node: string, parent: Option<string>,
                         path: seq<string>, k: nat)
    requires InProgress(es, t0, t, node, parent, path, k) && k < |Neighbours(es, node)|
    requires Neighbours(es, node)[k] in t.seen && Some(Neighbours(es, node)[k]) != parent
    ensures HasCycle(es) && ClosesUp(es, path + [node, Neighbours(es, node)[k]])
  {
    hide Neighbours, Incident, HasCycle, IsForest, Explored, Grew, Distinct, Doubled, ClosesUp;
    var stack := path + [node];
    var y := Neighbours(es, node)[k];
    IncidentFacts(es, node);
    var e := Incident(es, node)[k];
    assert Joins(es[e], node, y);
    assert Adjacent(es, node, y);
    if y in t.done {
      DoneNeighbourRepeats(es, t0, t, node, parent, path, k, e);
    } else {
      assert y in stack;
      RingOnStack(es, t, stack, y);
    }
    WalkClosesUp(es, path, node, y, t);
  }

  lemma WalkClosesUp(es: seq<Edge>, path: seq<string>, node: string, y: string, t: Trees)
    requires OnStack(es, path + [node], t) && Adjacent(es, node, y)
    requires y in path + [node] || Doubled(es, node, y)
    ensures ClosesUp(es, path + [node, y])
  {
    hide Adjacent, Doubled, Distinct;
    var stack, walk := path + [node], path + [node, y];
    assert walk == stack + [y] && walk[..|walk| - 1] == stack;
    forall i | 0 <= i < |walk| - 1 ensures Adjacent(es, walk[i], walk[i + 1]) {
      if i < |path| { assert walk[i] == stack[i] && walk[i + 1] == stack[i + 1]; }
    }
    assert walk[|walk| - 1] == y && walk[|walk| - 2] == node;
  }

  /** A finished neighbour other than the parent was reached from here over an earlier link. */
  lemma DoneNeighbourRepeats(es: seq<Edge>, t0: Trees, t: Trees, node: string, parent: Option<string>,
                             path: seq<string>, k: nat, e: nat)
    requires InProgress(es, t0, t, node, parent, path, k) && k < |Neighbours(es, node)|
    requires Neighbours(es, node)[k] in t.done && Some(Neighbours(es, node)[k]) != parent
    requires e < |es| && Joins(es[e], node, Neighbours(es, node)[k])
    ensures HasCycle(es)
    ensures Doubled(es, node, Neighbours(es, node)[k])
  {
    hide Neighbours, Incident, HasCycle, Adjacent;
    var y := Neighbours(es, node)[k];
    var back := NeighbourOfEdge(es, e, y, node);
    assert node !in t.done by { assert node in path + [node]; }
    var j :| 0 <= j < k && Neighbours(es, node)[j] == y;
    TwoEdgesMakeCycle(es, node, j, k);
  }

  /** The callers from a neighbour up to the current node form a ring. */
  lemma RingOnStack(es: seq<Edge>, t: Trees, stack: seq<string>, y: string)
    requires OnStack(es, stack, t) && y in stack
    requires Adjacent(es, stack[|stack| - 1], y)
    requires |stack| >= 2 ==> y != stack[|stack| - 2]
    requires y != stack[|stack| - 1]
    ensures HasCycle(es)
  {
    hide HasCycle, Adjacent;
    var i :| 0 <= i < |stack| && stack[i] == y;
    var ring := stack[i..];
    forall j | 0 <= j < |ring| - 1 ensures Adjacent(es, ring[j], ring[j + 1]) {
      assert Adjacent(es, stack[i + j], stack[i + j + 1]);
    }
    RingMakesCycle(es, ring);
  }

  class Search {
    const es: seq<Edge>
    var adjacency: map<string, seq<string>>
    var linkCounts: map<string, nat>
    var order: seq<string>              // insertion order of both dictionaries
    var visited: set<string>
    ghost var trees: Trees

    ghost predicate Built()
      reads this
    {
      Tabulates(es, order, adjacency, linkCounts)
    }

    ghost predicate Planted(path: seq<string>)
      reads this
    {
      visited == trees.seen && IsForest(es, trees) && OnStack(es, path, trees)
    }

    constructor (es: seq<Edge>)
      ensures this.es == es && Built() && Planted([])
    {
      this.es := es;
      adjacency, linkCounts, order, visited, trees := map[], map[], [], {}, Trees({}, {}, map[], map[]);
      new;
      Tabulate();
    }

    method Tabulate()
      requires order == [] && adjacency == map[] && linkCounts == map[]
      modifies this`adjacency, this`linkCounts, this`order
      ensures Built()
    {
      assert Tabulates(es[..0], order, adjacency, linkCounts);
      hide Tabulates;
      var i := 0;
      while i < |es|
        invariant 0 <= i <= |es|
        invariant Tabulates(es[..i], order, adjacency, linkCounts)
      {
        AddLink(es[..i], es[i]);
        assert es[..i + 1] == es[..i] + [es[i]];
        i := i + 1;
      }
      assert es[..|es|] == es;
    }

    method AddLink(ghost before: seq<Edge>, e: Edge)
      requires Tabulates(before, order, adjacency, linkCounts)
      modifies this`adjacency, this`linkCounts, this`order
      ensures Tabulates(before + [e], order, adjacency, linkCounts)
    {
      hide Tabulates;
      ghost var order0, adjacency0, linkCounts0 := order, adjacency, linkCounts;
      if e.a == e.b {
        TabulatesLoop(before, e, order, adjacency, linkCounts);
        return;
      }
      Append(e.a, e.b);
      ghost var order1, adjacency1, linkCounts1 := order, adjacency, linkCounts;
      Append(e.b, e.a);
      TabulatesNext(before, e, order0, adjacency0, linkCounts0, order1, adjacency1, linkCounts1,
                    order, adjacency, linkCounts);
    }

    method Append(key: string, value: string)
      modifies this`adjacency, this`linkCounts, this`order
      ensures Appended(key, value, old(order), old(adjacency), old(linkCounts), order, adjacency, linkCounts)
    {
      if key !in adjacency { order := order + [key]; }
      adjacency := adjacency[key := (if key in adjacency then adjacency[key] else []) + [value]];
      linkCounts := linkCounts[key := (if key in linkCounts then linkCounts[key] else 0) + 1];
    }

    /** Everything reachable from `node` away from the callers is finished, or a cycle is found. */
    method Visit(node: string, parent: Option<string>, path: seq<string>) returns (cycle: Option<seq<string>>)
      requires Built() && Planted(path)
      requires node in adjacency && node !in visited && Top(path, parent)
      requires parent.Some? ==> Adjacent(es, parent.value, node)
      modifies this`visited, this`trees
      ensures cycle.Some? ==> HasCycle(es) && ClosesUp(es, cycle.value)
      ensures cycle.None? ==> Planted(path) && Grew(old(trees), trees, node, parent) && node in trees.done
      decreases adjacency.Keys - visited
    {
      hide IsForest, OnStack, Adjacent, HasCycle, Neighbours, Incident, Distinct, Explored, ClosesUp;
      ghost var t0 := trees;
      Begin(es, t0, node, parent, path);
      visited := visited + {node};
      trees := Enter(t0, node, parent);
      var next := adjacency[node];
      var k := 0;
      while k < |next|
        invariant 0 <= k <= |next|
        invariant visited == trees.seen && InProgress(es, t0, trees, node, parent, path, k)
      {
        var y := next[k];
        if Some(y) == parent {
          SkipParent(es, t0, trees, node, parent, path, k);
        } else if y in visited {
          RepeatMakesCycle(es, t0, trees, node, parent, path, k);
          return Some(path + [node, y]);
        } else {
          StepTo(node, k);
          ghost var t := trees;
          var deeper := Visit(y, Some(node), path + [node]);
          if deeper.Some? { return deeper; }
          AfterChild(es, t0, t, trees, node, parent, path, k);
        }
        k := k + 1;
      }
      Finish(es, t0, trees, node, parent, path);
      trees := Leave(trees, node);
      return None;
    }

    lemma StepTo(node: string, k: nat)
      requires Built() && node in adjacency && k < |adjacency[node]|
      ensures Adjacent(es, node, adjacency[node][k]) && adjacency[node][k] in adjacency
    {
      IncidentFacts(es, node);
      var e := Incident(es, node)[k];
      assert Joins(es[e], node, adjacency[node][k]);
      TouchedIsListed(es, e, adjacency[node][k]);
    }
  }

  /** The busiest-node check: names in alphabetical order, first one over the limit. */
  method FirstOverloaded(search: Search) returns (fault: Option<GraphError>)
    requires search.Built()
    ensures fault.None? <==> DegreesFit(search.es)
    ensures fault.Some? ==>
              && fault.value.TooManyLinks? && fault.value.count == Degree(search.es, fault.value.node) > 2
              && forall v :: Degree(search.es, v) > 2 ==> Text.AtMost(fault.value.node, v)
  {
    hide Incident, Neighbours, Distinct, Text.AtMost, Sort;
    var names := Sort(search.order, Text.AtMost);
    SortPermutes(search.order, Text.AtMost);
    Text.AtMostIsTotalOrder();
    SortSorted(search.order, Text.AtMost);
    var i := 0;
    while i < |names|
      invariant 0 <= i <= |names|
      invariant forall j :: 0 <= j < i ==> Degree(search.es, names[j]) <= 2
    {
      assert names[i] in search.order;
      if search.linkCounts[names[i]] > 2 {
        forall v | Degree(search.es, v) > 2 ensures Text.AtMost(names[i], v) {
          assert v in names;
        }
        return Some(TooManyLinks(names[i], search.linkCounts[names[i]]));
      }
      i := i + 1;
    }
    return None;
  }

  /**
   Accepts exactly the link sets in which every node has at most two links and no cycle
   exists; parallel links count as a cycle, links from a node to itself are ignored.
   */
  method RejectCycles(es: seq<Edge>) returns (fault: Option<GraphError>)
    ensures fault.None? <==> DegreesFit(es) && !HasCycle(es)
    ensures fault.Some? && fault.value.TooManyLinks? ==>
              && fault.value.count == Degree(es, fault.value.node) > 2
              && forall v :: Degree(es, v) > 2 ==> Text.AtMost(fault.value.node, v)
    ensures fault.Some? && fault.value.CyclicLinks? ==> DegreesFit(es) && HasCycle(es) && ClosesUp(es, fault.value.walk)
  {
    hide Incident, Neighbours, HasCycle, IsForest, Adjacent, OnStack, Distinct, ClosesUp;
    var search := new Search(es);
    fault := FirstOverloaded(search);
    if fault.Some? { return; }
    var i := 0;
    while i < |search.order|
      invariant 0 <= i <= |search.order|
      invariant search.Built() && search.Planted([])
      invariant forall j :: 0 <= j < i ==> search.order[j] in search.visited
    {
      var node := search.order[i];
      if node !in search.visited {
        var cycle := search.Visit(node, None, []);
        if cycle.Some? { return Some(CyclicLinks(cycle.value)); }
      }
      i := i + 1;
    }
    AllFinished(search);
  }

  lemma AllFinished(search: Search)
    requires search.Built() && search.Planted([])
    requires forall j :: 0 <= j < |search.order| ==> search.order[j] in search.visited
    ensures !HasCycle(search.es)
  {
    hide Incident, Neighbours, HasCycle, IsForest, Adjacent;
    assert search.trees.seen == search.trees.done;
    forall e, v | 0 <= e < |search.es| && Touches(search.es[e], v) ensures v in search.visited {
      TouchedIsListed(search.es, e, v);
    }
    ForestHasNoCycle(search.es, search.trees);
  }
}
