/**
 The structure fingerprint before hashing, and the catalogue of stored topologies that
 is searched by it.  Python tuples become sequences of atoms, compared item by item.
 */
module Fingerprint {
  import opened Wrappers
  import opened Sorting
  import opened Topology
  import Compiler = TopologyCompiler
  import Text

  datatype Atom = Nothing | Num(n: int) | Str(s: string)

  type Key = seq<Atom>

  /** Atoms Python can order: anything else raises `TypeError`. */
  predicate Orderable(a: Atom, b: Atom) {
    (a.Num? && b.Num?) || (a.Str? && b.Str?)
  }

  predicate AtomAtMost(a: Atom, b: Atom) {
    match (a, b)
    case (Nothing, _) => true
    case (Num(m), Num(n)) => m <= n
    case (Num(_), Str(_)) => true
    case (Str(s), Str(t)) => Text.AtMost(s, t)
    case _ => false
  }

  /** Tuple order: the first differing item decides. */
  predicate KeyAtMost(a: Key, b: Key) {
    a == [] || (b != [] && if a[0] == b[0] then KeyAtMost(a[1..], b[1..]) else AtomAtMost(a[0], b[0]))
  }

  /** Comparing the two tuples never reaches a pair of atoms that Python cannot order. */
  predicate Comparable(a: Key, b: Key) {
    a == [] || b == [] || if a[0] == b[0] then Comparable(a[1..], b[1..]) else Orderable(a[0], b[0])
  }

  function NodeKey(n: Node): Key { [Str(n.name), Str(n.kind)] }

  function LinkKey(l: Link): Key { [Str(l.src), Str(l.dst), Str(l.subnet)] }

  function RuleKey(r: Rule): Key {
    [Str(r.name), Str(r.protocol), if r.port.Some? then Num(r.port.value) else Nothing, Str(r.src), Str(r.dst)]
  }

  function Map<A, B>(f: A -> B, s: seq<A>): (r: seq<B>)
    ensures |r| == |s| && forall i :: 0 <= i < |s| ==> r[i] == f(s[i])
  {
    seq(|s|, i requires 0 <= i < |s| => f(s[i]))
  }

  datatype Canon = Canon(nodes: seq<Key>, links: seq<Key>, rules: seq<Key>)

  function CanonOf(t: Topology): Canon {
    Canon(Sort(Map(NodeKey, t.nodes), KeyAtMost),
          Sort(Map(LinkKey, t.links), KeyAtMost),
          Sort(Map(RuleKey, t.rules), KeyAtMost))
  }

  ghost predicate SameContents(t: Topology, u: Topology) {
    && multiset(t.nodes) == multiset(u.nodes)
    && multiset(t.links) == multiset(u.links)
    && multiset(t.rules) == multiset(u.rules)
  }

  // ----- tuple order is a total order

  lemma AtomOrder(a: Atom, b: Atom, c: Atom)
    ensures AtomAtMost(a, b) || AtomAtMost(b, a)
    ensures AtomAtMost(a, b) && AtomAtMost(b, a) ==> a == b
    ensures AtomAtMost(a, b) && AtomAtMost(b, c) ==> AtomAtMost(a, c)
  {
    hide Text.AtMost;
    Text.AtMostIsTotalOrder();
  }

  lemma {:induction false} KeyTransitive(a: Key, b: Key, c: Key)
    requires KeyAtMost(a, b) && KeyAtMost(b, c)
    ensures KeyAtMost(a, c)
  {
    if a != [] {
      AtomOrder(a[0], b[0], c[0]);
      AtomOrder(b[0], a[0], c[0]);
      if a[0] == b[0] == c[0] { KeyTransitive(a[1..], b[1..], c[1..]); }
    }
  }

  lemma {:induction false} KeyTotal(a: Key, b: Key)
    ensures KeyAtMost(a, b) || KeyAtMost(b, a)
    ensures KeyAtMost(a, b) && KeyAtMost(b, a) ==> a == b
  {
    if a != [] && b != [] {
      AtomOrder(a[0], b[0], b[0]);
      KeyTotal(a[1..], b[1..]);
      assert a == [a[0]] + a[1..] && b == [b[0]] + b[1..];
    }
  }

  lemma KeysAreOrdered()
    ensures Total(KeyAtMost) && Transitive(KeyAtMost) && Antisymmetric(KeyAtMost)
  {
    forall a, b ensures KeyAtMost(a, b) || KeyAtMost(b, a) { KeyTotal(a, b); }
    forall a, b | KeyAtMost(a, b) && KeyAtMost(b, a) ensures a == b { KeyTotal(a, b); }
    forall a, b, c | KeyAtMost(a, b) && KeyAtMost(b, c) ensures KeyAtMost(a, c) { KeyTransitive(a, b, c); }
  }

  // ----- renaming elements one to one neither merges nor splits contents

  lemma MapWithout<A, B>(f: A -> B, t: seq<A>, i: nat)
    requires i < |t|
    ensures var rest := t[..i] + t[i + 1..];
            && multiset(t) == multiset(rest) + multiset{t[i]}
            && multiset(Map(f, t)) == multiset(Map(f, rest)) + multiset{f(t[i])}
  {
    var rest, m := t[..i] + t[i + 1..], Map(f, t);
    assert t == t[..i] + ([t[i]] + t[i + 1..]);
    assert m == m[..i] + ([m[i]] + m[i + 1..]);
    assert Map(f, rest) == m[..i] + m[i + 1..];
  }

  lemma MapWithoutHead<A, B>(f: A -> B, s: seq<A>)
    requires s != []
    ensures multiset(s) == multiset(s[1..]) + multiset{s[0]}
    ensures multiset(Map(f, s)) == multiset(Map(f, s[1..])) + multiset{f(s[0])}
  {
    assert s == [s[0]] + s[1..];
    assert Map(f, s) == [f(s[0])] + Map(f, s[1..]);
  }

  lemma {:induction false} MapKeepsContents<A, B>(f: A -> B, s: seq<A>, t: seq<A>)
    requires multiset(s) == multiset(t)
    ensures multiset(Map(f, s)) == multiset(Map(f, t))
  {
    hide Map;
    assert |multiset(s)| == |s| && |multiset(t)| == |t|;
    if s != [] {
      assert s[0] in multiset(t);
      var i :| 0 <= i < |t| && t[i] == s[0];
      var rest := t[..i] + t[i + 1..];
      MapWithoutHead(f, s);
      MapWithout(f, t, i);
      assert multiset(rest) == multiset(t) - multiset{t[i]};
      MapKeepsContents(f, s[1..], rest);
    } else {
      assert t == s;
    }
  }

  lemma InjectiveContents<A(!new), B>(f: A -> B, g: B -> A, s: seq<A>, t: seq<A>)
    requires forall x :: g(f(x)) == x
    ensures multiset(Map(f, s)) == multiset(Map(f, t)) <==> multiset(s) == multiset(t)
  {
    if multiset(s) == multiset(t) { MapKeepsContents(f, s, t); }
    if multiset(Map(f, s)) == multiset(Map(f, t)) {
      MapKeepsContents(g, Map(f, s), Map(f, t));
      assert Map(g, Map(f, s)) == s && Map(g, Map(f, t)) == t;
    }
  }

  function TextOf(k: Key, i: nat): string {
    if i < |k| && k[i].Str? then k[i].s else ""
  }

  /** The canonical form forgets the order of the entries and nothing else. */
  lemma FingerprintIsCanonical(t: Topology, u: Topology)
    ensures CanonOf(t) == CanonOf(u) <==> SameContents(t, u)
  {
    hide Sort, KeyAtMost;
    KeysAreOrdered();
    var node := (k: Key) => Node(TextOf(k, 0), TextOf(k, 1));
    var link := (k: Key) => Link(TextOf(k, 0), TextOf(k, 1), TextOf(k, 2));
    var rule := (k: Key) => Rule(TextOf(k, 0), TextOf(k, 1),
                                 if |k| > 2 && k[2].Num? then Some(k[2].n) else None, TextOf(k, 3), TextOf(k, 4));
    SortCanonical(Map(NodeKey, t.nodes), Map(NodeKey, u.nodes), KeyAtMost);
    SortCanonical(Map(LinkKey, t.links), Map(LinkKey, u.links), KeyAtMost);
    SortCanonical(Map(RuleKey, t.rules), Map(RuleKey, u.rules), KeyAtMost);
    InjectiveContents(NodeKey, node, t.nodes, u.nodes);
    InjectiveContents(LinkKey, link, t.links, u.links);
    InjectiveContents(RuleKey, rule, t.rules, u.rules);
  }

  /** In an accepted topology sorting never has to order a missing port against a number. */
  lemma SortingNeverRaises(ip: CidrReader, t: Topology, i: nat, j: nat)
    requires Accepted(ip, t) && i < j < |t.rules|
    ensures Comparable(RuleKey(t.rules[i]), RuleKey(t.rules[j])) && Comparable(RuleKey(t.rules[j]), RuleKey(t.rules[i]))
  {
    assert RuleFits(t, j);
  }

  // ----- the catalogue

  datatype Stored = Stored(id: nat, topology: Topology)

  /** The newest stored topology with this name and shape. */
  function FindSame(stored: seq<Stored>, t: Topology): Option<nat> {
    if stored == [] then None else
      var last := stored[|stored| - 1];
      if last.topology.name == t.name && CanonOf(last.topology) == CanonOf(t) then Some(last.id)
      else FindSame(stored[..|stored| - 1], t)
  }

  function NextId(stored: seq<Stored>): nat {
    if stored == [] then 1 else stored[|stored| - 1].id + 1
  }

  class Catalogue {
    var stored: seq<Stored>

    constructor ()
      ensures stored == []
    {
      stored := [];
    }

    /** `_persist_topology`: reject, reuse the newest equal topology, or store a new one. */
    method Persist(ip: CidrReader, t: Topology) returns (r: Result<nat, Compiler.CompileError>)
      modifies this
      ensures r.Ok? <==> Accepted(ip, t)
      ensures r.Err? ==> stored == old(stored)
      ensures r.Ok? ==> (stored, r.value) == Persisted(old(stored), t)
    {
      hide CanonOf, Accepted, PlanOf, Compiler.Blames;
      var plan := Compiler.CompileTopology(ip, t);
      if plan.Err? { return Err(plan.error); }
      var i := |stored|;
      assert stored[..i] == stored;
      while i > 0
        invariant 0 <= i <= |stored| && stored == old(stored)
        invariant FindSame(stored, t) == FindSame(stored[..i], t)
      {
        i := i - 1;
        var candidate := stored[i];
        assert stored[..i + 1][..i] == stored[..i];
        if candidate.topology.name == t.name && CanonOf(candidate.topology) == CanonOf(t) {
          return Ok(candidate.id);
        }
      }
      var id := NextId(stored);
      stored := stored + [Stored(id, t)];
      return Ok(id);
    }
  }

  function Persisted(stored: seq<Stored>, t: Topology): (seq<Stored>, nat) {
    match FindSame(stored, t)
    case Some(id) => (stored, id)
    case None => (stored + [Stored(NextId(stored), t)], NextId(stored))
  }

  lemma {:induction false} SameShapeSameRow(stored: seq<Stored>, t: Topology, u: Topology)
    requires t.name == u.name && CanonOf(t) == CanonOf(u)
    ensures FindSame(stored, t) == FindSame(stored, u)
  {
    if stored != [] { SameShapeSameRow(stored[..|stored| - 1], t, u); }
  }

  /** Running any rearrangement of a topology that was run before reuses its row. */
  lemma RearrangedRunReusesRow(stored: seq<Stored>, t: Topology, u: Topology)
    requires t.name == u.name && SameContents(t, u)
    ensures var (after, id) := Persisted(stored, t); Persisted(after, u) == (after, id)
  {
    FingerprintIsCanonical(t, u);
    var (after, id) := Persisted(stored, t);
    SameShapeSameRow(after, t, u);
    if FindSame(stored, t).None? { assert after[..|after| - 1] == stored; }
  }

  ghost predicate IsSame(s: Stored, t: Topology) {
    s.topology.name == t.name && SameContents(s.topology, t)
  }

  /** The search finds the newest row of that name and contents, and fails only if there is none. */
  lemma {:induction false} FindsNewestSame(stored: seq<Stored>, t: Topology)
    ensures match FindSame(stored, t)
            case None => forall i :: 0 <= i < |stored| ==> !IsSame(stored[i], t)
            case Some(id) => exists i :: 0 <= i < |stored| && stored[i].id == id && IsSame(stored[i], t)
                               && forall j :: i < j < |stored| ==> !IsSame(stored[j], t)
  {
    hide IsSame;
    if stored != [] {
      var n := |stored| - 1;
      SameIffCanon(stored[n], t);
      FindsNewestSame(stored[..n], t);
      assert forall i :: 0 <= i < n ==> stored[..n][i] == stored[i];
    }
  }

  lemma SameIffCanon(s: Stored, t: Topology)
    ensures IsSame(s, t) <==> s.topology.name == t.name && CanonOf(s.topology) == CanonOf(t)
  {
    hide CanonOf, SameContents;
    FingerprintIsCanonical(s.topology, t);
  }

  /** Running a topology keeps ids increasing and every row, and leaves a row of its shape under the id answered. */
  lemma PersistKeepsIds(stored: seq<Stored>, t: Topology)
    requires forall i, j :: 0 <= i < j < |stored| ==> stored[i].id < stored[j].id
    ensures var (after, id) := Persisted(stored, t);
            && stored <= after && (forall i, j :: 0 <= i < j < |after| ==> after[i].id < after[j].id)
            && exists s :: s in after && s.id == id && IsSame(s, t)
  {
    hide IsSame, FindSame;
    FindsNewestSame(stored, t);
    var (after, id) := Persisted(stored, t);
    if FindSame(stored, t).None? {
      assert after[|stored|] == Stored(id, t);
      SameAsItself(id, t);
    } else {
      var i :| 0 <= i < |stored| && stored[i].id == id && IsSame(stored[i], t);
      assert stored[i] in after;
    }
  }

  lemma SameAsItself(id: nat, t: Topology)
    ensures IsSame(Stored(id, t), t)
  {
  }

  /** A different shape never takes over a stored row. */
  lemma {:induction false} FoundRowHasShape(stored: seq<Stored>, t: Topology) returns (i: nat)
    requires FindSame(stored, t).Some?
    ensures i < |stored| && stored[i].id == FindSame(stored, t).value
    ensures stored[i].topology.name == t.name && SameContents(stored[i].topology, t)
  {
    i := |stored| - 1;
    FingerprintIsCanonical(stored[i].topology, t);
    if !(stored[i].topology.name == t.name && CanonOf(stored[i].topology) == CanonOf(t)) {
      i := FoundRowHasShape(stored[..i], t);
    }
  }
}
