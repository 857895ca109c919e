/** Topologies as users write them, and the deployment plans they compile to. */
module Topology {
  import opened Wrappers
  import opened ChainGraph
  import opened Cidr
  import opened Selections
  import Text

  datatype Node = Node(name: string, kind: string)

  datatype Link = Link(src: string, dst: string, subnet: string)

  datatype Rule = Rule(name: string, protocol: string, port: Option<int>, src: string, dst: string)

  /** A missing field is the empty string. */
  datatype Topology = Topology(name: string, nodes: seq<Node>, links: seq<Link>, rules: seq<Rule>)

  datatype NetworkPlan = NetworkPlan(name: string, subnet: string, attached: seq<string>)

  datatype Plan = Plan(name: string, networks: seq<NetworkPlan>, servers: seq<Node>, rules: seq<Rule>)

  /** How the standard library reads a CIDR text: nothing when it is malformed. */
  type CidrReader = string -> Option<Prefix>

  const SUPPORTED_NODE_TYPES := {"host", "router"}
  const SUPPORTED_FIREWALL_PROTOCOLS := {"icmp", "tcp"}

  function Names(nodes: seq<Node>): seq<string> {
    seq(|nodes|, i requires 0 <= i < |nodes| => nodes[i].name)
  }

  function RuleNames(rules: seq<Rule>): seq<string> {
    seq(|rules|, i requires 0 <= i < |rules| => rules[i].name)
  }

  function Edges(links: seq<Link>): seq<Edge> {
    seq(|links|, i requires 0 <= i < |links| => Edge(links[i].src, links[i].dst))
  }

  function Hosts(nodes: seq<Node>): seq<string> {
    if nodes == [] then [] else
      Hosts(nodes[..|nodes| - 1]) + if nodes[|nodes| - 1].kind == "host" then [nodes[|nodes| - 1].name] else []
  }

  // ----- what a topology must satisfy

  ghost predicate NodesFit(nodes: seq<Node>) {
    && (forall i :: 0 <= i < |nodes| ==> nodes[i].name != "" && nodes[i].kind in SUPPORTED_NODE_TYPES)
    && (forall i, j :: 0 <= i < j < |nodes| ==> nodes[i].name != nodes[j].name)
  }

  ghost predicate LinkFits(ip: CidrReader, t: Topology, i: nat)
    requires i < |t.links|
  {
    var l := t.links[i];
    l.src in Names(t.nodes) && l.dst in Names(t.nodes) && l.subnet != "" && ip(Text.Strip(l.subnet)).Some?
  }

  ghost predicate LinksFit(ip: CidrReader, t: Topology) {
    forall i :: 0 <= i < |t.links| ==> LinkFits(ip, t, i)
  }

  ghost function Subnets(ip: CidrReader, t: Topology): (ns: seq<Network>)
    requires LinksFit(ip, t)
    ensures |ns| == |t.links|
  {
    seq(|t.links|, i requires 0 <= i < |t.links| =>
      assert LinkFits(ip, t, i); Mask(ip(Text.Strip(t.links[i].subnet)).value))
  }

  ghost predicate RuleFits(t: Topology, i: nat)
    requires i < |t.rules|
  {
    var r := t.rules[i];
    && r.name != "" && (forall j :: 0 <= j < i ==> t.rules[j].name != r.name)
    && r.protocol in SUPPORTED_FIREWALL_PROTOCOLS && r.src in Names(t.nodes) && r.dst in Names(t.nodes)
  }

  ghost predicate Accepted(ip: CidrReader, t: Topology) {
    && t.name != ""
    && NodesFit(t.nodes)
    && LinksFit(ip, t)
    && Disjoint(Subnets(ip, t))
    && DegreesFit(Edges(t.links)) && !HasCycle(Edges(t.links))
    && forall i :: 0 <= i < |t.rules| ==> RuleFits(t, i)
  }

  // ----- what an accepted topology compiles to

  function NetworkName(t: Topology, i: nat): string {
    t.name + "-net-" + Text.Decimal(i + 1)
  }

  function NetworkOf(t: Topology, i: nat): NetworkPlan
    requires i < |t.links|
  {
    NetworkPlan(NetworkName(t, i), Text.Strip(t.links[i].subnet), [t.links[i].src, t.links[i].dst])
  }

  function PlanOf(t: Topology): Plan {
    Plan(t.name, seq(|t.links|, i requires 0 <= i < |t.links| => NetworkOf(t, i)), t.nodes, t.rules)
  }

  lemma NetworkNamesDiffer(t: Topology, i: nat, j: nat)
    requires NetworkName(t, i) == NetworkName(t, j)
    ensures i == j
  {
    var prefix := t.name + "-net-";
    assert NetworkName(t, i)[|prefix|..] == Text.Decimal(i + 1);
    assert NetworkName(t, j)[|prefix|..] == Text.Decimal(j + 1);
    Text.DecimalInjective(i + 1, j + 1);
  }

  lemma {:induction false} HostsAreNodes(nodes: seq<Node>, h: string)
    ensures h in Hosts(nodes) <==> Node(h, "host") in nodes
  {
    if nodes != [] {
      HostsAreNodes(nodes[..|nodes| - 1], h);
      assert nodes == nodes[..|nodes| - 1] + [nodes[|nodes| - 1]];
    }
  }

  ghost function HostPositions(nodes: seq<Node>): iset<nat> {
    iset i: nat | i < |nodes| && nodes[i].kind == "host"
  }

  ghost predicate NamesAt(nodes: seq<Node>, at: seq<nat>, names: seq<string>) {
    |names| == |at| && forall k :: 0 <= k < |at| ==> at[k] < |nodes| && names[k] == nodes[at[k]].name
  }

  /** The hosts are the names of the nodes of that kind, in node order. */
  lemma {:induction false} HostsInOrder(nodes: seq<Node>) returns (at: seq<nat>)
    ensures Picks(at, |nodes|, HostPositions(nodes)) && NamesAt(nodes, at, Hosts(nodes))
  {
    hide Picks;
    if nodes == [] {
      at := [];
      NonePicked(HostPositions(nodes));
    } else {
      var n := |nodes| - 1;
      at := HostsInOrder(nodes[..n]);
      at := PicksNext(at, n, HostPositions(nodes[..n]), HostPositions(nodes));
    }
  }
}
