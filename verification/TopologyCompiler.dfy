/** `compile_topology`: check nodes, links, address blocks, link graph and rules, then plan. */
module TopologyCompiler {
  import opened Wrappers
  import opened Arithmetic
  import opened ChainGraph
  import opened ChainCover
  import opened CycleSearch
  import opened Cidr
  import opened Topology
  import Text

  datatype CompileError =
    | NoTopologyName
    | NoNodeName(index: nat)
    | NoNodeType(node: string)
    | UnsupportedNodeType(node: string, kind: string)
    | DuplicateNode(node: string)
    | UnknownLinkNode(index: nat, node: string)
    | NoSubnet(index: nat)
    | InvalidSubnet(index: nat, subnet: string)
    | OverlappingSubnets(first: nat, second: nat)
    | UnsupportedGraph(error: GraphError)
    | NoRuleName(index: nat)
    | DuplicateRule(rule: string)
    | UnsupportedProtocol(rule: string, protocol: string)
    | UnknownRuleNode(rule: string, node: string)

  // ----- the fault a phase reports: the first offending entry, by its first failed check

  ghost predicate BlamesNode(t: Topology, e: CompileError, k: nat) {
    && k < |t.nodes| && NodesFit(t.nodes[..k])
    && var n := t.nodes[k];
       if n.name == "" then e == NoNodeName(k + 1)
       else if n.kind == "" then e == NoNodeType(n.name)
       else if n.kind !in SUPPORTED_NODE_TYPES then e == UnsupportedNodeType(n.name, n.kind)
       else e == DuplicateNode(n.name) && n.name in Names(t.nodes[..k])
  }

  ghost predicate BlamesLink(ip: CidrReader, t: Topology, e: CompileError, k: nat) {
    && k < |t.links| && NodesFit(t.nodes) && (forall j :: 0 <= j < k ==> LinkFits(ip, t, j))
    && var l := t.links[k];
       if l.src !in Names(t.nodes) then e == UnknownLinkNode(k + 1, l.src)
       else if l.dst !in Names(t.nodes) then e == UnknownLinkNode(k + 1, l.dst)
       else if l.subnet == "" then e == NoSubnet(k + 1)
       else e == InvalidSubnet(k + 1, l.subnet) && ip(Text.Strip(l.subnet)).None?
  }

  ghost predicate Clash(ip: CidrReader, t: Topology, i: nat, j: nat)
    requires LinksFit(ip, t) && i < |t.links| && j < |t.links|
  {
    var ns := Subnets(ip, t);
    assert LinkFits(ip, t, i) && LinkFits(ip, t, j);
    ns[i].version == ns[j].version && Overlaps(ns[i], ns[j])
  }

  ghost predicate BlamesPair(ip: CidrReader, t: Topology, i: nat, j: nat) {
    && NodesFit(t.nodes) && LinksFit(ip, t) && i < j < |t.links| && Clash(ip, t, i, j)
    && (forall k, l :: 0 <= k < l < |t.links| && (k < i || (k == i && l < j)) ==> !Clash(ip, t, k, l))
  }

  ghost predicate BlamesGraph(ip: CidrReader, t: Topology, g: GraphError) {
    && NodesFit(t.nodes) && LinksFit(ip, t) && Disjoint(Subnets(ip, t))
    && var es := Edges(t.links);
       match g {
         case TooManyLinks(v, count) =>
           Degree(es, v) == count > 2 && forall u :: Degree(es, u) > 2 ==> Text.AtMost(v, u)
         case CyclicLinks(walk) => DegreesFit(es) && HasCycle(es) && ClosesUp(es, walk)
       }
  }

  ghost predicate BlamesRule(ip: CidrReader, t: Topology, e: CompileError, k: nat) {
    && k < |t.rules| && Accepted(ip, t.(rules := t.rules[..k]))
    && var r := t.rules[k];
       if r.name == "" then e == NoRuleName(k + 1)
       else if r.name in RuleNames(t.rules[..k]) then e == DuplicateRule(r.name)
       else if r.protocol !in SUPPORTED_FIREWALL_PROTOCOLS then e == UnsupportedProtocol(r.name, r.protocol)
       else if r.src !in Names(t.nodes) then e == UnknownRuleNode(r.name, r.src)
       else e == UnknownRuleNode(r.name, r.dst) && r.dst !in Names(t.nodes)
  }

  ghost predicate Blames(ip: CidrReader, t: Topology, e: CompileError) {
    match e
    case NoTopologyName => t.name == ""
    case OverlappingSubnets(i, j) => i >= 1 && j >= 1 && BlamesPair(ip, t, i - 1, j - 1)
    case UnsupportedGraph(g) => BlamesGraph(ip, t, g)
    case _ => exists k :: BlamesNode(t, e, k) || BlamesLink(ip, t, e, k) || BlamesRule(ip, t, e, k)
  }

  // ----- the compiler

  method CheckNodes(t: Topology) returns (fault: Option<CompileError>, names: set<string>, servers: seq<Node>)
    ensures fault.None? <==> NodesFit(t.nodes)
    ensures fault.None? ==> servers == t.nodes && forall v :: v in names <==> v in Names(t.nodes)
    ensures fault.Some? ==> exists k :: BlamesNode(t, fault.value, k)
  {
    names, servers := {}, [];
    var i := 0;
    while i < |t.nodes|
      invariant 0 <= i <= |t.nodes|
      invariant NodesFit(t.nodes[..i]) && servers == t.nodes[..i]
      invariant forall v :: v in names <==> v in Names(t.nodes[..i])
    {
      var n := t.nodes[i];
      var e := None;
      if n.name == "" { e := Some(NoNodeName(i + 1)); }
      else if n.kind == "" { e := Some(NoNodeType(n.name)); }
      else if n.kind !in SUPPORTED_NODE_TYPES { e := Some(UnsupportedNodeType(n.name, n.kind)); }
      else if n.name in names { e := Some(DuplicateNode(n.name)); }
      if e.Some? {
        assert BlamesNode(t, e.value, i);
        if n.name in names { var j :| 0 <= j < i && Names(t.nodes[..i])[j] == n.name; }
        return e, names, servers;
      }
      assert n.name !in Names(t.nodes[..i]);
      forall j | 0 <= j < i ensures t.nodes[j].name != n.name { assert Names(t.nodes[..i])[j] == t.nodes[j].name; }
      assert Names(t.nodes[..i + 1]) == Names(t.nodes[..i]) + [n.name];
      names, servers, i := names + {n.name}, servers + [n], i + 1;
    }
    assert t.nodes[..i] == t.nodes;
    fault := None;
  }

  method CheckLinks(ip: CidrReader, t: Topology, names: set<string>)
    returns (fault: Option<CompileError>, nets: seq<Network>)
    requires NodesFit(t.nodes) && forall v :: v in names <==> v in Names(t.nodes)
    ensures fault.None? <==> LinksFit(ip, t)
    ensures fault.None? ==> nets == Subnets(ip, t)
    ensures fault.Some? ==> exists k :: BlamesLink(ip, t, fault.value, k)
  {
    nets := [];
    var i := 0;
    while i < |t.links|
      invariant 0 <= i <= |t.links| && |nets| == i
      invariant forall j :: 0 <= j < i ==>
                  LinkFits(ip, t, j) && nets[j] == Mask(ip(Text.Strip(t.links[j].subnet)).value)
    {
      var l := t.links[i];
      var e := None;
      if l.src !in names { e := Some(UnknownLinkNode(i + 1, l.src)); }
      else if l.dst !in names { e := Some(UnknownLinkNode(i + 1, l.dst)); }
      else if l.subnet == "" { e := Some(NoSubnet(i + 1)); }
      else if ip(Text.Strip(l.subnet)).None? { e := Some(InvalidSubnet(i + 1, l.subnet)); }
      if e.Some? {
        assert BlamesLink(ip, t, e.value, i) && !LinkFits(ip, t, i);
        return e, nets;
      }
      nets, i := nets + [Mask(ip(Text.Strip(l.subnet)).value)], i + 1;
    }
    fault := None;
  }

  lemma SubnetsAreBlocks(ip: CidrReader, t: Topology)
    requires LinksFit(ip, t)
    ensures Blocks(Subnets(ip, t))
  {
    forall i | 0 <= i < |t.links| ensures IsBlock(Subnets(ip, t)[i]) {
      assert LinkFits(ip, t, i);
      MaskIsBlock(ip(Text.Strip(t.links[i].subnet)).value);
    }
  }

  /** Pairs in the order of `itertools.combinations`; versions that differ never clash. */
  method CheckOverlaps(ip: CidrReader, t: Topology, nets: seq<Network>) returns (fault: Option<CompileError>)
    requires NodesFit(t.nodes) && LinksFit(ip, t) && nets == Subnets(ip, t)
    ensures fault.None? <==> Disjoint(nets)
    ensures fault.Some? ==> fault.value.OverlappingSubnets? && Blames(ip, t, fault.value)
  {
    hide Holds, Pow2;
    SubnetsAreBlocks(ip, t);
    var i := 0;
    while i < |nets|
      invariant 0 <= i <= |nets|
      invariant forall k, l :: 0 <= k < l < |nets| && k < i ==> !Clash(ip, t, k, l)
    {
      var j := i + 1;
      while j < |nets|
        invariant i < j <= |nets|
        invariant forall k, l :: 0 <= k < l < |nets| && (k < i || (k == i && l < j)) ==> !Clash(ip, t, k, l)
      {
        if nets[i].version == nets[j].version && Overlaps(nets[i], nets[j]) {
          assert Clash(ip, t, i, j);
          return Some(OverlappingSubnets(i + 1, j + 1));
        }
        j := j + 1;
      }
      i := i + 1;
    }
    NoClashMeansDisjoint(ip, t);
    fault := None;
  }

  lemma NoClashMeansDisjoint(ip: CidrReader, t: Topology)
    requires LinksFit(ip, t) && forall k, l :: 0 <= k < l < |t.links| ==> !Clash(ip, t, k, l)
    ensures Disjoint(Subnets(ip, t))
  {
    hide Overlaps;
    SubnetsAreBlocks(ip, t);
    var nets := Subnets(ip, t);
    forall k, l | 0 <= k < l < |nets| && nets[k].version == nets[l].version ensures !Overlaps(nets[k], nets[l]) {
      assert !Clash(ip, t, k, l);
    }
  }

  method CheckRules(ip: CidrReader, t: Topology, names: set<string>)
    returns (fault: Option<CompileError>, rules: seq<Rule>)
    requires Accepted(ip, t.(rules := [])) && forall v :: v in names <==> v in Names(t.nodes)
    ensures fault.None? <==> Accepted(ip, t)
    ensures fault.None? ==> rules == t.rules
    ensures fault.Some? ==> exists k :: BlamesRule(ip, t, fault.value, k)
  {
    hide HasCycle, DegreesFit, Disjoint, LinksFit;
    rules := [];
    var seen := {};
    var i := 0;
    assert t.rules[..0] == [];
    while i < |t.rules|
      invariant 0 <= i <= |t.rules|
      invariant rules == t.rules[..i] && Accepted(ip, t.(rules := t.rules[..i]))
      invariant forall j :: 0 <= j < i ==> RuleFits(t, j)
      invariant forall v :: v in seen <==> v in RuleNames(t.rules[..i])
    {
      var r := t.rules[i];
      var e := None;
      if r.name == "" { e := Some(NoRuleName(i + 1)); }
      else if r.name in seen { e := Some(DuplicateRule(r.name)); }
      else if r.protocol !in SUPPORTED_FIREWALL_PROTOCOLS { e := Some(UnsupportedProtocol(r.name, r.protocol)); }
      else if r.src !in names { e := Some(UnknownRuleNode(r.name, r.src)); }
      else if r.dst !in names { e := Some(UnknownRuleNode(r.name, r.dst)); }
      if e.Some? {
        assert BlamesRule(ip, t, e.value, i);
        if r.name in seen { var j :| 0 <= j < i && RuleNames(t.rules[..i])[j] == r.name; }
        assert !RuleFits(t, i);
        return e, rules;
      }
      forall j | 0 <= j < i ensures t.rules[j].name != r.name { assert RuleNames(t.rules[..i])[j] == t.rules[j].name; }
      assert RuleFits(t, i);
      PrefixAccepted(ip, t, i + 1);
      assert RuleNames(t.rules[..i + 1]) == RuleNames(t.rules[..i]) + [r.name];
      seen, rules, i := seen + {r.name}, rules + [r], i + 1;
    }
    assert t.rules[..i] == t.rules && t.(rules := t.rules) == t;
    fault := None;
  }

  lemma PrefixAccepted(ip: CidrReader, t: Topology, i: nat)
    requires Accepted(ip, t.(rules := [])) && i <= |t.rules| && forall j :: 0 <= j < i ==> RuleFits(t, j)
    ensures Accepted(ip, t.(rules := t.rules[..i]))
  {
    hide HasCycle, DegreesFit, Disjoint;
    var t0, t' := t.(rules := []), t.(rules := t.rules[..i]);
    assert LinksFit(ip, t') by {
      forall k | 0 <= k < |t.links| ensures LinkFits(ip, t', k) { assert LinkFits(ip, t0, k); }
    }
    assert Subnets(ip, t') == Subnets(ip, t0);
    forall j | 0 <= j < i ensures RuleFits(t', j) { assert RuleFits(t, j); }
  }

  /**
   Succeeds on exactly the acceptable topologies, with the plan read off the topology;
   otherwise reports the first fault of the first phase that has one.
   */
  method CompileTopology(ip: CidrReader, t: Topology) returns (r: Result<Plan, CompileError>)
    ensures r.Ok? <==> Accepted(ip, t)
    ensures r.Ok? ==> r.value == PlanOf(t)
    ensures r.Err? ==> Blames(ip, t, r.error)
  {
    hide HasCycle, Disjoint, Degree, DegreesFit, NodesFit, LinksFit;
    if t.name == "" { return Err(NoTopologyName); }
    var fault, names, servers := CheckNodes(t);
    if fault.Some? { return Err(fault.value); }
    var nets;
    fault, nets := CheckLinks(ip, t, names);
    if fault.Some? { return Err(fault.value); }
    fault := CheckOverlaps(ip, t, nets);
    if fault.Some? { return Err(fault.value); }
    var graphFault := RejectCycles(Edges(t.links));
    if graphFault.Some? { return Err(UnsupportedGraph(graphFault.value)); }
    var networks := PlanNetworks(t);
    WithoutRules(ip, t);
    var rules;
    fault, rules := CheckRules(ip, t, names);
    if fault.Some? { return Err(fault.value); }
    return Ok(Plan(t.name, networks, servers, rules));
  }

  method PlanNetworks(t: Topology) returns (networks: seq<NetworkPlan>)
    ensures |networks| == |t.links| && forall j :: 0 <= j < |t.links| ==> networks[j] == NetworkOf(t, j)
  {
    networks := [];
    var i := 0;
    while i < |t.links|
      invariant 0 <= i <= |t.links|
      invariant |networks| == i && forall j :: 0 <= j < i ==> networks[j] == NetworkOf(t, j)
    {
      var l := t.links[i];
      var name := t.name + "-net-" + Text.Decimal(i + 1);
      networks := networks + [NetworkPlan(name, Text.Strip(l.subnet), [l.src, l.dst])];
      i := i + 1;
    }
  }

  lemma WithoutRules(ip: CidrReader, t: Topology)
    requires t.name != "" && NodesFit(t.nodes) && LinksFit(ip, t) && Disjoint(Subnets(ip, t))
    requires DegreesFit(Edges(t.links)) && !HasCycle(Edges(t.links))
    ensures Accepted(ip, t.(rules := []))
  {
    hide HasCycle, DegreesFit, Disjoint;
    var t0 := t.(rules := []);
    forall k | 0 <= k < |t.links| ensures LinkFits(ip, t0, k) { assert LinkFits(ip, t, k); }
    assert Subnets(ip, t0) == Subnets(ip, t);
  }

  /**
   What acceptance buys: the links thread the nodes into disjoint chains, no address lies in
   two subnets, the subnets of each IP version fit its address space, network names differ.
   */
  lemma AcceptedTopologiesAreChains(ip: CidrReader, t: Topology)
    requires Accepted(ip, t)
    ensures exists cs :: IsChainCover(Edges(t.links), cs)
    ensures forall v :: TotalSize(Subnets(ip, t), v) <= Pow2(Width(v))
    ensures forall i, j, x: nat :: 0 <= i < j < |t.links| && Subnets(ip, t)[i].version == Subnets(ip, t)[j].version
              ==> !(Holds(Subnets(ip, t)[i], x) && Holds(Subnets(ip, t)[j], x))
    ensures forall i, j :: 0 <= i < j < |t.links| ==> PlanOf(t).networks[i].name != PlanOf(t).networks[j].name
  {
    hide HasCycle, DegreesFit, IsChainCover, Holds, Overlaps, Pow2;
    AcceptedGraphsAreChains(Edges(t.links));
    var ns := Subnets(ip, t);
    forall v ensures TotalSize(ns, v) <= Pow2(Width(v)) { BlocksFit(ns, v); }
    forall i, j, x: nat | 0 <= i < j < |t.links| && ns[i].version == ns[j].version
      ensures !(Holds(ns[i], x) && Holds(ns[j], x))
    {
      if Holds(ns[i], x) && Holds(ns[j], x) { AddressHasOneOwner(ns, i, j, x); }
    }
    forall i, j | 0 <= i < j < |t.links| ensures PlanOf(t).networks[i].name != PlanOf(t).networks[j].name {
      if NetworkName(t, i) == NetworkName(t, j) { NetworkNamesDiffer(t, i, j); }
    }
  }

  // ----- the plan is about the links

  /** The address block that planned network `i` asks for. */
  ghost function PlannedBlock(ip: CidrReader, plan: Plan, i: nat): Network
    requires i < |plan.networks| && ip(plan.networks[i].subnet).Some?
  {
    Mask(ip(plan.networks[i].subnet).value)
  }

  /** Planned network `i` is link `i`: its number in the name, its own subnet text, its two ends. */
  lemma PlanFollowsLinks(ip: CidrReader, t: Topology, i: nat)
    requires LinksFit(ip, t) && i < |t.links|
    ensures var plan, l := PlanOf(t), t.links[i];
            && |plan.networks| == |t.links| && Text.IsStripped(l.subnet, plan.networks[i].subnet)
            && ip(plan.networks[i].subnet).Some? && PlannedBlock(ip, plan, i) == Subnets(ip, t)[i]
            && plan.networks[i].attached == [l.src, l.dst]
            && (exists numeral ::
                  plan.networks[i].name == t.name + "-net-" + numeral && Text.ValueOf(numeral) == i + 1)
            && plan.name == t.name && plan.servers == t.nodes && plan.rules == t.rules
  {
    assert LinkFits(ip, t, i);
    Text.StripIsExact(t.links[i].subnet);
    Text.DecimalReads(i + 1);
    hide Text.Strip, Text.Decimal, Text.ValueOf, Text.IsStripped, Mask;
    assert PlanOf(t).networks[i].name == t.name + "-net-" + Text.Decimal(i + 1);
  }

  /** Hence the networks of one IP version that are deployed share no address. */
  lemma PlannedNetworksAreDisjoint(ip: CidrReader, t: Topology, i: nat, j: nat, x: nat)
    requires Accepted(ip, t) && i < |t.links| && j < |t.links|
    ensures var plan := PlanOf(t);
            && |plan.networks| == |t.links| && ip(plan.networks[i].subnet).Some? && ip(plan.networks[j].subnet).Some?
            && var n, m := PlannedBlock(ip, plan, i), PlannedBlock(ip, plan, j);
               n.version == m.version && Holds(n, x) && Holds(m, x) ==> i == j
  {
    PlanFollowsLinks(ip, t, i);
    PlanFollowsLinks(ip, t, j);
    hide HasCycle, DegreesFit, Holds, Overlaps, PlannedBlock, NodesFit, LinksFit, PlanOf;
    var n, m := PlannedBlock(ip, PlanOf(t), i), PlannedBlock(ip, PlanOf(t), j);
    if n.version == m.version && Holds(n, x) && Holds(m, x) { AddressHasOneOwner(Subnets(ip, t), i, j, x); }
  }

  // ----- the link graph in terms of the links

  predicate Connects(l: Link, u: string, v: string) {
    u != v && ((l.src == u && l.dst == v) || (l.src == v && l.dst == u))
  }

  /**
   The links thread the nodes into disjoint chains: each link between different nodes is one
   step of a chain and the only link there, and each step of a chain is a link.
   */
  ghost predicate ThreadsLinks(links: seq<Link>, cs: set<seq<string>>) {
    && (forall c :: c in cs ==> c != [] && Distinct(c))
    && (forall c, d, v :: c in cs && d in cs && v in c && v in d ==> c == d)
    && (forall i, j :: 0 <= i < |links| && 0 <= j < |links| && Connects(links[j], links[i].src, links[i].dst)
          ==> i == j)
    && (forall i :: 0 <= i < |links| && links[i].src != links[i].dst ==> exists c :: c in cs && IsStepOf(c, links[i]))
    && (forall c, k :: c in cs && 0 <= k < |c| - 1 ==> LinkBetween(links, c[k], c[k + 1]))
  }

  ghost predicate IsStepOf(c: seq<string>, l: Link) {
    exists k :: 0 <= k < |c| - 1 && Connects(l, c[k], c[k + 1])
  }

  ghost predicate LinkBetween(links: seq<Link>, u: string, v: string) {
    exists i :: 0 <= i < |links| && Connects(links[i], u, v)
  }

  lemma ThreadIsCover(links: seq<Link>, cs: set<seq<string>>)
    ensures ThreadsLinks(links, cs) <==> IsChainCover(Edges(links), cs)
  {
    var es := Edges(links);
    forall i, u, v | 0 <= i < |links| ensures Joins(es[i], u, v) <==> Connects(links[i], u, v) {}
    forall u, v ensures Adjacent(es, u, v) <==> LinkBetween(links, u, v) {
      if i :| 0 <= i < |links| && Connects(links[i], u, v) { assert Joins(es[i], u, v); }
    }
    forall c, i | c != [] && Distinct(c) && 0 <= i < |links| && links[i].src != links[i].dst
      ensures Step(c, es[i].a, es[i].b) <==> IsStepOf(c, links[i])
    {
      StepIsStep(c, links[i]);
    }
    hide Adjacent, LinkBetween, Step, IsStepOf, Distinct, Joins, Connects;
    forall i | 0 <= i < |links| && links[i].src != links[i].dst
      ensures OnlyLink(es, i) <==>
                forall j :: 0 <= j < |links| && Connects(links[j], links[i].src, links[i].dst) ==> i == j {}
    SelfLinksConnectNothing(links);
  }

  lemma SelfLinksConnectNothing(links: seq<Link>)
    ensures forall i, j :: 0 <= i < |links| && 0 <= j < |links| && links[i].src == links[i].dst ==>
              !Connects(links[j], links[i].src, links[i].dst)
  {
  }

  lemma StepIsStep(c: seq<string>, l: Link)
    requires Distinct(c) && l.src != l.dst
    ensures Step(c, l.src, l.dst) <==> IsStepOf(c, l)
  {
    if i :| 0 <= i < |c| - 1 && StepAt(c, i, l.src, l.dst) { assert Connects(l, c[i], c[i + 1]); }
    if k :| 0 <= k < |c| - 1 && Connects(l, c[k], c[k + 1]) { assert StepAt(c, k, l.src, l.dst); }
  }

  /** The graph check accepts exactly the links that form disjoint chains. */
  lemma AcceptedLinksThread(links: seq<Link>)
    ensures DegreesFit(Edges(links)) && !HasCycle(Edges(links)) <==> exists cs :: ThreadsLinks(links, cs)
  {
    hide DegreesFit, HasCycle, ThreadsLinks, IsChainCover;
    AcceptedGraphsAreChains(Edges(links));
    if cs :| IsChainCover(Edges(links), cs) { ThreadIsCover(links, cs); }
    if cs :| ThreadsLinks(links, cs) { ThreadIsCover(links, cs); }
  }

  // ----- a topology that is accepted

  /** Two hosts on one link. */
  const TWO_HOSTS :=
    Topology("demo", [Node("a", "host"), Node("b", "host")], [Link("a", "b", "10.0.0.0/24")], [])

  lemma TwoHostsAreAccepted(ip: CidrReader)
    requires ip("10.0.0.0/24") == Some(RawPrefix(V4, 167772160, 24))
    ensures Accepted(ip, TWO_HOSTS) && Hosts(TWO_HOSTS.nodes) == ["a", "b"]
  {
    var t := TWO_HOSTS;
    hide HasCycle, DegreesFit, Overlaps, Pow2;
    assert Text.Strip("10.0.0.0/24") == "10.0.0.0/24";
    assert Names(t.nodes) == ["a", "b"];
    assert t.nodes[..1] == [Node("a", "host")] && t.nodes[..1][..0] == [];
    assert Hosts(t.nodes[..1]) == ["a"] && Hosts(t.nodes) == ["a", "b"];
    assert LinkFits(ip, t, 0);
    OneLinkIsChain("a", "b");
    assert Edges(t.links) == [Edge("a", "b")];
    SubnetsAreBlocks(ip, t);
  }
}
