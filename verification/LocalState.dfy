/** The `state.json` snapshot of deployments, keyed by topology id. */
module LocalState {
  import opened Wrappers
  import opened ResourceTypes
  import opened Selections
  import Text

  /** One deployment row of the database. */
  datatype Row = Row(id: nat, topologyId: nat, rtype: string, name: string, rid: string)

  /** What a row, a snapshot item and a create call agree on. */
  datatype Handle = Handle(rtype: string, name: string, rid: string)

  /** A snapshot item as read back: a missing name is `None`, other missing fields are empty. */
  datatype Item = Item(rtype: string, name: Option<string>, rid: string)

  datatype Groups = Groups(vpc: seq<string>, subnets: seq<string>, instances: seq<string>)

  datatype Entry = Entry(topologyId: Option<nat>, topologyName: string, runId: Option<int>,
                         status: string, groups: Groups, resources: seq<Item>)

  type Deployments = map<string, Entry>

  function KeyOf(topologyId: nat): string {
    Text.Decimal(topologyId)
  }

  function HandleOf(r: Row): Handle {
    Handle(r.rtype, r.name, r.rid)
  }

  function HandlesOf(rows: seq<Row>): seq<Handle> {
    seq(|rows|, i requires 0 <= i < |rows| => HandleOf(rows[i]))
  }

  function ItemOf(h: Handle): Item {
    Item(h.rtype, Some(h.name), h.rid)
  }

  function ItemsOf(hs: seq<Handle>): seq<Item> {
    seq(|hs|, i requires 0 <= i < |hs| => ItemOf(hs[i]))
  }

  predicate Readable(i: Item) {
    i.rtype != "" && i.name.Some? && i.rid != ""
  }

  /** The handles that can be rebuilt from a snapshot, in order. */
  function ReadItems(items: seq<Item>): seq<Handle> {
    if items == [] then [] else
      var i := items[|items| - 1];
      ReadItems(items[..|items| - 1]) + if Readable(i) then [Handle(i.rtype, i.name.value, i.rid)] else []
  }

  function IdsWhere(items: seq<Item>, types: set<string>): seq<string> {
    if items == [] then [] else
      var i := items[|items| - 1];
      IdsWhere(items[..|items| - 1], types) + if i.rid != "" && i.rtype in types then [i.rid] else []
  }

  function Classify(items: seq<Item>): Groups {
    Groups(IdsWhere(items, NETWORK_RESOURCE_TYPES + {AWS_VPC}),
           IdsWhere(items, SUBNET_RESOURCE_TYPES),
           IdsWhere(items, INSTANCE_RESOURCE_TYPES))
  }

  function Snapshot(topologyId: nat, name: string, runId: Option<int>, hs: seq<Handle>, status: string): Entry {
    Entry(Some(topologyId), name, runId, status, Classify(ItemsOf(hs)), ItemsOf(hs))
  }

  /** A failed deploy keeps the earlier run id and name where it has none of its own. */
  function FailedSnapshot(d: Deployments, topologyId: nat, name: string, runId: Option<int>, hs: seq<Handle>): Entry {
    var previous := if KeyOf(topologyId) in d then Some(d[KeyOf(topologyId)]) else None;
    var run := if runId.Some? || previous.None? then runId else previous.value.runId;
    var known := if name != "" || previous.None? then name else previous.value.topologyName;
    Snapshot(topologyId, known, run, hs, "FAILED")
  }

  /** Every entry that names a topology is under that topology's key. */
  ghost predicate KeysMatch(d: Deployments) {
    forall k :: k in d && d[k].topologyId.Some? ==> k == KeyOf(d[k].topologyId.value)
  }

  ghost predicate HasActive(d: Deployments, topologyId: nat) {
    KeyOf(topologyId) in d && d[KeyOf(topologyId)].status == "ACTIVE"
  }

  /** `resources_from_local_state`: what hydration and reconcile fall back on. */
  function ActiveHandles(d: Deployments, topologyId: nat): seq<Handle> {
    var k := KeyOf(topologyId);
    if k in d && d[k].status == "ACTIVE" then ReadItems(d[k].resources) else []
  }

  class Store {
    var deployments: Deployments

    constructor (deployments: Deployments)
      ensures this.deployments == deployments
    {
      this.deployments := deployments;
    }

    method RecordDeploySnapshot(topologyId: nat, name: string, runId: Option<int>, rows: seq<Row>, status: string)
      modifies this
      ensures deployments ==
                old(deployments)[KeyOf(topologyId) := Snapshot(topologyId, name, runId, HandlesOf(rows), status)]
    {
      var items := ItemsOf(HandlesOf(rows));
      var groups := ClassifyIds(items);
      deployments := deployments[KeyOf(topologyId) := Entry(Some(topologyId), name, runId, status, groups, items)];
    }

    method RecordDeployFailed(topologyId: nat, name: string, runId: Option<int>, partial: seq<Row>)
      modifies this
      ensures deployments == old(deployments)[KeyOf(topologyId) :=
                               FailedSnapshot(old(deployments), topologyId, name, runId, HandlesOf(partial))]
    {
      var run, known := runId, name;
      if KeyOf(topologyId) in deployments {
        var previous := deployments[KeyOf(topologyId)];
        if run == None { run := previous.runId; }
        if known == "" { known := previous.topologyName; }
      }
      var items := ItemsOf(HandlesOf(partial));
      var groups := ClassifyIds(items);
      deployments := deployments[KeyOf(topologyId) := Entry(Some(topologyId), known, run, "FAILED", groups, items)];
    }

    method RemoveLocalDeployment(topologyId: nat)
      modifies this
      ensures deployments == old(deployments) - {KeyOf(topologyId)}
    {
      deployments := deployments - {KeyOf(topologyId)};
    }

    method ResourcesFromLocalState(topologyId: nat) returns (handles: seq<Handle>)
      ensures handles == ActiveHandles(deployments, topologyId)
    {
      handles := [];
      var k := KeyOf(topologyId);
      if k !in deployments || deployments[k].status != "ACTIVE" { return; }
      handles := ReadAll(deployments[k].resources);
    }
  }

  method ReadAll(items: seq<Item>) returns (handles: seq<Handle>)
    ensures handles == ReadItems(items)
  {
    handles := [];
    var i := 0;
    while i < |items|
      invariant 0 <= i <= |items| && handles == ReadItems(items[..i])
    {
      assert items[..i + 1][..i] == items[..i];
      if Readable(items[i]) { handles := handles + [Handle(items[i].rtype, items[i].name.value, items[i].rid)]; }
      i := i + 1;
    }
    assert items[..i] == items;
  }

  method ClassifyIds(items: seq<Item>) returns (groups: Groups)
    ensures groups == Classify(items)
  {
    groups := Groups([], [], []);
    var i := 0;
    while i < |items|
      invariant 0 <= i <= |items| && groups == Classify(items[..i])
    {
      assert items[..i + 1][..i] == items[..i];
      var item := items[i];
      if item.rid != "" {
        if item.rtype == AWS_VPC || item.rtype in NETWORK_RESOURCE_TYPES {
          groups := groups.(vpc := groups.vpc + [item.rid]);
        } else if item.rtype in SUBNET_RESOURCE_TYPES {
          groups := groups.(subnets := groups.subnets + [item.rid]);
        } else if item.rtype in INSTANCE_RESOURCE_TYPES {
          groups := groups.(instances := groups.instances + [item.rid]);
        }
      }
      i := i + 1;
    }
    assert items[..i] == items;
  }

  // ----- reading undoes writing

  lemma {:induction false} ReadUndoesWrite(hs: seq<Handle>)
    requires forall i :: 0 <= i < |hs| ==> hs[i].rtype != "" && hs[i].rid != ""
    ensures ReadItems(ItemsOf(hs)) == hs
  {
    if hs != [] {
      var k := |hs| - 1;
      ReadUndoesWrite(hs[..k]);
      assert ItemsOf(hs)[..k] == ItemsOf(hs[..k]);
      assert ItemsOf(hs)[k] == ItemOf(hs[k]);
    }
  }

  lemma KeysDiffer(a: nat, b: nat)
    requires KeyOf(a) == KeyOf(b)
    ensures a == b
  {
    Text.DecimalInjective(a, b);
  }

  /** Writing an ACTIVE snapshot and reading it back is the identity, and touches no other topology. */
  lemma SnapshotRoundTrip(d: Deployments, topologyId: nat, name: string, runId: Option<int>, hs: seq<Handle>,
                          other: nat)
    requires forall i :: 0 <= i < |hs| ==> hs[i].rtype != "" && hs[i].rid != ""
    ensures var d' := d[KeyOf(topologyId) := Snapshot(topologyId, name, runId, hs, "ACTIVE")];
            && ActiveHandles(d', topologyId) == hs
            && (other != topologyId ==> ActiveHandles(d', other) == ActiveHandles(d, other)
                                        && (HasActive(d', other) <==> HasActive(d, other)))
  {
    ReadUndoesWrite(hs);
    if other != topologyId && KeyOf(other) == KeyOf(topologyId) { KeysDiffer(other, topologyId); }
  }

  // ----- what is read and how ids are grouped

  /** The items with a type, a name (an empty one will do) and an id. */
  ghost function ReadablePositions(items: seq<Item>): iset<nat> {
    iset i: nat | i < |items| && items[i].rtype != "" && items[i].name != None && items[i].rid != ""
  }

  ghost predicate HandlesAt(items: seq<Item>, at: seq<nat>, hs: seq<Handle>) {
    && |hs| == |at|
    && forall k :: 0 <= k < |at| ==>
         && at[k] < |items| && items[at[k]].name.Some?
         && hs[k] == Handle(items[at[k]].rtype, items[at[k]].name.value, items[at[k]].rid)
  }

  /** The handles read are those of the readable items, in item order. */
  lemma {:induction false} ReadItemsInOrder(items: seq<Item>) returns (at: seq<nat>)
    ensures Picks(at, |items|, ReadablePositions(items)) && HandlesAt(items, at, ReadItems(items))
  {
    hide Picks;
    if items == [] {
      at := [];
      NonePicked(ReadablePositions(items));
    } else {
      var n := |items| - 1;
      at := ReadItemsInOrder(items[..n]);
      at := PicksNext(at, n, ReadablePositions(items[..n]), ReadablePositions(items));
    }
  }

  ghost function PositionsOf(items: seq<Item>, types: set<string>): iset<nat> {
    iset i: nat | i < |items| && items[i].rid != "" && items[i].rtype in types
  }

  ghost predicate IdsAt(items: seq<Item>, at: seq<nat>, ids: seq<string>) {
    |ids| == |at| && forall k :: 0 <= k < |at| ==> at[k] < |items| && ids[k] == items[at[k]].rid
  }

  /** One group: the non-empty ids of the items with such a type, in item order. */
  ghost predicate IsGroup(items: seq<Item>, types: set<string>, ids: seq<string>) {
    exists at :: Picks(at, |items|, PositionsOf(items, types)) && IdsAt(items, at, ids)
  }

  lemma {:induction false} IdsWhereIsGroup(items: seq<Item>, types: set<string>)
    ensures IsGroup(items, types, IdsWhere(items, types))
  {
    hide Picks;
    if items == [] {
      NonePicked(PositionsOf(items, types));
      assert IdsAt(items, [], IdsWhere(items, types));
    } else {
      var n := |items| - 1;
      IdsWhereIsGroup(items[..n], types);
      var at :| Picks(at, n, PositionsOf(items[..n], types)) && IdsAt(items[..n], at, IdsWhere(items[..n], types));
      at := PicksNext(at, n, PositionsOf(items[..n], types), PositionsOf(items, types));
      assert IdsAt(items, at, IdsWhere(items, types));
    }
  }

  lemma ClassifyIsByType(items: seq<Item>)
    ensures IsGroup(items, {"aws_vpc", "neutron_network", "provider_network"}, Classify(items).vpc)
    ensures IsGroup(items, {"aws_subnet", "neutron_subnet", "provider_subnet"}, Classify(items).subnets)
    ensures IsGroup(items, {"aws_instance", "nova_server", "provider_instance"}, Classify(items).instances)
  {
    hide IsGroup, IdsWhere;
    IdsWhereIsGroup(items, NETWORK_RESOURCE_TYPES + {AWS_VPC});
    IdsWhereIsGroup(items, SUBNET_RESOURCE_TYPES);
    IdsWhereIsGroup(items, INSTANCE_RESOURCE_TYPES);
    assert NETWORK_RESOURCE_TYPES + {AWS_VPC} == {"aws_vpc", "neutron_network", "provider_network"};
  }

  /** A failed deploy's entry: FAILED, with its own run id and name or, lacking those, the earlier entry's. */
  lemma FailedEntryKeeps(d: Deployments, topologyId: nat, name: string, runId: Option<int>, hs: seq<Handle>)
    ensures var e := FailedSnapshot(d, topologyId, name, runId, hs);
            && e.status == "FAILED" && e.topologyId == Some(topologyId) && e.resources == ItemsOf(hs)
            && (runId.Some? ==> e.runId == runId) && (name != "" ==> e.topologyName == name)
            && (KeyOf(topologyId) !in d ==> e.runId == runId && e.topologyName == name)
            && (KeyOf(topologyId) in d ==>
                  && (runId == None ==> e.runId == d[KeyOf(topologyId)].runId)
                  && (name == "" ==> e.topologyName == d[KeyOf(topologyId)].topologyName))
  {
    hide KeyOf, Classify;
  }
}
