/**
 `run_cleanup_janitor`: tear down resources that an ACTIVE snapshot entry lists but the
 database does not know, and drop those entries.
 */
module Janitor {
  import opened Selections
  import opened Sorting
  import opened Providers
  import opened LocalState
  import opened ResourceTypes
  import opened Deployment
  import opened Rollback

  datatype Action = CleanedOrphan(topologyId: nat) | Failed(topologyId: nat)

  /** In-memory rows for a snapshot's handles: they have no primary key. */
  function Unsaved(topologyId: nat, hs: seq<Handle>): seq<Row> {
    seq(|hs|, i requires 0 <= i < |hs| => Row(0, topologyId, hs[i].rtype, hs[i].name, hs[i].rid))
  }

  /** An entry the janitor acts on: ACTIVE, naming a topology without rows, with a readable handle. */
  predicate IsOrphan(rows: seq<Row>, e: Entry) {
    e.status == "ACTIVE" && e.topologyId.Some? && RowsOf(rows, e.topologyId.value) == [] && ReadItems(e.resources) != []
  }

  /** One entry, as it stood when the run began. */
  ghost function Sweep(w: World, e: Entry): (World, seq<Action>) {
    if !IsOrphan(w.rows, e) then (w, []) else
      var id := e.topologyId.value;
      var (p, ok) := Teardown(w.provider, Unsaved(id, ReadItems(e.resources)));
      if ok then
        (w.(provider := p, deployments := w.deployments - {KeyOf(id)},
            status := if id in w.status then w.status[id := "CREATED"] else w.status), [CleanedOrphan(id)])
      else (w.(provider := p), [Failed(id)])
  }

  ghost function SweepAll(w: World, entries: seq<Entry>): (World, seq<Action>) {
    if entries == [] then (w, []) else
      var (w1, done) := SweepAll(w, entries[..|entries| - 1]);
      var (w2, more) := Sweep(w1, entries[|entries| - 1]);
      (w2, done + more)
  }

  /** Every entry once, in some order. */
  ghost predicate Lists(entries: seq<Entry>, keys: seq<string>, d: Deployments) {
    && |keys| == |entries| && (forall k :: k in keys <==> k in d)
    && (forall i, j :: 0 <= i < j < |keys| ==> keys[i] != keys[j])
    && (forall i :: 0 <= i < |keys| ==> entries[i] == d[keys[i]])
  }

  method SweepEntry(session: Session, store: Store, provider: Provider, e: Entry) returns (actions: seq<Action>)
    modifies session, store, provider
    ensures (View(session, store, provider), actions) == Sweep(old(View(session, store, provider)), e)
  {
    hide Teardown;
    if e.status != "ACTIVE" || e.topologyId.None? { return []; }
    var id := e.topologyId.value;
    var rows := session.ListTopologyResources(id);
    if rows != [] { return []; }
    var handles := ReadAll(e.resources);
    if handles == [] { return []; }
    var ok := TeardownProviderResources(provider, Unsaved(id, handles));
    if !ok { return [Failed(id)]; }
    store.RemoveLocalDeployment(id);
    if id in session.status { session.SetStatus(id, "CREATED"); }
    return [CleanedOrphan(id)];
  }

  /** The entries are visited in an order of the caller's file system; any order will do. */
  method RunCleanupJanitor(session: Session, store: Store, provider: Provider)
    returns (actions: seq<Action>, ghost entries: seq<Entry>, ghost keys: seq<string>)
    modifies session, store, provider
    ensures Lists(entries, keys, old(store.deployments))
    ensures (View(session, store, provider), actions) == SweepAll(old(View(session, store, provider)), entries)
  {
    hide Sweep;
    var state := store.deployments;
    var todo := state.Keys;
    actions, entries, keys := [], [], [];
    while todo != {}
      invariant todo <= state.Keys && |keys| == |entries|
      invariant forall k :: k in keys <==> k in state && k !in todo
      invariant forall i, j :: 0 <= i < j < |keys| ==> keys[i] != keys[j]
      invariant forall i :: 0 <= i < |keys| ==> entries[i] == state[keys[i]]
      invariant (View(session, store, provider), actions) == SweepAll(old(View(session, store, provider)), entries)
      decreases todo
    {
      var k :| k in todo;
      var more := SweepEntry(session, store, provider, state[k]);
      assert (entries + [state[k]])[..|entries|] == entries;
      actions, entries, keys, todo := actions + more, entries + [state[k]], keys + [k], todo - {k};
    }
  }

  // ----- what a run does

  /** The teardown an orphan gets, from whatever the provider was when its turn came. */
  ghost predicate TornDown(p: State, e: Entry) {
    e.topologyId.Some? && Teardown(p, Unsaved(e.topologyId.value, ReadItems(e.resources))).1
  }

  /** The entry under key `k` was an orphan and its teardown went through. */
  ghost predicate Removed(w: World, entries: seq<Entry>, keys: seq<string>, k: string)
    requires |keys| == |entries|
  {
    exists i :: 0 <= i < |keys| && keys[i] == k && IsOrphan(w.rows, entries[i])
                && TornDown(SweepAll(w, entries[..i]).0.provider, entries[i])
  }

  ghost predicate Visits(entries: seq<Entry>, keys: seq<string>, d: Deployments) {
    && |keys| == |entries| && (forall i, j :: 0 <= i < j < |keys| ==> keys[i] != keys[j])
    && (forall i :: 0 <= i < |keys| ==> keys[i] in d && entries[i] == d[keys[i]])
  }

  lemma SweepEffect(w: World, e: Entry, k: string)
    requires e.topologyId.Some? ==> k == KeyOf(e.topologyId.value)
    ensures var (w', actions) := Sweep(w, e);
            && w'.rows == w.rows
            && (if IsOrphan(w.rows, e) && TornDown(w.provider, e)
                then w'.deployments == w.deployments - {k} && actions == [CleanedOrphan(e.topologyId.value)]
                else w'.deployments == w.deployments && forall id :: CleanedOrphan(id) !in actions)
            && StatusFollows(w.status, w'.status, actions)
  {
    hide Teardown, ReadItems, RowsOf, KeyOf;
  }

  /** Known topologies that were cleaned are back to CREATED; no other status changes. */
  ghost predicate StatusFollows(status: map<nat, string>, status': map<nat, string>, actions: seq<Action>) {
    && status'.Keys == status.Keys
    && forall id :: id in status ==> status'[id] == if CleanedOrphan(id) in actions then "CREATED" else status[id]
  }

  /** Every entry that went is reported, under its own topology id. */
  ghost predicate Reported(d: Deployments, d': Deployments, actions: seq<Action>) {
    && (forall id :: CleanedOrphan(id) in actions ==> KeyOf(id) in d && KeyOf(id) !in d')
    && (forall k :: k in d && k !in d' ==> d[k].topologyId.Some? && CleanedOrphan(d[k].topologyId.value) in actions)
  }

  lemma RemovedGrows(w: World, entries: seq<Entry>, keys: seq<string>, k: string)
    requires |keys| == |entries| > 0
    ensures var n := |keys| - 1;
            Removed(w, entries, keys, k) <==>
              || Removed(w, entries[..n], keys[..n], k)
              || (keys[n] == k && IsOrphan(w.rows, entries[n])
                  && TornDown(SweepAll(w, entries[..n]).0.provider, entries[n]))
  {
    hide SweepAll, TornDown, IsOrphan;
    var n := |keys| - 1;
    forall i | 0 <= i < n
      ensures keys[..n][i] == keys[i] && entries[..n][i] == entries[i] && entries[..n][..i] == entries[..i] {}
  }

  /** `d'` is `d` without the entries at the keys that are gone. */
  ghost predicate LacksOnly(d: Deployments, d': Deployments, gone: iset<string>) {
    && (forall k :: k in d' <==> k in d && k !in gone)
    && (forall k :: k in d' ==> d'[k] == d[k])
  }

  ghost function RemovedKeys(w: World, entries: seq<Entry>, keys: seq<string>): iset<string>
    requires |keys| == |entries|
  {
    iset k | Removed(w, entries, keys, k)
  }

  lemma {:induction false} SweepAllEffect(w: World, entries: seq<Entry>, keys: seq<string>)
    requires Visits(entries, keys, w.deployments) && KeysMatch(w.deployments)
    ensures var (w', actions) := SweepAll(w, entries);
            && w'.rows == w.rows
            && (forall k :: k in w'.deployments <==> (k in w.deployments && !Removed(w, entries, keys, k)))
            && (forall k :: k in w'.deployments ==> w'.deployments[k] == w.deployments[k])
  {
    SweepAllLacks(w, entries, keys);
    hide SweepAll, Removed;
  }

  /** What the turn of entry `e`, under key `k`, takes away. */
  ghost function GoneNext(w: World, e: Entry, k: string): iset<string> {
    if IsOrphan(w.rows, e) && TornDown(w.provider, e) then iset{k} else iset{}
  }

  lemma LacksBoth(d: Deployments, d1: Deployments, d2: Deployments, gone: iset<string>, more: iset<string>)
    requires LacksOnly(d, d1, gone) && LacksOnly(d1, d2, more)
    ensures LacksOnly(d, d2, gone + more)
  {
  }

  lemma SweepLacks(w: World, e: Entry, k: string)
    requires e.topologyId.Some? ==> k == KeyOf(e.topologyId.value)
    ensures Sweep(w, e).0.rows == w.rows && LacksOnly(w.deployments, Sweep(w, e).0.deployments, GoneNext(w, e, k))
  {
    SweepEffect(w, e, k);
    hide Sweep, TornDown, KeyOf, IsOrphan, StatusFollows;
  }

  lemma RemovedKeysNext(w: World, entries: seq<Entry>, keys: seq<string>)
    requires |keys| == |entries| > 0 && SweepAll(w, entries[..|entries| - 1]).0.rows == w.rows
    ensures var n := |keys| - 1;
            RemovedKeys(w, entries, keys)
              == RemovedKeys(w, entries[..n], keys[..n]) + GoneNext(SweepAll(w, entries[..n]).0, entries[n], keys[n])
  {
    hide Removed, SweepAll, TornDown, IsOrphan;
    forall j { RemovedGrows(w, entries, keys, j); }
  }

  lemma KeyOfVisited(entries: seq<Entry>, keys: seq<string>, d: Deployments)
    requires entries != [] && Visits(entries, keys, d) && KeysMatch(d)
    ensures var n := |entries| - 1;
            && Visits(entries[..n], keys[..n], d)
            && (entries[n].topologyId.Some? ==> keys[n] == KeyOf(entries[n].topologyId.value))
  {
    hide KeyOf;
    assert d[keys[|entries| - 1]] == entries[|entries| - 1];
  }

  lemma {:induction false} SweepAllLacks(w: World, entries: seq<Entry>, keys: seq<string>)
    requires Visits(entries, keys, w.deployments) && KeysMatch(w.deployments)
    ensures var w' := SweepAll(w, entries).0;
            w'.rows == w.rows && LacksOnly(w.deployments, w'.deployments, RemovedKeys(w, entries, keys))
  {
    if entries == [] { return; }
    assert |keys| == |entries|;
    hide Visits, KeysMatch, SweepAll, Sweep, LacksOnly, RemovedKeys, GoneNext, KeyOf;
    var n := |entries| - 1;
    KeyOfVisited(entries, keys, w.deployments);
    SweepAllLacks(w, entries[..n], keys[..n]);
    var w1 := SweepAll(w, entries[..n]).0;
    SweepLacks(w1, entries[n], keys[n]);
    LastSwept(w, entries);
    RemovedKeysNext(w, entries, keys);
    LacksBoth(w.deployments, w1.deployments, SweepAll(w, entries).0.deployments,
              RemovedKeys(w, entries[..n], keys[..n]), GoneNext(w1, entries[n], keys[n]));
  }

  lemma LastSwept(w: World, entries: seq<Entry>)
    requires entries != []
    ensures SweepAll(w, entries).0 == Sweep(SweepAll(w, entries[..|entries| - 1]).0, entries[|entries| - 1]).0
  {
    hide Sweep;
  }

  lemma StatusesFollow(s0: map<nat, string>, s1: map<nat, string>, s2: map<nat, string>, done: seq<Action>,
                       more: seq<Action>)
    requires StatusFollows(s0, s1, done) && StatusFollows(s1, s2, more)
    ensures StatusFollows(s0, s2, done + more)
  {
  }

  lemma ReportsJoin(d: Deployments, d1: Deployments, d2: Deployments, done: seq<Action>, more: seq<Action>)
    requires Reported(d, d1, done) && Reported(d1, d2, more) && d1.Keys <= d.Keys && d2.Keys <= d1.Keys
    requires forall k :: k in d1 ==> d1[k] == d[k]
    ensures Reported(d, d2, done + more)
  {
    hide KeyOf;
  }

  lemma SweepReports(w: World, e: Entry, k: string)
    requires k in w.deployments ==> w.deployments[k] == e
    requires KeysMatch(w.deployments) && (e.topologyId.Some? ==> k == KeyOf(e.topologyId.value))
    requires IsOrphan(w.rows, e) ==> k in w.deployments
    ensures Reported(w.deployments, Sweep(w, e).0.deployments, Sweep(w, e).1)
  {
    hide Sweep, TornDown, KeyOf, IsOrphan, StatusFollows;
    SweepEffect(w, e, k);
    var (w', actions) := Sweep(w, e);
    if TornDown(w.provider, e) && IsOrphan(w.rows, e) {
      assert e.topologyId.Some? by { OrphanIsNamed(w.rows, e); }
      assert CleanedOrphan(e.topologyId.value) in actions;
      forall id | CleanedOrphan(id) in actions ensures id == e.topologyId.value {}
    }
  }

  lemma OrphanIsNamed(rows: seq<Row>, e: Entry)
    requires IsOrphan(rows, e)
    ensures e.topologyId.Some?
  {
  }

  lemma {:induction false} SweepAllReports(w: World, entries: seq<Entry>, keys: seq<string>)
    requires Visits(entries, keys, w.deployments) && KeysMatch(w.deployments)
    ensures var (w', actions) := SweepAll(w, entries);
            Reported(w.deployments, w'.deployments, actions) && StatusFollows(w.status, w'.status, actions)
  {
    if entries == [] { return; }
    hide Sweep, TornDown, KeyOf, Removed, IsOrphan, StatusFollows, Reported;
    var n := |entries| - 1;
    var (w1, done) := SweepAll(w, entries[..n]);
    SweepAllReports(w, entries[..n], keys[..n]);
    SweepAllEffect(w, entries[..n], keys[..n]);
    NotYetRemoved(w, entries, keys);
    var e, k := entries[n], keys[n];
    SweepReports(w1, e, k);
    SweepEffect(w1, e, k);
    var (w2, more) := Sweep(w1, e);
    assert w2.deployments.Keys <= w1.deployments.Keys;
    ReportsJoin(w.deployments, w1.deployments, w2.deployments, done, more);
    StatusesFollow(w.status, w1.status, w2.status, done, more);
  }

  lemma NotYetRemoved(w: World, entries: seq<Entry>, keys: seq<string>)
    requires Visits(entries, keys, w.deployments) && |keys| > 0
    ensures var n := |keys| - 1; !Removed(w, entries[..n], keys[..n], keys[n])
  {
    hide SweepAll, TornDown, IsOrphan;
    var n := |keys| - 1;
    assert forall i :: 0 <= i < n ==> keys[..n][i] == keys[i];
  }

  /** What is deleted for an entry, in order: its readable handles, dependents first. */
  ghost function DeletedIds(e: Entry): seq<string> {
    RidsOf(Sort(Unsaved(if e.topologyId.Some? then e.topologyId.value else 0, ReadItems(e.resources)), DeleteFirst))
  }

  /** The entry is ACTIVE, names a topology that has no row, and has an item with type, name and id. */
  ghost predicate Orphaned(rows: seq<Row>, e: Entry) {
    && e.status == "ACTIVE" && e.topologyId.Some? && (forall r :: r in rows ==> r.topologyId != e.topologyId.value)
    && exists i :: i in e.resources && i.rtype != "" && i.name.Some? && i.rid != ""
  }

  lemma OrphanedIsOrphan(rows: seq<Row>, e: Entry)
    ensures IsOrphan(rows, e) <==> Orphaned(rows, e)
  {
    hide RowsOf, ReadItems, Picks;
    if e.topologyId.Some? { RowlessHasNone(rows, e.topologyId.value); }
    ReadsSomething(e.resources);
  }

  lemma ReadsSomething(items: seq<Item>)
    ensures ReadItems(items) != [] <==> exists i :: i in items && i.rtype != "" && i.name.Some? && i.rid != ""
  {
    hide ReadItems;
    var at := ReadItemsInOrder(items);
    if i :| i in items && i.rtype != "" && i.name.Some? && i.rid != "" {
      var k :| 0 <= k < |items| && items[k] == i;
      assert k in ReadablePositions(items) && k in at;
    }
    if ReadItems(items) != [] { assert at[0] in ReadablePositions(items) && items[at[0]] in items; }
  }

  lemma TornDownIffNeverRefused(p: State, e: Entry)
    requires e.topologyId.Some?
    ensures TornDown(p, e) <==> NeverRefused(p, DeletedIds(e))
  {
    hide Teardown, NeverRefused, Sort, ReadItems;
    TeardownIffNeverRefused(p, Unsaved(e.topologyId.value, ReadItems(e.resources)));
  }

  lemma RemovedAt(w: World, entries: seq<Entry>, keys: seq<string>, i: nat)
    requires Visits(entries, keys, w.deployments) && i < |keys|
    ensures Removed(w, entries, keys, keys[i]) <==>
              Orphaned(w.rows, entries[i]) && NeverRefused(SweepAll(w, entries[..i]).0.provider, DeletedIds(entries[i]))
  {
    hide SweepAll, TornDown, IsOrphan, Orphaned, NeverRefused, DeletedIds;
    OrphanedIsOrphan(w.rows, entries[i]);
    OrphanedIsNamed(w.rows, entries[i]);
    if entries[i].topologyId.Some? { TornDownIffNeverRefused(SweepAll(w, entries[..i]).0.provider, entries[i]); }
  }

  lemma OrphanedIsNamed(rows: seq<Row>, e: Entry)
    ensures Orphaned(rows, e) ==> e.topologyId.Some?
  {
  }

  /**
   One run removes exactly the entries that are ACTIVE, name a topology without rows, have an
   item with type, name and id, and whose handles were deleted in order without a refusal.  It
   leaves every other entry and all rows alone, and a later run cleans nothing that this one cleaned.
   */
  lemma JanitorRemovesExactlyOrphans(w: World, entries: seq<Entry>, keys: seq<string>,
                                     later: World, entries': seq<Entry>, keys': seq<string>)
    requires KeysMatch(w.deployments) && Lists(entries, keys, w.deployments)
    requires later.deployments == SweepAll(w, entries).0.deployments && Lists(entries', keys', later.deployments)
    ensures var (w', actions) := SweepAll(w, entries);
            && w'.rows == w.rows
            && (forall i :: 0 <= i < |keys| ==>
                  (keys[i] !in w'.deployments <==>
                     && entries[i].status == "ACTIVE" && entries[i].topologyId.Some?
                     && (forall r :: r in w.rows ==> r.topologyId != entries[i].topologyId.value)
                     && (exists item :: item in entries[i].resources
                                        && item.rtype != "" && item.name.Some? && item.rid != "")
                     && NeverRefused(SweepAll(w, entries[..i]).0.provider, DeletedIds(entries[i]))))
            && (forall k :: (k in w.deployments && k !in w'.deployments) <==>
                  k in w.deployments && Removed(w, entries, keys, k))
            && (forall k :: k in w'.deployments ==> k in w.deployments && w'.deployments[k] == w.deployments[k])
            && Reported(w.deployments, w'.deployments, actions) && StatusFollows(w.status, w'.status, actions)
            && (forall id :: CleanedOrphan(id) in actions ==> CleanedOrphan(id) !in SweepAll(later, entries').1)
  {
    hide Sweep, SweepAll, KeyOf, StatusFollows, Removed, NeverRefused, DeletedIds, Orphaned;
    SweepAllEffect(w, entries, keys);
    SweepAllReports(w, entries, keys);
    SweepAllReports(later, entries', keys');
    forall i | 0 <= i < |keys|
      ensures keys[i] !in SweepAll(w, entries).0.deployments <==>
                Orphaned(w.rows, entries[i])
                && NeverRefused(SweepAll(w, entries[..i]).0.provider, DeletedIds(entries[i]))
    {
      RemovedAt(w, entries, keys, i);
    }
    OrphanedMeans(w.rows, entries);
  }

  lemma OrphanedMeans(rows: seq<Row>, entries: seq<Entry>)
    ensures forall i :: 0 <= i < |entries| ==>
              (Orphaned(rows, entries[i]) <==>
                 && entries[i].status == "ACTIVE" && entries[i].topologyId.Some?
                 && (forall r :: r in rows ==> r.topologyId != entries[i].topologyId.value)
                 && (exists item :: item in entries[i].resources
                                    && item.rtype != "" && item.name.Some? && item.rid != ""))
  {
  }

  ghost function Orphans(rows: seq<Row>, entries: seq<Entry>): iset<nat> {
    iset i: nat | i < |entries| && Orphaned(rows, entries[i])
  }

  /** The report's line about entry `i`: cleaned, or failed if a delete was refused. */
  ghost predicate IsLineFor(w: World, entries: seq<Entry>, i: nat, line: Action) {
    && i < |entries| && entries[i].topologyId.Some?
    && var id := entries[i].topologyId.value;
       line == if NeverRefused(SweepAll(w, entries[..i]).0.provider, DeletedIds(entries[i])) then CleanedOrphan(id)
               else Failed(id)
  }

  ghost predicate LinesAt(w: World, entries: seq<Entry>, at: seq<nat>, lines: seq<Action>) {
    |lines| == |at| && forall k :: 0 <= k < |at| ==> IsLineFor(w, entries, at[k], lines[k])
  }

  /** The report has one line for each orphan, in visiting order. */
  lemma {:induction false} EachOrphanIsReported(w: World, entries: seq<Entry>) returns (at: seq<nat>)
    ensures Picks(at, |entries|, Orphans(w.rows, entries)) && LinesAt(w, entries, at, SweepAll(w, entries).1)
    ensures SweepAll(w, entries).0.rows == w.rows
  {
    hide Picks, Orphaned, Sweep, IsLineFor;
    if entries == [] {
      at := [];
      NonePicked(Orphans(w.rows, entries));
    } else {
      hide SweepAll, LinesAt;
      var n := |entries| - 1;
      at := EachOrphanIsReported(w, entries[..n]);
      LastLine(w, entries);
      LinesStay(w, entries, at, SweepAll(w, entries[..n]).1);
      var more := Sweep(SweepAll(w, entries[..n]).0, entries[n]).1;
      if more != [] { LinesNext(w, entries, at, SweepAll(w, entries[..n]).1, n, more[0]); }
      SameOrphans(w.rows, entries, n);
      hide Orphans;
      at := PicksNext(at, n, Orphans(w.rows, entries[..n]), Orphans(w.rows, entries));
      assert more == [] || more == [more[0]];
    }
  }

  lemma SameOrphans(rows: seq<Row>, entries: seq<Entry>, n: nat)
    requires n <= |entries|
    ensures forall i: nat :: i < n ==> (i in Orphans(rows, entries[..n]) <==> i in Orphans(rows, entries))
  {
    hide Orphaned;
  }

  lemma LinesNext(w: World, entries: seq<Entry>, at: seq<nat>, lines: seq<Action>, i: nat, line: Action)
    requires LinesAt(w, entries, at, lines) && IsLineFor(w, entries, i, line)
    ensures LinesAt(w, entries, at + [i], lines + [line])
  {
    hide IsLineFor;
  }

  lemma LinesStay(w: World, entries: seq<Entry>, at: seq<nat>, lines: seq<Action>)
    requires entries != [] && LinesAt(w, entries[..|entries| - 1], at, lines)
    ensures LinesAt(w, entries, at, lines)
  {
    hide SweepAll, NeverRefused, DeletedIds;
    var n := |entries| - 1;
    forall k | 0 <= k < |at| ensures IsLineFor(w, entries, at[k], lines[k]) {
      assert IsLineFor(w, entries[..n], at[k], lines[k]);
      assert entries[..n][..at[k]] == entries[..at[k]];
    }
  }

  lemma LastLine(w: World, entries: seq<Entry>)
    requires entries != [] && SweepAll(w, entries[..|entries| - 1]).0.rows == w.rows
    ensures var n := |entries| - 1;
            var more := Sweep(SweepAll(w, entries[..n]).0, entries[n]).1;
            && SweepAll(w, entries).1 == SweepAll(w, entries[..n]).1 + more
            && SweepAll(w, entries).0.rows == w.rows
            && (n in Orphans(w.rows, entries) <==> more != [])
            && |more| <= 1 && (more != [] ==> IsLineFor(w, entries, n, more[0]))
  {
    hide Sweep, NeverRefused, DeletedIds, Orphaned;
    SweepReport(SweepAll(w, entries[..|entries| - 1]).0, entries[|entries| - 1]);
  }

  lemma SweepReport(w: World, e: Entry)
    ensures Sweep(w, e).0.rows == w.rows
    ensures if Orphaned(w.rows, e)
            then && e.topologyId.Some?
                 && Sweep(w, e).1 == [if NeverRefused(w.provider, DeletedIds(e)) then CleanedOrphan(e.topologyId.value)
                                      else Failed(e.topologyId.value)]
            else Sweep(w, e).1 == []
  {
    OrphanedIsOrphan(w.rows, e);
    if e.topologyId.Some? { TornDownIffNeverRefused(w.provider, e); }
    hide Teardown, RowsOf, ReadItems, NeverRefused, DeletedIds;
  }

  // ----- which resources a run may touch

  ghost predicate DeletesOnly(p: State, p': State, rids: iset<string>) {
    && p.log <= p'.log
    && forall i :: |p.log| <= i < |p'.log| ==> p'.log[i].DeleteCall? && p'.log[i].id in rids
  }

  lemma {:induction false} DeleteAllLogs(p: State, rows: seq<Row>)
    ensures DeletesOnly(p, DeleteAll(p, rows).0, iset r | r in rows :: r.rid)
    decreases |rows|
  {
    if rows != [] {
      var (p1, ok) := Delete(p, rows[0].rid);
      assert rows == [rows[0]] + rows[1..];
      if ok { DeleteAllLogs(p1, rows[1..]); }
    }
  }

  ghost function OrphanRids(w: World, entries: seq<Entry>): iset<string> {
    iset e, h | e in entries && IsOrphan(w.rows, e) && h in ReadItems(e.resources) :: h.rid
  }

  /** Whatever fails along the way, only handles of orphaned entries are ever deleted. */
  lemma {:induction false} JanitorDeletesOnlyOrphans(w: World, entries: seq<Entry>)
    ensures DeletesOnly(w.provider, SweepAll(w, entries).0.provider, OrphanRids(w, entries))
    ensures SweepAll(w, entries).0.rows == w.rows
  {
    hide ReadItems, RowsOf, Tier, DeleteAll;
    if entries != [] {
      var n := |entries| - 1;
      var w1, e := SweepAll(w, entries[..n]).0, entries[n];
      JanitorDeletesOnlyOrphans(w, entries[..n]);
      if IsOrphan(w.rows, e) {
        var hs := ReadItems(e.resources);
        var rows := Unsaved(e.topologyId.value, hs);
        SortPermutes(rows, DeleteFirst);
        DeleteAllLogs(w1.provider, Sort(rows, DeleteFirst));
        forall r | r in Sort(rows, DeleteFirst) ensures r.rid in OrphanRids(w, entries) {
          var i :| 0 <= i < |rows| && rows[i] == r;
          assert hs[i] in hs && hs[i].rid == r.rid;
        }
      }
    }
  }

  /** Handles without primary keys are still deleted dependents first, and in snapshot order within a type. */
  lemma UnsavedGoDependentsFirst(topologyId: nat, hs: seq<Handle>, rtype: string)
    ensures var rows := Unsaved(topologyId, hs);
            var ordered := Sort(rows, DeleteFirst);
            && |rows| == |hs| && (forall i :: 0 <= i < |hs| ==> HandleOf(rows[i]) == hs[i])
            && multiset(ordered) == multiset(rows)
            && (forall i, j :: 0 <= i < j < |ordered| ==> GoesBefore(ordered[i], ordered[j]))
            && (forall i, j :: 0 <= i < j < |ordered| ==> Tier(ordered[i].rtype) <= Tier(ordered[j].rtype))
            && var one := (r: Row) => r.rtype == rtype; Only(ordered, one) == Only(rows, one)
  {
    hide Tier, GoesBefore, Only;
    var rows := Unsaved(topologyId, hs);
    DeleteOrder();
    TeardownOrder(rows, rtype);
    SortPermutes(rows, DeleteFirst);
    SortSorted(rows, DeleteFirst);
    var ordered := Sort(rows, DeleteFirst);
    forall i, j | 0 <= i < j < |ordered| ensures Tier(ordered[i].rtype) <= Tier(ordered[j].rtype) {
      assert DeleteFirst(ordered[i], ordered[j]);
    }
    SameOnly(rows, (r: Row) => r.id == 0 && r.rtype == rtype, (r: Row) => r.rtype == rtype);
    SameOnly(ordered, (r: Row) => r.id == 0 && r.rtype == rtype, (r: Row) => r.rtype == rtype);
  }

  lemma {:induction false} SameOnly<T>(s: seq<T>, a: T -> bool, b: T -> bool)
    requires forall x :: x in s ==> a(x) == b(x)
    ensures Only(s, a) == Only(s, b)
  {
    if s != [] { SameOnly(s[1..], a, b); }
  }
}
