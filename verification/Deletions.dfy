/** What a deleted node leaves to its earlier versions: which of them is current again, and what
    becomes of the others. */
module Deletions {
  import opened Chains
  import opened Wrappers
  import opened Knowledge
  import opened Writes
  import opened Invariants

  /** The versions that hang off a node. */
  function VersionsOf(nodes: Nodes, id: Id): set<Id> {
    set n | n in nodes && nodes[n].status.supersededBy == Some(id)
  }

  /** `v` was replaced after `c`: at a later time, or at the same one and it is the newer row. A
      version without a time comes before all with one. */
  predicate ReplacedAfter(nodes: Nodes, v: Id, c: Id)
    requires v in nodes && c in nodes
  {
    var mine, other := nodes[v].status.supersededMs, nodes[c].status.supersededMs;
    if mine.Some? && other.Some? then mine.value > other.value || (mine.value == other.value && v > c)
    else mine.Some? || (other.None? && v > c)
  }

  ghost predicate ReplacedLast(nodes: Nodes, versions: set<Id>, v: Id)
    requires versions <= nodes.Keys
  {
    v in versions && forall c :: c in versions && c != v ==> ReplacedAfter(nodes, v, c)
  }

  /** Another current node has the kind and key of `v`. */
  predicate Holds(nodes: Nodes, v: Id, id: Id, heir: Id)
    requires v in nodes
  {
    && IsCurrent(nodes, heir) && heir != id && nodes[v].key.Some?
    && nodes[heir].kind == nodes[v].kind && nodes[heir].key == nodes[v].key
  }

  /** Every one of `versions` but `top` hangs off `top`, and all else but `top` is as it was. */
  ghost predicate HangOff(before: Nodes, after: Nodes, id: Id, versions: set<Id>, top: Id) {
    && after.Keys == before.Keys - {id}
    && forall n :: n in after && n != top ==>
         after[n] == if n in versions then before[n].(status := before[n].status.(supersededBy := Some(top))) else before[n]
  }

  /** `v` is current again, as it was recorded and as fresh as `Restored` says. */
  predicate BackAgain(before: Nodes, after: Nodes, v: Id, now: int) {
    && v in before && IsCurrent(after, v) && after[v] == Restored(before[v], now)
    && after[v].kind == before[v].kind && after[v].key == before[v].key && after[v].content == before[v].content
  }

  /** What becomes of the versions of `id`, of which `v` was replaced last. */
  ghost predicate HandsOn(before: Nodes, after: Nodes, id: Id, v: Id, now: int) {
    var versions := VersionsOf(before, id);
    if versions == {} then after == before - {id}
    else if v in before && exists heir :: Holds(before, v, id, heir) then
      exists heir :: Holds(before, v, id, heir) && HangOff(before, after, id, versions, heir) && after[heir] == before[heir]
    else HangOff(before, after, id, versions, v) && BackAgain(before, after, v, now)
  }

  lemma LatestIsLast(nodes: Nodes, versions: set<Id>)
    requires versions != {} && versions <= nodes.Keys
    ensures ReplacedLast(nodes, versions, LatestVersion(nodes, versions))
    ensures forall v :: ReplacedLast(nodes, versions, v) ==> v == LatestVersion(nodes, versions)
  {
    NodesOrdered(nodes, versions);
    var latest := LatestVersion(nodes, versions);
    forall c | c in versions && c != latest ensures ReplacedAfter(nodes, latest, c) {
      assert LaterVersion(nodes)(latest, c);
    }
  }

  /** Nothing hangs off a current node's chain but its own versions: reviving starts from the nodes
      as they are, the deleted one without its key. */
  lemma StartIs(nodes: Nodes, id: Id)
    requires Shaped(nodes) && IsCurrent(nodes, id)
    ensures CurrentOf(nodes, [id]) == [id] && ToSet([id]) == {id}
    ensures Lift(nodes, {id}) == nodes
  {
    assert [id][..0] == [];
    assert CurrentOf(nodes, [id][..0]) == [];
    var links := LinksOf(nodes);
    assert id !in links;
    forall n | n in nodes && nodes[n].status.supersededBy.Some?
      ensures Climb(links, {id}, nodes[n].status.supersededBy.value) == nodes[n].status.supersededBy.value
    {
    }
  }

  /** Deleting one current node settles it and takes it out. */
  lemma DeletesOne(db: Db, id: Id, now: int)
    requires Shaped(db.nodes) && IsCurrent(db.nodes, id)
    ensures Delete(db, id, now).Ok?
    ensures Delete(db, id, now).value.db.nodes ==
      Without(Settle(Revival(Unkeyed(db.nodes, {id}), Facts(db.edges), []), {id}, id, now).nodes, {id})
  {
    hide Settle, Lift;
    StartIs(db.nodes, id);
    assert ToSet([id]) == {id};
    var start := Revival(Unkeyed(db.nodes, {id}), Facts(db.edges), []);
    assert [id][..0] == [];
    assert SettleAll(start, {id}, [id][..0], now) == start;
    assert SettleAll(start, {id}, [id], now) == Settle(start, {id}, id, now);
  }

  lemma VersionsAre(nodes: Nodes, id: Id)
    requires Shaped(nodes) && IsCurrent(nodes, id)
    ensures Children(Unkeyed(nodes, {id}), id) - {id} == VersionsOf(nodes, id)
  {
  }

  lemma LastUnkeyed(nodes: Nodes, id: Id, versions: set<Id>, v: Id)
    requires versions <= nodes.Keys && ReplacedLast(nodes, versions, v)
    ensures ReplacedLast(Unkeyed(nodes, {id}), versions, v)
  {
  }

  lemma HeirsAre(nodes: Nodes, id: Id, v: Id)
    requires v in nodes && v != id
    ensures forall heir :: heir in Heirs(Unkeyed(nodes, {id}), {id}, nodes[v].kind, nodes[v].key) <==> Holds(nodes, v, id, heir)
  {
  }

  /** Deleting a current node. Without versions only it goes. Else the version replaced last
      decides: if another current node has its kind and key, all versions hang off that node; if
      none has, it is current again and the others hang off it. */
  lemma DeletionHandsOn(db: Db, id: Id, now: int, v: Id)
    requires Shaped(db.nodes) && IsCurrent(db.nodes, id)
    requires VersionsOf(db.nodes, id) != {} ==> ReplacedLast(db.nodes, VersionsOf(db.nodes, id), v)
    ensures Delete(db, id, now).Ok?
    ensures HandsOn(db.nodes, Delete(db, id, now).value.db.nodes, id, v, now)
  {
    hide Shaped, Restored, Settle;
    DeletesOne(db, id, now);
    VersionsAre(db.nodes, id);
    var start := Unkeyed(db.nodes, {id});
    SettlesOne(db, Revival(start, Facts(db.edges), []), id, now, v);
  }

  lemma SettlesOne(db: Db, r: Revival, id: Id, now: int, v: Id)
    requires r.nodes == Unkeyed(db.nodes, {id}) && IsCurrent(db.nodes, id)
    requires Children(r.nodes, id) - {id} == VersionsOf(db.nodes, id)
    requires VersionsOf(db.nodes, id) != {} ==> ReplacedLast(db.nodes, VersionsOf(db.nodes, id), v)
    ensures HandsOn(db.nodes, Without(Settle(r, {id}, id, now).nodes, {id}), id, v, now)
  {
    hide LatestVersion, Heirs, ReplacedLast, Holds, Restored, HangOff, BackAgain;
    var versions := VersionsOf(db.nodes, id);
    if versions != {} {
      LastUnkeyed(db.nodes, id, versions, v);
      LatestIsLast(r.nodes, versions);
      assert v in versions && v != id by { LastIsOne(db.nodes, versions, v, id); }
      HeirsAre(db.nodes, id, v);
      var heirs := Heirs(r.nodes, {id}, db.nodes[v].kind, db.nodes[v].key);
      if heirs != {} {
        assert Holds(db.nodes, v, id, PickOne(heirs));
        HeirIsNew(db.nodes, id, versions, v, PickOne(heirs));
        HeirTakes(db.nodes, id, versions, v, PickOne(heirs));
      } else {
        assert forall heir :: Holds(db.nodes, v, id, heir) ==> heir in heirs;
        LastTakes(db.nodes, id, versions, v, now);
      }
    }
  }

  lemma HeirIsNew(nodes: Nodes, id: Id, versions: set<Id>, v: Id, heir: Id)
    requires v in nodes && Holds(nodes, v, id, heir) && versions == Children(Unkeyed(nodes, {id}), id) - {id}
    ensures heir !in versions
  {
  }

  lemma HeirTakes(nodes: Nodes, id: Id, versions: set<Id>, v: Id, heir: Id)
    requires versions == VersionsOf(nodes, id) && v in nodes && Holds(nodes, v, id, heir)
    requires heir !in versions
    ensures var after := Without(Repointed(Unkeyed(nodes, {id}), versions, heir), {id});
      HangOff(nodes, after, id, versions, heir) && after[heir] == nodes[heir]
  {
  }

  lemma LastTakes(nodes: Nodes, id: Id, versions: set<Id>, v: Id, now: int)
    requires versions == VersionsOf(nodes, id) && v in versions && v != id
    ensures var after := Without(Revived(Unkeyed(nodes, {id}), versions - {v}, v, now), {id});
      HangOff(nodes, after, id, versions, v) && BackAgain(nodes, after, v, now)
  {
  }

  lemma LastIsOne(nodes: Nodes, versions: set<Id>, v: Id, id: Id)
    requires versions == VersionsOf(nodes, id) && IsCurrent(nodes, id) && ReplacedLast(nodes, versions, v)
    ensures v in versions
  {
  }
}
