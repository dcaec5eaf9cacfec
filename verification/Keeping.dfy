/** The remaining writes keep `Valid`, and the property of each: what forgetting removes, when
    superseding is refused, and that folding rules always succeeds. */
module Keeping {
  import opened Chains
  import opened Wrappers
  import opened Knowledge
  import opened Writes
  import opened Invariants

  /** Words, sources, freshness and embeddings may change where links and keys do not. */
  lemma PointwiseKeeps(outside: Outside, db: Db, nodes: Nodes)
    requires Valid(outside, db) && nodes.Keys == db.nodes.Keys
    requires forall n :: n in nodes ==>
      SameLink(db.nodes[n], nodes[n]) && nodes[n].kind == db.nodes[n].kind && nodes[n].key == db.nodes[n].key
    requires Reasoned(nodes) && Supported(nodes) && Embeds(outside, nodes)
    ensures Valid(outside, db.(nodes := nodes))
  {
    hide Reasoned, Supported, Embeds;
    ShapeKept(db.nodes, nodes);
    SameKeysUnique(db.nodes, nodes);
    hide Shaped, UniqueKeys;
    assert Joined(nodes, db.edges);
  }

  lemma SameKeysUnique(nodes: Nodes, other: Nodes)
    requires UniqueKeys(nodes) && nodes.Keys == other.Keys
    requires forall n :: n in nodes ==>
      SameLink(nodes[n], other[n]) && nodes[n].kind == other[n].kind && nodes[n].key == other[n].key
    ensures UniqueKeys(other)
  {
    forall a, b ensures !Clash(other, a, b) {
      assert !Clash(nodes, a, b);
    }
  }

  // Superseding.

  lemma SupersedeKeeps(outside: Outside, db: Db, earlier: Id, later: Id, reason: string, now: int)
    requires Valid(outside, db) && earlier in db.nodes && later in db.nodes && earlier != later
    requires !Reaches(LinksOf(db.nodes), later, earlier)
    ensures Valid(outside, SupersedeDb(db, earlier, later, reason, now))
  {
    var after := SupersedeDb(db, earlier, later, reason, now);
    hide UniqueKeys, Joined, Reasoned, Embeds, Supported;
    SupersedeShaped(db.nodes, earlier, after.nodes[earlier]);
    hide Shaped;
    ReplaceUnique(db.nodes, earlier, after.nodes[earlier]);
    SupersedeJoined(db, earlier, later, reason, now);
    SupersedePointwise(outside, db.nodes, earlier, after.nodes[earlier]);
  }

  lemma SupersedeShaped(nodes: Nodes, earlier: Id, node: Node)
    requires Shaped(nodes) && earlier in nodes && node.status.state == Superseded
    requires node.status.supersededBy.Some? && node.status.supersededBy.value in nodes
    requires !Reaches(LinksOf(nodes), node.status.supersededBy.value, earlier)
    ensures Shaped(nodes[earlier := node])
  {
    assert LinksOf(nodes[earlier := node]) == LinksOf(nodes)[earlier := node.status.supersededBy.value];
    Relinked(LinksOf(nodes), earlier, node.status.supersededBy.value);
  }

  lemma SupersedePointwise(outside: Outside, nodes: Nodes, earlier: Id, node: Node)
    requires Reasoned(nodes) && Supported(nodes) && Embeds(outside, nodes)
    requires earlier in nodes && node.status.state == Superseded && node.content == nodes[earlier].content
    ensures var after := nodes[earlier := node]; Reasoned(after) && Supported(after) && Embeds(outside, after)
  {
  }

  lemma SupersedeJoined(db: Db, earlier: Id, later: Id, reason: string, now: int)
    requires Joined(db.nodes, db.edges) && earlier in db.nodes && later in db.nodes && earlier != later
    ensures Joined(SupersedeDb(db, earlier, later, reason, now).nodes, SupersedeDb(db, earlier, later, reason, now).edges)
  {
  }

  /** A replacement is refused exactly when it would close a loop (or names the same node). */
  lemma SupersedeRefusesLoops(db: Db, earlier: Endpoint, later: Endpoint, reason: string, now: int)
    requires Shaped(db.nodes) && Resolve(db.nodes, earlier).Ok? && Resolve(db.nodes, later).Ok?
    ensures Supersede(db, earlier, later, reason, now).Ok?
       <==> Acyclic(LinksOf(db.nodes)[Resolve(db.nodes, earlier).value := Resolve(db.nodes, later).value])
  {
    var links := LinksOf(db.nodes);
    var a, b := Resolve(db.nodes, earlier).value, Resolve(db.nodes, later).value;
    if Reaches(links, b, a) {
      RelinkedLoops(links, a, b);
    } else {
      Relinked(links, a, b);
    }
  }

  // Linking.

  lemma {:induction false} LinkKeeps(outside: Outside, db: Db, edges: seq<NewEdge>)
    requires Valid(outside, db) && Link(db, edges).Ok?
    ensures Link(db, edges).value == db.(edges := Link(db, edges).value.edges)
    ensures Valid(outside, Link(db, edges).value)
    decreases |edges|
  {
    hide Shaped, UniqueKeys, Reasoned, Embeds, Supported, KeyHolders;
    if edges != [] {
      LinkKeeps(outside, db, edges[..|edges| - 1]);
    }
  }

  lemma {:induction false} ClearedNodes(db: Db, sources: seq<Endpoint>)
    requires Cleared(db, sources).Ok?
    ensures Cleared(db, sources).value.nodes == db.nodes
  {
    if sources != [] {
      ClearedNodes(db, sources[..|sources| - 1]);
    }
  }

  lemma {:induction false} LinkedNodes(db: Db, edges: seq<NewEdge>)
    requires Link(db, edges).Ok?
    ensures Link(db, edges).value.nodes == db.nodes
    decreases |edges|
  {
    if edges != [] {
      LinkedNodes(db, edges[..|edges| - 1]);
    }
  }

  // Forgetting.

  lemma {:induction false} UnsupportedIs(nodes: Nodes, ids: seq<Id>)
    ensures forall n :: n in Unsupported(nodes, ids) <==> n in ids && !(n in nodes && nodes[n].content.sources != map[])
    ensures (forall i, j :: 0 <= i < j < |ids| ==> ids[i] != ids[j]) ==>
      forall i, j :: 0 <= i < j < |Unsupported(nodes, ids)| ==> Unsupported(nodes, ids)[i] != Unsupported(nodes, ids)[j]
  {
    if ids != [] {
      UnsupportedIs(nodes, ids[..|ids| - 1]);
    }
  }

  /** The nodes that lose their last source, in the order listed. */
  function LastSupported(nodes: Nodes, affected: seq<Id>, selection: Selection): seq<Id> {
    Unsupported(Stripped(nodes, ToSet(affected), selection), affected)
  }

  /** The nodes once `affected` have lost their sources and show what is left. */
  ghost function Thinned(nodes: Nodes, affected: seq<Id>, selection: Selection): Nodes {
    Shown(Stripped(nodes, ToSet(affected), selection), ToSet(affected))
  }

  lemma ReleaseIsDrop(db: Db, selection: Selection, affected: seq<Id>, now: int)
    requires Shaped(db.nodes)
    ensures var thinned := Thinned(db.nodes, affected, selection);
      && Shaped(thinned)
      && Release(db, selection, affected, now) == Drop(db.(nodes := thinned), LastSupported(db.nodes, affected, selection), now)
  {
    var stripped := Stripped(db.nodes, ToSet(affected), selection);
    SameLinks(db.nodes, stripped);
    ShapeKept(db.nodes, stripped);
    ShapeKept(stripped, Shown(stripped, ToSet(affected)));
  }

  lemma ThinnedPointwise(outside: Outside, nodes: Nodes, affected: seq<Id>, selection: Selection)
    requires Reasoned(nodes) && Embeds(outside, nodes)
    ensures var thinned := Thinned(nodes, affected, selection); Reasoned(thinned) && Embeds(outside, thinned)
  {
  }

  lemma ThinnedUnique(nodes: Nodes, affected: seq<Id>, selection: Selection)
    requires UniqueKeys(nodes)
    ensures UniqueKeys(Thinned(nodes, affected, selection))
  {
    hide UniqueKeys, Thinned;
    ThinnedSame(nodes, affected, selection);
    SameKeysUnique(nodes, Thinned(nodes, affected, selection));
  }

  lemma ThinnedSupported(nodes: Nodes, affected: seq<Id>, selection: Selection)
    requires Supported(nodes) && ToSet(affected) <= nodes.Keys
    ensures var thinned := Thinned(nodes, affected, selection);
      && ToSet(LastSupported(nodes, affected, selection)) <= thinned.Keys
      && forall n :: n in thinned ==> n in LastSupported(nodes, affected, selection) || thinned[n].content.sources != map[]
  {
    UnsupportedIs(Stripped(nodes, ToSet(affected), selection), affected);
  }

  lemma ReleaseKeeps(outside: Outside, db: Db, selection: Selection, affected: seq<Id>, now: int)
    requires Valid(outside, db) && ToSet(affected) <= db.nodes.Keys
    ensures Valid(outside, Release(db, selection, affected, now).db)
  {
    hide UniqueKeys, Reasoned, Joined, Embeds, Supported, Release, Drop, LastSupported, Thinned;
    var thinned := Thinned(db.nodes, affected, selection);
    ReleaseIsDrop(db, selection, affected, now);
    hide Shaped;
    ThinnedPointwise(outside, db.nodes, affected, selection);
    ThinnedUnique(db.nodes, affected, selection);
    ThinnedSupported(db.nodes, affected, selection);
    ThinnedSame(db.nodes, affected, selection);
    StillJoined(db.nodes, thinned, db.edges);
    DropKeeps(outside, db.(nodes := thinned), LastSupported(db.nodes, affected, selection), now);
  }

  lemma ThinnedSame(nodes: Nodes, affected: seq<Id>, selection: Selection)
    ensures var thinned := Thinned(nodes, affected, selection);
      && thinned.Keys == nodes.Keys
      && forall n :: n in nodes ==>
        && thinned[n].status == nodes[n].status && thinned[n].kind == nodes[n].kind && thinned[n].key == nodes[n].key
        && thinned[n].content.sources == Stripped(nodes, ToSet(affected), selection)[n].content.sources
  {
  }

  lemma StillJoined(nodes: Nodes, other: Nodes, edges: set<Edge>)
    requires Joined(nodes, edges) && nodes.Keys == other.Keys
    requires forall n :: n in nodes ==> nodes[n].status == other[n].status
    ensures Joined(other, edges)
  {
  }

  /** Some source outside `selection` supports the node. */
  predicate SupportedApart(node: Node, selection: Selection) {
    exists s :: s in node.content.sources && !Selects(selection, node.content.sources[s])
  }

  /** Forgetting removes exactly the nodes no other source supports, and leaves the others with
      exactly their other sources. */
  lemma ForgetExactly(outside: Outside, db: Db, selection: Selection, order: seq<Id>, now: int)
    requires Valid(outside, db) && Enumerates(order, Affected(db.nodes, selection))
    ensures var w := Release(db, selection, order, now);
      && (forall n :: n in w.db.nodes <==> n in db.nodes && SupportedApart(db.nodes[n], selection))
      && (forall n :: n in w.db.nodes ==> w.db.nodes[n].content.sources == Forgotten(db.nodes[n].content.sources, selection))
      && w.value == |db.nodes.Keys - w.db.nodes.Keys|
  {
    hide Joined, Embeds, Reasoned, UniqueKeys, Supported, LastSupported, Drop, Thinned, Release, Forgotten, SupportedApart, Stripped;
    ForgetDoomed(db.nodes, selection, order);
    hide Enumerates;
    ReleaseIsDrop(db, selection, order, now);
    ReleaseCounts(outside, db, selection, order, now);
  }

  /** What a release deletes, keeps and counts, by the nodes it dooms. */
  lemma ReleaseCounts(outside: Outside, db: Db, selection: Selection, order: seq<Id>, now: int)
    requires Valid(outside, db)
    requires forall n :: n in LastSupported(db.nodes, order, selection) ==> n in db.nodes
    requires var doomed := LastSupported(db.nodes, order, selection); forall i, j :: 0 <= i < j < |doomed| ==> doomed[i] != doomed[j]
    ensures var w := Release(db, selection, order, now);
      && w.db.nodes.Keys == db.nodes.Keys - ToSet(LastSupported(db.nodes, order, selection))
      && (forall n :: n in w.db.nodes ==>
            w.db.nodes[n].content.sources == Stripped(db.nodes, ToSet(order), selection)[n].content.sources)
      && w.value == |db.nodes.Keys - w.db.nodes.Keys|
  {
    hide Joined, Embeds, Reasoned, UniqueKeys, Supported, LastSupported, Drop, Thinned, Release, Forgotten, Stripped;
    var doomed := LastSupported(db.nodes, order, selection);
    var thinned := Thinned(db.nodes, order, selection);
    ReleaseIsDrop(db, selection, order, now);
    hide Shaped;
    ThinnedPointwise(outside, db.nodes, order, selection);
    ThinnedUnique(db.nodes, order, selection);
    ThinnedSame(db.nodes, order, selection);
    DropNodes(db.(nodes := thinned), doomed, now);
    DropCount(db.(nodes := thinned), doomed, now);
    assert db.nodes.Keys - Release(db, selection, order, now).db.nodes.Keys == ToSet(doomed);
  }

  lemma DropCount(db: Db, doomed: seq<Id>, now: int)
    requires Acyclic(LinksOf(db.nodes)) && forall i, j :: 0 <= i < j < |doomed| ==> doomed[i] != doomed[j]
    ensures Drop(db, doomed, now).value == |ToSet(doomed)|
  {
    DistinctCount(doomed);
  }

  /** Those to go are exactly those no other source supports. */
  lemma ForgetDoomed(nodes: Nodes, selection: Selection, order: seq<Id>)
    requires Supported(nodes) && Enumerates(order, Affected(nodes, selection))
    ensures var doomed := LastSupported(nodes, order, selection);
      && (forall n :: n in doomed <==> n in nodes && !SupportedApart(nodes[n], selection))
      && forall i, j :: 0 <= i < j < |doomed| ==> doomed[i] != doomed[j]
    ensures forall n :: n in nodes ==>
      Stripped(nodes, ToSet(order), selection)[n].content.sources == Forgotten(nodes[n].content.sources, selection)
  {
    var stripped := Stripped(nodes, ToSet(order), selection);
    UnsupportedIs(stripped, order);
    forall n | n in nodes
      ensures stripped[n].content.sources == Forgotten(nodes[n].content.sources, selection)
      ensures n in order && stripped[n].content.sources == map[] <==> !SupportedApart(nodes[n], selection)
    {
      assert n in Affected(nodes, selection) <==> HasSource(nodes[n], selection);
      StrippedSources(nodes[n], selection);
    }
  }

  lemma StrippedSources(node: Node, selection: Selection)
    requires node.content.sources != map[]
    ensures !HasSource(node, selection) ==>
      Forgotten(node.content.sources, selection) == node.content.sources && SupportedApart(node, selection)
    ensures Forgotten(node.content.sources, selection) != map[] <==> SupportedApart(node, selection)
  {
    var rest := Forgotten(node.content.sources, selection);
    var any :| any in node.content.sources;
    if SupportedApart(node, selection) {
      var s :| s in node.content.sources && !Selects(selection, node.content.sources[s]);
      assert s in rest;
    } else {
      assert rest == map[];
    }
  }

  lemma {:induction false} DistinctCount(ids: seq<Id>)
    requires forall i, j :: 0 <= i < j < |ids| ==> ids[i] != ids[j]
    ensures |ToSet(ids)| == |ids|
  {
    if ids != [] {
      var before, last := ids[..|ids| - 1], ids[|ids| - 1];
      DistinctCount(before);
      assert ids == before + [last];
      assert ToSet(ids) == ToSet(before) + {last};
    } else {
      assert ToSet(ids) == {};
    }
  }

  // Freshness and embeddings.

  ghost predicate HasReason(node: Node) {
    node.status.state != Superseded ==> (node.status.state == Stale <==> node.status.staleReason.Some?)
  }

  /** The same node, perhaps stale now. */
  ghost predicate Aging(node: Node, after: Node) {
    && SameLink(node, after) && after.kind == node.kind && after.key == node.key && after.content == node.content
    && (HasReason(node) ==> HasReason(after))
  }

  lemma {:induction false} MarkedAllKeeps(node: Node, changes: seq<FileRef>, now: int)
    ensures Aging(node, MarkedAll(node, changes, now))
  {
    if changes != [] {
      MarkedAllKeeps(node, changes[..|changes| - 1], now);
    }
  }

  lemma AgingKeeps(outside: Outside, db: Db, nodes: Nodes)
    requires Valid(outside, db) && nodes.Keys == db.nodes.Keys
    requires forall n :: n in nodes ==> Aging(db.nodes[n], nodes[n])
    ensures Valid(outside, db.(nodes := nodes))
  {
    hide Shaped, UniqueKeys, Joined;
    assert forall n :: n in nodes ==> HasReason(db.nodes[n]);
    assert Reasoned(nodes) && Supported(nodes) && Embeds(outside, nodes);
    hide Reasoned, Supported, Embeds;
    PointwiseKeeps(outside, db, nodes);
  }

  lemma FilesChangedKeeps(outside: Outside, db: Db, changes: seq<FileRef>, now: int)
    requires Valid(outside, db)
    ensures Valid(outside, db.(nodes := FilesChanged(db.nodes, changes, now)))
  {
    hide Valid, MarkedAll, Aging;
    forall n | n in db.nodes ensures Aging(db.nodes[n], MarkedAll(db.nodes[n], changes, now)) {
      MarkedAllKeeps(db.nodes[n], changes, now);
    }
    AgingKeeps(outside, db, FilesChanged(db.nodes, changes, now));
  }

  lemma ExpireKeeps(outside: Outside, db: Db, now: int)
    requires Valid(outside, db)
    ensures Valid(outside, db.(nodes := Expire(db.nodes, now)))
  {
    hide Valid;
    AgingKeeps(outside, db, Expire(db.nodes, now));
  }

  /** Every item is the embedding of the words it was read with, whatever was written since. */
  ghost predicate Embedding(outside: Outside, items: seq<Embedded>) {
    forall item :: item in items ==> item.blob == outside.embed(item.title, item.body)
  }

  lemma {:induction false} SetEmbeddingsKeeps(outside: Outside, db: Db, items: seq<Embedded>)
    requires Valid(outside, db) && Embedding(outside, items)
    ensures Valid(outside, SetEmbeddings(db, items).db)
  {
    if items != [] {
      SetEmbeddingsKeeps(outside, db, items[..|items| - 1]);
      var before := SetEmbeddings(db, items[..|items| - 1]).db;
      var item := items[|items| - 1];
      assert item in items;
      hide Valid;
      SetEmbeddingKeeps(outside, before, item);
    }
  }

  lemma SetEmbeddingKeeps(outside: Outside, db: Db, item: Embedded)
    requires Valid(outside, db) && item.blob == outside.embed(item.title, item.body)
    ensures Valid(outside, SetEmbedding(db, item).db)
  {
    hide Shaped, UniqueKeys, Joined;
    if Takes(db.nodes, item) {
      PointwiseKeeps(outside, db, SetEmbedding(db, item).db.nodes);
    }
  }

  // Folding rules.

  lemma RekeyedKeeps(outside: Outside, db: Db)
    requires Valid(outside, db)
    ensures Valid(outside, db.(nodes := Rekeyed(outside, db.nodes)))
  {
    hide Shaped, UniqueKeys, Joined;
    PointwiseKeeps(outside, db, Rekeyed(outside, db.nodes));
  }

  /** Everything kept, the rules of `order` superseded by their keepers and nothing else touched. */
  ghost predicate FoldedInto(outside: Outside, nodes: Nodes, order: seq<Id>, now: int, after: Db) {
    && Valid(outside, after) && nodes.Keys <= after.nodes.Keys
    && (forall n :: n in nodes && n !in order ==> after.nodes[n] == nodes[n])
    && (forall n :: n in order ==>
          Folds(nodes, n) && after.nodes[n] == SupersededNode(nodes[n], KeeperOf(nodes, n), FOLD_REASON, now))
  }

  /** Folding rules into their keepers keeps everything and is never refused: a keeper is
      current to the end, so no chain can loop. */
  lemma {:induction false} FoldAllKeeps(outside: Outside, db: Db, order: seq<Id>, now: int)
    requires Valid(outside, db) && forall id :: id in order ==> Folds(db.nodes, id)
    requires forall i, j :: 0 <= i < j < |order| ==> order[i] != order[j]
    ensures FoldedInto(outside, db.nodes, order, now, FoldAll(db, db.nodes, order, now).db)
    decreases |order|
  {
    hide Valid, Folds, SupersedeDb, FoldAll, FoldedInto, KeeperOf;
    if order == [] {
      FoldNone(outside, db, now);
    } else {
      var before, id := order[..|order| - 1], order[|order| - 1];
      assert order == before + [id];
      assert id in order && id !in before;
      FoldAllKeeps(outside, db, before, now);
      FoldMore(outside, db.nodes, before, id, now, FoldAll(db, db.nodes, before, now).db);
      FoldLast(db, before, id, now);
    }
  }

  lemma FoldNone(outside: Outside, db: Db, now: int)
    requires Valid(outside, db)
    ensures FoldedInto(outside, db.nodes, [], now, FoldAll(db, db.nodes, [], now).db)
  {
    hide Valid;
  }

  lemma FoldLast(db: Db, before: seq<Id>, id: Id, now: int)
    requires forall x :: x in before + [id] ==> Folds(db.nodes, x)
    ensures Folds(db.nodes, id) && (forall x :: x in before ==> Folds(db.nodes, x))
    ensures id in FoldAll(db, db.nodes, before, now).db.nodes
    ensures FoldAll(db, db.nodes, before + [id], now).db
         == SupersedeDb(FoldAll(db, db.nodes, before, now).db, id, KeeperOf(db.nodes, id), FOLD_REASON, now)
  {
    hide SupersedeDb, KeeperOf;
    assert id in before + [id];
    assert forall x :: x in before ==> x in before + [id];
    assert (before + [id])[..|before|] == before;
  }

  lemma FoldMore(outside: Outside, nodes: Nodes, before: seq<Id>, id: Id, now: int, middle: Db)
    requires FoldedInto(outside, nodes, before, now, middle) && Folds(nodes, id) && id !in before
    ensures FoldedInto(outside, nodes, before + [id], now, SupersedeDb(middle, id, KeeperOf(nodes, id), FOLD_REASON, now))
  {
    hide Valid;
    KeeperStays(nodes, before, id);
    FoldOne(outside, middle, id, KeeperOf(nodes, id), now);
  }

  lemma FoldOne(outside: Outside, db: Db, id: Id, keeper: Id, now: int)
    requires Valid(outside, db) && id in db.nodes && IsCurrent(db.nodes, keeper) && id != keeper
    ensures Valid(outside, SupersedeDb(db, id, keeper, FOLD_REASON, now))
  {
    assert !Reaches(LinksOf(db.nodes), keeper, id);
    hide Valid;
    SupersedeKeeps(outside, db, id, keeper, FOLD_REASON, now);
  }

  /** A keeper is never folded itself. */
  lemma KeeperStays(nodes: Nodes, order: seq<Id>, id: Id)
    requires Folds(nodes, id) && forall x :: x in order ==> Folds(nodes, x)
    ensures KeeperOf(nodes, id) !in order
  {
    var keeper := KeeperOf(nodes, id);
    assert KeeperOf(nodes, keeper) == keeper;
    assert !Folds(nodes, keeper);
  }
}
