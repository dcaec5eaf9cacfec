/** What every write keeps. */
module Invariants {
  import opened Chains
  import opened Wrappers
  import opened Knowledge
  import opened Writes

  /** A node is superseded exactly when it says by which stored node, and no chain loops. */
  ghost predicate Shaped(nodes: Nodes) {
    && (forall n :: n in nodes ==> (nodes[n].status.state == Superseded <==> nodes[n].status.supersededBy.Some?))
    && (forall n :: n in nodes && nodes[n].status.supersededBy.Some? ==> nodes[n].status.supersededBy.value in nodes)
    && Acyclic(LinksOf(nodes))
  }

  ghost predicate Clash(nodes: Nodes, a: Id, b: Id) {
    && a != b && IsCurrent(nodes, a) && IsCurrent(nodes, b)
    && nodes[a].kind == nodes[b].kind && nodes[a].key.Some? && nodes[a].key == nodes[b].key
  }

  /** The partial unique index: one current node for a kind and key. */
  ghost predicate UniqueKeys(nodes: Nodes) {
    forall a, b :: !Clash(nodes, a, b)
  }

  /** A node that is not superseded is stale exactly when it has a reason. */
  ghost predicate Reasoned(nodes: Nodes) {
    forall n :: IsCurrent(nodes, n) ==> (nodes[n].status.state == Stale <==> nodes[n].status.staleReason.Some?)
  }

  ghost predicate Supported(nodes: Nodes) {
    forall n :: n in nodes ==> nodes[n].content.sources != map[]
  }

  /** Every embedding of the current model is that of the text it sits beside. */
  ghost predicate Embeds(outside: Outside, nodes: Nodes) {
    forall n :: n in nodes && HasVector(nodes[n]) ==>
      nodes[n].content.embedding.value == outside.embed(nodes[n].content.title, nodes[n].content.body)
  }

  /** Edges join stored nodes, never a node to itself, and each version has its edge. */
  ghost predicate Joined(nodes: Nodes, edges: set<Edge>) {
    && (forall e :: e in edges ==> e.source in nodes && e.target in nodes && e.source != e.target)
    && (forall n :: n in nodes && nodes[n].status.supersededBy.Some? ==>
          Edge(nodes[n].status.supersededBy.value, n, Supersedes) in edges)
  }

  ghost predicate Valid(outside: Outside, db: Db) {
    && (forall n :: n in db.nodes ==> n < db.next)
    && Shaped(db.nodes)
    && UniqueKeys(db.nodes)
    && Reasoned(db.nodes)
    && Supported(db.nodes)
    && Embeds(outside, db.nodes)
    && Joined(db.nodes, db.edges)
  }

  /** An embedding the Brain computed for these words, or none. */
  ghost predicate EmbeddingOf(outside: Outside, embedding: Option<Blob>, title: string, body: string) {
    embedding.Some? ==> embedding.value == outside.embed(title, body)
  }

  const EMPTY := Db(map[], {}, 0)

  lemma EmptyShaped()
    ensures Shaped(EMPTY.nodes)
  {
    RankedIsAcyclic(LinksOf(EMPTY.nodes), map[]);
  }

  lemma EmptyIsValid(outside: Outside)
    ensures Valid(outside, EMPTY)
  {
    EmptyShaped();
    assert UniqueKeys(EMPTY.nodes);
    assert Reasoned(EMPTY.nodes);
    assert Supported(EMPTY.nodes);
    assert Embeds(outside, EMPTY.nodes);
    assert Joined(EMPTY.nodes, EMPTY.edges);
  }

  predicate SameLink(a: Node, b: Node) {
    a.status.supersededBy == b.status.supersededBy && (a.status.state == Superseded <==> b.status.state == Superseded)
  }

  lemma ShapeKept(nodes: Nodes, other: Nodes)
    requires Shaped(nodes) && nodes.Keys == other.Keys
    requires forall n :: n in nodes ==> SameLink(nodes[n], other[n])
    ensures Shaped(other)
  {
    SameLinks(nodes, other);
  }

  lemma ShapedIsAcyclic(nodes: Nodes)
    requires Shaped(nodes)
    ensures Acyclic(LinksOf(nodes))
  {
  }

  // Recording.

  lemma ArchiveLinks(nodes: Nodes, id: Id, copy: Id, reason: string, now: int)
    requires Shaped(nodes) && IsCurrent(nodes, id) && copy !in nodes
    ensures Shaped(ArchiveNodes(nodes, id, copy, reason, now))
  {
    var archived := ArchiveNodes(nodes, id, copy, reason, now);
    Spliced(LinksOf(nodes), LinksOf(archived), id, copy);
  }

  lemma ArchiveUnique(nodes: Nodes, id: Id, copy: Id, reason: string, now: int)
    requires UniqueKeys(nodes) && id in nodes
    ensures UniqueKeys(ArchiveNodes(nodes, id, copy, reason, now))
  {
    var archived := ArchiveNodes(nodes, id, copy, reason, now);
    forall a, b ensures !Clash(archived, a, b) {
      assert !Clash(nodes, a, b);
    }
  }

  lemma ArchivePointwise(outside: Outside, nodes: Nodes, id: Id, copy: Id, reason: string, now: int)
    requires id in nodes && Reasoned(nodes) && Supported(nodes) && Embeds(outside, nodes)
    ensures var archived := ArchiveNodes(nodes, id, copy, reason, now);
      Reasoned(archived) && Supported(archived) && Embeds(outside, archived)
  {
  }

  lemma ArchiveJoined(db: Db, id: Id, copy: Id, reason: string, now: int)
    requires Joined(db.nodes, db.edges) && id in db.nodes && copy !in db.nodes && db.nodes[id].status.supersededBy.None?
    ensures Joined(ArchiveNodes(db.nodes, id, copy, reason, now), ArchiveEdges(db.edges, id, copy))
  {
  }

  lemma ArchiveKeeps(outside: Outside, db: Db, id: Id, reason: string, now: int)
    requires Valid(outside, db) && IsCurrent(db.nodes, id)
    ensures Valid(outside, Archive(db, id, reason, now).db)
  {
    ArchiveLinks(db.nodes, id, db.next, reason, now);
    ArchiveUnique(db.nodes, id, db.next, reason, now);
    ArchivePointwise(outside, db.nodes, id, db.next, reason, now);
    ArchiveJoined(db, id, db.next, reason, now);
  }

  /** A current node may be given other words, sources and times. */
  lemma ReplaceKeeps(outside: Outside, db: Db, id: Id, node: Node)
    requires Valid(outside, db) && IsCurrent(db.nodes, id) && Joins(outside, node)
    requires node.kind == db.nodes[id].kind && node.key == db.nodes[id].key
    ensures Valid(outside, db.(nodes := db.nodes[id := node]))
  {
    hide UniqueKeys, Reasoned, Supported, Embeds;
    var nodes := db.nodes[id := node];
    assert Joined(nodes, db.edges);
    hide Joined;
    ShapeKept(db.nodes, nodes);
    hide Shaped;
    ReplaceUnique(db.nodes, id, node);
    InsertedPointwise(outside, db.nodes, id, node);
  }

  lemma ReplaceUnique(nodes: Nodes, id: Id, node: Node)
    requires UniqueKeys(nodes) && id in nodes && (IsCurrent(nodes, id) || node.status.state == Superseded)
    requires node.kind == nodes[id].kind && node.key == nodes[id].key
    ensures UniqueKeys(nodes[id := node])
  {
    var replaced := nodes[id := node];
    forall a, b ensures !Clash(replaced, a, b) {
      assert !Clash(nodes, a, b);
    }
  }

  lemma InsertKeeps(outside: Outside, db: Db, node: NewNode, embedding: Option<Blob>, now: int)
    requires Valid(outside, db) && EmbeddingOf(outside, embedding, node.title, node.body)
    requires Existing(outside, db.nodes, node).None?
    ensures Valid(outside, Insert(outside, db, node, embedding, now).db)
  {
    hide Valid, FoldKey, ContentOf, Existing;
    var fold := FoldKey(outside, node.kind, node.provenance.session, node.title, node.body);
    CreatedIs(outside, node, fold, embedding, now);
    NoneExists(outside, db.nodes, node);
    InsertedKeeps(outside, db, Created(node, fold, embedding, now));
  }

  /** A node that may join the tables: fresh, supported, with the embedding of its words if any. */
  ghost predicate Joins(outside: Outside, node: Node) {
    && node.status.state == Fresh && node.status.staleReason.None? && node.status.supersededBy.None?
    && node.content.sources != map[]
    && (HasVector(node) ==> node.content.embedding.value == outside.embed(node.content.title, node.content.body))
  }

  lemma CreatedIs(outside: Outside, node: NewNode, fold: Option<string>, embedding: Option<Blob>, now: int)
    requires EmbeddingOf(outside, embedding, node.title, node.body)
    ensures Joins(outside, Created(node, fold, embedding, now))
  {
    hide SourceOf, SourceId;
    assert SourceId(node.provenance) in Created(node, fold, embedding, now).content.sources;
  }

  lemma NoneExists(outside: Outside, nodes: Nodes, node: NewNode)
    requires Existing(outside, nodes, node).None?
    ensures node.key.Some? ==> Holders(nodes, node.kind, node.key.value) == {}
  {
  }

  lemma InsertedKeeps(outside: Outside, db: Db, node: Node)
    requires Valid(outside, db) && Joins(outside, node)
    requires node.key.Some? ==> Holders(db.nodes, node.kind, node.key.value) == {}
    ensures Valid(outside, Db(db.nodes[db.next := node], db.edges, db.next + 1))
  {
    hide Shaped, UniqueKeys, Reasoned, Supported, Embeds;
    assert Joined(db.nodes[db.next := node], db.edges);
    hide Joined;
    InsertedShaped(db.nodes, db.next, node);
    InsertUnique(db.nodes, db.next, node);
    InsertedPointwise(outside, db.nodes, db.next, node);
  }

  lemma InsertedShaped(nodes: Nodes, id: Id, node: Node)
    requires Shaped(nodes) && id !in nodes && node.status.state != Superseded && node.status.supersededBy.None?
    ensures Shaped(nodes[id := node])
  {
    assert LinksOf(nodes[id := node]) == LinksOf(nodes);
  }

  lemma InsertedPointwise(outside: Outside, nodes: Nodes, id: Id, node: Node)
    requires Reasoned(nodes) && Supported(nodes) && Embeds(outside, nodes) && Joins(outside, node)
    ensures var after := nodes[id := node]; Reasoned(after) && Supported(after) && Embeds(outside, after)
  {
  }

  lemma NoHolder(nodes: Nodes, kind: Kind, key: string)
    requires Holders(nodes, kind, key) == {}
    ensures forall n :: IsCurrent(nodes, n) ==> nodes[n].kind != kind || nodes[n].key != Some(key)
  {
    assert forall n :: n in Holders(nodes, kind, key) <==> IsCurrent(nodes, n) && nodes[n].kind == kind && nodes[n].key == Some(key);
  }

  lemma InsertUnique(nodes: Nodes, id: Id, node: Node)
    requires UniqueKeys(nodes) && id !in nodes
    requires node.key.Some? ==> Holders(nodes, node.kind, node.key.value) == {}
    ensures UniqueKeys(nodes[id := node])
  {
    var inserted := nodes[id := node];
    if node.key.Some? {
      NoHolder(nodes, node.kind, node.key.value);
    }
    forall a, b ensures !Clash(inserted, a, b) {
      assert !Clash(nodes, a, b);
    }
  }

  lemma RecordKeeps(outside: Outside, db: Db, node: NewNode, embedding: Option<Blob>, now: int)
    requires Valid(outside, db) && EmbeddingOf(outside, embedding, node.title, node.body)
    ensures Valid(outside, Record(outside, db, node, embedding, now).db)
  {
    match Existing(outside, db.nodes, node)
    case None => InsertKeeps(outside, db, node, embedding, now);
    case Some(id) =>
      var found := db.nodes[id];
      if Confirms(found, node) {
        ReplaceKeeps(outside, db, id, Confirmed(found, node, if node.key.Some? then embedding else None, now));
      } else {
        RewriteKeeps(outside, db, id, node, embedding, now);
      }
  }

  lemma RewriteKeeps(outside: Outside, db: Db, id: Id, node: NewNode, embedding: Option<Blob>, now: int)
    requires Valid(outside, db) && EmbeddingOf(outside, embedding, node.title, node.body)
    requires IsCurrent(db.nodes, id)
    requires node.kind == db.nodes[id].kind && node.key == db.nodes[id].key
    ensures Valid(outside, Rewrite(outside, db, id, node, embedding, now).db)
  {
    var fold := FoldKey(outside, node.kind, node.provenance.session, node.title, node.body);
    var rewritten := Rewritten(db.nodes[id], node, fold, embedding, now);
    assert SourceId(node.provenance) in rewritten.content.sources;
    if KeepsHistory(node.kind) {
      var reason := RewriteReason(db.nodes[id], node);
      ArchiveKeeps(outside, db, id, reason, now);
      ReplaceKeeps(outside, Archive(db, id, reason, now).db, id, rewritten);
    } else {
      ReplaceKeeps(outside, db, id, rewritten);
    }
  }

  // Deleting and forgetting.

  predicate SameButLink(a: Node, b: Node) {
    a.kind == b.kind && a.key == b.key && a.content == b.content
    && a.status.state == b.status.state && a.status.staleReason == b.status.staleReason
  }

  /** Midway through a deletion of `gone`: every node is as it was but for its links and state. */
  ghost predicate SameNodes(base: Nodes, nodes: Nodes, gone: set<Id>) {
    && nodes.Keys == base.Keys
    && (forall n :: n in nodes ==> nodes[n].kind == base[n].kind && nodes[n].content == base[n].content)
    && (forall n :: n in nodes && n !in gone ==> nodes[n].key == base[n].key)
    && (forall n :: n in nodes && n in gone ==> nodes[n].status.state == base[n].status.state)
  }

  /** Only current nodes going away still have versions; those in `done` have none that stays. */
  ghost predicate HandedOn(nodes: Nodes, gone: set<Id>, done: set<Id>) {
    && (forall n :: IsCurrent(nodes, n) && n in gone ==> nodes[n].key.None?)
    && (forall n :: n in nodes && nodes[n].status.supersededBy.Some? && nodes[n].status.supersededBy.value in gone ==>
          IsCurrent(nodes, nodes[n].status.supersededBy.value) && (n in gone || nodes[n].status.supersededBy.value !in done))
  }

  lemma LiftShaped(nodes: Nodes, through: set<Id>)
    requires Shaped(nodes)
    ensures Shaped(Lift(nodes, through))
    ensures forall n :: n in nodes && nodes[n].status.supersededBy.Some? && Lift(nodes, through)[n].status.supersededBy.value in through ==>
      IsCurrent(nodes, Lift(nodes, through)[n].status.supersededBy.value)
  {
    hide Climb, RankOf, Acyclic;
    var lifted := Lift(nodes, through);
    LiftedLinks(nodes, through);
    Lifted(LinksOf(nodes), LinksOf(lifted));
  }

  /** Every link is moved up its own chain. */
  lemma LiftedLinks(nodes: Nodes, through: set<Id>)
    requires Shaped(nodes)
    ensures var links, lifted := LinksOf(nodes), LinksOf(Lift(nodes, through));
      && lifted.Keys == links.Keys
      && forall a :: a in lifted ==> RankOf(links, lifted[a]) <= RankOf(links, links[a])
  {
  }

  lemma ReviveStarts(nodes: Nodes, doomed: seq<Id>)
    requires Shaped(nodes) && UniqueKeys(nodes) && Reasoned(nodes)
    ensures var start := Unkeyed(Lift(nodes, ToSet(doomed)), ToSet(CurrentOf(nodes, doomed)));
      && Shaped(start) && UniqueKeys(start) && Reasoned(start)
      && SameNodes(nodes, start, ToSet(doomed)) && HandedOn(start, ToSet(doomed), {})
  {
    hide UniqueKeys, Reasoned, HandedOn, SameNodes;
    var gone := ToSet(doomed);
    CurrentOfIs(nodes, doomed);
    LiftShaped(nodes, gone);
    UnkeyedKeeps(nodes, Lift(nodes, gone), gone, ToSet(CurrentOf(nodes, doomed)));
  }

  lemma UnkeyedKeeps(base: Nodes, nodes: Nodes, gone: set<Id>, current: set<Id>)
    requires Shaped(nodes) && base.Keys == nodes.Keys && UniqueKeys(base) && Reasoned(base)
    requires forall n :: n in nodes ==> SameButLink(base[n], nodes[n])
    requires forall n :: n in current <==> n in gone && IsCurrent(nodes, n)
    requires forall n :: n in nodes && nodes[n].status.supersededBy.Some? && nodes[n].status.supersededBy.value in gone ==>
      IsCurrent(nodes, nodes[n].status.supersededBy.value)
    ensures var start := Unkeyed(nodes, current);
      Shaped(start) && UniqueKeys(start) && Reasoned(start) && SameNodes(base, start, gone) && HandedOn(start, gone, {})
  {
    hide Shaped, UniqueKeys, Reasoned, SameNodes, HandedOn;
    var start := Unkeyed(nodes, current);
    ShapeKept(nodes, start);
    UnkeyedUnique(base, start);
    UnkeyedSame(base, nodes, gone, current);
    UnkeyedHanded(nodes, gone, current);
  }

  lemma UnkeyedSame(base: Nodes, nodes: Nodes, gone: set<Id>, current: set<Id>)
    requires base.Keys == nodes.Keys && current <= gone
    requires forall n :: n in nodes ==> SameButLink(base[n], nodes[n])
    ensures SameNodes(base, Unkeyed(nodes, current), gone)
  {
  }

  lemma UnkeyedHanded(nodes: Nodes, gone: set<Id>, current: set<Id>)
    requires forall n :: n in current <==> n in gone && IsCurrent(nodes, n)
    requires forall n :: n in nodes && nodes[n].status.supersededBy.Some? && nodes[n].status.supersededBy.value in gone ==>
      IsCurrent(nodes, nodes[n].status.supersededBy.value)
    ensures HandedOn(Unkeyed(nodes, current), gone, {})
  {
  }

  lemma UnkeyedUnique(base: Nodes, start: Nodes)
    requires UniqueKeys(base) && Reasoned(base) && base.Keys == start.Keys
    requires forall n :: n in start ==>
      && start[n].status.state == base[n].status.state && start[n].status.staleReason == base[n].status.staleReason
      && start[n].kind == base[n].kind && (start[n].key == base[n].key || start[n].key.None?)
    ensures UniqueKeys(start) && Reasoned(start)
  {
    forall a, b ensures !Clash(start, a, b) {
      assert !Clash(base, a, b);
    }
  }

  lemma {:induction false} CurrentOfIs(nodes: Nodes, ids: seq<Id>)
    ensures forall n :: n in CurrentOf(nodes, ids) <==> n in ids && IsCurrent(nodes, n)
  {
    if ids != [] {
      CurrentOfIs(nodes, ids[..|ids| - 1]);
    }
  }

  lemma RepointedShaped(nodes: Nodes, versions: set<Id>, top: Id)
    requires Shaped(nodes) && IsCurrent(nodes, top)
    requires forall v :: v in versions ==> v in nodes && nodes[v].status.state == Superseded
    ensures Shaped(Repointed(nodes, versions, top))
  {
    var repointed := Repointed(nodes, versions, top);
    LinkedToTop(LinksOf(nodes), LinksOf(repointed), top);
  }

  lemma RestoredShaped(nodes: Nodes, latest: Id, now: int)
    requires Shaped(nodes) && latest in nodes
    ensures Shaped(nodes[latest := Restored(nodes[latest], now)])
  {
    var restored := nodes[latest := Restored(nodes[latest], now)];
    FewerLinks(LinksOf(nodes), LinksOf(restored));
  }

  ghost predicate Midway(base: Nodes, nodes: Nodes, gone: set<Id>, done: set<Id>) {
    && Shaped(nodes) && UniqueKeys(nodes) && Reasoned(nodes)
    && SameNodes(base, nodes, gone) && HandedOn(nodes, gone, done)
  }

  /** Midway, when `id`'s versions that stay were hung off `top`. */
  lemma RepointedMidway(base: Nodes, nodes: Nodes, after: Nodes, gone: set<Id>, done: set<Id>, id: Id, top: Id)
    requires SameNodes(base, nodes, gone) && HandedOn(nodes, gone, done)
    requires nodes.Keys == after.Keys && top !in gone
    requires forall n :: n in nodes ==> (nodes[n].status.state == Superseded <==> nodes[n].status.supersededBy.Some?)
    requires forall n :: n in nodes ==> after[n].kind == nodes[n].kind && after[n].key == nodes[n].key && after[n].content == nodes[n].content
    requires forall n :: n in nodes ==>
      if n in Children(nodes, id) - gone then n == top || after[n].status.supersededBy == Some(top) else after[n].status == nodes[n].status
    requires top in nodes && (top in Children(nodes, id) - gone ==> after[top].status.supersededBy.None?)
    ensures SameNodes(base, after, gone)
    ensures HandedOn(after, gone, done + {id})
  {
    assert SameNodes(base, after, gone);
    assert forall n :: n in nodes && n !in gone && nodes[n].status.supersededBy == Some(id) ==> n in Children(nodes, id) - gone;
  }

  /** A holder of the key takes the versions of a current node that goes. */
  lemma InheritedMidway(base: Nodes, nodes: Nodes, gone: set<Id>, done: set<Id>, id: Id, heir: Id)
    requires Midway(base, nodes, gone, done) && IsCurrent(nodes, heir) && heir !in gone
    ensures Midway(base, Repointed(nodes, Children(nodes, id) - gone, heir), gone, done + {id})
  {
    hide SameNodes, HandedOn;
    var versions := Children(nodes, id) - gone;
    var after := Repointed(nodes, versions, heir);
    RepointedShaped(nodes, versions, heir);
    UnkeyedUnique(nodes, after);
    RepointedMidway(base, nodes, after, gone, done, id, heir);
  }

  /** The latest version is current again and takes the others. */
  lemma RevivedMidway(base: Nodes, nodes: Nodes, gone: set<Id>, done: set<Id>, id: Id, latest: Id, now: int)
    requires Midway(base, nodes, gone, done) && latest in Children(nodes, id) - gone
    requires Heirs(nodes, gone, nodes[latest].kind, nodes[latest].key) == {}
    ensures Midway(base, Revived(nodes, Children(nodes, id) - gone - {latest}, latest, now), gone, done + {id})
  {
    hide SameNodes, UniqueKeys, Reasoned, Acyclic;
    var versions := Children(nodes, id) - gone - {latest};
    var after := Revived(nodes, versions, latest, now);
    RevivedUnique(nodes, gone, versions, latest, now);
    RevivedShaped(nodes, versions, latest, now);
    RepointedMidway(base, nodes, after, gone, done, id, latest);
  }

  lemma RevivedShaped(nodes: Nodes, versions: set<Id>, latest: Id, now: int)
    requires Shaped(nodes) && latest in nodes && latest !in versions
    requires forall v :: v in versions ==> v in nodes && nodes[v].status.state == Superseded
    ensures Shaped(Revived(nodes, versions, latest, now))
  {
    var restored := nodes[latest := Restored(nodes[latest], now)];
    assert Revived(nodes, versions, latest, now) == Repointed(restored, versions, latest);
    RestoredShaped(nodes, latest, now);
    RepointedShaped(restored, versions, latest);
  }

  lemma RevivedUnique(nodes: Nodes, gone: set<Id>, versions: set<Id>, latest: Id, now: int)
    requires UniqueKeys(nodes) && Reasoned(nodes) && latest in nodes && latest !in versions
    requires forall n :: IsCurrent(nodes, n) && n in gone ==> nodes[n].key.None?
    requires Heirs(nodes, gone, nodes[latest].kind, nodes[latest].key) == {}
    ensures UniqueKeys(Revived(nodes, versions, latest, now)) && Reasoned(Revived(nodes, versions, latest, now))
  {
    RestoredUnique(nodes, gone, latest, now);
    UnkeyedUnique(nodes[latest := Restored(nodes[latest], now)], Revived(nodes, versions, latest, now));
  }

  lemma RestoredUnique(nodes: Nodes, gone: set<Id>, latest: Id, now: int)
    requires UniqueKeys(nodes) && Reasoned(nodes) && latest in nodes
    requires forall n :: IsCurrent(nodes, n) && n in gone ==> nodes[n].key.None?
    requires Heirs(nodes, gone, nodes[latest].kind, nodes[latest].key) == {}
    ensures UniqueKeys(nodes[latest := Restored(nodes[latest], now)])
    ensures Reasoned(nodes[latest := Restored(nodes[latest], now)])
  {
    var restored := nodes[latest := Restored(nodes[latest], now)];
    var key := nodes[latest].key;
    assert forall n :: n in Heirs(nodes, gone, nodes[latest].kind, key) <==>
      IsCurrent(nodes, n) && key.Some? && nodes[n].kind == nodes[latest].kind && nodes[n].key == key && n !in gone;
    forall a, b ensures !Clash(restored, a, b) {
      assert !Clash(nodes, a, b);
    }
  }

  lemma SettleMidway(base: Nodes, r: Revival, gone: set<Id>, done: set<Id>, id: Id, now: int)
    requires Midway(base, r.nodes, gone, done)
    ensures Midway(base, Settle(r, gone, id, now).nodes, gone, done + {id})
  {
    hide UniqueKeys, Reasoned, SameNodes;
    var versions := Children(r.nodes, id) - gone;
    if versions != {} {
      var latest := LatestVersion(r.nodes, versions);
      var heirs := Heirs(r.nodes, gone, r.nodes[latest].kind, r.nodes[latest].key);
      if heirs != {} {
        InheritedMidway(base, r.nodes, gone, done, id, PickOne(heirs));
      } else {
        RevivedMidway(base, r.nodes, gone, done, id, latest, now);
      }
    } else {
      assert forall n :: n in r.nodes && n !in gone && r.nodes[n].status.supersededBy == Some(id) ==> n in versions;
    }
  }

  lemma {:induction false} SettleAllMidway(base: Nodes, r: Revival, gone: set<Id>, current: seq<Id>, now: int)
    requires Midway(base, r.nodes, gone, {})
    ensures Midway(base, SettleAll(r, gone, current, now).nodes, gone, ToSet(current))
    decreases |current|
  {
    hide Midway;
    if current == [] {
      assert ToSet(current) == {};
    } else {
      var before := current[..|current| - 1];
      var last := current[|current| - 1];
      SettleAllMidway(base, r, gone, before, now);
      SettleMidway(base, SettleAll(r, gone, before, now), gone, ToSet(before), last, now);
      assert current == before + [last];
      assert ToSet(current) == ToSet(before) + {last};
    }
  }

  ghost predicate EndsIn(edges: set<Edge>, ids: set<Id>) {
    forall e :: e in edges ==> e.source in ids && e.target in ids && e.source != e.target
  }

  lemma {:induction false} SettleAllFacts(r: Revival, gone: set<Id>, current: seq<Id>, now: int)
    requires EndsIn(r.facts, r.nodes.Keys) && gone <= r.nodes.Keys
    ensures SettleAll(r, gone, current, now).nodes.Keys == r.nodes.Keys
    ensures EndsIn(SettleAll(r, gone, current, now).facts, r.nodes.Keys)
    decreases |current|
  {
    if current != [] {
      SettleAllFacts(r, gone, current[..|current| - 1], now);
    }
  }

  /** Once every doomed node has handed on its history, nothing that stays hangs off it. */
  lemma WithoutShaped(base: Nodes, nodes: Nodes, doomed: seq<Id>)
    requires Midway(base, nodes, ToSet(doomed), ToSet(CurrentOf(base, doomed)))
    ensures Shaped(Without(nodes, ToSet(doomed)))
  {
    hide UniqueKeys, Reasoned, SameNodes, HandedOn, CurrentOf, ToSet, Acyclic;
    NothingHangsOff(base, nodes, doomed);
    FewerLinks(LinksOf(nodes), LinksOf(Without(nodes, ToSet(doomed))));
  }

  lemma NothingHangsOff(base: Nodes, nodes: Nodes, doomed: seq<Id>)
    requires Midway(base, nodes, ToSet(doomed), ToSet(CurrentOf(base, doomed)))
    ensures forall n :: n in nodes && n !in ToSet(doomed) && nodes[n].status.supersededBy.Some? ==>
      nodes[n].status.supersededBy.value !in ToSet(doomed)
  {
    hide UniqueKeys, Reasoned, Acyclic;
    CurrentOfIs(base, doomed);
  }

  lemma WithoutUnique(nodes: Nodes, gone: set<Id>)
    requires UniqueKeys(nodes) && Reasoned(nodes)
    ensures UniqueKeys(Without(nodes, gone)) && Reasoned(Without(nodes, gone))
  {
    var kept := Without(nodes, gone);
    forall a, b ensures !Clash(kept, a, b) {
      assert !Clash(nodes, a, b);
    }
  }

  lemma ReviveMidway(db: Db, doomed: seq<Id>, now: int)
    requires Shaped(db.nodes) && UniqueKeys(db.nodes) && Reasoned(db.nodes)
    ensures Midway(db.nodes, Revive(db, doomed, now).nodes, ToSet(doomed), ToSet(CurrentOf(db.nodes, doomed)))
  {
    hide HandedOn, SameNodes, UniqueKeys, Reasoned;
    var current := CurrentOf(db.nodes, doomed);
    ReviveStarts(db.nodes, doomed);
    var start := Unkeyed(Lift(db.nodes, ToSet(doomed)), ToSet(current));
    SettleAllMidway(db.nodes, Revival(start, Facts(db.edges), []), ToSet(doomed), current, now);
  }

  /** Deleting nodes deletes just those, and leaves the others' words and sources alone. */
  lemma DropNodes(db: Db, doomed: seq<Id>, now: int)
    requires Shaped(db.nodes) && UniqueKeys(db.nodes) && Reasoned(db.nodes)
    ensures var nodes := Drop(db, doomed, now).db.nodes;
      && Shaped(nodes) && UniqueKeys(nodes) && Reasoned(nodes)
      && nodes.Keys == db.nodes.Keys - ToSet(doomed)
      && forall n :: n in nodes ==>
        nodes[n].kind == db.nodes[n].kind && nodes[n].key == db.nodes[n].key && nodes[n].content == db.nodes[n].content
  {
    hide Shaped, UniqueKeys, Reasoned, HandedOn, Revive;
    assert Acyclic(LinksOf(db.nodes)) by { ShapedIsAcyclic(db.nodes); }
    var nodes := Revive(db, doomed, now).nodes;
    ReviveMidway(db, doomed, now);
    WithoutShaped(db.nodes, nodes, doomed);
    WithoutUnique(nodes, ToSet(doomed));
  }

  lemma LinkEdgesEnd(nodes: Nodes)
    requires Shaped(nodes)
    ensures EndsIn(LinkEdges(nodes), nodes.Keys)
  {
    forall e | e in LinkEdges(nodes)
      ensures e.source in nodes && e.target in nodes && e.source != e.target
    {
      NoCycle(LinksOf(nodes), e.target, 1);
      assert Follow(LinksOf(nodes), e.target, 1) == e.source;
    }
  }

  /** The edges of current facts after a deletion, before those of the deleted nodes go. */
  lemma ReviveFacts(db: Db, doomed: seq<Id>, now: int)
    requires Shaped(db.nodes) && EndsIn(db.edges, db.nodes.Keys) && ToSet(doomed) <= db.nodes.Keys
    ensures EndsIn(Revive(db, doomed, now).facts, db.nodes.Keys)
  {
    var current := CurrentOf(db.nodes, doomed);
    var start := Revival(Unkeyed(Lift(db.nodes, ToSet(doomed)), ToSet(current)), Facts(db.edges), []);
    SettleAllFacts(start, ToSet(doomed), current, now);
  }

  lemma ApartJoined(edges: set<Edge>, keys: set<Id>, nodes: Nodes, gone: set<Id>)
    requires EndsIn(edges, keys) && Shaped(nodes) && nodes.Keys == keys - gone
    ensures Joined(nodes, Apart(edges, gone) + LinkEdges(nodes))
  {
    LinkEdgesEnd(nodes);
    hide Shaped;
    assert EndsIn(Apart(edges, gone), nodes.Keys);
  }

  lemma DropJoined(db: Db, doomed: seq<Id>, now: int)
    requires Shaped(db.nodes) && UniqueKeys(db.nodes) && Reasoned(db.nodes) && Joined(db.nodes, db.edges)
    requires ToSet(doomed) <= db.nodes.Keys
    ensures Joined(Drop(db, doomed, now).db.nodes, Drop(db, doomed, now).db.edges)
  {
    hide UniqueKeys, Reasoned, Revive, LinkEdges, Apart;
    ReviveFacts(db, doomed, now);
    DropNodes(db, doomed, now);
    var facts := Revive(db, doomed, now).facts;
    assert EndsIn(facts + Sups(db.edges), db.nodes.Keys);
    hide Shaped;
    ApartJoined(facts + Sups(db.edges), db.nodes.Keys, Drop(db, doomed, now).db.nodes, ToSet(doomed));
  }

  lemma DropKeeps(outside: Outside, db: Db, doomed: seq<Id>, now: int)
    requires Shaped(db.nodes) && UniqueKeys(db.nodes) && Reasoned(db.nodes) && Joined(db.nodes, db.edges)
    requires Embeds(outside, db.nodes) && ToSet(doomed) <= db.nodes.Keys
    requires forall n :: n in db.nodes ==> n < db.next && (n in doomed || db.nodes[n].content.sources != map[])
    ensures Valid(outside, Drop(db, doomed, now).db)
  {
    DropNodes(db, doomed, now);
    DropJoined(db, doomed, now);
    hide Shaped, UniqueKeys, Reasoned, Joined;
    var dropped := Drop(db, doomed, now).db;
    assert Supported(dropped.nodes);
    assert Embeds(outside, dropped.nodes);
  }
}
