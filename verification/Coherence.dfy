/** Every write reports a complete list of changes: applied to the vectors as they were, it gives
    the vectors as they are. */
module Coherence {
  import opened Chains
  import opened Wrappers
  import opened Knowledge
  import opened Writes
  import opened Invariants
  import opened Keeping
  import opened Runs
  import opened Vectors

  /** The row the cache reads from a stored node, if it has one. */
  function NodeRow(node: Node): Option<Row> {
    if HasVector(node) then SetRow(node.kind, node.status.state == Superseded, node.content.embedding.value) else None
  }

  /** The cache a reader builds from the tables. */
  function ViewOf(nodes: Nodes): View {
    map n | n in nodes && NodeRow(nodes[n]).Some? :: NodeRow(nodes[n]).value
  }

  /** A node has a row exactly when it has an embedding by the current model of the right length: its kind,
      whether it is a version, and the vector whose stored form the embedding is. */
  lemma ViewIs(nodes: Nodes)
    ensures forall n :: n in ViewOf(nodes) <==>
      && n in nodes && nodes[n].content.embedModel == Some(MODEL_ID)
      && nodes[n].content.embedding.Some? && |nodes[n].content.embedding.value| == 516
    ensures forall n :: n in ViewOf(nodes) ==>
      && n in nodes && nodes[n].content.embedding.Some?
      && ViewOf(nodes)[n].kind == nodes[n].kind
      && (ViewOf(nodes)[n].superseded <==> nodes[n].status.state == Superseded)
      && |ViewOf(nodes)[n].vector.scale| == 4 && |ViewOf(nodes)[n].vector.values| == 512
      && nodes[n].content.embedding.value == Stored(ViewOf(nodes)[n].vector)
  {
    hide Decode, Stored;
    forall n | n in nodes && nodes[n].content.embedding.Some? {
      StoredDecodes(nodes[n].content.embedding.value);
    }
  }

  ghost predicate Complete(before: Nodes, changes: seq<Change>, after: Nodes) {
    ApplyAll(ViewOf(before), changes) == ViewOf(after)
  }

  lemma CompleteInTurn(a: Nodes, first: seq<Change>, b: Nodes, second: seq<Change>, c: Nodes)
    requires Complete(a, first, b) && Complete(b, second, c)
    ensures Complete(a, first + second, c)
  {
    ApplyInTurn(ViewOf(a), first, second);
  }

  lemma SameRowsComplete(before: Nodes, after: Nodes)
    requires before.Keys == after.Keys && forall n :: n in before ==> NodeRow(before[n]) == NodeRow(after[n])
    ensures Complete(before, [], after)
  {
  }

  lemma PutView(nodes: Nodes, id: Id, node: Node)
    ensures ViewOf(nodes[id := node]) == Put(ViewOf(nodes), id, NodeRow(node))
  {
  }

  lemma OneChange(view: View, change: Change)
    ensures ApplyAll(view, [change]) == Apply(view, change)
  {
    assert [change][..0] == [];
    assert ApplyAll(view, []) == view;
  }

  lemma PutComplete(nodes: Nodes, id: Id, node: Node, change: Change)
    requires Apply(ViewOf(nodes), change) == Put(ViewOf(nodes), id, NodeRow(node))
    ensures Complete(nodes, [change], nodes[id := node])
  {
    PutView(nodes, id, node);
    OneChange(ViewOf(nodes), change);
  }

  lemma KeptComplete(nodes: Nodes, id: Id, node: Node)
    requires id in nodes && NodeRow(node) == NodeRow(nodes[id])
    ensures Complete(nodes, [], nodes[id := node])
  {
    SameRowsComplete(nodes, nodes[id := node]);
  }

  // Recording.

  lemma ArchiveComplete(db: Db, id: Id, reason: string, now: int)
    requires id in db.nodes && db.next !in db.nodes
    ensures Complete(db.nodes, Archive(db, id, reason, now).changes, Archive(db, id, reason, now).db.nodes)
  {
    var copy := SupersededNode(db.nodes[id], id, reason, now);
    var moved := map n | n in db.nodes ::
      if db.nodes[n].status.supersededBy == Some(id) then Under(db.nodes[n], db.next) else db.nodes[n];
    assert ArchiveNodes(db.nodes, id, db.next, reason, now) == moved[db.next := copy];
    SameRowsComplete(db.nodes, moved);
    if HasVector(copy) {
      PutComplete(moved, db.next, copy, Set(db.next, copy.kind, true, copy.content.embedding.value));
      CompleteInTurn(db.nodes, [], moved, ArchiveChanges(db.nodes[id], db.next), moved[db.next := copy]);
    } else {
      PutView(moved, db.next, copy);
    }
  }

  lemma EmbeddingComplete(nodes: Nodes, id: Id, node: Node)
    requires node.status.state != Superseded && node.content.embedModel == ModelOf(node.content.embedding)
    ensures Complete(nodes, [EmbeddingChange(id, node.kind, node.content.embedding)], nodes[id := node])
  {
    PutComplete(nodes, id, node, EmbeddingChange(id, node.kind, node.content.embedding));
  }

  lemma RewriteComplete(outside: Outside, db: Db, id: Id, node: NewNode, embedding: Option<Blob>, now: int)
    requires id in db.nodes && db.next !in db.nodes && node.kind == db.nodes[id].kind
    ensures var w := Rewrite(outside, db, id, node, embedding, now); Complete(db.nodes, w.changes, w.db.nodes)
  {
    var fold := FoldKey(outside, node.kind, node.provenance.session, node.title, node.body);
    var rewritten := Writes.Rewritten(db.nodes[id], node, fold, embedding, now);
    if KeepsHistory(node.kind) {
      var reason := RewriteReason(db.nodes[id], node);
      var archived := Archive(db, id, reason, now);
      ArchiveComplete(db, id, reason, now);
      EmbeddingComplete(archived.db.nodes, id, rewritten);
      CompleteInTurn(db.nodes, archived.changes, archived.db.nodes,
        [EmbeddingChange(id, node.kind, embedding)], archived.db.nodes[id := rewritten]);
    } else {
      EmbeddingComplete(db.nodes, id, rewritten);
    }
  }

  lemma ConfirmComplete(db: Db, id: Id, node: NewNode, embedding: Option<Blob>, now: int)
    requires IsCurrent(db.nodes, id) && (node.key.Some? ==> node.kind == db.nodes[id].kind)
    ensures var w := Confirm(db, id, node, embedding, now); Complete(db.nodes, w.changes, w.db.nodes)
  {
    var kept := if node.key.Some? then embedding else None;
    var confirmed := Confirmed(db.nodes[id], node, kept, now);
    if kept.Some? {
      PutComplete(db.nodes, id, confirmed, Set(id, node.kind, false, kept.value));
    } else {
      KeptComplete(db.nodes, id, confirmed);
    }
  }

  lemma RecordComplete(outside: Outside, db: Db, node: NewNode, embedding: Option<Blob>, now: int)
    requires db.next !in db.nodes
    ensures var w := Record(outside, db, node, embedding, now); Complete(db.nodes, w.changes, w.db.nodes)
  {
    match Existing(outside, db.nodes, node)
    case None =>
      var fold := FoldKey(outside, node.kind, node.provenance.session, node.title, node.body);
      EmbeddingComplete(db.nodes, db.next, Created(node, fold, embedding, now));
    case Some(id) =>
      if Confirms(db.nodes[id], node) {
        ConfirmComplete(db, id, node, embedding, now);
      } else {
        RewriteComplete(outside, db, id, node, embedding, now);
      }
  }

  // Superseding.

  lemma FlagComplete(nodes: Nodes, id: Id, node: Node)
    requires id in nodes && node.kind == nodes[id].kind && node.content == nodes[id].content
    ensures Complete(nodes, [Flag(id, node.status.state == Superseded)], nodes[id := node])
  {
    PutComplete(nodes, id, node, Flag(id, node.status.state == Superseded));
  }

  lemma {:induction false} FoldAllComplete(db: Db, nodes: Nodes, order: seq<Id>, now: int)
    requires db.nodes.Keys == nodes.Keys && forall id :: id in order ==> Folds(nodes, id)
    ensures Complete(db.nodes, FoldAll(db, nodes, order, now).changes, FoldAll(db, nodes, order, now).db.nodes)
    decreases |order|
  {
    if order != [] {
      var rest := order[..|order| - 1];
      FoldAllComplete(db, nodes, rest, now);
      var before := FoldAll(db, nodes, rest, now);
      var id := order[|order| - 1];
      assert id in order && Folds(nodes, id);
      var after := SupersedeDb(before.db, id, KeeperOf(nodes, id), FOLD_REASON, now);
      FlagComplete(before.db.nodes, id, after.nodes[id]);
      CompleteInTurn(db.nodes, before.changes, before.db.nodes, [Flag(id, true)], after.nodes);
    } else {
      SameRowsComplete(db.nodes, db.nodes);
    }
  }

  // Deleting and forgetting.

  lemma SettleComplete(base: Nodes, r: Revival, gone: set<Id>, id: Id, now: int)
    requires Complete(base, r.changes, r.nodes)
    ensures Complete(base, Settle(r, gone, id, now).changes, Settle(r, gone, id, now).nodes)
  {
    var versions := Children(r.nodes, id) - gone;
    if versions != {} {
      var latest := LatestVersion(r.nodes, versions);
      var heirs := Heirs(r.nodes, gone, r.nodes[latest].kind, r.nodes[latest].key);
      if heirs != {} {
        SameRowsComplete(r.nodes, Repointed(r.nodes, versions, PickOne(heirs)));
      } else {
        var moved := Repointed(r.nodes, versions - {latest}, latest);
        SameRowsComplete(r.nodes, moved);
        FlagComplete(moved, latest, Restored(r.nodes[latest], now));
        CompleteInTurn(base, r.changes, moved, [Flag(latest, false)], moved[latest := Restored(r.nodes[latest], now)]);
      }
    }
  }

  lemma {:induction false} SettleAllComplete(base: Nodes, r: Revival, gone: set<Id>, current: seq<Id>, now: int)
    requires Complete(base, r.changes, r.nodes)
    ensures Complete(base, SettleAll(r, gone, current, now).changes, SettleAll(r, gone, current, now).nodes)
    decreases |current|
  {
    if current != [] {
      SettleAllComplete(base, r, gone, current[..|current| - 1], now);
      hide Complete;
      SettleComplete(base, SettleAll(r, gone, current[..|current| - 1], now), gone, current[|current| - 1], now);
    }
  }

  lemma {:induction false} RemovalsComplete(nodes: Nodes, doomed: seq<Id>)
    ensures Complete(nodes, Removals(doomed), Without(nodes, ToSet(doomed)))
  {
    if doomed == [] {
      assert Without(nodes, ToSet(doomed)) == nodes;
    } else {
      var before, last := doomed[..|doomed| - 1], doomed[|doomed| - 1];
      RemovalsComplete(nodes, before);
      assert Removals(doomed)[..|doomed| - 1] == Removals(before);
      assert doomed == before + [last];
      assert ViewOf(Without(nodes, ToSet(doomed))) == ViewOf(Without(nodes, ToSet(before))) - {last};
    }
  }

  lemma DropComplete(db: Db, doomed: seq<Id>, now: int)
    requires Acyclic(LinksOf(db.nodes))
    ensures var w := Drop(db, doomed, now); Complete(db.nodes, w.changes, w.db.nodes)
  {
    var gone, current := ToSet(doomed), CurrentOf(db.nodes, doomed);
    var start := Unkeyed(Lift(db.nodes, gone), ToSet(current));
    SameRowsComplete(db.nodes, start);
    SettleAllComplete(db.nodes, Revival(start, Facts(db.edges), []), gone, current, now);
    var revived := Revive(db, doomed, now);
    RemovalsComplete(revived.nodes, doomed);
    CompleteInTurn(db.nodes, revived.changes, revived.nodes, Removals(doomed), Without(revived.nodes, gone));
  }

  lemma DeleteComplete(db: Db, id: Id, now: int)
    requires Acyclic(LinksOf(db.nodes)) && Delete(db, id, now).Ok?
    ensures var w := Delete(db, id, now).value; Complete(db.nodes, w.changes, w.db.nodes)
  {
    DropComplete(db, [id], now);
  }

  lemma ReleaseComplete(db: Db, selection: Selection, affected: seq<Id>, now: int)
    requires Shaped(db.nodes)
    ensures var w := Release(db, selection, affected, now); Complete(db.nodes, w.changes, w.db.nodes)
  {
    var thinned := Thinned(db.nodes, affected, selection);
    ReleaseIsDrop(db, selection, affected, now);
    SameRowsComplete(db.nodes, thinned);
    hide Shaped, Release, Drop;
    DropComplete(db.(nodes := thinned), LastSupported(db.nodes, affected, selection), now);
  }

  // The rest.

  lemma {:induction false} SetEmbeddingsComplete(db: Db, items: seq<Embedded>)
    ensures Complete(db.nodes, SetEmbeddings(db, items).changes, SetEmbeddings(db, items).db.nodes)
  {
    if items == [] {
      SameRowsComplete(db.nodes, db.nodes);
    } else {
      var before := SetEmbeddings(db, items[..|items| - 1]);
      SetEmbeddingsComplete(db, items[..|items| - 1]);
      SetEmbeddingComplete(before.db, items[|items| - 1]);
      var after := SetEmbedding(before.db, items[|items| - 1]);
      CompleteInTurn(db.nodes, before.changes, before.db.nodes, after.changes, after.db.nodes);
    }
  }

  lemma SetEmbeddingComplete(db: Db, item: Embedded)
    ensures Complete(db.nodes, SetEmbedding(db, item).changes, SetEmbedding(db, item).db.nodes)
  {
    if Takes(db.nodes, item) {
      var node := db.nodes[item.id];
      PutComplete(db.nodes, item.id, WithEmbedding(node, item.blob),
        Set(item.id, node.kind, node.status.state == Superseded, item.blob));
    } else {
      SameRowsComplete(db.nodes, db.nodes);
    }
  }

  lemma ExpireComplete(nodes: Nodes, now: int)
    ensures Complete(nodes, [], Expire(nodes, now))
  {
    SameRowsComplete(nodes, Expire(nodes, now));
  }

  lemma FilesChangedComplete(nodes: Nodes, changes: seq<FileRef>, now: int)
    ensures Complete(nodes, [], FilesChanged(nodes, changes, now))
  {
    forall n | n in nodes ensures NodeRow(nodes[n]) == NodeRow(MarkedAll(nodes[n], changes, now)) {
      MarkedAllKeeps(nodes[n], changes, now);
    }
    hide NodeRow;
    SameRowsComplete(nodes, FilesChanged(nodes, changes, now));
  }

  lemma {:induction false} ForgetAllComplete(db: Db, parts: seq<Part>, now: int)
    requires Shaped(db.nodes) && UniqueKeys(db.nodes) && Reasoned(db.nodes) && ForgetAll(db, parts, now).Ok?
    ensures var w := ForgetAll(db, parts, now).value; Complete(db.nodes, w.changes, w.db.nodes)
    decreases |parts|
  {
    hide UniqueKeys, Reasoned;
    if parts == [] {
      SameRowsComplete(db.nodes, db.nodes);
    } else {
      ForgetAllComplete(db, parts[..|parts| - 1], now);
      hide Complete, Shaped;
      var before := ForgetAll(db, parts[..|parts| - 1], now).value;
      var part := parts[|parts| - 1];
      ReleaseComplete(before.db, part.selection, part.order, now);
      var after := Release(before.db, part.selection, part.order, now);
      CompleteInTurn(db.nodes, before.changes, before.db.nodes, after.changes, after.db.nodes);
    }
  }

  lemma {:induction false} RecordAllComplete(outside: Outside, db: Db, items: seq<Item>, now: int)
    requires Valid(outside, db) && HonestItems(outside, items)
    ensures var w := RecordAll(outside, db, items, now); Complete(db.nodes, w.changes, w.db.nodes)
    decreases |items|
  {
    if items == [] {
      SameRowsComplete(db.nodes, db.nodes);
    } else {
      hide Complete;
      var rest, last := items[..|items| - 1], items[|items| - 1];
      RecordAllComplete(outside, db, rest, now);
      var before := RecordAll(outside, db, rest, now);
      RecordAllKeeps(outside, db, rest, now);
      NextIsNew(outside, before.db);
      hide Valid;
      RecordComplete(outside, before.db, last.node, last.embedding, now);
      var after := Record(outside, before.db, last.node, last.embedding, now);
      CompleteInTurn(db.nodes, before.changes, before.db.nodes, after.changes, after.db.nodes);
    }
  }

  lemma NextIsNew(outside: Outside, db: Db)
    requires Valid(outside, db)
    ensures db.next !in db.nodes && Acyclic(LinksOf(db.nodes)) && Shaped(db.nodes)
  {
  }

  lemma ReplaceComplete(outside: Outside, db: Db, node: NewNode, embedding: Option<Blob>, earlier: Endpoint,
                        reason: string, now: int)
    requires Valid(outside, db) && EmbeddingOf(outside, embedding, node.title, node.body)
    requires Replace(outside, db, node, embedding, earlier, reason, now).Ok?
    ensures var w := Replace(outside, db, node, embedding, earlier, reason, now).value; Complete(db.nodes, w.changes, w.db.nodes)
  {
    hide Complete;
    var w := Record(outside, db, node, embedding, now);
    NextIsNew(outside, db);
    RecordComplete(outside, db, node, embedding, now);
    RecordKeeps(outside, db, node, embedding, now);
    hide Valid;
    if Resolve(w.db.nodes, earlier) != Ok(w.value) {
      NextIsNew(outside, w.db);
      var s := Supersede(w.db, earlier, ById(w.value), reason, now).value;
      SupersedeComplete(w.db, earlier, ById(w.value), reason, now);
      CompleteInTurn(db.nodes, w.changes, w.db.nodes, s.changes, s.db.nodes);
    }
  }

  lemma SupersedeComplete(db: Db, earlier: Endpoint, later: Endpoint, reason: string, now: int)
    requires Acyclic(LinksOf(db.nodes)) && Supersede(db, earlier, later, reason, now).Ok?
    ensures var w := Supersede(db, earlier, later, reason, now).value; Complete(db.nodes, w.changes, w.db.nodes)
  {
    var id := Resolve(db.nodes, earlier).value;
    FlagComplete(db.nodes, id, SupersededNode(db.nodes[id], Resolve(db.nodes, later).value, reason, now));
  }

  lemma RefreshComplete(outside: Outside, db: Db, task: string, items: seq<Item>, joins: seq<Id> -> seq<NewEdge>,
                        order: seq<Id>, now: int)
    requires Valid(outside, db) && HonestItems(outside, items)
    requires Refresh(outside, db, task, items, joins, order, now).Ok?
    ensures var w := Refresh(outside, db, task, items, joins, order, now).value; Complete(db.nodes, w.changes, w.db.nodes)
  {
    hide Complete;
    var recorded := RecordAll(outside, db, items, now);
    RecordAllKeeps(outside, db, items, now);
    RecordAllComplete(outside, db, items, now);
    hide Valid;
    var linked := Link(recorded.db, joins(recorded.value)).value;
    LinkKeeps(outside, recorded.db, joins(recorded.value));
    NextIsNew(outside, linked);
    ReleaseComplete(linked, OfTask(task), order, now);
    var w := Release(linked, OfTask(task), order, now);
    CompleteInTurn(db.nodes, recorded.changes, recorded.db.nodes, w.changes, w.db.nodes);
  }

  lemma SettleRulesComplete(outside: Outside, db: Db, order: seq<Id>, now: int)
    requires forall id :: id in order ==> Folds(Rekeyed(outside, db.nodes), id)
    ensures var w := SettleRules(outside, db, order, now); Complete(db.nodes, w.changes, w.db.nodes)
  {
    var nodes := Rekeyed(outside, db.nodes);
    SameRowsComplete(db.nodes, nodes);
    FoldAllComplete(db.(nodes := nodes), nodes, order, now);
    var w := SettleRules(outside, db, order, now);
    CompleteInTurn(db.nodes, [], nodes, w.changes, w.db.nodes);
    assert [] + w.changes == w.changes;
  }

  /** Whatever the command, its changes bring the vectors as they were up to date. */
  lemma ExecComplete(outside: Outside, db: Db, command: Command)
    requires Valid(outside, db) && Honest(outside, command)
    ensures var w := Exec(outside, db, command); Complete(db.nodes, w.changes, w.db.nodes)
  {
    SameRowsComplete(db.nodes, db.nodes);
    NextIsNew(outside, db);
    hide Complete, Shaped, UniqueKeys, Reasoned, Supported, Embeds, Joined, Delete, Drop, Record, SetEmbeddings, SettleRules;
    if Attempt(outside, db, command).Ok? {
      match command
      case Recording(node, embedding, now) => RecordComplete(outside, db, node, embedding, now);
      case Replacing(node, embedding, earlier, reason, now) =>
        ReplaceComplete(outside, db, node, embedding, earlier, reason, now);
      case Linking(edges) => LinkedNodes(db, edges);
      case Relinking(sources, edges) =>
        ClearedNodes(db, sources);
        LinkedNodes(Cleared(db, sources).value, edges);
      case Superseding(earlier, later, reason, now) => SupersedeComplete(db, earlier, later, reason, now);
      case Deleting(id, now) => DeleteComplete(db, id, now);
      case Forgetting(parts, now) => ForgetAllComplete(db, parts, now);
      case Refreshing(task, items, joins, order, now) => RefreshComplete(outside, db, task, items, joins, order, now);
      case ChangingFiles(changes, now) => FilesChangedComplete(db.nodes, changes, now);
      case Expiring(now) => ExpireComplete(db.nodes, now);
      case StoringEmbeddings(batch) => SetEmbeddingsComplete(db, batch);
      case SettlingRules(order, now) => SettleRulesComplete(outside, db, order, now);
    }
  }
}
