/** A Brain: its tables with the vector cache beside them. A write either leaves both in step or
    changes neither. */
module Brain {
  import opened Chains
  import opened Wrappers
  import opened Knowledge
  import opened Writes
  import opened Invariants
  import opened Keeping
  import opened Runs
  import opened Vectors
  import opened Coherence
  import opened BrainGraph

  class Handle {
    const outside: Outside
    const graph: Graph
    var table: Table?

    /** The tables keep every invariant, and a built cache holds exactly their vectors. */
    ghost predicate Good()
      reads this, graph, table
    {
      && Valid(outside, graph.Tables())
      && (table != null ==> table.Valid() && table.Contents() == ViewOf(graph.nodes))
    }

    constructor (outside: Outside)
      ensures Good() && fresh(graph) && table == null && this.outside == outside && graph.Tables() == EMPTY
    {
      EmptyIsValid(outside);
      this.outside := outside;
      graph := new Graph();
      table := null;
    }

    /** Leaves a cache that is already built; otherwise reads the tables row by row into a new one. */
    method EnsureVectors()
      requires Good()
      modifies this
      ensures Good() && table != null && graph.Tables() == old(graph.Tables())
      ensures old(table) != null ==> table == old(table)
    {
      if table != null {
        return;
      }
      hide Valid;
      table := BuildTable();
    }

    /** One row per stored vector of the current model. */
    method BuildTable() returns (built: Table)
      ensures fresh(built) && built.Valid() && built.Contents() == ViewOf(graph.nodes)
    {
      built := new Table();
      var nodes := graph.nodes;
      var rest := set n | n in nodes && HasVector(nodes[n]);
      ghost var all := rest;
      ghost var read: Nodes := map[];
      while rest != {}
        invariant built.Valid() && fresh(built) && built.Contents() == ViewOf(read)
        invariant rest <= all
        invariant forall n :: n in read ==> n in nodes && read[n] == nodes[n]
        invariant forall n :: n in nodes && HasVector(nodes[n]) ==> n in rest || n in read
        decreases rest
      {
        var id :| id in rest;
        PutView(read, id, nodes[id]);
        WithVector(nodes[id]);
        built.SetVector(id, nodes[id].kind, nodes[id].status.state == Superseded, nodes[id].content.embedding.value);
        rest := rest - {id};
        read := read[id := nodes[id]];
      }
      ReadAll(nodes, read);
    }

    method ClearVectors()
      requires Good()
      modifies this
      ensures Good() && table == null && graph.Tables() == old(graph.Tables())
    {
      table := null;
    }

    /** The transaction commits, and then its changes reach the cache. */
    method Commit(ghost before: Db, ghost command: Command)
      requires Valid(outside, before) && Honest(outside, command)
      requires Attempt(outside, before, command) == Ok(Write(graph.Tables(), graph.changes, DONE))
      requires table != null ==> table.Valid() && table.Contents() == ViewOf(before.nodes)
      modifies table
      ensures Good() && graph.Tables() == old(graph.Tables())
    {
      AttemptKeeps(outside, before, command);
      ExecComplete(outside, before, command);
      hide Valid, Attempt, ViewOf;
      if table != null {
        table.ApplyChanges(graph.changes);
      }
    }

    method Rollback(before: Db)
      modifies graph
      ensures graph.Tables() == before
    {
      graph.nodes, graph.edges, graph.next, graph.changes := before.nodes, before.edges, before.next, [];
    }

    method Begin() returns (before: Db)
      modifies graph
      ensures graph.Tables() == old(graph.Tables()) == before && graph.changes == []
    {
      graph.changes := [];
      before := Db(graph.nodes, graph.edges, graph.next);
    }

    /** What the model makes of a node's words; nothing when there is no model. */
    function EmbeddingIfLoaded(node: NewNode, loaded: bool): (e: Option<Blob>)
      ensures EmbeddingOf(outside, e, node.title, node.body) && (e.Some? <==> loaded)
    {
      if loaded then Some(outside.embed(node.title, node.body)) else None
    }

    method Record(node: NewNode, loaded: bool, now: int) returns (r: Result<Id>)
      requires Good()
      modifies this, graph, table
      ensures Good() && table == old(table)
      ensures var command := Recording(node, EmbeddingIfLoaded(node, loaded), now);
        && graph.Tables() == Exec(outside, old(graph.Tables()), command).db
        && r.Ok? == Exec(outside, old(graph.Tables()), command).value
        && (r.Err? ==> Attempt(outside, old(graph.Tables()), command) == Err(r.error))
      ensures r.Ok? ==>
        r.value == Writes.Record(outside, old(graph.Tables()), node, EmbeddingIfLoaded(node, loaded), now).value
    {
      if outside.blank(node.title) || (node.key.Some? && outside.blank(node.key.value)) {
        return Err(Invalid);
      }
      var before := Begin();
      hide Valid, ViewOf;
      var id := RecordIn(node, EmbeddingIfLoaded(node, loaded), now);
      Commit(before, Recording(node, EmbeddingIfLoaded(node, loaded), now));
      return Ok(id);
    }

    method RecordIn(node: NewNode, embedding: Option<Blob>, now: int) returns (id: Id)
      requires Valid(outside, graph.Tables()) && EmbeddingOf(outside, embedding, node.title, node.body)
      modifies graph
      ensures var w := Writes.Record(outside, old(graph.Tables()), node, embedding, now);
        graph.Tables() == w.db && id == w.value && graph.changes == old(graph.changes) + w.changes
      ensures old(graph.changes) == [] ==> graph.changes == Writes.Record(outside, old(graph.Tables()), node, embedding, now).changes
      ensures Valid(outside, graph.Tables()) && id in graph.nodes
    {
      ghost var before := graph.Tables();
      RecordReady(outside, before);
      RecordKeeps(outside, before, node, embedding, now);
      RecordStored(outside, before, node, embedding, now);
      hide Valid, Writes.Record;
      id := graph.RecordNode(outside, node, embedding, now);
    }

    /** Both happen or neither: a replacement that is refused takes the recording with it. */
    method RecordReplacing(node: NewNode, loaded: bool, earlier: Endpoint, reason: string, now: int) returns (r: Result<Id>)
      requires Good()
      modifies this, graph, table
      ensures Good() && table == old(table)
      ensures var command := Replacing(node, EmbeddingIfLoaded(node, loaded), earlier, reason, now);
        && graph.Tables() == Exec(outside, old(graph.Tables()), command).db
        && r.Ok? == Exec(outside, old(graph.Tables()), command).value
        && (r.Err? ==> Attempt(outside, old(graph.Tables()), command) == Err(r.error))
      ensures r.Ok? ==>
        r.value == Writes.Record(outside, old(graph.Tables()), node, EmbeddingIfLoaded(node, loaded), now).value
    {
      if outside.blank(node.title) || (node.key.Some? && outside.blank(node.key.value)) {
        return Err(Invalid);
      }
      var before := Begin();
      hide Valid, ViewOf, Replace;
      r := ReplaceIn(node, EmbeddingIfLoaded(node, loaded), earlier, reason, now);
      if r.Err? {
        Rollback(before);
      } else {
        Commit(before, Replacing(node, EmbeddingIfLoaded(node, loaded), earlier, reason, now));
      }
    }

    method ReplaceIn(node: NewNode, embedding: Option<Blob>, earlier: Endpoint, reason: string, now: int) returns (r: Result<Id>)
      requires Valid(outside, graph.Tables()) && graph.changes == [] && EmbeddingOf(outside, embedding, node.title, node.body)
      modifies graph
      ensures r.Err? ==> Replace(outside, old(graph.Tables()), node, embedding, earlier, reason, now) == Err(r.error)
      ensures r.Ok? ==> r.value == Writes.Record(outside, old(graph.Tables()), node, embedding, now).value
      ensures r.Ok? ==>
        Replace(outside, old(graph.Tables()), node, embedding, earlier, reason, now) == Ok(Write(graph.Tables(), graph.changes, DONE))
    {
      hide Valid, Writes.Record;
      var id := RecordIn(node, embedding, now);
      ValidIsShaped(outside, graph.Tables());
      var found := graph.ResolveEnd(earlier);
      if found.Err? {
        return Err(found.error);
      }
      if found.value != id {
        hide Writes.Supersede;
        var s := graph.SupersedeNode(earlier, ById(id), reason, now);
        if s.Err? {
          return Err(s.error);
        }
      }
      return Ok(id);
    }

    /** Forgets what came from each of `origins`, in one transaction. `parts` lists each with
        the nodes its query found. */
    method ForgetOrigins(origins: seq<Origin>, now: int) returns (gone: nat, parts: seq<Part>)
      requires Good()
      modifies this, graph, table
      ensures Good() && table == old(table)
      ensures |parts| == |origins| && forall i :: 0 <= i < |origins| ==> parts[i].selection == OfOrigin(origins[i])
      ensures ForgetsAs(outside, old(graph.Tables()), parts, now, graph.Tables(), gone)
    {
      var before := Begin();
      hide Valid, ViewOf, Forgot, ForgetsAs;
      gone, parts := ForgetIn(origins, now);
      ForgotCommits(outside, before, parts, now, graph.Tables(), graph.changes, gone);
      hide Attempt;
      Commit(before, Forgetting(parts, now));
    }

    method ForgetIn(origins: seq<Origin>, now: int) returns (gone: nat, parts: seq<Part>)
      requires Valid(outside, graph.Tables()) && graph.changes == []
      modifies graph
      ensures |parts| == |origins| && forall i :: 0 <= i < |origins| ==> parts[i].selection == OfOrigin(origins[i])
      ensures Forgot(outside, old(graph.Tables()), parts, now, graph.Tables(), graph.changes, gone)
    {
      hide Valid, Forgot, Shaped, UniqueKeys, Reasoned, Joined, Release, Enumerates, Affected;
      ghost var before := graph.Tables();
      gone, parts := 0, [];
      NothingForgotten(outside, before, now);
      for i := 0 to |origins|
        invariant |parts| == i && forall j :: 0 <= j < i ==> parts[j].selection == OfOrigin(origins[j])
        invariant Valid(outside, graph.Tables())
        invariant Forgot(outside, before, parts, now, graph.Tables(), graph.changes, gone)
      {
        ghost var middle, start := graph.Tables(), graph.changes;
        ReleaseReady(outside, middle);
        var went, order := graph.Forget(OfOrigin(origins[i]), now);
        ForgetAllMore(outside, before, parts, Part(OfOrigin(origins[i]), order), now, middle, start, gone);
        gone := gone + went;
        parts := parts + [Part(OfOrigin(origins[i]), order)];
      }
    }

    /** The items, the edges between them and the release of the task's other current nodes, which
        the query listed in `order`. */
    method RefreshTask(task: string, items: seq<NewNode>, loaded: bool, joins: seq<Id> -> seq<NewEdge>, now: int)
      returns (r: Result<seq<Id>>, order: seq<Id>)
      requires Good()
      modifies this, graph, table
      ensures Good() && table == old(table)
      ensures var command := Refreshing(task, ItemsOf(items, loaded), joins, order, now);
        && graph.Tables() == Exec(outside, old(graph.Tables()), command).db
        && r.Ok? == Exec(outside, old(graph.Tables()), command).value
        && (r.Err? ==> Attempt(outside, old(graph.Tables()), command) == Err(r.error))
      ensures r.Ok? ==> r.value == RecordAll(outside, old(graph.Tables()), ItemsOf(items, loaded), now).value
    {
      var checked := CheckAll(items);
      if !checked {
        return Err(Invalid), [];
      }
      var before := Begin();
      hide Valid, ViewOf, Refresh, RecordAll, Checks, Attempt, EmbeddingIfLoaded;
      r, order := RefreshIn(task, items, loaded, joins, now);
      RefreshAttempts(outside, before, task, ItemsOf(items, loaded), joins, order, now);
      if r.Err? {
        Rollback(before);
      } else {
        Commit(before, Refreshing(task, ItemsOf(items, loaded), joins, order, now));
      }
    }

    method CheckAll(items: seq<NewNode>) returns (checked: bool)
      ensures checked <==> forall i :: 0 <= i < |items| ==> Checks(outside, items[i])
    {
      for i := 0 to |items|
        invariant forall j :: 0 <= j < i ==> Checks(outside, items[j])
      {
        if outside.blank(items[i].title) || (items[i].key.Some? && outside.blank(items[i].key.value)) {
          return false;
        }
      }
      return true;
    }

    method RefreshIn(task: string, items: seq<NewNode>, loaded: bool, joins: seq<Id> -> seq<NewEdge>, now: int)
      returns (r: Result<seq<Id>>, order: seq<Id>)
      requires Valid(outside, graph.Tables()) && graph.changes == []
      modifies graph
      ensures r.Ok? ==>
        Refresh(outside, old(graph.Tables()), task, ItemsOf(items, loaded), joins, order, now)
          == Ok(Write(graph.Tables(), graph.changes, DONE))
      ensures r.Ok? ==> r.value == RecordAll(outside, old(graph.Tables()), ItemsOf(items, loaded), now).value
      ensures r.Err? ==>
        Refresh(outside, old(graph.Tables()), task, ItemsOf(items, loaded), joins, order, now) == Err(r.error)
    {
      ghost var before := graph.Tables();
      hide Valid, RecordAll, Writes.Link, Release;
      order := [];
      var ids := RecordItems(items, loaded, now, before);
      var linked := graph.LinkAll(joins(ids));
      if linked.Err? {
        return Err(linked.error), [];
      }
      LinkKeeps(outside, RecordAll(outside, before, ItemsOf(items, loaded), now).db, joins(ids));
      ReleaseReady(outside, graph.Tables());
      hide Shaped, UniqueKeys, Reasoned, Joined;
      var went, listed := graph.ReleaseTask(task, ids, now);
      return Ok(ids), listed;
    }

    function ItemsOf(items: seq<NewNode>, loaded: bool): (embedded: seq<Item>)
      ensures HonestItems(outside, embedded)
      ensures |embedded| == |items| && forall i :: 0 <= i < |items| ==> embedded[i].node == items[i]
    {
      seq(|items|, i requires 0 <= i < |items| => Item(items[i], EmbeddingIfLoaded(items[i], loaded)))
    }

    method RecordItems(items: seq<NewNode>, loaded: bool, now: int, ghost before: Db) returns (ids: seq<Id>)
      requires graph.Tables() == before && graph.changes == [] && Valid(outside, before)
      modifies graph
      ensures RecordAll(outside, before, ItemsOf(items, loaded), now) == Write(graph.Tables(), graph.changes, ids)
      ensures Valid(outside, graph.Tables())
    {
      ids := [];
      ghost var embedded := ItemsOf(items, loaded);
      hide Valid, Writes.Record;
      for i := 0 to |items|
        invariant RecordAll(outside, before, embedded[..i], now) == Write(graph.Tables(), graph.changes, ids)
        invariant Valid(outside, graph.Tables())
      {
        assert embedded[..i + 1][..i] == embedded[..i];
        var id := RecordIn(items[i], EmbeddingIfLoaded(items[i], loaded), now);
        ids := ids + [id];
      }
      assert embedded[..|items|] == embedded;
    }

    // The other commands, each one transaction.

    method Link(edges: seq<NewEdge>) returns (r: Result<()>)
      requires Good()
      modifies this, graph, table
      ensures Good() && table == old(table)
      ensures var command := Linking(edges);
        && graph.Tables() == Exec(outside, old(graph.Tables()), command).db
        && r.Ok? == Exec(outside, old(graph.Tables()), command).value
        && (r.Err? ==> Attempt(outside, old(graph.Tables()), command) == Err(r.error))
    {
      var before := Begin();
      hide Valid, ViewOf, Writes.Link;
      r := graph.LinkAll(edges);
      if r.Err? {
        Rollback(before);
      } else {
        Commit(before, Linking(edges));
      }
    }

    method RelinkStructure(sources: seq<Endpoint>, edges: seq<NewEdge>) returns (r: Result<()>)
      requires Good()
      modifies this, graph, table
      ensures Good() && table == old(table)
      ensures var command := Relinking(sources, edges);
        && graph.Tables() == Exec(outside, old(graph.Tables()), command).db
        && r.Ok? == Exec(outside, old(graph.Tables()), command).value
        && (r.Err? ==> Attempt(outside, old(graph.Tables()), command) == Err(r.error))
    {
      var before := Begin();
      hide Valid, ViewOf, Relink;
      r := graph.RelinkStructure(sources, edges);
      if r.Err? {
        Rollback(before);
      } else {
        Commit(before, Relinking(sources, edges));
      }
    }

    method Supersede(earlier: Endpoint, later: Endpoint, reason: string, now: int) returns (r: Result<()>)
      requires Good()
      modifies this, graph, table
      ensures Good() && table == old(table)
      ensures var command := Superseding(earlier, later, reason, now);
        && graph.Tables() == Exec(outside, old(graph.Tables()), command).db
        && r.Ok? == Exec(outside, old(graph.Tables()), command).value
        && (r.Err? ==> Attempt(outside, old(graph.Tables()), command) == Err(r.error))
    {
      hide Valid, ViewOf, Writes.Supersede, Acyclic, Shaped, UniqueKeys, Reasoned, Attempt;
      var before := Begin();
      ValidIsShaped(outside, before);
      SupersedeAttempts(outside, before, earlier, later, reason, now);
      r := graph.SupersedeNode(earlier, later, reason, now);
      ghost var attempt := Writes.Supersede(before, earlier, later, reason, now);
      assert r.Ok? ==> [] + attempt.value.changes == attempt.value.changes && attempt.value.value == DONE;
      if r.Err? {
        Rollback(before);
      } else {
        Commit(before, Superseding(earlier, later, reason, now));
      }
    }

    method Delete(id: Id, now: int) returns (r: Result<()>)
      requires Good()
      modifies this, graph, table
      ensures Good() && table == old(table)
      ensures var command := Deleting(id, now);
        && graph.Tables() == Exec(outside, old(graph.Tables()), command).db
        && r.Ok? == Exec(outside, old(graph.Tables()), command).value
        && (r.Err? ==> Attempt(outside, old(graph.Tables()), command) == Err(r.error))
    {
      hide Valid, ViewOf, Writes.Delete, Acyclic, Shaped, UniqueKeys, Reasoned, Joined, Attempt;
      var before := Begin();
      ValidIsShaped(outside, before);
      ReleaseReady(outside, before);
      DeleteAttempts(outside, before, id, now);
      r := graph.DeleteNode(id, now);
      ghost var attempt := Writes.Delete(before, id, now);
      assert r.Ok? ==> [] + attempt.value.changes == attempt.value.changes && attempt.value.value == DONE;
      if r.Err? {
        Rollback(before);
      } else {
        Commit(before, Deleting(id, now));
      }
    }

    /** `order` is how the query listed the nodes the session supports. */
    method ForgetSession(session: string, now: int) returns (gone: nat, order: seq<Id>)
      requires Good()
      modifies this, graph, table
      ensures Good() && table == old(table)
      ensures ForgetsAs(outside, old(graph.Tables()), [Part(OfSession(session), order)], now, graph.Tables(), gone)
    {
      var before := Begin();
      ReleaseReady(outside, before);
      hide Valid, ViewOf, Shaped, UniqueKeys, Reasoned, Joined, Release, Forgot, ForgetsAs, Affected, Enumerates;
      NothingForgotten(outside, before, now);
      gone, order := graph.Forget(OfSession(session), now);
      ForgetAllMore(outside, before, [], Part(OfSession(session), order), now, before, [], 0);
      assert [] + [Part(OfSession(session), order)] == [Part(OfSession(session), order)];
      assert [] + graph.changes == graph.changes;
      ForgotCommits(outside, before, [Part(OfSession(session), order)], now, graph.Tables(), graph.changes, gone);
      hide Attempt;
      Commit(before, Forgetting([Part(OfSession(session), order)], now));
    }

    method ChangeFiles(files: seq<FileRef>, now: int) returns (stale: seq<Id>)
      requires Good()
      modifies this, graph, table
      ensures Good() && table == old(table)
      ensures graph.Tables() == Exec(outside, old(graph.Tables()), ChangingFiles(files, now)).db
      ensures Enumerates(stale, WentStale(old(graph.nodes), graph.nodes))
    {
      var before := Begin();
      hide Valid, ViewOf, FilesChanged, Enumerates;
      ghost var ends: seq<nat>;
      stale, ends := graph.ChangeFiles(files, now);
      Commit(before, ChangingFiles(files, now));
    }

    method Expire(now: int) returns (expired: nat)
      requires Good()
      modifies this, graph, table
      ensures Good() && table == old(table)
      ensures graph.Tables() == Exec(outside, old(graph.Tables()), Expiring(now)).db
      ensures expired == |WentStale(old(graph.nodes), graph.nodes)|
    {
      var before := Begin();
      hide Valid, ViewOf, Writes.Expire;
      var ids := graph.ExpireNodes(now);
      Commit(before, Expiring(now));
      return |ids|;
    }

    method SetEmbeddings(batch: seq<Embedded>) returns (stored: nat)
      requires Good() && Embedding(outside, batch)
      modifies this, graph, table
      ensures Good() && table == old(table)
      ensures graph.Tables() == Exec(outside, old(graph.Tables()), StoringEmbeddings(batch)).db
      ensures stored == Writes.SetEmbeddings(old(graph.Tables()), batch).value
    {
      var before := Begin();
      hide Valid, ViewOf, Writes.SetEmbeddings, Embedding;
      stored := graph.StoreEmbeddings(batch);
      assert [] + Writes.SetEmbeddings(before, batch).changes == Writes.SetEmbeddings(before, batch).changes;
      Commit(before, StoringEmbeddings(batch));
    }

    /** `order` is how the queries listed the rules to fold. */
    method SettleRules(now: int) returns (folded: nat, order: seq<Id>)
      requires Good()
      modifies this, graph, table
      ensures Good() && table == old(table)
      ensures graph.Tables() == Exec(outside, old(graph.Tables()), SettlingRules(order, now)).db
      ensures Writes.Settles(outside, old(graph.nodes), order) && folded == |order|
    {
      var before := Begin();
      hide Valid, ViewOf, SettledTo;
      folded, order := graph.SettleRulesNow(outside, now);
      SettleAttempts(outside, before, order, now, graph.Tables(), folded, graph.changes);
      hide Attempt, Writes.Settles;
      Commit(before, SettlingRules(order, now));
    }
  }

  lemma SupersedeAttempts(outside: Outside, db: Db, earlier: Endpoint, later: Endpoint, reason: string, now: int)
    requires Valid(outside, db) && Acyclic(LinksOf(db.nodes))
    ensures Attempt(outside, db, Superseding(earlier, later, reason, now)) == Writes.Supersede(db, earlier, later, reason, now)
  {
    hide Valid, Acyclic, Writes.Supersede;
  }

  lemma DeleteAttempts(outside: Outside, db: Db, id: Id, now: int)
    requires Valid(outside, db) && Acyclic(LinksOf(db.nodes))
    ensures Attempt(outside, db, Deleting(id, now)) == Writes.Delete(db, id, now)
    ensures Writes.Delete(db, id, now).Err? ==> Writes.Delete(db, id, now).error == NotFound
  {
    hide Valid, Acyclic, Drop;
  }

  lemma SettleAttempts(outside: Outside, before: Db, order: seq<Id>, now: int, after: Db, folded: nat, changes: seq<Change>)
    requires Valid(outside, before) && SettledTo(outside, before, order, now, after, folded, [], changes)
    ensures Writes.Settles(outside, before.nodes, order) && folded == |order|
    ensures Attempt(outside, before, SettlingRules(order, now)) == Ok(Write(after, changes, DONE))
  {
    hide Valid, Folds, Rekeyed;
    FoldCount(before.(nodes := Rekeyed(outside, before.nodes)), Rekeyed(outside, before.nodes), order, now);
    var w := Writes.SettleRules(outside, before, order, now);
    assert [] + w.changes == w.changes;
  }

  lemma {:induction false} FoldCount(db: Db, nodes: Nodes, order: seq<Id>, now: int)
    requires db.nodes.Keys == nodes.Keys && forall id :: id in order ==> Folds(nodes, id)
    ensures FoldAll(db, nodes, order, now).value == |order|
    decreases |order|
  {
    if order != [] {
      hide Folds, SupersedeDb;
      FoldCount(db, nodes, order[..|order| - 1], now);
    }
  }

  lemma RefreshAttempts(outside: Outside, db: Db, task: string, items: seq<Item>, joins: seq<Id> -> seq<NewEdge>,
                        order: seq<Id>, now: int)
    requires Valid(outside, db) && HonestItems(outside, items)
    requires forall i :: 0 <= i < |items| ==> Checks(outside, items[i].node)
    ensures Attempt(outside, db, Refreshing(task, items, joins, order, now))
         == Refresh(outside, db, task, items, joins, order, now)
  {
    hide Valid, Refresh;
  }

  lemma WithVector(node: Node)
    requires HasVector(node)
    ensures NodeRow(node) == SetRow(node.kind, node.status.state == Superseded, node.content.embedding.value)
  {
  }

  lemma ReadAll(nodes: Nodes, read: Nodes)
    requires forall n :: n in read ==> n in nodes && read[n] == nodes[n]
    requires forall n :: n in nodes && HasVector(nodes[n]) ==> n in read
    ensures ViewOf(read) == ViewOf(nodes)
  {
  }

  /** What forgetting `parts` leaves, its changes and how many nodes went. */
  ghost predicate Forgot(outside: Outside, before: Db, parts: seq<Part>, now: int, after: Db, changes: seq<Change>, gone: nat) {
    Valid(outside, before) && ForgetAll(before, parts, now) == Ok(Write(after, changes, gone))
  }

  ghost predicate ForgetsAs(outside: Outside, before: Db, parts: seq<Part>, now: int, after: Db, gone: nat) {
    && Valid(outside, before)
    && ForgetAll(before, parts, now).Ok?
    && ForgetAll(before, parts, now).value.db == after && ForgetAll(before, parts, now).value.value == gone
  }

  lemma ForgotCommits(outside: Outside, before: Db, parts: seq<Part>, now: int, after: Db, changes: seq<Change>, gone: nat)
    requires Forgot(outside, before, parts, now, after, changes, gone)
    ensures Valid(outside, before) && Attempt(outside, before, Forgetting(parts, now)) == Ok(Write(after, changes, DONE))
    ensures ForgetsAs(outside, before, parts, now, after, gone)
  {
    hide Shaped, UniqueKeys, Reasoned, Joined, Embeds, Supported, ForgetAll;
  }

  lemma NothingForgotten(outside: Outside, before: Db, now: int)
    requires Valid(outside, before)
    ensures Forgot(outside, before, [], now, before, [], 0)
  {
    hide Shaped, UniqueKeys, Reasoned, Joined, Embeds, Supported;
  }

  lemma RecordStored(outside: Outside, db: Db, node: NewNode, embedding: Option<Blob>, now: int)
    ensures var w := Record(outside, db, node, embedding, now); w.value in w.db.nodes
  {
  }

  lemma RecordReady(outside: Outside, db: Db)
    requires Valid(outside, db)
    ensures UniqueKeys(db.nodes) && db.next !in db.nodes
    ensures forall n :: IsCurrent(db.nodes, n) ==> db.nodes[n].status.supersededBy.None?
  {
  }

  lemma ReleaseReady(outside: Outside, db: Db)
    requires Valid(outside, db)
    ensures Shaped(db.nodes) && UniqueKeys(db.nodes) && Reasoned(db.nodes) && Joined(db.nodes, db.edges)
  {
  }

  lemma ForgetAllMore(outside: Outside, before: Db, parts: seq<Part>, part: Part, now: int,
                      middle: Db, changes: seq<Change>, gone: nat)
    requires Forgot(outside, before, parts, now, middle, changes, gone) && Valid(outside, middle)
    requires Enumerates(part.order, Affected(middle.nodes, part.selection))
    ensures Acyclic(LinksOf(middle.nodes))
    ensures var more := Release(middle, part.selection, part.order, now);
      && Forgot(outside, before, parts + [part], now, more.db, changes + more.changes, gone + more.value)
      && Valid(outside, more.db)
  {
    hide Valid, Shaped, UniqueKeys, Reasoned, Release, Enumerates, Affected;
    var longer := parts + [part];
    assert longer[..|longer| - 1] == parts && longer[|longer| - 1] == part;
    ValidIsShaped(outside, middle);
    ListedStored(middle.nodes, part.selection, part.order);
    ReleaseKeeps(outside, middle, part.selection, part.order, now);
  }

  lemma ListedStored(nodes: Nodes, selection: Selection, order: seq<Id>)
    requires Enumerates(order, Affected(nodes, selection))
    ensures ToSet(order) <= nodes.Keys
  {
  }
}
