/** What a command leaves in the nodes it touches, and which nodes and edges those are. */
module Effects {
  import opened Chains
  import opened Wrappers
  import opened Knowledge
  import opened Writes
  import opened Invariants
  import opened Keeping
  import opened Runs
  import opened Rules

  // Files and ends.

  predicate LastListed(files: seq<FileRef>, path: string, i: nat)
    requires i < |files|
  {
    files[i].path == path && forall j :: i < j < |files| ==> files[j].path != path
  }

  /** A path listed more than once is stored with the content it was listed with last. */
  lemma {:induction false} FilesAre(files: seq<FileRef>, path: string)
    ensures path in FilesOf(files) <==> exists i :: 0 <= i < |files| && files[i].path == path
    ensures forall i :: 0 <= i < |files| && LastListed(files, path, i) ==> FilesOf(files)[path] == files[i].hash
  {
    if files != [] {
      var before, last := files[..|files| - 1], files[|files| - 1];
      FilesAre(before, path);
      assert forall i :: 0 <= i < |before| ==> before[i] == files[i];
      assert files[|before|] == last;
      forall i | 0 <= i < |files| && LastListed(files, path, i) ensures FilesOf(files)[path] == files[i].hash {
        assert i < |before| ==> last.path != path && LastListed(before, path, i);
      }
    }
  }

  predicate HasKey(nodes: Nodes, n: Id, key: string) {
    n in nodes && nodes[n].key == Some(key) && nodes[n].status.state != Superseded
  }

  /** A key names a node when exactly one current node has it, of whatever kind. */
  lemma KeyNames(nodes: Nodes, key: string)
    ensures forall n: Id :: Resolve(nodes, ByKey(key)) == Ok(n) <==>
      HasKey(nodes, n, key) && forall m: Id :: HasKey(nodes, m, key) ==> m == n
    ensures Resolve(nodes, ByKey(key)) == Err(NotFound) <==> forall n :: !HasKey(nodes, n, key)
  {
    var ids := KeyHolders(nodes, key);
    assert forall n :: n in ids <==> HasKey(nodes, n, key);
    forall n: Id | HasKey(nodes, n, key) && forall m: Id :: HasKey(nodes, m, key) ==> m == n
      ensures Resolve(nodes, ByKey(key)) == Ok(n)
    {
      assert ids == {n};
    }
  }

  /** The edge says that `source` contains or depends on a module or service. */
  predicate SaysStructure(nodes: Nodes, e: Edge, source: Id) {
    && e.source == source && (e.kind.Contains? || e.kind.DependsOn?)
    && e.target in nodes && (nodes[e.target].kind.Module? || nodes[e.target].kind.Service?)
  }

  /** Clearing takes exactly the structure of the sources named, whatever names them. */
  lemma {:induction false} ClearedIs(db: Db, sources: seq<Endpoint>)
    ensures Cleared(db, sources).Ok? <==> forall i :: 0 <= i < |sources| ==> Resolve(db.nodes, sources[i]).Ok?
    ensures Cleared(db, sources).Ok? ==>
      forall e :: e in Cleared(db, sources).value.edges <==>
        e in db.edges && forall i :: 0 <= i < |sources| ==> !SaysStructure(db.nodes, e, Resolve(db.nodes, sources[i]).value)
    decreases |sources|
  {
    hide Resolve;
    if sources != [] {
      var before, last := sources[..|sources| - 1], sources[|sources| - 1];
      ClearedIs(db, before);
      assert forall i :: 0 <= i < |before| ==> before[i] == sources[i];
      assert sources[|before|] == last;
    }
  }

  // Recording.

  /** The kinds that keep their earlier text: rules and choices. */
  predicate IsChoice(kind: Kind) {
    IsRule(kind) || kind.Preference?
  }

  /** New text for a key: a rule or choice keeps what it said, with its times and files, as a version that
      says who rewrote it, when, and why it was stale; of other kinds the text before is lost. */
  lemma RewriteKeepsText(outside: Outside, db: Db, node: NewNode, embedding: Option<Blob>, now: int)
    requires db.next !in db.nodes && Existing(outside, db.nodes, node).Some?
    requires var found := db.nodes[Existing(outside, db.nodes, node).value];
      node.key.Some? && (found.content.title != node.title || found.content.body != node.body)
    ensures var id := Existing(outside, db.nodes, node).value;
      var after, found := Record(outside, db, node, embedding, now).db.nodes, db.nodes[id];
      && after.Keys == db.nodes.Keys + (if IsChoice(node.kind) then {db.next} else {})
      && after[id].content.title == node.title && after[id].content.body == node.body
      && after[id].content.created == found.content.created && after[id].content.updated == now
      && after[id].content.expires == node.expires && after[id].content.provenance == node.provenance
      && after[id].status == Status(Fresh, None, None, None, found.status.supersededReason, found.status.supersededMs)
      && (IsChoice(node.kind) ==>
            && after[db.next].content == found.content && after[db.next].kind == found.kind && after[db.next].key == found.key
            && after[db.next].status == Status(Superseded, found.status.staleReason, found.status.staleSince, Some(id),
                 after[db.next].status.supersededReason, Some(now))
            && after[db.next].status.supersededReason == Some(RewrittenBy(node.provenance.origin, found.status.staleReason)))
  {
    hide Existing, FoldKey;
    var found := db.nodes[Existing(outside, db.nodes, node).value];
    SaysWho(found, node);
  }

  lemma SaysWho(found: Node, node: NewNode)
    ensures RewriteReason(found, node) == RewrittenBy(node.provenance.origin, found.status.staleReason)
  {
    var start := "rewritten by " + OriginLabel(node.provenance.origin);
    assert start + "" == start;
    if found.status.staleReason.Some? {
      var reason := found.status.staleReason.value;
      assert start + ("; it was stale: " + reason) == start + "; it was stale: " + reason;
    }
  }

  function RewrittenBy(origin: Origin, stale: Option<string>): string {
    var who := match origin
      case User => "the user"
      case Orchestrator => "the orchestrator"
      case Skeleton => "the skeleton pass"
      case Index => "the code index"
      case Enrichment => "enrichment"
      case Reported => "report";
    match stale
    case Some(reason) => "rewritten by " + who + "; it was stale: " + reason
    case None => "rewritten by " + who
  }

  /** A node that is confirmed is fresh, and shows this recording's provenance and expiry; its words, its
      key and when it was created stay, and so do all other nodes. */
  lemma ConfirmRefreshes(outside: Outside, db: Db, node: NewNode, embedding: Option<Blob>, now: int)
    requires Existing(outside, db.nodes, node).Some?
    requires var found := db.nodes[Existing(outside, db.nodes, node).value];
      node.key.None? || (found.content.title == node.title && found.content.body == node.body)
    ensures var id := Existing(outside, db.nodes, node).value;
      var after, found := Record(outside, db, node, embedding, now).db.nodes, db.nodes[id];
      && after == db.nodes[id := after[id]]
      && after[id].kind == found.kind && after[id].key == found.key
      && after[id].content.title == found.content.title && after[id].content.body == found.content.body
      && after[id].content.created == found.content.created && after[id].content.updated == now
      && after[id].content.expires == node.expires && after[id].content.provenance == node.provenance
      && after[id].content.foldKey == found.content.foldKey
      && after[id].status.state == Fresh && after[id].status.staleReason == None && after[id].status.staleSince == None
      && (if embedding.Some? && node.key.Some? then
            after[id].content.embedding == embedding && after[id].content.embedModel == Some(MODEL_ID)
          else
            after[id].content.embedding == found.content.embedding && after[id].content.embedModel == found.content.embedModel)
  {
    hide Existing, FoldKey;
  }

  /** A new node is fresh, says what was recorded, and has one source. */
  lemma InsertIs(outside: Outside, db: Db, node: NewNode, embedding: Option<Blob>, now: int)
    requires Existing(outside, db.nodes, node).None? && db.next !in db.nodes
    ensures var after := Record(outside, db, node, embedding, now).db.nodes;
      && after.Keys == db.nodes.Keys + {db.next} && (forall n :: n in db.nodes ==> after[n] == db.nodes[n])
      && after[db.next].kind == node.kind && after[db.next].key == node.key
      && after[db.next].status == Status(Fresh, None, None, None, None, None)
      && after[db.next].content == Content(node.title, node.body, node.provenance, now, now, node.expires, embedding,
           if embedding.Some? then Some(MODEL_ID) else None,
           FoldKey(outside, node.kind, node.provenance.session, node.title, node.body),
           map[SourceId(node.provenance) := Source(node.provenance, FilesOf(node.files))])
  {
    hide Existing, FoldKey, FilesOf, SourceId;
  }

  // Superseding and expiring.

  /** A replacement marks one node, with what replaced it, why and when; its reason to be stale, its words
      and its sources stay, and all other nodes. */
  lemma SupersedeMarks(db: Db, earlier: Endpoint, later: Endpoint, reason: string, now: int)
    requires Acyclic(LinksOf(db.nodes)) && Supersede(db, earlier, later, reason, now).Ok?
    ensures var after := Supersede(db, earlier, later, reason, now).value.db.nodes;
      var a, b := Resolve(db.nodes, earlier).value, Resolve(db.nodes, later).value;
      after == db.nodes[a := db.nodes[a].(status :=
        Status(Superseded, db.nodes[a].status.staleReason, db.nodes[a].status.staleSince, Some(b), Some(reason), Some(now)))]
  {
    hide Resolve, Acyclic;
  }

  /** Fresh nodes whose time is at or before `now` go stale then, saying so; nothing else changes. */
  lemma ExpireIs(nodes: Nodes, now: int)
    ensures var after := Expire(nodes, now);
      && after.Keys == nodes.Keys
      && forall n :: n in nodes ==>
        after[n] == match nodes[n].content.expires
          case Some(time) =>
            if time <= now && nodes[n].status.state == Fresh then
              nodes[n].(status := nodes[n].status.(state := Stale, staleReason := Some("older than its TTL"), staleSince := Some(now)))
            else nodes[n]
          case None => nodes[n]
  {
  }

  /** A version made current again keeps its reason to be stale with its time, or, its time being over,
      is stale for that from now; else it is fresh. */
  lemma RestoredIs(node: Node, now: int)
    ensures var status := Restored(node, now).status;
      && Restored(node, now) == node.(status := status)
      && status.supersededBy == None && status.supersededReason == None && status.supersededMs == None
      && match (node.status.staleReason, node.content.expires)
         case (Some(reason), _) =>
           && status.state == Stale && status.staleReason == Some(reason)
           && status.staleSince == if node.status.staleSince.Some? then node.status.staleSince else Some(now)
         case (None, Some(time)) =>
           if time <= now then status.state == Stale && status.staleReason == Some("older than its TTL") && status.staleSince == Some(now)
           else status.state == Fresh && status.staleReason == None && status.staleSince == None
         case (None, None) => status.state == Fresh && status.staleReason == None && status.staleSince == None
  {
  }
}
