/** The Brain's writes as functions of the tables: what each transaction leaves, without the
    order its statements run in. `BrainGraph` runs the statements. */
module Writes {
  import opened Chains
  import opened Wrappers
  import opened Knowledge

  // Recording.

  ghost function PickOne(s: set<Id>): (x: Id)
    requires s != {}
    ensures x in s
  {
    var x :| x in s;
    x
  }

  /** What a recording finds: with a key, the holder of kind and key; without one, the first current
      node with the same fold key. */
  ghost function Existing(outside: Outside, nodes: Nodes, node: NewNode): (found: Option<Id>)
    ensures found.Some? ==> IsCurrent(nodes, found.value)
  {
    match node.key
    case Some(key) =>
      var holders := Holders(nodes, node.kind, key);
      if holders == {} then None else Some(PickOne(holders))
    case None =>
      match FoldKey(outside, node.kind, node.provenance.session, node.title, node.body)
      case None => None
      case Some(fold) =>
        var same := SameRules(nodes, fold);
        NodesOrdered(nodes, same);
        if same == {} then None else Some(First(same, Fresher(nodes)))
  }

  /** Whether the found node keeps its words: a keyed one's are equal, an unkeyed rule's stay. */
  predicate Confirms(found: Node, node: NewNode) {
    node.key.None? || (found.content.title == node.title && found.content.body == node.body)
  }

  function Confirmed(found: Node, node: NewNode, embedding: Option<Blob>, now: int): Node {
    found.(
      status := found.status.(state := Fresh, staleReason := None, staleSince := None),
      content := found.content.(
        provenance := node.provenance, updated := now, expires := node.expires,
        embedding := if embedding.Some? then embedding else found.content.embedding,
        embedModel := if embedding.Some? then Some(MODEL_ID) else found.content.embedModel,
        sources := found.content.sources[SourceId(node.provenance) := SourceOf(node)]))
  }

  function ModelOf(embedding: Option<Blob>): Option<string> {
    if embedding.Some? then Some(MODEL_ID) else None
  }

  function ContentOf(node: NewNode, fold: Option<string>, embedding: Option<Blob>, created: int, now: int): Content {
    Content(node.title, node.body, node.provenance, created, now, node.expires, embedding, ModelOf(embedding), fold,
            map[SourceId(node.provenance) := SourceOf(node)])
  }

  function Rewritten(found: Node, node: NewNode, fold: Option<string>, embedding: Option<Blob>, now: int): Node {
    found.(
      status := found.status.(state := Fresh, staleReason := None, staleSince := None, supersededBy := None),
      content := ContentOf(node, fold, embedding, found.content.created, now))
  }

  function Created(node: NewNode, fold: Option<string>, embedding: Option<Blob>, now: int): Node {
    Node(node.kind, node.key, Status(Fresh, None, None, None, None, None),
         ContentOf(node, fold, embedding, now, now))
  }

  function EmbeddingChange(id: Id, kind: Kind, embedding: Option<Blob>): Change {
    match embedding
    case Some(blob) => Set(id, kind, false, blob)
    case None => Remove(id)
  }

  function RewriteReason(found: Node, node: NewNode): string {
    "rewritten by " + OriginLabel(node.provenance.origin)
    + if found.status.staleReason.Some? then "; it was stale: " + found.status.staleReason.value else ""
  }

  function SupersededNode(node: Node, later: Id, reason: string, now: int): Node {
    node.(status := node.status.(
      state := Superseded, supersededBy := Some(later), supersededReason := Some(reason), supersededMs := Some(now)))
  }

  /** A version, hanging off `above`. */
  function Under(node: Node, above: Id): Node {
    node.(status := node.status.(supersededBy := Some(above)))
  }

  /** The copy joins the line between `id` and the older versions. */
  function ArchiveNodes(nodes: Nodes, id: Id, copy: Id, reason: string, now: int): Nodes
    requires id in nodes
  {
    (map n | n in nodes ::
      if nodes[n].status.supersededBy == Some(id) then Under(nodes[n], copy) else nodes[n])
    [copy := SupersededNode(nodes[id], id, reason, now)]
  }

  /** The copy takes `id`'s history: where it was decided, and the versions it supersedes. */
  function ArchiveEdges(edges: set<Edge>, id: Id, copy: Id): set<Edge> {
    (set e | e in edges && !(e.source == id && e.kind == Supersedes))
    + (set e | e in edges && e.source == id && e.kind in {DecidedIn, Supersedes} :: Edge(copy, e.target, e.kind))
    + {Edge(id, copy, Supersedes)}
  }

  predicate HasVector(node: Node) {
    node.content.embedding.Some? && node.content.embedModel == Some(MODEL_ID)
  }

  function ArchiveChanges(node: Node, copy: Id): seq<Change> {
    if HasVector(node) then [Set(copy, node.kind, true, node.content.embedding.value)] else []
  }

  function Archive(db: Db, id: Id, reason: string, now: int): Write<Id>
    requires id in db.nodes
  {
    var copy := db.next;
    Write(
      Db(ArchiveNodes(db.nodes, id, copy, reason, now), ArchiveEdges(db.edges, id, copy), copy + 1),
      ArchiveChanges(db.nodes[id], copy),
      copy)
  }

  /** A rewrite in place: rules and choices keep the earlier text as a version. */
  function Rewrite(outside: Outside, db: Db, id: Id, node: NewNode, embedding: Option<Blob>, now: int): Write<Id>
    requires id in db.nodes
  {
    var archived :=
      if KeepsHistory(node.kind) then Archive(db, id, RewriteReason(db.nodes[id], node), now)
      else Write(db, [], id);
    var fold := FoldKey(outside, node.kind, node.provenance.session, node.title, node.body);
    Write(
      archived.db.(nodes := archived.db.nodes[id := Rewritten(db.nodes[id], node, fold, embedding, now)]),
      archived.changes + [EmbeddingChange(id, node.kind, embedding)],
      id)
  }

  function Confirm(db: Db, id: Id, node: NewNode, embedding: Option<Blob>, now: int): Write<Id>
    requires id in db.nodes
  {
    var kept := if node.key.Some? then embedding else None;
    Write(
      db.(nodes := db.nodes[id := Confirmed(db.nodes[id], node, kept, now)]),
      if kept.Some? then [Set(id, node.kind, false, kept.value)] else [],
      id)
  }

  function Insert(outside: Outside, db: Db, node: NewNode, embedding: Option<Blob>, now: int): Write<Id> {
    var fold := FoldKey(outside, node.kind, node.provenance.session, node.title, node.body);
    Write(
      Db(db.nodes[db.next := Created(node, fold, embedding, now)], db.edges, db.next + 1),
      [EmbeddingChange(db.next, node.kind, embedding)],
      db.next)
  }

  ghost function Record(outside: Outside, db: Db, node: NewNode, embedding: Option<Blob>, now: int): Write<Id> {
    match Existing(outside, db.nodes, node)
    case None => Insert(outside, db, node, embedding, now)
    case Some(id) =>
      if Confirms(db.nodes[id], node) then Confirm(db, id, node, embedding, now)
      else Rewrite(outside, db, id, node, embedding, now)
  }

  // Linking and superseding.

  ghost function Resolve(nodes: Nodes, end: Endpoint): (r: Result<Id>)
    ensures r.Ok? ==> r.value in nodes
  {
    match end
    case ById(id) => if id in nodes then Ok(id) else Err(NotFound)
    case ByKey(key) =>
      var ids := KeyHolders(nodes, key);
      if ids == {} then Err(NotFound)
      else if ids == {PickOne(ids)} then Ok(PickOne(ids))
      else Err(Invalid)
  }

  ghost function Link(db: Db, edges: seq<NewEdge>): Result<Db>
    decreases |edges|
  {
    if edges == [] then Ok(db)
    else
      var last := edges[|edges| - 1];
      match Link(db, edges[..|edges| - 1])
      case Err(error) => Err(error)
      case Ok(before) =>
        match (Resolve(db.nodes, last.source), Resolve(db.nodes, last.target))
        case (Ok(from), Ok(to)) =>
          if from == to then Err(Invalid) else Ok(before.(edges := before.edges + {Edge(from, to, last.kind)}))
        case (Err(error), _) => Err(error)
        case (_, Err(error)) => Err(error)
  }

  /** An edge of the code's structure: from `source` to a module or service. */
  predicate IsStructure(nodes: Nodes, e: Edge, source: Id) {
    && e.source == source && e.kind in {Contains, DependsOn}
    && e.target in nodes && nodes[e.target].kind in {Module, Service}
  }

  ghost function Cleared(db: Db, sources: seq<Endpoint>): Result<Db>
    decreases |sources|
  {
    if sources == [] then Ok(db)
    else
      match Cleared(db, sources[..|sources| - 1])
      case Err(error) => Err(error)
      case Ok(before) =>
        match Resolve(db.nodes, sources[|sources| - 1])
        case Err(error) => Err(error)
        case Ok(source) => Ok(before.(edges := set e | e in before.edges && !IsStructure(db.nodes, e, source)))
  }

  ghost function Relink(db: Db, sources: seq<Endpoint>, edges: seq<NewEdge>): Result<Db> {
    match Cleared(db, sources)
    case Err(error) => Err(error)
    case Ok(cleared) => Link(cleared, edges)
  }

  /** Copies of one node's edges of the current kinds with another in its place, loops left out. */
  function TakenOver(edges: set<Edge>, from: Id, to: Id): set<Edge> {
    (set e | e in edges && e.source == from && e.target != to && IsCurrentEdge(e.kind) :: Edge(to, e.target, e.kind))
    + (set e | e in edges && e.target == from && e.source != to && IsCurrentEdge(e.kind) :: Edge(e.source, to, e.kind))
  }

  function SupersedeDb(db: Db, earlier: Id, later: Id, reason: string, now: int): Db
    requires earlier in db.nodes
  {
    db.(
      nodes := db.nodes[earlier := SupersededNode(db.nodes[earlier], later, reason, now)],
      edges := db.edges + TakenOver(db.edges, earlier, later) + {Edge(later, earlier, Supersedes)})
  }

  /** Refused when the later node's chain passes the earlier one (see `Keeping.SupersedeRefusesLoops`). */
  ghost function Supersede(db: Db, earlier: Endpoint, later: Endpoint, reason: string, now: int): Result<Write<()>>
    requires Acyclic(LinksOf(db.nodes))
  {
    match (Resolve(db.nodes, earlier), Resolve(db.nodes, later))
    case (Ok(a), Ok(b)) =>
      if a == b || Reaches(LinksOf(db.nodes), b, a) then Err(Invalid)
      else Ok(Write(SupersedeDb(db, a, b, reason, now), [Flag(a, true)], ()))
    case (Err(error), _) => Err(error)
    case (_, Err(error)) => Err(error)
  }

  // Deleting and forgetting.

  function ToSet(ids: seq<Id>): set<Id> {
    set id | id in ids
  }

  function Facts(edges: set<Edge>): set<Edge> {
    set e | e in edges && e.kind != Supersedes
  }

  function Sups(edges: set<Edge>): set<Edge> {
    set e | e in edges && e.kind == Supersedes
  }

  /** The edges that touch none of `gone`. */
  function Apart(edges: set<Edge>, gone: set<Id>): set<Edge> {
    set e | e in edges && e.source !in gone && e.target !in gone
  }

  /** Every version's edge from what replaced it. */
  function LinkEdges(nodes: Nodes): set<Edge> {
    set n | n in nodes && nodes[n].status.supersededBy.Some? :: Edge(nodes[n].status.supersededBy.value, n, Supersedes)
  }

  function Without(nodes: Nodes, gone: set<Id>): Nodes {
    map n | n in nodes && n !in gone :: nodes[n]
  }

  function Repointed(nodes: Nodes, children: set<Id>, parent: Id): Nodes {
    map n | n in nodes :: if n in children then Under(nodes[n], parent) else nodes[n]
  }

  /** Every version hangs off what its chain leads to past the superseded nodes of `through`. */
  ghost function Lift(nodes: Nodes, through: set<Id>): Nodes
    requires Acyclic(LinksOf(nodes))
  {
    map n | n in nodes ::
      match nodes[n].status.supersededBy
      case None => nodes[n]
      case Some(above) => Under(nodes[n], Climb(LinksOf(nodes), through, above))
  }

  function Unkeyed(nodes: Nodes, ids: set<Id>): Nodes {
    map n | n in nodes :: if n in ids then nodes[n].(key := None) else nodes[n]
  }

  predicate Expired(node: Node, now: int) {
    node.content.expires.Some? && node.content.expires.value <= now
  }

  /** A version made current again: stale if it has a reason to be or its time is over. */
  function Restored(node: Node, now: int): Node {
    node.(status := node.status.(
      supersededBy := None, supersededReason := None, supersededMs := None,
      state := if node.status.staleReason.Some? || Expired(node, now) then Stale else Fresh,
      staleSince :=
        if node.status.staleReason.Some? then Some(node.status.staleSince.GetOr(now))
        else if Expired(node, now) then Some(now) else None,
      staleReason :=
        if node.status.staleReason.Some? then node.status.staleReason
        else if Expired(node, now) then Some("older than its TTL") else None))
  }

  datatype Revival = Revival(nodes: Nodes, facts: set<Edge>, changes: seq<Change>)

  function Heirs(nodes: Nodes, gone: set<Id>, kind: Kind, key: Option<string>): set<Id> {
    if key.None? then {} else Holders(nodes, kind, key.value) - gone
  }

  ghost function LatestVersion(nodes: Nodes, versions: set<Id>): (latest: Id)
    requires versions != {} && versions <= nodes.Keys
    ensures latest in versions
  {
    NodesOrdered(nodes, versions);
    First(versions, LaterVersion(nodes))
  }

  /** `latest` is current again and takes the versions `others`. */
  function Revived(nodes: Nodes, others: set<Id>, latest: Id, now: int): Nodes
    requires latest in nodes
  {
    Repointed(nodes, others, latest)[latest := Restored(nodes[latest], now)]
  }

  /** Hands on the versions of `id`, which goes: to an heir that holds the latest version's key, or
      else to that version, restored. */
  ghost function Settle(r: Revival, gone: set<Id>, id: Id, now: int): Revival {
    var versions := Children(r.nodes, id) - gone;
    if versions == {} then r
    else
      var latest := LatestVersion(r.nodes, versions);
      var heirs := Heirs(r.nodes, gone, r.nodes[latest].kind, r.nodes[latest].key);
      if heirs != {} then
        r.(nodes := Repointed(r.nodes, versions, PickOne(heirs)))
      else
        Revival(
          Revived(r.nodes, versions - {latest}, latest, now),
          r.facts + TakenOver(r.facts, id, latest),
          r.changes + [Flag(latest, false)])
  }

  ghost function SettleAll(r: Revival, gone: set<Id>, current: seq<Id>, now: int): Revival
    decreases |current|
  {
    if current == [] then r
    else Settle(SettleAll(r, gone, current[..|current| - 1], now), gone, current[|current| - 1], now)
  }

  function CurrentOf(nodes: Nodes, ids: seq<Id>): seq<Id> {
    if ids == [] then []
    else
      var last := ids[|ids| - 1];
      CurrentOf(nodes, ids[..|ids| - 1]) + (if IsCurrent(nodes, last) then [last] else [])
  }

  /** The nodes and edges once `doomed` have handed on their history. */
  ghost function Revive(db: Db, doomed: seq<Id>, now: int): Revival
    requires Acyclic(LinksOf(db.nodes))
  {
    var current := CurrentOf(db.nodes, doomed);
    SettleAll(
      Revival(Unkeyed(Lift(db.nodes, ToSet(doomed)), ToSet(current)), Facts(db.edges), []),
      ToSet(doomed), current, now)
  }

  function Removals(ids: seq<Id>): seq<Change> {
    seq(|ids|, i requires 0 <= i < |ids| => Remove(ids[i]))
  }

  /** `doomed` are deleted, after their history moved on. */
  ghost function Drop(db: Db, doomed: seq<Id>, now: int): Write<nat>
    requires Acyclic(LinksOf(db.nodes))
  {
    var gone := ToSet(doomed);
    var revived := Revive(db, doomed, now);
    var nodes := Without(revived.nodes, gone);
    Write(
      Db(nodes, Apart(revived.facts + Sups(db.edges), gone) + LinkEdges(nodes), db.next),
      revived.changes + Removals(doomed),
      |doomed|)
  }

  ghost function Delete(db: Db, id: Id, now: int): Result<Write<()>>
    requires Acyclic(LinksOf(db.nodes))
  {
    if id !in db.nodes then Err(NotFound)
    else
      var dropped := Drop(db, [id], now);
      Ok(Write(dropped.db, dropped.changes, ()))
  }

  /** Which sources to forget. */
  datatype Selection = OfSession(session: string) | OfOrigin(origin: Origin) | OfTask(task: string)

  predicate Selects(selection: Selection, source: Source) {
    match selection
    case OfSession(session) => source.provenance.session == Some(session)
    case OfOrigin(origin) => source.provenance.origin == origin
    case OfTask(task) => source.provenance.task == Some(task)
  }

  function Forgotten(sources: map<string, Source>, selection: Selection): map<string, Source> {
    map s | s in sources && !Selects(selection, sources[s]) :: sources[s]
  }

  predicate HasSource(node: Node, selection: Selection) {
    exists s :: s in node.content.sources && Selects(selection, node.content.sources[s])
  }

  /** `ids` lose their sources of `selection`. */
  function Stripped(nodes: Nodes, ids: set<Id>, selection: Selection): Nodes {
    map n | n in nodes ::
      if n in ids then nodes[n].(content := nodes[n].content.(sources := Forgotten(nodes[n].content.sources, selection))) else nodes[n]
  }

  ghost function LatestSource(sources: map<string, Source>): (s: string)
    requires sources != map[]
    ensures s in sources
  {
    SourcesOrdered(sources);
    First(sources.Keys, NewerSource(sources))
  }

  ghost function Showing(content: Content): Content
    requires content.sources != map[]
  {
    content.(provenance := content.sources[LatestSource(content.sources)].provenance)
  }

  /** Those of `ids` that have a source show the first by `NewerSource`. */
  ghost function Shown(nodes: Nodes, ids: set<Id>): Nodes {
    map n | n in nodes ::
      if n in ids && nodes[n].content.sources != map[] then
        nodes[n].(content := Showing(nodes[n].content))
      else nodes[n]
  }

  function Unsupported(nodes: Nodes, ids: seq<Id>): seq<Id> {
    if ids == [] then []
    else
      var last := ids[|ids| - 1];
      Unsupported(nodes, ids[..|ids| - 1])
      + (if last in nodes && nodes[last].content.sources != map[] then [] else [last])
  }

  lemma SameLinks(nodes: Nodes, other: Nodes)
    requires nodes.Keys == other.Keys
    requires forall n :: n in nodes ==> nodes[n].status.supersededBy == other[n].status.supersededBy
    ensures LinksOf(nodes) == LinksOf(other)
  {
  }

  /** Drops those of `affected` that have no source, once the others show theirs. */
  ghost function DropUnsupported(db: Db, affected: seq<Id>, now: int): Write<nat>
    requires Acyclic(LinksOf(db.nodes))
  {
    SameLinks(db.nodes, Shown(db.nodes, ToSet(affected)));
    Drop(db.(nodes := Shown(db.nodes, ToSet(affected))), Unsupported(db.nodes, affected), now)
  }

  /** `affected` lose their sources of `selection`, in the order the query listed them. */
  ghost function Release(db: Db, selection: Selection, affected: seq<Id>, now: int): Write<nat>
    requires Acyclic(LinksOf(db.nodes))
  {
    var stripped := Stripped(db.nodes, ToSet(affected), selection);
    SameLinks(db.nodes, stripped);
    DropUnsupported(db.(nodes := stripped), affected, now)
  }

  function Affected(nodes: Nodes, selection: Selection): set<Id> {
    set n | n in nodes && HasSource(nodes[n], selection)
  }

  /** A task's current nodes it did not record again. */
  function Unrecorded(nodes: Nodes, task: string, recorded: set<Id>): set<Id> {
    set n | n in nodes && HasSource(nodes[n], OfTask(task)) && nodes[n].status.state != Superseded && n !in recorded
  }

  // Freshness and embeddings.

  function ChangeReason(change: FileRef): string {
    change.path + if change.hash.Some? then " changed" else " was deleted"
  }

  /** Some source saw the file with another content. */
  predicate Outdates(node: Node, change: FileRef) {
    exists s ::
      && s in node.content.sources
      && change.path in node.content.sources[s].files
      && node.content.sources[s].files[change.path].Some?
      && node.content.sources[s].files[change.path] != change.hash
  }

  function GoneStale(node: Node, reason: string, now: int): Node {
    node.(status := node.status.(state := Stale, staleReason := Some(reason), staleSince := Some(now)))
  }

  /** What one changed file does to a node: a version keeps its state and only takes on a reason. */
  function Marked(node: Node, change: FileRef, now: int): Node {
    if !Outdates(node, change) then node
    else match node.status.state
      case Fresh => GoneStale(node, ChangeReason(change), now)
      case Superseded =>
        if node.status.staleReason.None? then
          node.(status := node.status.(staleReason := Some(ChangeReason(change)), staleSince := Some(now)))
        else node
      case Stale => node
  }

  function MarkedAll(node: Node, changes: seq<FileRef>, now: int): Node {
    if changes == [] then node
    else Marked(MarkedAll(node, changes[..|changes| - 1], now), changes[|changes| - 1], now)
  }

  function FilesChanged(nodes: Nodes, changes: seq<FileRef>, now: int): Nodes {
    map n | n in nodes :: MarkedAll(nodes[n], changes, now)
  }

  function Aged(node: Node, now: int): Node {
    if Expired(node, now) && node.status.state == Fresh then
      GoneStale(node, "older than its TTL", now)
    else node
  }

  function Expire(nodes: Nodes, now: int): Nodes {
    map n | n in nodes :: Aged(nodes[n], now)
  }

  predicate Takes(nodes: Nodes, item: Embedded) {
    item.id in nodes && nodes[item.id].content.title == item.title && nodes[item.id].content.body == item.body
  }

  function WithEmbedding(node: Node, blob: Blob): Node {
    node.(content := node.content.(embedding := Some(blob), embedModel := Some(MODEL_ID)))
  }

  function SetEmbedding(db: Db, item: Embedded): Write<nat> {
    if Takes(db.nodes, item) then
      var node := db.nodes[item.id];
      Write(
        db.(nodes := db.nodes[item.id := WithEmbedding(node, item.blob)]),
        [Set(item.id, node.kind, node.status.state == Superseded, item.blob)],
        1)
    else Write(db, [], 0)
  }

  function SetEmbeddings(db: Db, items: seq<Embedded>): Write<nat> {
    if items == [] then Write(db, [], 0)
    else
      var before := SetEmbeddings(db, items[..|items| - 1]);
      var after := SetEmbedding(before.db, items[|items| - 1]);
      Write(after.db, before.changes + after.changes, before.value + after.value)
  }

  // Folding rules recorded before they had fold keys.

  predicate LacksFoldKey(node: Node) {
    node.content.foldKey.None? && node.kind in {Decision, Convention, Contract}
  }

  function WithFoldKey(outside: Outside, kind: Kind, content: Content): Content {
    content.(foldKey := FoldKey(outside, kind, content.provenance.session, content.title, content.body))
  }

  function Rekeyed(outside: Outside, nodes: Nodes): Nodes {
    map n | n in nodes ::
      if LacksFoldKey(nodes[n]) then
        nodes[n].(content := WithFoldKey(outside, nodes[n].kind, nodes[n].content))
      else nodes[n]
  }

  /** The node a rule's group keeps. */
  ghost function Keeper(nodes: Nodes, fold: string): (keeper: Id)
    requires SameRules(nodes, fold) != {}
    ensures keeper in SameRules(nodes, fold)
  {
    NodesOrdered(nodes, SameRules(nodes, fold));
    First(SameRules(nodes, fold), BetterKeeper(nodes))
  }

  ghost function KeeperOf(nodes: Nodes, id: Id): (keeper: Id)
    requires IsCurrent(nodes, id) && nodes[id].content.foldKey.Some?
    ensures IsCurrent(nodes, keeper) && nodes[keeper].content.foldKey == nodes[id].content.foldKey
  {
    assert id in SameRules(nodes, nodes[id].content.foldKey.value);
    Keeper(nodes, nodes[id].content.foldKey.value)
  }

  /** An unkeyed current rule another one says already. */
  ghost predicate Folds(nodes: Nodes, id: Id) {
    && IsCurrent(nodes, id) && nodes[id].key.None? && nodes[id].content.foldKey.Some?
    && KeeperOf(nodes, id) != id
  }

  const FOLD_REASON := "the same rule as a newer node"

  /** `order` are folded one by one into the keepers chosen from `nodes`. */
  ghost function FoldAll(db: Db, nodes: Nodes, order: seq<Id>, now: int): (w: Write<nat>)
    requires db.nodes.Keys == nodes.Keys && forall id :: id in order ==> Folds(nodes, id)
    ensures w.db.nodes.Keys == nodes.Keys
    decreases |order|
  {
    if order == [] then Write(db, [], 0)
    else
      var before := FoldAll(db, nodes, order[..|order| - 1], now);
      var id := order[|order| - 1];
      assert id in order && Folds(nodes, id);
      Write(
        SupersedeDb(before.db, id, KeeperOf(nodes, id), FOLD_REASON, now),
        before.changes + [Flag(id, true)],
        before.value + 1)
  }

  ghost function SettleRules(outside: Outside, db: Db, order: seq<Id>, now: int): Write<nat>
    requires forall id :: id in order ==> Folds(Rekeyed(outside, db.nodes), id)
  {
    var nodes := Rekeyed(outside, db.nodes);
    FoldAll(db.(nodes := nodes), nodes, order, now)
  }

  /** `order` lists the rules folding finds, when some rule still lacks its fold key. */
  ghost predicate Settles(outside: Outside, nodes: Nodes, order: seq<Id>) {
    && (forall id :: id in order ==> Folds(Rekeyed(outside, nodes), id))
    && (forall i, j :: 0 <= i < j < |order| ==> order[i] != order[j])
    && if exists n :: n in nodes && LacksFoldKey(nodes[n])
       then forall id :: Folds(Rekeyed(outside, nodes), id) ==> id in order
       else order == []
  }
}
