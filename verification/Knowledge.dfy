/** What a Brain stores: nodes with their sources and files, edges, and the changes a write
    reports to the vector cache. Columns copied out of a source's provenance are read from it. */
module Knowledge {
  import opened Chains
  import opened Wrappers
  import opened Octets

  datatype Kind =
    | Module | Service | FileSummary | Decision | Convention
    | Preference | Task | Report | Research | Contract

  datatype State = Fresh | Stale | Superseded

  datatype Origin = Index | Skeleton | Enrichment | Reported | Orchestrator | User

  datatype EdgeKind =
    | Contains | DependsOn | About | DecidedIn | Supersedes | Implements | Consumes | Relates

  type Blob = seq<Byte>
  type Files = map<string, Option<string>>
  type Nodes = map<Id, Node>

  datatype Provenance = Provenance(
    origin: Origin, session: Option<string>, task: Option<string>, job: Option<string>,
    worker: Option<string>, commit: Option<string>, recorded: int)

  /** Why a node is kept: where it came from, and the files that were read for it. */
  datatype Source = Source(provenance: Provenance, files: Files)

  /** Whether a node stands, why it is stale, and what superseded it. */
  datatype Status = Status(
    state: State, staleReason: Option<string>, staleSince: Option<int>,
    supersededBy: Option<Id>, supersededReason: Option<string>, supersededMs: Option<int>)

  /** What a node says, who supports it, and its embedding. */
  datatype Content = Content(
    title: string, body: string, provenance: Provenance,
    created: int, updated: int, expires: Option<int>,
    embedding: Option<Blob>, embedModel: Option<string>, foldKey: Option<string>,
    sources: map<string, Source>)

  datatype Node = Node(kind: Kind, key: Option<string>, status: Status, content: Content)

  datatype FileRef = FileRef(path: string, hash: Option<string>)

  datatype NewNode = NewNode(
    kind: Kind, key: Option<string>, title: string, body: string,
    provenance: Provenance, files: seq<FileRef>, expires: Option<int>)

  datatype Edge = Edge(source: Id, target: Id, kind: EdgeKind)

  /** An edge's end: a node's id, or the key of a current node. */
  datatype Endpoint = ById(id: Id) | ByKey(key: string)

  datatype NewEdge = NewEdge(source: Endpoint, target: Endpoint, kind: EdgeKind)

  datatype Embedded = Embedded(id: Id, title: string, body: string, blob: Blob)

  /** The tables. `next` is above every id used so far: one counter stands for both the random
      id and the row id, which only need to be distinct and to grow. */
  datatype Db = Db(nodes: Nodes, edges: set<Edge>, next: Id)

  /** What a write tells the vector cache about one node. */
  datatype Change =
    | Set(id: Id, kind: Kind, superseded: bool, blob: Blob)
    | Remove(id: Id)
    | Flag(id: Id, superseded: bool)

  /** What a write leaves: the tables, its changes to the vectors and its answer. */
  datatype Write<+T> = Write(db: Db, changes: seq<Change>, value: T)

  /** Code outside the model: the embedding of a text, the digest of a rule's identity, and
      whether a text is only white space. */
  datatype Outside = Outside(
    embed: (string, string) -> Blob,
    digest: (string, string, string, string) -> string,
    blank: string -> bool)

  const MODEL_ID := "minishlab/potion-retrieval-32M@6fc8051fab2a1e0ee76689cf08c853792ac285e7"

  function KeepsHistory(kind: Kind): bool {
    kind.Decision? || kind.Convention? || kind.Contract? || kind.Preference?
  }

  function FoldKey(outside: Outside, kind: Kind, session: Option<string>, title: string, body: string)
    : Option<string>
  {
    match kind
    case Decision => Some(outside.digest("decision", session.GetOr(""), title, body))
    case Convention => Some(outside.digest("rule", "project", title, body))
    case Contract => Some(outside.digest("rule", "project", title, body))
    case _ => None
  }

  function OriginStr(origin: Origin): string {
    match origin
    case Index => "index"
    case Skeleton => "skeleton"
    case Enrichment => "enrichment"
    case Reported => "report"
    case Orchestrator => "orchestrator"
    case User => "user"
  }

  function OriginLabel(origin: Origin): string {
    match origin
    case Index => "the code index"
    case Skeleton => "the skeleton pass"
    case Enrichment => "enrichment"
    case Reported => "report"
    case Orchestrator => "the orchestrator"
    case User => "the user"
  }

  /** Two recordings are one source when these four agree. */
  function SourceId(p: Provenance): string {
    OriginStr(p.origin) + "|" + p.session.GetOr("") + "|" + p.task.GetOr("") + "|" + p.job.GetOr("")
  }

  /** Later entries win over earlier ones with the same path. */
  function FilesOf(files: seq<FileRef>): Files {
    if files == [] then map[]
    else
      var last := files[|files| - 1];
      FilesOf(files[..|files| - 1])[last.path := last.hash]
  }

  function SourceOf(node: NewNode): Source {
    Source(node.provenance, FilesOf(node.files))
  }

  /** Edges that follow the current version; the other two kinds stay with a node's history. */
  predicate IsCurrentEdge(kind: EdgeKind) {
    kind in {Contains, About, DependsOn, Implements, Consumes, Relates}
  }

  predicate IsCurrent(nodes: Nodes, id: Id) {
    id in nodes && nodes[id].status.state != Superseded
  }

  function LinksOf(nodes: Nodes): Links {
    map id | id in nodes && nodes[id].status.supersededBy.Some? :: nodes[id].status.supersededBy.value
  }

  /** The current nodes with `kind` and `key`. */
  function Holders(nodes: Nodes, kind: Kind, key: string): set<Id> {
    set id | id in nodes && nodes[id].kind == kind && nodes[id].key == Some(key) && nodes[id].status.state != Superseded
  }

  function KeyHolders(nodes: Nodes, key: string): set<Id> {
    set id | id in nodes && nodes[id].key == Some(key) && nodes[id].status.state != Superseded
  }

  function SameRules(nodes: Nodes, fold: string): set<Id> {
    set id | id in nodes && nodes[id].content.foldKey == Some(fold) && nodes[id].status.state != Superseded
  }

  /** `superseded_by` of a node and `state = 'superseded'`, as the children query reads them. */
  function Children(nodes: Nodes, id: Id): set<Id> {
    set c | c in nodes && nodes[c].status.supersededBy == Some(id) && nodes[c].status.state == Superseded
  }

  predicate StringBefore(a: string, b: string) {
    if a == [] then b != []
    else if b == [] then false
    else if a[0] != b[0] then a[0] < b[0]
    else StringBefore(a[1..], b[1..])
  }

  /** `ORDER BY recorded_ms DESC, source DESC`. */
  function NewerSource(sources: map<string, Source>): (string, string) -> bool {
    (a: string, b: string) =>
      && a in sources && b in sources
      && (sources[a].provenance.recorded > sources[b].provenance.recorded
          || (sources[a].provenance.recorded == sources[b].provenance.recorded && StringBefore(b, a)))
  }

  /** `ORDER BY superseded_ms IS NULL, superseded_ms DESC, rid DESC`. */
  predicate SupersededLater(x: Node, a: Id, y: Node, b: Id) {
    match (x.status.supersededMs, y.status.supersededMs)
    case (Some(m), Some(n)) => m > n || (m == n && a > b)
    case (Some(_), None) => true
    case (None, Some(_)) => false
    case (None, None) => a > b
  }

  function LaterVersion(nodes: Nodes): (Id, Id) -> bool {
    (a: Id, b: Id) => a in nodes && b in nodes && SupersededLater(nodes[a], a, nodes[b], b)
  }

  /** `ORDER BY state = 'fresh' DESC, updated_ms DESC, rid DESC`. */
  predicate IsFresher(x: Node, a: Id, y: Node, b: Id) {
    if (x.status.state == Fresh) != (y.status.state == Fresh) then x.status.state == Fresh
    else if x.content.updated != y.content.updated then x.content.updated > y.content.updated
    else a > b
  }

  function Fresher(nodes: Nodes): (Id, Id) -> bool {
    (a: Id, b: Id) => a in nodes && b in nodes && IsFresher(nodes[a], a, nodes[b], b)
  }

  /** `ORDER BY key IS NOT NULL DESC, state = 'fresh' DESC, updated_ms DESC, rid DESC`. */
  predicate IsBetterKeeper(x: Node, a: Id, y: Node, b: Id) {
    if x.key.Some? != y.key.Some? then x.key.Some? else IsFresher(x, a, y, b)
  }

  function BetterKeeper(nodes: Nodes): (Id, Id) -> bool {
    (a: Id, b: Id) => a in nodes && b in nodes && IsBetterKeeper(nodes[a], a, nodes[b], b)
  }

  lemma {:induction false} StringsOrdered(a: string, b: string)
    requires a != b
    ensures StringBefore(a, b) != StringBefore(b, a)
  {
    if a != [] && b != [] && a[0] == b[0] {
      assert a == [a[0]] + a[1..] && b == [b[0]] + b[1..];
      StringsOrdered(a[1..], b[1..]);
    }
  }

  lemma {:induction false} StringsTransitive(a: string, b: string, c: string)
    requires StringBefore(a, b) && StringBefore(b, c)
    ensures StringBefore(a, c)
  {
    if a != [] && b != [] && c != [] && a[0] == b[0] == c[0] {
      StringsTransitive(a[1..], b[1..], c[1..]);
    }
  }

  lemma SourcesOrdered(sources: map<string, Source>)
    ensures Orders(sources.Keys, NewerSource(sources))
  {
    var before := NewerSource(sources);
    forall a, b | a in sources.Keys && b in sources.Keys && a != b
      ensures before(a, b) != before(b, a)
    {
      StringsOrdered(a, b);
    }
    forall a, b, c | a in sources.Keys && b in sources.Keys && c in sources.Keys && before(a, b) && before(b, c) && a != c
      ensures before(a, c)
    {
      if StringBefore(b, a) && StringBefore(c, b) {
        StringsTransitive(c, b, a);
      }
    }
  }

  lemma NodesOrdered(nodes: Nodes, s: set<Id>)
    requires s <= nodes.Keys
    ensures Orders(s, LaterVersion(nodes)) && Orders(s, Fresher(nodes)) && Orders(s, BetterKeeper(nodes))
  {
  }
}
