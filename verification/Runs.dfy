/** The Brain's commands, each one transaction, and any run of them. */
module Runs {
  import opened Chains
  import opened Wrappers
  import opened Knowledge
  import opened Writes
  import opened Invariants
  import opened Keeping

  /** One command of the Brain. Where a query lists rows in no stated order, `order` is the
      order it listed them in: any one that lists those rows (see `Possible`). */
  datatype Command =
    | Recording(node: NewNode, embedding: Option<Blob>, now: int)
    | Replacing(node: NewNode, embedding: Option<Blob>, earlier: Endpoint, reason: string, now: int)
    | Linking(edges: seq<NewEdge>)
    | Relinking(sources: seq<Endpoint>, edges: seq<NewEdge>)
    | Superseding(earlier: Endpoint, later: Endpoint, reason: string, now: int)
    | Deleting(id: Id, now: int)
    | Forgetting(parts: seq<Part>, now: int)
    | Refreshing(task: string, items: seq<Item>, joins: seq<Id> -> seq<NewEdge>, order: seq<Id>, now: int)
    | ChangingFiles(changes: seq<FileRef>, now: int)
    | Expiring(now: int)
    | StoringEmbeddings(batch: seq<Embedded>)
    | SettlingRules(order: seq<Id>, now: int)

  /** A session or an origin to forget, with the nodes it supports as the query lists them. */
  datatype Part = Part(selection: Selection, order: seq<Id>)

  datatype Item = Item(node: NewNode, embedding: Option<Blob>)

  predicate Checks(outside: Outside, node: NewNode) {
    !outside.blank(node.title) && (node.key.Some? ==> !outside.blank(node.key.value))
  }

  /** The embeddings a command brings are those of the words they come with. */
  ghost predicate Honest(outside: Outside, command: Command) {
    match command
    case Recording(node, embedding, _) => EmbeddingOf(outside, embedding, node.title, node.body)
    case Replacing(node, embedding, _, _, _) => EmbeddingOf(outside, embedding, node.title, node.body)
    case Refreshing(_, items, _, _, _) => HonestItems(outside, items)
    case StoringEmbeddings(batch) => Embedding(outside, batch)
    case _ => true
  }

  ghost predicate HonestItems(outside: Outside, items: seq<Item>) {
    forall i :: 0 <= i < |items| ==> EmbeddingOf(outside, items[i].embedding, items[i].node.title, items[i].node.body)
  }

  ghost function RecordAll(outside: Outside, db: Db, items: seq<Item>, now: int): Write<seq<Id>>
    decreases |items|
  {
    if items == [] then Write(db, [], [])
    else
      var before := RecordAll(outside, db, items[..|items| - 1], now);
      var last := items[|items| - 1];
      var w := Record(outside, before.db, last.node, last.embedding, now);
      Write(w.db, before.changes + w.changes, before.value + [w.value])
  }

  ghost function ForgetAll(db: Db, parts: seq<Part>, now: int): (r: Result<Write<nat>>)
    requires Shaped(db.nodes) && UniqueKeys(db.nodes) && Reasoned(db.nodes)
    ensures r.Ok? ==> Shaped(r.value.db.nodes) && UniqueKeys(r.value.db.nodes) && Reasoned(r.value.db.nodes)
    decreases |parts|
  {
    hide Shaped, UniqueKeys, Reasoned;
    if parts == [] then Ok(Write(db, [], 0))
    else
      match ForgetAll(db, parts[..|parts| - 1], now)
      case Err(error) => Err(error)
      case Ok(before) =>
        var r := ForgetOne(before.db, parts[|parts| - 1], now);
        match r
        case Err(error) => Err(error)
        case Ok(w) => Ok(Write(w.db, before.changes + w.changes, before.value + w.value))
  }

  ghost function ForgetOne(db: Db, part: Part, now: int): (r: Result<Write<nat>>)
    requires Shaped(db.nodes) && UniqueKeys(db.nodes) && Reasoned(db.nodes)
    ensures r.Ok? ==> Shaped(r.value.db.nodes) && UniqueKeys(r.value.db.nodes) && Reasoned(r.value.db.nodes)
  {
    if Enumerates(part.order, Affected(db.nodes, part.selection)) then
      ReleaseShapes(db, part.selection, part.order, now);
      Ok(Release(db, part.selection, part.order, now))
    else Err(Invalid)
  }

  /** The last part is forgotten from what the others leave. */
  lemma ForgetLast(db: Db, parts: seq<Part>, now: int)
    requires Shaped(db.nodes) && UniqueKeys(db.nodes) && Reasoned(db.nodes)
    requires parts != [] && ForgetAll(db, parts, now).Ok?
    ensures var before, part := ForgetAll(db, parts[..|parts| - 1], now), parts[|parts| - 1];
      && before.Ok? && Acyclic(LinksOf(before.value.db.nodes))
      && Enumerates(part.order, Affected(before.value.db.nodes, part.selection))
      && var w := Release(before.value.db, part.selection, part.order, now);
         ForgetAll(db, parts, now).value == Write(w.db, before.value.changes + w.changes, before.value.value + w.value)
  {
    hide Shaped, UniqueKeys, Reasoned, Acyclic, Release, Enumerates, Affected;
    var before := ForgetAll(db, parts[..|parts| - 1], now);
    assert before.Ok?;
    ShapedIsAcyclic(before.value.db.nodes);
  }

  lemma ReleaseShapes(db: Db, selection: Selection, affected: seq<Id>, now: int)
    requires Shaped(db.nodes) && UniqueKeys(db.nodes) && Reasoned(db.nodes)
    ensures var nodes := Release(db, selection, affected, now).db.nodes;
      Shaped(nodes) && UniqueKeys(nodes) && Reasoned(nodes)
  {
    hide UniqueKeys, Reasoned, Drop, Release, LastSupported;
    ReleaseIsDrop(db, selection, affected, now);
    ThinnedUnique(db.nodes, affected, selection);
    ThinnedReasoned(db.nodes, affected, selection);
    hide Shaped, Thinned;
    DropNodes(db.(nodes := Thinned(db.nodes, affected, selection)), LastSupported(db.nodes, affected, selection), now);
  }

  lemma ThinnedReasoned(nodes: Nodes, affected: seq<Id>, selection: Selection)
    requires Reasoned(nodes)
    ensures Reasoned(Thinned(nodes, affected, selection))
  {
  }

  const DONE: () := ()

  function Done(db: Db, changes: seq<Change>): Result<Write<()>> {
    Ok(Write(db, changes, DONE))
  }

  /** What a command's transaction would commit, or why it is refused. */
  ghost function Attempt(outside: Outside, db: Db, command: Command): Result<Write<()>>
    requires Valid(outside, db) && Honest(outside, command)
  {
    match command
    case Recording(node, embedding, now) =>
      if Checks(outside, node) then
        var w := Record(outside, db, node, embedding, now);
        Done(w.db, w.changes)
      else Err(Invalid)
    case Replacing(node, embedding, earlier, reason, now) =>
      if Checks(outside, node) then Replace(outside, db, node, embedding, earlier, reason, now) else Err(Invalid)
    case Linking(edges) =>
      (match Link(db, edges)
       case Ok(linked) => Done(linked, [])
       case Err(error) => Err(error))
    case Relinking(sources, edges) =>
      (match Relink(db, sources, edges)
       case Ok(linked) => Done(linked, [])
       case Err(error) => Err(error))
    case Superseding(earlier, later, reason, now) => Supersede(db, earlier, later, reason, now)
    case Deleting(id, now) => Delete(db, id, now)
    case Forgetting(parts, now) =>
      (match ForgetAll(db, parts, now)
       case Ok(w) => Done(w.db, w.changes)
       case Err(error) => Err(error))
    case Refreshing(task, items, joins, order, now) =>
      if forall i :: 0 <= i < |items| ==> Checks(outside, items[i].node) then
        Refresh(outside, db, task, items, joins, order, now)
      else Err(Invalid)
    case ChangingFiles(changes, now) => Done(db.(nodes := FilesChanged(db.nodes, changes, now)), [])
    case Expiring(now) => Done(db.(nodes := Expire(db.nodes, now)), [])
    case StoringEmbeddings(batch) =>
      var w := SetEmbeddings(db, batch);
      Done(w.db, w.changes)
    case SettlingRules(order, now) =>
      if Settles(outside, db.nodes, order) then
        var w := SettleRules(outside, db, order, now);
        Done(w.db, w.changes)
      else Err(Invalid)
  }

  /** Records `node` and marks `earlier` superseded by it, unless the node took its place. */
  ghost function Replace(outside: Outside, db: Db, node: NewNode, embedding: Option<Blob>, earlier: Endpoint,
                         reason: string, now: int): Result<Write<()>>
    requires Valid(outside, db) && EmbeddingOf(outside, embedding, node.title, node.body)
  {
    var w := Record(outside, db, node, embedding, now);
    RecordKeeps(outside, db, node, embedding, now);
    match Resolve(w.db.nodes, earlier)
    case Err(error) => Err(error)
    case Ok(id) =>
      if id == w.value then Done(w.db, w.changes)
      else
        match Supersede(w.db, earlier, ById(w.value), reason, now)
        case Err(error) => Err(error)
        case Ok(s) => Done(s.db, w.changes + s.changes)
  }

  /** The items, the edges between them and the release of the task's other current nodes. */
  ghost function Refresh(outside: Outside, db: Db, task: string, items: seq<Item>, joins: seq<Id> -> seq<NewEdge>,
                         order: seq<Id>, now: int): Result<Write<()>>
    requires Valid(outside, db) && HonestItems(outside, items)
  {
    var recorded := RecordAll(outside, db, items, now);
    RecordAllKeeps(outside, db, items, now);
    match Link(recorded.db, joins(recorded.value))
    case Err(error) => Err(error)
    case Ok(linked) =>
      LinkKeeps(outside, recorded.db, joins(recorded.value));
      if Enumerates(order, Unrecorded(linked.nodes, task, ToSet(recorded.value))) then
        var w := Release(linked, OfTask(task), order, now);
        Done(w.db, recorded.changes + w.changes)
      else Err(Invalid)
  }

  lemma {:induction false} RecordAllKeeps(outside: Outside, db: Db, items: seq<Item>, now: int)
    requires Valid(outside, db) && HonestItems(outside, items)
    ensures Valid(outside, RecordAll(outside, db, items, now).db)
    decreases |items|
  {
    if items != [] {
      hide Valid;
      RecordAllKeeps(outside, db, items[..|items| - 1], now);
      var last := items[|items| - 1];
      RecordKeeps(outside, RecordAll(outside, db, items[..|items| - 1], now).db, last.node, last.embedding, now);
    }
  }

  lemma {:induction false} ForgetAllKeeps(outside: Outside, db: Db, parts: seq<Part>, now: int)
    requires Valid(outside, db) && ForgetAll(db, parts, now).Ok?
    ensures Valid(outside, ForgetAll(db, parts, now).value.db)
    decreases |parts|
  {
    if parts != [] {
      ForgetAllKeeps(outside, db, parts[..|parts| - 1], now);
      hide Valid;
      var before := ForgetAll(db, parts[..|parts| - 1], now).value.db;
      var part := parts[|parts| - 1];
      assert ToSet(part.order) == Affected(before.nodes, part.selection);
      ReleaseKeeps(outside, before, part.selection, part.order, now);
    }
  }

  lemma {:induction false} ClearedKeeps(outside: Outside, db: Db, sources: seq<Endpoint>)
    requires Valid(outside, db) && Cleared(db, sources).Ok?
    ensures Cleared(db, sources).value == db.(edges := Cleared(db, sources).value.edges)
    ensures Valid(outside, Cleared(db, sources).value)
    decreases |sources|
  {
    if sources != [] {
      ClearedKeeps(outside, db, sources[..|sources| - 1]);
      hide Shaped, UniqueKeys, Reasoned, Embeds, Supported;
    }
  }

  /** The commands that rewrite links, one at a time. */
  lemma ReplaceKeepsAll(outside: Outside, db: Db, node: NewNode, embedding: Option<Blob>, earlier: Endpoint,
                        reason: string, now: int)
    requires Valid(outside, db) && EmbeddingOf(outside, embedding, node.title, node.body)
    requires Replace(outside, db, node, embedding, earlier, reason, now).Ok?
    ensures Valid(outside, Replace(outside, db, node, embedding, earlier, reason, now).value.db)
  {
    var w := Record(outside, db, node, embedding, now);
    RecordKeeps(outside, db, node, embedding, now);
    hide Valid;
    if Resolve(w.db.nodes, earlier) != Ok(w.value) {
      SupersedeCommandKeeps(outside, w.db, earlier, ById(w.value), reason, now);
    }
  }

  lemma ValidIsShaped(outside: Outside, db: Db)
    requires Valid(outside, db)
    ensures Shaped(db.nodes) && UniqueKeys(db.nodes) && Reasoned(db.nodes) && db.next !in db.nodes
    ensures Acyclic(LinksOf(db.nodes))
  {
  }

  lemma RelinkedSame(db: Db, sources: seq<Endpoint>, edges: seq<NewEdge>)
    requires Relink(db, sources, edges).Ok?
    ensures Relink(db, sources, edges).value.nodes == db.nodes
  {
    ClearedNodes(db, sources);
    LinkedNodes(Cleared(db, sources).value, edges);
  }

  lemma SupersedeCommandKeeps(outside: Outside, db: Db, earlier: Endpoint, later: Endpoint, reason: string, now: int)
    requires Valid(outside, db) && Acyclic(LinksOf(db.nodes)) && Supersede(db, earlier, later, reason, now).Ok?
    ensures Valid(outside, Supersede(db, earlier, later, reason, now).value.db)
  {
    hide Valid;
    SupersedeKeeps(outside, db, Resolve(db.nodes, earlier).value, Resolve(db.nodes, later).value, reason, now);
  }

  lemma DeleteKeeps(outside: Outside, db: Db, id: Id, now: int)
    requires Valid(outside, db) && Delete(db, id, now).Ok?
    ensures Valid(outside, Delete(db, id, now).value.db)
  {
    assert ToSet([id]) == {id};
    hide Shaped, UniqueKeys, Reasoned, Joined, Embeds;
    DropKeeps(outside, db, [id], now);
  }

  lemma RefreshKeeps(outside: Outside, db: Db, task: string, items: seq<Item>, joins: seq<Id> -> seq<NewEdge>,
                     order: seq<Id>, now: int)
    requires Valid(outside, db) && HonestItems(outside, items)
    requires Refresh(outside, db, task, items, joins, order, now).Ok?
    ensures Valid(outside, Refresh(outside, db, task, items, joins, order, now).value.db)
  {
    hide Valid;
    var recorded := RecordAll(outside, db, items, now);
    RecordAllKeeps(outside, db, items, now);
    var linked := Link(recorded.db, joins(recorded.value)).value;
    LinkKeeps(outside, recorded.db, joins(recorded.value));
    assert ToSet(order) == Unrecorded(linked.nodes, task, ToSet(recorded.value));
    ReleaseKeeps(outside, linked, OfTask(task), order, now);
  }

  lemma SettleRulesKeeps(outside: Outside, db: Db, order: seq<Id>, now: int)
    requires Valid(outside, db) && Settles(outside, db.nodes, order)
    ensures Valid(outside, SettleRules(outside, db, order, now).db)
  {
    hide Valid;
    RekeyedKeeps(outside, db);
    FoldAllKeeps(outside, db.(nodes := Rekeyed(outside, db.nodes)), order, now);
  }

  /** Every command that commits keeps every invariant. */
  lemma AttemptKeeps(outside: Outside, db: Db, command: Command)
    requires Valid(outside, db) && Honest(outside, command) && Attempt(outside, db, command).Ok?
    ensures Valid(outside, Attempt(outside, db, command).value.db)
  {
    hide Valid;
    match command
    case Recording(node, embedding, now) => RecordKeeps(outside, db, node, embedding, now);
    case Replacing(node, embedding, earlier, reason, now) =>
      ReplaceKeepsAll(outside, db, node, embedding, earlier, reason, now);
    case Linking(edges) => LinkKeeps(outside, db, edges);
    case Relinking(sources, edges) =>
      ClearedKeeps(outside, db, sources);
      LinkKeeps(outside, Cleared(db, sources).value, edges);
    case Superseding(earlier, later, reason, now) =>
      ValidIsShaped(outside, db);
      SupersedeCommandKeeps(outside, db, earlier, later, reason, now);
    case Deleting(id, now) => DeleteKeeps(outside, db, id, now);
    case Forgetting(parts, now) => ForgetAllKeeps(outside, db, parts, now);
    case Refreshing(task, items, joins, order, now) => RefreshKeeps(outside, db, task, items, joins, order, now);
    case ChangingFiles(changes, now) => FilesChangedKeeps(outside, db, changes, now);
    case Expiring(now) => ExpireKeeps(outside, db, now);
    case StoringEmbeddings(batch) => SetEmbeddingsKeeps(outside, db, batch);
    case SettlingRules(order, now) => SettleRulesKeeps(outside, db, order, now);
  }

  /** A command either commits or, refused, leaves everything as it was. */
  ghost function Exec(outside: Outside, db: Db, command: Command): Write<bool>
    requires Valid(outside, db) && Honest(outside, command)
  {
    match Attempt(outside, db, command)
    case Ok(w) => Write(w.db, w.changes, true)
    case Err(_) => Write(db, [], false)
  }

  /** Any run of commands from an empty Brain. */
  ghost function Run(outside: Outside, commands: seq<Command>): (db: Db)
    requires forall command :: command in commands ==> Honest(outside, command)
    ensures Valid(outside, db)
    decreases |commands|
  {
    if commands == [] then
      EmptyIsValid(outside);
      EMPTY
    else
      var before := Run(outside, commands[..|commands| - 1]);
      var last := commands[|commands| - 1];
      assert Honest(outside, last) by { assert last in commands; }
      var r := Attempt(outside, before, last);
      assert r.Ok? ==> Valid(outside, r.value.db) by {
        if r.Ok? {
          AttemptKeeps(outside, before, last);
        }
      }
      Exec(outside, before, last).db
  }

  /** One more command. */
  lemma RunOne(outside: Outside, commands: seq<Command>, command: Command)
    requires (forall c :: c in commands ==> Honest(outside, c)) && Honest(outside, command)
    ensures forall c :: c in commands + [command] ==> Honest(outside, c)
    ensures Run(outside, commands + [command]) == Exec(outside, Run(outside, commands), command).db
  {
    hide Valid, Honest, Exec;
    assert (commands + [command])[..|commands|] == commands;
  }

  ghost predicate ExecsTo(outside: Outside, db: Db, command: Command, after: Db) {
    Honest(outside, command) && (Valid(outside, db) ==> after == Exec(outside, db, command).db)
  }

  /** The tables before and after each of the commands, from any tables that keep the invariants. */
  ghost predicate IsTrace(outside: Outside, dbs: seq<Db>, commands: seq<Command>) {
    && |dbs| == |commands| + 1 && Valid(outside, dbs[0])
    && forall i :: 0 <= i < |commands| ==> ExecsTo(outside, dbs[i], commands[i], dbs[i + 1])
  }

  lemma {:induction false} TraceValid(outside: Outside, dbs: seq<Db>, commands: seq<Command>, i: nat)
    requires IsTrace(outside, dbs, commands) && i < |dbs|
    ensures Valid(outside, dbs[i])
  {
    hide Valid, Honest, Exec;
    if i > 0 {
      TraceValid(outside, dbs, commands, i - 1);
      assert ExecsTo(outside, dbs[i - 1], commands[i - 1], dbs[i]);
      ExecKeeps(outside, dbs[i - 1], commands[i - 1]);
    }
  }

  lemma ExecKeeps(outside: Outside, db: Db, command: Command)
    requires Valid(outside, db) && Honest(outside, command)
    ensures Valid(outside, Exec(outside, db, command).db)
  {
    hide Valid, Attempt;
    if Attempt(outside, db, command).Ok? {
      AttemptKeeps(outside, db, command);
    }
  }
}
