/** What happens to a version's reason to be stale over a run, and whether it is stale when it is
    current again. */
module Freshness {
  import opened Chains
  import opened Wrappers
  import opened Knowledge
  import opened Writes
  import opened Invariants
  import opened Keeping
  import opened FilesSeen
  import opened Runs

  predicate IsVersion(nodes: Nodes, n: Id) {
    n in nodes && nodes[n].status.state == Superseded
  }

  /** What a deletion does to a node's status. */
  predicate Follows(before: Node, after: Node, now: int) {
    if after.status.state == Superseded then
      before.status.state == Superseded && after.status == before.status.(supersededBy := after.status.supersededBy)
    else if before.status.state == Superseded then after.status == Restored(before, now).status
    else after.status == before.status
  }

  ghost predicate AllFollow(before: Nodes, after: Nodes, now: int) {
    after.Keys <= before.Keys && forall n :: n in after ==> Follows(before[n], after[n], now) && after[n].content.expires == before[n].content.expires
  }

  lemma RepointedFollows(base: Nodes, nodes: Nodes, children: set<Id>, parent: Id, now: int)
    requires AllFollow(base, nodes, now) && forall c :: c in children ==> IsVersion(nodes, c)
    ensures AllFollow(base, Repointed(nodes, children, parent), now)
  {
  }

  lemma RestoredFollows(base: Nodes, nodes: Nodes, latest: Id, now: int)
    requires AllFollow(base, nodes, now) && IsVersion(nodes, latest)
    ensures AllFollow(base, nodes[latest := Restored(nodes[latest], now)], now)
  {
  }

  lemma SettleFollows(base: Nodes, r: Revival, gone: set<Id>, id: Id, now: int)
    requires AllFollow(base, r.nodes, now)
    ensures AllFollow(base, Settle(r, gone, id, now).nodes, now)
  {
    hide AllFollow;
    var versions := Children(r.nodes, id) - gone;
    if versions != {} {
      var latest := LatestVersion(r.nodes, versions);
      var heirs := Heirs(r.nodes, gone, r.nodes[latest].kind, r.nodes[latest].key);
      if heirs != {} {
        RepointedFollows(base, r.nodes, versions, PickOne(heirs), now);
      } else {
        RepointedFollows(base, r.nodes, versions - {latest}, latest, now);
        RestoredFollows(base, Repointed(r.nodes, versions - {latest}, latest), latest, now);
      }
    }
  }

  lemma {:induction false} SettleAllFollows(base: Nodes, r: Revival, gone: set<Id>, current: seq<Id>, now: int)
    requires AllFollow(base, r.nodes, now)
    ensures AllFollow(base, SettleAll(r, gone, current, now).nodes, now)
    decreases |current|
  {
    if current != [] {
      hide AllFollow, Settle;
      SettleAllFollows(base, r, gone, current[..|current| - 1], now);
      SettleFollows(base, SettleAll(r, gone, current[..|current| - 1], now), gone, current[|current| - 1], now);
    }
  }

  /** A deletion leaves versions their reasons, and restores those it makes current. */
  lemma DropFollows(db: Db, doomed: seq<Id>, now: int)
    requires Shaped(db.nodes)
    ensures AllFollow(db.nodes, Drop(db, doomed, now).db.nodes, now)
  {
    var current := CurrentOf(db.nodes, doomed);
    var start := Unkeyed(Lift(db.nodes, ToSet(doomed)), ToSet(current));
    assert AllFollow(db.nodes, start, now);
    SettleAllFollows(db.nodes, Revival(start, Facts(db.edges), []), ToSet(doomed), current, now);
  }

  lemma ReleaseFollows(db: Db, selection: Selection, affected: seq<Id>, now: int)
    requires Shaped(db.nodes)
    ensures AllFollow(db.nodes, Release(db, selection, affected, now).db.nodes, now)
  {
    hide Thinned, Release, Drop, Shaped, AllFollow;
    var thinned := Thinned(db.nodes, affected, selection);
    ShapedIsAcyclic(db.nodes);
    ReleaseIsDrop(db, selection, affected, now);
    ShapedIsAcyclic(thinned);
    ThinnedTimes(db.nodes, affected, selection);
    DropFollows(db.(nodes := thinned), LastSupported(db.nodes, affected, selection), now);
    FollowFrom(db.nodes, thinned, Release(db, selection, affected, now).db.nodes, now);
  }

  lemma FollowFrom(before: Nodes, thinned: Nodes, after: Nodes, now: int)
    requires AllFollow(thinned, after, now) && before.Keys == thinned.Keys
    requires forall n :: n in before ==> thinned[n].status == before[n].status && thinned[n].content.expires == before[n].content.expires
    ensures AllFollow(before, after, now)
  {
  }

  lemma ThinnedTimes(nodes: Nodes, affected: seq<Id>, selection: Selection)
    ensures var thinned := Thinned(nodes, affected, selection);
      && thinned.Keys == nodes.Keys
      && forall n :: n in nodes ==> thinned[n].status == nodes[n].status && thinned[n].content.expires == nodes[n].content.expires
  {
  }

  // One command.

  /** The command names a content for a file the version saw otherwise. */
  predicate OutdatesBy(node: Node, command: Command) {
    command.ChangingFiles? && exists i :: 0 <= i < |command.changes| && SeenOtherwise(node, command.changes[i])
  }

  /** What is left of a version's freshness when it stays a version. */
  predicate Rests(before: Node, after: Node) {
    && after.status.staleReason == before.status.staleReason
    && after.status.staleSince == before.status.staleSince
    && after.content.expires == before.content.expires
  }

  /** Versions stay versions, at rest. */
  ghost predicate AllRest(before: Nodes, after: Nodes) {
    forall n :: IsVersion(before, n) ==> IsVersion(after, n) && Rests(before[n], after[n])
  }

  lemma RecordRests(outside: Outside, db: Db, node: NewNode, embedding: Option<Blob>, now: int)
    requires db.next !in db.nodes
    ensures AllRest(db.nodes, Record(outside, db, node, embedding, now).db.nodes)
  {
  }

  lemma SupersedeRests(db: Db, earlier: Id, later: Id, reason: string, now: int)
    requires earlier in db.nodes
    ensures AllRest(db.nodes, SupersedeDb(db, earlier, later, reason, now).nodes)
  {
  }

  lemma {:induction false} RecordAllRests(outside: Outside, db: Db, items: seq<Item>, now: int)
    requires Valid(outside, db) && HonestItems(outside, items)
    ensures AllRest(db.nodes, RecordAll(outside, db, items, now).db.nodes)
    decreases |items|
  {
    if items != [] {
      hide Shaped, UniqueKeys, Reasoned, Supported, Embeds, Joined, Record;
      var rest, last := items[..|items| - 1], items[|items| - 1];
      RecordAllRests(outside, db, rest, now);
      RecordAllKeeps(outside, db, rest, now);
      RecordRests(outside, RecordAll(outside, db, rest, now).db, last.node, last.embedding, now);
    }
  }

  lemma {:induction false} FoldAllRests(db: Db, nodes: Nodes, order: seq<Id>, now: int)
    requires db.nodes.Keys == nodes.Keys && forall id :: id in order ==> Folds(nodes, id)
    ensures AllRest(db.nodes, FoldAll(db, nodes, order, now).db.nodes)
    decreases |order|
  {
    if order != [] {
      hide Folds, SupersedeDb;
      FoldAllRests(db, nodes, order[..|order| - 1], now);
      assert Folds(nodes, order[|order| - 1]) by { assert order[|order| - 1] in order; }
      SupersedeRests(FoldAll(db, nodes, order[..|order| - 1], now).db, order[|order| - 1],
        KeeperOf(nodes, order[|order| - 1]), FOLD_REASON, now);
    }
  }

  /** A change of files gives a version a reason exactly when it outdates it and it had none. */
  lemma {:induction false} MarkedAllReason(node: Node, changes: seq<FileRef>, now: int)
    requires node.status.state == Superseded
    ensures var marked := MarkedAll(node, changes, now);
      && marked.status.state == Superseded && marked.content == node.content
      && (marked.status.staleReason.Some? <==>
            node.status.staleReason.Some? || exists i :: 0 <= i < |changes| && SeenOtherwise(node, changes[i]))
      && (node.status.staleReason.Some? ==> Rests(node, marked))
  {
    hide Outdates, SeenOtherwise;
    if changes != [] {
      var before, last := changes[..|changes| - 1], changes[|changes| - 1];
      MarkedAllReason(node, before, now);
      MarkedAllKeeps(node, before, now);
      OutdatesIs(MarkedAll(node, before, now), last);
      SeenSame(MarkedAll(node, before, now), node, last);
      SomeBefore(node, changes);
    }
  }

  /** The time a command writes. */
  function TimeOf(command: Command): int {
    match command
    case Recording(_, _, now) => now
    case Replacing(_, _, _, _, now) => now
    case Superseding(_, _, _, now) => now
    case Deleting(_, now) => now
    case Forgetting(_, now) => now
    case Refreshing(_, _, _, _, now) => now
    case ChangingFiles(_, now) => now
    case Expiring(now) => now
    case SettlingRules(_, now) => now
    case _ => 0
  }

  /** A version that stays one gains a reason to be stale only from files, and one that is
      current again is stale exactly when it has a reason or its time is over. */
  predicate Ages(before: Node, after: Node, command: Command) {
    if after.status.state == Superseded then
      && after.content.expires == before.content.expires
      && (after.status.staleReason.Some? <==> before.status.staleReason.Some? || OutdatesBy(before, command))
    else
      after.status.state == Stale <==> before.status.staleReason.Some? || Expired(before, TimeOf(command))
  }

  ghost predicate AllAge(before: Nodes, after: Nodes, command: Command) {
    forall n :: IsVersion(before, n) && n in after ==> Ages(before[n], after[n], command)
  }

  lemma RestAges(before: Nodes, after: Nodes, command: Command)
    requires AllRest(before, after) && !command.ChangingFiles?
    ensures AllAge(before, after, command)
  {
  }

  lemma FollowAges(before: Nodes, middle: Nodes, after: Nodes, command: Command)
    requires AllRest(before, middle) && AllFollow(middle, after, TimeOf(command)) && !command.ChangingFiles?
    ensures AllAge(before, after, command)
  {
  }

  lemma {:induction false} ForgetAllFollows(db: Db, parts: seq<Part>, now: int)
    requires Shaped(db.nodes) && UniqueKeys(db.nodes) && Reasoned(db.nodes) && ForgetAll(db, parts, now).Ok?
    ensures AllFollow(db.nodes, ForgetAll(db, parts, now).value.db.nodes, now)
    decreases |parts|
  {
    hide UniqueKeys, Reasoned, Release;
    if parts != [] {
      ForgetAllFollows(db, parts[..|parts| - 1], now);
      hide Shaped;
      var middle := ForgetAll(db, parts[..|parts| - 1], now).value.db;
      var part := parts[|parts| - 1];
      ReleaseFollows(middle, part.selection, part.order, now);
      FollowInTurn(db.nodes, middle.nodes, Release(middle, part.selection, part.order, now).db.nodes, now);
    }
  }

  lemma FollowInTurn(a: Nodes, b: Nodes, c: Nodes, now: int)
    requires AllFollow(a, b, now) && AllFollow(b, c, now)
    ensures AllFollow(a, c, now)
  {
  }

  lemma ReplaceRests(outside: Outside, db: Db, node: NewNode, embedding: Option<Blob>, earlier: Endpoint,
                     reason: string, now: int)
    requires Valid(outside, db) && EmbeddingOf(outside, embedding, node.title, node.body)
    requires Replace(outside, db, node, embedding, earlier, reason, now).Ok?
    ensures AllRest(db.nodes, Replace(outside, db, node, embedding, earlier, reason, now).value.db.nodes)
  {
    hide Shaped, UniqueKeys, Reasoned, Supported, Embeds, Joined, Record, SupersedeDb;
    var w := Record(outside, db, node, embedding, now);
    RecordRests(outside, db, node, embedding, now);
    RecordKeeps(outside, db, node, embedding, now);
    if Resolve(w.db.nodes, earlier) != Ok(w.value) {
      SupersedeRests(w.db, Resolve(w.db.nodes, earlier).value, w.value, reason, now);
    }
  }

  lemma SettleRulesRests(outside: Outside, db: Db, order: seq<Id>, now: int)
    requires forall id :: id in order ==> Folds(Rekeyed(outside, db.nodes), id)
    ensures AllRest(db.nodes, SettleRules(outside, db, order, now).db.nodes)
  {
    var nodes := Rekeyed(outside, db.nodes);
    assert AllRest(db.nodes, nodes);
    hide Rekeyed;
    FoldAllRests(db.(nodes := nodes), nodes, order, now);
  }

  lemma {:induction false} SetEmbeddingsRests(db: Db, items: seq<Embedded>)
    ensures AllRest(db.nodes, SetEmbeddings(db, items).db.nodes)
  {
    if items != [] {
      SetEmbeddingsRests(db, items[..|items| - 1]);
    }
  }

  lemma FilesChangedAges(nodes: Nodes, command: Command)
    requires command.ChangingFiles?
    ensures AllAge(nodes, FilesChanged(nodes, command.changes, command.now), command)
  {
    forall n | IsVersion(nodes, n) ensures Ages(nodes[n], MarkedAll(nodes[n], command.changes, command.now), command) {
      MarkedAllReason(nodes[n], command.changes, command.now);
    }
  }

  lemma ExpireAges(nodes: Nodes, command: Command)
    requires command.Expiring?
    ensures AllAge(nodes, Expire(nodes, command.now), command)
  {
  }

  lemma RefreshAges(outside: Outside, db: Db, task: string, items: seq<Item>, joins: seq<Id> -> seq<NewEdge>,
                    order: seq<Id>, now: int)
    requires Valid(outside, db) && HonestItems(outside, items)
    requires Refresh(outside, db, task, items, joins, order, now).Ok?
    ensures AllAge(db.nodes, Refresh(outside, db, task, items, joins, order, now).value.db.nodes,
      Refreshing(task, items, joins, order, now))
  {
    hide Valid, AllRest, AllFollow, AllAge, Release, RecordAll, Link;
    var recorded := RecordAll(outside, db, items, now);
    RecordAllKeeps(outside, db, items, now);
    RecordAllRests(outside, db, items, now);
    var linked := Link(recorded.db, joins(recorded.value)).value;
    LinkKeeps(outside, recorded.db, joins(recorded.value));
    ValidIsShaped(outside, linked);
    ReleaseFollows(linked, OfTask(task), order, now);
    FollowAges(db.nodes, linked.nodes, Release(linked, OfTask(task), order, now).db.nodes,
      Refreshing(task, items, joins, order, now));
  }

  /** Every command lets versions age as `Ages` says. */
  lemma ExecAges(outside: Outside, db: Db, command: Command)
    requires Valid(outside, db) && Honest(outside, command)
    ensures AllAge(db.nodes, Exec(outside, db, command).db.nodes, command)
  {
    ValidIsShaped(outside, db);
    hide Valid, Shaped, UniqueKeys, Reasoned, Acyclic, AllRest, AllFollow, AllAge, Record, Drop, SetEmbeddings, SettleRules, Delete;
    if Attempt(outside, db, command).Ok? {
      AttemptAges(outside, db, command);
    } else {
      StillAges(db.nodes, command);
    }
  }

  /** A refused command changes nothing; only one that changes files could be said to have. */
  lemma StillAges(nodes: Nodes, command: Command)
    requires !command.ChangingFiles?
    ensures AllAge(nodes, nodes, command) && AllRest(nodes, nodes)
  {
  }

  lemma AttemptAges(outside: Outside, db: Db, command: Command)
    requires Valid(outside, db) && Honest(outside, command) && Attempt(outside, db, command).Ok?
    ensures AllAge(db.nodes, Attempt(outside, db, command).value.db.nodes, command)
  {
    ValidIsShaped(outside, db);
    hide Valid, Shaped, UniqueKeys, Reasoned, Acyclic, AllRest, AllFollow, AllAge, Record, SetEmbeddings, SettleRules, Delete;
    var after := Attempt(outside, db, command).value.db.nodes;
    match command
    case Recording(node, embedding, now) =>
      RecordRests(outside, db, node, embedding, now);
      RestAges(db.nodes, after, command);
    case Replacing(node, embedding, earlier, reason, now) =>
      ReplaceRests(outside, db, node, embedding, earlier, reason, now);
      RestAges(db.nodes, after, command);
    case Linking(edges) =>
      LinkedNodes(db, edges);
      StillAges(db.nodes, command);
    case Relinking(sources, edges) =>
      RelinkedSame(db, sources, edges);
      StillAges(db.nodes, command);
    case Superseding(earlier, later, reason, now) =>
      SupersedeCommandRests(db, earlier, later, reason, now);
      RestAges(db.nodes, after, command);
    case Deleting(id, now) => DeleteAges(db, id, now);
    case Forgetting(parts, now) =>
      ForgetAllFollows(db, parts, now);
      StillRests(db.nodes);
      FollowAges(db.nodes, db.nodes, after, command);
    case Refreshing(task, items, joins, order, now) => RefreshAges(outside, db, task, items, joins, order, now);
    case ChangingFiles(changes, now) => FilesChangedAges(db.nodes, command);
    case Expiring(now) => ExpireAges(db.nodes, command);
    case StoringEmbeddings(batch) =>
      SetEmbeddingsRests(db, batch);
      RestAges(db.nodes, after, command);
    case SettlingRules(order, now) =>
      SettleRulesRests(outside, db, order, now);
      RestAges(db.nodes, after, command);
  }

  lemma StillRests(nodes: Nodes)
    ensures AllRest(nodes, nodes)
  {
  }

  lemma SupersedeCommandRests(db: Db, earlier: Endpoint, later: Endpoint, reason: string, now: int)
    requires Acyclic(LinksOf(db.nodes)) && Supersede(db, earlier, later, reason, now).Ok?
    ensures AllRest(db.nodes, Supersede(db, earlier, later, reason, now).value.db.nodes)
  {
    hide SupersedeDb;
    SupersedeRests(db, Resolve(db.nodes, earlier).value, Resolve(db.nodes, later).value, reason, now);
  }

  lemma DeleteAges(db: Db, id: Id, now: int)
    requires Shaped(db.nodes) && Delete(db, id, now).Ok?
    ensures AllAge(db.nodes, Delete(db, id, now).value.db.nodes, Deleting(id, now))
  {
    hide Drop, AllRest, AllFollow, AllAge;
    DropFollows(db, [id], now);
    StillRests(db.nodes);
    FollowAges(db.nodes, db.nodes, Drop(db, [id], now).db.nodes, Deleting(id, now));
  }

  // Any run.

  /** Some command from `a` to `b` gave the version's files another content. */
  ghost predicate Outdated(dbs: seq<Db>, commands: seq<Command>, a: nat, b: nat, n: Id)
    requires b <= |commands| < |dbs|
  {
    exists i :: a <= i < b && n in dbs[i].nodes && OutdatesBy(dbs[i].nodes[n], commands[i])
  }

  /** While a node is a version, it has a reason to be stale exactly when it had one at the
      start or a change of files since gave one of its recorded files another content. */
  lemma {:induction false} VersionAges(outside: Outside, dbs: seq<Db>, commands: seq<Command>, a: nat, b: nat, n: Id)
    requires IsTrace(outside, dbs, commands) && a <= b <= |commands|
    requires forall i :: a <= i <= b ==> IsVersion(dbs[i].nodes, n)
    ensures IsVersion(dbs[a].nodes, n) && IsVersion(dbs[b].nodes, n)
    ensures dbs[b].nodes[n].status.staleReason.Some?
      <==> dbs[a].nodes[n].status.staleReason.Some? || Outdated(dbs, commands, a, b, n)
    ensures dbs[b].nodes[n].content.expires == dbs[a].nodes[n].content.expires
    decreases b
  {
    hide Valid, Exec, OutdatesBy;
    if a < b {
      VersionAges(outside, dbs, commands, a, b - 1, n);
      AgesAt(outside, dbs, commands, b - 1, n);
    }
  }

  lemma AgesAt(outside: Outside, dbs: seq<Db>, commands: seq<Command>, i: nat, n: Id)
    requires IsTrace(outside, dbs, commands) && i < |commands|
    requires IsVersion(dbs[i].nodes, n) && n in dbs[i + 1].nodes
    ensures Ages(dbs[i].nodes[n], dbs[i + 1].nodes[n], commands[i])
  {
    hide Valid, Exec, Ages;
    TraceValid(outside, dbs, commands, i);
    assert ExecsTo(outside, dbs[i], commands[i], dbs[i + 1]);
    ExecAges(outside, dbs[i], commands[i]);
  }

  /** A version that is current again is stale exactly when it had a reason to be, its files
      changed since, or its time is over by then. */
  lemma RevivedFreshness(outside: Outside, dbs: seq<Db>, commands: seq<Command>, a: nat, b: nat, n: Id)
    requires IsTrace(outside, dbs, commands) && a <= b < |commands|
    requires forall i :: a <= i <= b ==> IsVersion(dbs[i].nodes, n)
    requires IsCurrent(dbs[b + 1].nodes, n)
    ensures IsVersion(dbs[a].nodes, n) && IsCurrent(dbs[b + 1].nodes, n)
    ensures dbs[b + 1].nodes[n].status.state == Stale
      <==> || dbs[a].nodes[n].status.staleReason.Some?
           || Outdated(dbs, commands, a, b, n)
           || Expired(dbs[a].nodes[n], TimeOf(commands[b]))
  {
    hide IsTrace, Outdated;
    VersionAges(outside, dbs, commands, a, b, n);
    AgesAt(outside, dbs, commands, b, n);
  }
}
