/** Runs from an empty Brain that reach the states where the source's words do not hold. */
module Reachable {
  import opened Chains
  import opened Wrappers
  import opened Knowledge
  import opened Writes
  import opened Invariants
  import opened Keeping
  import opened Runs
  import opened Freshness
  import opened Twins
  import opened Lines
  import opened History
  import opened Retrieve

  /** `n` recordings of one rule, each with a longer body. */
  function Rewrites(node: NewNode, n: nat): seq<Command> {
    if n == 0 then [] else Rewrites(node, n - 1) + [Recording(Worded(node, n), None, 0)]
  }

  function Worded(node: NewNode, n: nat): NewNode {
    node.(body := seq(n, _ => 'x'))
  }

  predicate Fits(node: NewNode, topic: Topic) {
    node.kind == topic.kind && node.key == Some(topic.key) && KeepsHistory(node.kind)
  }

  /** The topic has a history of `n` versions, the last one with a body of that length. */
  ghost predicate HasHistory(nodes: Nodes, topic: Topic, n: nat) {
    exists story: Story :: Tells(nodes, topic, story) && |story| == n && (n > 0 ==> |story[0].body| == n)
  }

  lemma LongerHistory(outside: Outside, db: Db, topic: Topic, node: NewNode, n: nat)
    requires Valid(outside, db) && Fits(node, topic) && HasHistory(db.nodes, topic, n)
    ensures HasHistory(Record(outside, db, Worded(node, n + 1), None, 0).db.nodes, topic, n + 1)
  {
    hide Valid, Tells, Record, Existing, KeepsHistory;
    var story: Story :| Tells(db.nodes, topic, story) && |story| == n && (n > 0 ==> |story[0].body| == n);
    RecordTells(outside, db, topic, story, Worded(node, n + 1), None, 0);
  }

  lemma RecordingRuns(outside: Outside, db: Db, node: NewNode, now: int)
    requires Valid(outside, db) && Checks(outside, node)
    ensures Exec(outside, db, Recording(node, None, now)).db == Record(outside, db, node, None, now).db
  {
    hide Valid, Record;
  }

  /** Runs of plain recordings from an empty Brain give a rule a history of any length. */
  lemma {:induction false} LongHistory(outside: Outside, topic: Topic, node: NewNode, n: nat)
    requires Checks(outside, node) && Fits(node, topic)
    ensures forall command :: command in Rewrites(node, n) ==> Honest(outside, command) && IsPlain(command)
    ensures HasHistory(Run(outside, Rewrites(node, n)).nodes, topic, n)
  {
    hide Valid, Tells, Record, HasHistory, Fits, Exec;
    if n == 0 {
      EmptyTells(topic);
      assert HasHistory(EMPTY.nodes, topic, 0) by {
        NoHistory(EMPTY.nodes, topic);
      }
    } else {
      LongHistory(outside, topic, node, n - 1);
      var before := Run(outside, Rewrites(node, n - 1));
      RunOne(outside, Rewrites(node, n - 1), Recording(Worded(node, n), None, 0));
      RecordingRuns(outside, before, Worded(node, n), 0);
      LongerHistory(outside, before, topic, node, n - 1);
    }
  }

  lemma NoHistory(nodes: Nodes, topic: Topic)
    requires Tells(nodes, topic, [])
    ensures HasHistory(nodes, topic, 0)
  {
  }

  /** So some run leaves a stored node whose current version is not found, though no chain loops. */
  lemma CurrentNotFound(outside: Outside, topic: Topic, node: NewNode, n: nat)
    requires Checks(outside, node) && Fits(node, topic) && n > READS
    ensures forall command :: command in Rewrites(node, n) ==> Honest(outside, command) && IsPlain(command)
    ensures var nodes := Run(outside, Rewrites(node, n)).nodes;
      && Shaped(nodes)
      && exists id :: id in nodes && Depth(LinksOf(nodes), id) >= READS && IsCurrent(nodes, End(LinksOf(nodes), id))
  {
    hide Valid, Run, HasHistory, Shaped, Acyclic, UniqueKeys, Reasoned, Fits, Checks;
    LongHistory(outside, topic, node, n);
    var db := Run(outside, Rewrites(node, n));
    ValidIsShaped(outside, db);
    OldestIsFar(db.nodes, topic, n);
  }

  /** The oldest of `n` versions is `n - 1` replacements from the current one. */
  lemma OldestIsFar(nodes: Nodes, topic: Topic, n: nat)
    requires Shaped(nodes) && Acyclic(LinksOf(nodes)) && HasHistory(nodes, topic, n) && n > 0
    ensures exists id :: id in nodes && Depth(LinksOf(nodes), id) == n - 1 && IsCurrent(nodes, End(LinksOf(nodes), id))
  {
    hide Tells, Shaped, Acyclic;
    var story: Story :| Tells(nodes, topic, story) && |story| == n;
    VersionDepth(nodes, topic, story, n - 1);
    LineStored(nodes, topic, story);
    assert Ids(story)[n - 1] in Ids(story);
    EndStored(nodes, story[n - 1].id);
  }

  /** Two wordings of one rule. */
  predicate Differ(outside: Outside, topic: Topic, first: NewNode, second: NewNode) {
    && Checks(outside, first) && Checks(outside, second) && Fits(first, topic) && Fits(second, topic)
    && (first.title != second.title || first.body != second.body)
  }

  function TwoWordings(first: NewNode, second: NewNode, now: int): seq<Command> {
    [Recording(first, None, now), Recording(second, None, now)]
  }

  function Older(first: NewNode): Version {
    Version(1, first.title, first.body, OneSource(first))
  }

  function Newer(second: NewNode): Version {
    Version(0, second.title, second.body, OneSource(second))
  }

  /** A task records a rule in two wordings. */
  lemma TwoWordingsTell(outside: Outside, topic: Topic, first: NewNode, second: NewNode, now: int)
    requires Differ(outside, topic, first, second)
    ensures forall command :: command in TwoWordings(first, second, now) ==> Honest(outside, command)
    ensures Tells(Run(outside, TwoWordings(first, second, now)).nodes, topic,
      [Newer(second), Older(first)])
  {
    hide Valid, Tells, Record, Exec;
    var one, two := Recording(first, None, now), Recording(second, None, now);
    assert Run(outside, []) == EMPTY;
    RunOne(outside, [], one);
    RunOne(outside, [one], two);
    assert [] + [one] == [one] && [one] + [two] == TwoWordings(first, second, now);
    RecordingRuns(outside, EMPTY, first, now);
    var db := Run(outside, [one]);
    RecordingRuns(outside, db, second, now);
    FirstRecording(outside, topic, first, None, now);
    FirstTakesOneId(outside, first, now);
    var story := [Version(0, first.title, first.body, OneSource(first))];
    RewritingPushes(outside, db, topic, story, second, None, now);
    assert [Newer(second), story[0].(id := 1)] + story[1..] == [Newer(second), Older(first)];
  }

  lemma FirstTakesOneId(outside: Outside, node: NewNode, now: int)
    requires node.key.Some?
    ensures Record(outside, EMPTY, node, None, now).db.next == 1
  {
    assert Holders(EMPTY.nodes, node.kind, node.key.value) == {};
  }

  lemma TakesOneId(outside: Outside, db: Db, node: NewNode, now: int)
    ensures Record(outside, db, node, None, now).db.next <= db.next + 1
  {
    hide FoldKey, Existing, RewriteReason;
  }

  /** Only the newer of two versions is released, and the older one is left. */
  lemma ReleasesNewer(outside: Outside, db: Db, topic: Topic, newer: Version, older: Version, task: string, now: int)
    requires Valid(outside, db) && Acyclic(LinksOf(db.nodes)) && Tells(db.nodes, topic, [newer, older])
    requires forall n :: n in db.nodes ==> n in {newer.id, older.id}
    requires FromTask(newer, task) && Forgotten(newer.sources, OfTask(task)) == map[] && FromTask(older, task)
    ensures Enumerates([newer.id], Unrecorded(db.nodes, task, {}))
    ensures var nodes := Release(db, OfTask(task), [newer.id], now).db.nodes;
      IsCurrent(nodes, older.id) && HasSource(nodes[older.id], OfTask(task)) && nodes[older.id].content.body == older.body
  {
    ValidIsShaped(outside, db);
    ValidIsSupported(outside, db);
    hide Valid, Shaped, UniqueKeys, Reasoned, Acyclic, Supported, Release;
    TwoVersions(db.nodes, topic, newer, older, task);
    hide Tells, Forgotten, Enumerates, Unrecorded;
    RefreshTells(db, topic, [newer, older], task, {}, [newer.id], now);
    assert Refreshed([newer, older], task, {}) == [older];
    HeadIs(Release(db, OfTask(task), [newer.id], now).db.nodes, topic, older);
  }

  lemma TwoVersions(nodes: Nodes, topic: Topic, newer: Version, older: Version, task: string)
    requires Tells(nodes, topic, [newer, older]) && FromTask(newer, task)
    requires forall n :: n in nodes ==> n in {newer.id, older.id}
    ensures Enumerates([newer.id], Unrecorded(nodes, task, {}))
  {
    var story := [newer, older];
    assert Ids(story) == [newer.id, older.id];
    assert Says(nodes, story[0]) && Hangs(nodes, Ids(story)[1], Ids(story)[0]);
    assert Unrecorded(nodes, task, {}) == {newer.id};
  }

  lemma HeadIs(nodes: Nodes, topic: Topic, head: Version)
    requires Tells(nodes, topic, [head])
    ensures IsCurrent(nodes, head.id) && Says(nodes, head)
  {
    assert Ids([head]) == [head.id];
    assert Says(nodes, [head][0]);
  }

  /** When the task then refreshes with neither, the rule is left in its first wording, current and
      still with a source of that task. */
  lemma RefreshRevivesTask(outside: Outside, topic: Topic, first: NewNode, second: NewNode, task: string, now: int)
    requires Differ(outside, topic, first, second) && first.provenance.task == second.provenance.task == Some(task)
    ensures forall command :: command in TwoWordings(first, second, now) ==> Honest(outside, command)
    ensures var db := Run(outside, TwoWordings(first, second, now));
      && Refresh(outside, db, task, [], _ => [], [0], now).Ok?
      && var nodes := Refresh(outside, db, task, [], _ => [], [0], now).value.db.nodes;
         IsCurrent(nodes, 1) && HasSource(nodes[1], OfTask(task)) && nodes[1].content.body == first.body
  {
    hide Valid, Run, Shaped, UniqueKeys, Reasoned, Release, Acyclic, Tells, Unrecorded, Enumerates;
    TwoWordingsTell(outside, topic, first, second, now);
    var db := Run(outside, TwoWordings(first, second, now));
    TwoNodes(outside, first, second, now);
    ValidIsShaped(outside, db);
    OnlySource(first, task, 1);
    OnlySource(second, task, 0);
    ReleasesNewer(outside, db, topic, Newer(second), Older(first), task, now);
    RefreshesNothing(outside, db, task, [0], now);
  }

  lemma RefreshesNothing(outside: Outside, db: Db, task: string, order: seq<Id>, now: int)
    requires Valid(outside, db) && Acyclic(LinksOf(db.nodes)) && Enumerates(order, Unrecorded(db.nodes, task, {}))
    ensures var r := Refresh(outside, db, task, [], _ => [], order, now);
      r.Ok? && r.value.db == Release(db, OfTask(task), order, now).db
  {
    hide Valid, Acyclic, Release, Enumerates;
    assert ToSet([]) == {};
  }

  lemma OnlySource(node: NewNode, task: string, id: Id)
    requires node.provenance.task == Some(task)
    ensures var version := Version(id, node.title, node.body, OneSource(node));
      FromTask(version, task) && Forgotten(version.sources, OfTask(task)) == map[]
  {
    assert SourceId(node.provenance) in OneSource(node);
  }

  lemma TwoNodes(outside: Outside, first: NewNode, second: NewNode, now: int)
    requires Checks(outside, first) && Checks(outside, second) && first.key.Some?
    ensures forall command :: command in TwoWordings(first, second, now) ==> Honest(outside, command)
    ensures forall n :: n in Run(outside, TwoWordings(first, second, now)).nodes ==> n in {0, 1}
  {
    hide Shaped, UniqueKeys, Reasoned, Record, Exec, Embeds, Joined, Supported;
    var one, two := Recording(first, None, now), Recording(second, None, now);
    assert Run(outside, []) == EMPTY;
    RunOne(outside, [], one);
    RunOne(outside, [one], two);
    assert [] + [one] == [one] && [one] + [two] == TwoWordings(first, second, now);
    RecordingRuns(outside, EMPTY, first, now);
    FirstTakesOneId(outside, first, now);
    var db := Run(outside, [one]);
    RecordingRuns(outside, db, second, now);
    TakesOneId(outside, db, second, now);
  }

  // A version next to its twin.

  /** The tables after the first wording and after the second. */
  ghost function One(outside: Outside, first: NewNode): Db {
    Record(outside, EMPTY, first, None, 0).db
  }

  ghost function Two(outside: Outside, first: NewNode, second: NewNode): Db {
    Record(outside, One(outside, first), second, None, 0).db
  }

  lemma OneIs(outside: Outside, topic: Topic, first: NewNode)
    requires Fits(first, topic)
    ensures var db := One(outside, first);
      && Valid(outside, db) && db.next == 1 && (forall n :: n in db.nodes <==> n == 0)
      && db.nodes[0].status.state == Fresh && db.nodes[0].content.expires == first.expires
      && db.nodes[0].content.title == first.title && db.nodes[0].content.body == first.body
      && Tells(db.nodes, topic, [Version(0, first.title, first.body, OneSource(first))])
  {
    EmptyIsValid(outside);
    RecordKeeps(outside, EMPTY, first, None, 0);
    FirstRecording(outside, topic, first, None, 0);
    hide Valid, Tells, FoldKey;
    assert Holders(EMPTY.nodes, first.kind, first.key.value) == {};
  }

  /** The second wording keeps the first as the version 1. */
  lemma TwoIs(outside: Outside, topic: Topic, first: NewNode, second: NewNode)
    requires Differ(outside, topic, first, second)
    ensures var one, two := One(outside, first), Two(outside, first, second);
      && Valid(outside, one) && (forall n :: n in one.nodes <==> n == 0)
      && Valid(outside, two) && Copies(outside, one, second, 1, one.nodes[0])
      && IsVersion(two.nodes, 1) && Tells(two.nodes, topic, [Newer(second), Older(first)])
  {
    hide Valid, Tells, Record, Existing;
    OneIs(outside, topic, first);
    var one := One(outside, first);
    RecordKeeps(outside, one, second, None, 0);
    var story := [Version(0, first.title, first.body, OneSource(first))];
    FoundOnStory(outside, one.nodes, topic, story, second);
    CopyCarries(outside, one, second, None, 0, 1, one.nodes[0]);
    RewritingPushes(outside, one, topic, story, second, None, 0);
    assert [Newer(second), story[0].(id := 1)] + story[1..] == [Newer(second), Older(first)];
  }

  /** Deleting the second wording makes the first current again. */
  lemma DeletedIs(outside: Outside, db: Db, topic: Topic, first: NewNode, second: NewNode, now: int)
    requires Valid(outside, db) && Tells(db.nodes, topic, [Newer(second), Older(first)])
    ensures IsCurrent(Exec(outside, db, Deleting(0, now)).db.nodes, 1)
  {
    hide Valid, Tells, Delete, Shaped, UniqueKeys, Reasoned, Acyclic, Exec;
    ValidIsShaped(outside, db);
    var story := [Newer(second), Older(first)];
    DeletingPops(db, topic, story, now);
    DeletingRuns(outside, db, 0, now);
    assert story[1..] == [Older(first)];
    HeadIs(Delete(db, 0, now).value.db.nodes, topic, Older(first));
  }

  lemma DeletingRuns(outside: Outside, db: Db, id: Id, now: int)
    requires Valid(outside, db) && Acyclic(LinksOf(db.nodes)) && Delete(db, id, now).Ok?
    ensures Exec(outside, db, Deleting(id, now)).db == Delete(db, id, now).value.db
  {
    hide Valid, Delete, Acyclic;
  }

  lemma FirstLastCurrent(outside: Outside, db: Db, second: NewNode, m: Node)
    requires 1 !in db.nodes && Copies(outside, db, second, 1, m)
    ensures LastCurrent(outside, db, Recording(second, None, 0), 1, m)
  {
    hide Copies;
    var command := Recording(second, None, 0);
    assert ItemsIn(command) == [Item(second, None)] && ItemsIn(command)[..0] == [];
    assert CopiedAt(outside, db, ItemsIn(command), TimeOf(command), 1, m, 0);
  }

  /** A version whose time is over, with no command that expired nodes meanwhile: it is current
      again and stale, where its twin is fresh. */
  lemma StaleNextToFreshTwin(outside: Outside, topic: Topic, first: NewNode, second: NewNode, now: int)
    returns (dbs: seq<Db>, commands: seq<Command>)
    requires Differ(outside, topic, first, second) && first.expires.Some? && first.expires.value <= now
    ensures commands == [Recording(first, None, 0), Recording(second, None, 0), Deleting(0, now)]
    ensures IsTrace(outside, dbs, commands) && dbs[0] == EMPTY
    ensures 0 in dbs[1].nodes && LastCurrent(outside, dbs[1], commands[1], 1, dbs[1].nodes[0])
    ensures IsVersion(dbs[2].nodes, 1) && IsCurrent(dbs[3].nodes, 1)
    ensures dbs[3].nodes[1].status.state == Stale
    ensures Twin(dbs, commands, 1, dbs[1].nodes[0], 2, 2).status.state == Fresh
  {
    hide Valid, Tells, Record, Exec, Copies, LastCurrent, Fits, Checks;
    commands := [Recording(first, None, 0), Recording(second, None, 0), Deleting(0, now)];
    var one, two := One(outside, first), Two(outside, first, second);
    TwoIs(outside, topic, first, second);
    OneIs(outside, topic, first);
    EmptyIsValid(outside);
    RecordingRuns(outside, EMPTY, first, 0);
    RecordingRuns(outside, one, second, 0);
    dbs := [EMPTY, one, two, Exec(outside, two, commands[2]).db];
    assert IsTrace(outside, dbs, commands);
    FirstLastCurrent(outside, one, second, one.nodes[0]);
    DeletedIs(outside, two, topic, first, second, now);
    RevivedAsTwin(outside, dbs, commands, 1, 2, 1, one.nodes[0]);
  }

  /** The other way round: nodes were expired for a later time than the one the version is current
      again at, so that it is fresh where its twin is stale. */
  lemma FreshNextToStaleTwin(outside: Outside, topic: Topic, first: NewNode, second: NewNode, later: int, now: int)
    returns (dbs: seq<Db>, commands: seq<Command>)
    requires Differ(outside, topic, first, second) && first.expires.Some? && now < first.expires.value <= later
    ensures commands == [Recording(first, None, 0), Recording(second, None, 0), Expiring(later), Deleting(0, now)]
    ensures IsTrace(outside, dbs, commands) && dbs[0] == EMPTY
    ensures 0 in dbs[1].nodes && LastCurrent(outside, dbs[1], commands[1], 1, dbs[1].nodes[0])
    ensures IsVersion(dbs[2].nodes, 1) && IsVersion(dbs[3].nodes, 1) && IsCurrent(dbs[4].nodes, 1)
    ensures dbs[4].nodes[1].status.state == Fresh
    ensures Twin(dbs, commands, 1, dbs[1].nodes[0], 2, 3).status.state == Stale
  {
    hide Valid, Tells, Record, Exec, Copies, LastCurrent, Fits, Checks;
    commands := [Recording(first, None, 0), Recording(second, None, 0), Expiring(later), Deleting(0, now)];
    var one, two := One(outside, first), Two(outside, first, second);
    TwoIs(outside, topic, first, second);
    OneIs(outside, topic, first);
    EmptyIsValid(outside);
    RecordingRuns(outside, EMPTY, first, 0);
    RecordingRuns(outside, one, second, 0);
    ExpiringRuns(outside, two, topic, [Newer(second), Older(first)], later);
    var three := Exec(outside, two, commands[2]).db;
    dbs := [EMPTY, one, two, three, Exec(outside, three, commands[3]).db];
    assert IsTrace(outside, dbs, commands);
    FirstLastCurrent(outside, one, second, one.nodes[0]);
    DeletedIs(outside, three, topic, first, second, now);
    RevivedAsTwin(outside, dbs, commands, 1, 3, 1, one.nodes[0]);
  }

  lemma ExpiringRuns(outside: Outside, db: Db, topic: Topic, story: Story, now: int)
    requires Valid(outside, db) && Tells(db.nodes, topic, story)
    ensures Exec(outside, db, Expiring(now)).db == db.(nodes := Expire(db.nodes, now))
    ensures Valid(outside, db.(nodes := Expire(db.nodes, now)))
    ensures IsVersion(db.nodes, 1) ==> IsVersion(Expire(db.nodes, now), 1)
    ensures Tells(Expire(db.nodes, now), topic, story)
  {
    hide Valid, Tells;
    ExpireKeeps(outside, db, now);
    ExpireTells(db.nodes, topic, story, now);
  }
}
