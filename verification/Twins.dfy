/** A version that is current again, next to its twin: the same node had it never been replaced. */
module Twins {
  import opened Chains
  import opened Wrappers
  import opened Knowledge
  import opened Writes
  import opened Invariants
  import opened Keeping
  import opened FilesSeen
  import opened Runs
  import opened Freshness

  function ItemsIn(command: Command): seq<Item> {
    match command
    case Recording(node, embedding, _) => [Item(node, embedding)]
    case Replacing(node, embedding, _, _, _) => [Item(node, embedding)]
    case Refreshing(_, items, _, _, _) => items
    case _ => []
  }

  /** Recording `node` rewrites the current node `m`, and keeps it as the version `n`. */
  ghost predicate Copies(outside: Outside, db: Db, node: NewNode, n: Id, m: Node) {
    var found := Existing(outside, db.nodes, node);
    && n == db.next && KeepsHistory(node.kind)
    && found.Some? && m == db.nodes[found.value] && !Confirms(m, node)
  }

  /** The recording of `items[k]` is what keeps `m` as the version `n`. */
  ghost predicate CopiedAt(outside: Outside, db: Db, items: seq<Item>, now: int, n: Id, m: Node, k: nat) {
    k < |items| && Copies(outside, RecordAll(outside, db, items[..k], now).db, items[k].node, n, m)
  }

  /** `m` is what the command makes the version `n` of, as it last was current: the node `n`
      itself, or the node that one of the command's recordings rewrites. */
  ghost predicate LastCurrent(outside: Outside, db: Db, command: Command, n: Id, m: Node) {
    if n in db.nodes then IsCurrent(db.nodes, n) && m == db.nodes[n]
    else (exists k: nat :: CopiedAt(outside, db, ItemsIn(command), TimeOf(command), n, m, k))
  }

  /** The version has a reason to be stale exactly when the node was stale, and the same expiry. */
  predicate Carries(m: Node, version: Node) {
    && m.status.state != Superseded
    && (version.status.staleReason.Some? <==> m.status.state == Stale)
    && version.content.expires == m.content.expires
  }

  // How a node becomes a version.

  lemma CopyCarries(outside: Outside, db: Db, node: NewNode, embedding: Option<Blob>, now: int, n: Id, m: Node)
    requires Valid(outside, db) && Copies(outside, db, node, n, m)
    ensures var after := Record(outside, db, node, embedding, now).db.nodes; IsVersion(after, n) && Carries(m, after[n])
  {
    hide Shaped, UniqueKeys, Supported, Embeds, Joined, FoldKey, RewriteReason;
  }

  /** A recording makes no version but the copy of what it rewrites. */
  lemma OnlyCopies(outside: Outside, db: Db, node: NewNode, embedding: Option<Blob>, now: int, n: Id)
    requires !IsVersion(db.nodes, n) && IsVersion(Record(outside, db, node, embedding, now).db.nodes, n)
    requires db.next !in db.nodes
    ensures n !in db.nodes && Existing(outside, db.nodes, node).Some?
    ensures Copies(outside, db, node, n, db.nodes[Existing(outside, db.nodes, node).value])
  {
    hide FoldKey, RewriteReason, Existing;
  }

  lemma {:induction false} RecordAllGrows(outside: Outside, db: Db, items: seq<Item>, now: int)
    ensures db.nodes.Keys <= RecordAll(outside, db, items, now).db.nodes.Keys
    decreases |items|
  {
    if items != [] {
      hide FoldKey, Existing;
      RecordAllGrows(outside, db, items[..|items| - 1], now);
    }
  }

  lemma {:induction false} RecordAllCopies(outside: Outside, db: Db, items: seq<Item>, now: int, n: Id)
    requires Valid(outside, db) && HonestItems(outside, items)
    requires !IsVersion(db.nodes, n) && IsVersion(RecordAll(outside, db, items, now).db.nodes, n)
    ensures n !in db.nodes && exists k: nat, m: Node :: CopiedAt(outside, db, items, now, n, m, k)
    decreases |items|
  {
    hide Valid, Copies, Record;
    var before, last := items[..|items| - 1], items[|items| - 1];
    var middle := RecordAll(outside, db, before, now).db;
    if IsVersion(middle.nodes, n) {
      RecordAllCopies(outside, db, before, now, n);
      var k: nat, m: Node :| CopiedAt(outside, db, before, now, n, m, k);
      assert before[..k] == items[..k];
      assert CopiedAt(outside, db, items, now, n, m, k);
    } else {
      RecordAllKeeps(outside, db, before, now);
      ValidIsShaped(outside, middle);
      OnlyCopies(outside, middle, last.node, last.embedding, now, n);
      RecordAllGrows(outside, db, before, now);
      assert CopiedAt(outside, db, items, now, n, middle.nodes[Existing(outside, middle.nodes, last.node).value], |items| - 1);
    }
  }

  lemma {:induction false} CopyStays(outside: Outside, db: Db, items: seq<Item>, now: int, n: Id, m: Node, k: nat)
    requires Valid(outside, db) && HonestItems(outside, items) && CopiedAt(outside, db, items, now, n, m, k)
    ensures var after := RecordAll(outside, db, items, now).db.nodes; IsVersion(after, n) && Carries(m, after[n])
    decreases |items|
  {
    hide Valid, Copies, Record;
    var before, last := items[..|items| - 1], items[|items| - 1];
    var middle := RecordAll(outside, db, before, now).db;
    RecordAllKeeps(outside, db, before, now);
    if k == |items| - 1 {
      CopyCarries(outside, middle, last.node, last.embedding, now, n, m);
    } else {
      assert before[..k] == items[..k];
      CopyStays(outside, db, before, now, n, m, k);
      ValidIsShaped(outside, middle);
      RecordRests(outside, middle, last.node, last.embedding, now);
    }
  }

  /** What a recording leaves of a node that was current before and is no new version after. */
  lemma RecordedOtherwise(outside: Outside, db: Db, node: NewNode, embedding: Option<Blob>, now: int, n: Id)
    requires Valid(outside, db) && IsCurrent(db.nodes, n)
    ensures var w := Record(outside, db, node, embedding, now);
      n in w.db.nodes && (n != w.value ==> w.db.nodes[n] == db.nodes[n])
  {
    hide UniqueKeys, Supported, Embeds, Joined, Reasoned, FoldKey, RewriteReason;
  }

  lemma RecordedNew(outside: Outside, db: Db, node: NewNode, embedding: Option<Blob>, now: int, n: Id)
    requires Valid(outside, db) && n !in db.nodes
    ensures var w := Record(outside, db, node, embedding, now);
      n in w.db.nodes && n != w.value ==> IsVersion(w.db.nodes, n)
  {
    hide Shaped, UniqueKeys, Supported, Embeds, Joined, Reasoned, FoldKey, RewriteReason;
  }

  lemma OneRecorded(outside: Outside, db: Db, node: NewNode, embedding: Option<Blob>, now: int)
    ensures RecordAll(outside, db, [Item(node, embedding)], now).db == Record(outside, db, node, embedding, now).db
  {
    hide Record;
    assert [Item(node, embedding)][..0] == [];
  }

  /** A version a recording made, after what else the command does. */
  lemma CopyBecomes(outside: Outside, db: Db, command: Command, n: Id, after: Nodes)
    requires Valid(outside, db) && HonestItems(outside, ItemsIn(command)) && !IsVersion(db.nodes, n)
    requires var recorded := RecordAll(outside, db, ItemsIn(command), TimeOf(command)).db.nodes;
      && IsVersion(recorded, n) && n in after && Rests(recorded[n], after[n])
    ensures Became(outside, db, command, n, after)
  {
    hide Valid, RecordAll, HonestItems, Carries, Copies;
    var items, now := ItemsIn(command), TimeOf(command);
    RecordAllCopies(outside, db, items, now, n);
    var k: nat, m: Node :| CopiedAt(outside, db, items, now, n, m, k);
    assert LastCurrent(outside, db, command, n, m);
    forall m: Node | LastCurrent(outside, db, command, n, m) ensures Carries(m, after[n]) {
      var k: nat :| CopiedAt(outside, db, items, now, n, m, k);
      CopyStays(outside, db, items, now, n, m, k);
      CarriesOn(m, RecordAll(outside, db, items, now).db.nodes[n], after[n]);
    }
  }

  lemma CarriesOn(m: Node, version: Node, after: Node)
    requires Carries(m, version) && Rests(version, after)
    ensures Carries(m, after)
  {
  }

  /** The version was made of one node that was current till then, and carries what it was. */
  ghost predicate Became(outside: Outside, db: Db, command: Command, n: Id, after: Nodes) {
    && n in after
    && (exists m: Node :: LastCurrent(outside, db, command, n, m))
    && (forall m: Node :: LastCurrent(outside, db, command, n, m) ==> Carries(m, after[n]))
  }

  /** A node that was current, superseded as it was. */
  lemma SupersededBecomes(outside: Outside, db: Db, command: Command, n: Id, after: Nodes)
    requires Valid(outside, db) && IsCurrent(db.nodes, n) && n in after && Rests(db.nodes[n], after[n])
    ensures Became(outside, db, command, n, after)
  {
    hide Shaped, UniqueKeys, Supported, Embeds, Joined;
    assert LastCurrent(outside, db, command, n, db.nodes[n]);
  }

  lemma ReplacingBecomes(outside: Outside, db: Db, command: Command, n: Id)
    requires Valid(outside, db) && Honest(outside, command) && command.Replacing?
    requires Attempt(outside, db, command).Ok?
    requires !IsVersion(db.nodes, n) && IsVersion(Attempt(outside, db, command).value.db.nodes, n)
    ensures Became(outside, db, command, n, Attempt(outside, db, command).value.db.nodes)
  {
    hide Valid, Record, SupersedeDb, Became;
    var Replacing(node, embedding, earlier, reason, now) := command;
    var after := Attempt(outside, db, command).value.db.nodes;
    var w := Record(outside, db, node, embedding, now);
    RecordKeeps(outside, db, node, embedding, now);
    OneRecorded(outside, db, node, embedding, now);
    if Resolve(w.db.nodes, earlier) == Ok(w.value) {
      CopyBecomes(outside, db, command, n, after);
    } else {
      var superseded := Resolve(w.db.nodes, earlier).value;
      SupersedeRests(w.db, superseded, w.value, reason, now);
      assert after == SupersedeDb(w.db, superseded, w.value, reason, now).nodes;
      if IsVersion(w.db.nodes, n) {
        CopyBecomes(outside, db, command, n, after);
      } else {
        SupersedesOne(w.db, superseded, w.value, reason, now, n);
        RecordedBefore(outside, db, node, embedding, now, n);
        SupersededBecomes(outside, db, command, n, after);
      }
    }
  }

  /** What a recording leaves current, but for the node recorded, it leaves as it was. */
  lemma RecordedBefore(outside: Outside, db: Db, node: NewNode, embedding: Option<Blob>, now: int, n: Id)
    requires Valid(outside, db) && !IsVersion(db.nodes, n)
    requires var w := Record(outside, db, node, embedding, now); IsCurrent(w.db.nodes, n) && n != w.value
    ensures IsCurrent(db.nodes, n) && Record(outside, db, node, embedding, now).db.nodes[n] == db.nodes[n]
  {
    hide Valid, Record;
    if n in db.nodes {
      RecordedOtherwise(outside, db, node, embedding, now, n);
    } else {
      RecordedNew(outside, db, node, embedding, now, n);
    }
  }

  lemma SupersedesOne(db: Db, earlier: Id, later: Id, reason: string, now: int, n: Id)
    requires earlier in db.nodes
    requires var after := SupersedeDb(db, earlier, later, reason, now).nodes; !IsVersion(db.nodes, n) && IsVersion(after, n)
    ensures n == earlier && IsCurrent(db.nodes, n)
    ensures Rests(db.nodes[n], SupersedeDb(db, earlier, later, reason, now).nodes[n])
  {
  }

  lemma SupersedingBecomes(outside: Outside, db: Db, command: Command, n: Id)
    requires Valid(outside, db) && Honest(outside, command) && command.Superseding?
    requires Attempt(outside, db, command).Ok?
    requires !IsVersion(db.nodes, n) && IsVersion(Attempt(outside, db, command).value.db.nodes, n)
    ensures Became(outside, db, command, n, Attempt(outside, db, command).value.db.nodes)
  {
    ValidIsShaped(outside, db);
    hide Valid, SupersedeDb, Became, Acyclic;
    var Superseding(earlier, later, reason, now) := command;
    SupersedesOne(db, Resolve(db.nodes, earlier).value, Resolve(db.nodes, later).value, reason, now, n);
    SupersededBecomes(outside, db, command, n, Attempt(outside, db, command).value.db.nodes);
  }

  lemma SettlingBecomes(outside: Outside, db: Db, command: Command, n: Id)
    requires Valid(outside, db) && command.SettlingRules? && Settles(outside, db.nodes, command.order)
    requires !IsVersion(db.nodes, n) && IsVersion(SettleRules(outside, db, command.order, command.now).db.nodes, n)
    ensures Became(outside, db, command, n, SettleRules(outside, db, command.order, command.now).db.nodes)
  {
    hide Valid, FoldAll, Became, Folds;
    var nodes := Rekeyed(outside, db.nodes);
    RekeyedKeeps(outside, db);
    FoldAllKeeps(outside, db.(nodes := nodes), command.order, command.now);
    var after := SettleRules(outside, db, command.order, command.now).db.nodes;
    assert n in nodes;
    SupersededBecomes(outside, db, command, n, after);
  }

  lemma RefreshingBecomes(outside: Outside, db: Db, command: Command, n: Id)
    requires Valid(outside, db) && Honest(outside, command) && command.Refreshing?
    requires Attempt(outside, db, command).Ok?
    requires !IsVersion(db.nodes, n) && IsVersion(Attempt(outside, db, command).value.db.nodes, n)
    ensures Became(outside, db, command, n, Attempt(outside, db, command).value.db.nodes)
  {
    hide Valid, RecordAll, Release, Link, Became;
    var Refreshing(task, items, joins, order, now) := command;
    var recorded := RecordAll(outside, db, items, now);
    RecordAllKeeps(outside, db, items, now);
    LinkedNodes(recorded.db, joins(recorded.value));
    LinkKeeps(outside, recorded.db, joins(recorded.value));
    var linked := Link(recorded.db, joins(recorded.value)).value;
    ValidIsShaped(outside, linked);
    hide Acyclic, Shaped;
    ReleaseFollows(linked, OfTask(task), order, now);
    CopyBecomes(outside, db, command, n, Release(linked, OfTask(task), order, now).db.nodes);
  }

  /** A deletion makes no version. */
  lemma NoneFollows(before: Nodes, after: Nodes, now: int, n: Id)
    requires AllFollow(before, after, now) && IsVersion(after, n)
    ensures IsVersion(before, n)
  {
  }

  /** However a node becomes a version, by a replacement, by folding or as the copy of what a
      recording rewrites, the version has a reason to be stale exactly when the node was stale. */
  lemma BecomesVersion(outside: Outside, db: Db, command: Command, n: Id)
    requires Valid(outside, db) && Honest(outside, command)
    requires !IsVersion(db.nodes, n) && IsVersion(Exec(outside, db, command).db.nodes, n)
    ensures Became(outside, db, command, n, Exec(outside, db, command).db.nodes)
  {
    hide Valid, Became, Record, RecordAll, Replace, Refresh, SettleRules, Release, Supersede, Settles;
    var after := Attempt(outside, db, command).value.db.nodes;
    match command {
      case Recording(node, embedding, now) =>
        OneRecorded(outside, db, node, embedding, now);
        CopyBecomes(outside, db, command, n, after);
      case Replacing(_, _, _, _, _) => ReplacingBecomes(outside, db, command, n);
      case Superseding(_, _, _, _) => SupersedingBecomes(outside, db, command, n);
      case SettlingRules(_, _) => SettlingBecomes(outside, db, command, n);
      case Refreshing(_, _, _, _, _) => RefreshingBecomes(outside, db, command, n);
      case _ => OthersMakeNone(outside, db, command, n);
    }
  }

  /** The other commands make no version. */
  lemma OthersMakeNone(outside: Outside, db: Db, command: Command, n: Id)
    requires Valid(outside, db) && Honest(outside, command) && Attempt(outside, db, command).Ok?
    requires IsVersion(Attempt(outside, db, command).value.db.nodes, n)
    requires command.Linking? || command.Relinking? || command.Deleting? || command.Forgetting?
          || command.ChangingFiles? || command.Expiring? || command.StoringEmbeddings?
    ensures IsVersion(db.nodes, n)
  {
    ValidIsShaped(outside, db);
    hide Valid, Shaped, UniqueKeys, Reasoned, Acyclic, Drop, MarkedAll, SetEmbeddings, AllFollow, ForgetAll, Link, Relink;
    match command {
      case Linking(edges) => LinkedNodes(db, edges);
      case Relinking(sources, edges) => RelinkedSame(db, sources, edges);
      case Deleting(id, now) =>
        DropFollows(db, [id], now);
        NoneFollows(db.nodes, Drop(db, [id], now).db.nodes, now, n);
      case Forgetting(parts, now) =>
        ForgetAllFollows(db, parts, now);
        NoneFollows(db.nodes, ForgetAll(db, parts, now).value.db.nodes, now, n);
      case ChangingFiles(changes, now) => MarkedAllKeeps(db.nodes[n], changes, now);
      case Expiring(now) =>
      case StoringEmbeddings(batch) => EmbeddingsKeepStatus(db, batch);
    }
  }

  lemma {:induction false} EmbeddingsKeepStatus(db: Db, items: seq<Embedded>)
    ensures var after := SetEmbeddings(db, items).db.nodes;
      after.Keys == db.nodes.Keys && forall n :: n in after ==> after[n].status == db.nodes[n].status
  {
    if items != [] {
      EmbeddingsKeepStatus(db, items[..|items| - 1]);
    }
  }

  // The twin.

  /** What a command does to the freshness of a node that stays current and is not recorded again. */
  function TwinStep(twin: Node, command: Command): Node {
    match command
    case ChangingFiles(changes, now) => MarkedAll(twin, changes, now)
    case Expiring(now) => Aged(twin, now)
    case _ => twin
  }

  /** What `m` would be after the commands from `a` to `b`, had it stayed current: its words and
      sources are those of the version `n`, its freshness follows from the commands. */
  ghost function Twin(dbs: seq<Db>, commands: seq<Command>, n: Id, m: Node, a: nat, b: nat): Node
    requires a <= b <= |commands| < |dbs| && forall i :: a <= i <= b ==> IsVersion(dbs[i].nodes, n)
    decreases b
  {
    if a == b then m
    else
      var before := Twin(dbs, commands, n, m, a, b - 1).(content := dbs[b - 1].nodes[n].content);
      TwinStep(before, commands[b - 1])
  }

  /** Some command from `a` to `b` expires nodes, at a time that is past the node's. */
  predicate ExpiredBetween(commands: seq<Command>, a: nat, b: nat, m: Node)
    requires b <= |commands|
  {
    exists i :: a <= i < b && commands[i].Expiring? && Expired(m, commands[i].now)
  }

  /** No command from `a` to `b` that expires nodes does so for a time later than `now`. */
  predicate ExpiresBy(commands: seq<Command>, a: nat, b: nat, now: int)
    requires b <= |commands|
  {
    forall i :: a <= i < b && commands[i].Expiring? ==> commands[i].now <= now
  }

  /** A change of files makes a current node stale exactly when it outdates it. */
  lemma {:induction false} MarkedAllState(node: Node, changes: seq<FileRef>, now: int)
    requires node.status.state != Superseded
    ensures var marked := MarkedAll(node, changes, now);
      && marked.status.state != Superseded && marked.content == node.content
      && (marked.status.state == Stale <==>
            node.status.state == Stale || exists i :: 0 <= i < |changes| && SeenOtherwise(node, changes[i]))
  {
    hide Outdates, SeenOtherwise;
    if changes != [] {
      var before, last := changes[..|changes| - 1], changes[|changes| - 1];
      MarkedAllState(node, before, now);
      OutdatesIs(MarkedAll(node, before, now), last);
      SeenSame(MarkedAll(node, before, now), node, last);
      SomeBefore(node, changes);
    }
  }

  lemma TwinStepState(twin: Node, command: Command)
    requires twin.status.state != Superseded
    ensures var after := TwinStep(twin, command);
      && after.status.state != Superseded && after.content == twin.content
      && (after.status.state == Stale <==>
            twin.status.state == Stale || OutdatesBy(twin, command) || (command.Expiring? && Expired(twin, command.now)))
  {
    if command.ChangingFiles? {
      hide SeenOtherwise;
      MarkedAllState(twin, command.changes, command.now);
    }
  }

  /** The twin is stale exactly when it was at first, its files changed since, or a command that
      expires nodes found its time over. */
  lemma {:induction false} TwinState(outside: Outside, dbs: seq<Db>, commands: seq<Command>, n: Id, m: Node, a: nat, b: nat)
    requires IsTrace(outside, dbs, commands) && a <= b <= |commands|
    requires forall i :: a <= i <= b ==> IsVersion(dbs[i].nodes, n)
    requires IsVersion(dbs[a].nodes, n)
    requires m.status.state != Superseded && m.content.expires == dbs[a].nodes[n].content.expires
    ensures var twin := Twin(dbs, commands, n, m, a, b);
      && twin.status.state != Superseded && twin.content.expires == m.content.expires
      && (twin.status.state == Stale <==>
            m.status.state == Stale || Outdated(dbs, commands, a, b, n) || ExpiredBetween(commands, a, b, m))
    decreases b
  {
    hide OutdatesBy, TwinStep, ExecsTo, Valid;
    if a < b {
      TwinState(outside, dbs, commands, n, m, a, b - 1);
      VersionAges(outside, dbs, commands, a, b - 1, n);
      var twin := Twin(dbs, commands, n, m, a, b - 1).(content := dbs[b - 1].nodes[n].content);
      TwinStepState(twin, commands[b - 1]);
      SameOutdates(twin, dbs[b - 1].nodes[n], commands[b - 1]);
    }
  }

  lemma SameOutdates(a: Node, b: Node, command: Command)
    requires a.content == b.content
    ensures OutdatesBy(a, command) == OutdatesBy(b, command)
  {
    if command.ChangingFiles? {
      assert forall i :: 0 <= i < |command.changes| ==> SeenOtherwise(a, command.changes[i]) == SeenOtherwise(b, command.changes[i]);
    }
  }

  /** A node that was current as `m`, was a version from then on and is current again is stale
      exactly when `m` was, its files changed since or its time is over by now. Its twin looked at
      by now is no different, unless a command expired the twin alone, for a later time; and the
      twin as it is, unless its time is over by now and none expired it, or the other way round. */
  lemma RevivedAsTwin(outside: Outside, dbs: seq<Db>, commands: seq<Command>, a: nat, b: nat, n: Id, m: Node)
    requires IsTrace(outside, dbs, commands) && a < b < |commands|
    requires !IsVersion(dbs[a].nodes, n) && LastCurrent(outside, dbs[a], commands[a], n, m)
    requires forall i :: a < i <= b ==> IsVersion(dbs[i].nodes, n)
    requires IsCurrent(dbs[b + 1].nodes, n)
    ensures var revived, now := dbs[b + 1].nodes[n], TimeOf(commands[b]);
      (revived.status.state == Stale <==>
         m.status.state == Stale || Outdated(dbs, commands, a + 1, b, n) || Expired(m, now))
    ensures var revived, now := dbs[b + 1].nodes[n], TimeOf(commands[b]);
      var twin := Twin(dbs, commands, n, m, a + 1, b);
      && (revived.status.state == Aged(twin, now).status.state <==>
            || m.status.state == Stale || Outdated(dbs, commands, a + 1, b, n)
            || Expired(m, now) || !ExpiredBetween(commands, a + 1, b, m))
      && (revived.status.state == twin.status.state <==>
            || m.status.state == Stale || Outdated(dbs, commands, a + 1, b, n)
            || (Expired(m, now) <==> ExpiredBetween(commands, a + 1, b, m)))
      && (ExpiresBy(commands, a + 1, b, now) ==> revived.status.state == Aged(twin, now).status.state)
  {
    hide Outdated, Valid, Exec, LastCurrent, SeenOtherwise;
    TraceValid(outside, dbs, commands, a);
    assert ExecsTo(outside, dbs[a], commands[a], dbs[a + 1]);
    BecomesVersion(outside, dbs[a], commands[a], n);
    assert Carries(m, dbs[a + 1].nodes[n]);
    VersionAges(outside, dbs, commands, a + 1, b, n);
    RevivedFreshness(outside, dbs, commands, a + 1, b, n);
    TwinState(outside, dbs, commands, n, m, a + 1, b);
  }
}
