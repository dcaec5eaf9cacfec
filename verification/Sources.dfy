/** The sources of a node: when two recordings are one source, what each of them keeps alive, and
    which one a node shows. */
module Sources {
  import opened Chains
  import opened Wrappers
  import opened Knowledge
  import opened Writes
  import opened Invariants
  import opened Keeping
  import opened Runs

  // One source or two.

  /** No name in it holds the mark names are joined with. */
  predicate Plain(p: Provenance) {
    '|' !in p.session.GetOr("") && '|' !in p.task.GetOr("") && '|' !in p.job.GetOr("")
  }

  /** Same origin, conversation, task and job, where none is as good as an empty one. */
  predicate SameSource(p: Provenance, q: Provenance) {
    && p.origin == q.origin && p.session.GetOr("") == q.session.GetOr("")
    && p.task.GetOr("") == q.task.GetOr("") && p.job.GetOr("") == q.job.GetOr("")
  }

  lemma BarSplits(a: string, x: string, b: string, y: string)
    requires '|' !in a && '|' !in b && a + "|" + x == b + "|" + y
    ensures a == b && x == y
  {
    var s, t := a + "|" + x, b + "|" + y;
    assert s[|a|] == '|' && t[|b|] == '|';
    assert forall i :: 0 <= i < |b| ==> t[i] == b[i] && b[i] in b;
    assert forall i :: 0 <= i < |a| ==> s[i] == a[i] && a[i] in a;
    assert |a| == |b|;
    assert a == s[..|a|] && b == t[..|b|];
    assert x == s[|a| + 1..] && y == t[|b| + 1..];
  }

  lemma OriginsDiffer(a: Origin, b: Origin)
    ensures '|' !in OriginStr(a)
    ensures OriginStr(a) == OriginStr(b) ==> a == b
  {
    assert OriginStr(a)[0] == OriginStr(b)[0] ==> a == b || (a.Orchestrator? && b.Orchestrator?);
  }

  /** Two provenances are stored as one source exactly when origin, conversation, task and job agree. */
  lemma SourceIdIs(p: Provenance, q: Provenance)
    requires Plain(p) && Plain(q)
    ensures SourceId(p) == SourceId(q) <==> SameSource(p, q)
  {
    OriginsDiffer(p.origin, q.origin);
    OriginsDiffer(q.origin, p.origin);
    if SourceId(p) == SourceId(q) {
      var (po, ps, pt, pj) := (OriginStr(p.origin), p.session.GetOr(""), p.task.GetOr(""), p.job.GetOr(""));
      var (qo, qs, qt, qj) := (OriginStr(q.origin), q.session.GetOr(""), q.task.GetOr(""), q.job.GetOr(""));
      hide OriginStr;
      assert SourceId(p) == po + "|" + (ps + "|" + (pt + "|" + pj));
      assert SourceId(q) == qo + "|" + (qs + "|" + (qt + "|" + qj));
      BarSplits(po, ps + "|" + (pt + "|" + pj), qo, qs + "|" + (qt + "|" + qj));
      BarSplits(ps, pt + "|" + pj, qs, qt + "|" + qj);
      BarSplits(pt, pj, qt, qj);
    }
  }

  /** Names that hold the mark can make one source of two: a conversation "a|b" without a task, and a
      conversation "a" with the task "b|". */
  lemma BarsCollide(p: Provenance)
    ensures var one := p.(session := Some("a|b"), task := None, job := None);
      var other := p.(session := Some("a"), task := Some("b|"), job := None);
      SourceId(one) == SourceId(other) && !SameSource(one, other)
  {
    var origin := OriginStr(p.origin);
    assert origin + "|" + "a|b" + "|" + "" + "|" + "" == origin + "|a|b||";
    assert origin + "|" + "a" + "|" + "b|" + "|" + "" == origin + "|a|b||";
  }

  // Two conversations record the same.

  /** A node of one conversation that another one records again in the same words has both as
      sources, and forgetting either of them leaves it with the other. */
  lemma TwoSessions(outside: Outside, db: Db, node: NewNode, embedding: Option<Blob>, now: int, first: string)
    requires Valid(outside, db) && EmbeddingOf(outside, embedding, node.title, node.body)
    requires Existing(outside, db.nodes, node).Some?
    requires var found := db.nodes[Existing(outside, db.nodes, node).value];
      && Confirms(found, node) && first in found.content.sources
      && SourceId(found.content.sources[first].provenance) == first
    requires var earlier := db.nodes[Existing(outside, db.nodes, node).value].content.sources[first].provenance;
      && Plain(earlier) && Plain(node.provenance)
      && earlier.session.Some? && node.provenance.session.Some? && earlier.session != node.provenance.session
    ensures var w := Record(outside, db, node, embedding, now); var id := Existing(outside, db.nodes, node).value;
      var second := SourceId(node.provenance);
      && Valid(outside, w.db) && w.value == id && id in w.db.nodes && first != second
      && KeptWithout(w.db, id, db.nodes[id].content.sources[first].provenance.session.value, second)
      && KeptWithout(w.db, id, node.provenance.session.value, first)
      && w.db.nodes[id].content.sources == db.nodes[id].content.sources[second := Source(node.provenance, FilesOf(node.files))]
  {
    hide Valid, Shaped, FoldKey, Existing, FilesOf;
    var id := Existing(outside, db.nodes, node).value;
    var earlier := db.nodes[id].content.sources[first].provenance;
    SourceIdIs(earlier, node.provenance);
    RecordKeeps(outside, db, node, embedding, now);
    hide SourceId;
    var w := Record(outside, db, node, embedding, now);
    hide Record;
    SurvivesWithout(outside, w.db, id, earlier.session.value, SourceId(node.provenance));
    SurvivesWithout(outside, w.db, id, node.provenance.session.value, first);
  }

  /** However its nodes are listed, forgetting the conversation leaves the node with this source. */
  ghost predicate KeptWithout(db: Db, id: Id, session: string, source: string) {
    && Acyclic(LinksOf(db.nodes))
    && forall order, now :: Enumerates(order, Affected(db.nodes, OfSession(session))) ==>
         KeptAfter(Release(db, OfSession(session), order, now).db.nodes, id, source)
  }

  predicate KeptAfter(nodes: Nodes, id: Id, source: string) {
    id in nodes && source in nodes[id].content.sources
  }

  lemma SurvivesWithout(outside: Outside, db: Db, id: Id, session: string, source: string)
    requires Valid(outside, db) && id in db.nodes && source in db.nodes[id].content.sources
    requires db.nodes[id].content.sources[source].provenance.session != Some(session)
    ensures KeptWithout(db, id, session, source)
  {
    hide UniqueKeys, Reasoned, Supported, Embeds, Joined, Release;
    forall order, now | Enumerates(order, Affected(db.nodes, OfSession(session)))
      ensures KeptAfter(Release(db, OfSession(session), order, now).db.nodes, id, source)
    {
      ForgetExactly(outside, db, OfSession(session), order, now);
    }
  }

  // How sources are selected.

  /** What of a source each kind of forget goes by. */
  lemma SelectsBy(p: Provenance, files: Files, session: string, origin: Origin, task: string)
    ensures Forgotten(map["x" := Source(p, files)], OfSession(session)) == if p.session == Some(session) then map[] else map["x" := Source(p, files)]
    ensures Forgotten(map["x" := Source(p, files)], OfOrigin(origin)) == if p.origin == origin then map[] else map["x" := Source(p, files)]
    ensures Forgotten(map["x" := Source(p, files)], OfTask(task)) == if p.task == Some(task) then map[] else map["x" := Source(p, files)]
  {
  }

  /** None of the node's sources is of the selection. */
  predicate NoneSelected(node: Node, selection: Selection) {
    forall s :: s in node.content.sources ==>
      match selection
      case OfSession(session) => node.content.sources[s].provenance.session != Some(session)
      case OfOrigin(origin) => node.content.sources[s].provenance.origin != origin
      case OfTask(task) => node.content.sources[s].provenance.task != Some(task)
  }

  /** A forget or a refresh leaves the words, sources and times of every node that has no such source, and
      keeps the node. */
  lemma ReleaseSpares(db: Db, selection: Selection, order: seq<Id>, now: int, n: Id)
    requires Shaped(db.nodes) && UniqueKeys(db.nodes) && Reasoned(db.nodes)
    requires forall id :: id in order ==> id in Affected(db.nodes, selection)
    requires n in db.nodes && NoneSelected(db.nodes[n], selection)
    ensures var after := Release(db, selection, order, now).db.nodes; n in after && after[n].content == db.nodes[n].content
  {
    hide UniqueKeys, Reasoned, Drop, Release, Thinned, Shaped, LastSupported, Unsupported;
    assert n !in order by {
      NotAffected(db.nodes, selection, n);
    }
    var doomed, thinned := LastSupported(db.nodes, order, selection), Thinned(db.nodes, order, selection);
    ShapedIsAcyclic(db.nodes);
    ReleaseIsDrop(db, selection, order, now);
    ThinnedUnique(db.nodes, order, selection);
    ThinnedReasoned(db.nodes, order, selection);
    UnsupportedIs(Stripped(db.nodes, ToSet(order), selection), order);
    DropNodes(db.(nodes := thinned), doomed, now);
    ThinnedElsewhere(db.nodes, order, selection, n);
  }

  lemma NotAffected(nodes: Nodes, selection: Selection, n: Id)
    requires n in nodes && NoneSelected(nodes[n], selection)
    ensures n !in Affected(nodes, selection)
  {
  }

  lemma ThinnedElsewhere(nodes: Nodes, order: seq<Id>, selection: Selection, n: Id)
    requires n in nodes && n !in order
    ensures n in Thinned(nodes, order, selection) && Thinned(nodes, order, selection)[n] == nodes[n]
    ensures n !in LastSupported(nodes, order, selection)
  {
    UnsupportedIs(Stripped(nodes, ToSet(order), selection), order);
  }

  /** What a forget lists are the nodes with such a source; what a refresh lists are among them, current and
      not recorded again. */
  lemma ListsAre(nodes: Nodes, selection: Selection, task: string, recorded: set<Id>)
    ensures forall n :: n in Affected(nodes, selection) <==> n in nodes && !NoneSelected(nodes[n], selection)
    ensures forall n :: n in Unrecorded(nodes, task, recorded) <==>
      n in nodes && !NoneSelected(nodes[n], OfTask(task)) && nodes[n].status.state != Superseded && n !in recorded
  {
  }

  // The source a node shows.

  /** In dictionary order: `b` goes on where `a` ends, or has the greater letter where they part. */
  ghost predicate InDictionary(a: string, b: string) {
    exists k: nat :: PartsAt(a, b, k)
  }

  predicate PartsAt(a: string, b: string, k: nat) {
    && k <= |a| && k < |b| && a[..k] == b[..k] && (k == |a| || a[k] < b[k])
  }

  lemma {:induction false} StringBeforeIs(a: string, b: string)
    ensures StringBefore(a, b) <==> InDictionary(a, b)
    decreases |a|
  {
    if a == [] {
      assert b != [] ==> PartsAt(a, b, 0);
    } else if b != [] {
      if a[0] == b[0] {
        StringBeforeIs(a[1..], b[1..]);
        PartsLater(a, b);
      } else {
        assert a[0] < b[0] ==> PartsAt(a, b, 0);
        forall k: nat | PartsAt(a, b, k) ensures k == 0 {
          SameLetter(a, b, k);
        }
      }
    }
  }

  lemma SameLetter(a: string, b: string, k: nat)
    requires PartsAt(a, b, k)
    ensures k > 0 ==> a[0] == b[0]
  {
    if k > 0 {
      assert a[..k][0] == b[..k][0];
    }
  }

  lemma PartsLater(a: string, b: string)
    requires a != [] && b != [] && a[0] == b[0]
    ensures InDictionary(a, b) <==> InDictionary(a[1..], b[1..])
  {
    if k: nat :| PartsAt(a, b, k) {
      assert k > 0;
      assert a[1..][..k - 1] == a[..k][1..] && b[1..][..k - 1] == b[..k][1..];
      assert PartsAt(a[1..], b[1..], k - 1);
    }
    if k: nat :| PartsAt(a[1..], b[1..], k) {
      assert a[..k + 1] == [a[0]] + a[1..][..k] && b[..k + 1] == [b[0]] + b[1..][..k];
      assert PartsAt(a, b, k + 1);
    }
  }

  /** Recorded last; of those recorded then, with the name last in the dictionary. */
  ghost predicate RecordedLast(sources: map<string, Source>, s: string) {
    && s in sources
    && forall t :: t in sources && t != s ==>
         || sources[t].provenance.recorded < sources[s].provenance.recorded
         || (sources[t].provenance.recorded == sources[s].provenance.recorded && InDictionary(t, s))
  }

  lemma ShownIsLast(content: Content)
    requires content.sources != map[]
    ensures exists s :: RecordedLast(content.sources, s) && Showing(content).provenance == content.sources[s].provenance
  {
    SourcesOrdered(content.sources);
    var s := LatestSource(content.sources);
    forall t | t in content.sources && t != s
      ensures || content.sources[t].provenance.recorded < content.sources[s].provenance.recorded
              || (content.sources[t].provenance.recorded == content.sources[s].provenance.recorded && InDictionary(t, s))
    {
      assert NewerSource(content.sources)(s, t);
      StringBeforeIs(t, s);
    }
    assert RecordedLast(content.sources, s);
  }

  /** Whoever a forget or a refresh took sources from shows the last one left. */
  lemma ReleaseShows(db: Db, selection: Selection, order: seq<Id>, now: int, n: Id)
    requires Shaped(db.nodes) && UniqueKeys(db.nodes) && Reasoned(db.nodes) && n in order
    requires n in Release(db, selection, order, now).db.nodes
    ensures var content := Release(db, selection, order, now).db.nodes[n].content;
      exists s :: RecordedLast(content.sources, s) && content.provenance == content.sources[s].provenance
  {
    hide UniqueKeys, Reasoned, Drop, Release, Thinned, Shaped, RecordedLast, LastSupported, Unsupported;
    var doomed, thinned := LastSupported(db.nodes, order, selection), Thinned(db.nodes, order, selection);
    ShapedIsAcyclic(db.nodes);
    ReleaseIsDrop(db, selection, order, now);
    ThinnedUnique(db.nodes, order, selection);
    ThinnedReasoned(db.nodes, order, selection);
    ThinnedSame(db.nodes, order, selection);
    DropNodes(db.(nodes := thinned), doomed, now);
    StrippedShows(db.nodes, order, selection, n);
  }

  lemma StrippedShows(nodes: Nodes, order: seq<Id>, selection: Selection, n: Id)
    requires n in order && n in nodes && n !in LastSupported(nodes, order, selection)
    ensures n in Thinned(nodes, order, selection)
    ensures var content := Thinned(nodes, order, selection)[n].content;
      exists s :: RecordedLast(content.sources, s) && content.provenance == content.sources[s].provenance
  {
    hide RecordedLast, Forgotten, Unsupported;
    UnsupportedIs(Stripped(nodes, ToSet(order), selection), order);
    ShownIsLast(Stripped(nodes, ToSet(order), selection)[n].content);
  }

  // Every source is stored under its own id.

  ghost predicate Filed(nodes: Nodes) {
    forall n, s :: n in nodes && s in nodes[n].content.sources ==> SourceId(nodes[n].content.sources[s].provenance) == s
  }

  /** The same nodes or fewer, with the same sources or fewer. */
  ghost predicate FewerSources(before: Nodes, after: Nodes) {
    && after.Keys <= before.Keys
    && forall n, s :: n in after && s in after[n].content.sources ==>
         s in before[n].content.sources && after[n].content.sources[s] == before[n].content.sources[s]
  }

  lemma FewerFiled(before: Nodes, after: Nodes)
    requires Filed(before) && FewerSources(before, after)
    ensures Filed(after)
  {
    hide SourceId;
  }

  lemma RecordFiled(outside: Outside, db: Db, node: NewNode, embedding: Option<Blob>, now: int)
    requires Filed(db.nodes)
    ensures Filed(Record(outside, db, node, embedding, now).db.nodes)
  {
    hide SourceId, FoldKey, Existing, RewriteReason, FilesOf;
  }

  lemma {:induction false} RecordAllFiled(outside: Outside, db: Db, items: seq<Item>, now: int)
    requires Filed(db.nodes)
    ensures Filed(RecordAll(outside, db, items, now).db.nodes)
    decreases |items|
  {
    hide Record, Filed;
    if items != [] {
      var before, last := items[..|items| - 1], items[|items| - 1];
      RecordAllFiled(outside, db, before, now);
      RecordFiled(outside, RecordAll(outside, db, before, now).db, last.node, last.embedding, now);
    }
  }

  lemma SupersedeFiled(db: Db, earlier: Id, later: Id, reason: string, now: int)
    requires Filed(db.nodes) && earlier in db.nodes
    ensures Filed(SupersedeDb(db, earlier, later, reason, now).nodes)
  {
    hide SourceId;
  }

  lemma {:induction false} FoldAllFiled(db: Db, nodes: Nodes, order: seq<Id>, now: int)
    requires db.nodes.Keys == nodes.Keys && (forall id :: id in order ==> Folds(nodes, id)) && Filed(db.nodes)
    ensures Filed(FoldAll(db, nodes, order, now).db.nodes)
    decreases |order|
  {
    if order != [] {
      hide Folds, SupersedeDb, Filed, KeeperOf;
      FoldAllFiled(db, nodes, order[..|order| - 1], now);
      assert Folds(nodes, order[|order| - 1]) by { assert order[|order| - 1] in order; }
      SupersedeFiled(FoldAll(db, nodes, order[..|order| - 1], now).db, order[|order| - 1],
        KeeperOf(nodes, order[|order| - 1]), FOLD_REASON, now);
    }
  }

  lemma ThinnedFewer(nodes: Nodes, order: seq<Id>, selection: Selection)
    ensures FewerSources(nodes, Thinned(nodes, order, selection))
  {
    ThinnedSame(nodes, order, selection);
    hide Thinned;
  }

  lemma DropFewer(db: Db, doomed: seq<Id>, now: int)
    requires Shaped(db.nodes) && UniqueKeys(db.nodes) && Reasoned(db.nodes) && Acyclic(LinksOf(db.nodes))
    ensures FewerSources(db.nodes, Drop(db, doomed, now).db.nodes)
  {
    hide Drop, Shaped, UniqueKeys, Reasoned, Acyclic;
    DropNodes(db, doomed, now);
  }

  lemma FewerInTurn(a: Nodes, b: Nodes, c: Nodes)
    requires FewerSources(a, b) && FewerSources(b, c)
    ensures FewerSources(a, c)
  {
  }

  lemma ReleaseFewer(db: Db, selection: Selection, order: seq<Id>, now: int)
    requires Shaped(db.nodes) && UniqueKeys(db.nodes) && Reasoned(db.nodes)
    ensures FewerSources(db.nodes, Release(db, selection, order, now).db.nodes)
  {
    hide UniqueKeys, Reasoned, Drop, Release, Thinned, Shaped, LastSupported, FewerSources, Acyclic;
    var thinned := Thinned(db.nodes, order, selection);
    ShapedIsAcyclic(db.nodes);
    ReleaseIsDrop(db, selection, order, now);
    ShapedIsAcyclic(thinned);
    ThinnedUnique(db.nodes, order, selection);
    ThinnedReasoned(db.nodes, order, selection);
    ThinnedFewer(db.nodes, order, selection);
    DropFewer(db.(nodes := thinned), LastSupported(db.nodes, order, selection), now);
    FewerInTurn(db.nodes, thinned, Release(db, selection, order, now).db.nodes);
  }

  lemma {:induction false} ForgetAllFiled(db: Db, parts: seq<Part>, now: int)
    requires Shaped(db.nodes) && UniqueKeys(db.nodes) && Reasoned(db.nodes) && Filed(db.nodes)
    requires ForgetAll(db, parts, now).Ok?
    ensures Filed(ForgetAll(db, parts, now).value.db.nodes)
    decreases |parts|
  {
    hide Shaped, UniqueKeys, Reasoned, Release, Filed, Acyclic, Enumerates, Affected, FewerSources;
    if parts != [] {
      hide ForgetAll;
      ForgetLast(db, parts, now);
      ForgetAllFiled(db, parts[..|parts| - 1], now);
      var middle, part := ForgetAll(db, parts[..|parts| - 1], now).value.db, parts[|parts| - 1];
      ReleaseFewer(middle, part.selection, part.order, now);
      FewerFiled(middle.nodes, Release(middle, part.selection, part.order, now).db.nodes);
    }
  }

  lemma ReplaceFiled(outside: Outside, db: Db, node: NewNode, embedding: Option<Blob>, earlier: Endpoint, reason: string, now: int)
    requires Valid(outside, db) && EmbeddingOf(outside, embedding, node.title, node.body) && Filed(db.nodes)
    requires Replace(outside, db, node, embedding, earlier, reason, now).Ok?
    ensures Filed(Replace(outside, db, node, embedding, earlier, reason, now).value.db.nodes)
  {
    hide Valid, Record, SupersedeDb, Filed;
    var w := Record(outside, db, node, embedding, now);
    RecordFiled(outside, db, node, embedding, now);
    RecordKeeps(outside, db, node, embedding, now);
    if Resolve(w.db.nodes, earlier) != Ok(w.value) {
      SupersedeFiled(w.db, Resolve(w.db.nodes, earlier).value, w.value, reason, now);
    }
  }

  lemma RefreshFiled(outside: Outside, db: Db, task: string, items: seq<Item>, joins: seq<Id> -> seq<NewEdge>,
                     order: seq<Id>, now: int)
    requires Valid(outside, db) && HonestItems(outside, items) && Filed(db.nodes)
    requires Refresh(outside, db, task, items, joins, order, now).Ok?
    ensures Filed(Refresh(outside, db, task, items, joins, order, now).value.db.nodes)
  {
    hide Valid, RecordAll, Release, Link, Filed, FewerSources;
    var recorded := RecordAll(outside, db, items, now);
    RecordAllFiled(outside, db, items, now);
    RecordAllKeeps(outside, db, items, now);
    LinkedNodes(recorded.db, joins(recorded.value));
    LinkKeeps(outside, recorded.db, joins(recorded.value));
    var linked := Link(recorded.db, joins(recorded.value)).value;
    ValidIsShaped(outside, linked);
    hide Shaped, UniqueKeys, Reasoned, Acyclic;
    ReleaseFewer(linked, OfTask(task), order, now);
    FewerFiled(linked.nodes, Release(linked, OfTask(task), order, now).db.nodes);
  }

  lemma {:induction false} EmbeddingsFiled(db: Db, items: seq<Embedded>)
    requires Filed(db.nodes)
    ensures Filed(SetEmbeddings(db, items).db.nodes)
  {
    hide SourceId;
    if items != [] {
      EmbeddingsFiled(db, items[..|items| - 1]);
    }
  }

  lemma DeleteFewer(db: Db, id: Id, now: int)
    requires Shaped(db.nodes) && UniqueKeys(db.nodes) && Reasoned(db.nodes) && Acyclic(LinksOf(db.nodes)) && Delete(db, id, now).Ok?
    ensures FewerSources(db.nodes, Delete(db, id, now).value.db.nodes)
  {
    hide Drop, Shaped, UniqueKeys, Reasoned, Acyclic, FewerSources;
    DropFewer(db, [id], now);
  }

  lemma FilesChangedFewer(nodes: Nodes, changes: seq<FileRef>, now: int)
    ensures FewerSources(nodes, FilesChanged(nodes, changes, now))
  {
    hide MarkedAll;
    forall n | n in nodes ensures Aging(nodes[n], MarkedAll(nodes[n], changes, now)) {
      MarkedAllKeeps(nodes[n], changes, now);
    }
  }

  /** Whatever a command does, sources stay under their ids. */
  lemma AttemptFiled(outside: Outside, db: Db, command: Command)
    requires Valid(outside, db) && Honest(outside, command) && Filed(db.nodes) && Attempt(outside, db, command).Ok?
    ensures Filed(Attempt(outside, db, command).value.db.nodes)
  {
    ValidIsShaped(outside, db);
    hide Valid, Shaped, UniqueKeys, Reasoned, Acyclic, Filed, FewerSources, Record, Replace, Refresh, ForgetAll, Delete, SupersedeDb;
    hide Link, Relink, FilesChanged, SetEmbeddings, SettleRules, Supersede, Expire, Settles;
    var after := Attempt(outside, db, command).value.db.nodes;
    match command {
      case Recording(node, embedding, now) => RecordFiled(outside, db, node, embedding, now);
      case Replacing(node, embedding, earlier, reason, now) =>
        ReplaceFiled(outside, db, node, embedding, earlier, reason, now);
      case Linking(edges) => LinkedNodes(db, edges);
      case Relinking(sources, edges) => RelinkedSame(db, sources, edges);
      case Superseding(earlier, later, reason, now) => SupersedeCommandFiled(db, earlier, later, reason, now);
      case Deleting(id, now) =>
        DeleteFewer(db, id, now);
        FewerFiled(db.nodes, after);
      case Forgetting(parts, now) => ForgetAllFiled(db, parts, now);
      case Refreshing(task, items, joins, order, now) => RefreshFiled(outside, db, task, items, joins, order, now);
      case ChangingFiles(changes, now) =>
        FilesChangedFewer(db.nodes, changes, now);
        FewerFiled(db.nodes, after);
      case Expiring(now) => ExpireFiled(db.nodes, now);
      case StoringEmbeddings(batch) => EmbeddingsFiled(db, batch);
      case SettlingRules(order, now) => SettleRulesFiled(outside, db, order, now);
    }
  }

  lemma SupersedeCommandFiled(db: Db, earlier: Endpoint, later: Endpoint, reason: string, now: int)
    requires Acyclic(LinksOf(db.nodes)) && Supersede(db, earlier, later, reason, now).Ok? && Filed(db.nodes)
    ensures Filed(Supersede(db, earlier, later, reason, now).value.db.nodes)
  {
    hide SupersedeDb, Filed, Acyclic;
    SupersedeFiled(db, Resolve(db.nodes, earlier).value, Resolve(db.nodes, later).value, reason, now);
  }

  lemma ExpireFiled(nodes: Nodes, now: int)
    requires Filed(nodes)
    ensures Filed(Expire(nodes, now))
  {
    hide SourceId;
  }

  lemma SettleRulesFiled(outside: Outside, db: Db, order: seq<Id>, now: int)
    requires Filed(db.nodes) && forall id :: id in order ==> Folds(Rekeyed(outside, db.nodes), id)
    ensures Filed(SettleRules(outside, db, order, now).db.nodes)
  {
    var nodes := Rekeyed(outside, db.nodes);
    assert Filed(nodes) by {
      hide SourceId;
    }
    hide Rekeyed, Filed, Folds;
    FoldAllFiled(db.(nodes := nodes), nodes, order, now);
  }

  /** At every state of a run every source is stored under its own id. */
  lemma {:induction false} TraceFiled(outside: Outside, dbs: seq<Db>, commands: seq<Command>, i: nat)
    requires IsTrace(outside, dbs, commands) && i < |dbs| && Filed(dbs[0].nodes)
    ensures Filed(dbs[i].nodes)
  {
    hide Valid, Honest, Attempt, Filed;
    if i > 0 {
      TraceFiled(outside, dbs, commands, i - 1);
      TraceValid(outside, dbs, commands, i - 1);
      assert ExecsTo(outside, dbs[i - 1], commands[i - 1], dbs[i]);
      if Attempt(outside, dbs[i - 1], commands[i - 1]).Ok? {
        AttemptFiled(outside, dbs[i - 1], commands[i - 1]);
      }
    }
  }
}
