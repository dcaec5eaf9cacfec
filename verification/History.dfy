/** Without explicit replacements, a keyed rule's versions are a list: new text is pushed, the same
    text again only adds its source, and what deleting and forgetting leave is the list without the
    versions that go, the newest of the rest current. */
module History {
  import opened Chains
  import opened Wrappers
  import opened Knowledge
  import opened Writes
  import opened Invariants
  import opened Keeping
  import opened Runs
  import opened Forgets
  import opened Lines

  datatype Version = Version(id: Id, title: string, body: string, sources: map<string, Source>)

  /** Newest first. */
  type Story = seq<Version>

  function Ids(story: Story): (ids: seq<Id>)
    ensures |ids| == |story| && forall i :: 0 <= i < |ids| ==> ids[i] == story[i].id
  {
    seq(|story|, i requires 0 <= i < |story| => story[i].id)
  }

  predicate Says(nodes: Nodes, v: Version) {
    && v.id in nodes
    && nodes[v.id].content.title == v.title && nodes[v.id].content.body == v.body
    && nodes[v.id].content.sources == v.sources
  }

  ghost predicate SaysAll(nodes: Nodes, story: Story) {
    forall i :: 0 <= i < |story| ==> Says(nodes, story[i])
  }

  /** `story` is the topic's history: its head is the one current node on the topic, each later
      version hangs off the one before, and the words and sources are the nodes'. */
  ghost predicate Tells(nodes: Nodes, topic: Topic, story: Story) {
    IsLine(nodes, topic, Ids(story)) && SaysAll(nodes, story)
  }

  // What each command does to a story.

  function OneSource(node: NewNode): map<string, Source> {
    map[SourceId(node.provenance) := SourceOf(node)]
  }

  function Renewed(story: Story, node: NewNode): Story
    requires story != []
  {
    [story[0].(sources := story[0].sources + OneSource(node))] + story[1..]
  }

  /** `found` is the node the recording updates, `next` the id a new node gets. */
  function Recorded(story: Story, topic: Topic, node: NewNode, found: Option<Id>, next: Id): Story {
    if node.kind == topic.kind && node.key == Some(topic.key) then
      if story == [] then [Version(next, node.title, node.body, OneSource(node))]
      else if story[0].title == node.title && story[0].body == node.body then Renewed(story, node)
      else
        [Version(story[0].id, node.title, node.body, OneSource(node))]
        + (if KeepsHistory(node.kind) then [story[0].(id := next)] else [])
        + story[1..]
    else if node.key.None? && story != [] && found == Some(story[0].id) then Renewed(story, node)
    else story
  }

  ghost function RecordedAll(outside: Outside, db: Db, story: Story, topic: Topic, items: seq<Item>, now: int): Story
    decreases |items|
  {
    if items == [] then story
    else
      var before, last := items[..|items| - 1], items[|items| - 1];
      var db' := RecordAll(outside, db, before, now).db;
      Recorded(RecordedAll(outside, db, story, topic, before, now), topic, last.node, Existing(outside, db'.nodes, last.node), db'.next)
  }

  /** The versions outside `gone`, in order. */
  function Pruned(story: Story, gone: set<Id>): Story {
    if story == [] then []
    else
      var last := story[|story| - 1];
      Pruned(story[..|story| - 1], gone) + (if last.id in gone then [] else [last])
  }

  /** Each version without its sources of `parts`, but for those no other source supports. */
  function Surviving(story: Story, parts: seq<Part>): Story {
    if story == [] then []
    else
      var last := story[|story| - 1];
      var rest := Remaining(last.sources, parts);
      Surviving(story[..|story| - 1], parts) + (if rest == map[] then [] else [last.(sources := rest)])
  }

  /** A task's sources go from a head it did not record again. */
  function Refreshed(story: Story, task: string, recorded: set<Id>): Story {
    if story == [] || story[0].id in recorded then story
    else
      var rest := Forgotten(story[0].sources, OfTask(task));
      (if rest == map[] then [] else [story[0].(sources := rest)]) + story[1..]
  }

  ghost function Step(outside: Outside, db: Db, story: Story, topic: Topic, command: Command): Story
    requires Valid(outside, db) && Honest(outside, command)
  {
    if Attempt(outside, db, command).Err? then story
    else match command
      case Recording(node, _, _) => Recorded(story, topic, node, Existing(outside, db.nodes, node), db.next)
      case Deleting(id, _) => Pruned(story, {id})
      case Forgetting(parts, _) => Surviving(story, parts)
      case Refreshing(task, items, _, _, now) =>
        Refreshed(RecordedAll(outside, db, story, topic, items, now), task, ToSet(RecordAll(outside, db, items, now).value))
      case _ => story
  }

  /** No explicit replacement: neither a command that names one nor a folding of old rules. */
  predicate IsPlain(command: Command) {
    match command
    case Superseding(_, _, _, _) => false
    case Replacing(_, _, _, _, _) => false
    case SettlingRules(order, _) => order == []
    case _ => true
  }

  // Recording.

  lemma HeadFound(outside: Outside, nodes: Nodes, topic: Topic, ids: seq<Id>, node: NewNode)
    requires IsLine(nodes, topic, ids) && node.kind == topic.kind && node.key == Some(topic.key)
    ensures Existing(outside, nodes, node) == if ids == [] then None else Some(ids[0])
  {
    OnlyHeadCurrent(nodes, topic, ids);
    var holders := Holders(nodes, topic.kind, topic.key);
    assert forall n :: n in holders <==> IsCurrent(nodes, n) && OnTopic(nodes[n], topic);
    hide Linked, Closed;
    if ids != [] {
      assert ids[0] in ids;
      assert holders == {ids[0]};
    }
  }

  lemma OtherFound(outside: Outside, nodes: Nodes, topic: Topic, ids: seq<Id>, node: NewNode)
    requires IsLine(nodes, topic, ids) && Existing(outside, nodes, node).Some?
    requires !(node.kind == topic.kind && node.key == Some(topic.key))
    ensures var id := Existing(outside, nodes, node).value;
      && IsCurrent(nodes, id)
      && (id in ids ==> node.key.None? && id == ids[0])
      && (node.key.Some? ==> nodes[id].kind == node.kind && nodes[id].key == node.key)
  {
    OnlyHeadCurrent(nodes, topic, ids);
  }

  lemma InsertTells(nodes: Nodes, topic: Topic, story: Story, id: Id, node: Node)
    requires Shaped(nodes) && Tells(nodes, topic, story) && id !in nodes
    requires node.status.state != Superseded && node.status.supersededBy.None?
    requires OnTopic(node, topic) ==> story == []
    ensures Tells(nodes[id := node], topic,
      if OnTopic(node, topic) then [Version(id, node.content.title, node.content.body, node.content.sources)] else story)
  {
    InsertedLine(nodes, topic, Ids(story), id, node);
    hide IsLine, Shaped;
    assert OnTopic(node, topic) ==> Ids([Version(id, node.content.title, node.content.body, node.content.sources)]) == [id];
  }

  /** Other words and sources for a current node on or off the line. */
  lemma ReplaceTells(nodes: Nodes, topic: Topic, story: Story, id: Id, node: Node)
    requires Tells(nodes, topic, story) && id in nodes
    requires SameLink(nodes[id], node) && node.kind == nodes[id].kind && node.key == nodes[id].key
    requires id in Ids(story) ==> story != [] && id == story[0].id
    ensures Tells(nodes[id := node], topic,
      if story != [] && id == story[0].id then
        [Version(id, node.content.title, node.content.body, node.content.sources)] + story[1..]
      else story)
  {
    TouchedLine(nodes, nodes[id := node], topic, Ids(story));
    if story != [] && id == story[0].id {
      var other := [Version(id, node.content.title, node.content.body, node.content.sources)] + story[1..];
      assert Ids(other) == Ids(story);
      assert forall i :: 0 < i < |story| ==> story[i].id == Ids(story)[i] != Ids(story)[0];
    } else {
      assert forall i :: 0 <= i < |story| ==> story[i].id == Ids(story)[i] && story[i].id != id;
    }
  }

  /** A rewrite that keeps history pushes onto the story it is the head of. */
  lemma PushHead(db: Db, topic: Topic, story: Story, node: Node, reason: string, now: int)
    requires Shaped(db.nodes) && db.next !in db.nodes && Tells(db.nodes, topic, story) && story != []
    requires story[0].id in db.nodes && SameLink(db.nodes[story[0].id], node)
    requires node.kind == db.nodes[story[0].id].kind && node.key == db.nodes[story[0].id].key
    requires db.nodes[story[0].id].status.supersededBy.None?
    ensures Tells(Archive(db, story[0].id, reason, now).db.nodes[story[0].id := node], topic,
      [Version(story[0].id, node.content.title, node.content.body, node.content.sources), story[0].(id := db.next)] + story[1..])
  {
    hide Shaped, IsLine;
    var id, ids := story[0].id, Ids(story);
    LineStored(db.nodes, topic, story);
    ArchiveLine(db.nodes, topic, ids, db.next, reason, now);
    var archived := ArchiveNodes(db.nodes, id, db.next, reason, now);
    assert archived[id] == db.nodes[id];
    TouchedLine(archived, archived[id := node], topic, [id, db.next] + ids[1..]);
    var longer := [Version(id, node.content.title, node.content.body, node.content.sources), story[0].(id := db.next)] + story[1..];
    assert Ids(longer) == [id, db.next] + ids[1..];
    LineDistinct(db.nodes, topic, ids);
    forall i | 0 <= i < |longer| ensures Says(archived[id := node], longer[i]) {
      if i >= 2 {
        assert longer[i] == story[i - 1];
        assert story[i - 1].id == ids[i - 1] != ids[0];
        assert ids[i - 1] in ids;
      }
    }
  }

  lemma LineDistinct(nodes: Nodes, topic: Topic, ids: seq<Id>)
    requires IsLine(nodes, topic, ids)
    ensures Distinct(ids) && forall id :: id in ids ==> id in nodes
  {
  }

  lemma PushElsewhere(db: Db, topic: Topic, story: Story, id: Id, node: Node, reason: string, now: int)
    requires db.next !in db.nodes && Tells(db.nodes, topic, story) && id in db.nodes && id !in Ids(story)
    requires SameLink(db.nodes[id], node) && node.kind == db.nodes[id].kind && node.key == db.nodes[id].key
    requires db.nodes[id].status.supersededBy.None?
    ensures Tells(Archive(db, id, reason, now).db.nodes[id := node], topic, story)
  {
    hide Linked, Closed;
    var ids := Ids(story);
    ArchiveElsewhere(db.nodes, topic, ids, id, db.next, reason, now);
    var archived := ArchiveNodes(db.nodes, id, db.next, reason, now);
    LineStored(db.nodes, topic, story);
    hide IsLine;
    TouchedLine(archived, archived[id := node], topic, ids);
    assert forall i :: 0 <= i < |story| ==> story[i].id == ids[i] && ids[i] in ids;
  }

  lemma RewrittenSame(nodes: Nodes, id: Id, node: NewNode, fold: Option<string>, embedding: Option<Blob>, now: int)
    requires Shaped(nodes) && IsCurrent(nodes, id)
    ensures nodes[id].status.supersededBy.None? && SameLink(nodes[id], Rewritten(nodes[id], node, fold, embedding, now))
  {
  }

  lemma RewriteTells(outside: Outside, db: Db, topic: Topic, story: Story, id: Id, node: NewNode, embedding: Option<Blob>, now: int)
    requires Valid(outside, db) && Tells(db.nodes, topic, story) && IsCurrent(db.nodes, id)
    requires id in Ids(story) ==> story != [] && id == story[0].id
    ensures Tells(Rewrite(outside, db, id, node, embedding, now).db.nodes, topic,
      if story != [] && id == story[0].id then
        [Version(id, node.title, node.body, OneSource(node))] + (if KeepsHistory(node.kind) then [story[0].(id := db.next)] else []) + story[1..]
      else story)
  {
    hide Valid, Shaped, Tells, FoldKey, RewriteReason, SameLink, Archive, UniqueKeys, Reasoned;
    var fold := FoldKey(outside, node.kind, node.provenance.session, node.title, node.body);
    var rewritten := Rewritten(db.nodes[id], node, fold, embedding, now);
    ValidIsShaped(outside, db);
    RewrittenSame(db.nodes, id, node, fold, embedding, now);
    var head := Version(id, node.title, node.body, OneSource(node));
    if KeepsHistory(node.kind) {
      if story != [] && id == story[0].id {
        PushHead(db, topic, story, rewritten, RewriteReason(db.nodes[id], node), now);
        assert [head] + [story[0].(id := db.next)] == [head, story[0].(id := db.next)];
      } else {
        PushElsewhere(db, topic, story, id, rewritten, RewriteReason(db.nodes[id], node), now);
      }
    } else {
      ReplaceTells(db.nodes, topic, story, id, rewritten);
      assert [head] + [] == [head];
    }
  }

  lemma LineStored(nodes: Nodes, topic: Topic, story: Story)
    requires Tells(nodes, topic, story)
    ensures forall id :: id in Ids(story) ==> id in nodes
  {
  }

  lemma RecordTells(outside: Outside, db: Db, topic: Topic, story: Story, node: NewNode, embedding: Option<Blob>, now: int)
    requires Valid(outside, db) && Tells(db.nodes, topic, story)
    ensures Tells(Record(outside, db, node, embedding, now).db.nodes, topic,
      Recorded(story, topic, node, Existing(outside, db.nodes, node), db.next))
  {
    hide Existing, Valid, Tells, Shaped, UniqueKeys, Reasoned, Acyclic, FoldKey, Rewrite, Confirm;
    ValidIsShaped(outside, db);
    FoundOnStory(outside, db.nodes, topic, story, node);
    match Existing(outside, db.nodes, node)
    case None =>
      InsertTells(db.nodes, topic, story, db.next, Insert(outside, db, node, embedding, now).db.nodes[db.next]);
    case Some(id) =>
      if Confirms(db.nodes[id], node) {
        SameVersion(db.nodes, topic, story, id, node);
        ConfirmTells(outside, db, topic, story, id, node, embedding, now);
      } else {
        SameVersion(db.nodes, topic, story, id, node);
        RewriteTells(outside, db, topic, story, id, node, embedding, now);
      }
  }

  /** The node a recording updates is the topic's head exactly when it is recorded on the topic, or
      folded into it; it is no earlier version. */
  lemma FoundOnStory(outside: Outside, nodes: Nodes, topic: Topic, story: Story, node: NewNode)
    requires Tells(nodes, topic, story)
    ensures var found := Existing(outside, nodes, node);
      && (node.kind == topic.kind && node.key == Some(topic.key) ==> found == if story == [] then None else Some(story[0].id))
      && (found.Some? ==> IsCurrent(nodes, found.value))
      && (found.Some? && found.value in Ids(story) ==> story != [] && found.value == story[0].id)
      && (found.Some? && !(node.kind == topic.kind && node.key == Some(topic.key)) && found.value in Ids(story) ==> node.key.None?)
  {
    hide Existing, IsLine, SaysAll;
    var ids := Ids(story);
    if node.kind == topic.kind && node.key == Some(topic.key) {
      HeadFound(outside, nodes, topic, ids, node);
    } else if Existing(outside, nodes, node).Some? {
      OtherFound(outside, nodes, topic, ids, node);
    }
    ExistingIsCurrent(outside, nodes, node);
  }

  lemma ExistingIsCurrent(outside: Outside, nodes: Nodes, node: NewNode)
    ensures Existing(outside, nodes, node).Some? ==> IsCurrent(nodes, Existing(outside, nodes, node).value)
  {
  }

  /** The head says what its node says. */
  lemma SameVersion(nodes: Nodes, topic: Topic, story: Story, id: Id, node: NewNode)
    requires Tells(nodes, topic, story) && id in nodes
    ensures story != [] ==> story[0].id in Ids(story)
    ensures story != [] && id == story[0].id ==>
      (Confirms(nodes[id], node) <==> node.key.None? || (story[0].title == node.title && story[0].body == node.body))
  {
    hide IsLine;
    if story != [] {
      assert Ids(story)[0] in Ids(story) && Says(nodes, story[0]);
    }
  }

  lemma HeadSays(nodes: Nodes, topic: Topic, story: Story)
    requires Tells(nodes, topic, story)
    ensures story != [] ==> Says(nodes, story[0])
  {
    hide IsLine;
  }

  lemma ConfirmTells(outside: Outside, db: Db, topic: Topic, story: Story, id: Id, node: NewNode, embedding: Option<Blob>, now: int)
    requires Tells(db.nodes, topic, story) && IsCurrent(db.nodes, id)
    requires id in Ids(story) ==> story != [] && id == story[0].id
    ensures Tells(Confirm(db, id, node, embedding, now).db.nodes, topic,
      if story != [] && id == story[0].id then Renewed(story, node) else story)
  {
    hide Tells;
    var confirmed := Confirm(db, id, node, embedding, now).db.nodes[id];
    HeadSays(db.nodes, topic, story);
    ReplaceTells(db.nodes, topic, story, id, confirmed);
    if story != [] && id == story[0].id {
      assert confirmed.content.sources == story[0].sources + OneSource(node);
    }
  }

  lemma {:induction false} RecordAllTells(outside: Outside, db: Db, topic: Topic, story: Story, items: seq<Item>, now: int)
    requires Valid(outside, db) && HonestItems(outside, items) && Tells(db.nodes, topic, story)
    ensures Tells(RecordAll(outside, db, items, now).db.nodes, topic, RecordedAll(outside, db, story, topic, items, now))
    decreases |items|
  {
    hide Valid, Tells, Record, Recorded;
    if items != [] {
      var before, last := items[..|items| - 1], items[|items| - 1];
      RecordAllTells(outside, db, topic, story, before, now);
      RecordAllKeeps(outside, db, before, now);
      RecordTells(outside, RecordAll(outside, db, before, now).db, topic, RecordedAll(outside, db, story, topic, before, now),
        last.node, last.embedding, now);
    }
  }

  // Deleting and forgetting.

  lemma {:induction false} PrunedIs(story: Story, gone: set<Id>)
    ensures Ids(Pruned(story, gone)) == Left(Ids(story), gone)
    ensures forall v :: v in Pruned(story, gone) <==> v in story && v.id !in gone
  {
    if story != [] {
      var before, last := story[..|story| - 1], story[|story| - 1];
      PrunedIs(before, gone);
      assert story == before + [last];
      assert Ids(before) == Ids(story)[..|story| - 1];
      hide Ids;
      IdsJoin(Pruned(before, gone), if last.id in gone then [] else [last]);
    }
  }

  lemma IdsJoin(a: Story, b: Story)
    ensures Ids(a + b) == Ids(a) + Ids(b)
  {
  }

  lemma DropTells(db: Db, topic: Topic, story: Story, doomed: seq<Id>, now: int)
    requires Shaped(db.nodes) && UniqueKeys(db.nodes) && Reasoned(db.nodes) && Tells(db.nodes, topic, story)
    ensures Tells(Drop(db, doomed, now).db.nodes, topic, Pruned(story, ToSet(doomed)))
  {
    hide IsLine, UniqueKeys, Reasoned, Drop;
    ShapedIsAcyclic(db.nodes);
    DropNodes(db, doomed, now);
    DropLine(db, topic, Ids(story), doomed, now);
    hide Shaped;
    PrunedIs(story, ToSet(doomed));
    var left := Pruned(story, ToSet(doomed));
    forall i | 0 <= i < |left| ensures Says(Drop(db, doomed, now).db.nodes, left[i]) {
      assert left[i] in left;
    }
  }

  lemma {:induction false} LeftSame(ids: seq<Id>, a: set<Id>, b: set<Id>)
    requires forall n :: n in ids ==> (n in a <==> n in b)
    ensures Left(ids, a) == Left(ids, b)
  {
    if ids != [] {
      LeftSame(ids[..|ids| - 1], a, b);
    }
  }

  lemma {:induction false} LeftTwice(ids: seq<Id>, a: set<Id>, b: set<Id>)
    ensures Left(Left(ids, a), b) == Left(ids, a + b)
  {
    if ids != [] {
      var before, last := ids[..|ids| - 1], ids[|ids| - 1];
      LeftTwice(before, a, b);
      if last !in a {
        assert Left(ids, a)[..|Left(ids, a)| - 1] == Left(before, a);
        assert Left(ids, a)[|Left(ids, a)| - 1] == last;
      } else {
        assert Left(ids, a) == Left(before, a);
      }
    }
  }

  /** What taking sources of `selection` from `order` leaves of a line. */
  ghost predicate Releases(before: Nodes, after: Nodes, topic: Topic, ids: seq<Id>, selection: Selection, order: seq<Id>) {
    && IsLine(after, topic, Left(ids, before.Keys - after.Keys))
    && (forall n :: n in after <==> n in before && (n in order ==> Forgotten(before[n].content.sources, selection) != map[]))
    && forall n :: n in after ==>
      && SameWords(before[n], after[n])
      && after[n].content.sources == if n in order then Forgotten(before[n].content.sources, selection) else before[n].content.sources
  }

  predicate SameWords(a: Node, b: Node) {
    a.content.title == b.content.title && a.content.body == b.content.body
  }

  lemma ReleaseLine(db: Db, topic: Topic, ids: seq<Id>, selection: Selection, order: seq<Id>, now: int)
    requires Shaped(db.nodes) && UniqueKeys(db.nodes) && Reasoned(db.nodes) && IsLine(db.nodes, topic, ids)
    requires ToSet(order) <= db.nodes.Keys
    ensures Releases(db.nodes, Release(db, selection, order, now).db.nodes, topic, ids, selection, order)
  {
    hide UniqueKeys, Reasoned, LastSupported, Release, IsLine, Left;
    ReleaseNodes(db, selection, order, now);
    ReleaseInLine(db, topic, ids, selection, order, now);
    LineDistinct(db.nodes, topic, ids);
    hide Shaped;
    LeftSame(ids, ToSet(LastSupported(db.nodes, order, selection)),
      db.nodes.Keys - Release(db, selection, order, now).db.nodes.Keys);
  }

  lemma ReleaseInLine(db: Db, topic: Topic, ids: seq<Id>, selection: Selection, order: seq<Id>, now: int)
    requires Shaped(db.nodes) && IsLine(db.nodes, topic, ids)
    ensures IsLine(Release(db, selection, order, now).db.nodes, topic, Left(ids, ToSet(LastSupported(db.nodes, order, selection))))
  {
    hide Drop, Release, Thinned, Left, LastSupported, IsLine, Shaped;
    var doomed, thinned := LastSupported(db.nodes, order, selection), Thinned(db.nodes, order, selection);
    ShapedIsAcyclic(db.nodes);
    ReleaseIsDrop(db, selection, order, now);
    ThinnedSame(db.nodes, order, selection);
    TouchedLine(db.nodes, thinned, topic, ids);
    DropLine(db.(nodes := thinned), topic, ids, doomed, now);
  }

  lemma ReleaseNodes(db: Db, selection: Selection, order: seq<Id>, now: int)
    requires Shaped(db.nodes) && UniqueKeys(db.nodes) && Reasoned(db.nodes)
    requires ToSet(order) <= db.nodes.Keys
    ensures var after, doomed := Release(db, selection, order, now).db.nodes, LastSupported(db.nodes, order, selection);
      && after.Keys == db.nodes.Keys - ToSet(doomed)
      && (forall n :: n in doomed <==> n in order && Forgotten(db.nodes[n].content.sources, selection) == map[])
      && forall n :: n in after ==>
        && SameWords(db.nodes[n], after[n])
        && after[n].content.sources ==
           if n in order then Forgotten(db.nodes[n].content.sources, selection) else db.nodes[n].content.sources
  {
    hide UniqueKeys, Reasoned, Drop, Release, Thinned, Shaped;
    var doomed, thinned := LastSupported(db.nodes, order, selection), Thinned(db.nodes, order, selection);
    ShapedIsAcyclic(db.nodes);
    ReleaseIsDrop(db, selection, order, now);
    ThinnedUnique(db.nodes, order, selection);
    ThinnedReasoned(db.nodes, order, selection);
    DropNodes(db.(nodes := thinned), doomed, now);
    ThinnedLeaves(db.nodes, order, selection);
  }

  lemma ThinnedLeaves(nodes: Nodes, order: seq<Id>, selection: Selection)
    requires ToSet(order) <= nodes.Keys
    ensures var thinned := Thinned(nodes, order, selection);
      && thinned.Keys == nodes.Keys
      && forall n :: n in nodes ==>
        && SameWords(nodes[n], thinned[n])
        && thinned[n].content.sources ==
           if n in order then Forgotten(nodes[n].content.sources, selection) else nodes[n].content.sources
    ensures forall n :: n in LastSupported(nodes, order, selection) <==>
      n in order && Forgotten(nodes[n].content.sources, selection) == map[]
  {
    hide Thinned, Forgotten;
    ThinnedSame(nodes, order, selection);
    ThinnedWords(nodes, order, selection);
    UnsupportedIs(Stripped(nodes, ToSet(order), selection), order);
  }

  lemma ThinnedWords(nodes: Nodes, affected: seq<Id>, selection: Selection)
    ensures var thinned := Thinned(nodes, affected, selection);
      && thinned.Keys == nodes.Keys && forall n :: n in nodes ==> SameWords(nodes[n], thinned[n])
  {
  }

  /** What several forgets leave of a line. */
  ghost predicate LineLeft(before: Nodes, after: Nodes, topic: Topic, ids: seq<Id>) {
    && after.Keys <= before.Keys
    && IsLine(after, topic, Left(ids, before.Keys - after.Keys))
    && forall n :: n in after ==> SameWords(before[n], after[n])
  }

  lemma {:induction false} ForgetAllLine(outside: Outside, db: Db, topic: Topic, ids: seq<Id>, parts: seq<Part>, now: int)
    requires Valid(outside, db) && IsLine(db.nodes, topic, ids) && ForgetAll(db, parts, now).Ok?
    ensures LineLeft(db.nodes, ForgetAll(db, parts, now).value.db.nodes, topic, ids)
    decreases |parts|
  {
    ValidIsShaped(outside, db);
    hide Valid, IsLine, Release, Left, LineLeft, Shaped, UniqueKeys, Reasoned, Enumerates;
    if parts == [] {
      NothingLeft(db.nodes, topic, ids);
    } else {
      var before, part := parts[..|parts| - 1], parts[|parts| - 1];
      ForgetAllLine(outside, db, topic, ids, before, now);
      ForgetAllKeeps(outside, db, before, now);
      ForgetOneMore(outside, db.nodes, ForgetAll(db, before, now).value.db, topic, ids, part, now);
    }
  }

  lemma NothingLeft(nodes: Nodes, topic: Topic, ids: seq<Id>)
    requires IsLine(nodes, topic, ids)
    ensures LineLeft(nodes, nodes, topic, ids)
  {
    hide IsLine;
    assert nodes.Keys - nodes.Keys == {};
    LeftNone(ids);
  }

  lemma ForgetOneMore(outside: Outside, nodes: Nodes, middle: Db, topic: Topic, ids: seq<Id>, part: Part, now: int)
    requires LineLeft(nodes, middle.nodes, topic, ids) && Valid(outside, middle) && Acyclic(LinksOf(middle.nodes))
    requires Enumerates(part.order, Affected(middle.nodes, part.selection))
    ensures LineLeft(nodes, Release(middle, part.selection, part.order, now).db.nodes, topic, ids)
  {
    ValidIsShaped(outside, middle);
    hide Valid, IsLine, Release, Left, Shaped, UniqueKeys, Reasoned, Releases;
    assert ToSet(part.order) == Affected(middle.nodes, part.selection);
    hide Enumerates, Affected, ToSet;
    var kept := Left(ids, nodes.Keys - middle.nodes.Keys);
    assert IsLine(middle.nodes, topic, kept);
    hide LineLeft;
    ReleaseLine(middle, topic, kept, part.selection, part.order, now);
    ReleasesLeaves(middle.nodes, Release(middle, part.selection, part.order, now).db.nodes, topic, kept, part);
    LineLeftTwice(nodes, middle.nodes, Release(middle, part.selection, part.order, now).db.nodes, topic, ids);
  }

  lemma ReleasesLeaves(before: Nodes, after: Nodes, topic: Topic, ids: seq<Id>, part: Part)
    requires Releases(before, after, topic, ids, part.selection, part.order)
    ensures LineLeft(before, after, topic, ids)
  {
    hide IsLine;
  }

  lemma {:induction false} LeftNone(ids: seq<Id>)
    ensures Left(ids, {}) == ids
  {
    if ids != [] {
      LeftNone(ids[..|ids| - 1]);
    }
  }

  lemma LineLeftTwice(a: Nodes, b: Nodes, c: Nodes, topic: Topic, ids: seq<Id>)
    requires LineLeft(a, b, topic, ids) && LineLeft(b, c, topic, Left(ids, a.Keys - b.Keys))
    ensures LineLeft(a, c, topic, ids)
  {
    hide IsLine, Left;
    LeftTwice(ids, a.Keys - b.Keys, b.Keys - c.Keys);
    assert a.Keys - c.Keys == (a.Keys - b.Keys) + (b.Keys - c.Keys);
  }

  lemma {:induction false} SurvivingIs(story: Story, parts: seq<Part>, before: Nodes, after: Nodes)
    requires SaysAll(before, story) && KeepsRemaining(before, parts, after)
    requires forall n :: n in after ==> n in before && SameWords(before[n], after[n])
    ensures Ids(Surviving(story, parts)) == Left(Ids(story), before.Keys - after.Keys)
    ensures SaysAll(after, Surviving(story, parts))
  {
    hide Remaining;
    if story != [] {
      var rest, last := story[..|story| - 1], story[|story| - 1];
      SurvivingIs(rest, parts, before, after);
      assert Ids(rest) == Ids(story)[..|story| - 1];
      assert Says(before, last);
    }
  }

  lemma ForgetTells(outside: Outside, db: Db, topic: Topic, story: Story, parts: seq<Part>, now: int)
    requires Valid(outside, db) && Tells(db.nodes, topic, story) && ForgetAll(db, parts, now).Ok?
    ensures Tells(ForgetAll(db, parts, now).value.db.nodes, topic, Surviving(story, parts))
  {
    ForgetAllExactly(outside, db, parts, now);
    ForgetAllLine(outside, db, topic, Ids(story), parts, now);
    hide Valid, IsLine, KeepsRemaining, ForgetAll;
    SurvivingIs(story, parts, db.nodes, ForgetAll(db, parts, now).value.db.nodes);
  }

  // Refreshing.

  lemma RefreshTells(db: Db, topic: Topic, story: Story, task: string, recorded: set<Id>, order: seq<Id>, now: int)
    requires Shaped(db.nodes) && UniqueKeys(db.nodes) && Reasoned(db.nodes) && Supported(db.nodes)
    requires Tells(db.nodes, topic, story) && Enumerates(order, Unrecorded(db.nodes, task, recorded))
    ensures Tells(Release(db, OfTask(task), order, now).db.nodes, topic, Refreshed(story, task, recorded))
  {
    hide Shaped, UniqueKeys, Reasoned, IsLine, Release, Left, Supported;
    ShapedIsAcyclic(db.nodes);
    var after := Release(db, OfTask(task), order, now).db.nodes;
    assert ToSet(order) == Unrecorded(db.nodes, task, recorded);
    OnlyHeadReleased(db.nodes, topic, story, task, recorded, order);
    hide ToSet, Enumerates, Unrecorded;
    ReleaseLine(db, topic, Ids(story), OfTask(task), order, now);
    RefreshedIs(db.nodes, after, topic, story, task, recorded, order);
  }

  /** Of a topic's nodes a refresh can release only the head. */
  lemma OnlyHeadReleased(nodes: Nodes, topic: Topic, story: Story, task: string, recorded: set<Id>, order: seq<Id>)
    requires Supported(nodes) && Tells(nodes, topic, story) && Enumerates(order, Unrecorded(nodes, task, recorded))
    ensures HeadReleased(nodes, story, task, recorded, order)
  {
    OnlyHeadCurrent(nodes, topic, Ids(story));
    LineDistinct(nodes, topic, Ids(story));
    hide IsLine;
    assert forall i :: 0 <= i < |story| ==> story[i].id == Ids(story)[i] && Ids(story)[i] in Ids(story);
    if story != [] && !HasSource(nodes[story[0].id], OfTask(task)) {
      StrippedSources(nodes[story[0].id], OfTask(task));
    }
  }

  ghost predicate HeadReleased(before: Nodes, story: Story, task: string, recorded: set<Id>, order: seq<Id>) {
    && Distinct(Ids(story)) && SaysAll(before, story)
    && (forall i :: 0 < i < |story| ==> story[i].id !in order)
    && (story != [] && story[0].id in recorded ==> story[0].id !in order)
    && (story != [] && story[0].id !in recorded && story[0].id !in order ==>
          Forgotten(before[story[0].id].content.sources, OfTask(task)) == before[story[0].id].content.sources)
  }

  lemma RefreshedIs(before: Nodes, after: Nodes, topic: Topic, story: Story, task: string, recorded: set<Id>, order: seq<Id>)
    requires Releases(before, after, topic, Ids(story), OfTask(task), order) && Supported(before)
    requires HeadReleased(before, story, task, recorded, order)
    ensures Tells(after, topic, Refreshed(story, task, recorded))
  {
    hide IsLine, Forgotten, Left, Refreshed;
    RefreshedStays(before, after, topic, story, task, recorded, order);
    RefreshedIds(story, task, recorded, before.Keys - after.Keys);
  }

  /** The versions behind the head stay, and the head stays if a source is left. */
  lemma RefreshedStays(before: Nodes, after: Nodes, topic: Topic, story: Story, task: string, recorded: set<Id>, order: seq<Id>)
    requires Releases(before, after, topic, Ids(story), OfTask(task), order) && Supported(before)
    requires HeadReleased(before, story, task, recorded, order)
    ensures SaysAll(after, Refreshed(story, task, recorded))
    ensures forall i :: 0 < i < |story| ==> story[i].id in after
    ensures story != [] ==> story[0].id in before
    ensures story != [] ==>
      (story[0].id in after <==> story[0].id in recorded || Forgotten(story[0].sources, OfTask(task)) != map[])
  {
    hide IsLine, Forgotten, Left, Distinct;
    forall i | 0 < i < |story| ensures Says(before, story[i]) && story[i].id in after && Says(after, story[i]) {
      assert before[story[i].id].content.sources != map[];
    }
    if story != [] {
      assert Says(before, story[0]);
      assert before[story[0].id].content.sources != map[];
    }
  }

  lemma RefreshedIds(story: Story, task: string, recorded: set<Id>, gone: set<Id>)
    requires forall i :: 0 < i < |story| ==> story[i].id !in gone
    requires story != [] ==> (story[0].id !in gone <==> story[0].id in recorded || Forgotten(story[0].sources, OfTask(task)) != map[])
    ensures Ids(Refreshed(story, task, recorded)) == Left(Ids(story), gone)
  {
    hide Forgotten;
    if story != [] {
      HeadLeft(Ids(story), gone);
      assert Ids(story[1..]) == Ids(story)[1..];
      var left := Refreshed(story, task, recorded);
      assert Ids(left) == (if story[0].id in gone then [] else [story[0].id]) + Ids(story)[1..];
    }
  }

  /** Only the head can go. */
  lemma {:induction false} HeadLeft(ids: seq<Id>, gone: set<Id>)
    requires ids != [] && forall i :: 0 < i < |ids| ==> ids[i] !in gone
    ensures Left(ids, gone) == (if ids[0] in gone then [] else [ids[0]]) + ids[1..]
  {
    if |ids| == 1 {
      assert Left(ids[..0], gone) == [];
    } else {
      HeadLeft(ids[..|ids| - 1], gone);
      assert ids[1..] == ids[..|ids| - 1][1..] + [ids[|ids| - 1]];
    }
  }

  predicate FromTask(v: Version, task: string) {
    exists s :: s in v.sources && Selects(OfTask(task), v.sources[s])
  }

  /** A refresh leaves a current node it did not record a source of its task exactly when the node
      was a version before and had one: only what was current before the refresh is released. */
  lemma RefreshedCarriesTask(db: Db, task: string, recorded: set<Id>, order: seq<Id>, now: int)
    requires Shaped(db.nodes) && UniqueKeys(db.nodes) && Reasoned(db.nodes)
    requires Enumerates(order, Unrecorded(db.nodes, task, recorded))
    ensures var after := Release(db, OfTask(task), order, now).db.nodes;
      && after.Keys <= db.nodes.Keys
      && forall n :: IsCurrent(after, n) && n !in recorded ==>
           (HasSource(after[n], OfTask(task)) <==> !IsCurrent(db.nodes, n) && HasSource(db.nodes[n], OfTask(task)))
  {
    assert ToSet(order) == Unrecorded(db.nodes, task, recorded);
    hide UniqueKeys, Reasoned, Shaped, Release;
    ReleaseNodes(db, OfTask(task), order, now);
    assert forall n :: n in order <==> n in Unrecorded(db.nodes, task, recorded);
  }

  // Any run.

  /** Every plain command does to a topic's history what `Step` says. */
  lemma StepTells(outside: Outside, db: Db, topic: Topic, story: Story, command: Command)
    requires Valid(outside, db) && Honest(outside, command) && IsPlain(command) && Tells(db.nodes, topic, story)
    ensures Tells(Exec(outside, db, command).db.nodes, topic, Step(outside, db, story, topic, command))
  {
    hide Valid, Tells, Record, Delete, ForgetAll, Refresh, SetEmbeddings, SettleRules, FilesChanged, Expire;
    hide Surviving, Recorded, RecordedAll, Refreshed, Pruned;
    if Attempt(outside, db, command).Ok? {
      match command
      case Recording(node, embedding, now) => RecordTells(outside, db, topic, story, node, embedding, now);
      case Linking(edges) => LinkedNodes(db, edges);
      case Relinking(sources, edges) => RelinkedSame(db, sources, edges);
      case Deleting(id, now) =>
        ValidIsShaped(outside, db);
        DeleteTells(db, topic, story, id, now);
      case Forgetting(parts, now) => ForgetTells(outside, db, topic, story, parts, now);
      case Refreshing(task, items, joins, order, now) =>
        RefreshingTells(outside, db, topic, story, task, items, joins, order, now);
      case ChangingFiles(changes, now) => FilesChangedTells(db.nodes, topic, story, changes, now);
      case Expiring(now) => ExpireTells(db.nodes, topic, story, now);
      case StoringEmbeddings(batch) => EmbeddingsTell(db, topic, story, batch);
      case SettlingRules(order, now) => SettledTells(outside, db, topic, story, now);
    }
  }

  lemma DeleteTells(db: Db, topic: Topic, story: Story, id: Id, now: int)
    requires Shaped(db.nodes) && UniqueKeys(db.nodes) && Reasoned(db.nodes) && Tells(db.nodes, topic, story)
    ensures Delete(db, id, now).Ok? <==> id in db.nodes
    ensures id in db.nodes ==> Tells(Delete(db, id, now).value.db.nodes, topic, Pruned(story, {id}))
  {
    hide Tells, Shaped, UniqueKeys, Reasoned, Drop, Pruned;
    ShapedIsAcyclic(db.nodes);
    DropTells(db, topic, story, [id], now);
    assert ToSet([id]) == {id};
  }

  lemma ExpireTells(nodes: Nodes, topic: Topic, story: Story, now: int)
    requires Tells(nodes, topic, story)
    ensures Tells(Expire(nodes, now), topic, story)
  {
    hide Tells;
    SameTells(nodes, Expire(nodes, now), topic, story);
  }

  lemma SettledTells(outside: Outside, db: Db, topic: Topic, story: Story, now: int)
    requires Tells(db.nodes, topic, story)
    ensures Tells(SettleRules(outside, db, [], now).db.nodes, topic, story)
  {
    hide Tells;
    SameTells(db.nodes, Rekeyed(outside, db.nodes), topic, story);
  }

  lemma SameTells(nodes: Nodes, other: Nodes, topic: Topic, story: Story)
    requires Tells(nodes, topic, story) && nodes.Keys == other.Keys
    requires forall n :: n in nodes ==>
      && SameLink(nodes[n], other[n]) && other[n].kind == nodes[n].kind && other[n].key == nodes[n].key
      && SameWords(nodes[n], other[n]) && other[n].content.sources == nodes[n].content.sources
    ensures Tells(other, topic, story)
  {
    TouchedLine(nodes, other, topic, Ids(story));
    hide IsLine;
    assert forall i :: 0 <= i < |story| ==> Says(nodes, story[i]);
  }

  lemma FilesChangedTells(nodes: Nodes, topic: Topic, story: Story, changes: seq<FileRef>, now: int)
    requires Tells(nodes, topic, story)
    ensures Tells(FilesChanged(nodes, changes, now), topic, story)
  {
    hide Tells, MarkedAll;
    forall n | n in nodes ensures Aging(nodes[n], MarkedAll(nodes[n], changes, now)) {
      MarkedAllKeeps(nodes[n], changes, now);
    }
    SameTells(nodes, FilesChanged(nodes, changes, now), topic, story);
  }

  lemma {:induction false} EmbeddingsTell(db: Db, topic: Topic, story: Story, items: seq<Embedded>)
    requires Tells(db.nodes, topic, story)
    ensures Tells(SetEmbeddings(db, items).db.nodes, topic, story)
  {
    hide Tells;
    if items != [] {
      EmbeddingsTell(db, topic, story, items[..|items| - 1]);
      var before := SetEmbeddings(db, items[..|items| - 1]).db;
      SameTells(before.nodes, SetEmbedding(before, items[|items| - 1]).db.nodes, topic, story);
    }
  }

  lemma RefreshingTells(outside: Outside, db: Db, topic: Topic, story: Story, task: string, items: seq<Item>,
                        joins: seq<Id> -> seq<NewEdge>, order: seq<Id>, now: int)
    requires Valid(outside, db) && HonestItems(outside, items) && Tells(db.nodes, topic, story)
    requires Refresh(outside, db, task, items, joins, order, now).Ok?
    ensures Tells(Refresh(outside, db, task, items, joins, order, now).value.db.nodes, topic,
      Refreshed(RecordedAll(outside, db, story, topic, items, now), task, ToSet(RecordAll(outside, db, items, now).value)))
  {
    hide Valid, Tells, RecordAll, RecordedAll, Refreshed, Release, Enumerates, Unrecorded;
    var recorded := RecordAll(outside, db, items, now);
    RecordAllTells(outside, db, topic, story, items, now);
    RecordAllKeeps(outside, db, items, now);
    LinkedNodes(recorded.db, joins(recorded.value));
    LinkKeeps(outside, recorded.db, joins(recorded.value));
    var linked := Link(recorded.db, joins(recorded.value)).value;
    ValidIsShaped(outside, linked);
    ValidIsSupported(outside, linked);
    hide Shaped, Acyclic, UniqueKeys, Reasoned, Supported;
    RefreshTells(linked, topic, RecordedAll(outside, db, story, topic, items, now), task, ToSet(recorded.value), order, now);
  }

  lemma ValidIsSupported(outside: Outside, db: Db)
    requires Valid(outside, db)
    ensures Supported(db.nodes)
  {
  }

  /** A topic's history after the first `i` commands of a run. */
  ghost function StoryAfter(outside: Outside, dbs: seq<Db>, commands: seq<Command>, topic: Topic, start: Story, i: nat): Story
    requires IsTrace(outside, dbs, commands) && i <= |commands|
  {
    if i == 0 then start
    else
      TraceValid(outside, dbs, commands, i - 1);
      assert ExecsTo(outside, dbs[i - 1], commands[i - 1], dbs[i]);
      Step(outside, dbs[i - 1], StoryAfter(outside, dbs, commands, topic, start, i - 1), topic, commands[i - 1])
  }

  /** Over any run of plain commands the tables hold exactly the history the list operations give. */
  lemma {:induction false} RunTells(outside: Outside, dbs: seq<Db>, commands: seq<Command>, topic: Topic, start: Story, i: nat)
    requires IsTrace(outside, dbs, commands) && i <= |commands|
    requires forall command :: command in commands ==> IsPlain(command)
    requires Tells(dbs[0].nodes, topic, start)
    ensures Tells(dbs[i].nodes, topic, StoryAfter(outside, dbs, commands, topic, start, i))
    decreases i
  {
    hide Valid, Tells, Exec, Step, Honest;
    if i > 0 {
      RunTells(outside, dbs, commands, topic, start, i - 1);
      TraceValid(outside, dbs, commands, i - 1);
      assert ExecsTo(outside, dbs[i - 1], commands[i - 1], dbs[i]);
      assert commands[i - 1] in commands;
      StepTells(outside, dbs[i - 1], topic, StoryAfter(outside, dbs, commands, topic, start, i - 1), commands[i - 1]);
    }
  }

  /** An empty Brain has no history to tell. */
  lemma EmptyTells(topic: Topic)
    ensures Tells(EMPTY.nodes, topic, [])
  {
  }

  /** The first recording of a rule starts its history. */
  lemma FirstRecording(outside: Outside, topic: Topic, node: NewNode, embedding: Option<Blob>, now: int)
    requires node.kind == topic.kind && node.key == Some(topic.key)
    ensures Tells(Record(outside, EMPTY, node, embedding, now).db.nodes, topic,
      [Version(EMPTY.next, node.title, node.body, OneSource(node))])
  {
    EmptyIsValid(outside);
    EmptyTells(topic);
    hide Valid, Tells, Record;
    RecordTells(outside, EMPTY, topic, [], node, embedding, now);
  }

  /** New text for a rule is pushed in front of its history. */
  lemma RewritingPushes(outside: Outside, db: Db, topic: Topic, story: Story, node: NewNode, embedding: Option<Blob>, now: int)
    requires Valid(outside, db) && Tells(db.nodes, topic, story)
    requires node.kind == topic.kind && node.key == Some(topic.key) && KeepsHistory(node.kind)
    requires story != [] && (story[0].title != node.title || story[0].body != node.body)
    ensures Tells(Record(outside, db, node, embedding, now).db.nodes, topic,
      [Version(story[0].id, node.title, node.body, OneSource(node)), story[0].(id := db.next)] + story[1..])
  {
    hide Valid, Tells, Record, Existing;
    RecordTells(outside, db, topic, story, node, embedding, now);
    var head := Version(story[0].id, node.title, node.body, OneSource(node));
    assert [head] + [story[0].(id := db.next)] == [head, story[0].(id := db.next)];
  }

  /** Deleting a rule's current version pops it. */
  lemma DeletingPops(db: Db, topic: Topic, story: Story, now: int)
    requires Shaped(db.nodes) && UniqueKeys(db.nodes) && Reasoned(db.nodes) && Tells(db.nodes, topic, story) && story != []
    ensures Delete(db, story[0].id, now).Ok? && Tells(Delete(db, story[0].id, now).value.db.nodes, topic, story[1..])
  {
    LineDistinct(db.nodes, topic, Ids(story));
    hide Tells, Shaped, UniqueKeys, Reasoned, Delete, Pruned;
    assert Ids(story)[0] in Ids(story);
    DeleteTells(db, topic, story, story[0].id, now);
    assert forall i :: 0 < i < |story| ==> Ids(story)[0] != Ids(story)[i];
    PoppedIs(story);
  }

  /** So deleting a rule just rewritten brings back what it said, with its sources. */
  lemma DeletingUndoesRewriting(outside: Outside, db: Db, topic: Topic, story: Story, node: NewNode,
                                embedding: Option<Blob>, now: int, later: int)
    requires Valid(outside, db) && EmbeddingOf(outside, embedding, node.title, node.body) && Tells(db.nodes, topic, story)
    requires node.kind == topic.kind && node.key == Some(topic.key) && KeepsHistory(node.kind)
    requires story != [] && (story[0].title != node.title || story[0].body != node.body)
    ensures var recorded := Record(outside, db, node, embedding, now).db;
      && Acyclic(LinksOf(recorded.nodes)) && Delete(recorded, story[0].id, later).Ok?
      && Tells(Delete(recorded, story[0].id, later).value.db.nodes, topic, [story[0].(id := db.next)] + story[1..])
  {
    hide Valid, Shaped, UniqueKeys, Reasoned, Record, Delete, Tells;
    var recorded := Record(outside, db, node, embedding, now).db;
    RecordKeeps(outside, db, node, embedding, now);
    ValidIsShaped(outside, recorded);
    RewritingPushes(outside, db, topic, story, node, embedding, now);
    var pushed := [Version(story[0].id, node.title, node.body, OneSource(node)), story[0].(id := db.next)] + story[1..];
    DeletingPops(recorded, topic, pushed, later);
    assert pushed[1..] == [story[0].(id := db.next)] + story[1..];
  }

  /** Taking the head off a story with distinct ids leaves the rest. */
  lemma {:induction false} PoppedIs(story: Story)
    requires story != []
    ensures (forall i :: 0 < i < |story| ==> story[i].id != story[0].id) ==> Pruned(story, {story[0].id}) == story[1..]
  {
    if |story| == 1 {
      assert Pruned(story[..0], {story[0].id}) == [];
    } else {
      PoppedIs(story[..|story| - 1]);
      assert story[1..] == story[..|story| - 1][1..] + [story[|story| - 1]];
    }
  }

  /** A rule's version is as many replacements from its current one as there are newer versions.
      Nothing bounds those, so a version more than 31 rewrites old is not found (see
      `Retrieve.CurrentVersion`) though no chain loops. */
  lemma {:induction false} VersionDepth(nodes: Nodes, topic: Topic, story: Story, i: nat)
    requires Shaped(nodes) && Tells(nodes, topic, story) && i < |story|
    ensures Depth(LinksOf(nodes), story[i].id) == i && End(LinksOf(nodes), story[i].id) == story[0].id
  {
    var ids, links := Ids(story), LinksOf(nodes);
    if i == 0 {
      assert ids[0] !in links;
    } else {
      assert Hangs(nodes, ids[i], ids[i - 1]);
      VersionDepth(nodes, topic, story, i - 1);
      SameEnd(links, ids[i], ids[i - 1]);
    }
  }
}
