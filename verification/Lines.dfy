/** The versions of a keyed rule hang off each other in one line. A deletion takes nodes out of the
    line and leaves the rest in order, the newest left current. */
module Lines {
  import opened Chains
  import opened Wrappers
  import opened Knowledge
  import opened Writes
  import opened Invariants

  datatype Topic = Topic(kind: Kind, key: string)

  predicate OnTopic(node: Node, topic: Topic) {
    node.kind == topic.kind && node.key == Some(topic.key)
  }

  predicate Distinct(ids: seq<Id>) {
    forall i, j :: 0 <= i < j < |ids| ==> ids[i] != ids[j]
  }

  predicate Hangs(nodes: Nodes, n: Id, above: Id) {
    n in nodes && nodes[n].status.state == Superseded && nodes[n].status.supersededBy == Some(above)
  }

  /** Each of `ids` hangs off the one before it. */
  predicate Linked(nodes: Nodes, ids: seq<Id>) {
    forall i :: 0 < i < |ids| ==> Hangs(nodes, ids[i], ids[i - 1])
  }

  /** Nothing else hangs off `ids`. */
  predicate Closed(nodes: Nodes, ids: seq<Id>) {
    forall n :: n in nodes && nodes[n].status.supersededBy.Some? && nodes[n].status.supersededBy.value in ids ==> n in ids
  }

  /** `ids`, newest first, are the topic's nodes: one current, and its earlier versions in line. */
  ghost predicate IsLine(nodes: Nodes, topic: Topic, ids: seq<Id>) {
    && Distinct(ids)
    && (forall n :: n in nodes ==> (OnTopic(nodes[n], topic) <==> n in ids))
    && (forall i :: 0 <= i < |ids| ==> ids[i] in nodes)
    && (ids != [] ==> IsCurrent(nodes, ids[0]))
    && Linked(nodes, ids) && Closed(nodes, ids)
  }

  function Left(ids: seq<Id>, gone: set<Id>): seq<Id> {
    if ids == [] then []
    else
      var last := ids[|ids| - 1];
      Left(ids[..|ids| - 1], gone) + (if last in gone then [] else [last])
  }

  lemma {:induction false} LeftIs(ids: seq<Id>, gone: set<Id>)
    ensures forall n :: n in Left(ids, gone) <==> n in ids && n !in gone
    ensures Distinct(ids) ==> Distinct(Left(ids, gone))
    ensures ids != [] && ids[0] !in gone ==> Left(ids, gone) != [] && Left(ids, gone)[0] == ids[0]
  {
    if ids != [] {
      var before := ids[..|ids| - 1];
      LeftIs(before, gone);
      if |ids| == 1 {
        assert before == [];
      } else {
        assert before[0] == ids[0];
      }
    }
  }

  /** Where a version's link leads past the nodes that go: the nearest newer version left, or the
      head if none is. */
  lemma {:induction false} LineClimb(nodes: Nodes, ids: seq<Id>, gone: set<Id>, i: nat)
    requires Shaped(nodes) && Linked(nodes, ids) && i < |ids| && IsCurrent(nodes, ids[0])
    ensures var left := Left(ids[..i + 1], gone);
      Climb(LinksOf(nodes), gone, ids[i]) == if left == [] then ids[0] else left[|left| - 1]
    decreases i
  {
    var links := LinksOf(nodes);
    assert ids[..i + 1][..i] == ids[..i];
    if i == 0 {
      assert ids[0] !in links;
      assert Left(ids[..1][..0], gone) == [];
    } else {
      assert Hangs(nodes, ids[i], ids[i - 1]);
      assert links[ids[i]] == ids[i - 1];
      LineClimb(nodes, ids, gone, i - 1);
    }
  }

  lemma {:induction false} ClimbOutside(nodes: Nodes, ids: seq<Id>, gone: set<Id>, a: Id)
    requires Shaped(nodes) && Closed(nodes, ids) && a !in ids
    ensures Climb(LinksOf(nodes), gone, a) !in ids
    decreases RankOf(LinksOf(nodes), a)
  {
    if a in LinksOf(nodes) && a in gone {
      ClimbOutside(nodes, ids, gone, LinksOf(nodes)[a]);
    }
  }

  /** Midway through a deletion of `gone`: the versions left hang in line, off the head until it
      is `settled`. */
  ghost predicate MidLine(nodes: Nodes, topic: Topic, ids: seq<Id>, gone: set<Id>, settled: bool) {
    var left := Left(ids, gone);
    && (forall n :: n in nodes && n !in gone ==> (OnTopic(nodes[n], topic) <==> n in ids))
    && (forall n :: n in ids ==> n in nodes)
    && Closed(nodes, ids) && Linked(nodes, left)
    && (left != [] ==>
          if ids[0] !in gone || settled then IsCurrent(nodes, left[0]) else Hangs(nodes, left[0], ids[0]))
  }

  /** Where a version hangs once versions have moved up. */
  lemma LiftedLink(nodes: Nodes, ids: seq<Id>, gone: set<Id>, i: nat)
    requires Shaped(nodes) && Linked(nodes, ids) && 0 < i < |ids| && IsCurrent(nodes, ids[0])
    ensures var left := Left(ids[..i], gone);
      Hangs(Lift(nodes, gone), ids[i], if left == [] then ids[0] else left[|left| - 1])
  {
    assert Hangs(nodes, ids[i], ids[i - 1]);
    LineClimb(nodes, ids, gone, i - 1);
  }

  /** Once versions have moved up, those left hang in line. */
  lemma {:induction false} LiftLinked(nodes: Nodes, ids: seq<Id>, gone: set<Id>, i: nat)
    requires Shaped(nodes) && Linked(nodes, ids) && i <= |ids| && (ids != [] ==> IsCurrent(nodes, ids[0]))
    ensures var lifted, left := Lift(nodes, gone), Left(ids[..i], gone);
      && Linked(lifted, left)
      && (left != [] ==> if ids[0] !in gone then left[0] == ids[0] else Hangs(lifted, left[0], ids[0]))
    decreases i
  {
    hide Shaped, Lift, Hangs, Acyclic;
    ShapedIsAcyclic(nodes);
    if i > 1 {
      LiftLinked(nodes, ids, gone, i - 1);
      LiftedLink(nodes, ids, gone, i - 1);
      assert ids[..i - 1][0] == ids[0];
      OneMoreLinked(Lift(nodes, gone), ids[0], ids[..i - 1], gone, ids[i - 1]);
      assert ids[..i - 1] + [ids[i - 1]] == ids[..i];
    } else if i == 1 {
      assert ids[..1] == [ids[0]] && [ids[0]][..0] == [];
    }
  }

  lemma OneMoreLinked(lifted: Nodes, head: Id, before: seq<Id>, gone: set<Id>, last: Id)
    requires before != [] && before[0] == head && Linked(lifted, Left(before, gone))
    requires var left := Left(before, gone);
      && (left != [] ==> if head !in gone then left[0] == head else Hangs(lifted, left[0], head))
      && Hangs(lifted, last, if left == [] then head else left[|left| - 1])
    ensures var left := Left(before + [last], gone);
      && Linked(lifted, left) && (left != [] ==> if head !in gone then left[0] == head else Hangs(lifted, left[0], head))
  {
    hide Hangs;
    LeftIs(before, gone);
    assert (before + [last])[..|before|] == before;
  }

  lemma LiftClosed(nodes: Nodes, ids: seq<Id>, gone: set<Id>)
    requires Shaped(nodes) && Closed(nodes, ids)
    ensures Closed(Lift(nodes, gone), ids)
  {
    var lifted := Lift(nodes, gone);
    forall n | n in nodes && n !in ids && nodes[n].status.supersededBy.Some?
      ensures lifted[n].status.supersededBy.value !in ids
    {
      ClimbOutside(nodes, ids, gone, nodes[n].status.supersededBy.value);
    }
  }

  lemma LiftSame(nodes: Nodes, gone: set<Id>)
    requires Acyclic(LinksOf(nodes))
    ensures var lifted := Lift(nodes, gone);
      && lifted.Keys == nodes.Keys
      && forall n :: n in nodes ==>
        lifted[n].kind == nodes[n].kind && lifted[n].key == nodes[n].key && lifted[n].status.state == nodes[n].status.state
  {
  }

  lemma LineStarts(nodes: Nodes, topic: Topic, ids: seq<Id>, doomed: seq<Id>)
    requires Shaped(nodes) && IsLine(nodes, topic, ids)
    ensures MidLine(Unkeyed(Lift(nodes, ToSet(doomed)), ToSet(CurrentOf(nodes, doomed))), topic, ids, ToSet(doomed), false)
  {
    hide MidLine, Lift;
    var gone := ToSet(doomed);
    var lifted := Lift(nodes, gone);
    LiftSame(nodes, gone);
    LiftLinked(nodes, ids, gone, |ids|);
    assert ids[..|ids|] == ids;
    LiftClosed(nodes, ids, gone);
    CurrentOfIs(nodes, doomed);
    hide Shaped, Closed, Linked;
    UnkeyedLine(nodes, lifted, topic, ids, gone, ToSet(CurrentOf(nodes, doomed)));
  }

  lemma UnkeyedLine(nodes: Nodes, lifted: Nodes, topic: Topic, ids: seq<Id>, gone: set<Id>, current: set<Id>)
    requires nodes.Keys == lifted.Keys && IsLine(nodes, topic, ids) && current <= gone
    requires forall n :: n in nodes ==>
      lifted[n].kind == nodes[n].kind && lifted[n].key == nodes[n].key && lifted[n].status.state == nodes[n].status.state
    requires Closed(lifted, ids) && Linked(lifted, Left(ids, gone))
    requires Left(ids, gone) != [] ==>
      if ids[0] !in gone then Left(ids, gone)[0] == ids[0] else Hangs(lifted, Left(ids, gone)[0], ids[0])
    ensures MidLine(Unkeyed(lifted, current), topic, ids, gone, false)
  {
    hide Left;
    LeftIs(ids, gone);
    UnkeyedLinked(lifted, Left(ids, gone), current);
    assert Closed(Unkeyed(lifted, current), ids);
    hide Linked, Closed;
    assert forall n :: n in ids ==> n in nodes;
    assert Left(ids, gone) != [] ==> ids != [];
  }

  lemma UnkeyedLinked(nodes: Nodes, ids: seq<Id>, current: set<Id>)
    requires Linked(nodes, ids)
    ensures Linked(Unkeyed(nodes, current), ids)
  {
    forall i | 0 < i < |ids| ensures Hangs(Unkeyed(nodes, current), ids[i], ids[i - 1]) {
      assert Hangs(nodes, ids[i], ids[i - 1]);
    }
  }

  /** Settling a node off the line leaves the line alone. */
  lemma SettleElsewhere(r: Revival, topic: Topic, ids: seq<Id>, gone: set<Id>, settled: bool, id: Id, now: int)
    requires MidLine(r.nodes, topic, ids, gone, settled) && id !in ids && id in gone
    ensures MidLine(Settle(r, gone, id, now).nodes, topic, ids, gone, settled)
  {
    var versions := Children(r.nodes, id) - gone;
    if versions != {} {
      var latest := LatestVersion(r.nodes, versions);
      var heirs := Heirs(r.nodes, gone, r.nodes[latest].kind, r.nodes[latest].key);
      OffLine(r.nodes, topic, ids, gone, settled, id, versions);
      if heirs != {} {
        var heir := PickOne(heirs);
        assert heir !in ids;
        MovedElsewhere(r.nodes, Repointed(r.nodes, versions, heir), topic, ids, gone, settled, versions);
      } else {
        MovedElsewhere(r.nodes, Revived(r.nodes, versions - {latest}, latest, now), topic, ids, gone, settled, versions);
      }
    }
  }

  /** A version left in the line hangs off the line. */
  lemma LeftHangs(nodes: Nodes, topic: Topic, ids: seq<Id>, gone: set<Id>, settled: bool, v: Id)
    requires MidLine(nodes, topic, ids, gone, settled)
    ensures v in ids && v !in gone && nodes[v].status.state == Superseded && nodes[v].status.supersededBy.Some? ==>
      nodes[v].status.supersededBy.value in ids
  {
    LeftIs(ids, gone);
    var left := Left(ids, gone);
    if v in left {
      var i :| 0 <= i < |left| && left[i] == v;
      if i > 0 {
        assert Hangs(nodes, left[i], left[i - 1]);
        assert left[i - 1] in left;
      }
    }
  }

  /** What hangs off a node outside the line is outside it too. */
  lemma OffLine(nodes: Nodes, topic: Topic, ids: seq<Id>, gone: set<Id>, settled: bool, id: Id, versions: set<Id>)
    requires MidLine(nodes, topic, ids, gone, settled) && id !in ids
    requires forall v :: v in versions ==> Hangs(nodes, v, id) && v !in gone
    ensures forall v :: v in versions ==> v !in ids
  {
    forall v | v in versions ensures v !in ids {
      LeftHangs(nodes, topic, ids, gone, settled, v);
    }
  }

  lemma MovedElsewhere(nodes: Nodes, after: Nodes, topic: Topic, ids: seq<Id>, gone: set<Id>, settled: bool, versions: set<Id>)
    requires MidLine(nodes, topic, ids, gone, settled) && nodes.Keys == after.Keys
    requires forall v :: v in versions ==> v !in ids
    requires forall n :: n in nodes ==> after[n].kind == nodes[n].kind && after[n].key == nodes[n].key
    requires forall n :: n in nodes && n !in versions ==> after[n].status == nodes[n].status
    requires forall v :: v in versions && v in nodes && after[v].status.supersededBy.Some? ==> after[v].status.supersededBy.value !in ids
    ensures MidLine(after, topic, ids, gone, settled)
  {
    var left := Left(ids, gone);
    LeftIs(ids, gone);
    forall i | 0 < i < |left| ensures Hangs(after, left[i], left[i - 1]) {
      assert Hangs(nodes, left[i], left[i - 1]);
      assert left[i] in ids;
    }
    if left != [] {
      assert left[0] in ids;
    }
  }

  /** Settling the head makes the newest version left current. */
  lemma SettleHead(r: Revival, topic: Topic, ids: seq<Id>, gone: set<Id>, now: int)
    requires MidLine(r.nodes, topic, ids, gone, false) && Distinct(ids) && ids != [] && ids[0] in gone
    ensures MidLine(Settle(r, gone, ids[0], now).nodes, topic, ids, gone, true)
  {
    var left := Left(ids, gone);
    var versions := Children(r.nodes, ids[0]) - gone;
    HeadVersions(r.nodes, topic, ids, gone);
    if left != [] {
      var head := left[0];
      assert versions == {head};
      assert LatestVersion(r.nodes, versions) == head;
      NoHeirs(r.nodes, topic, ids, gone);
      HeadRestored(r.nodes, topic, ids, gone, now);
      assert versions - {head} == {};
    }
  }

  /** Every version left but the newest hangs off one left. */
  lemma LeftParent(nodes: Nodes, ids: seq<Id>, gone: set<Id>, v: Id)
    requires Linked(nodes, Left(ids, gone))
    ensures var left := Left(ids, gone);
      v in left && v != left[0] ==> v in nodes && nodes[v].status.supersededBy.Some? && nodes[v].status.supersededBy.value in left
  {
    var left := Left(ids, gone);
    if v in left && v != left[0] {
      var i :| 0 <= i < |left| && left[i] == v;
      assert Hangs(nodes, left[i], left[i - 1]);
      assert left[i - 1] in left;
    }
  }

  lemma HeadVersions(nodes: Nodes, topic: Topic, ids: seq<Id>, gone: set<Id>)
    requires MidLine(nodes, topic, ids, gone, false) && Distinct(ids) && ids != [] && ids[0] in gone
    ensures var left := Left(ids, gone);
      Children(nodes, ids[0]) - gone == if left == [] then {} else {left[0]}
  {
    LeftIs(ids, gone);
    var left := Left(ids, gone);
    forall v | v in Children(nodes, ids[0]) - gone ensures left != [] && v == left[0] {
      assert v in left;
      LeftParent(nodes, ids, gone, v);
    }
  }

  lemma NoHeirs(nodes: Nodes, topic: Topic, ids: seq<Id>, gone: set<Id>)
    requires MidLine(nodes, topic, ids, gone, false) && Left(ids, gone) != [] && ids != [] && ids[0] in gone
    ensures var head := Left(ids, gone)[0]; head in nodes && Heirs(nodes, gone, nodes[head].kind, nodes[head].key) == {}
  {
    LeftIs(ids, gone);
    var left := Left(ids, gone);
    assert left[0] in ids && left[0] !in gone;
    forall n | n in left ensures nodes[n].status.state == Superseded {
      var i :| 0 <= i < |left| && left[i] == n;
      if i > 0 {
        assert Hangs(nodes, left[i], left[i - 1]);
      }
    }
    assert forall n :: n in Holders(nodes, topic.kind, topic.key) ==> OnTopic(nodes[n], topic) && n !in left;
  }

  lemma HeadRestored(nodes: Nodes, topic: Topic, ids: seq<Id>, gone: set<Id>, now: int)
    requires MidLine(nodes, topic, ids, gone, false) && Distinct(ids) && Left(ids, gone) != [] && ids[0] in gone
    ensures MidLine(Revived(nodes, {}, Left(ids, gone)[0], now), topic, ids, gone, true)
  {
    LeftIs(ids, gone);
    assert Left(ids, gone)[0] in ids;
    hide MidLine;
    HeadMoved(nodes, Revived(nodes, {}, Left(ids, gone)[0], now), topic, ids, gone);
  }

  lemma HeadMoved(nodes: Nodes, after: Nodes, topic: Topic, ids: seq<Id>, gone: set<Id>)
    requires MidLine(nodes, topic, ids, gone, false) && Distinct(ids) && Left(ids, gone) != [] && ids[0] in gone
    requires var head := Left(ids, gone)[0];
      && head in nodes && after.Keys == nodes.Keys && (forall n :: n in nodes && n != head ==> after[n] == nodes[n])
      && after[head].kind == nodes[head].kind && after[head].key == nodes[head].key
      && after[head].status.state != Superseded && after[head].status.supersededBy.None?
    ensures MidLine(after, topic, ids, gone, true)
  {
    hide Left;
    LeftIs(ids, gone);
    HeadLinked(nodes, after, Left(ids, gone));
    assert Closed(after, ids);
    hide Closed, Linked;
  }

  lemma HeadLinked(nodes: Nodes, after: Nodes, left: seq<Id>)
    requires Linked(nodes, left) && Distinct(left) && left != []
    requires after.Keys == nodes.Keys && forall n :: n in nodes && n != left[0] ==> after[n] == nodes[n]
    ensures Linked(after, left)
  {
    forall i | 0 < i < |left| ensures Hangs(after, left[i], left[i - 1]) {
      assert Hangs(nodes, left[i], left[i - 1]);
    }
  }

  /** The head has nothing left to hand on once it is settled. */
  lemma SettleHeadAgain(r: Revival, topic: Topic, ids: seq<Id>, gone: set<Id>, now: int)
    requires MidLine(r.nodes, topic, ids, gone, true) && ids != [] && ids[0] in gone
    ensures Settle(r, gone, ids[0], now) == r
  {
    LeftIs(ids, gone);
    forall v | v in Children(r.nodes, ids[0]) ensures v in gone {
      LeftParent(r.nodes, ids, gone, v);
    }
  }

  lemma {:induction false} SettleAllLine(r: Revival, topic: Topic, ids: seq<Id>, gone: set<Id>, current: seq<Id>, now: int)
    requires MidLine(r.nodes, topic, ids, gone, false) && Distinct(ids)
    requires forall id :: id in current ==> id in gone && (id in ids ==> id == ids[0])
    ensures MidLine(SettleAll(r, gone, current, now).nodes, topic, ids, gone, ids != [] && ids[0] in current)
    decreases |current|
  {
    hide MidLine, Settle;
    if current != [] {
      var before, last := current[..|current| - 1], current[|current| - 1];
      SettleAllLine(r, topic, ids, gone, before, now);
      assert current == before + [last];
      var middle := SettleAll(r, gone, before, now);
      if last !in ids {
        SettleElsewhere(middle, topic, ids, gone, ids != [] && ids[0] in before, last, now);
      } else if ids[0] in before {
        SettleHeadAgain(middle, topic, ids, gone, now);
      } else {
        SettleHead(middle, topic, ids, gone, now);
      }
    }
  }

  lemma WithoutLine(nodes: Nodes, topic: Topic, ids: seq<Id>, gone: set<Id>, settled: bool)
    requires MidLine(nodes, topic, ids, gone, settled) && Distinct(ids)
    requires ids != [] && ids[0] in gone ==> settled
    ensures IsLine(Without(nodes, gone), topic, Left(ids, gone))
  {
    LeftIs(ids, gone);
    var left, kept := Left(ids, gone), Without(nodes, gone);
    forall i | 0 < i < |left| ensures Hangs(kept, left[i], left[i - 1]) {
      assert Hangs(nodes, left[i], left[i - 1]);
      assert left[i] in left;
    }
    forall i | 0 <= i < |left| ensures left[i] in kept {
      assert left[i] in left;
    }
  }

  /** A deletion takes the deleted versions out of the line and leaves the others in order. */
  lemma DropLine(db: Db, topic: Topic, ids: seq<Id>, doomed: seq<Id>, now: int)
    requires Shaped(db.nodes) && IsLine(db.nodes, topic, ids)
    ensures IsLine(Drop(db, doomed, now).db.nodes, topic, Left(ids, ToSet(doomed)))
  {
    var gone, current := ToSet(doomed), CurrentOf(db.nodes, doomed);
    var start := Revival(Unkeyed(Lift(db.nodes, gone), ToSet(current)), Facts(db.edges), []);
    LineStarts(db.nodes, topic, ids, doomed);
    CurrentOfIs(db.nodes, doomed);
    OnlyHeadCurrent(db.nodes, topic, ids);
    hide MidLine, Shaped, Unkeyed, Lift, Left;
    SettleAllLine(start, topic, ids, gone, current, now);
    WithoutLine(Revive(db, doomed, now).nodes, topic, ids, gone, ids != [] && ids[0] in current);
  }

  lemma OnlyHeadCurrent(nodes: Nodes, topic: Topic, ids: seq<Id>)
    requires IsLine(nodes, topic, ids)
    ensures forall id :: id in ids && IsCurrent(nodes, id) ==> id == ids[0]
  {
    forall id | id in ids && IsCurrent(nodes, id) ensures id == ids[0] {
      var i :| 0 <= i < |ids| && ids[i] == id;
      if i > 0 {
        HangsIsVersion(nodes, ids, i);
      }
    }
  }

  lemma HangsIsVersion(nodes: Nodes, ids: seq<Id>, i: nat)
    requires Linked(nodes, ids) && 0 < i < |ids|
    ensures !IsCurrent(nodes, ids[i])
  {
    assert Hangs(nodes, ids[i], ids[i - 1]);
  }

  // Recording.

  /** A rewrite of the head puts its old text right behind it. */
  lemma ArchiveLine(nodes: Nodes, topic: Topic, ids: seq<Id>, copy: Id, reason: string, now: int)
    requires Shaped(nodes) && IsLine(nodes, topic, ids) && ids != [] && copy !in nodes
    ensures IsLine(ArchiveNodes(nodes, ids[0], copy, reason, now), topic, [ids[0], copy] + ids[1..])
  {
    var after, longer := ArchiveNodes(nodes, ids[0], copy, reason, now), [ids[0], copy] + ids[1..];
    forall n ensures n in longer <==> n == copy || n in ids {
      assert ids == [ids[0]] + ids[1..];
    }
    ArchiveLinked(nodes, ids, copy, reason, now);
    ArchiveClosed(nodes, ids, longer, copy, reason, now);
    ArchiveTopic(nodes, topic, ids, longer, copy, reason, now);
    hide Shaped, Linked, Closed, ArchiveNodes;
    assert Distinct(longer);
    assert forall i :: 0 <= i < |longer| ==> longer[i] in longer;
  }

  /** The copy is on the topic, and all else stays on it or off it. */
  lemma ArchiveTopic(nodes: Nodes, topic: Topic, ids: seq<Id>, longer: seq<Id>, copy: Id, reason: string, now: int)
    requires ids != [] && IsCurrent(nodes, ids[0]) && copy !in nodes && forall n :: n in ids ==> n in nodes
    requires forall n :: n in nodes ==> (OnTopic(nodes[n], topic) <==> n in ids)
    requires forall n :: n in longer <==> n == copy || n in ids
    ensures var after := ArchiveNodes(nodes, ids[0], copy, reason, now);
      && (forall n :: n in after ==> (OnTopic(after[n], topic) <==> n in longer))
      && (forall n :: n in longer ==> n in after) && IsCurrent(after, ids[0])
  {
    assert ids[0] in ids;
  }

  lemma ArchiveLinked(nodes: Nodes, ids: seq<Id>, copy: Id, reason: string, now: int)
    requires Linked(nodes, ids) && Distinct(ids) && ids != [] && ids[0] in nodes && copy !in nodes
    ensures Linked(ArchiveNodes(nodes, ids[0], copy, reason, now), [ids[0], copy] + ids[1..])
  {
    var after, longer := ArchiveNodes(nodes, ids[0], copy, reason, now), [ids[0], copy] + ids[1..];
    forall i | 0 < i < |longer| ensures Hangs(after, longer[i], longer[i - 1]) {
      if i > 1 {
        assert Hangs(nodes, ids[i - 1], ids[i - 2]);
        assert longer[i] == ids[i - 1];
        assert i > 2 ==> ids[i - 2] != ids[0] && longer[i - 1] == ids[i - 2];
      }
    }
  }

  lemma ArchiveClosed(nodes: Nodes, ids: seq<Id>, longer: seq<Id>, copy: Id, reason: string, now: int)
    requires Shaped(nodes) && Closed(nodes, ids) && ids != [] && ids[0] in nodes && copy !in nodes
    requires forall n :: n in longer <==> n == copy || n in ids
    ensures Closed(ArchiveNodes(nodes, ids[0], copy, reason, now), longer)
  {
  }

  /** A rewrite off the line, of a node that is none of its versions, leaves it alone. */
  lemma ArchiveElsewhere(nodes: Nodes, topic: Topic, ids: seq<Id>, id: Id, copy: Id, reason: string, now: int)
    requires IsLine(nodes, topic, ids) && id in nodes && id !in ids && copy !in nodes
    ensures IsLine(ArchiveNodes(nodes, id, copy, reason, now), topic, ids)
  {
    var after := ArchiveNodes(nodes, id, copy, reason, now);
    forall i | 0 < i < |ids| ensures Hangs(after, ids[i], ids[i - 1]) {
      assert Hangs(nodes, ids[i], ids[i - 1]);
    }
  }

  /** Other words, sources and freshness leave the line as it was. */
  lemma TouchedLine(nodes: Nodes, other: Nodes, topic: Topic, ids: seq<Id>)
    requires IsLine(nodes, topic, ids) && nodes.Keys == other.Keys
    requires forall n :: n in nodes ==>
      SameLink(nodes[n], other[n]) && other[n].kind == nodes[n].kind && other[n].key == nodes[n].key
    ensures IsLine(other, topic, ids)
  {
    forall i | 0 < i < |ids| ensures Hangs(other, ids[i], ids[i - 1]) {
      assert Hangs(nodes, ids[i], ids[i - 1]);
    }
  }

  lemma InsertedLine(nodes: Nodes, topic: Topic, ids: seq<Id>, id: Id, node: Node)
    requires Shaped(nodes) && IsLine(nodes, topic, ids) && id !in nodes && node.status.state != Superseded && node.status.supersededBy.None?
    requires OnTopic(node, topic) ==> ids == []
    ensures IsLine(nodes[id := node], topic, if OnTopic(node, topic) then [id] else ids)
  {
    var after := nodes[id := node];
    forall i | 0 < i < |ids| ensures Hangs(after, ids[i], ids[i - 1]) {
      assert Hangs(nodes, ids[i], ids[i - 1]);
    }
  }
}
