/** The Brain's writes statement by statement, each proved to leave what `Writes` says. */
module BrainGraph {
  import opened Chains
  import opened Wrappers
  import opened Knowledge
  import opened Writes
  import opened Invariants
  import opened Keeping
  import opened FilesSeen

  /** The edges from `parent` to the versions hanging off it. */
  function ChildEdges(parent: Id, children: set<Id>): set<Edge> {
    set c | c in children :: Edge(parent, c, Supersedes)
  }

  predicate LinksTo(nodes: Nodes, e: Edge) {
    e.target in nodes && nodes[e.target].status.supersededBy == Some(e.source)
  }

  /** Away from the nodes that go, the `supersedes` edges are those there were and those of the
      links there are. */
  ghost predicate EdgesFollow(edges: set<Edge>, base: set<Edge>, nodes: Nodes, gone: set<Id>) {
    forall e: Edge :: e.kind == Supersedes && e.source !in gone && e.target !in gone ==>
      (e in edges <==> e in base || LinksTo(nodes, e))
  }

  lemma RepointFollows(edges: set<Edge>, base: set<Edge>, nodes: Nodes, gone: set<Id>, children: set<Id>, parent: Id)
    requires EdgesFollow(edges, base, nodes, gone) && children <= nodes.Keys
    requires forall c :: c in children && c !in gone ==>
      nodes[c].status.supersededBy.Some? && nodes[c].status.supersededBy.value in gone
    ensures EdgesFollow(edges + ChildEdges(parent, children), base, Repointed(nodes, children, parent), gone)
  {
  }

  lemma RestoreFollows(edges: set<Edge>, base: set<Edge>, nodes: Nodes, gone: set<Id>, latest: Id, now: int)
    requires EdgesFollow(edges, base, nodes, gone) && latest in nodes
    requires nodes[latest].status.supersededBy.Some? && nodes[latest].status.supersededBy.value in gone
    ensures EdgesFollow(edges, base, nodes[latest := Restored(nodes[latest], now)], gone)
  {
  }

  /** One more doomed version hands its own versions to what replaced it. */
  lemma LiftOne(base: Nodes, through: set<Id>, id: Id)
    requires Shaped(base) && id in base && base[id].status.state == Superseded
    ensures var lifted := Lift(base, through);
      && lifted[id].status.supersededBy.Some?
      && Lift(base, through + {id}) == Repointed(lifted, Children(lifted, id), lifted[id].status.supersededBy.value)
  {
    var links := LinksOf(base);
    var lifted := Lift(base, through);
    var above := lifted[id].status.supersededBy.value;
    if id in through {
      assert through + {id} == through;
      assert Children(lifted, id) == {};
    } else {
      forall n | n in base && base[n].status.supersededBy.Some?
        ensures Climb(links, through + {id}, links[n])
          == if Climb(links, through, links[n]) == id then above else Climb(links, through, links[n])
      {
        ClimbOne(links, through, id, links[n]);
      }
    }
  }

  lemma LiftNone(base: Nodes, through: set<Id>, id: Id)
    requires Shaped(base) && !(id in base && base[id].status.state == Superseded)
    ensures Lift(base, through + {id}) == Lift(base, through)
  {
    forall n | n in base && base[n].status.supersededBy.Some?
      ensures Climb(LinksOf(base), through + {id}, LinksOf(base)[n]) == Climb(LinksOf(base), through, LinksOf(base)[n])
    {
      ClimbUnlinked(LinksOf(base), through, id, LinksOf(base)[n]);
    }
  }

  lemma {:induction false} ClimbUnlinked(links: Links, through: set<Id>, id: Id, a: Id)
    requires Acyclic(links) && id !in links
    ensures Climb(links, through + {id}, a) == Climb(links, through, a)
    decreases RankOf(links, a)
  {
    if a in links && a in through {
      ClimbUnlinked(links, through, id, links[a]);
    }
  }

  lemma ToSetOfPrefix(s: seq<Id>, i: nat)
    requires i < |s|
    ensures ToSet(s[..i + 1]) == ToSet(s[..i]) + {s[i]}
  {
  }

  lemma ToSetOfAll(s: seq<Id>)
    ensures s[..|s|] == s
  {
  }

  lemma OneHolder(nodes: Nodes, kind: Kind, key: string, id: Id)
    requires UniqueKeys(nodes) && id in Holders(nodes, kind, key)
    ensures Holders(nodes, kind, key) == {id}
  {
    forall other | other in Holders(nodes, kind, key) ensures other == id {
      assert !Clash(nodes, id, other);
    }
  }

  lemma ArchivedEdges(edges: set<Edge>, id: Id, copy: Id, joins: set<Edge>)
    requires copy != id
    requires var withCopy := edges + set e | e in edges && e.source == id && e.kind == DecidedIn :: Edge(copy, e.target, DecidedIn);
      joins == (set e | e in withCopy && !(e.source == id && e.kind == Supersedes))
        + (set e | e in withCopy && e.source == id && e.kind == Supersedes :: Edge(copy, e.target, Supersedes))
        + {Edge(id, copy, Supersedes)}
    ensures joins == ArchiveEdges(edges, id, copy)
  {
  }

  /** Once an edge is refused, so is the whole list. */
  lemma {:induction false} LinkFails(db: Db, added: seq<NewEdge>, i: nat)
    requires i < |added| && Link(db, added[..i + 1]).Err?
    ensures Link(db, added).Err? && Link(db, added).error == Link(db, added[..i + 1]).error
    decreases |added|
  {
    if i + 1 == |added| {
      assert added[..i + 1] == added;
    } else {
      assert added[..|added| - 1][..i + 1] == added[..i + 1];
      LinkFails(db, added[..|added| - 1], i);
    }
  }

  lemma {:induction false} ClearFails(db: Db, sources: seq<Endpoint>, i: nat)
    requires i < |sources| && Cleared(db, sources[..i + 1]).Err?
    ensures Cleared(db, sources).Err? && Cleared(db, sources).error == Cleared(db, sources[..i + 1]).error
    decreases |sources|
  {
    if i + 1 == |sources| {
      assert sources[..i + 1] == sources;
    } else {
      assert sources[..|sources| - 1][..i + 1] == sources[..i + 1];
      ClearFails(db, sources[..|sources| - 1], i);
    }
  }

  lemma LiftNothing(nodes: Nodes)
    requires Shaped(nodes)
    ensures Lift(nodes, ToSet([])) == nodes
  {
  }

  lemma ChildrenAreNoFacts(edges: set<Edge>, parent: Id, children: set<Id>)
    ensures Facts(edges + ChildEdges(parent, children)) == Facts(edges)
  {
  }

  /** Edges taken over are facts: the `supersedes` edges stay as they are. */
  lemma TakenOverAreFacts(edges: set<Edge>, base: set<Edge>, nodes: Nodes, gone: set<Id>, from: Id, to: Id)
    requires EdgesFollow(edges, base, nodes, gone)
    ensures Facts(edges + TakenOver(edges, from, to)) == Facts(edges) + TakenOver(Facts(edges), from, to)
    ensures EdgesFollow(edges + TakenOver(edges, from, to), base, nodes, gone)
  {
  }

  lemma Unkeying(nodes: Nodes, ids: set<Id>, edges: set<Edge>, base: set<Edge>, gone: set<Id>)
    requires EdgesFollow(edges, base, nodes, gone)
    ensures EdgesFollow(edges, base, Unkeyed(nodes, ids), gone)
  {
  }

  /** What is left of the edges once the doomed nodes go. */
  lemma FinalEdges(edges: set<Edge>, base: set<Edge>, nodes: Nodes, gone: set<Id>, facts: set<Edge>)
    requires Facts(edges) == facts && EdgesFollow(edges, base, nodes, gone) && Shaped(Without(nodes, gone))
    ensures Apart(edges, gone) == Apart(facts + Sups(base), gone) + LinkEdges(Without(nodes, gone))
  {
    var kept := Without(nodes, gone);
    forall e: Edge
      ensures e in Apart(edges, gone) <==> e in Apart(facts + Sups(base), gone) + LinkEdges(kept)
    {
      assert e in LinkEdges(kept) <==> e.kind == Supersedes && LinksTo(kept, e);
      assert e.kind != Supersedes ==> (e in Facts(edges) <==> e in edges);
    }
  }

  /** The nodes of `ids` some source still supports. */
  function Kept(nodes: Nodes, ids: seq<Id>): seq<Id> {
    if ids == [] then []
    else
      var last := ids[|ids| - 1];
      Kept(nodes, ids[..|ids| - 1]) + (if last in nodes && nodes[last].content.sources != map[] then [last] else [])
  }

  lemma {:induction false} KeptIs(nodes: Nodes, ids: seq<Id>)
    ensures forall n :: n in Kept(nodes, ids) <==> n in ids && n in nodes && nodes[n].content.sources != map[]
    ensures Shown(nodes, ToSet(Kept(nodes, ids))) == Shown(nodes, ToSet(ids))
  {
    if ids != [] {
      KeptIs(nodes, ids[..|ids| - 1]);
    }
  }

  lemma ShownOnce(base: Nodes, ids: set<Id>, id: Id)
    requires id in base && base[id].content.sources != map[]
    ensures Shown(base, ids + {id})
      == Shown(base, ids)[id := base[id].(content := Showing(base[id].content))]
  {
  }

  lemma ShownStill(nodes: Nodes, ids: set<Id>, edges: set<Edge>)
    requires Shaped(nodes) && UniqueKeys(nodes) && Reasoned(nodes) && Joined(nodes, edges)
    ensures var shown := Shown(nodes, ids); Shaped(shown) && UniqueKeys(shown) && Reasoned(shown) && Joined(shown, edges)
  {
    var shown := Shown(nodes, ids);
    ShapeKept(nodes, shown);
    SameKeysUnique(nodes, shown);
    StillJoined(nodes, shown, edges);
  }

  lemma StrippedOnce(base: Nodes, ids: set<Id>, selection: Selection, id: Id)
    requires id in base
    ensures Forgotten(Stripped(base, ids, selection)[id].content.sources, selection)
      == Forgotten(base[id].content.sources, selection)
  {
  }

  lemma StrippedStill(nodes: Nodes, affected: seq<Id>, selection: Selection, edges: set<Edge>)
    requires Shaped(nodes) && UniqueKeys(nodes) && Reasoned(nodes) && Joined(nodes, edges)
    ensures var stripped := Stripped(nodes, ToSet(affected), selection);
      Shaped(stripped) && UniqueKeys(stripped) && Reasoned(stripped) && Joined(stripped, edges)
  {
    var stripped := Stripped(nodes, ToSet(affected), selection);
    ShapeKept(nodes, stripped);
    SameKeysUnique(nodes, stripped);
    StillJoined(nodes, stripped, edges);
  }

  lemma FilesUnchanged(nodes: Nodes, now: int)
    ensures FilesChanged(nodes, [], now) == nodes
  {
  }

  lemma FilesChangedOnce(base: Nodes, files: seq<FileRef>, i: nat, now: int)
    requires i < |files|
    ensures forall n :: n in base ==>
      MarkedAll(base[n], files[..i + 1], now) == Marked(MarkedAll(base[n], files[..i], now), files[i], now)
  {
    assert files[..i + 1][..i] == files[..i];
  }

  /** Only a node that was fresh is fresh after a change of files. */
  lemma FreshBefore(base: Nodes, files: seq<FileRef>, now: int)
    ensures forall n :: n in base && MarkedAll(base[n], files, now).status.state == Fresh ==> base[n].status.state == Fresh
  {
    forall n | n in base && MarkedAll(base[n], files, now).status.state == Fresh
      ensures base[n].status.state == Fresh
    {
      StaysFresh(base[n], files, now);
    }
  }

  lemma {:induction false} StaysFresh(node: Node, files: seq<FileRef>, now: int)
    ensures MarkedAll(node, files, now).status.state == Fresh ==> node.status.state == Fresh
  {
    if files != [] {
      StaysFresh(node, files[..|files| - 1], now);
    }
  }

  /** The nodes that were fresh and are stale. */
  function WentStale(before: Nodes, after: Nodes): set<Id> {
    set n | n in before && n in after && before[n].status.state == Fresh && after[n].status.state == Stale
  }

  lemma NoneListed(s: set<Id>)
    ensures s == {} ==> Enumerates([], s)
  {
  }

  lemma OneListed(order: seq<Id>, s: set<Id>, x: Id)
    requires Enumerates(order, s) && x !in s
    ensures Enumerates(order + [x], s + {x})
  {
  }

  /** Each node is listed once: what one file makes stale another does not again. */
  lemma StaleInTurn(base: Nodes, middle: Nodes, after: Nodes, change: FileRef, now: int, stale: seq<Id>, marked: seq<Id>)
    requires base.Keys == middle.Keys == after.Keys
    requires forall n :: n in middle && middle[n].status.state == Fresh ==> base[n].status.state == Fresh
    requires forall n :: n in middle ==> after[n] == Marked(middle[n], change, now)
    requires Enumerates(stale, WentStale(base, middle)) && Enumerates(marked, WentStale(middle, after))
    ensures Enumerates(stale + marked, WentStale(base, after))
  {
    hide Outdates;
    assert WentStale(base, after) == WentStale(base, middle) + WentStale(middle, after);
    forall i, j | 0 <= i < j < |stale + marked| ensures (stale + marked)[i] != (stale + marked)[j] {
      assert i < |stale| ==> stale[i] in stale;
      assert j >= |stale| ==> marked[j - |stale|] in marked;
    }
  }

  lemma WentStaleIs(base: Nodes, files: seq<FileRef>, now: int)
    ensures forall n :: n in WentStale(base, FilesChanged(base, files, now)) <==>
      && n in base && base[n].status.state == Fresh
      && exists i :: 0 <= i < |files| && SeenOtherwise(base[n], files[i])
  {
    hide SeenOtherwise, MarkedAll;
    forall n | n in base && base[n].status.state == Fresh
      ensures MarkedAll(base[n], files, now).status.state == Stale <==> exists i :: 0 <= i < |files| && SeenOtherwise(base[n], files[i])
    {
      FreshGoStale(base[n], files, now);
    }
  }

  /** The nodes each file in turn makes stale stand together: those of file `i` up to `ends[i + 1]`. */
  ghost predicate InFileOrder(base: Nodes, files: seq<FileRef>, now: int, stale: seq<Id>, ends: seq<nat>) {
    && |ends| == |files| + 1 && ends[0] == 0 && ends[|files|] == |stale|
    && forall i :: 0 <= i < |files| ==> ListsFile(base, files, now, stale, ends, i)
  }

  ghost predicate ListsFile(base: Nodes, files: seq<FileRef>, now: int, stale: seq<Id>, ends: seq<nat>, i: nat)
    requires i < |files| < |ends|
  {
    && ends[i] <= ends[i + 1] <= |stale|
    && Enumerates(stale[ends[i]..ends[i + 1]],
         WentStale(FilesChanged(base, files[..i], now), FilesChanged(base, files[..i + 1], now)))
  }

  lemma NextFile(base: Nodes, files: seq<FileRef>, file: FileRef, now: int, stale: seq<Id>, marked: seq<Id>, ends: seq<nat>)
    requires InFileOrder(base, files, now, stale, ends)
    requires Enumerates(marked, WentStale(FilesChanged(base, files, now), FilesChanged(base, files + [file], now)))
    ensures InFileOrder(base, files + [file], now, stale + marked, ends + [|stale + marked|])
  {
    hide FilesChanged, Enumerates, WentStale;
    var more, longer, further := files + [file], stale + marked, ends + [|stale + marked|];
    forall i | 0 <= i < |more| ensures ListsFile(base, more, now, longer, further, i) {
      if i < |files| {
        assert ListsFile(base, files, now, stale, ends, i);
        assert more[..i] == files[..i] && more[..i + 1] == files[..i + 1];
        assert longer[ends[i]..ends[i + 1]] == stale[ends[i]..ends[i + 1]];
      } else {
        assert more[..i] == files && more[..i + 1] == more;
        assert longer[|stale|..|longer|] == marked;
      }
    }
  }

  /** What folding rules leaves, in the order it folded them. */
  ghost predicate SettledTo(outside: Outside, before: Db, order: seq<Id>, now: int, after: Db, folded: nat,
                            start: seq<Change>, changes: seq<Change>) {
    && Settles(outside, before.nodes, order)
    && var w := SettleRules(outside, before, order, now);
       after == w.db && folded == w.value && changes == start + w.changes
  }

  lemma NothingLacks(outside: Outside, before: Db, start: seq<Change>, now: int)
    requires forall n :: n in before.nodes ==> !LacksFoldKey(before.nodes[n])
    ensures SettledTo(outside, before, [], now, before, 0, start, start)
  {
    hide LacksFoldKey;
    assert Rekeyed(outside, before.nodes) == before.nodes;
    assert start + [] == start;
  }

  lemma FoldedSettles(outside: Outside, before: Db, order: seq<Id>, now: int, after: Db, folded: nat,
                      start: seq<Change>, changes: seq<Change>)
    requires exists n :: n in before.nodes && LacksFoldKey(before.nodes[n])
    requires forall id :: id in order <==> Folds(Rekeyed(outside, before.nodes), id)
    requires forall i, j :: 0 <= i < j < |order| ==> order[i] != order[j]
    requires var nodes := Rekeyed(outside, before.nodes);
      FoldAll(before.(nodes := nodes), nodes, order, now).db == after
      && FoldAll(before.(nodes := nodes), nodes, order, now).value == folded
      && changes == start + FoldAll(before.(nodes := nodes), nodes, order, now).changes
    ensures SettledTo(outside, before, order, now, after, folded, start, changes)
  {
    hide Rekeyed, Folds, FoldAll;
  }

  /** `done` and the spare members of a group are those folded once the group is. */
  lemma GroupListed(base: Nodes, done: seq<Id>, spare: seq<Id>, members: set<Id>, keeper: Id, group: string)
    requires forall id :: id in done ==> Folds(base, id) && base[id].content.foldKey != Some(group)
    requires members <= base.Keys
    requires forall id :: id in spare <==> id in members && id != keeper && base[id].key.None?
    requires forall id :: id in members && id != keeper && base[id].key.None? <==> Folds(base, id) && base[id].content.foldKey == Some(group)
    requires forall i, j :: 0 <= i < j < |done| ==> done[i] != done[j]
    requires forall i, j :: 0 <= i < j < |spare| ==> spare[i] != spare[j]
    ensures forall id :: id in done + spare <==> id in done || (Folds(base, id) && base[id].content.foldKey == Some(group))
    ensures forall i, j :: 0 <= i < j < |done + spare| ==> (done + spare)[i] != (done + spare)[j]
  {
    hide Folds;
    forall i, j | 0 <= i < j < |done + spare| ensures (done + spare)[i] != (done + spare)[j] {
      if i < |done| <= j {
        assert done[i] in done && spare[j - |done|] in spare;
      }
    }
  }

  /** Folding other groups leaves a group as it was. */
  lemma GroupUntouched(outside: Outside, base: Db, done: seq<Id>, now: int, group: string)
    requires Valid(outside, base)
    requires forall id :: id in done ==> Folds(base.nodes, id) && base.nodes[id].content.foldKey != Some(group)
    requires forall i, j :: 0 <= i < j < |done| ==> done[i] != done[j]
    ensures var nodes := FoldAll(base, base.nodes, done, now).db.nodes;
      && SameRules(nodes, group) == SameRules(base.nodes, group)
      && forall n :: n in SameRules(nodes, group) ==> nodes[n] == base.nodes[n]
  {
    hide Valid, FoldAll, KeeperOf, SameRules;
    assert forall id :: id in done ==> id in base.nodes;
    hide Folds;
    FoldAllKeeps(outside, base, done, now);
    GroupSame(base.nodes, FoldAll(base, base.nodes, done, now).db.nodes, done, group);
  }

  lemma GroupSame(base: Nodes, nodes: Nodes, done: seq<Id>, group: string)
    requires nodes.Keys == base.Keys && forall n :: n in base && n !in done ==> nodes[n] == base[n]
    requires forall n :: n in done ==>
      n in base && base[n].content.foldKey != Some(group) && nodes[n].content.foldKey == base[n].content.foldKey
    ensures SameRules(nodes, group) == SameRules(base, group)
    ensures forall n :: n in SameRules(nodes, group) ==> nodes[n] == base[n]
  {
  }

  lemma NoMembers(nodes: Nodes, group: string)
    requires SameRules(nodes, group) == {}
    ensures forall id :: Folds(nodes, id) ==> nodes[id].content.foldKey != Some(group)
  {
    assert forall id :: id in SameRules(nodes, group) <==> IsCurrent(nodes, id) && nodes[id].content.foldKey == Some(group);
  }

  /** The unkeyed members of a group other than its first are exactly those that fold. */
  lemma SpareFold(base: Nodes, nodes: Nodes, members: set<Id>, keeper: Id, group: string)
    requires members == SameRules(nodes, group) == SameRules(base, group) && members != {}
    requires nodes.Keys == base.Keys && forall n :: n in members ==> nodes[n] == base[n]
    requires Orders(members, BetterKeeper(nodes)) && keeper == First(members, BetterKeeper(nodes))
    ensures forall id :: id in members && id != keeper && base[id].key.None? <==> Folds(base, id) && base[id].content.foldKey == Some(group)
    ensures forall id :: id in members ==> KeeperOf(base, id) == keeper
  {
    SameFirst(base, nodes, members, keeper);
    hide BetterKeeper;
    forall id ensures id in members <==> IsCurrent(base, id) && base[id].content.foldKey == Some(group) {
    }
  }

  lemma CurrentIsTop(outside: Outside, db: Db, keeper: Id, id: Id)
    requires Valid(outside, db) && IsCurrent(db.nodes, keeper) && keeper != id
    ensures Acyclic(LinksOf(db.nodes)) && !Reaches(LinksOf(db.nodes), keeper, id)
  {
  }

  lemma FoldAllMore(base: Db, order: seq<Id>, id: Id, now: int)
    requires Folds(base.nodes, id) && forall x :: x in order ==> Folds(base.nodes, x)
    ensures var before := FoldAll(base, base.nodes, order, now);
      && (forall x :: x in order + [id] ==> Folds(base.nodes, x))
      && FoldAll(base, base.nodes, order + [id], now)
        == Write(SupersedeDb(before.db, id, KeeperOf(base.nodes, id), FOLD_REASON, now), before.changes + [Flag(id, true)], before.value + 1)
  {
    var longer := order + [id];
    assert longer[..|longer| - 1] == order && longer[|longer| - 1] == id;
    forall x | x in longer ensures Folds(base.nodes, x) {
    }
    hide Folds, KeeperOf, SupersedeDb;
  }

  lemma SameFirst(base: Nodes, nodes: Nodes, members: set<Id>, keeper: Id)
    requires members != {} && members <= nodes.Keys && nodes.Keys == base.Keys && forall n :: n in members ==> nodes[n] == base[n]
    requires Orders(members, BetterKeeper(nodes)) && keeper == First(members, BetterKeeper(nodes))
    ensures Orders(members, BetterKeeper(base)) && keeper == First(members, BetterKeeper(base))
  {
    NodesOrdered(base, members);
    forall y | y in members && y != keeper ensures BetterKeeper(base)(keeper, y) {
      assert BetterKeeper(nodes)(keeper, y);
      assert IsBetterKeeper(nodes[keeper], keeper, nodes[y], y);
    }
    FirstIsUnique(members, BetterKeeper(base), keeper);
  }

  function Sourced(node: Node, recorded: NewNode): Node {
    node.(content := node.content.(
      sources := node.content.sources[SourceId(recorded.provenance) := SourceOf(recorded)]))
  }

  class Graph {
    var nodes: Nodes
    var edges: set<Edge>
    var next: Id
    /** The changes of the transaction so far. */
    var changes: seq<Change>

    ghost function Tables(): Db
      reads this
    {
      Db(nodes, edges, next)
    }

    constructor ()
      ensures Tables() == EMPTY && changes == []
    {
      nodes, edges, next, changes := map[], {}, 0, [];
    }

    // Recording.

    method FindExisting(outside: Outside, node: NewNode) returns (found: Option<Id>)
      requires UniqueKeys(nodes)
      ensures found == Existing(outside, nodes, node)
    {
      match node.key
      case Some(key) =>
        var holders := Holders(nodes, node.kind, key);
        if holders == {} {
          return None;
        }
        var id :| id in holders;
        OneHolder(nodes, node.kind, key, id);
        return Some(id);
      case None =>
        var fold := FoldKey(outside, node.kind, node.provenance.session, node.title, node.body);
        if fold.None? {
          return None;
        }
        var same := SameRules(nodes, fold.value);
        if same == {} {
          return None;
        }
        NodesOrdered(nodes, same);
        var id := FindFirst(same, Fresher(nodes));
        return Some(id);
    }

    method ArchiveNode(id: Id, reason: string, now: int) returns (copy: Id)
      requires id in nodes && next !in nodes && nodes[id].status.supersededBy != Some(id)
      modifies this
      ensures Tables() == Archive(old(Tables()), id, reason, now).db
      ensures changes == old(changes) + Archive(old(Tables()), id, reason, now).changes
      ensures copy == old(next)
    {
      hide ArchiveEdges;
      copy := next;
      var rows := nodes[copy := SupersededNode(nodes[id], id, reason, now)];
      var joins := edges + set e | e in edges && e.source == id && e.kind == DecidedIn :: Edge(copy, e.target, DecidedIn);
      rows := map n | n in rows ::
        if rows[n].status.supersededBy == Some(id) && n != copy then Under(rows[n], copy) else rows[n];
      joins := (set e | e in joins && !(e.source == id && e.kind == Supersedes))
        + (set e | e in joins && e.source == id && e.kind == Supersedes :: Edge(copy, e.target, Supersedes));
      joins := joins + {Edge(id, copy, Supersedes)};
      assert rows == ArchiveNodes(nodes, id, copy, reason, now);
      ArchivedEdges(edges, id, copy, joins);
      nodes, edges, next := rows, joins, copy + 1;
      if HasVector(nodes[copy]) {
        changes := changes + [Set(copy, nodes[copy].kind, true, nodes[copy].content.embedding.value)];
      }
    }

    /** The node stored as `id` counts the recording among its sources, with the files this one lists. */
    method AddSource(id: Id, node: NewNode)
      requires id in nodes
      modifies this`nodes
      ensures nodes == old(nodes)[id := Sourced(old(nodes)[id], node)]
    {
      var files: Files := map[];
      for i := 0 to |node.files|
        invariant files == FilesOf(node.files[..i])
      {
        files := files[node.files[i].path := node.files[i].hash];
        assert node.files[..i + 1][..i] == node.files[..i];
      }
      assert node.files[..|node.files|] == node.files;
      var content := nodes[id].content;
      nodes := nodes[id := nodes[id].(content := content.(
        sources := content.sources[SourceId(node.provenance) := Source(node.provenance, files)]))];
    }

    method RecordNode(outside: Outside, node: NewNode, embedding: Option<Blob>, now: int) returns (id: Id)
      requires UniqueKeys(nodes) && next !in nodes
      requires forall n :: IsCurrent(nodes, n) ==> nodes[n].status.supersededBy.None?
      modifies this
      ensures var w := Record(outside, old(Tables()), node, embedding, now);
        Tables() == w.db && changes == old(changes) + w.changes && id == w.value
    {
      var fold := FoldKey(outside, node.kind, node.provenance.session, node.title, node.body);
      var existing := FindExisting(outside, node);
      if existing.Some? {
        id := existing.value;
        if node.key.None? || (nodes[id].content.title == node.title && nodes[id].content.body == node.body) {
          ConfirmNode(id, node, embedding, now);
        } else {
          RewriteNode(outside, id, node, fold, embedding, now);
        }
      } else {
        id := next;
        InsertNode(id, node, fold, embedding, now);
      }
    }

    method ConfirmNode(id: Id, node: NewNode, embedding: Option<Blob>, now: int)
      requires id in nodes
      modifies this
      ensures var w := Confirm(old(Tables()), id, node, embedding, now);
        Tables() == w.db && changes == old(changes) + w.changes
    {
      var kept := if node.key.Some? then embedding else None;
      var found := nodes[id];
      nodes := nodes[id := found.(
        status := found.status.(state := Fresh, staleReason := None, staleSince := None),
        content := found.content.(
          provenance := node.provenance, updated := now, expires := node.expires,
          embedding := if kept.Some? then kept else found.content.embedding,
          embedModel := if kept.Some? then Some(MODEL_ID) else found.content.embedModel))];
      if kept.Some? {
        changes := changes + [Set(id, node.kind, false, kept.value)];
      }
      AddSource(id, node);
    }

    /** Rules and choices keep their old text as a version. */
    method KeepVersion(outside: Outside, id: Id, node: NewNode, now: int)
      requires id in nodes && next !in nodes && nodes[id].status.supersededBy.None?
      modifies this
      ensures var w := if KeepsHistory(node.kind) then Archive(old(Tables()), id, RewriteReason(old(nodes)[id], node), now)
                       else Write(old(Tables()), [], id);
        Tables() == w.db && changes == old(changes) + w.changes
      ensures id in nodes && nodes[id] == old(nodes)[id]
    {
      if KeepsHistory(node.kind) {
        var reason := "rewritten by " + OriginLabel(node.provenance.origin);
        if nodes[id].status.staleReason.Some? {
          reason := reason + ("; it was stale: " + nodes[id].status.staleReason.value);
        }
        assert reason == RewriteReason(nodes[id], node);
        var _ := ArchiveNode(id, reason, now);
      }
    }

    method RewriteNode(outside: Outside, id: Id, node: NewNode, fold: Option<string>, embedding: Option<Blob>, now: int)
      requires id in nodes && next !in nodes && nodes[id].status.supersededBy.None?
      requires fold == FoldKey(outside, node.kind, node.provenance.session, node.title, node.body)
      modifies this
      ensures var w := Rewrite(outside, old(Tables()), id, node, embedding, now);
        Tables() == w.db && changes == old(changes) + w.changes
    {
      hide FoldKey, RewriteReason;
      var found := nodes[id];
      KeepVersion(outside, id, node, now);
      assert nodes[id] == found;
      nodes := nodes[id := found.(
        status := found.status.(state := Fresh, staleReason := None, staleSince := None, supersededBy := None),
        content := found.content.(
          title := node.title, body := node.body, provenance := node.provenance, updated := now,
          expires := node.expires, embedding := embedding, embedModel := ModelOf(embedding), foldKey := fold))];
      changes := changes + [EmbeddingChange(id, node.kind, embedding)];
      // The words are new, so no other source backs them.
      nodes := nodes[id := nodes[id].(content := nodes[id].content.(sources := map[]))];
      AddSource(id, node);
    }

    method InsertNode(id: Id, node: NewNode, fold: Option<string>, embedding: Option<Blob>, now: int)
      requires id == next && next !in nodes
      modifies this
      ensures nodes == old(nodes)[id := Created(node, fold, embedding, now)]
      ensures edges == old(edges) && next == id + 1
      ensures changes == old(changes) + [EmbeddingChange(id, node.kind, embedding)]
    {
      nodes := nodes[id := Created(node, fold, embedding, now).(content := Created(node, fold, embedding, now).content.(sources := map[]))];
      next := next + 1;
      changes := changes + [EmbeddingChange(id, node.kind, embedding)];
      AddSource(id, node);
    }

    // Linking and superseding.

    method ResolveEnd(end: Endpoint) returns (r: Result<Id>)
      ensures r == Resolve(nodes, end)
    {
      match end
      case ById(id) =>
        return if id in nodes then Ok(id) else Err(NotFound);
      case ByKey(key) =>
        var ids := KeyHolders(nodes, key);
        if ids == {} {
          return Err(NotFound);
        }
        var id :| id in ids;
        return if ids == {id} then Ok(id) else Err(Invalid);
    }

    /** On an error the caller rolls the transaction back. */
    method LinkAll(added: seq<NewEdge>) returns (r: Result<()>)
      modifies this`edges
      ensures r.Ok? <==> Link(old(Tables()), added).Ok?
      ensures r.Ok? ==> Tables() == Link(old(Tables()), added).value
      ensures r.Err? ==> r.error == Link(old(Tables()), added).error
    {
      ghost var before := Tables();
      for i := 0 to |added|
        invariant Link(before, added[..i]) == Ok(Tables()) && nodes == before.nodes
      {
        assert added[..i + 1][..i] == added[..i];
        var from := ResolveEnd(added[i].source);
        var to := ResolveEnd(added[i].target);
        if from.Err? || to.Err? {
          LinkFails(before, added, i);
          return Err(if from.Err? then from.error else to.error);
        }
        if from.value == to.value {
          LinkFails(before, added, i);
          return Err(Invalid);
        }
        edges := edges + {Edge(from.value, to.value, added[i].kind)};
      }
      assert added[..|added|] == added;
      return Ok(());
    }

    /** The structural edges from each of `sources` give way to `added`. */
    method RelinkStructure(sources: seq<Endpoint>, added: seq<NewEdge>) returns (r: Result<()>)
      modifies this`edges
      ensures r.Ok? <==> Relink(old(Tables()), sources, added).Ok?
      ensures r.Ok? ==> Tables() == Relink(old(Tables()), sources, added).value
      ensures r.Err? ==> r.error == Relink(old(Tables()), sources, added).error
    {
      ghost var before := Tables();
      for i := 0 to |sources|
        invariant Cleared(before, sources[..i]) == Ok(Tables()) && nodes == before.nodes
      {
        assert sources[..i + 1][..i] == sources[..i];
        var from := ResolveEnd(sources[i]);
        if from.Err? {
          ClearFails(before, sources, i);
          return Err(from.error);
        }
        edges := set e | e in edges && !IsStructure(nodes, e, from.value);
      }
      assert sources[..|sources|] == sources;
      r := LinkAll(added);
    }

    /** Runs the two insertions that give `TakenOver`. */
    method CopyCurrentEdges(from: Id, to: Id)
      modifies this`edges
      ensures edges == old(edges) + TakenOver(old(edges), from, to)
    {
      var leaving := set e | e in edges && e.source == from && e.target != to && IsCurrentEdge(e.kind) :: Edge(to, e.target, e.kind);
      var arriving := set e | e in edges + leaving && e.target == from && e.source != to && IsCurrentEdge(e.kind) :: Edge(e.source, to, e.kind);
      assert arriving == set e | e in edges && e.target == from && e.source != to && IsCurrentEdge(e.kind) :: Edge(e.source, to, e.kind);
      edges := edges + leaving + arriving;
    }

    /** Whether `later`'s chain passes `earlier`, walking it link by link. */
    method PassesThrough(later: Id, earlier: Id) returns (loops: bool)
      requires Acyclic(LinksOf(nodes)) && later != earlier
      ensures loops == Reaches(LinksOf(nodes), later, earlier)
    {
      ghost var links := LinksOf(nodes);
      var at, seen: set<Id> := later, {};
      while at in nodes && nodes[at].status.supersededBy.Some? && nodes[at].status.supersededBy.value !in seen
        invariant at != earlier && Reaches(links, later, earlier) == Reaches(links, at, earlier)
        invariant forall s :: s in seen ==> RankOf(links, at) <= RankOf(links, s)
        decreases RankOf(links, at)
      {
        var above := nodes[at].status.supersededBy.value;
        seen := seen + {above};
        if above == earlier {
          return true;
        }
        at := above;
      }
      return false;
    }

    method SupersedeNode(earlier: Endpoint, later: Endpoint, reason: string, now: int) returns (r: Result<()>)
      requires Acyclic(LinksOf(nodes))
      modifies this
      ensures r.Ok? <==> Supersede(old(Tables()), earlier, later, reason, now).Ok?
      ensures r.Ok? ==> var w := Supersede(old(Tables()), earlier, later, reason, now).value;
        Tables() == w.db && changes == old(changes) + w.changes
      ensures r.Err? ==> r.error == Supersede(old(Tables()), earlier, later, reason, now).error
      ensures r.Err? ==> Tables() == old(Tables())
    {
      var from := ResolveEnd(earlier);
      var to := ResolveEnd(later);
      if from.Err? {
        return Err(from.error);
      }
      if to.Err? {
        return Err(to.error);
      }
      if from.value == to.value {
        return Err(Invalid);
      }
      var loops := PassesThrough(to.value, from.value);
      if loops {
        return Err(Invalid);
      }
      MarkSuperseded(from.value, to.value, reason, now);
      return Ok(());
    }

    method MarkSuperseded(id: Id, later: Id, reason: string, now: int)
      requires id in nodes
      modifies this
      ensures Tables() == SupersedeDb(old(Tables()), id, later, reason, now)
      ensures changes == old(changes) + [Flag(id, true)]
    {
      nodes := nodes[id := SupersededNode(nodes[id], later, reason, now)];
      CopyCurrentEdges(id, later);
      edges := edges + {Edge(later, id, Supersedes)};
      changes := changes + [Flag(id, true)];
    }

    /** Hangs `children` off `parent`. */
    method Repoint(children: seq<Id>, parent: Id)
      requires ToSet(children) <= nodes.Keys
      modifies this`nodes, this`edges
      ensures nodes == Repointed(old(nodes), ToSet(children), parent)
      ensures edges == old(edges) + ChildEdges(parent, ToSet(children))
    {
      ghost var before := nodes;
      for i := 0 to |children|
        invariant nodes == Repointed(before, ToSet(children[..i]), parent)
        invariant edges == old(edges) + ChildEdges(parent, ToSet(children[..i]))
      {
        assert children[i] in ToSet(children);
        ToSetOfPrefix(children, i);
        nodes := nodes[children[i] := Under(nodes[children[i]], parent)];
        edges := edges + {Edge(parent, children[i], Supersedes)};
      }
      ToSetOfAll(children);
    }

    // Deleting and forgetting.

    /** The doomed versions hand their own versions up; the doomed current nodes are listed. */
    method HandUp(doomed: seq<Id>) returns (current: seq<Id>)
      requires Shaped(nodes) && Joined(nodes, edges)
      modifies this`nodes, this`edges
      ensures nodes == Lift(old(nodes), ToSet(doomed)) && current == CurrentOf(old(nodes), doomed)
      ensures Facts(edges) == Facts(old(edges)) && EdgesFollow(edges, old(edges), nodes, ToSet(doomed))
    {
      ghost var base, joins, gone := nodes, edges, ToSet(doomed);
      LiftNothing(nodes);
      current := [];
      for i := 0 to |doomed|
        invariant nodes == Lift(base, ToSet(doomed[..i])) && current == CurrentOf(base, doomed[..i])
        invariant Facts(edges) == Facts(joins) && EdgesFollow(edges, joins, nodes, gone)
      {
        var id := doomed[i];
        ToSetOfPrefix(doomed, i);
        assert doomed[..i + 1][..i] == doomed[..i];
        if id in nodes && nodes[id].status.state == Superseded && nodes[id].status.supersededBy.Some? {
          LiftOne(base, ToSet(doomed[..i]), id);
          var below := Enumerate(Children(nodes, id));
          assert ToSet(below) == Children(nodes, id);
          RepointFollows(edges, joins, nodes, gone, ToSet(below), nodes[id].status.supersededBy.value);
          ChildrenAreNoFacts(edges, nodes[id].status.supersededBy.value, ToSet(below));
          hide Lift, EdgesFollow, Facts;
          Repoint(below, nodes[id].status.supersededBy.value);
        } else {
          LiftNone(base, ToSet(doomed[..i]), id);
          hide Lift;
          if id in nodes {
            current := current + [id];
          }
        }
      }
      ToSetOfAll(doomed);
    }

    method Unkey(ids: seq<Id>)
      modifies this`nodes
      ensures nodes == Unkeyed(old(nodes), ToSet(ids))
    {
      ghost var base := nodes;
      for i := 0 to |ids|
        invariant nodes == Unkeyed(base, ToSet(ids[..i]))
      {
        ToSetOfPrefix(ids, i);
        if ids[i] in nodes {
          nodes := nodes[ids[i] := nodes[ids[i]].(key := None)];
        }
      }
      ToSetOfAll(ids);
    }

    /** A doomed current node's versions: the latest is current again, or a holder of its key
        takes them all. */
    method SettleOne(id: Id, gone: set<Id>, now: int, ghost r: Revival, ghost base: set<Edge>, ghost start: seq<Change>)
      requires UniqueKeys(nodes) && id in gone
      requires r.nodes == nodes && r.facts == Facts(edges) && changes == start + r.changes
      requires EdgesFollow(edges, base, nodes, gone)
      modifies this
      ensures var s := Settle(r, gone, id, now); s.nodes == nodes && s.facts == Facts(edges) && changes == start + s.changes
      ensures EdgesFollow(edges, base, nodes, gone) && next == old(next)
    {
      var versions := Children(nodes, id) - gone;
      if versions == {} {
        return;
      }
      NodesOrdered(nodes, versions);
      var latest := FindFirst(versions, LaterVersion(nodes));
      var heirs := Heirs(nodes, gone, nodes[latest].kind, nodes[latest].key);
      if heirs != {} {
        var heir :| heir in heirs;
        OneHolder(nodes, nodes[latest].kind, nodes[latest].key.value, heir);
        assert heir == PickOne(heirs);
        MoveVersions(versions, heir, gone, base);
      } else {
        RestoreLatest(id, versions - {latest}, latest, gone, now, base);
      }
    }

    method MoveVersions(versions: set<Id>, parent: Id, ghost gone: set<Id>, ghost base: set<Edge>)
      requires EdgesFollow(edges, base, nodes, gone) && versions <= nodes.Keys
      requires forall c :: c in versions ==> nodes[c].status.supersededBy.Some? && nodes[c].status.supersededBy.value in gone
      modifies this`nodes, this`edges
      ensures nodes == Repointed(old(nodes), versions, parent) && Facts(edges) == Facts(old(edges))
      ensures EdgesFollow(edges, base, nodes, gone)
    {
      var children := Enumerate(versions);
      assert ToSet(children) == versions;
      RepointFollows(edges, base, nodes, gone, versions, parent);
      ChildrenAreNoFacts(edges, parent, versions);
      hide EdgesFollow, Facts;
      Repoint(children, parent);
    }

    method RestoreLatest(id: Id, others: set<Id>, latest: Id, ghost gone: set<Id>, now: int, ghost base: set<Edge>)
      requires EdgesFollow(edges, base, nodes, gone) && others <= nodes.Keys && latest in nodes && latest !in others
      requires id in gone && nodes[latest].status.supersededBy == Some(id)
      requires forall c :: c in others ==> nodes[c].status.supersededBy == Some(id)
      modifies this
      ensures nodes == Revived(old(nodes), others, latest, now)
      ensures Facts(edges) == Facts(old(edges)) + TakenOver(Facts(old(edges)), id, latest)
      ensures changes == old(changes) + [Flag(latest, false)] && next == old(next)
      ensures EdgesFollow(edges, base, nodes, gone)
    {
      ghost var before := nodes;
      RestoreFollows(edges, base, nodes, gone, latest, now);
      nodes := nodes[latest := Restored(nodes[latest], now)];
      TakenOverAreFacts(edges, base, nodes, gone, id, latest);
      hide EdgesFollow, Facts, TakenOver;
      CopyCurrentEdges(id, latest);
      MoveVersions(others, latest, gone, base);
      assert nodes == Revived(before, others, latest, now);
      changes := changes + [Flag(latest, false)];
    }

    /** Runs the three phases of `Revive`: handing up, unkeying and settling. */
    method ReviveHistory(doomed: seq<Id>, now: int)
      requires Shaped(nodes) && UniqueKeys(nodes) && Reasoned(nodes) && Joined(nodes, edges)
      modifies this
      ensures var r := Revive(old(Tables()), doomed, now);
        nodes == r.nodes && Facts(edges) == r.facts && changes == old(changes) + r.changes
      ensures EdgesFollow(edges, old(edges), nodes, ToSet(doomed)) && next == old(next)
    {
      hide UniqueKeys, Reasoned, HandedOn, SameNodes, Acyclic;
      ghost var base, joins := nodes, edges;
      var gone := ToSet(doomed);
      ReviveStarts(base, doomed);
      CurrentOfIs(base, doomed);
      var current := HandUp(doomed);
      Unkeying(nodes, ToSet(current), edges, joins, gone);
      hide EdgesFollow;
      Unkey(current);
      hide Shaped, Joined;
      SettleCurrents(base, joins, gone, current, now);
    }

    method SettleCurrents(ghost base: Nodes, ghost joins: set<Edge>, gone: set<Id>, current: seq<Id>, now: int)
      requires Midway(base, nodes, gone, {}) && EdgesFollow(edges, joins, nodes, gone) && ToSet(current) <= gone
      modifies this
      ensures var r := SettleAll(Revival(old(nodes), Facts(old(edges)), []), gone, current, now);
        nodes == r.nodes && Facts(edges) == r.facts && changes == old(changes) + r.changes
      ensures EdgesFollow(edges, joins, nodes, gone) && next == old(next)
    {
      hide Shaped, UniqueKeys, Reasoned, HandedOn, SameNodes, EdgesFollow, Facts;
      ghost var r0 := Revival(nodes, Facts(edges), []);
      ghost var start := changes;
      for i := 0 to |current|
        invariant var r := SettleAll(r0, gone, current[..i], now);
          r.nodes == nodes && r.facts == Facts(edges) && changes == start + r.changes
        invariant EdgesFollow(edges, joins, nodes, gone) && next == old(next)
      {
        SettleAllMidway(base, r0, gone, current[..i], now);
        assert current[..i + 1][..i] == current[..i];
        assert current[i] in ToSet(current);
        hide Settle;
        SettleOne(current[i], gone, now, SettleAll(r0, gone, current[..i], now), joins, start);
      }
      ToSetOfAll(current);
    }

    /** Deletes `doomed`, their edges with them. */
    method DropAll(doomed: seq<Id>, now: int)
      requires Shaped(nodes) && UniqueKeys(nodes) && Reasoned(nodes) && Joined(nodes, edges)
      modifies this
      ensures var w := Drop(old(Tables()), doomed, now); Tables() == w.db && changes == old(changes) + w.changes
    {
      ghost var before := Tables();
      ghost var r := Revive(before, doomed, now);
      DropNodes(before, doomed, now);
      hide UniqueKeys, Reasoned;
      ReviveHistory(doomed, now);
      FinalEdges(edges, before.edges, nodes, ToSet(doomed), r.facts);
      hide Revive, EdgesFollow, Facts, Sups, LinkEdges, Shaped, Joined;
      var changed := changes;
      DeleteRows(doomed);
      changes := changed + Removals(doomed);
    }

    method DeleteRows(doomed: seq<Id>)
      modifies this`nodes, this`edges
      ensures nodes == Without(old(nodes), ToSet(doomed)) && edges == Apart(old(edges), ToSet(doomed))
    {
      ghost var base, joins := nodes, edges;
      assert nodes == Without(base, ToSet([])) && edges == Apart(joins, ToSet([]));
      for i := 0 to |doomed|
        invariant nodes == Without(base, ToSet(doomed[..i])) && edges == Apart(joins, ToSet(doomed[..i]))
      {
        ToSetOfPrefix(doomed, i);
        nodes := nodes - {doomed[i]};
        edges := set e | e in edges && e.source != doomed[i] && e.target != doomed[i];
      }
      ToSetOfAll(doomed);
    }

    method DeleteNode(id: Id, now: int) returns (r: Result<()>)
      requires Shaped(nodes) && UniqueKeys(nodes) && Reasoned(nodes) && Joined(nodes, edges)
      modifies this
      ensures r.Ok? <==> Delete(old(Tables()), id, now).Ok?
      ensures r.Ok? ==> var w := Delete(old(Tables()), id, now).value; Tables() == w.db && changes == old(changes) + w.changes
      ensures r.Err? ==> r.error == NotFound
    {
      var stored := id in nodes;
      DropAll([id], now);
      return if stored then Ok(()) else Err(NotFound);
    }

    /** Runs `DropUnsupported` over the nodes listed. */
    method DropUnsupportedNodes(affected: seq<Id>, now: int) returns (went: nat)
      requires Shaped(nodes) && UniqueKeys(nodes) && Reasoned(nodes) && Joined(nodes, edges)
      modifies this
      ensures var w := DropUnsupported(old(Tables()), affected, now);
        Tables() == w.db && changes == old(changes) + w.changes && went == w.value
    {
      ghost var before := Tables();
      var doomed: seq<Id>, kept: seq<Id> := [], [];
      for i := 0 to |affected|
        invariant doomed == Unsupported(nodes, affected[..i]) && kept == Kept(nodes, affected[..i])
      {
        assert affected[..i + 1][..i] == affected[..i];
        if affected[i] in nodes && nodes[affected[i]].content.sources != map[] {
          kept := kept + [affected[i]];
        } else {
          doomed := doomed + [affected[i]];
        }
      }
      ToSetOfAll(affected);
      KeptIs(nodes, affected);
      ShowLatest(kept);
      assert nodes == Shown(before.nodes, ToSet(affected));
      ShownStill(before.nodes, ToSet(affected), edges);
      hide Shaped, UniqueKeys, Reasoned, Joined, Shown, Unsupported;
      DropAll(doomed, now);
      went := |doomed|;
    }

    method ShowLatest(kept: seq<Id>)
      requires forall id :: id in kept ==> id in nodes && nodes[id].content.sources != map[]
      modifies this`nodes
      ensures nodes == Shown(old(nodes), ToSet(kept))
    {
      ghost var base := nodes;
      for i := 0 to |kept|
        invariant nodes == Shown(base, ToSet(kept[..i]))
      {
        ToSetOfPrefix(kept, i);
        var id := kept[i];
        assert id in kept;
        var sources := nodes[id].content.sources;
        SourcesOrdered(sources);
        var latest := FindFirst(sources.Keys, NewerSource(sources));
        nodes := nodes[id := nodes[id].(content := nodes[id].content.(provenance := sources[latest].provenance))];
        ShownOnce(base, ToSet(kept[..i]), id);
      }
      ToSetOfAll(kept);
    }

    /** Takes away the sources of `selection` from the nodes the query lists. */
    method StripSources(affected: seq<Id>, selection: Selection)
      modifies this`nodes
      ensures nodes == Stripped(old(nodes), ToSet(affected), selection)
    {
      ghost var base := nodes;
      assert nodes == Stripped(base, ToSet([]), selection);
      for i := 0 to |affected|
        invariant nodes == Stripped(base, ToSet(affected[..i]), selection)
      {
        ToSetOfPrefix(affected, i);
        var id := affected[i];
        if id in nodes {
          StrippedOnce(base, ToSet(affected[..i]), selection, id);
          nodes := nodes[id := nodes[id].(content := nodes[id].content.(
            sources := Forgotten(nodes[id].content.sources, selection)))];
        }
      }
      ToSetOfAll(affected);
    }

    method ReleaseSources(affected: seq<Id>, selection: Selection, now: int) returns (went: nat)
      requires Shaped(nodes) && UniqueKeys(nodes) && Reasoned(nodes) && Joined(nodes, edges)
      modifies this
      ensures var w := Release(old(Tables()), selection, affected, now);
        Tables() == w.db && changes == old(changes) + w.changes && went == w.value
    {
      StrippedStill(nodes, affected, selection, edges);
      hide Shaped, UniqueKeys, Reasoned, Joined, DropUnsupported, Stripped;
      StripSources(affected, selection);
      went := DropUnsupportedNodes(affected, now);
    }

    /** Forgets a session or an origin; `order` is how the query listed the nodes it supports. */
    method Forget(selection: Selection, now: int) returns (went: nat, order: seq<Id>)
      requires Shaped(nodes) && UniqueKeys(nodes) && Reasoned(nodes) && Joined(nodes, edges)
      modifies this
      ensures Enumerates(order, Affected(old(nodes), selection))
      ensures var w := Release(old(Tables()), selection, order, now);
        Tables() == w.db && changes == old(changes) + w.changes && went == w.value
    {
      order := Enumerate(Affected(nodes, selection));
      went := ReleaseSources(order, selection, now);
    }

    /** A task's current nodes it did not record again lose its support. */
    method ReleaseTask(task: string, recorded: seq<Id>, now: int) returns (went: nat, order: seq<Id>)
      requires Shaped(nodes) && UniqueKeys(nodes) && Reasoned(nodes) && Joined(nodes, edges)
      modifies this
      ensures Enumerates(order, Unrecorded(old(nodes), task, ToSet(recorded)))
      ensures var w := Release(old(Tables()), OfTask(task), order, now);
        Tables() == w.db && changes == old(changes) + w.changes && went == w.value
    {
      order := Enumerate(Unrecorded(nodes, task, ToSet(recorded)));
      went := ReleaseSources(order, OfTask(task), now);
    }

    // Freshness and embeddings.

    /** Marks what each file in turn outdates, and lists the nodes that were fresh till then. */
    method ChangeFiles(files: seq<FileRef>, now: int) returns (stale: seq<Id>, ghost ends: seq<nat>)
      modifies this`nodes
      ensures nodes == FilesChanged(old(nodes), files, now)
      ensures Enumerates(stale, WentStale(old(nodes), nodes))
      ensures InFileOrder(old(nodes), files, now, stale, ends)
      ensures forall n :: n in stale <==>
        && n in old(nodes) && old(nodes)[n].status.state == Fresh
        && exists i :: 0 <= i < |files| && SeenOtherwise(old(nodes)[n], files[i])
    {
      ghost var base := nodes;
      stale, ends := [], [0];
      FilesUnchanged(base, now);
      for i := 0 to |files|
        invariant nodes == FilesChanged(base, files[..i], now)
        invariant Enumerates(stale, WentStale(base, nodes))
        invariant InFileOrder(base, files[..i], now, stale, ends)
      {
        ghost var middle := nodes;
        assert files[..i + 1][..i] == files[..i];
        var marked := ChangeFile(files[i], now);
        FilesChangedOnce(base, files, i, now);
        FreshBefore(base, files[..i], now);
        StaleInTurn(base, middle, nodes, files[i], now, stale, marked);
        NextFile(base, files[..i], files[i], now, stale, marked, ends);
        assert files[..i] + [files[i]] == files[..i + 1];
        stale, ends := stale + marked, ends + [|stale + marked|];
      }
      assert files[..|files|] == files;
      WentStaleIs(base, files, now);
    }

    /** The rows the query lists for one file, one after another. */
    method ChangeFile(change: FileRef, now: int) returns (stale: seq<Id>)
      modifies this`nodes
      ensures nodes.Keys == old(nodes).Keys && forall n :: n in nodes ==> nodes[n] == Marked(old(nodes)[n], change, now)
      ensures Enumerates(stale, WentStale(old(nodes), nodes))
    {
      hide Outdates, Enumerates;
      ghost var base := nodes;
      stale := [];
      NoneListed(WentStale(base, nodes));
      var rest := set n | n in nodes && nodes[n].status.state != Stale && Outdates(nodes[n], change);
      var reason := ChangeReason(change);
      while rest != {}
        invariant forall n :: n in rest ==> n in base && base[n].status.state != Stale && Outdates(base[n], change)
        invariant nodes.Keys == base.Keys
        invariant forall n :: n in nodes ==> nodes[n] == if n in rest then base[n] else Marked(base[n], change, now)
        invariant Enumerates(stale, WentStale(base, nodes))
        decreases rest
      {
        var id :| id in rest;
        rest := rest - {id};
        var node := nodes[id];
        ghost var middle := nodes;
        if node.status.state == Fresh {
          node := GoneStale(node, reason, now);
          nodes := nodes[id := node];
          assert WentStale(base, nodes) == WentStale(base, middle) + {id};
          OneListed(stale, WentStale(base, middle), id);
          stale := stale + [id];
        } else {
          if node.status.staleReason.None? {
            node := node.(status := node.status.(staleReason := Some(reason), staleSince := Some(now)));
          }
          nodes := nodes[id := node];
          assert WentStale(base, nodes) == WentStale(base, middle);
        }
        assert node == Marked(base[id], change, now);
      }
    }

    method ExpireNodes(now: int) returns (expired: set<Id>)
      modifies this`nodes
      ensures nodes == Expire(old(nodes), now)
      ensures expired == WentStale(old(nodes), nodes)
    {
      expired := set n | n in nodes && Expired(nodes[n], now) && nodes[n].status.state == Fresh;
      nodes := map n | n in nodes :: if n in expired then GoneStale(nodes[n], "older than its TTL", now) else nodes[n];
    }

    /** Each embedding is stored beside exactly the words it was made from, or not at all. */
    method StoreEmbeddings(batch: seq<Embedded>) returns (stored: nat)
      modifies this
      ensures var w := SetEmbeddings(old(Tables()), batch);
        Tables() == w.db && changes == old(changes) + w.changes && stored == w.value
    {
      ghost var before, start := Tables(), changes;
      stored := 0;
      for i := 0 to |batch|
        invariant var w := SetEmbeddings(before, batch[..i]); Tables() == w.db && changes == start + w.changes && stored == w.value
      {
        assert batch[..i + 1][..i] == batch[..i];
        var item := batch[i];
        if item.id in nodes && nodes[item.id].content.title == item.title && nodes[item.id].content.body == item.body {
          var node := nodes[item.id];
          nodes := nodes[item.id := WithEmbedding(node, item.blob)];
          changes := changes + [Set(item.id, node.kind, node.status.state == Superseded, item.blob)];
          stored := stored + 1;
        }
      }
      assert batch[..|batch|] == batch;
    }

    // Folding rules.

    /** Gives rules recorded without a fold key theirs, then folds unkeyed rules others say
        already. `order` is the order they were folded in. */
    method SettleRulesNow(outside: Outside, now: int) returns (folded: nat, order: seq<Id>)
      requires Valid(outside, Tables())
      modifies this
      ensures SettledTo(outside, old(Tables()), order, now, Tables(), folded, old(changes), changes)
    {
      ghost var before, start := Tables(), changes;
      hide Valid, SettledTo;
      var lacking := set n | n in nodes && LacksFoldKey(nodes[n]);
      if lacking == {} {
        assert forall n :: n in lacking <==> n in nodes && LacksFoldKey(nodes[n]);
        NothingLacks(outside, before, start, now);
        return 0, [];
      }
      assert exists n :: n in nodes && LacksFoldKey(nodes[n]) by {
        var n :| n in lacking;
      }
      hide Rekeyed, LacksFoldKey, Folds, FoldAll;
      RekeyedKeeps(outside, Tables());
      SetFoldKeys(outside, lacking);
      folded, order := FoldGroups(outside, now);
      FoldedSettles(outside, before, order, now, Tables(), folded, start, changes);
    }

    method SetFoldKeys(outside: Outside, lacking: set<Id>)
      requires lacking == set n | n in nodes && LacksFoldKey(nodes[n])
      modifies this`nodes
      ensures nodes == Rekeyed(outside, old(nodes))
    {
      ghost var base := nodes;
      var rest := lacking;
      while rest != {}
        invariant rest <= lacking && nodes.Keys == base.Keys
        invariant forall n :: n in nodes ==>
          nodes[n] == if n in lacking - rest then base[n].(content := WithFoldKey(outside, base[n].kind, base[n].content)) else base[n]
        decreases rest
      {
        var id :| id in rest;
        rest := rest - {id};
        nodes := nodes[id := nodes[id].(content := WithFoldKey(outside, nodes[id].kind, nodes[id].content))];
      }
    }

    /** Runs `SettleRules`, one fold key after another. */
    method FoldGroups(outside: Outside, now: int) returns (folded: nat, order: seq<Id>)
      requires Valid(outside, Tables())
      modifies this
      ensures forall id :: id in order <==> Folds(old(nodes), id)
      ensures forall i, j :: 0 <= i < j < |order| ==> order[i] != order[j]
      ensures var w := FoldAll(old(Tables()), old(nodes), order, now);
        Tables() == w.db && changes == old(changes) + w.changes && folded == w.value
    {
      ghost var base, start := Tables(), changes;
      folded, order := 0, [];
      var groups := set n | n in nodes && IsCurrent(nodes, n) && nodes[n].content.foldKey.Some? :: nodes[n].content.foldKey.value;
      var rest := groups;
      while rest != {}
        invariant rest <= groups
        invariant forall id :: id in order <==> Folds(base.nodes, id) && base.nodes[id].content.foldKey.value !in rest
        invariant forall i, j :: 0 <= i < j < |order| ==> order[i] != order[j]
        invariant var w := FoldAll(base, base.nodes, order, now);
          Tables() == w.db && changes == start + w.changes && folded == w.value
        decreases rest
      {
        var group :| group in rest;
        rest := rest - {group};
        ghost var before := order;
        folded, order := FoldGroup(outside, group, now, base, start, folded, order);
      }
      assert forall id :: Folds(base.nodes, id) ==> base.nodes[id].content.foldKey.value in groups;
    }

    method FoldGroup(outside: Outside, group: string, now: int, ghost base: Db, ghost start: seq<Change>,
                     soFar: nat, done: seq<Id>) returns (folded: nat, order: seq<Id>)
      requires Valid(outside, base)
      requires forall id :: id in done ==> Folds(base.nodes, id) && base.nodes[id].content.foldKey != Some(group)
      requires forall i, j :: 0 <= i < j < |done| ==> done[i] != done[j]
      requires var w := FoldAll(base, base.nodes, done, now);
        Tables() == w.db && changes == start + w.changes && soFar == w.value
      modifies this
      ensures forall id :: id in order <==> id in done || (Folds(base.nodes, id) && base.nodes[id].content.foldKey == Some(group))
      ensures forall i, j :: 0 <= i < j < |order| ==> order[i] != order[j]
      ensures var w := FoldAll(base, base.nodes, order, now);
        Tables() == w.db && changes == start + w.changes && folded == w.value
    {
      hide Valid, Folds, KeeperOf;
      folded, order := soFar, done;
      GroupUntouched(outside, base, done, now, group);
      var members := SameRules(nodes, group);
      if members == {} {
        NoMembers(base.nodes, group);
        return;
      }
      NodesOrdered(nodes, members);
      var keeper := FindFirst(members, BetterKeeper(nodes));
      var extra := set m | m in members && m != keeper && nodes[m].key.None?;
      var spare := Enumerate(extra);
      SpareFold(base.nodes, nodes, members, keeper, group);
      hide SameRules, BetterKeeper;
      GroupListed(base.nodes, done, spare, members, keeper, group);
      folded := FoldSpare(outside, spare, keeper, now, base, start, soFar, done);
      order := done + spare;
    }

    method FoldSpare(outside: Outside, spare: seq<Id>, keeper: Id, now: int, ghost base: Db, ghost start: seq<Change>,
                     soFar: nat, ghost done: seq<Id>) returns (folded: nat)
      requires Valid(outside, base)
      requires forall id :: id in done + spare ==> Folds(base.nodes, id)
      requires forall i, j :: 0 <= i < j < |done + spare| ==> (done + spare)[i] != (done + spare)[j]
      requires forall id :: id in spare ==> IsCurrent(base.nodes, id) && base.nodes[id].content.foldKey.Some? && KeeperOf(base.nodes, id) == keeper
      requires var w := FoldAll(base, base.nodes, done, now);
        Tables() == w.db && changes == start + w.changes && soFar == w.value
      modifies this
      ensures var w := FoldAll(base, base.nodes, done + spare, now);
        Tables() == w.db && changes == start + w.changes && folded == w.value
    {
      hide Valid, Folds, KeeperOf, FoldAll;
      folded := soFar;
      assert done + spare[..0] == done;
      for i := 0 to |spare|
        invariant forall id :: id in done + spare[..i] ==> Folds(base.nodes, id)
        invariant var w := FoldAll(base, base.nodes, done + spare[..i], now);
          Tables() == w.db && changes == start + w.changes && folded == w.value
      {
        ghost var so := done + spare[..i];
        assert spare[i] in done + spare && so == (done + spare)[..|so|];
        FoldAllMore(base, so, spare[i], now);
        assert done + spare[..i + 1] == so + [spare[i]];
        FoldInto(outside, spare[i], keeper, now, base, so);
        folded := folded + 1;
      }
      assert done + spare[..|spare|] == done + spare;
    }

    /** Folds one rule into its keeper: never refused, as the keeper is current. */
    method FoldInto(outside: Outside, id: Id, keeper: Id, now: int, ghost base: Db, ghost done: seq<Id>)
      requires Valid(outside, base) && Folds(base.nodes, id) && keeper == KeeperOf(base.nodes, id)
      requires forall x :: x in done ==> Folds(base.nodes, x)
      requires forall i, j :: 0 <= i < j < |done| ==> done[i] != done[j]
      requires Tables() == FoldAll(base, base.nodes, done, now).db
      modifies this
      ensures Tables() == SupersedeDb(old(Tables()), id, keeper, FOLD_REASON, now)
      ensures changes == old(changes) + [Flag(id, true)]
    {
      hide Valid;
      FoldAllKeeps(outside, base, done, now);
      KeeperStays(base.nodes, done, id);
      assert nodes[keeper] == base.nodes[keeper];
      CurrentIsTop(outside, Tables(), keeper, id);
      hide FoldAll, Folds, SupersedeDb;
      var r := SupersedeNode(ById(id), ById(keeper), FOLD_REASON, now);
    }
  }
}
