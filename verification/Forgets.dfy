/** Several forgets in a row: what survives does not depend on their order. */
module Forgets {
  import opened Chains
  import opened Wrappers
  import opened Knowledge
  import opened Writes
  import opened Invariants
  import opened Keeping
  import opened Runs

  /** Some part selects the source. */
  predicate SelectedBy(parts: seq<Part>, source: Source) {
    exists i :: 0 <= i < |parts| && Selects(parts[i].selection, source)
  }

  function Remaining(sources: map<string, Source>, parts: seq<Part>): map<string, Source> {
    map s | s in sources && !SelectedBy(parts, sources[s]) :: sources[s]
  }

  /** `after` has exactly the nodes of `before` some source outside `parts` supports, with
      exactly those sources. */
  ghost predicate KeepsRemaining(before: Nodes, parts: seq<Part>, after: Nodes) {
    && (forall n :: n in after <==> n in before && Remaining(before[n].content.sources, parts) != map[])
    && (forall n :: n in after ==> after[n].content.sources == Remaining(before[n].content.sources, parts))
  }

  /** Forgetting several sessions and origins keeps exactly the nodes some other source supports,
      and says how many went. */
  lemma {:induction false} ForgetAllExactly(outside: Outside, db: Db, parts: seq<Part>, now: int)
    requires Valid(outside, db) && ForgetAll(db, parts, now).Ok?
    ensures var w := ForgetAll(db, parts, now).value;
      && KeepsRemaining(db.nodes, parts, w.db.nodes)
      && w.value == |db.nodes.Keys - w.db.nodes.Keys|
    decreases |parts|
  {
    hide Valid, Shaped, UniqueKeys, Reasoned, Release, KeepsRemaining, Enumerates, Affected;
    ValidIsShaped(outside, db);
    if parts == [] {
      NothingSelected(outside, db);
    } else {
      hide ForgetAll;
      ForgetLast(db, parts, now);
      var before := parts[..|parts| - 1];
      ForgetAllExactly(outside, db, before, now);
      ForgetAllKeeps(outside, db, before, now);
      ForgetsOneMore(outside, db.nodes, parts, ForgetAll(db, before, now).value, now);
    }
  }

  lemma ForgetsOneMore(outside: Outside, nodes: Nodes, parts: seq<Part>, middle: Write<nat>, now: int)
    requires parts != [] && Valid(outside, middle.db) && Acyclic(LinksOf(middle.db.nodes))
    requires KeepsRemaining(nodes, parts[..|parts| - 1], middle.db.nodes) && middle.value == |nodes.Keys - middle.db.nodes.Keys|
    requires var part := parts[|parts| - 1]; Enumerates(part.order, Affected(middle.db.nodes, part.selection))
    ensures var part := parts[|parts| - 1]; var w := Release(middle.db, part.selection, part.order, now);
      && KeepsRemaining(nodes, parts, w.db.nodes)
      && middle.value + w.value == |nodes.Keys - w.db.nodes.Keys|
  {
    hide Valid, Acyclic, Release, KeepsRemaining, Enumerates, Affected;
    var part := parts[|parts| - 1];
    ReleaseExactly(outside, middle.db, part, now);
    var w := Release(middle.db, part.selection, part.order, now);
    RemainingInTurn(nodes, parts, middle.db.nodes, w.db.nodes);
    CountInTurn(nodes.Keys, middle.db.nodes.Keys, w.db.nodes.Keys);
  }

  lemma ReleaseExactly(outside: Outside, db: Db, part: Part, now: int)
    requires Valid(outside, db) && Acyclic(LinksOf(db.nodes)) && Enumerates(part.order, Affected(db.nodes, part.selection))
    ensures var w := Release(db, part.selection, part.order, now);
      ForgotOne(db.nodes, part.selection, w.db.nodes) && w.value == |db.nodes.Keys - w.db.nodes.Keys|
  {
    hide Valid, Release;
    ForgetExactly(outside, db, part.selection, part.order, now);
  }

  ghost predicate ForgotOne(before: Nodes, selection: Selection, after: Nodes) {
    && (forall n :: n in after <==> n in before && SupportedApart(before[n], selection))
    && (forall n :: n in after ==> after[n].content.sources == Forgotten(before[n].content.sources, selection))
  }

  lemma RemainingInTurn(nodes: Nodes, parts: seq<Part>, middle: Nodes, after: Nodes)
    requires parts != [] && KeepsRemaining(nodes, parts[..|parts| - 1], middle)
    requires ForgotOne(middle, parts[|parts| - 1].selection, after)
    ensures KeepsRemaining(nodes, parts, after) && after.Keys <= middle.Keys <= nodes.Keys
  {
    hide Remaining, Forgotten, SupportedApart;
    forall n | n in middle
      ensures Forgotten(middle[n].content.sources, parts[|parts| - 1].selection) == Remaining(nodes[n].content.sources, parts)
      ensures SupportedApart(middle[n], parts[|parts| - 1].selection) <==> Remaining(nodes[n].content.sources, parts) != map[]
    {
      OneMore(nodes[n].content.sources, parts, middle[n], parts[|parts| - 1].selection);
    }
    forall n | n in nodes && n !in middle ensures Remaining(nodes[n].content.sources, parts) == map[] {
      StillNone(nodes[n].content.sources, parts);
    }
  }

  lemma NothingSelected(outside: Outside, db: Db)
    requires Valid(outside, db)
    ensures KeepsRemaining(db.nodes, [], db.nodes) && |db.nodes.Keys - db.nodes.Keys| == 0
  {
    hide Shaped, UniqueKeys, Reasoned, Embeds, Joined;
    assert forall n :: n in db.nodes ==> Remaining(db.nodes[n].content.sources, []) == db.nodes[n].content.sources;
    assert db.nodes.Keys - db.nodes.Keys == {};
  }

  lemma SelectedBefore(parts: seq<Part>, source: Source)
    requires parts != []
    ensures SelectedBy(parts, source)
      <==> SelectedBy(parts[..|parts| - 1], source) || Selects(parts[|parts| - 1].selection, source)
  {
    var before := parts[..|parts| - 1];
    if SelectedBy(before, source) {
      var i :| 0 <= i < |before| && Selects(before[i].selection, source);
      assert Selects(parts[i].selection, source);
    }
    if SelectedBy(parts, source) {
      var i :| 0 <= i < |parts| && Selects(parts[i].selection, source);
      if i < |before| {
        assert Selects(before[i].selection, source);
      }
    }
  }

  lemma OneMore(sources: map<string, Source>, parts: seq<Part>, node: Node, selection: Selection)
    requires parts != [] && selection == parts[|parts| - 1].selection
    requires node.content.sources == Remaining(sources, parts[..|parts| - 1]) != map[]
    ensures Forgotten(node.content.sources, selection) == Remaining(sources, parts)
    ensures SupportedApart(node, selection) <==> Remaining(sources, parts) != map[]
  {
    forall s | s in sources
      ensures SelectedBy(parts, sources[s]) <==> SelectedBy(parts[..|parts| - 1], sources[s]) || Selects(selection, sources[s])
    {
      SelectedBefore(parts, sources[s]);
    }
    hide SelectedBy, Selects;
    assert Forgotten(node.content.sources, selection) == Remaining(sources, parts);
    StrippedSources(node, selection);
  }

  lemma StillNone(sources: map<string, Source>, parts: seq<Part>)
    requires parts != [] && Remaining(sources, parts[..|parts| - 1]) == map[]
    ensures Remaining(sources, parts) == map[]
  {
    forall s | s in sources ensures SelectedBy(parts, sources[s]) {
      SelectedBefore(parts, sources[s]);
      assert s in Remaining(sources, parts[..|parts| - 1]) <==> !SelectedBy(parts[..|parts| - 1], sources[s]);
    }
  }

  lemma CountInTurn(a: set<Id>, b: set<Id>, c: set<Id>)
    requires c <= b <= a
    ensures |a - c| == |a - b| + |b - c|
  {
    assert a - c == (a - b) + (b - c);
  }

  /** The same forgets in any order, each once or more, leave the same nodes with the same sources. */
  lemma ForgetOrderIrrelevant(outside: Outside, db: Db, parts: seq<Part>, others: seq<Part>, now: int, later: int)
    requires Valid(outside, db) && ForgetAll(db, parts, now).Ok? && ForgetAll(db, others, later).Ok?
    requires forall selection :: Selected(parts, selection) <==> Selected(others, selection)
    ensures var a, b := ForgetAll(db, parts, now).value.db.nodes, ForgetAll(db, others, later).value.db.nodes;
      a.Keys == b.Keys && forall n :: n in a ==> a[n].content.sources == b[n].content.sources
  {
    hide Shaped, UniqueKeys, Reasoned, Supported, Embeds, Joined, ForgetAll, Remaining, KeepsRemaining;
    ForgetAllExactly(outside, db, parts, now);
    ForgetAllExactly(outside, db, others, later);
    SameRemaining(db.nodes, parts, others, ForgetAll(db, parts, now).value.db.nodes, ForgetAll(db, others, later).value.db.nodes);
  }

  lemma SameRemaining(nodes: Nodes, parts: seq<Part>, others: seq<Part>, a: Nodes, b: Nodes)
    requires forall selection :: Selected(parts, selection) <==> Selected(others, selection)
    requires KeepsRemaining(nodes, parts, a) && KeepsRemaining(nodes, others, b)
    ensures a.Keys == b.Keys && forall n :: n in a ==> a[n].content.sources == b[n].content.sources
  {
    hide SelectedBy;
    forall source ensures SelectedBy(parts, source) == SelectedBy(others, source) {
      SameSelected(parts, others, source);
    }
    assert forall n :: n in nodes ==>
      Remaining(nodes[n].content.sources, parts) == Remaining(nodes[n].content.sources, others);
  }

  predicate Selected(parts: seq<Part>, selection: Selection) {
    exists i :: 0 <= i < |parts| && parts[i].selection == selection
  }

  lemma SameSelected(parts: seq<Part>, others: seq<Part>, source: Source)
    requires forall selection :: Selected(parts, selection) <==> Selected(others, selection)
    ensures SelectedBy(parts, source) == SelectedBy(others, source)
  {
    if SelectedBy(parts, source) {
      var i :| 0 <= i < |parts| && Selects(parts[i].selection, source);
      assert Selected(parts, parts[i].selection);
      var j :| 0 <= j < |others| && others[j].selection == parts[i].selection;
      assert Selects(others[j].selection, source);
    }
    if SelectedBy(others, source) {
      var i :| 0 <= i < |others| && Selects(others[i].selection, source);
      assert Selected(others, others[i].selection);
      var j :| 0 <= j < |parts| && parts[j].selection == others[i].selection;
      assert Selects(parts[j].selection, source);
    }
  }
}
