/** Which changes of files concern a node: the contents its sources read them with, and what a
    change to another content does to it. */
module FilesSeen {
  import opened Chains
  import opened Wrappers
  import opened Knowledge
  import opened Writes
  import opened Invariants
  import opened Keeping

  /** The contents a file was read with, over all sources. */
  function HashesOf(node: Node, path: string): set<string> {
    set s | s in node.content.sources && path in node.content.sources[s].files
            && node.content.sources[s].files[path].Some? :: node.content.sources[s].files[path].value
  }

  /** The content the file has now; none once it is deleted. */
  function Contents(change: FileRef): set<string> {
    match change.hash
    case Some(hash) => {hash}
    case None => {}
  }

  /** Some source read the file with a content it no longer has. */
  predicate SeenOtherwise(node: Node, change: FileRef) {
    HashesOf(node, change.path) - Contents(change) != {}
  }

  lemma OutdatesIs(node: Node, change: FileRef)
    ensures Outdates(node, change) <==> SeenOtherwise(node, change)
  {
    var hashes := HashesOf(node, change.path);
    if Outdates(node, change) {
      var s :| && s in node.content.sources && change.path in node.content.sources[s].files
        && node.content.sources[s].files[change.path].Some? && node.content.sources[s].files[change.path] != change.hash;
      assert node.content.sources[s].files[change.path].value in hashes - Contents(change);
    }
    if hashes - Contents(change) != {} {
      var hash :| hash in hashes - Contents(change);
      assert Some(hash) != change.hash;
    }
  }

  /** One changed file: whoever read it with the content it has, or never, stays as it was. Of the
      others the fresh ones go stale, and versions take on a reason unless they have one. */
  lemma FileChanges(node: Node, change: FileRef, now: int)
    ensures var after := Marked(node, change, now);
      var reason := change.path + if change.hash == None then " was deleted" else " changed";
      if !SeenOtherwise(node, change) || node.status.state == Stale then after == node
      else if node.status.state == Superseded && node.status.staleReason.Some? then after == node
      else after == node.(status := node.status.(
        state := if node.status.state == Fresh then Stale else Superseded,
        staleReason := Some(reason), staleSince := Some(now)))
  {
    hide Outdates, SeenOtherwise;
    OutdatesIs(node, change);
  }

  lemma SomeBefore(node: Node, changes: seq<FileRef>)
    requires changes != []
    ensures var before := changes[..|changes| - 1];
      (exists i :: 0 <= i < |changes| && SeenOtherwise(node, changes[i]))
        <==> (exists i :: 0 <= i < |before| && SeenOtherwise(node, before[i])) || SeenOtherwise(node, changes[|changes| - 1])
  {
    hide SeenOtherwise;
    var before := changes[..|changes| - 1];
    if i :| 0 <= i < |changes| && SeenOtherwise(node, changes[i]) {
      assert i < |before| ==> before[i] == changes[i];
    }
    if i :| 0 <= i < |before| && SeenOtherwise(node, before[i]) {
      assert changes[i] == before[i];
    }
  }

  lemma SeenSame(a: Node, b: Node, change: FileRef)
    requires a.content == b.content
    ensures SeenOtherwise(a, change) <==> SeenOtherwise(b, change)
  {
  }

  /** The node was fresh till the file `i`, which it saw otherwise. */
  ghost predicate FirstSeen(node: Node, changes: seq<FileRef>, i: nat) {
    && i < |changes| && SeenOtherwise(node, changes[i])
    && forall j :: 0 <= j < i ==> !SeenOtherwise(node, changes[j])
  }

  /** Several changed files: a fresh node goes stale for the first of them it saw otherwise, and a
      version takes on that reason unless it has one. */
  lemma {:induction false} FilesChange(node: Node, changes: seq<FileRef>, now: int)
    requires node.status.state != Stale && (node.status.state == Superseded ==> node.status.staleReason.None?)
    ensures (forall i :: 0 <= i < |changes| ==> !SeenOtherwise(node, changes[i])) ==> MarkedAll(node, changes, now) == node
    ensures forall i: nat :: FirstSeen(node, changes, i) ==> MarkedAll(node, changes, now) == Marked(node, changes[i], now)
  {
    hide SeenOtherwise, Marked;
    if changes != [] {
      var before, last := changes[..|changes| - 1], changes[|changes| - 1];
      FilesChange(node, before, now);
      FileChanges(node, last, now);
      forall i: nat | FirstSeen(node, changes, i) ensures MarkedAll(node, changes, now) == Marked(node, changes[i], now) {
        if i < |before| {
          assert before[i] == changes[i] && FirstSeen(node, before, i);
          MarkedStays(node, changes[i], last, now);
        }
      }
    }
  }

  /** Marked once, it keeps that reason. */
  lemma MarkedStays(node: Node, change: FileRef, later: FileRef, now: int)
    requires SeenOtherwise(node, change) && (node.status.state == Superseded ==> node.status.staleReason.None?)
    ensures Marked(Marked(node, change, now), later, now) == Marked(node, change, now)
  {
    hide Outdates, SeenOtherwise;
    OutdatesIs(node, change);
  }

  /** Fresh nodes go stale exactly when they saw one of the files otherwise. */
  lemma {:induction false} FreshGoStale(node: Node, changes: seq<FileRef>, now: int)
    requires node.status.state == Fresh
    ensures MarkedAll(node, changes, now).status.state == Stale <==> exists i :: 0 <= i < |changes| && SeenOtherwise(node, changes[i])
    ensures MarkedAll(node, changes, now).status.state != Stale ==> MarkedAll(node, changes, now) == node
  {
    hide SeenOtherwise, Outdates;
    if changes != [] {
      var before, last := changes[..|changes| - 1], changes[|changes| - 1];
      FreshGoStale(node, before, now);
      SomeBefore(node, changes);
      OutdatesIs(node, last);
    }
  }
}
