/** The branches of a conversation: each message names the one it follows, and a branch is read
    from its last message back. */
module Branches {
  import opened Wrappers

  datatype Message = Message(id: string, parent: Option<string>, text: string)

  /** Named as parent by a message that goes before all others, on a branch of its own. */
  const ROOT := ""

  predicate Distinct(messages: seq<Message>) {
    forall i, j :: 0 <= i < j < |messages| ==> messages[i].id != messages[j].id
  }

  /** Where a message is; the last one, should several share the id. */
  function IndexOf(messages: seq<Message>, id: string): (found: Option<nat>)
    ensures found.Some? ==> found.value < |messages| && messages[found.value].id == id
    ensures forall i :: 0 <= i < |messages| && messages[i].id == id ==> found.Some? && i <= found.value
  {
    if messages == [] then None
    else if messages[|messages| - 1].id == id then Some(|messages| - 1)
    else IndexOf(messages[..|messages| - 1], id)
  }

  /** The position a message's link leads to, if it has one. */
  function Link(messages: seq<Message>, at: nat): Option<nat>
    requires at < |messages|
  {
    match messages[at].parent
    case Some(parent) => if parent == ROOT then None else IndexOf(messages, parent)
    case None => if at > 0 then Some(at - 1) else None
  }

  /** The message it follows: a link that does not lead to an older one is broken. */
  function Above(messages: seq<Message>, at: nat): (above: Option<nat>)
    requires at < |messages|
    ensures above.Some? ==> above.value < at
  {
    match Link(messages, at)
    case Some(above) => if above < at then Some(above) else None
    case None => None
  }

  /** The positions from the first message of a branch to its last one, `at`. */
  function Branch(messages: seq<Message>, at: nat): (branch: seq<nat>)
    requires at < |messages|
    ensures forall i :: 0 <= i < |branch| ==> branch[i] <= at
    decreases at
  {
    (match Above(messages, at)
     case Some(above) => Branch(messages, above)
     case None => []) + [at]
  }

  function ParentOf(messages: seq<Message>, at: nat): string
    requires at < |messages|
  {
    match messages[at].parent
    case Some(parent) => parent
    case None => if at > 0 then messages[at - 1].id else ROOT
  }

  function At(messages: seq<Message>, positions: seq<nat>): seq<Message>
    requires forall i :: 0 <= i < |positions| ==> positions[i] < |messages|
  {
    seq(|positions|, i requires 0 <= i < |positions| => messages[positions[i]])
  }

  function BranchTo(messages: seq<Message>, at: Option<nat>): seq<nat>
    requires at.Some? ==> at.value < |messages|
  {
    if at.Some? then Branch(messages, at.value) else []
  }

  /** Midway up from `leaf`: the positions passed so far, and where to go on. */
  ghost predicate Climbing(messages: seq<Message>, leaf: Option<nat>, at: Option<nat>, walked: seq<nat>) {
    && (at.Some? ==> at.value < |messages|)
    && (forall i :: 0 <= i < |walked| ==> walked[i] < |messages|)
    && (leaf.Some? ==> leaf.value < |messages|)
    && BranchTo(messages, at) + Reversed(walked) == BranchTo(messages, leaf)
  }

  lemma ClimbStarts(messages: seq<Message>, leaf: Option<nat>)
    requires leaf.Some? ==> leaf.value < |messages|
    ensures Climbing(messages, leaf, leaf, [])
  {
  }

  lemma ClimbEnds(messages: seq<Message>, leaf: Option<nat>, walked: seq<nat>)
    requires Climbing(messages, leaf, None, walked)
    ensures leaf.Some? ==> leaf.value < |messages|
    ensures Reversed(walked) == BranchTo(messages, leaf)
  {
    assert [] + Reversed(walked) == Reversed(walked);
  }

  lemma {:induction false} ClimbOn(messages: seq<Message>, leaf: Option<nat>, at: nat, walked: seq<nat>)
    requires Climbing(messages, leaf, Some(at), walked)
    ensures Climbing(messages, leaf, Above(messages, at), walked + [at])
  {
    hide Above, Branch, Reversed;
    ReversedMore(walked, at);
    BranchIs(messages, at);
    Regrouped(BranchTo(messages, Above(messages, at)), at, Reversed(walked));
  }

  lemma Regrouped(before: seq<nat>, at: nat, after: seq<nat>)
    ensures before + [at] + after == before + ([at] + after)
  {
  }

  lemma BranchIs(messages: seq<Message>, at: nat)
    requires at < |messages|
    ensures Branch(messages, at) == BranchTo(messages, Above(messages, at)) + [at]
  {
  }

  /** Where each id is, the last message with it winning. */
  method Indexed(messages: seq<Message>) returns (index: map<string, nat>)
    ensures forall id :: IndexOf(messages, id) == if id in index then Some(index[id]) else None
  {
    index := map[];
    for i := 0 to |messages|
      invariant forall id :: IndexOf(messages[..i], id) == if id in index then Some(index[id]) else None
    {
      assert messages[..i + 1][..i] == messages[..i];
      index := index[messages[i].id := i];
    }
    assert messages[..|messages|] == messages;
  }

  /** The messages at those positions for the newest message with id `leaf`. */
  method BranchOf(messages: seq<Message>, leaf: string) returns (path: seq<Message>)
    ensures match IndexOf(messages, leaf)
      case Some(at) =>
        path == At(messages, Branch(messages, at))
      case None => path == []
  {
    hide IndexOf, Branch, Climbing, Reversed;
    var index := Indexed(messages);
    path := [];
    ghost var walked: seq<nat> := [];
    var at: Option<nat> := if leaf in index then Some(index[leaf]) else None;
    ghost var end := at;
    assert end == IndexOf(messages, leaf);
    ClimbStarts(messages, end);
    while at.Some?
      invariant at.Some? ==> at.value < |messages|
      invariant forall i :: 0 <= i < |walked| ==> walked[i] < |messages|
      invariant Climbing(messages, end, at, walked)
      invariant path == At(messages, walked)
      decreases if at.Some? then at.value + 1 else 0
    {
      var current := at.value;
      ClimbOn(messages, end, current, walked);
      var message := messages[current];
      path := path + [message];
      walked := walked + [current];
      at := match message.parent
        case Some(parent) => if parent == ROOT then None else if parent in index then Some(index[parent]) else None
        case None => if current > 0 then Some(current - 1) else None;
      if at.Some? && at.value >= current {
        at := None;
      }
      assert at == Above(messages, current);
    }
    ReversedAt(messages, walked);
    ClimbEnds(messages, end, walked);
    path := Reversed(path);
  }

  lemma ReversedMore<T>(s: seq<T>, x: T)
    ensures Reversed(s + [x]) == [x] + Reversed(s)
  {
    assert (s + [x])[..|s|] == s;
  }

  lemma {:induction false} ReversedAt(messages: seq<Message>, positions: seq<nat>)
    requires forall i :: 0 <= i < |positions| ==> positions[i] < |messages|
    ensures Reversed(At(messages, positions)) == At(messages, Reversed(positions))
  {
    if positions != [] {
      ReversedAt(messages, positions[..|positions| - 1]);
      assert At(messages, positions)[..|positions| - 1] == At(messages, positions[..|positions| - 1]);
    }
  }

  // What a branch is.

  /** A branch goes up from older to newer, each message following the one before, from one that
      follows none to its leaf. */
  lemma {:induction false} BranchFollows(messages: seq<Message>, at: nat)
    requires at < |messages|
    ensures var branch := Branch(messages, at);
      && branch != [] && branch[|branch| - 1] == at
      && (forall i :: 0 <= i < |branch| ==> branch[i] <= at)
      && (forall i, j :: 0 <= i < j < |branch| ==> branch[i] < branch[j])
      && Above(messages, branch[0]) == None
      && forall i :: 0 < i < |branch| ==> Above(messages, branch[i]) == Some(branch[i - 1])
    decreases at
  {
    if Above(messages, at).Some? {
      BranchFollows(messages, Above(messages, at).value);
    }
  }

  /** With distinct ids, the message a branch shows before another is the one whose id the other
      names as parent; it shows none just when no older message has that id. */
  lemma AboveIsParent(messages: seq<Message>, at: nat)
    requires at < |messages| && Distinct(messages)
    requires forall i :: 0 <= i < |messages| ==> messages[i].id != ROOT
    ensures forall i :: 0 <= i < at ==> (Above(messages, at) == Some(i) <==> messages[i].id == ParentOf(messages, at))
  {
  }

  /** Every position on a branch has its own branch as a prefix of it. */
  lemma {:induction false} BranchPrefix(messages: seq<Message>, at: nat, i: nat)
    requires at < |messages| && i < |Branch(messages, at)|
    ensures Branch(messages, at)[i] < |messages|
    ensures Branch(messages, Branch(messages, at)[i]) == Branch(messages, at)[..i + 1]
    decreases at
  {
    var branch := Branch(messages, at);
    if i < |branch| - 1 {
      var above := Above(messages, at).value;
      BranchPrefix(messages, above, i);
      assert branch[..i + 1] == Branch(messages, above)[..i + 1];
    }
  }

  ghost predicate ShareExactly(a: seq<nat>, b: seq<nat>, k: nat) {
    && k <= |a| && k <= |b| && a[..k] == b[..k]
    && forall i, j :: k <= i < |a| && k <= j < |b| ==> a[i] != b[j]
  }

  /** Two branches share a beginning and nothing after it. */
  lemma {:induction false} BranchesFork(messages: seq<Message>, a: nat, b: nat) returns (k: nat)
    requires a < |messages| && b < |messages|
    ensures ShareExactly(Branch(messages, a), Branch(messages, b), k)
    decreases a + b
  {
    var first, second := Branch(messages, a), Branch(messages, b);
    BranchFollows(messages, a);
    BranchFollows(messages, b);
    if a == b {
      k := |first|;
    } else if a < b {
      k := ForkAbove(messages, a, b);
    } else {
      k := ForkAbove(messages, b, a);
    }
  }

  lemma ForkAbove(messages: seq<Message>, a: nat, b: nat) returns (k: nat)
    requires a < b < |messages|
    ensures ShareExactly(Branch(messages, a), Branch(messages, b), k)
    ensures ShareExactly(Branch(messages, b), Branch(messages, a), k)
    decreases a + b, 0
  {
    var first := Branch(messages, a);
    match Above(messages, b)
    case None =>
      assert Branch(messages, b) == [b];
      k := 0;
    case Some(above) =>
      k := BranchesFork(messages, a, above);
      OneMore(first, Branch(messages, above), b, k);
      assert Branch(messages, b) == Branch(messages, above) + [b];
  }

  lemma OneMore(a: seq<nat>, b: seq<nat>, x: nat, k: nat)
    requires ShareExactly(a, b, k) && forall i :: 0 <= i < |a| ==> a[i] != x
    ensures ShareExactly(a, b + [x], k) && ShareExactly(b + [x], a, k)
  {
    assert (b + [x])[..k] == b[..k];
  }

  lemma {:induction false} IndexStays(messages: seq<Message>, more: seq<Message>, id: string)
    requires Distinct(messages + more)
    ensures match IndexOf(messages + more, id)
      case Some(i) => if i < |messages| then IndexOf(messages, id) == Some(i) else IndexOf(messages, id) == None
      case None => IndexOf(messages, id) == None
  {
    var all := messages + more;
    assert forall i :: 0 <= i < |messages| ==> all[i] == messages[i];
    if IndexOf(messages, id).Some? {
      assert all[IndexOf(messages, id).value].id == id;
    }
    if IndexOf(all, id).Some? && IndexOf(all, id).value < |messages| {
      assert messages[IndexOf(all, id).value].id == id;
    }
  }

  /** Messages added later change no branch there is. */
  lemma {:induction false} AddingKeepsBranches(messages: seq<Message>, more: seq<Message>, at: nat)
    requires at < |messages| && Distinct(messages + more)
    ensures Branch(messages + more, at) == Branch(messages, at)
    decreases at
  {
    if messages[at].parent.Some? {
      IndexStays(messages, more, messages[at].parent.value);
    }
    assert Above(messages + more, at) == Above(messages, at);
    if Above(messages, at).Some? {
      AddingKeepsBranches(messages, more, Above(messages, at).value);
    }
  }
}
