/** Rules without a key: when two are the same one, which node a recording then confirms, and which
    one old rules are folded into. */
module Rules {
  import opened Chains
  import opened Wrappers
  import opened Knowledge
  import opened Writes
  import opened Invariants
  import opened Keeping
  import opened Runs

  /** The digest tells families and scopes apart, whatever the words. */
  ghost predicate TellsScopes(outside: Outside) {
    forall f, g, s, t, title, other, body, text ::
      outside.digest(f, s, title, body) == outside.digest(g, t, other, text) ==> f == g && s == t
  }

  /** The digest tells these words from those, in whatever scope. */
  ghost predicate TellsWords(outside: Outside, title: string, body: string, words: string, text: string) {
    forall f, s :: outside.digest(f, s, title, body) != outside.digest(f, s, words, text)
  }

  predicate IsRule(kind: Kind) {
    kind.Decision? || kind.Convention? || kind.Contract?
  }

  /** Two rules may be the same: both decisions of one conversation, or neither a decision. */
  predicate OneScope(kind: Kind, session: Option<string>, other: Kind, elsewhere: Option<string>) {
    && IsRule(kind) && IsRule(other)
    && (kind.Decision? <==> other.Decision?)
    && (kind.Decision? ==> session.GetOr("") == elsewhere.GetOr(""))
  }

  /** Only rules have a fold key. In one scope the same words give the same key, and words the digest tells
      apart give different ones; across scopes no words give the same. */
  lemma FoldKeyIs(outside: Outside, kind: Kind, session: Option<string>, other: Kind, elsewhere: Option<string>,
                  title: string, body: string, words: string, text: string)
    ensures FoldKey(outside, kind, session, title, body).Some? <==> IsRule(kind)
    ensures OneScope(kind, session, other, elsewhere) ==>
      FoldKey(outside, kind, session, title, body) == FoldKey(outside, other, elsewhere, title, body)
    ensures TellsWords(outside, title, body, words, text) && IsRule(kind) ==>
      FoldKey(outside, kind, session, title, body) != FoldKey(outside, kind, session, words, text)
    ensures TellsScopes(outside) && IsRule(kind) && !OneScope(kind, session, other, elsewhere) ==>
      FoldKey(outside, kind, session, title, body) != FoldKey(outside, other, elsewhere, words, text)
  {
  }

  /** A current node with that fold key. */
  predicate SaysRule(nodes: Nodes, n: Id, fold: string) {
    IsCurrent(nodes, n) && nodes[n].content.foldKey == Some(fold)
  }

  /** Fresh before stale, then the one updated last, then the newer row. */
  predicate GoesBefore(a: Node, n: Id, b: Node, other: Id) {
    || (a.status.state == Fresh && b.status.state != Fresh)
    || ((a.status.state == Fresh <==> b.status.state == Fresh)
        && (a.content.updated > b.content.updated || (a.content.updated == b.content.updated && n > other)))
  }

  /** A rule recorded without a key is found in the first of the current nodes that say it, and is
      new exactly when none does. */
  lemma RuleFound(outside: Outside, nodes: Nodes, node: NewNode, fold: string)
    requires node.key.None? && FoldKey(outside, node.kind, node.provenance.session, node.title, node.body) == Some(fold)
    ensures Existing(outside, nodes, node).None? <==> forall n :: !SaysRule(nodes, n, fold)
    ensures Existing(outside, nodes, node).Some? ==>
      var found := Existing(outside, nodes, node).value;
      && SaysRule(nodes, found, fold)
      && forall n :: SaysRule(nodes, n, fold) && n != found ==> GoesBefore(nodes[found], found, nodes[n], n)
  {
    var same := SameRules(nodes, fold);
    assert forall n :: n in same <==> SaysRule(nodes, n, fold);
    NodesOrdered(nodes, same);
    if same != {} {
      var found := First(same, Fresher(nodes));
      forall n | n in same && n != found ensures GoesBefore(nodes[found], found, nodes[n], n) {
        assert Fresher(nodes)(found, n);
      }
    }
  }

  /** Of the nodes that say one rule a keyed one is kept, else the first as a recording finds it. */
  lemma KeeperIs(nodes: Nodes, fold: string)
    requires exists n :: SaysRule(nodes, n, fold)
    ensures SameRules(nodes, fold) != {}
    ensures var keeper := Keeper(nodes, fold);
      && SaysRule(nodes, keeper, fold)
      && forall n :: SaysRule(nodes, n, fold) && n != keeper ==>
           || (nodes[keeper].key.Some? && nodes[n].key.None?)
           || ((nodes[keeper].key.Some? <==> nodes[n].key.Some?) && GoesBefore(nodes[keeper], keeper, nodes[n], n))
  {
    var same := SameRules(nodes, fold);
    assert forall n :: n in same <==> SaysRule(nodes, n, fold);
    var keeper := Keeper(nodes, fold);
    NodesOrdered(nodes, same);
    forall n | n in same && n != keeper
      ensures || (nodes[keeper].key.Some? && nodes[n].key.None?)
              || ((nodes[keeper].key.Some? <==> nodes[n].key.Some?) && GoesBefore(nodes[keeper], keeper, nodes[n], n))
    {
      assert BetterKeeper(nodes)(keeper, n);
    }
  }

  /** Every rule has a fold key. */
  ghost predicate AllKeyed(nodes: Nodes) {
    forall n :: n in nodes && IsRule(nodes[n].kind) ==> nodes[n].content.foldKey.Some?
  }

  /** No unkeyed current rule beside another current node that says it. */
  ghost predicate NoneTwice(nodes: Nodes) {
    forall a, b, fold :: SaysRule(nodes, a, fold) && SaysRule(nodes, b, fold) && nodes[a].key.None? ==> a == b
  }

  /** A rule recorded before rules had fold keys. */
  predicate IsOld(node: Node) {
    IsRule(node.kind) && node.content.foldKey.None?
  }

  /** Settling does nothing when no rule is old. Otherwise old rules get the fold keys of their words,
      every rule has one, and an unkeyed rule is said by no other current node. */
  lemma SettledRules(outside: Outside, db: Db, order: seq<Id>, now: int)
    requires Valid(outside, db) && Settles(outside, db.nodes, order)
    ensures var nodes := SettleRules(outside, db, order, now).db.nodes;
      && AllKeyed(nodes)
      && (if exists n :: n in db.nodes && IsOld(db.nodes[n]) then NoneTwice(nodes) else SettleRules(outside, db, order, now).db == db)
      && forall n :: n in db.nodes && IsOld(db.nodes[n]) ==>
        n in nodes && nodes[n].content.foldKey ==
          FoldKey(outside, nodes[n].kind, nodes[n].content.provenance.session, nodes[n].content.title, nodes[n].content.body)
  {
    hide Valid, Folds, KeeperOf, FoldKey, FoldAll;
    var start := Rekeyed(outside, db.nodes);
    RekeyedKeeps(outside, db);
    RekeyedAll(outside, db.nodes);
    FoldAllKeeps(outside, db.(nodes := start), order, now);
    var nodes := SettleRules(outside, db, order, now).db.nodes;
    FoldedKeyed(outside, start, order, now, SettleRules(outside, db, order, now).db);
    if n :| n in db.nodes && IsOld(db.nodes[n]) {
      assert LacksFoldKey(db.nodes[n]);
      FoldedOnce(outside, start, order, now, SettleRules(outside, db, order, now).db);
    } else {
      assert forall n :: n in db.nodes ==> !LacksFoldKey(db.nodes[n]);
      NoneOld(outside, db, now);
    }
  }

  lemma NoneOld(outside: Outside, db: Db, now: int)
    requires forall n :: n in db.nodes ==> !LacksFoldKey(db.nodes[n])
    ensures SettleRules(outside, db, [], now).db == db
  {
    assert Rekeyed(outside, db.nodes) == db.nodes;
  }

  lemma RekeyedAll(outside: Outside, nodes: Nodes)
    ensures AllKeyed(Rekeyed(outside, nodes))
  {
  }

  lemma FoldedKeyed(outside: Outside, nodes: Nodes, order: seq<Id>, now: int, after: Db)
    requires FoldedInto(outside, nodes, order, now, after) && AllKeyed(nodes) && after.nodes.Keys == nodes.Keys
    ensures AllKeyed(after.nodes)
  {
    hide Valid, Folds, KeeperOf;
  }

  lemma FoldedOnce(outside: Outside, nodes: Nodes, order: seq<Id>, now: int, after: Db)
    requires FoldedInto(outside, nodes, order, now, after) && after.nodes.Keys == nodes.Keys
    requires forall id :: Folds(nodes, id) ==> id in order
    ensures NoneTwice(after.nodes)
  {
    hide Valid;
    forall a, b, fold | SaysRule(after.nodes, a, fold) && SaysRule(after.nodes, b, fold) && after.nodes[a].key.None?
      ensures a == b
    {
      assert a !in order && b !in order;
      if a != b {
        OneIsFolded(nodes, a, b, fold);
      }
    }
  }

  /** Of two nodes that say a rule, one without a key, one is folded. */
  lemma OneIsFolded(nodes: Nodes, a: Id, b: Id, fold: string)
    requires SaysRule(nodes, a, fold) && SaysRule(nodes, b, fold) && a != b && nodes[a].key.None?
    ensures Folds(nodes, a) || Folds(nodes, b)
  {
    KeeperIs(nodes, fold);
    assert KeeperOf(nodes, a) == Keeper(nodes, fold) == KeeperOf(nodes, b);
  }
}
