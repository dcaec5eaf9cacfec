/** The edges: what a fact brings to the node that replaces it or that is current again after it,
    and what stays with its history. */
module Facts {
  import opened Chains
  import opened Wrappers
  import opened Knowledge
  import opened Writes
  import opened Invariants
  import opened Deletions

  /** Where a node was decided and what it replaced is its history; the rest is its fact. */
  predicate OfHistory(kind: EdgeKind) {
    kind.DecidedIn? || kind.Supersedes?
  }

  /** The edge is one of `from`'s fact with `to` in its place, and joins `to` to another node. */
  predicate Brought(edges: set<Edge>, from: Id, to: Id, e: Edge) {
    && !OfHistory(e.kind) && e.source != e.target
    && ((e.source == to && Edge(from, e.target, e.kind) in edges) || (e.target == to && Edge(e.source, from, e.kind) in edges))
  }

  lemma TakenOverIs(edges: set<Edge>, from: Id, to: Id)
    ensures forall e :: e in TakenOver(edges, from, to) <==> Brought(edges, from, to, e)
  {
    forall e | e in TakenOver(edges, from, to) ensures Brought(edges, from, to, e) {
    }
    forall e | Brought(edges, from, to, e) ensures e in TakenOver(edges, from, to) {
      if e.source == to && Edge(from, e.target, e.kind) in edges {
        var was := Edge(from, e.target, e.kind);
        assert was.source == from && IsCurrentEdge(was.kind) && e == Edge(to, was.target, was.kind);
      } else {
        var was := Edge(e.source, from, e.kind);
        assert was.target == from && IsCurrentEdge(was.kind) && e == Edge(was.source, to, was.kind);
      }
    }
  }

  /** A replacement keeps every edge and adds those of the earlier node's fact, and the one to it. */
  lemma SupersededFacts(db: Db, earlier: Id, later: Id, reason: string, now: int)
    requires earlier in db.nodes
    ensures var after := SupersedeDb(db, earlier, later, reason, now).edges;
      forall e :: e in after <==> e in db.edges || Brought(db.edges, earlier, later, e) || e == Edge(later, earlier, Supersedes)
  {
    TakenOverIs(db.edges, earlier, later);
  }

  /** A rewrite leaves the fact's edges with the node, copies where it was decided to the version,
      and moves what it replaced there. */
  lemma ArchivedFacts(edges: set<Edge>, id: Id, copy: Id)
    requires id != copy && forall e :: e in edges ==> e.source != copy
    ensures var after := ArchiveEdges(edges, id, copy);
      forall e :: e in after <==>
        if e.source == copy then OfHistory(e.kind) && Edge(id, e.target, e.kind) in edges
        else if e.source == id && e.kind == Supersedes then e.target == copy
        else e in edges
  {
    var after := ArchiveEdges(edges, id, copy);
    forall e: Edge | e.source == copy && OfHistory(e.kind) && Edge(id, e.target, e.kind) in edges ensures e in after {
      var was := Edge(id, e.target, e.kind);
      assert was in edges && e == Edge(copy, was.target, was.kind);
    }
  }

  /** Whoever hangs off whom is joined to it by an edge. */
  predicate IsLink(nodes: Nodes, e: Edge) {
    e.kind == Supersedes && e.target in nodes && nodes[e.target].status.supersededBy == Some(e.source)
  }

  /** After a current node is deleted the others keep their edges, versions are joined to what they
      hang off, and the version that is current again, if one is, has the edges of the deleted
      node's fact. */
  lemma DeletedFacts(db: Db, id: Id, now: int, v: Id)
    requires Shaped(db.nodes) && IsCurrent(db.nodes, id)
    requires VersionsOf(db.nodes, id) != {} ==> ReplacedLast(db.nodes, VersionsOf(db.nodes, id), v)
    ensures Delete(db, id, now).Ok?
    ensures var after := Delete(db, id, now).value.db;
      var back := VersionsOf(db.nodes, id) != {} && v in db.nodes && forall heir :: !Holds(db.nodes, v, id, heir);
      forall e :: e in after.edges <==>
        || (e in db.edges && e.source != id && e.target != id)
        || (back && Brought(db.edges, id, v, e) && e.source != id && e.target != id)
        || IsLink(after.nodes, e)
  {
    hide Shaped, Settle, ReplacedLast, Holds, VersionsOf, Brought, Acyclic;
    ShapedIsAcyclic(db.nodes);
    DeletesOneEdges(db, id, now);
    VersionsAre(db.nodes, id);
    var r := Revival(Unkeyed(db.nodes, {id}), Facts(db.edges), []);
    SettledFacts(db, r, id, now, v);
    hide Delete, Facts, Sups, Unkeyed;
    LinksAre(Delete(db, id, now).value.db.nodes);
  }

  lemma LinksAre(nodes: Nodes)
    ensures forall e :: e in LinkEdges(nodes) <==> IsLink(nodes, e)
  {
  }

  lemma DeletesOneEdges(db: Db, id: Id, now: int)
    requires Shaped(db.nodes) && IsCurrent(db.nodes, id)
    ensures Delete(db, id, now).Ok?
    ensures var after, settled := Delete(db, id, now).value.db, Settle(Revival(Unkeyed(db.nodes, {id}), Facts(db.edges), []), {id}, id, now);
      after.edges == Apart(settled.facts + Sups(db.edges), {id}) + LinkEdges(after.nodes)
  {
    hide Settle, Lift;
    StartIs(db.nodes, id);
    var start := Revival(Unkeyed(db.nodes, {id}), Facts(db.edges), []);
    assert [id][..0] == [];
    assert SettleAll(start, {id}, [id][..0], now) == start;
    assert SettleAll(start, {id}, [id], now) == Settle(start, {id}, id, now);
  }

  lemma SettledFacts(db: Db, r: Revival, id: Id, now: int, v: Id)
    requires r.nodes == Unkeyed(db.nodes, {id}) && r.facts == Facts(db.edges) && IsCurrent(db.nodes, id)
    requires Children(r.nodes, id) - {id} == VersionsOf(db.nodes, id)
    requires VersionsOf(db.nodes, id) != {} ==> ReplacedLast(db.nodes, VersionsOf(db.nodes, id), v)
    ensures var back := VersionsOf(db.nodes, id) != {} && v in db.nodes && forall heir :: !Holds(db.nodes, v, id, heir);
      forall e :: e in Settle(r, {id}, id, now).facts + Sups(db.edges) <==> e in db.edges || (back && Brought(db.edges, id, v, e))
  {
    hide LatestVersion, Heirs, ReplacedLast, Holds, Revived, TakenOver;
    var versions := VersionsOf(db.nodes, id);
    if versions != {} {
      LastUnkeyed(db.nodes, id, versions, v);
      LatestIsLast(r.nodes, versions);
      assert v in versions && v != id by { LastIsOne(db.nodes, versions, v, id); }
      HeirsAre(db.nodes, id, v);
      var heirs := Heirs(r.nodes, {id}, db.nodes[v].kind, db.nodes[v].key);
      if heirs != {} {
        assert Holds(db.nodes, v, id, PickOne(heirs));
      }
      TakenOverIs(Facts(db.edges), id, v);
      assert forall e :: Brought(Facts(db.edges), id, v, e) <==> Brought(db.edges, id, v, e);
    }
  }
}
