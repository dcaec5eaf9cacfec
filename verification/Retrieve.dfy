/** Finding the current version of a node. */
module Retrieve {
  import opened Chains
  import opened Wrappers
  import opened Knowledge
  import opened Invariants
  import opened Runs

  /** Reads at most this many rows before giving up. */
  const READS := 32

  /** Follows replacements from `id`, giving up after `READS` rows. */
  method CurrentVersion(nodes: Nodes, id: Id) returns (found: Option<Id>)
    requires Shaped(nodes)
    ensures found == if id in nodes && Depth(LinksOf(nodes), id) < READS then Some(End(LinksOf(nodes), id)) else None
  {
    ghost var links := LinksOf(nodes);
    var current := id;
    for read := 0 to READS
      invariant id in nodes ==> current in nodes
      invariant id !in nodes ==> read == 0 && current == id
      invariant Depth(links, id) == read + Depth(links, current)
      invariant End(links, id) == End(links, current)
    {
      if current !in nodes {
        return None;
      }
      if nodes[current].status.state == Superseded && nodes[current].status.supersededBy.Some? {
        SameEnd(links, current, links[current]);
        current := nodes[current].status.supersededBy.value;
      } else {
        return Some(current);
      }
    }
    return None;
  }

  /** At every state of any run, a node's chain ends in one stored, current node, and passes no other. */
  lemma OneCurrentEnd(outside: Outside, dbs: seq<Db>, commands: seq<Command>, i: nat, id: Id)
    requires IsTrace(outside, dbs, commands) && i < |dbs| && id in dbs[i].nodes
    ensures var nodes := dbs[i].nodes;
      && Shaped(nodes)
      && IsCurrent(nodes, End(LinksOf(nodes), id))
      && forall c :: IsCurrent(nodes, c) && Reaches(LinksOf(nodes), id, c) ==> c == End(LinksOf(nodes), id)
  {
    var nodes := dbs[i].nodes;
    TraceValid(outside, dbs, commands, i);
    hide ExecsTo;
    hide UniqueKeys, Reasoned, Supported, Embeds, Joined;
    EndStored(nodes, id);
    forall c | IsCurrent(nodes, c) && Reaches(LinksOf(nodes), id, c) ensures c == End(LinksOf(nodes), id) {
      SameEnd(LinksOf(nodes), id, c);
    }
  }

  lemma {:induction false} EndStored(nodes: Nodes, id: Id)
    requires Shaped(nodes) && id in nodes
    ensures IsCurrent(nodes, End(LinksOf(nodes), id))
    decreases RankOf(LinksOf(nodes), id)
  {
    if id in LinksOf(nodes) {
      EndStored(nodes, LinksOf(nodes)[id]);
    }
  }
}
