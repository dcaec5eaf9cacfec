/** Chains of replacements: a finite map of links from a node to the node that replaced it. */
module Chains {

  type Id = nat
  type Links = map<Id, Id>

  /** `rank` falls along every link. */
  ghost predicate Ranked(links: Links, rank: map<Id, nat>) {
    forall a :: a in links ==> a in rank && links[a] in rank && rank[links[a]] < rank[a]
  }

  /** No chain of links loops (see `NoCycle` for the same thing said step by step). */
  ghost predicate Acyclic(links: Links) {
    exists rank :: Ranked(links, rank)
  }

  ghost function SomeRank(links: Links): (rank: map<Id, nat>)
    requires Acyclic(links)
    ensures Ranked(links, rank)
  {
    var rank :| Ranked(links, rank);
    rank
  }

  ghost function RankOf(links: Links, a: Id): nat
    requires Acyclic(links)
  {
    var rank := SomeRank(links);
    if a in rank then rank[a] else 0
  }

  /** From `a` up the chain past every linked node of `through`. */
  ghost function Climb(links: Links, through: set<Id>, a: Id): (top: Id)
    requires Acyclic(links)
    ensures top in links ==> top !in through
    ensures top == a || (a in links && top in links.Values)
    ensures RankOf(links, top) <= RankOf(links, a)
    decreases RankOf(links, a)
  {
    if a in links && a in through then Climb(links, through, links[a]) else a
  }

  /** The end of `a`'s chain. */
  ghost function End(links: Links, a: Id): (end: Id)
    requires Acyclic(links)
    ensures end !in links
  {
    Climb(links, links.Keys, a)
  }

  /** How many links lead from `a` to its end. */
  ghost function Depth(links: Links, a: Id): nat
    requires Acyclic(links)
    decreases RankOf(links, a)
  {
    if a in links then 1 + Depth(links, links[a]) else 0
  }

  /** Whether following links from `a` arrives at `b` (`a` itself included). */
  ghost predicate Reaches(links: Links, a: Id, b: Id)
    requires Acyclic(links)
    decreases RankOf(links, a)
  {
    a == b || (a in links && Reaches(links, links[a], b))
  }

  /** `n` links from `a`, or the end if the chain is shorter. */
  function Follow(links: Links, a: Id, n: nat): Id
    decreases n
  {
    if n == 0 || a !in links then a else Follow(links, links[a], n - 1)
  }

  lemma {:induction false} RankFalls(links: Links, a: Id, n: nat)
    requires Acyclic(links) && a in links && n > 0
    ensures RankOf(links, Follow(links, a, n)) < RankOf(links, a)
    decreases n
  {
    if n > 1 && links[a] in links {
      RankFalls(links, links[a], n - 1);
    }
  }

  /** No number of steps along the links leads back. */
  lemma NoCycle(links: Links, a: Id, n: nat)
    requires Acyclic(links) && a in links && n > 0
    ensures Follow(links, a, n) != a
  {
    RankFalls(links, a, n);
  }

  /** A chain has one end: wherever it passes, it ends in the same place. */
  lemma {:induction false} SameEnd(links: Links, a: Id, b: Id)
    requires Acyclic(links) && Reaches(links, a, b)
    ensures End(links, a) == End(links, b)
    decreases RankOf(links, a)
  {
    if a != b {
      SameEnd(links, links[a], b);
    }
  }

  lemma RankedIsAcyclic(links: Links, rank: map<Id, nat>)
    requires Ranked(links, rank)
    ensures Acyclic(links)
  {
  }

  /** Dropping links leaves the rest acyclic. */
  lemma FewerLinks(links: Links, fewer: Links)
    requires Acyclic(links)
    requires forall a :: a in fewer ==> a in links && fewer[a] == links[a]
    ensures Acyclic(fewer)
  {
    RankedIsAcyclic(fewer, SomeRank(links));
  }

  /** Links moved up their own chains stay acyclic. */
  lemma Lifted(links: Links, lifted: Links)
    requires Acyclic(links)
    requires forall a :: a in lifted ==> a in links && RankOf(links, lifted[a]) <= RankOf(links, links[a])
    ensures Acyclic(lifted)
  {
    var rank := map a | a in lifted.Keys + lifted.Values :: RankOf(links, a);
    RankedIsAcyclic(lifted, rank);
  }

  /** Any nodes may be linked to `top`, which has no link, as long as `top` gets none. */
  lemma LinkedToTop(links: Links, changed: Links, top: Id)
    requires Acyclic(links) && top !in changed
    requires forall a :: a in changed ==> changed[a] == top || (a in links && changed[a] == links[a])
    ensures Acyclic(changed)
  {
    var rank := map a | a in changed.Keys + changed.Values + {top} ::
      if a == top then 0 else 1 + RankOf(links, a);
    RankedIsAcyclic(changed, rank);
  }

  /** Linking `earlier` to `new` keeps chains acyclic when `new`'s chain does not pass `earlier`. */
  lemma Relinked(links: Links, earlier: Id, later: Id)
    requires Acyclic(links) && !Reaches(links, later, earlier)
    ensures Acyclic(links[earlier := later])
  {
    var above := RankOf(links, later) + 1;
    var rank := map a | a in links.Keys + links.Values + {earlier, later} ::
      RankOf(links, a) + if Reaches(links, a, earlier) then above else 0;
    RankedIsAcyclic(links[earlier := later], rank);
  }

  /** And it closes a loop when it does. */
  lemma {:induction false} RelinkedLoops(links: Links, earlier: Id, later: Id)
    requires Acyclic(links) && Reaches(links, later, earlier)
    ensures !Acyclic(links[earlier := later])
  {
    var looped := links[earlier := later];
    if Acyclic(looped) {
      ReachesRelinked(links, later, earlier, later);
    }
  }

  lemma {:induction false} ReachesRelinked(links: Links, a: Id, earlier: Id, later: Id)
    requires Acyclic(links) && Acyclic(links[earlier := later]) && Reaches(links, a, earlier)
    ensures RankOf(links[earlier := later], earlier) <= RankOf(links[earlier := later], a)
    decreases RankOf(links, a)
  {
    if a != earlier {
      ReachesRelinked(links, links[a], earlier, later);
    }
  }

  /** Putting `copy` between `top` and everything linked to it keeps chains acyclic. */
  lemma Spliced(links: Links, spliced: Links, top: Id, copy: Id)
    requires Acyclic(links) && top !in links && copy !in links && copy !in links.Values && copy != top
    requires spliced.Keys == links.Keys + {copy} && spliced[copy] == top
    requires forall a :: a in links ==> spliced[a] == if links[a] == top then copy else links[a]
    ensures Acyclic(spliced)
  {
    var rank := map a | a in links.Keys + links.Values + {top, copy} ::
      if a == copy then 2 * RankOf(links, top) + 1 else 2 * RankOf(links, a);
    RankedIsAcyclic(spliced, rank);
  }

  /** Climbing past one more node: those who stopped there go on from its link. */
  lemma {:induction false} ClimbOne(links: Links, through: set<Id>, id: Id, a: Id)
    requires Acyclic(links) && id in links && id !in through
    ensures Climb(links, through + {id}, a)
         == if Climb(links, through, a) == id then Climb(links, through, links[id])
            else Climb(links, through, a)
    decreases RankOf(links, a)
  {
    if a == id {
      NotReaching(links, through, id, links[id]);
    } else if a in links && a in through {
      ClimbOne(links, through, id, links[a]);
    }
  }

  lemma {:induction false} NotReaching(links: Links, through: set<Id>, id: Id, a: Id)
    requires Acyclic(links) && id in links && RankOf(links, a) < RankOf(links, id)
    ensures Climb(links, through + {id}, a) == Climb(links, through, a) != id
    decreases RankOf(links, a)
  {
    if a in links && a in through {
      NotReaching(links, through, id, links[a]);
    }
  }

  /** The end of a chain is `Depth` steps away. */
  lemma {:induction false} DepthEnds(links: Links, a: Id)
    requires Acyclic(links)
    ensures Follow(links, a, Depth(links, a)) == End(links, a)
    decreases RankOf(links, a)
  {
    if a in links {
      DepthEnds(links, links[a]);
    }
  }
}
