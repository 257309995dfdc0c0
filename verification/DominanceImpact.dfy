// Impact counts over the dominator tree, the whole analysis, and its removal oracle.
module DominanceImpact {
  import opened Common
  import opened Graphs
  import opened DepthFirst
  import opened DominatorTree
  import opened Dominance

  // The vertices whose chain goes through v.
  ghost function Subtree(t: Tree, v: nat): set<nat>
    requires t.Valid()
  {
    set w | w in t.parents && v in t.Chain(w)
  }

  // The vertex reached from w by climbing past every rank at or above j.
  ghost function Head(t: Tree, j: nat, w: nat): nat
    requires t.Valid() && w in t.parents
    decreases t.rank[w]
  {
    if w == t.root || t.rank[w] < j then w else Head(t, j, t.parents[w])
  }

  ghost function HeadedBy(t: Tree, j: nat, v: nat): set<nat>
    requires t.Valid()
  {
    set w | w in t.parents && Head(t, j, w) == v
  }

  lemma {:induction false} HeadOnChain(t: Tree, c: nat, w: nat)
    requires t.Valid() && w in t.parents && c in t.rank
    requires forall x :: x in t.rank && t.rank[x] == t.rank[c] ==> x == c
    ensures Head(t, t.rank[c] + 1, w) == c <==> c in t.Chain(w)
    decreases t.rank[w]
  {
    if w != t.root && t.rank[w] > t.rank[c] { HeadOnChain(t, c, t.parents[w]); }
  }

  lemma {:induction false} HeadStep(t: Tree, c: nat, w: nat)
    requires t.Valid() && w in t.parents && c in t.parents && c != t.root
    requires forall x :: x in t.rank && t.rank[x] == t.rank[c] ==> x == c
    ensures Head(t, t.rank[c], w) == if Head(t, t.rank[c] + 1, w) == c then t.parents[c] else Head(t, t.rank[c] + 1, w)
    decreases t.rank[w]
  {
    if w == t.root || t.rank[w] < t.rank[c] {
    } else if w == c {
      assert Head(t, t.rank[c], c) == Head(t, t.rank[c], t.parents[c]);
    } else {
      HeadStep(t, c, t.parents[w]);
    }
  }

  // Handling c moves everything headed by c to its parent and nothing else.
  lemma HeadsMove(t: Tree, c: nat, v: nat)
    requires t.Valid() && c in t.parents && c != t.root && v != c
    requires forall x :: x in t.rank && t.rank[x] == t.rank[c] ==> x == c
    ensures |HeadedBy(t, t.rank[c], v)| ==
            |HeadedBy(t, t.rank[c] + 1, v)| + if v == t.parents[c] then |HeadedBy(t, t.rank[c] + 1, c)| else 0
  {
    var after, before, moved := HeadedBy(t, t.rank[c], v), HeadedBy(t, t.rank[c] + 1, v), HeadedBy(t, t.rank[c] + 1, c);
    forall w ensures w in after <==> w in before || (v == t.parents[c] && w in moved) {
      if w in t.parents { HeadStep(t, c, w); }
    }
    assert before !! moved;
    if v == t.parents[c] {
      assert after == before + moved;
    } else {
      assert after == before;
    }
  }

  lemma HeadedIsSubtree(t: Tree, c: nat)
    requires t.Valid() && c in t.parents
    requires forall x :: x in t.rank && t.rank[x] == t.rank[c] ==> x == c
    ensures HeadedBy(t, t.rank[c] + 1, c) == Subtree(t, c)
  {
    forall w ensures w in HeadedBy(t, t.rank[c] + 1, c) <==> w in Subtree(t, c) {
      if w in t.parents { HeadOnChain(t, c, w); }
    }
  }

  // When every rank from j on is done: done vertices hold their subtree sizes, the others
  // the number of vertices they head.
  ghost function Due(t: Tree, j: nat, v: nat): nat
    requires t.Valid() && v in t.parents
  {
    if t.rank[v] < j then |HeadedBy(t, j, v)| else |Subtree(t, v)|
  }

  ghost predicate CountedFrom(t: Tree, counts: map<nat, nat>, j: nat)
    requires t.Valid()
  {
    counts.Keys == t.parents.Keys && forall v {:trigger counts[v]} :: v in counts ==> counts[v] == Due(t, j, v)
  }

  lemma DueStep(t: Tree, c: nat, j: nat, v: nat)
    requires t.Valid() && c in t.parents && c != t.root && t.rank[c] == j && v in t.parents
    requires forall x :: x in t.rank && t.rank[x] == j ==> x == c
    ensures Due(t, j, v) == Due(t, j + 1, v) + if v == t.parents[c] then Due(t, j + 1, c) else 0
  {
    if t.rank[v] < j {
      HeadsMove(t, c, v);
    } else if v == c {
      HeadedIsSubtree(t, c);
    }
  }

  lemma CountStep(t: Tree, counts: map<nat, nat>, c: nat, j: nat)
    requires t.Valid() && c in t.parents && c != t.root && t.rank[c] == j
    requires forall x :: x in t.rank && t.rank[x] == j ==> x == c
    requires CountedFrom(t, counts, j + 1)
    ensures t.parents[c] in counts && c in counts
    ensures CountedFrom(t, counts[t.parents[c] := counts[t.parents[c]] + counts[c]], j)
  {
    forall v | v in counts ensures Due(t, j, v) == counts[v] + if v == t.parents[c] then counts[c] else 0 {
      DueStep(t, c, j, v);
    }
  }

  lemma CountStart(t: Tree, counts: map<nat, nat>, n: nat)
    requires t.Valid() && counts.Keys == t.parents.Keys && forall v :: v in counts ==> counts[v] == 1
    requires forall v :: v in t.parents ==> t.rank[v] < n
    ensures CountedFrom(t, counts, n)
  {
    forall v | v in counts ensures |HeadedBy(t, n, v)| == 1 {
      assert HeadedBy(t, n, v) == {v};
    }
  }

  // Subtree sizes, accumulated from the last vertex of the order to the second.
  method Counts(order: seq<nat>, t: Tree) returns (counts: map<nat, nat>)
    requires Ranks(order, t.rank) && |order| > 0 && order[0] == t.root
    requires t.Valid() && t.parents.Keys == t.rank.Keys
    ensures counts.Keys == t.parents.Keys && forall v :: v in counts ==> counts[v] == |Subtree(t, v)|
  {
    counts := map v | v in t.parents :: 1;
    CountStart(t, counts, |order|);
    for i := |order| downto 1
      invariant CountedFrom(t, counts, i)
    {
      var node := order[i];
      RankUnique(order, t.rank, i);
      CountStep(t, counts, node, i);
      counts := counts[t.parents[node] := counts[t.parents[node]] + counts[node]];
    }
    CountEnd(order, t, counts);
  }

  lemma CountEnd(order: seq<nat>, t: Tree, counts: map<nat, nat>)
    requires Ranks(order, t.rank) && |order| > 0 && order[0] == t.root
    requires t.Valid() && CountedFrom(t, counts, 1)
    ensures forall v :: v in counts ==> counts[v] == |Subtree(t, v)|
  {
    forall v | v in counts ensures counts[v] == |Subtree(t, v)| {
      assert v in t.rank;
      if t.rank[v] < 1 {
        RankUnique(order, t.rank, 0);
        HeadedIsSubtree(t, v);
      }
    }
  }

  lemma RankUnique(order: seq<nat>, rank: map<nat, nat>, i: nat)
    requires Ranks(order, rank) && i < |order|
    ensures order[i] in rank && rank[order[i]] == i && (i > 0 ==> order[i] != order[0])
    ensures forall x :: x in rank && rank[x] == i ==> x == order[i]
  {
  }

  // p is the closest dominator of v other than v.
  ghost predicate ImmediateDominator(g: Graph, root: nat, p: nat, v: nat) {
    && p != v && Dominates(g, root, p, v)
    && forall u :: Dominates(g, root, u, v) && u != v ==> Dominates(g, root, u, p)
  }

  // The vertices other than v that only v connects to the root.
  ghost predicate LostWithout(g: Graph, root: nat, v: nat, w: nat) {
    w != v && Connected(g, root, w, {}) && !Connected(g, root, w, {v})
  }

  ghost function Lost(g: Graph, root: nat, v: nat, all: set<nat>): set<nat> {
    set w | w in all && LostWithout(g, root, v, w)
  }

  lemma DominatesIsLost(g: Graph, root: nat, u: nat, v: nat)
    ensures Dominates(g, root, u, v) <==> !Connected(g, root, v, {u})
  {
    if !Dominates(g, root, u, v) {
      var w :| WalkBetween(g, w, root, v) && u !in Visits(w);
      assert Visits(w) !! {u};
    }
  }

  lemma ParentIsImmediate(g: Graph, t: Tree, v: nat)
    requires Solved(g, t) && v in t.parents && v != t.root
    ensures t.parents[v] in t.parents && ImmediateDominator(g, t.root, t.parents[v], v)
  {
    var p := t.parents[v];
    assert p in t.Chain(v);
    forall u | Dominates(g, t.root, u, v) && u != v ensures Dominates(g, t.root, u, p) {
      assert u in t.Chain(v);
      assert u in t.Chain(p);
    }
  }

  lemma ParentsAreImmediate(g: Graph, t: Tree)
    requires Solved(g, t)
    ensures forall v {:trigger t.parents[v]} :: v in t.parents && v != t.root ==>
      ImmediateDominator(g, t.root, t.parents[v], v)
  {
    forall v | v in t.parents && v != t.root ensures ImmediateDominator(g, t.root, t.parents[v], v) {
      ParentIsImmediate(g, t, v);
    }
  }

  lemma ImpactIsLost(g: Graph, t: Tree, v: nat)
    requires Solved(g, t) && v in t.parents
    requires forall x :: x in t.rank <==> Connected(g, t.root, x, {})
    ensures |Subtree(t, v)| - 1 == |Lost(g, t.root, v, t.parents.Keys)|
  {
    var lost := Lost(g, t.root, v, t.parents.Keys);
    forall w | w in t.parents ensures w in Subtree(t, v) <==> w == v || w in lost {
      DominatesIsLost(g, t.root, v, w);
      assert v in t.Chain(w) <==> Dominates(g, t.root, v, w);
    }
    assert Subtree(t, v) == lost + {v};
  }

  lemma RankedInRange(g: Graph, root: nat, order: seq<nat>, rank: map<nat, nat>)
    requires WellFormed(g) && IsOrder(g, root, order, rank)
    ensures forall v :: v in rank ==> v < |g|
  {
    forall v | v in rank ensures v < |g| {
      assert Connected(g, root, v, {});
      var w :| WalkBetween(g, w, root, v) && Visits(w) !! {};
      WalkInRange(g, w);
      WalkEnds(w);
    }
  }

  lemma StartReady(g: Graph, root: nat, order: seq<nat>, rank: map<nat, nat>)
    requires IsOrder(g, root, order, rank) && root < |g|
    ensures Ready(g, Tree(root, rank, map[root := root]), 0)
  {
    var t := Tree(root, rank, map[root := root]);
    OrderCovers(g, order, t);
    FirstPass(g, order, t);
  }

  // Search, order and iterate.
  method Solve(g: Graph, root: nat) returns (order: seq<nat>, t: Tree)
    requires WellFormed(g) && root < |g|
    ensures t.root == root && Solved(g, t) && Ranks(order, t.rank) && |order| > 0 && order[0] == root
    ensures forall v :: v in t.rank <==> Connected(g, root, v, {})
  {
    var incoming := Incoming(g);
    var rank;
    order, rank := ReversePostorder(g, root);
    RankedInRange(g, root, order, rank);
    StartReady(g, root, order, rank);
    var converged;
    t, converged := Iterate(g, root, order, rank, incoming);
  }

  // The subtree size of v less one is the number of vertices lost with v.
  ghost predicate ImpactsLost(g: Graph, t: Tree, counts: map<nat, nat>)
    requires t.Valid()
  {
    && counts.Keys == t.parents.Keys
    && forall v :: v in counts ==>
         counts[v] >= 1 && counts[v] - 1 == |Lost(g, t.root, v, t.parents.Keys)|
  }

  lemma CountsAreImpacts(g: Graph, t: Tree, counts: map<nat, nat>)
    requires Solved(g, t) && counts.Keys == t.parents.Keys
    requires forall v :: v in t.rank <==> Connected(g, t.root, v, {})
    requires forall v :: v in counts ==> counts[v] == |Subtree(t, v)|
    ensures ImpactsLost(g, t, counts)
  {
    forall v | v in counts
      ensures counts[v] >= 1 && counts[v] - 1 == |Lost(g, t.root, v, t.parents.Keys)|
    {
      ImpactIsLost(g, t, v);
    }
  }

  // The meaning of the result: every reachable vertex with its immediate dominator (none for
  // the root) and the number of vertices lost when it is removed.
  ghost predicate IsAnalysis(g: Graph, root: nat, parents: map<nat, Option<nat>>, impacts: map<nat, nat>) {
    && (forall v :: v in parents <==> Connected(g, root, v, {}))
    && root in parents && parents[root] == None
    && (forall v :: v in parents && v != root ==>
          parents[v].Some? && ImmediateDominator(g, root, parents[v].value, v))
    && impacts.Keys == parents.Keys
    && (forall v :: v in impacts ==> impacts[v] == |Lost(g, root, v, parents.Keys)|)
  }

  // How the published maps relate to the tree and the counts.
  ghost predicate Published(t: Tree, counts: map<nat, nat>, parents: map<nat, Option<nat>>, impacts: map<nat, nat>) {
    && parents.Keys == t.parents.Keys && impacts.Keys == counts.Keys
    && (forall v :: v in parents ==> parents[v] == if v == t.root then None else Some(t.parents[v]))
    && (forall v :: v in impacts ==> impacts[v] + 1 == counts[v])
  }

  lemma PublishedIsAnalysis(g: Graph, t: Tree, counts: map<nat, nat>, parents: map<nat, Option<nat>>, impacts: map<nat,
                            nat>)
    requires Solved(g, t) && ImpactsLost(g, t, counts) && Published(t, counts, parents, impacts)
    requires forall v :: v in t.rank <==> Connected(g, t.root, v, {})
    ensures IsAnalysis(g, t.root, parents, impacts)
  {
    ParentsAreImmediate(g, t);
    forall v | v in impacts ensures impacts[v] == |Lost(g, t.root, v, parents.Keys)| {
      assert counts[v] - 1 == |Lost(g, t.root, v, t.parents.Keys)|;
    }
  }

  // Dominator parents and impact counts of every vertex reachable from root.
  method Analyze(g: Graph, root: nat)
    returns (parents: map<nat, Option<nat>>, impacts: map<nat, nat>)
    requires WellFormed(g) && root < |g|
    ensures IsAnalysis(g, root, parents, impacts)
  {
    var order, tree := Solve(g, root);
    var sizes := Counts(order, tree);
    CountsAreImpacts(g, tree, sizes);
    parents, impacts := Publish(tree, sizes);
    PublishedIsAnalysis(g, tree, sizes, parents, impacts);
  }

  // The result maps: no parent for the root, and one less than each count.
  method Publish(t: Tree, counts: map<nat, nat>) returns (parents: map<nat, Option<nat>>, impacts: map<nat, nat>)
    requires forall v :: v in counts ==> counts[v] >= 1
    ensures Published(t, counts, parents, impacts)
  {
    parents := map v | v in t.parents :: if v == t.root then None else Some(t.parents[v]);
    impacts := map v | v in counts :: counts[v] - 1;
  }
}
