// scripts/check_dominance_reference.py: dominators by reverse postorder and two-finger intersection.
module Dominance {
  import opened Common
  import opened Graphs
  import opened DepthFirst
  import opened DominatorTree

  // The predecessor lists: incoming[v] holds a exactly when there is an edge from a to v.
  method Incoming(g: Graph) returns (incoming: seq<seq<nat>>)
    requires WellFormed(g)
    ensures |incoming| == |g|
    ensures forall a: nat, v: nat :: v < |g| ==> (a in incoming[v] <==> Edge(g, a, v))
  {
    incoming := seq(|g|, (i: nat) => []);
    assert forall v: nat :: v < |g| ==> incoming[v] == [];
    for node := 0 to |g|
      invariant |incoming| == |g|
      invariant forall a: nat, v: nat :: v < |g| ==> (a in incoming[v] <==> a < node && Edge(g, a, v))
    {
      for i := 0 to |g[node]|
        invariant |incoming| == |g|
        invariant forall a: nat, v: nat :: v < |g| ==>
          (a in incoming[v] <==> (a < node && Edge(g, a, v)) || (a == node && v in g[node][..i]))
      {
        var target := g[node][i];
        assert g[node][..i + 1] == g[node][..i] + [target];
        incoming := incoming[target := incoming[target] + [node]];
      }
      assert g[node][..|g[node]|] == g[node];
    }
  }

  // Two fingers climb until they meet: the chain of the result is the common part of both chains.
  method Intersect(t: Tree, left0: nat, right0: nat) returns (left: nat)
    requires t.Valid() && left0 in t.parents && right0 in t.parents
    requires forall a, b :: a in t.rank && b in t.rank && t.rank[a] == t.rank[b] ==> a == b
    ensures left in t.parents
    ensures t.Chain(left) == t.Chain(left0) * t.Chain(right0)
  {
    left := left0;
    var right := right0;
    while left != right
      invariant left in t.parents && right in t.parents
      invariant t.Chain(left) * t.Chain(right) == t.Chain(left0) * t.Chain(right0)
      decreases t.rank[left] + t.rank[right]
    {
      if t.rank[left] > t.rank[right] {
        t.Climb(left, right);
        left := t.parents[left];
      } else {
        t.Climb(right, left);
        right := t.parents[right];
      }
    }
  }

  // The chain of p is the common part of the chains of the first n listed vertices that are known.
  ghost predicate MeetsFirst(t: Tree, preds: seq<nat>, n: nat, p: Option<nat>)
    requires t.Valid() && n <= |preds|
  {
    match p
    case None => forall i :: 0 <= i < n ==> preds[i] !in t.parents
    case Some(m) =>
      && m in t.parents
      && (forall i, u :: 0 <= i < n && preds[i] in t.parents && u in t.Chain(m) ==> u in t.Chain(preds[i]))
      && (forall u :: (forall i :: 0 <= i < n && preds[i] in t.parents ==> u in t.Chain(preds[i])) ==> u in t.Chain(m))
  }

  lemma MeetsNext(t: Tree, preds: seq<nat>, n: nat, p: Option<nat>, m: nat)
    requires t.Valid() && n < |preds| && MeetsFirst(t, preds, n, p) && preds[n] in t.parents
    requires m in t.parents
    requires t.Chain(m) == if p.None? then t.Chain(preds[n]) else t.Chain(p.value) * t.Chain(preds[n])
    ensures MeetsFirst(t, preds, n + 1, Some(m))
  {
    forall u | forall i :: 0 <= i < n + 1 && preds[i] in t.parents ==> u in t.Chain(preds[i])
      ensures u in t.Chain(m)
    {
      assert u in t.Chain(preds[n]);
    }
  }

  lemma MeetsSkip(t: Tree, preds: seq<nat>, n: nat, p: Option<nat>)
    requires t.Valid() && n < |preds| && MeetsFirst(t, preds, n, p) && preds[n] !in t.parents
    ensures MeetsFirst(t, preds, n + 1, p)
  {
    if p.Some? {
      forall u | forall i :: 0 <= i < n + 1 && preds[i] in t.parents ==> u in t.Chain(preds[i])
        ensures u in t.Chain(p.value)
      {
        assert forall i :: 0 <= i < n && preds[i] in t.parents ==> u in t.Chain(preds[i]);
      }
    }
  }

  // The inner loop over the predecessors of a vertex.
  method MeetPredecessors(t: Tree, preds: seq<nat>) returns (parent: Option<nat>)
    requires t.Valid()
    requires forall a, b :: a in t.rank && b in t.rank && t.rank[a] == t.rank[b] ==> a == b
    ensures MeetsFirst(t, preds, |preds|, parent)
  {
    parent := None;
    for i := 0 to |preds|
      invariant MeetsFirst(t, preds, i, parent)
    {
      var predecessor := preds[i];
      if predecessor in t.parents {
        var m := predecessor;
        if parent.Some? {
          m := Intersect(t, parent.value, predecessor);
        }
        MeetsNext(t, preds, i, parent, m);
        parent := Some(m);
      } else {
        MeetsSkip(t, preds, i, parent);
      }
    }
  }

  lemma MeetsAll(g: Graph, t: Tree, v: nat, preds: seq<nat>, p: Option<nat>)
    requires t.Valid() && MeetsFirst(t, preds, |preds|, p)
    requires forall a :: a in preds <==> Edge(g, a, v)
    requires exists q :: q in t.parents && Edge(g, q, v) && q in t.rank && v in t.rank && t.rank[q] < t.rank[v]
    ensures p.Some? && IsMeet(g, t, v, p.value)
  {
    var q :| q in t.parents && Edge(g, q, v) && q in t.rank && v in t.rank && t.rank[q] < t.rank[v];
    var k :| 0 <= k < |preds| && preds[k] == q;
    forall x, u | x in t.parents && Edge(g, x, v) && u in t.Chain(p.value) ensures u in t.Chain(x) {
      var i :| 0 <= i < |preds| && preds[i] == x;
      assert preds[i] in t.parents;
    }
    forall u | forall x :: x in t.parents && Edge(g, x, v) ==> u in t.Chain(x) ensures u in t.Chain(p.value) {
      forall i | 0 <= i < |preds| && preds[i] in t.parents ensures u in t.Chain(preds[i]) {
        assert Edge(g, preds[i], v);
      }
    }
  }

  // Everything an unfinished pass knows: pass k has handled the ranks below pos.
  ghost predicate InPass(g: Graph, t: Tree, k: nat, pos: nat) {
    && t.Valid() && LinksHigh(g, t) && Sound(g, t) && Covers(g, t)
    && Known(t, k, pos) && Complete(g, t, k, pos)
  }

  // The facts about the order that never change.
  ghost predicate Ordered(g: Graph, root: nat, order: seq<nat>, rank: map<nat, nat>, incoming: seq<seq<nat>>) {
    && Ranks(order, rank) && |order| > 0 && order[0] == root
    && (forall v {:trigger HasEarlierParent(g, rank, v)} :: v in rank && v != root ==> HasEarlierParent(g, rank, v))
    && (forall v :: v in rank ==> v < |g|)
    && |incoming| == |g|
    && (forall a: nat, v: nat :: v < |g| ==> (a in incoming[v] <==> Edge(g, a, v)))
  }

  lemma RankInjective(order: seq<nat>, rank: map<nat, nat>)
    requires Ranks(order, rank)
    ensures forall a, b :: a in rank && b in rank && rank[a] == rank[b] ==> a == b
  {
    forall a, b | a in rank && b in rank && rank[a] == rank[b] ensures a == b {
      assert order[rank[a]] == a && order[rank[b]] == b;
    }
  }

  lemma Relink(g: Graph, t: Tree, k: nat, pos: nat, v: nat, p: nat)
    requires InPass(g, t, k, pos) && k >= 1
    requires v in t.rank && t.rank[v] == pos && v != t.root && IsMeet(g, t, v, p)
    requires forall x :: x in t.rank ==> x < |g|
    requires forall x :: x in t.rank && t.rank[x] == pos ==> x == v
    ensures InPass(g, t.With(v, p), k, pos + 1)
  {
    UpdateLinksHigh(g, t, v, p);
    UpdateSound(g, t, v, p);
    UpdateComplete(g, t, k, pos, v, p);
    assert Covers(g, t.With(v, p));
    KnownNext(t, k, pos, v, p);
  }

  lemma KnownNext(t: Tree, k: nat, pos: nat, v: nat, p: nat)
    requires Known(t, k, pos) && v in t.rank && t.rank[v] == pos
    requires forall x :: x in t.rank && t.rank[x] == pos ==> x == v
    ensures Known(t.With(v, p), k, pos + 1)
  {
  }

  // One vertex of a pass: recompute its parent from its predecessors.
  method ProcessVertex(g: Graph, order: seq<nat>, incoming: seq<seq<nat>>, t: Tree, ghost k: nat, pos: nat)
    returns (parent: nat)
    requires Ordered(g, t.root, order, t.rank, incoming) && InPass(g, t, k, pos) && k >= 1
    requires 0 < pos < |order|
    ensures IsMeet(g, t, order[pos], parent) && parent in t.rank && t.rank[parent] < t.rank[order[pos]]
    ensures InPass(g, t.With(order[pos], parent), k, pos + 1)
  {
    var node := order[pos];
    assert node in t.rank && t.rank[node] == pos && node != t.root;
    RankInjective(order, t.rank);
    var found := MeetPredecessors(t, incoming[node]);
    assert HasEarlierParent(g, t.rank, node);
    MeetsAll(g, t, node, incoming[node], found);
    parent := found.value;
    MeetBelow(g, t, node, parent);
    Relink(g, t, k, pos, node, parent);
  }

  // Store the recomputed parent and report whether it is new.
  method UpdateVertex(g: Graph, order: seq<nat>, incoming: seq<seq<nat>>, t0: Tree, ghost k: nat, pos: nat)
    returns (t: Tree, changed: bool)
    requires Ordered(g, t0.root, order, t0.rank, incoming) && InPass(g, t0, k, pos) && k >= 1
    requires 0 < pos < |order|
    ensures t.root == t0.root && t.rank == t0.rank && InPass(g, t, k, pos + 1)
    ensures changed ==> !(Exact(g, t0) && t0.parents.Keys == t0.rank.Keys)
    ensures !changed ==> t == t0 && order[pos] in t.parents && IsMeet(g, t, order[pos], t.parents[order[pos]])
  {
    var node := order[pos];
    var parent := ProcessVertex(g, order, incoming, t0, k, pos);
    if node in t0.parents && t0.parents[node] == parent {
      WithSame(t0, node);
      return t0, false;
    }
    if Exact(g, t0) && t0.parents.Keys == t0.rank.Keys {
      ExactIsStable(g, t0, node, parent);
    }
    return t0.With(node, parent), true;
  }

  lemma WithSame(t: Tree, v: nat)
    requires v in t.parents
    ensures t.With(v, t.parents[v]) == t
  {
    assert t.parents[v := t.parents[v]] == t.parents;
  }

  // The vertices handled so far keep the parent that their predecessors give.
  ghost predicate SettledBelow(g: Graph, t: Tree, pos: nat)
    requires t.Valid()
  {
    forall v {:trigger t.parents[v]} :: v in t.parents && v != t.root && v in t.rank && t.rank[v] < pos ==>
      IsMeet(g, t, v, t.parents[v])
  }

  // One pass over the order. It changes nothing when the chains are already exact, and when
  // it changes nothing the parent map is stable.
  method Pass(g: Graph, order: seq<nat>, incoming: seq<seq<nat>>, t0: Tree, ghost k: nat)
    returns (t: Tree, changed: bool)
    requires Ordered(g, t0.root, order, t0.rank, incoming) && InPass(g, t0, k, 1) && k >= 1
    ensures t.root == t0.root && t.rank == t0.rank && InPass(g, t, k, |order|)
    ensures Exact(g, t0) && t0.parents.Keys == t0.rank.Keys ==> !changed
    ensures !changed ==> t == t0 && Stable(g, t)
  {
    t, changed := t0, false;
    for pos := 1 to |order|
      invariant t.root == t0.root && t.rank == t0.rank && InPass(g, t, k, pos)
      invariant Exact(g, t0) && t0.parents.Keys == t0.rank.Keys ==> !changed
      invariant !changed ==> t == t0 && SettledBelow(g, t, pos)
    {
      var moved;
      t, moved := UpdateVertex(g, order, incoming, t, k, pos);
      if !changed && !moved { SettleNext(g, order, t, pos); }
      changed := changed || moved;
    }
  }

  lemma SettleNext(g: Graph, order: seq<nat>, t: Tree, pos: nat)
    requires t.Valid() && Ranks(order, t.rank) && pos < |order| && SettledBelow(g, t, pos)
    requires order[pos] in t.parents && IsMeet(g, t, order[pos], t.parents[order[pos]])
    ensures SettledBelow(g, t, pos + 1)
  {
  }

  lemma OrderCovers(g: Graph, order: seq<nat>, t: Tree)
    requires IsOrder(g, t.root, order, t.rank)
    ensures Covers(g, t)
  {
    forall w | IsWalk(g, w) && Start(w) == t.root ensures w.v in t.rank {
      assert WalkBetween(g, w, t.root, w.v) && Visits(w) !! {};
    }
  }

  lemma RootSound(g: Graph, t: Tree)
    requires t.root in t.rank && t.parents == map[t.root := t.root] && t.root < |g|
    ensures t.Valid() && Sound(g, t)
  {
    assert WalkBetween(g, At(t.root), t.root, t.root);
    forall u, v | v in t.parents && Dominates(g, t.root, u, v) ensures u in t.Chain(v) {
      assert u in Visits(At(t.root));
    }
  }

  lemma RootComplete(g: Graph, t: Tree)
    requires t.Valid() && t.parents == map[t.root := t.root]
    ensures Complete(g, t, 1, 1)
  {
    forall v, u, w | v in t.parents && u in t.Chain(v) && WalkBetween(g, w, t.root, v) ensures u in Visits(w) {
      WalkEnds(w);
    }
  }

  lemma FirstPass(g: Graph, order: seq<nat>, t: Tree)
    requires Ranks(order, t.rank) && |order| > 0 && order[0] == t.root
    requires Covers(g, t) && t.parents == map[t.root := t.root] && t.root < |g|
    ensures InPass(g, t, 1, 1)
  {
    assert order[0] in t.rank && t.rank[t.root] == 0;
    RootSound(g, t);
    RootComplete(g, t);
  }

  lemma AfterPass(g: Graph, order: seq<nat>, t: Tree, k: nat)
    requires Ranks(order, t.rank) && |order| > 0 && order[0] == t.root
    requires InPass(g, t, k, |order|) && k >= 1
    ensures t.parents.Keys == t.rank.Keys
    ensures InPass(g, t, k + 1, 1)
    ensures k >= |g| && (forall v :: v in t.rank ==> v < |g|) ==> Exact(g, t)
  {
    NextPass(g, t, k, |order|);
    if k >= |g| && forall v :: v in t.rank ==> v < |g| {
      SubsetCard(t.rank.Keys, Below(|g|));
      BelowCard(|g|);
      EnoughPasses(g, t, k, |order|);
    }
  }

  // The state between passes, when `passes` of them are over.
  ghost predicate Ready(g: Graph, t: Tree, passes: nat) {
    && InPass(g, t, passes + 1, 1)
    && (passes >= 1 ==> t.parents.Keys == t.rank.Keys)
    && (passes >= |g| ==> Exact(g, t))
  }

  // What the analysis delivers: every reachable vertex has a parent and every chain is exact.
  ghost predicate Solved(g: Graph, t: Tree) {
    t.Valid() && t.parents.Keys == t.rank.Keys && Exact(g, t)
  }

  method Round(g: Graph, order: seq<nat>, incoming: seq<seq<nat>>, t0: Tree, ghost passes: nat)
    returns (t: Tree, changed: bool)
    requires Ordered(g, t0.root, order, t0.rank, incoming) && |g| > 0 && Ready(g, t0, passes)
    ensures t.root == t0.root && t.rank == t0.rank && Ready(g, t, passes + 1)
    ensures passes >= |g| ==> !changed
    ensures !changed ==> Solved(g, t)
  {
    t, changed := Pass(g, order, incoming, t0, passes + 1);
    AfterPass(g, order, t, passes + 1);
    if !changed { StableIsExact(g, t); }
  }

  // The outer loop: at most size + 1 passes, and it always stops by itself.
  method Iterate(g: Graph, root: nat, order: seq<nat>, rank: map<nat, nat>, incoming: seq<seq<nat>>)
    returns (t: Tree, converged: bool)
    requires Ordered(g, root, order, rank, incoming) && root < |g|
    requires Ready(g, Tree(root, rank, map[root := root]), 0)
    ensures converged
    ensures t.root == root && t.rank == rank && Solved(g, t)
  {
    t := Tree(root, rank, map[root := root]);
    converged := false;
    var pass := 0;
    while pass < |g| + 1 && !converged
      invariant t.root == root && t.rank == rank
      invariant Ready(g, t, pass)
      invariant converged ==> Solved(g, t)
      invariant converged || pass <= |g|
      decreases |g| + 1 - pass
    {
      var changed;
      t, changed := Round(g, order, incoming, t, pass);
      pass := pass + 1;
      converged := !changed;
    }
  }
}
