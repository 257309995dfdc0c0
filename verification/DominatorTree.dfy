// The theory behind the dominator iteration: parent chains, what one update of a parent
// preserves, and why the iteration is exact when it stops.
module DominatorTree {
  import opened Common
  import opened Graphs

  // u lies on every walk from the root to v.
  ghost predicate Dominates(g: Graph, root: nat, u: nat, v: nat) {
    forall w :: WalkBetween(g, w, root, v) ==> u in Visits(w)
  }

  // A parent map over ranked vertices, as the iteration keeps it.
  datatype Tree = Tree(root: nat, rank: map<nat, nat>, parents: map<nat, nat>) {

    ghost predicate Valid() {
      && root in parents
      && (forall v :: v in parents ==> v in rank)
      && (forall v {:trigger parents[v]} :: v in parents && v != root ==>
            parents[v] in parents && rank[parents[v]] < rank[v])
    }

    // The vertices met when following parents from v up to the root.
    ghost function Chain(v: nat): (c: set<nat>)
      requires Valid() && v in parents
      ensures v in c && root in c
      ensures forall u :: u in c ==> u in parents && (u == v || rank[u] < rank[v])
      decreases rank[v]
    {
      if v == root then {v} else Chain(parents[v]) + {v}
    }

    lemma {:induction false} ChainNested(u: nat, v: nat)
      requires Valid() && v in parents && u in Chain(v)
      ensures Chain(u) <= Chain(v)
      decreases rank[v]
    {
      if u != v { ChainNested(u, parents[v]); }
    }

    // A vertex ranked above another is not on its chain, so climbing from it keeps the common part.
    lemma Climb(a: nat, b: nat)
      requires Valid() && a in parents && b in parents && rank[b] < rank[a]
      ensures a == root || Chain(a) * Chain(b) == Chain(parents[a]) * Chain(b)
      ensures a != root
    {
      assert root in Chain(b);
      assert a !in Chain(b);
    }

    // A chain is totally ordered by rank.
    lemma {:induction false} ChainOrdered(a: nat, b: nat, v: nat)
      requires Valid() && v in parents && a in Chain(v) && b in Chain(v) && rank[a] <= rank[b]
      ensures rank[a] == rank[b] ==> a == b
      ensures a in Chain(b)
      decreases rank[v]
    {
      if a != v && b != v { ChainOrdered(a, b, parents[v]); }
    }

    lemma ChainDetermines(a: nat, b: nat)
      requires Valid() && a in parents && b in parents && Chain(a) == Chain(b)
      ensures a == b
    {
      assert a in Chain(b) && b in Chain(a);
    }

    function With(v: nat, p: nat): Tree {
      Tree(root, rank, parents[v := p])
    }

    ghost predicate CanLink(v: nat, p: nat) {
      v in rank && v != root && p in parents && p in rank && rank[p] < rank[v]
    }

    lemma WithValid(v: nat, p: nat)
      requires Valid() && CanLink(v, p)
      ensures With(v, p).Valid()
    {
    }

    // Relinking v leaves the chains that miss v alone ...
    lemma {:induction false} ChainWithout(v: nat, p: nat, x: nat)
      requires Valid() && CanLink(v, p) && x in parents && v !in Chain(x)
      ensures With(v, p).Valid() && With(v, p).Chain(x) == Chain(x)
      decreases rank[x]
    {
      WithValid(v, p);
      if x != root { ChainWithout(v, p, parents[x]); }
    }

    // ... and replaces the part above v of the others.
    lemma {:induction false} ChainWith(v: nat, p: nat, x: nat)
      requires Valid() && CanLink(v, p) && x in parents && v in Chain(x)
      ensures With(v, p).Valid() && v in With(v, p).parents
      ensures With(v, p).Chain(x) == (Chain(x) - Chain(v)) + With(v, p).Chain(v)
      decreases rank[x]
    {
      WithValid(v, p);
      if x != v {
        ChainWith(v, p, parents[x]);
        assert x !in Chain(v);
      }
    }

    lemma Relinked(v: nat, p: nat, x: nat)
      requires Valid() && CanLink(v, p) && x in parents
      ensures With(v, p).Valid() && v in With(v, p).parents
      ensures With(v, p).Chain(x) ==
              if v in Chain(x) then (Chain(x) - Chain(v)) + With(v, p).Chain(v) else Chain(x)
    {
      if v in Chain(x) { ChainWith(v, p, x); } else { ChainWithout(v, p, x); }
    }

    lemma ChainWithSelf(v: nat, p: nat)
      requires Valid() && CanLink(v, p)
      ensures With(v, p).Valid() && With(v, p).Chain(v) == Chain(p) + {v}
    {
      WithValid(v, p);
      ChainWithout(v, p, p);
    }
  }

  // A walk from a to b that stays at or above the rank of a.
  ghost predicate High(g: Graph, rank: map<nat, nat>, a: nat, b: nat) {
    a in rank && exists w :: WalkBetween(g, w, a, b) && forall x :: x in Visits(w) ==> x in rank && rank[a] <= rank[x]
  }

  ghost predicate LinksHigh(g: Graph, t: Tree) {
    forall v {:trigger t.parents[v]} :: v in t.parents && v != t.root ==> High(g, t.rank, t.parents[v], v)
  }

  lemma HighTransitive(g: Graph, rank: map<nat, nat>, a: nat, b: nat, c: nat)
    requires High(g, rank, a, b) && High(g, rank, b, c) && b in rank && rank[a] <= rank[b]
    ensures High(g, rank, a, c)
  {
    var x :| WalkBetween(g, x, a, b) && forall y :: y in Visits(x) ==> y in rank && rank[a] <= rank[y];
    var z :| WalkBetween(g, z, b, c) && forall y :: y in Visits(z) ==> y in rank && rank[b] <= rank[y];
    JoinIsWalk(g, x, z);
    assert WalkBetween(g, Join(x, z), a, c);
  }

  lemma HighEdge(g: Graph, rank: map<nat, nat>, a: nat, b: nat)
    requires a in rank && b in rank && Edge(g, a, b) && rank[a] <= rank[b]
    ensures High(g, rank, a, b)
  {
    var w := Step(At(a), b);
    assert WalkBetween(g, w, a, b);
    assert forall x :: x in Visits(w) ==> x == a || x == b;
  }

  lemma {:induction false} ChainHigh(g: Graph, t: Tree, u: nat, v: nat)
    requires t.Valid() && LinksHigh(g, t) && v in t.parents && u in t.Chain(v) && v < |g|
    ensures High(g, t.rank, u, v)
    decreases t.rank[v]
  {
    if u == v {
      assert WalkBetween(g, At(v), v, v);
    } else {
      var p := t.parents[v];
      assert High(g, t.rank, p, v);
      var w :| WalkBetween(g, w, p, v) && forall x :: x in Visits(w) ==> x in t.rank && t.rank[p] <= t.rank[x];
      StartInRange(g, w);
      ChainHigh(g, t, u, p);
      HighTransitive(g, t.rank, u, p, v);
    }
  }

  lemma {:induction false} StartInRange(g: Graph, w: Walk)
    requires IsWalk(g, w)
    ensures Start(w) < |g|
  {
    if w.Step? { StartInRange(g, w.prev); }
  }

  // The true dominators are on the chains.
  ghost predicate Sound(g: Graph, t: Tree)
    requires t.Valid()
  {
    forall u, v {:trigger Dominates(g, t.root, u, v)} :: v in t.parents && Dominates(g, t.root, u, v) ==>
      u in t.Chain(v)
  }

  // p is the deepest vertex common to the chains of the known predecessors of v.
  ghost predicate IsMeet(g: Graph, t: Tree, v: nat, p: nat)
    requires t.Valid()
  {
    && p in t.parents
    && (forall q, u :: q in t.parents && Edge(g, q, v) && u in t.Chain(p) ==> u in t.Chain(q))
    && (forall u :: (forall q :: q in t.parents && Edge(g, q, v) ==> u in t.Chain(q)) ==> u in t.Chain(p))
    && (exists q :: q in t.parents && Edge(g, q, v) && q in t.rank && v in t.rank && t.rank[q] < t.rank[v])
  }

  lemma MeetBelow(g: Graph, t: Tree, v: nat, p: nat)
    requires t.Valid() && v != t.root && IsMeet(g, t, v, p)
    ensures t.CanLink(v, p)
  {
    var q :| q in t.parents && Edge(g, q, v) && q in t.rank && v in t.rank && t.rank[q] < t.rank[v];
    assert p in t.Chain(p);
    assert p in t.Chain(q);
  }

  lemma LinkHigh(g: Graph, t: Tree, v: nat, p: nat, q: nat)
    requires t.Valid() && LinksHigh(g, t) && q in t.parents && p in t.Chain(q)
    requires Edge(g, q, v) && v in t.rank && t.rank[q] < t.rank[v]
    ensures High(g, t.rank, p, v)
  {
    ChainHigh(g, t, p, q);
    HighEdge(g, t.rank, q, v);
    HighTransitive(g, t.rank, p, q, v);
  }

  lemma UpdateLinksHigh(g: Graph, t: Tree, v: nat, p: nat)
    requires t.Valid() && LinksHigh(g, t) && v != t.root && IsMeet(g, t, v, p)
    ensures LinksHigh(g, t.With(v, p))
  {
    MeetBelow(g, t, v, p);
    var q :| q in t.parents && Edge(g, q, v) && q in t.rank && v in t.rank && t.rank[q] < t.rank[v];
    assert p in t.Chain(p);
    assert p in t.Chain(q);
    LinkHigh(g, t, v, p, q);
  }

  lemma DominatesPredecessor(g: Graph, root: nat, u: nat, q: nat, v: nat)
    requires Dominates(g, root, u, v) && Edge(g, q, v) && u != v
    ensures Dominates(g, root, u, q)
  {
    forall w | WalkBetween(g, w, root, q) ensures u in Visits(w) {
      assert WalkBetween(g, Step(w, v), root, v);
    }
  }

  lemma UpdateSoundHere(g: Graph, t: Tree, v: nat, p: nat, u: nat)
    requires t.Valid() && Sound(g, t) && v != t.root && IsMeet(g, t, v, p)
    requires Dominates(g, t.root, u, v)
    ensures t.With(v, p).Valid() && u in t.With(v, p).Chain(v)
  {
    MeetBelow(g, t, v, p);
    t.ChainWithSelf(v, p);
    if u != v {
      forall q | q in t.parents && Edge(g, q, v) ensures u in t.Chain(q) {
        DominatesPredecessor(g, t.root, u, q, v);
      }
    }
  }

  // A walk from v that stays above u carries domination by u back to v.
  lemma DominatesBelow(g: Graph, rank: map<nat, nat>, root: nat, u: nat, v: nat, x: nat)
    requires High(g, rank, v, x) && Dominates(g, root, u, x) && u in rank && rank[u] < rank[v]
    ensures Dominates(g, root, u, v)
  {
    var b :| WalkBetween(g, b, v, x) && forall y :: y in Visits(b) ==> y in rank && rank[v] <= rank[y];
    forall a | WalkBetween(g, a, root, v) ensures u in Visits(a) {
      JoinIsWalk(g, a, b);
      assert u in Visits(Join(a, b));
    }
  }

  lemma UpdateSoundBelow(g: Graph, t: Tree, v: nat, p: nat, u: nat, x: nat)
    requires t.Valid() && LinksHigh(g, t) && Sound(g, t) && v != t.root && IsMeet(g, t, v, p)
    requires x in t.parents && x < |g| && v in t.Chain(x) && Dominates(g, t.root, u, x)
    requires u in t.Chain(v)
    ensures t.With(v, p).Valid() && u in t.With(v, p).Chain(v)
  {
    if u == v {
      MeetBelow(g, t, v, p);
      t.ChainWithSelf(v, p);
    } else {
      ChainHigh(g, t, v, x);
      DominatesBelow(g, t.rank, t.root, u, v, x);
      UpdateSoundHere(g, t, v, p, u);
    }
  }

  lemma UpdateSound(g: Graph, t: Tree, v: nat, p: nat)
    requires t.Valid() && LinksHigh(g, t) && Sound(g, t) && v != t.root && IsMeet(g, t, v, p)
    requires forall x :: x in t.parents ==> x < |g|
    ensures t.With(v, p).Valid() && Sound(g, t.With(v, p))
  {
    MeetBelow(g, t, v, p);
    t.WithValid(v, p);
    var t' := t.With(v, p);
    forall u, x | x in t'.parents && Dominates(g, t.root, u, x) ensures u in t'.Chain(x) {
      if x == v {
        UpdateSoundHere(g, t, v, p, u);
      } else {
        t.Relinked(v, p, x);
        if v in t.Chain(x) && u in t.Chain(v) {
          UpdateSoundBelow(g, t, v, p, u, x);
        }
      }
    }
  }

  // The steps of a walk that do not go up in rank.
  ghost function Retreats(rank: map<nat, nat>, w: Walk): nat {
    match w
    case At(_) => 0
    case Step(p, v) => Retreats(rank, p) + if p.v in rank && v in rank && rank[p.v] < rank[v] then 0 else 1
  }

  lemma {:induction false} RetreatsLength(rank: map<nat, nat>, w: Walk)
    ensures Retreats(rank, w) <= Length(w)
  {
    if w.Step? { RetreatsLength(rank, w.prev); }
  }

  lemma {:induction false} RetreatsPrefix(rank: map<nat, nat>, w: Walk, x: nat)
    requires x in Visits(w)
    ensures Retreats(rank, Prefix(w, x)) <= Retreats(rank, w)
    decreases w
  {
    if w.v != x { RetreatsPrefix(rank, w.prev, x); }
  }

  // How often v has been processed when pass number k has done every rank below pos.
  ghost function Passes(t: Tree, k: nat, pos: nat, v: nat): int {
    if v in t.rank && t.rank[v] < pos then k else k - 1
  }

  // A vertex on the chain of v is on every walk to v that retreats less often than v was processed.
  ghost predicate Complete(g: Graph, t: Tree, k: nat, pos: nat)
    requires t.Valid()
  {
    forall v, u, w {:trigger WalkBetween(g, w, t.root, v), u in Visits(w)} ::
      v in t.parents && u in t.Chain(v) && WalkBetween(g, w, t.root, v) && Retreats(t.rank, w) < Passes(t, k, pos, v)
      ==> u in Visits(w)
  }

  // The vertices that already have a parent.
  ghost predicate Known(t: Tree, k: nat, pos: nat) {
    forall v :: v in t.parents <==> v in t.rank && (k > 1 || t.rank[v] < pos)
  }

  // The ranked vertices are those reachable from the root.
  ghost predicate Covers(g: Graph, t: Tree) {
    forall w :: IsWalk(g, w) && Start(w) == t.root ==> w.v in t.rank
  }

  lemma UpdateCompleteHere(g: Graph, t: Tree, k: nat, pos: nat, v: nat, p: nat, u: nat, w: Walk)
    requires t.Valid() && Covers(g, t) && Known(t, k, pos) && Complete(g, t, k, pos)
    requires v != t.root && IsMeet(g, t, v, p) && v in t.rank && t.rank[v] == pos
    requires u in t.Chain(p) && WalkBetween(g, w, t.root, v) && Retreats(t.rank, w) < k
    ensures u in Visits(w)
  {
    var before := w.prev;
    var q := before.v;
    assert WalkBetween(g, before, t.root, q);
    assert q in t.rank;
    assert Retreats(t.rank, before) < Passes(t, k, pos, q);
    assert q in t.parents;
    assert u in t.Chain(q);
  }

  lemma UpdateComplete(g: Graph, t: Tree, k: nat, pos: nat, v: nat, p: nat)
    requires t.Valid() && Covers(g, t) && Known(t, k, pos) && Complete(g, t, k, pos)
    requires v != t.root && IsMeet(g, t, v, p) && v in t.rank && t.rank[v] == pos
    requires forall x :: x in t.rank && t.rank[x] == pos ==> x == v
    ensures t.With(v, p).Valid() && Complete(g, t.With(v, p), k, pos + 1)
  {
    MeetBelow(g, t, v, p);
    t.ChainWithSelf(v, p);
    var t' := t.With(v, p);
    forall x, u, w | x in t'.parents && u in t'.Chain(x) && WalkBetween(g, w, t.root, x)
                     && Retreats(t.rank, w) < Passes(t', k, pos + 1, x)
      ensures u in Visits(w)
    {
      WalkEnds(w);
      if x == v {
        if u != v { UpdateCompleteHere(g, t, k, pos, v, p, u, w); }
      } else {
        t.Relinked(v, p, x);
        assert Passes(t', k, pos + 1, x) == Passes(t, k, pos, x);
        if u !in t.Chain(x) {
          assert v in Visits(w);
          PrefixIsWalk(g, w, v);
          RetreatsPrefix(t.rank, w, v);
          assert u in t'.Chain(v);
          if u != v { UpdateCompleteHere(g, t, k, pos, v, p, u, Prefix(w, v)); }
        }
      }
    }
  }

  // A finished pass starts the next one.
  lemma NextPass(g: Graph, t: Tree, k: nat, size: nat)
    requires t.Valid() && Complete(g, t, k, size) && Known(t, k, size)
    requires forall v :: v in t.rank ==> t.rank[v] < size
    requires forall v :: v in t.rank && t.rank[v] == 0 ==> v == t.root
    requires k >= 1
    ensures Complete(g, t, k + 1, 1) && Known(t, k + 1, 1)
  {
    forall v, u, w | v in t.parents && u in t.Chain(v) && WalkBetween(g, w, t.root, v)
                     && Retreats(t.rank, w) < Passes(t, k + 1, 1, v)
      ensures u in Visits(w)
    {
      WalkEnds(w);
      if v != t.root {
        assert Passes(t, k + 1, 1, v) == Passes(t, k, size, v);
      }
    }
  }

  // Every chain is exactly the set of dominators.
  ghost predicate Exact(g: Graph, t: Tree)
    requires t.Valid()
  {
    forall u, v {:trigger Dominates(g, t.root, u, v)} :: v in t.parents ==>
      (u in t.Chain(v) <==> Dominates(g, t.root, u, v))
  }

  // As many passes as there are vertices suffice.
  lemma EnoughPasses(g: Graph, t: Tree, k: nat, size: nat)
    requires t.Valid() && Covers(g, t) && Sound(g, t) && Complete(g, t, k, size)
    requires forall v :: v in t.rank ==> t.rank[v] < size
    requires |t.rank.Keys| <= k
    ensures Exact(g, t)
  {
    forall u, v, w | v in t.parents && u in t.Chain(v) && WalkBetween(g, w, t.root, v) ensures u in Visits(w) {
      var s := Simplify(g, w);
      SimpleLength(s);
      RetreatsLength(t.rank, s);
      VisitsCovered(g, t, s);
      SubsetCard(Visits(s), t.rank.Keys);
      assert Retreats(t.rank, s) < Passes(t, k, size, v);
    }
  }

  lemma {:induction false} VisitsCovered(g: Graph, t: Tree, w: Walk)
    requires Covers(g, t) && IsWalk(g, w) && Start(w) == t.root
    ensures Visits(w) <= t.rank.Keys
  {
    assert w.v in t.rank;
    if w.Step? { VisitsCovered(g, t, w.prev); }
  }

  // A parent map that no update changes.
  ghost predicate Stable(g: Graph, t: Tree)
    requires t.Valid()
  {
    forall v {:trigger t.parents[v]} :: v in t.parents && v != t.root ==> IsMeet(g, t, v, t.parents[v])
  }

  lemma {:induction false} StableOnWalk(g: Graph, t: Tree, u: nat, w: Walk)
    requires t.Valid() && Covers(g, t) && Stable(g, t) && t.parents.Keys == t.rank.Keys
    requires IsWalk(g, w) && Start(w) == t.root
    ensures w.v in t.parents
    ensures u in t.Chain(w.v) ==> u in Visits(w)
  {
    WalkEnds(w);
    assert w.v in t.rank;
    if w.Step? && u in t.Chain(w.v) && w.v != t.root && u != w.v {
      StableOnWalk(g, t, u, w.prev);
      assert u in t.Chain(t.parents[w.v]);
      assert IsMeet(g, t, w.v, t.parents[w.v]);
    }
  }

  lemma StableIsExact(g: Graph, t: Tree)
    requires t.Valid() && Covers(g, t) && Sound(g, t) && Stable(g, t) && t.parents.Keys == t.rank.Keys
    ensures Exact(g, t)
  {
    forall u, v, w | v in t.parents && u in t.Chain(v) && WalkBetween(g, w, t.root, v) ensures u in Visits(w) {
      StableOnWalk(g, t, u, w);
    }
  }

  lemma DominatesFromPredecessors(g: Graph, t: Tree, u: nat, v: nat)
    requires Covers(g, t) && v != t.root
    requires forall q :: q in t.rank && Edge(g, q, v) ==> Dominates(g, t.root, u, q)
    ensures Dominates(g, t.root, u, v)
  {
    forall w | WalkBetween(g, w, t.root, v) ensures u in Visits(w) {
      assert WalkBetween(g, w.prev, t.root, w.prev.v);
      assert w.prev.v in t.rank;
      assert Dominates(g, t.root, u, w.prev.v);
    }
  }

  lemma MeetInParent(g: Graph, t: Tree, v: nat, p: nat, u: nat)
    requires t.Valid() && Covers(g, t) && Exact(g, t) && t.parents.Keys == t.rank.Keys
    requires v in t.parents && v != t.root && IsMeet(g, t, v, p) && u in t.Chain(p)
    ensures u in t.Chain(t.parents[v])
  {
    MeetBelow(g, t, v, p);
    forall q | q in t.rank && Edge(g, q, v) ensures Dominates(g, t.root, u, q) {
      assert u in t.Chain(q);
    }
    DominatesFromPredecessors(g, t, u, v);
    assert u in t.Chain(v);
  }

  lemma ParentInMeet(g: Graph, t: Tree, v: nat, p: nat, u: nat)
    requires t.Valid() && Exact(g, t) && v in t.parents && v != t.root && IsMeet(g, t, v, p)
    requires u in t.Chain(t.parents[v])
    ensures u in t.Chain(p)
  {
    assert u in t.Chain(v) && Dominates(g, t.root, u, v);
    forall q | q in t.parents && Edge(g, q, v) ensures u in t.Chain(q) {
      DominatesPredecessor(g, t.root, u, q, v);
    }
  }

  // Once exact, no update changes a parent.
  lemma ExactIsStable(g: Graph, t: Tree, v: nat, p: nat)
    requires t.Valid() && Covers(g, t) && Exact(g, t) && t.parents.Keys == t.rank.Keys
    requires v in t.parents && v != t.root && IsMeet(g, t, v, p)
    ensures p == t.parents[v]
  {
    var o := t.parents[v];
    forall u ensures u in t.Chain(p) <==> u in t.Chain(o) {
      if u in t.Chain(p) { MeetInParent(g, t, v, p, u); }
      if u in t.Chain(o) { ParentInMeet(g, t, v, p, u); }
    }
    t.ChainDetermines(p, o);
  }
}
