// Directed graphs as adjacency lists, and walks in them.
module Graphs {
  import opened Common

  // adjacency[v] lists the targets of v; repetitions and self loops are allowed.
  type Graph = seq<seq<nat>>

  predicate WellFormed(g: Graph) {
    forall v, i :: 0 <= v < |g| && 0 <= i < |g[v]| ==> g[v][i] < |g|
  }

  predicate Edge(g: Graph, a: nat, b: nat) {
    a < |g| && b in g[a]
  }

  // A walk kept as a cons-list of its vertices, last vertex first.
  datatype Walk = At(v: nat) | Step(prev: Walk, v: nat)

  function Start(w: Walk): nat {
    match w
    case At(v) => v
    case Step(p, _) => Start(p)
  }

  function Visits(w: Walk): set<nat> {
    match w
    case At(v) => {v}
    case Step(p, v) => Visits(p) + {v}
  }

  function Length(w: Walk): nat {
    match w
    case At(_) => 0
    case Step(p, _) => 1 + Length(p)
  }

  ghost predicate IsWalk(g: Graph, w: Walk) {
    match w
    case At(v) => v < |g|
    case Step(p, v) => IsWalk(g, p) && Edge(g, p.v, v)
  }

  ghost predicate WalkBetween(g: Graph, w: Walk, s: nat, t: nat) {
    IsWalk(g, w) && Start(w) == s && w.v == t
  }

  // t can be reached from s without visiting any vertex of `removed`.
  ghost predicate Connected(g: Graph, s: nat, t: nat, removed: set<nat>) {
    exists w :: WalkBetween(g, w, s, t) && Visits(w) !! removed
  }

  lemma {:induction false} WalkEnds(w: Walk)
    ensures Start(w) in Visits(w) && w.v in Visits(w)
  {
    if w.Step? { WalkEnds(w.prev); }
  }

  lemma {:induction false} WalkInRange(g: Graph, w: Walk)
    requires WellFormed(g) && IsWalk(g, w)
    ensures forall x :: x in Visits(w) ==> x < |g|
  {
    if w.Step? { WalkInRange(g, w.prev); }
  }

  // Two walks meeting at a vertex compose.
  function Join(a: Walk, b: Walk): Walk {
    match b
    case At(_) => a
    case Step(p, v) => Step(Join(a, p), v)
  }

  lemma {:induction false} JoinIsWalk(g: Graph, a: Walk, b: Walk)
    requires IsWalk(g, a) && IsWalk(g, b) && a.v == Start(b)
    ensures WalkBetween(g, Join(a, b), Start(a), b.v)
    ensures Visits(Join(a, b)) == Visits(a) + Visits(b)
  {
    if b.Step? {
      JoinIsWalk(g, a, b.prev);
    } else {
      WalkEnds(a);
    }
  }

  // The part of a walk up to some visit of x.
  function Prefix(w: Walk, x: nat): (p: Walk)
    requires x in Visits(w)
    ensures p.v == x
    decreases w
  {
    if w.v == x then w else Prefix(w.prev, x)
  }

  lemma {:induction false} PrefixIsWalk(g: Graph, w: Walk, x: nat)
    requires IsWalk(g, w) && x in Visits(w)
    ensures WalkBetween(g, Prefix(w, x), Start(w), x)
    ensures Visits(Prefix(w, x)) <= Visits(w)
    ensures Length(Prefix(w, x)) <= Length(w)
    ensures Simple(w) ==> Simple(Prefix(w, x))
    decreases w
  {
    if w.v != x { PrefixIsWalk(g, w.prev, x); }
  }

  ghost predicate Simple(w: Walk) {
    match w
    case At(_) => true
    case Step(p, v) => Simple(p) && v !in Visits(p)
  }

  // Every walk can be cut down to one that repeats no vertex.
  lemma {:induction false} Simplify(g: Graph, w: Walk) returns (s: Walk)
    requires IsWalk(g, w)
    ensures WalkBetween(g, s, Start(w), w.v)
    ensures Simple(s) && Visits(s) <= Visits(w)
  {
    match w
    case At(v) => s := w;
    case Step(p, v) =>
      var q := Simplify(g, p);
      if v in Visits(q) {
        PrefixIsWalk(g, q, v);
        s := Prefix(q, v);
      } else {
        s := Step(q, v);
      }
  }

  lemma {:induction false} SimpleLength(w: Walk)
    requires Simple(w)
    ensures |Visits(w)| == Length(w) + 1
  {
    if w.Step? { SimpleLength(w.prev); }
  }

  // A set that contains s and is closed under unremoved edges holds every vertex that s reaches.
  lemma {:induction false} ClosedHoldsWalk(g: Graph, closed: set<nat>, removed: set<nat>, w: Walk)
    requires IsWalk(g, w) && Start(w) in closed && Visits(w) !! removed
    requires forall a, b :: a in closed && Edge(g, a, b) && b !in removed ==> b in closed
    ensures Visits(w) <= closed
  {
    if w.Step? {
      ClosedHoldsWalk(g, closed, removed, w.prev);
      WalkEnds(w.prev);
    }
  }

  // Breadth-first reachability with some vertices removed.
  method Reachable(g: Graph, root: nat, removed: Option<nat>) returns (seen: set<nat>)
    requires WellFormed(g) && root < |g|
    ensures forall v :: v in seen <==> Connected(g, root, v, Removal(removed))
  {
    ghost var gone := Removal(removed);
    if removed == Some(root) {
      forall w | IsWalk(g, w) && Start(w) == root ensures !(Visits(w) !! gone) { WalkEnds(w); }
      return {};
    }
    assert WalkBetween(g, At(root), root, root) && Visits(At(root)) !! gone;
    seen := {root};
    var queue := [root];
    while queue != []
      invariant seen <= Below(|g|) && root in seen
      invariant forall v :: v in queue ==> v in seen
      invariant forall v :: v in seen ==> Connected(g, root, v, gone)
      invariant forall a, b :: a in seen && a !in queue && Edge(g, a, b) && b !in gone ==> b in seen
      decreases Below(|g|) - seen, |queue|
    {
      seen, queue := VisitTargets(g, root, queue, seen, removed);
    }
    forall v | Connected(g, root, v, gone) ensures v in seen {
      var w :| WalkBetween(g, w, root, v) && Visits(w) !! gone;
      ClosedHoldsWalk(g, seen, gone, w);
      WalkEnds(w);
    }
  }

  ghost function Removal(removed: Option<nat>): set<nat> {
    match removed case None => {} case Some(x) => {x}
  }

  lemma ConnectedStep(g: Graph, root: nat, a: nat, b: nat, gone: set<nat>)
    requires Connected(g, root, a, gone) && Edge(g, a, b) && b !in gone
    ensures Connected(g, root, b, gone)
  {
    var w :| WalkBetween(g, w, root, a) && Visits(w) !! gone;
    assert WalkBetween(g, Step(w, b), root, b) && Visits(Step(w, b)) !! gone;
  }

  // One turn of the search: take a vertex off the queue and push its new targets.
  method VisitTargets(g: Graph, ghost root: nat, queue0: seq<nat>, seen0: set<nat>, removed: Option<nat>)
    returns (seen: set<nat>, queue: seq<nat>)
    requires WellFormed(g) && queue0 != [] && seen0 <= Below(|g|)
    requires forall v :: v in queue0 ==> v in seen0
    requires forall v :: v in seen0 ==> Connected(g, root, v, Removal(removed))
    requires forall a, b :: a in seen0 && a !in queue0 && Edge(g, a, b) && b !in Removal(removed) ==> b in seen0
    ensures seen0 <= seen <= Below(|g|)
    ensures seen == seen0 ==> queue == queue0[1..]
    ensures forall v :: v in queue ==> v in seen
    ensures forall v :: v in seen ==> Connected(g, root, v, Removal(removed))
    ensures forall a, b :: a in seen && a !in queue && Edge(g, a, b) && b !in Removal(removed) ==> b in seen
  {
    ghost var gone := Removal(removed);
    var node := queue0[0];
    assert node in queue0;
    queue, seen := queue0[1..], seen0;
    var i := 0;
    while i < |g[node]|
      invariant 0 <= i <= |g[node]|
      invariant seen0 <= seen <= Below(|g|)
      invariant seen == seen0 ==> queue == queue0[1..]
      invariant forall v :: v in queue ==> v in seen
      invariant forall v :: v in queue0[1..] || (v in seen && v !in seen0) ==> v in queue
      invariant forall v :: v in seen ==> Connected(g, root, v, gone)
      invariant forall j :: 0 <= j < i && g[node][j] !in gone ==> g[node][j] in seen
    {
      var target := g[node][i];
      if Some(target) != removed && target !in seen {
        assert Edge(g, node, target);
        ConnectedStep(g, root, node, target, gone);
        seen := seen + {target};
        queue := queue + [target];
      }
      i := i + 1;
    }
    forall a, b | a in seen && a !in queue && Edge(g, a, b) && b !in gone ensures b in seen {
      if a != node {
        assert queue0 == [node] + queue0[1..];
        assert a !in queue0;
      }
    }
  }
}
