// scripts/check_route_resilience_reference.py: the whole model and its certificate.
module RouteResilience {
  import opened Common
  import opened Graphs
  import opened Sorting
  import opened RouteFlow
  import opened RouteSearch
  import opened RouteNetwork
  import opened RouteModel
  import opened RouteCuts
  import opened RoutePaths

  // Routes in dictionary order, as the paths are listed.
  predicate RouteOrder(r: seq<nat>, s: seq<nat>) {
    r == [] || (s != [] && (r[0] < s[0] || (r[0] == s[0] && RouteOrder(r[1..], s[1..]))))
  }

  lemma {:induction false} RouteOrderTotal(r: seq<nat>, s: seq<nat>)
    ensures RouteOrder(r, s) || RouteOrder(s, r)
  {
    if r != [] && s != [] && r[0] == s[0] { RouteOrderTotal(r[1..], s[1..]); }
  }

  lemma {:induction false} RouteOrderTransitive(r: seq<nat>, s: seq<nat>, t: seq<nat>)
    requires RouteOrder(r, s) && RouteOrder(s, t)
    ensures RouteOrder(r, t)
  {
    if r != [] && s[0] == r[0] == t[0] { RouteOrderTransitive(r[1..], s[1..], t[1..]); }
  }

  lemma RouteOrderIsOrder()
    ensures TotalOrder(RouteOrder)
  {
    forall r, s ensures RouteOrder(r, s) || RouteOrder(s, r) { RouteOrderTotal(r, s); }
    forall r, s, t | RouteOrder(r, s) && RouteOrder(s, t) ensures RouteOrder(r, t) { RouteOrderTransitive(r, s, t); }
  }

  // Tiles before edges, then by number.
  predicate CutOrder(c: Cut, d: Cut) {
    match (c, d)
    case (TileCut(t), TileCut(u)) => t <= u
    case (TileCut(_), EdgeCut(_, _)) => true
    case (EdgeCut(_, _), TileCut(_)) => false
    case (EdgeCut(a, b), EdgeCut(x, y)) => a < x || (a == x && b <= y)
  }

  // The elements of a set, in some order.
  method Enumerate<T(!new)>(s: set<T>) returns (r: seq<T>)
    ensures Distinct(r) && |r| == |s| && forall x :: x in r <==> x in s
  {
    r := [];
    var rest := s;
    while rest != {}
      invariant Distinct(r) && rest <= s && |r| + |rest| == |s|
      invariant forall x :: x in r <==> x in s && x !in rest
      decreases rest
    {
      var x :| x in rest;
      r := r + [x];
      rest := rest - {x};
    }
  }

  // What the model promises: equally many disjoint routes and cut elements that separate.
  ghost predicate IsAnswer(q: Question, paths: seq<seq<nat>>, cuts: seq<Cut>) {
    && IsRouteSet(q, paths)
    && |cuts| == |paths| && Distinct(cuts)
    && (forall c :: c in cuts ==> Removable(q, c))
    && Separates(q, Elements(cuts))
  }

  // Flow, cancellation and the residual cut.
  method SolveFlow(q: Question) returns (net: Net, flow: Flow, units: nat, cuts: set<Cut>,
                   ghost opposing: seq<(nat, nat)>)
    requires q.Valid()
    ensures net.Valid() && |net.arcs| == Size(q) && Settled(q, net.links, opposing, flow)
    ensures IsFlow(net.links, flow, q.Exit(q.source), q.Entrance(q.target), units) && units <= |q.adj[q.source]|
    ensures |cuts| == units && Separates(q, cuts) && forall c :: c in cuts ==> Removable(q, c)
  {
    var pairs;
    net, pairs := Build(q);
    opposing := pairs;
    ghost var last, before;
    flow, units, last, before := MaxFlow(q, net);
    ghost var flow0 := flow;
    flow := Cancel(net, flow, pairs, q.Exit(q.source), q.Entrance(q.target), units);
    var parent, time := Residual(q, net, flow0, flow, before, last);
    assert IsResidual(q, net, flow, units, parent, time);
    var carried;
    cuts, carried := CollectCuts(q, net, flow, parent, units, time);
    CutCount(q, net, flow, units, parent, time, cuts);
    CutSeparates(q, net, flow, units, parent, time, cuts);
    forall c | c in cuts ensures Removable(q, c) {
      CutsRemovable(q, net.links, time.Keys, cuts, c);
    }
  }

  // Disjoint routes and an equally large separator, both sorted.
  method Model(q: Question) returns (paths: seq<seq<nat>>, cuts: seq<Cut>)
    requires q.Valid()
    ensures IsAnswer(q, paths, cuts) && |paths| <= |q.adj[q.source]|
    ensures SortedBy(RouteOrder, paths) && SortedBy(CutOrder, cuts)
  {
    var net, flow, units, found, opposing := SolveFlow(q);
    var routes, uses := Decompose(q, net, flow, units);
    DecomposedIsRouteSet(q, net.links, opposing, flow, routes, uses);
    RouteOrderIsOrder();
    paths := Sort(RouteOrder, routes);
    var listed := Enumerate(found);
    cuts := Sort(CutOrder, listed);
    assert Elements(cuts) == found;
  }

  // The walk along the first n steps of a route.
  ghost function Along(r: seq<nat>, n: nat): (w: Walk)
    requires n < |r|
    ensures w.v == r[n]
  {
    if n == 0 then At(r[0]) else Step(Along(r, n - 1), r[n])
  }

  // The n-th step of a route enters a removed tile or crosses a removed edge.
  ghost predicate Hit(r: seq<nat>, cuts: set<Cut>, n: nat) {
    n + 1 < |r| && (TileCut(r[n + 1]) in cuts || EdgeBetween(r[n], r[n + 1]) in cuts)
  }

  lemma {:induction false} UnhitAvoids(q: Question, r: seq<nat>, cuts: set<Cut>, n: nat)
    requires q.Valid() && IsRoute(q, r) && n < |r| && forall m: nat :: m < n ==> !Hit(r, cuts, m)
    ensures Avoids(q.adj, cuts, Along(r, n)) && Start(Along(r, n)) == q.source
  {
    if n > 0 {
      UnhitAvoids(q, r, cuts, n - 1);
      assert Edge(q.adj, r[n - 1], r[n - 1 + 1]);
      assert !Hit(r, cuts, n - 1);
    }
  }

  // A separator hits every route.
  lemma RouteIsHit(q: Question, r: seq<nat>, cuts: set<Cut>)
    requires q.Valid() && IsRoute(q, r) && Separates(q, cuts)
    ensures exists m: nat :: Hit(r, cuts, m)
  {
    if forall m: nat :: !Hit(r, cuts, m) {
      UnhitAvoids(q, r, cuts, |r| - 1);
      assert false;
    }
  }

  // Removing c blocks the route.
  ghost predicate Blocks(r: seq<nat>, c: Cut) {
    exists m: nat :: BlocksAt(r, c, m)
  }

  ghost predicate BlocksAt(r: seq<nat>, c: Cut, m: nat) {
    m + 1 < |r| && (c == TileCut(r[m + 1]) || c == EdgeBetween(r[m], r[m + 1]))
  }

  // An element of a separator that blocks the route.
  ghost function BlockedBy(q: Question, r: seq<nat>, cuts: set<Cut>): (c: Cut)
    requires q.Valid() && IsRoute(q, r) && Separates(q, cuts)
    ensures c in cuts && Blocks(r, c)
  {
    RouteIsHit(q, r, cuts);
    var m: nat :| Hit(r, cuts, m);
    var c := if TileCut(r[m + 1]) in cuts then TileCut(r[m + 1]) else EdgeBetween(r[m], r[m + 1]);
    assert BlocksAt(r, c, m);
    c
  }

  // No element blocks two disjoint routes.
  lemma BlocksOne(q: Question, r: seq<nat>, s: seq<nat>, c: Cut)
    requires IsRoute(q, r) && IsRoute(q, s) && DisjointRoutes(q, r, s) && Removable(q, c)
    ensures !(Blocks(r, c) && Blocks(s, c))
  {
    if c.TileCut? {
      assert !(UsesTile(r, c.tile) && UsesTile(s, c.tile));
    } else {
      assert !(UsesEdge(r, c) && UsesEdge(s, c));
    }
  }

  // Disjoint routes need a separator at least as large as their number.
  lemma SeparatorBound(q: Question, paths: seq<seq<nat>>, cuts: set<Cut>)
    requires q.Valid() && IsRouteSet(q, paths) && Separates(q, cuts) && forall c :: c in cuts ==> Removable(q, c)
    ensures |paths| <= |cuts|
  {
    DistinctCard(paths);
    var routes := Elements(paths);
    var f := map r | r in routes :: BlockedBy(q, r, cuts);
    forall r, s | r in routes && s in routes && f[r] == f[s] ensures r == s {
      if r != s { BlocksOne(q, r, s, f[r]); }
    }
    InjectionCard(routes, cuts, f);
  }

  // Menger: the routes are a largest disjoint set and the cut a smallest separator.
  lemma AnswerIsOptimal(q: Question, paths: seq<seq<nat>>, cuts: seq<Cut>, others: seq<seq<nat>>, removed: set<Cut>)
    requires q.Valid() && IsAnswer(q, paths, cuts)
    ensures IsRouteSet(q, others) ==> |others| <= |paths|
    ensures Separates(q, removed) && (forall c :: c in removed ==> Removable(q, c)) ==> |cuts| <= |removed|
  {
    DistinctCard(cuts);
    if IsRouteSet(q, others) { SeparatorBound(q, others, Elements(cuts)); }
    if Separates(q, removed) && forall c :: c in removed ==> Removable(q, c) { SeparatorBound(q, paths, removed); }
  }
}
