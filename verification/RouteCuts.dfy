// Reading a cut from the residual search: as many elements as units of flow, and a separator.
module RouteCuts {
  import opened Common
  import opened Graphs
  import opened RouteFlow
  import opened RouteSearch
  import opened RouteNetwork

  // A removable element: an internal tile or an undirected edge with its ends in order.
  datatype Cut = TileCut(tile: nat) | EdgeCut(lo: nat, hi: nat)

  function EdgeBetween(a: nat, b: nat): Cut {
    if a < b then EdgeCut(a, b) else EdgeCut(b, a)
  }

  // A walk that enters no removed tile and crosses no removed edge.
  ghost predicate Avoids(adj: Graph, cuts: set<Cut>, w: Walk) {
    match w
    case At(v) => v < |adj|
    case Step(p, v) => Avoids(adj, cuts, p) && Edge(adj, p.v, v) && TileCut(v) !in cuts && EdgeBetween(p.v, v) !in cuts
  }

  ghost predicate Separates(q: Question, cuts: set<Cut>) {
    forall w :: Avoids(q.adj, cuts, w) && Start(w) == q.source ==> w.v != q.target
  }

  // The element that removes a link from the network.
  function CutOf(q: Question, m: Meaning): Cut {
    match m
    case Through(t) => TileCut(t)
    case StepTo(u, v) =>
      if !q.tiles || EdgeBetween(u, v) == EdgeBetween(q.source, q.target) then EdgeBetween(u, v)
      else if u == q.source || u == q.target then TileCut(v)
      else if v == q.source || v == q.target then TileCut(u)
      else TileCut(if u < v then u else v)
  }

  // The node set a residual search reached: saturated, with the source and without the target.
  ghost predicate IsResidual(q: Question, net: Net, flow: Flow, units: nat, parent: seq<Option<Arc>>, time: map<nat,
                             nat>) {
    && q.Valid() && net.Valid() && IsNetwork(q, net.links)
    && IsFlow(net.links, flow, q.Exit(q.source), q.Entrance(q.target), units)
    && IsTree(net, flow, false, q.Exit(q.source), parent, time)
    && q.Entrance(q.target) !in time
    && Saturated(net.links, flow, time.Keys)
  }

  // With all other links into x unused, the links out of x cannot carry more than k brings in.
  lemma {:induction false} OnlyOutward(links: seq<Link>, flow: Flow, x: nat, n: nat)
    requires n <= |links| == |flow|
    requires forall i :: 0 <= i < |links| && flow[i] ==> links[i].b != x
    ensures Excess(links, flow, {x}, n) >= 0
  {
    if n > 0 { OnlyOutward(links, flow, x, n - 1); }
  }

  lemma TooMuchOut(links: seq<Link>, flow: Flow, x: nat, k: nat, i: nat, j: nat)
    requires |links| == |flow| && k < |links| && i < |links| && j < |links| && i != k && j != k
    requires links[k].b == x && links[k].a != x && (forall l :: 0 <= l < |links| && links[l].b == x ==> l == k)
    requires flow[i] && links[i].a == x && flow[j] && links[j].a == x
    requires i == j ==> !flow[k]
    ensures Out(links, flow, {x}) >= 1
  {
    var bare := flow[i := false];
    ExcessUpdate(links, flow, {x}, i, false, |links|);
    assert links[i].b != x && links[j].b != x;
    var less := bare[j := false];
    ExcessUpdate(links, bare, {x}, j, false, |links|);
    var none := less[k := false];
    ExcessUpdate(links, less, {x}, k, false, |links|);
    OnlyOutward(links, none, x, |links|);
  }

  lemma WantedAt(q: Question, links: seq<Link>, i: nat)
    requires IsNetwork(q, links) && i < |links|
    ensures q.Wanted(links[i])
  {
    assert links[i] in links;
  }

  lemma WantedIndex(q: Question, links: seq<Link>, l: Link) returns (i: nat)
    requires IsNetwork(q, links) && q.Wanted(l)
    ensures i < |links| && links[i] == l
  {
    assert l in links;
    i :| i < |links| && links[i] == l;
  }

  // Only the through link of an internal tile enters its exit node.
  lemma OneWayIntoExit(q: Question, links: seq<Link>, u: nat, k: nat)
    requires q.tiles && IsNetwork(q, links) && k < |links| && links[k] == Link(q.Entrance(u), q.Exit(u), Through(u))
    ensures forall l :: 0 <= l < |links| && links[l].b == q.Exit(u) ==> l == k
  {
    forall l | 0 <= l < |links| && links[l].b == q.Exit(u) ensures l == k {
      WantedAt(q, links, l);
      assert links[l] == links[k];
    }
  }

  // The key fact of tile mode: a step that crosses the residual cut leaves the source.
  lemma CrossingStepLeavesSource(q: Question, net: Net, flow: Flow, units: nat, parent: seq<Option<Arc>>,
                                 time: map<nat, nat>, i: nat)
    requires IsResidual(q, net, flow, units, parent, time) && q.tiles
    requires i in Crossing(net.links, time.Keys, |net.links|) && net.links[i].meaning.StepTo?
    ensures net.links[i].meaning.here == q.source
  {
    var links := net.links;
    WantedAt(q, links, i);
    var u := links[i].meaning.here;
    if u != q.source {
      var k := WantedIndex(q, links, Link(q.Entrance(u), q.Exit(u), Through(u)));
      OneWayIntoExit(q, links, u, k);
      var x := q.Exit(u);
      assert parent[x].Some? && Out(links, flow, {x}) == 0;
      var arc := parent[x].value;
      WantedAt(q, links, arc.link);
      if arc.reverse {
        TooMuchOut(links, flow, x, k, i, arc.link);
      } else {
        assert arc.link == k;
        TooMuchOut(links, flow, x, k, i, i);
      }
      assert false;
    }
  }

  // Different crossing links give different cut elements.
  lemma CutsDiffer(q: Question, net: Net, flow: Flow, units: nat, parent: seq<Option<Arc>>, time: map<nat, nat>,
                   i: nat, j: nat)
    requires IsResidual(q, net, flow, units, parent, time)
    requires i in Crossing(net.links, time.Keys, |net.links|) && j in Crossing(net.links, time.Keys, |net.links|)
    requires CutOf(q, net.links[i].meaning) == CutOf(q, net.links[j].meaning)
    ensures i == j
  {
    var links := net.links;
    WantedAt(q, links, i);
    WantedAt(q, links, j);
    if q.tiles {
      if links[i].meaning.StepTo? { CrossingStepLeavesSource(q, net, flow, units, parent, time, i); }
      if links[j].meaning.StepTo? { CrossingStepLeavesSource(q, net, flow, units, parent, time, j); }
    }
    assert links[i] == links[j];
  }

  // The cut elements of the crossing links.
  ghost predicate IsCut(q: Question, links: seq<Link>, reached: set<nat>, cuts: set<Cut>) {
    forall c :: c in cuts <==> exists i :: i in Crossing(links, reached, |links|) && c == CutOf(q, links[i].meaning)
  }

  lemma CutCount(q: Question, net: Net, flow: Flow, units: nat, parent: seq<Option<Arc>>, time: map<nat, nat>,
                 cuts: set<Cut>)
    requires IsResidual(q, net, flow, units, parent, time) && IsCut(q, net.links, time.Keys, cuts)
    ensures |cuts| == units
  {
    var links := net.links;
    var crossing := Crossing(links, time.Keys, |links|);
    CutValue(links, flow, q.Exit(q.source), q.Entrance(q.target), units, time.Keys);
    SaturatedCount(links, flow, time.Keys, |links|);
    var f := map i | i in crossing :: CutOf(q, links[i].meaning);
    forall i, j | i in crossing && j in crossing && f[i] == f[j] ensures i == j {
      CutsDiffer(q, net, flow, units, parent, time, i, j);
    }
    InjectionCard(crossing, cuts, f);
    var h := map c | c in cuts :: Source(q, links, time.Keys, c);
    forall c, d | c in cuts && d in cuts && h[c] == h[d] ensures c == d { }
    InjectionCard(cuts, crossing, h);
  }

  ghost function Source(q: Question, links: seq<Link>, reached: set<nat>, c: Cut): (i: nat)
    requires exists i :: i in Crossing(links, reached, |links|) && c == CutOf(q, links[i].meaning)
    ensures i in Crossing(links, reached, |links|) && c == CutOf(q, links[i].meaning)
  {
    var i :| i in Crossing(links, reached, |links|) && c == CutOf(q, links[i].meaning);
    i
  }

  // A walk that avoids the cut never leaves the reached side.
  lemma {:induction false} AvoidingStaysInside(q: Question, net: Net, flow: Flow, units: nat, parent: seq<Option<Arc>>,
                                               time: map<nat, nat>, cuts: set<Cut>, w: Walk)
    requires IsResidual(q, net, flow, units, parent, time) && IsCut(q, net.links, time.Keys, cuts)
    requires Avoids(q.adj, cuts, w) && Start(w) == q.source
    ensures w.v != q.target && q.Exit(w.v) in time
  {
    if w.Step? && w.v != q.source {
      AvoidingStaysInside(q, net, flow, units, parent, time, cuts, w.prev);
      var u, v := w.prev.v, w.v;
      assert Edge(q.adj, u, v) && Edge(q.adj, v, u);
      var i := WantedIndex(q, net.links, Link(q.Exit(u), q.Entrance(v), StepTo(u, v)));
      if q.Entrance(v) !in time {
        assert i in Crossing(net.links, time.Keys, |net.links|);
        if q.tiles { CrossingStepLeavesSource(q, net, flow, units, parent, time, i); }
        assert false;
      }
      if q.tiles {
        var k := WantedIndex(q, net.links, Link(q.Entrance(v), q.Exit(v), Through(v)));
        assert CutOf(q, net.links[k].meaning) == TileCut(v) && TileCut(v) !in cuts;
        assert k !in Crossing(net.links, time.Keys, |net.links|);
      }
    }
  }

  lemma CutSeparates(q: Question, net: Net, flow: Flow, units: nat, parent: seq<Option<Arc>>, time: map<nat, nat>,
                     cuts: set<Cut>)
    requires IsResidual(q, net, flow, units, parent, time) && IsCut(q, net.links, time.Keys, cuts)
    ensures Separates(q, cuts)
  {
    forall w | Avoids(q.adj, cuts, w) && Start(w) == q.source ensures w.v != q.target {
      AvoidingStaysInside(q, net, flow, units, parent, time, cuts, w);
    }
  }

  // The elements a cut may use: internal tiles and the direct edge, or any edge.
  ghost predicate Removable(q: Question, c: Cut) {
    match c
    case TileCut(t) => q.tiles && q.Internal(t)
    case EdgeCut(lo, hi) => lo < hi && Edge(q.adj, lo, hi) && (q.tiles ==> c == EdgeBetween(q.source, q.target))
  }

  lemma CutsRemovable(q: Question, links: seq<Link>, reached: set<nat>, cuts: set<Cut>, c: Cut)
    requires q.Valid() && IsNetwork(q, links) && IsCut(q, links, reached, cuts) && c in cuts
    ensures Removable(q, c)
  {
    var i := Source(q, links, reached, c);
    WantedAt(q, links, i);
    if links[i].meaning.StepTo? {
      assert Edge(q.adj, links[i].meaning.here, links[i].meaning.there);
      assert Edge(q.adj, links[i].meaning.there, links[i].meaning.here);
    }
  }

  // The loop over all links that keeps those leaving the reached side.
  method CollectCuts(q: Question, net: Net, flow: Flow, parent: seq<Option<Arc>>, ghost units: nat,
                     ghost time: map<nat, nat>)
    returns (cuts: set<Cut>, allCarryFlow: bool)
    requires IsResidual(q, net, flow, units, parent, time)
    ensures IsCut(q, net.links, time.Keys, cuts) && allCarryFlow
  {
    cuts, allCarryFlow := {}, true;
    var links := net.links;
    for i := 0 to |links|
      invariant allCarryFlow
      invariant forall c :: c in cuts <==>
        exists k :: k in Crossing(links, time.Keys, i) && c == CutOf(q, links[k].meaning)
    {
      var l := links[i];
      assert parent[l.a].Some? <==> l.a in time;
      assert parent[l.b].Some? <==> l.b in time;
      if parent[l.a].Some? && parent[l.b].None? {
        allCarryFlow := allCarryFlow && flow[i];
        cuts := cuts + {CutOf(q, l.meaning)};
        assert Crossing(links, time.Keys, i + 1) == Crossing(links, time.Keys, i) + {i};
      } else {
        assert Crossing(links, time.Keys, i + 1) == Crossing(links, time.Keys, i);
      }
    }
  }
}
