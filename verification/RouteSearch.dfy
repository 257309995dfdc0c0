// Breadth-first search over the links of a network, and the path it finds.
module RouteSearch {
  import opened Common
  import opened RouteFlow

  // A way to leave a node: along a link, or back against it.
  datatype Arc = Arc(node: nat, link: nat, reverse: bool)

  datatype Net = Net(links: seq<Link>, arcs: seq<seq<Arc>>) {

    // Every link appears once forward at its tail and once backward at its head.
    ghost predicate Valid() {
      && (forall x, j :: 0 <= x < |arcs| && 0 <= j < |arcs[x]| ==> Leaves(arcs[x][j], x))
      && (forall i {:trigger links[i]} :: 0 <= i < |links| ==>
            links[i].a < |arcs| && links[i].b < |arcs|
            && Arc(links[i].b, i, false) in arcs[links[i].a] && Arc(links[i].a, i, true) in arcs[links[i].b])
    }

    ghost predicate Leaves(arc: Arc, x: nat) {
      && arc.link < |links| && arc.node < |arcs|
      && x == (if arc.reverse then links[arc.link].b else links[arc.link].a)
      && arc.node == (if arc.reverse then links[arc.link].a else links[arc.link].b)
    }

    function Tail(arc: Arc): nat
      requires arc.link < |links|
    {
      if arc.reverse then links[arc.link].b else links[arc.link].a
    }
  }

  // Residual mode uses unused links and undoes used ones; positive mode follows used links.
  predicate Usable(flow: Flow, positive: bool, arc: Arc) {
    arc.link < |flow| && if positive then !arc.reverse && flow[arc.link] else flow[arc.link] == arc.reverse
  }

  ghost predicate Before(time: map<nat, nat>, x: nat, y: nat) {
    x in time && y in time && time[x] < time[y]
  }

  // The search tree: every reached node but the source records a usable arc from an earlier one.
  ghost predicate IsTree(net: Net, flow: Flow, positive: bool, src: nat, parent: seq<Option<Arc>>, time: map<nat,
                         nat>) {
    && |parent| == |net.arcs| && |flow| == |net.links|
    && src in time && src < |parent|
    && (forall x {:trigger parent[x]} :: 0 <= x < |parent| ==> (parent[x].Some? <==> x in time))
    && (forall x :: x in time ==> x < |parent|)
    && (forall x {:trigger parent[x]} :: 0 <= x < |parent| && x != src && parent[x].Some? ==>
          var arc := parent[x].value;
          arc.link < |net.links| && arc.node == x && net.Leaves(arc, net.Tail(arc)) && Usable(flow, positive, arc)
          && Before(time, net.Tail(arc), x))
  }

  ghost predicate Stamped(time: map<nat, nat>, now: nat) {
    forall x {:trigger time[x]} :: x in time ==> time[x] < now
  }

  lemma TreeGrows(net: Net, flow: Flow, positive: bool, src: nat, parent: seq<Option<Arc>>, time: map<nat, nat>,
                  now: nat, x: nat, arc: Arc)
    requires IsTree(net, flow, positive, src, parent, time) && Stamped(time, now)
    requires x in time && net.Leaves(arc, x) && Usable(flow, positive, arc) && arc.node < |parent|
      && parent[arc.node].None?
    ensures IsTree(net, flow, positive, src, parent[arc.node := Some(arc)], time[arc.node := now])
    ensures Stamped(time[arc.node := now], now + 1)
  {
    var p, t := parent[arc.node := Some(arc)], time[arc.node := now];
    forall y | 0 <= y < |p| && y != src && p[y].Some?
      ensures var e := p[y].value;
        e.link < |net.links| && e.node == y && net.Leaves(e, net.Tail(e)) && Usable(flow, positive, e)
        && Before(t, net.Tail(e), y)
    {
      if y != arc.node { assert parent[y].Some?; }
    }
  }

  // Every usable arc out of x leads to a reached node.
  ghost predicate Explored(net: Net, flow: Flow, positive: bool, time: map<nat, nat>, x: nat) {
    x < |net.arcs| && forall arc :: arc in net.arcs[x] && Usable(flow, positive, arc) ==> arc.node in time
  }

  // The arcs of one dequeued node, in order, until the target is reached.
  method Expand(net: Net, flow: Flow, positive: bool, src: nat, dst: nat, x: nat, parent0: seq<Option<Arc>>,
                queue0: seq<nat>, ghost time0: map<nat, nat>, ghost now0: nat)
    returns (parent: seq<Option<Arc>>, queue: seq<nat>, ghost time: map<nat, nat>, ghost now: nat)
    requires net.Valid() && IsTree(net, flow, positive, src, parent0, time0) && Stamped(time0, now0)
    requires x in time0 && x < |net.arcs| && dst < |net.arcs| && parent0[dst].None?
    ensures IsTree(net, flow, positive, src, parent, time) && Stamped(time, now)
    ensures time0.Keys <= time.Keys
    ensures parent[dst].None? ==> Explored(net, flow, positive, time, x)
    ensures parent[dst].None? ==> forall y :: y in queue <==> y in queue0 || y in time.Keys - time0.Keys
    ensures parent[dst].None? && time.Keys == time0.Keys ==> queue == queue0
  {
    parent, queue, time, now := parent0, queue0, time0, now0;
    var row := net.arcs[x];
    for j := 0 to |row|
      invariant IsTree(net, flow, positive, src, parent, time) && Stamped(time, now)
      invariant time0.Keys <= time.Keys && parent[dst].None?
      invariant forall k :: 0 <= k < j && Usable(flow, positive, row[k]) ==> row[k].node in time
      invariant forall y :: y in queue <==> y in queue0 || y in time.Keys - time0.Keys
      invariant time.Keys == time0.Keys ==> queue == queue0
    {
      var arc := row[j];
      assert net.Leaves(arc, x);
      if parent[arc.node].None? && Usable(flow, positive, arc) {
        TreeGrows(net, flow, positive, src, parent, time, now, x, arc);
        parent := parent[arc.node := Some(arc)];
        time, now := time[arc.node := now], now + 1;
        if arc.node == dst { return; }
        queue := queue + [arc.node];
      }
    }
  }

  lemma ExploredStays(net: Net, flow: Flow, positive: bool, time0: map<nat, nat>, time: map<nat, nat>, x: nat)
    requires Explored(net, flow, positive, time0, x) && time0.Keys <= time.Keys
    ensures Explored(net, flow, positive, time, x)
  {
  }

  lemma ExpandKeeps(net: Net, flow: Flow, positive: bool, time0: map<nat, nat>, time: map<nat, nat>,
                    queue0: seq<nat>, queue: seq<nat>, x: nat)
    requires queue0 != [] && queue0[0] == x && Explored(net, flow, positive, time, x) && time0.Keys <= time.Keys
    requires forall y :: y in time0 && y !in queue0 ==> Explored(net, flow, positive, time0, y)
    requires forall y :: y in queue <==> y in queue0[1..] || y in time.Keys - time0.Keys
    ensures forall y :: y in time && y !in queue ==> Explored(net, flow, positive, time, y)
  {
    forall y | y in time && y !in queue ensures Explored(net, flow, positive, time, y) {
      assert queue0 == [x] + queue0[1..];
      if y != x { ExploredStays(net, flow, positive, time0, time, y); }
    }
  }

  ghost predicate AllExplored(net: Net, flow: Flow, positive: bool, time: map<nat, nat>) {
    forall x :: x in time ==> Explored(net, flow, positive, time, x)
  }

  // Breadth-first search from src, stopping as soon as dst is reached.
  method Search(net: Net, flow: Flow, positive: bool, src: nat, dst: nat)
    returns (parent: seq<Option<Arc>>, ghost time: map<nat, nat>)
    requires net.Valid() && |flow| == |net.links| && src < |net.arcs| && dst < |net.arcs| && src != dst
    ensures IsTree(net, flow, positive, src, parent, time)
    ensures parent[dst].None? ==> AllExplored(net, flow, positive, time)
  {
    parent := seq(|net.arcs|, _ => None);
    parent := parent[src := Some(Arc(src, 0, false))];
    time := map[src := 0];
    ghost var now := 1;
    var queue := [src];
    while queue != [] && parent[dst].None?
      invariant IsTree(net, flow, positive, src, parent, time) && Stamped(time, now)
      invariant parent[dst].None? ==> forall y :: y in queue ==> y in time
      invariant parent[dst].None? ==> forall y :: y in time && y !in queue ==> Explored(net, flow, positive, time, y)
      decreases if parent[dst].None? then 1 else 0, Below(|net.arcs|) - time.Keys, |queue|
    {
      var x := queue[0];
      assert queue == [x] + queue[1..];
      ghost var queue0, time0 := queue, time;
      parent, queue, time, now := Expand(net, flow, positive, src, dst, x, parent, queue[1..], time, now);
      if parent[dst].None? {
        ExpandKeeps(net, flow, positive, time0, time, queue0, queue, x);
        assert time.Keys <= Below(|net.arcs|);
      }
    }
  }

  // A chain of usable arcs from x to y that visits nodes in search order.
  ghost predicate Trail(net: Net, flow: Flow, positive: bool, time: map<nat, nat>, path: seq<Arc>, x: nat, y: nat) {
    if path == [] then x == y else
      && net.Leaves(path[0], x) && Usable(flow, positive, path[0]) && Before(time, x, path[0].node)
      && Trail(net, flow, positive, time, path[1..], path[0].node, y)
  }

  lemma {:induction false} TrailLater(net: Net, flow: Flow, positive: bool, time: map<nat, nat>, path: seq<Arc>,
                                      x: nat, y: nat)
    requires Trail(net, flow, positive, time, path, x, y)
    ensures forall j :: 0 <= j < |path| ==>
      Before(time, x, path[j].node) && path[j].link < |net.links| && net.Leaves(path[j], net.Tail(path[j]))
        && Usable(flow, positive, path[j])
    ensures forall j, k :: 0 <= j < k < |path| ==> Before(time, path[j].node, path[k].node)
  {
    if path != [] {
      TrailLater(net, flow, positive, time, path[1..], path[0].node, y);
      assert forall j :: 0 < j < |path| ==> path[j] == path[1..][j - 1];
    }
  }

  ghost predicate DistinctLinks(path: seq<Arc>) {
    forall j, k :: 0 <= j < k < |path| ==> path[j].link != path[k].link
  }

  // Arcs entering different nodes use different links.
  lemma TrailLinks(net: Net, flow: Flow, positive: bool, time: map<nat, nat>, path: seq<Arc>, x: nat, y: nat)
    requires Trail(net, flow, positive, time, path, x, y)
    ensures DistinctLinks(path)
  {
    TrailLater(net, flow, positive, time, path, x, y);
    forall j, k | 0 <= j < k < |path| ensures path[j].link != path[k].link {
      assert Before(time, path[j].node, path[k].node);
      assert net.Leaves(path[j], net.Tail(path[j])) && net.Leaves(path[k], net.Tail(path[k]));
      assert Usable(flow, positive, path[j]) && Usable(flow, positive, path[k]);
    }
  }

  lemma {:induction false} TrailCount(time: map<nat, nat>, nodes: seq<nat>, n: nat)
    requires forall j :: 0 <= j < |nodes| ==> nodes[j] in time && nodes[j] < n
    requires forall j, k :: 0 <= j < k < |nodes| ==> Before(time, nodes[j], nodes[k])
    ensures |nodes| <= n
  {
    assert Distinct(nodes);
    DistinctCard(nodes);
    SubsetCard(Elements(nodes), Below(n));
    BelowCard(n);
  }

  // Follow the recorded arcs back from dst. There are fewer of them than nodes.
  method ExtractPath(net: Net, ghost flow: Flow, ghost positive: bool, src: nat, dst: nat, parent: seq<Option<Arc>>,
                     ghost time: map<nat, nat>)
    returns (path: seq<Arc>)
    requires net.Valid() && IsTree(net, flow, positive, src, parent, time)
    requires dst < |parent| && parent[dst].Some?
    ensures Trail(net, flow, positive, time, path, src, dst)
    ensures |path| < |net.arcs|
  {
    path := [];
    var node: nat := dst;
    ghost var nodes := [dst];
    while node != src
      invariant node < |parent| && parent[node].Some?
      invariant Trail(net, flow, positive, time, path, node, dst)
      invariant |nodes| == |path| + 1 && nodes[0] == node
      invariant forall j :: 0 <= j < |nodes| ==> nodes[j] in time && nodes[j] < |net.arcs|
      invariant forall j, k :: 0 <= j < k < |nodes| ==> Before(time, nodes[j], nodes[k])
      decreases time[node]
    {
      var arc := parent[node].value;
      assert Before(time, net.Tail(arc), node);
      path := [arc] + path;
      node := net.Tail(arc);
      nodes := [node] + nodes;
      TrailCount(time, nodes, |net.arcs|);
    }
    TrailCount(time, nodes, |net.arcs|);
  }

  // The flow after pushing a unit along a path, or after taking one away along it.
  function Applied(flow: Flow, positive: bool, path: seq<Arc>): (r: Flow)
    requires forall j :: 0 <= j < |path| ==> path[j].link < |flow|
    ensures |r| == |flow|
    decreases |path|
  {
    if path == [] then flow else
      Applied(flow[path[0].link := !positive && !path[0].reverse], positive, path[1..])
  }

  // The j-th arc leaves the node that the one before it entered.
  ghost predicate Linked(net: Net, path: seq<Arc>, x: nat, j: nat)
    requires j < |path|
  {
    net.Leaves(path[j], if j == 0 then x else path[j - 1].node)
  }

  function Has(s: set<nat>, x: nat): int {
    if x in s then 1 else 0
  }

  // Pushing a unit along a path from x to y changes the net flow at x and y only.
  lemma {:induction false} AppliedExcess(net: Net, flow: Flow, positive: bool, path: seq<Arc>, x: nat, y: nat,
                                         s: set<nat>)
    requires |flow| == |net.links| && DistinctLinks(path)
    requires forall j :: 0 <= j < |path| ==> path[j].link < |flow| && Usable(flow, positive, path[j])
    requires forall j :: 0 <= j < |path| ==> Linked(net, path, x, j)
    requires y == if path == [] then x else path[|path| - 1].node
    ensures Out(net.links, Applied(flow, positive, path), s) ==
      Out(net.links, flow, s) + (if positive then Has(s, y) - Has(s, x) else Has(s, x) - Has(s, y))
    decreases |path|
  {
    if path != [] {
      var arc, rest := path[0], path[1..];
      var next := flow[arc.link := !positive && !arc.reverse];
      ExcessUpdate(net.links, flow, s, arc.link, !positive && !arc.reverse, |flow|);
      assert forall j :: 0 <= j < |rest| ==> rest[j] == path[j + 1];
      forall j | 0 <= j < |rest| ensures Usable(next, positive, rest[j]) {
        assert Usable(flow, positive, path[j + 1]);
        assert path[j + 1].link != path[0].link;
      }
      forall j | 0 <= j < |rest| ensures Linked(net, rest, arc.node, j) {
        assert Linked(net, path, x, j + 1);
      }
      assert Linked(net, path, x, 0) && Usable(flow, positive, arc);
      AppliedExcess(net, next, positive, rest, arc.node, y, s);
    }
  }

  lemma {:induction false} TrailLeaves(net: Net, flow: Flow, positive: bool, time: map<nat, nat>, path: seq<Arc>,
                                       x: nat, y: nat)
    requires Trail(net, flow, positive, time, path, x, y)
    ensures forall j :: 0 <= j < |path| ==> Linked(net, path, x, j)
    ensures y == if path == [] then x else path[|path| - 1].node
  {
    if path != [] {
      var rest := path[1..];
      TrailLeaves(net, flow, positive, time, rest, path[0].node, y);
      forall j | 0 <= j < |path| ensures Linked(net, path, x, j) {
        if j > 0 { assert Linked(net, rest, path[0].node, j - 1); }
      }
    }
  }

  // A unit pushed along a trail from src to dst raises the value of a flow by one; a unit
  // taken away along a positive trail lowers it by one. Conservation is kept both ways.
  lemma AppliedIsFlow(net: Net, flow: Flow, positive: bool, time: map<nat, nat>, path: seq<Arc>, src: nat, dst: nat,
                      units: int)
    requires IsFlow(net.links, flow, src, dst, units) && src != dst
    requires Trail(net, flow, positive, time, path, src, dst)
    requires forall j :: 0 <= j < |path| ==> path[j].link < |flow|
    ensures IsFlow(net.links, Applied(flow, positive, path), src, dst, if positive then units - 1 else units + 1)
  {
    TrailLater(net, flow, positive, time, path, src, dst);
    TrailLinks(net, flow, positive, time, path, src, dst);
    TrailLeaves(net, flow, positive, time, path, src, dst);
    var after := Applied(flow, positive, path);
    AppliedExcess(net, flow, positive, path, src, dst, {src});
    forall x: nat | x != src && x != dst ensures Out(net.links, after, {x}) == 0 {
      AppliedExcess(net, flow, positive, path, src, dst, {x});
    }
  }

  // The loop that rewrites the flow along a path.
  method Apply(flow0: Flow, positive: bool, path: seq<Arc>) returns (flow: Flow)
    requires forall j :: 0 <= j < |path| ==> path[j].link < |flow0|
    ensures flow == Applied(flow0, positive, path)
  {
    flow := flow0;
    for j := 0 to |path|
      invariant |flow| == |flow0|
      invariant Applied(flow, positive, path[j..]) == Applied(flow0, positive, path)
    {
      assert path[j..][0] == path[j] && path[j..][1..] == path[j + 1..];
      flow := flow[path[j].link := !positive && !path[j].reverse];
    }
  }
}
