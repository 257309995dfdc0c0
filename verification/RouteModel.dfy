// Augmentation to a maximum flow, cancellation of opposing flow, and the residual cut.
module RouteModel {
  import opened Common
  import opened RouteFlow
  import opened RouteSearch
  import opened RouteNetwork

  // A closed set that holds the source holds everything the search reached.
  lemma {:induction false} ReachedInside(net: Net, flow: Flow, positive: bool, src: nat, parent: seq<Option<Arc>>,
                                         time: map<nat, nat>, s: set<nat>, x: nat)
    requires IsTree(net, flow, positive, src, parent, time) && src in s && x in time
    requires forall y, arc {:trigger net.Leaves(arc, y)} ::
      y in s && net.Leaves(arc, y) && Usable(flow, positive, arc) ==> arc.node in s
    ensures x in s
    decreases time[x]
  {
    assert parent[x].Some?;
    if x != src {
      var arc := parent[x].value;
      assert Before(time, net.Tail(arc), x);
      ReachedInside(net, flow, positive, src, parent, time, s, net.Tail(arc));
    }
  }

  // A finished search cannot be left along a usable arc.
  lemma ExploredClosed(net: Net, flow: Flow, positive: bool, time: map<nat, nat>)
    requires net.Valid() && AllExplored(net, flow, positive, time)
    ensures forall y, arc {:trigger net.Leaves(arc, y)} ::
      y in time && net.Leaves(arc, y) && Usable(flow, positive, arc) ==> arc.node in time
  {
    forall y, arc | y in time && net.Leaves(arc, y) && Usable(flow, positive, arc) ensures arc.node in time {
      assert Explored(net, flow, positive, time, y);
      var l := net.links[arc.link];
      assert arc in net.arcs[y];
    }
  }

  lemma ExploredSaturated(net: Net, flow: Flow, time: map<nat, nat>)
    requires net.Valid() && |flow| == |net.links| && AllExplored(net, flow, false, time)
    ensures Saturated(net.links, flow, time.Keys)
  {
    ExploredClosed(net, flow, false, time);
    forall i | 0 <= i < |net.links|
      ensures net.links[i].a in time && net.links[i].b !in time ==> flow[i]
      ensures net.links[i].a !in time && net.links[i].b in time ==> !flow[i]
    {
      var l := net.links[i];
      assert net.Leaves(Arc(l.b, i, false), l.a) && net.Leaves(Arc(l.a, i, true), l.b);
    }
  }

  // No more links leave the source node than the source tile has neighbours.
  lemma SourceDegree(q: Question, links: seq<Link>)
    requires q.Valid() && IsNetwork(q, links)
    ensures |Crossing(links, {q.Exit(q.source)}, |links|)| <= |q.adj[q.source]|
  {
    var c := Crossing(links, {q.Exit(q.source)}, |links|);
    forall i | i in c ensures links[i].meaning.StepTo? && links[i].meaning.here == q.source
      && links[i].meaning.there in q.adj[q.source] {
      assert links[i] in links;
    }
    var f := map i | i in c :: links[i].meaning.there;
    forall i, j | i in c && j in c && f[i] == f[j] ensures i == j {
      assert links[i] in links && links[j] in links;
      assert links[i] == links[j];
    }
    var near := Elements(q.adj[q.source]);
    forall i | i in c ensures f[i] in near {
      assert links[i] in links;
    }
    InjectionCard(c, near, f);
    DistinctCard(q.adj[q.source]);
  }

  lemma UnitsBounded(q: Question, links: seq<Link>, flow: Flow, units: nat)
    requires q.Valid() && IsNetwork(q, links) && IsFlow(links, flow, q.Exit(q.source), q.Entrance(q.target), units)
    ensures units <= |q.adj[q.source]|
  {
    ValueBound(links, flow, q.Exit(q.source), |links|);
    SourceDegree(q, links);
  }

  // One augmentation: the value grows by exactly one.
  method AugmentOnce(q: Question, net: Net, flow0: Flow, parent: seq<Option<Arc>>, ghost time: map<nat, nat>,
                     ghost units: nat)
    returns (flow: Flow)
    requires q.Valid() && net.Valid() && |net.arcs| == Size(q)
    requires IsFlow(net.links, flow0, q.Exit(q.source), q.Entrance(q.target), units)
    requires IsTree(net, flow0, false, q.Exit(q.source), parent, time)
    requires q.Entrance(q.target) < |parent| && parent[q.Entrance(q.target)].Some?
    ensures IsFlow(net.links, flow, q.Exit(q.source), q.Entrance(q.target), units + 1)
  {
    var src, dst := q.Exit(q.source), q.Entrance(q.target);
    var path := ExtractPath(net, flow0, false, src, dst, parent, time);
    TrailLater(net, flow0, false, time, path, src, dst);
    AppliedIsFlow(net, flow0, false, time, path, src, dst, units);
    flow := Apply(flow0, false, path);
  }

  // Augment until the target is out of reach: at most degree(source) times.
  method MaxFlow(q: Question, net: Net) returns (flow: Flow, units: nat, ghost last: seq<Option<Arc>>,
                 ghost time: map<nat, nat>)
    requires q.Valid() && net.Valid() && |net.arcs| == Size(q) && IsNetwork(q, net.links)
    ensures IsFlow(net.links, flow, q.Exit(q.source), q.Entrance(q.target), units)
    ensures units <= |q.adj[q.source]|
    ensures q.Exit(q.source) in time && q.Entrance(q.target) !in time
    ensures Saturated(net.links, flow, time.Keys)
    ensures IsTree(net, flow, false, q.Exit(q.source), last, time)
  {
    var src, dst := q.Exit(q.source), q.Entrance(q.target);
    flow := seq(|net.links|, _ => false);
    forall s ensures Out(net.links, flow, s) == 0 { ExcessZero(net.links, flow, s, |net.links|); }
    units := 0;
    var parent;
    parent, time := Search(net, flow, false, src, dst);
    while parent[dst].Some?
      invariant IsFlow(net.links, flow, src, dst, units)
      invariant IsTree(net, flow, false, src, parent, time)
      invariant parent[dst].None? ==> AllExplored(net, flow, false, time)
      invariant units <= |q.adj[q.source]|
      decreases |q.adj[q.source]| - units
    {
      flow := AugmentOnce(q, net, flow, parent, time, units);
      units := units + 1;
      UnitsBounded(q, net.links, flow, units);
      parent, time := Search(net, flow, false, src, dst);
    }
    ExploredSaturated(net, flow, time);
    last := parent;
  }

  // y is one residual step from x.
  ghost predicate CanStep(net: Net, flow: Flow, x: nat, y: nat) {
    exists arc :: net.Leaves(arc, x) && arc.node == y && Usable(flow, false, arc)
  }

  ghost predicate SameSteps(net: Net, flow: Flow, after: Flow) {
    forall x: nat, y: nat :: CanStep(net, flow, x, y) <==> CanStep(net, after, x, y)
  }

  function Cancelled(flow: Flow, f: nat, r: nat): Flow
    requires f < |flow| && r < |flow|
  {
    if flow[f] && flow[r] then flow[f := false][r := false] else flow
  }

  // Undoing two opposing units frees the very steps that undoing them one by one allowed.
  lemma CancelStep(net: Net, flow: Flow, f: nat, r: nat, x: nat, y: nat)
    requires |flow| == |net.links| && f < |flow| && r < |flow| && f != r && flow[f] && flow[r]
    requires net.links[f].a == net.links[r].b && net.links[f].b == net.links[r].a
    requires net.links[f].a < |net.arcs| && net.links[f].b < |net.arcs|
    ensures CanStep(net, flow, x, y) <==> CanStep(net, Cancelled(flow, f, r), x, y)
  {
    var after := Cancelled(flow, f, r);
    var a, b := net.links[f].a, net.links[f].b;
    assert net.Leaves(Arc(a, f, true), b) && net.Leaves(Arc(b, r, true), a);
    assert net.Leaves(Arc(b, f, false), a) && net.Leaves(Arc(a, r, false), b);
    assert Usable(after, false, Arc(b, f, false)) && Usable(after, false, Arc(a, r, false));
    assert Usable(flow, false, Arc(a, f, true)) && Usable(flow, false, Arc(b, r, true));
    if arc :| net.Leaves(arc, x) && arc.node == y && Usable(flow, false, arc) {
      if arc.link != f && arc.link != r { assert Usable(after, false, arc); }
    }
    if arc :| net.Leaves(arc, x) && arc.node == y && Usable(after, false, arc) {
      if arc.link != f && arc.link != r { assert Usable(flow, false, arc); }
    }
  }

  lemma CancelFlow(links: seq<Link>, flow: Flow, src: nat, dst: nat, units: int, f: nat, r: nat)
    requires IsFlow(links, flow, src, dst, units) && f < |flow| && r < |flow| && f != r
    requires links[f].a == links[r].b && links[f].b == links[r].a
    ensures IsFlow(links, Cancelled(flow, f, r), src, dst, units)
  {
    forall s ensures Out(links, Cancelled(flow, f, r), s) == Out(links, flow, s) {
      if flow[f] && flow[r] {
        ExcessUpdate(links, flow, s, f, false, |links|);
        ExcessUpdate(links, flow[f := false], s, r, false, |links|);
      }
    }
    assert Out(links, Cancelled(flow, f, r), {src}) == units;
    forall x: nat | x != src && x != dst ensures Out(links, Cancelled(flow, f, r), {x}) == 0 {
      assert Out(links, flow, {x}) == 0;
    }
  }

  // No pair of opposing links among the first n carries flow both ways.
  ghost predicate OneWay(flow: Flow, n: nat) {
    2 * n <= |flow| && forall k {:trigger flow[2 * k]} :: 0 <= k < n ==> !(flow[2 * k] && flow[2 * k + 1])
  }

  // Cancel opposing flow: same value, same residual steps, and no edge used both ways.
  method Cancel(net: Net, flow0: Flow, opposing: seq<(nat, nat)>, ghost src: nat, ghost dst: nat, ghost units: int)
    returns (flow: Flow)
    requires net.Valid() && IsFlow(net.links, flow0, src, dst, units)
    requires opposing == [] || Paired(net.links, opposing)
    ensures IsFlow(net.links, flow, src, dst, units)
    ensures SameSteps(net, flow0, flow)
    ensures opposing == [] ==> flow == flow0
    ensures OneWay(flow, |opposing|)
  {
    flow := flow0;
    for k := 0 to |opposing|
      invariant IsFlow(net.links, flow, src, dst, units) && SameSteps(net, flow0, flow)
      invariant OneWay(flow, k)
      invariant k == 0 ==> flow == flow0
    {
      var f, r := opposing[k].0, opposing[k].1;
      assert f == 2 * k && r == 2 * k + 1;
      ghost var before := flow;
      CancelFlow(net.links, flow, src, dst, units, f, r);
      assert net.links[f].a < |net.arcs|;
      if flow[f] && flow[r] {
        forall x: nat, y: nat ensures CanStep(net, before, x, y) <==> CanStep(net, Cancelled(before, f, r), x, y) {
          CancelStep(net, before, f, r, x, y);
        }
        flow := flow[f := false];
        flow := flow[r := false];
      }
    }
  }

  lemma SameStepsInside(net: Net, flow: Flow, src: nat, parent: seq<Option<Arc>>, time: map<nat, nat>, other: Flow,
                        s: set<nat>)
    requires IsTree(net, flow, false, src, parent, time) && src in s && SameSteps(net, flow, other)
    requires forall y, arc {:trigger net.Leaves(arc, y)} ::
      y in s && net.Leaves(arc, y) && Usable(other, false, arc) ==> arc.node in s
    ensures time.Keys <= s
  {
    forall y, arc | y in s && net.Leaves(arc, y) && Usable(flow, false, arc) ensures arc.node in s {
      assert CanStep(net, flow, y, arc.node);
      assert CanStep(net, other, y, arc.node);
    }
    forall x | x in time ensures x in s {
      ReachedInside(net, flow, false, src, parent, time, s, x);
    }
  }

  lemma SaturatedClosed(net: Net, flow: Flow, s: set<nat>)
    requires Saturated(net.links, flow, s) && |flow| == |net.links|
    ensures forall y, arc {:trigger net.Leaves(arc, y)} :: y in s && net.Leaves(arc, y) && Usable(flow, false, arc) ==>
      arc.node in s
  {
  }

  // The search after cancellation reaches exactly what the last search before it reached.
  method Residual(q: Question, net: Net, ghost flow0: Flow, flow: Flow, ghost time0: map<nat, nat>,
                  ghost parent0: seq<Option<Arc>>)
    returns (parent: seq<Option<Arc>>, ghost time: map<nat, nat>)
    requires q.Valid() && net.Valid() && |net.arcs| == Size(q) && |flow| == |flow0| == |net.links|
    requires IsTree(net, flow0, false, q.Exit(q.source), parent0, time0) && Saturated(net.links, flow0, time0.Keys)
    requires SameSteps(net, flow0, flow) && q.Entrance(q.target) !in time0
    ensures IsTree(net, flow, false, q.Exit(q.source), parent, time)
    ensures time.Keys == time0.Keys && parent[q.Entrance(q.target)].None?
    ensures Saturated(net.links, flow, time.Keys)
  {
    var src, dst := q.Exit(q.source), q.Entrance(q.target);
    parent, time := Search(net, flow, false, src, dst);
    SaturatedClosed(net, flow0, time0.Keys);
    SameStepsInside(net, flow, src, parent, time, flow0, time0.Keys);
    assert parent[dst].None?;
    ExploredSaturated(net, flow, time);
    ExploredClosed(net, flow, false, time);
    SameStepsInside(net, flow0, src, parent0, time0, flow, time.Keys);
  }
}
