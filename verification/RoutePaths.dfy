// Decomposing a flow into routes that share no edge, and no internal tile in tile mode.
module RoutePaths {
  import opened Common
  import opened Graphs
  import opened RouteFlow
  import opened RouteSearch
  import opened RouteNetwork
  import opened RouteModel
  import opened RouteCuts

  // A simple path of tiles from the source to the target.
  ghost predicate IsRoute(q: Question, r: seq<nat>) {
    && |r| >= 2 && r[0] == q.source && r[|r| - 1] == q.target && Distinct(r)
    && forall m :: 0 <= m < |r| - 1 ==> Edge(q.adj, r[m], r[m + 1])
  }

  // The undirected edges and the inner tiles of a route.
  ghost predicate UsesEdge(r: seq<nat>, e: Cut) {
    exists m :: 0 <= m < |r| - 1 && EdgeBetween(r[m], r[m + 1]) == e
  }

  ghost predicate UsesTile(r: seq<nat>, t: nat) {
    exists m :: 0 < m < |r| - 1 && r[m] == t
  }

  ghost predicate DisjointRoutes(q: Question, r: seq<nat>, s: seq<nat>) {
    && (forall e :: !(UsesEdge(r, e) && UsesEdge(s, e)))
    && (q.tiles ==> forall t :: !(UsesTile(r, t) && UsesTile(s, t)))
  }

  // The step targets of a path of arcs.
  function Steps(links: seq<Link>, path: seq<Arc>): seq<nat>
    requires forall j :: 0 <= j < |path| ==> path[j].link < |links|
  {
    if path == [] then [] else
      (match links[path[0].link].meaning case StepTo(_, v) => [v] case Through(_) => []) + Steps(links, path[1..])
  }

  // Some arc of the path uses a link with this meaning.
  ghost predicate Takes(links: seq<Link>, path: seq<Arc>, m: Meaning) {
    exists j :: 0 <= j < |path| && path[j].link < |links| && links[path[j].link].meaning == m
  }

  lemma TakesMore(links: seq<Link>, path: seq<Arc>, m: Meaning)
    requires path != [] && Takes(links, path[1..], m)
    ensures Takes(links, path, m)
  {
    var j :| 0 <= j < |path[1..]| && path[1..][j].link < |links| && links[path[1..][j].link].meaning == m;
    assert path[j + 1] == path[1..][j];
  }

  // The context of a decomposition: a network and a positive trail in it.
  ghost predicate PositiveTrail(q: Question, net: Net, flow: Flow, time: map<nat, nat>, path: seq<Arc>, x: nat) {
    && q.Valid() && IsNetwork(q, net.links) && |flow| == |net.links|
    && Trail(net, flow, true, time, path, x, q.Entrance(q.target))
    && forall j :: 0 <= j < |path| ==> path[j].link < |net.links|
  }

  lemma TrailRest(q: Question, net: Net, flow: Flow, time: map<nat, nat>, path: seq<Arc>, x: nat)
    requires PositiveTrail(q, net, flow, time, path, x) && path != []
    ensures PositiveTrail(q, net, flow, time, path[1..], path[0].node)
    ensures q.Wanted(net.links[path[0].link]) && net.links[path[0].link].a == x
      && net.links[path[0].link].b == path[0].node
  {
    WantedAt(q, net.links, path[0].link);
    assert forall j :: 0 < j < |path| ==> path[j] == path[1..][j - 1];
  }

  // Every tile stepped to is entered at its entrance, later than x.
  lemma {:induction false} StepsEntered(q: Question, net: Net, flow: Flow, time: map<nat, nat>, path: seq<Arc>, x: nat,
                                        v: nat)
    requires PositiveTrail(q, net, flow, time, path, x) && v in Steps(net.links, path)
    ensures Before(time, x, q.Entrance(v)) && (q.tiles ==> v != q.source)
    decreases |path|
  {
    TrailRest(q, net, flow, time, path, x);
    var l := net.links[path[0].link];
    if !(l.meaning.StepTo? && l.meaning.there == v) {
      StepsEntered(q, net, flow, time, path[1..], path[0].node, v);
    }
  }

  lemma {:induction false} StepsDistinct(q: Question, net: Net, flow: Flow, time: map<nat, nat>, path: seq<Arc>, x: nat)
    requires PositiveTrail(q, net, flow, time, path, x)
    ensures Distinct(Steps(net.links, path))
    decreases |path|
  {
    if path != [] {
      TrailRest(q, net, flow, time, path, x);
      StepsDistinct(q, net, flow, time, path[1..], path[0].node);
      var l := net.links[path[0].link];
      if l.meaning.StepTo? && l.meaning.there in Steps(net.links, path[1..]) {
        StepsEntered(q, net, flow, time, path[1..], path[0].node, l.meaning.there);
        assert false;
      }
    }
  }

  // The tiles from x on are joined by edges whose links the path takes, and end in the target.
  ghost predicate Joined(q: Question, links: seq<Link>, path: seq<Arc>, r: seq<nat>) {
    && |r| > 0 && r[|r| - 1] == q.target
    && forall m :: 0 <= m < |r| - 1 ==> Edge(q.adj, r[m], r[m + 1]) && Takes(links, path, StepTo(r[m], r[m + 1]))
  }

  lemma {:induction false} StepsJoined(q: Question, net: Net, flow: Flow, time: map<nat, nat>, path: seq<Arc>, x: nat)
    requires PositiveTrail(q, net, flow, time, path, x)
    ensures Joined(q, net.links, path, [q.TileOf(x)] + Steps(net.links, path))
    decreases |path|
  {
    if path != [] {
      TrailRest(q, net, flow, time, path, x);
      var l, rest, y := net.links[path[0].link], path[1..], path[0].node;
      StepsJoined(q, net, flow, time, rest, y);
      var here, after := [q.TileOf(x)] + Steps(net.links, path), [q.TileOf(y)] + Steps(net.links, rest);
      forall m | 0 <= m < |after| - 1 ensures Takes(net.links, path, StepTo(after[m], after[m + 1])) {
        TakesMore(net.links, path, StepTo(after[m], after[m + 1]));
      }
      assert Takes(net.links, path, l.meaning) by { assert path[0].link < |net.links|; }
      if l.meaning.Through? {
        assert here == after;
      } else {
        assert here == [q.TileOf(x)] + after;
        forall m | 0 <= m < |here| - 1
          ensures Edge(q.adj, here[m], here[m + 1]) && Takes(net.links, path, StepTo(here[m], here[m + 1]))
        {
          if m > 0 { assert here[m] == after[m - 1] && here[m + 1] == after[m]; }
        }
      }
    }
  }

  // In tile mode a path that steps to an inner tile goes through it.
  lemma {:induction false} StepsGoThrough(q: Question, net: Net, flow: Flow, time: map<nat, nat>, path: seq<Arc>,
                                          x: nat, v: nat)
    requires PositiveTrail(q, net, flow, time, path, x) && q.tiles && v in Steps(net.links, path) && v != q.target
    ensures Takes(net.links, path, Through(v))
    decreases |path|
  {
    TrailRest(q, net, flow, time, path, x);
    var l, rest, y := net.links[path[0].link], path[1..], path[0].node;
    if l.meaning.StepTo? && l.meaning.there == v {
      assert rest != [];
      TrailRest(q, net, flow, time, rest, y);
      assert net.links[rest[0].link].meaning == Through(v);
      assert Takes(net.links, rest, Through(v));
    } else {
      StepsGoThrough(q, net, flow, time, rest, y, v);
    }
    TakesMore(net.links, path, Through(v));
  }

  ghost function LinksOf(path: seq<Arc>): set<nat> {
    set j | 0 <= j < |path| :: path[j].link
  }

  // A route together with the links that carry it.
  ghost predicate Carried(q: Question, links: seq<Link>, r: seq<nat>, use: set<nat>) {
    && IsRoute(q, r)
    && (forall m :: 0 <= m < |r| - 1 ==> HasLink(links, use, StepTo(r[m], r[m + 1])))
    && (q.tiles ==> forall m :: 0 < m < |r| - 1 ==> HasLink(links, use, Through(r[m])))
  }

  ghost predicate HasLink(links: seq<Link>, use: set<nat>, m: Meaning) {
    exists i :: i in use && i < |links| && links[i].meaning == m
  }

  lemma TakesHas(links: seq<Link>, path: seq<Arc>, m: Meaning)
    requires Takes(links, path, m)
    ensures HasLink(links, LinksOf(path), m)
  {
    var j :| 0 <= j < |path| && path[j].link < |links| && links[path[j].link].meaning == m;
    assert path[j].link in LinksOf(path);
  }

  lemma TrailIsCarried(q: Question, net: Net, flow: Flow, time: map<nat, nat>, path: seq<Arc>)
    requires PositiveTrail(q, net, flow, time, path, q.Exit(q.source))
    ensures Carried(q, net.links, [q.source] + Steps(net.links, path), LinksOf(path))
  {
    var src := q.Exit(q.source);
    var steps := Steps(net.links, path);
    var r := [q.source] + steps;
    StepsJoined(q, net, flow, time, path, src);
    StepsDistinct(q, net, flow, time, path, src);
    assert q.TileOf(src) == q.source;
    if q.source in steps {
      StepsEntered(q, net, flow, time, path, src, q.source);
      assert false;
    }
    forall m | 0 <= m < |r| - 1 ensures HasLink(net.links, LinksOf(path), StepTo(r[m], r[m + 1])) {
      TakesHas(net.links, path, StepTo(r[m], r[m + 1]));
    }
    if q.tiles {
      forall m | 0 < m < |r| - 1 ensures HasLink(net.links, LinksOf(path), Through(r[m])) {
        assert r[m] == steps[m - 1] && r[m] != r[|r| - 1];
        StepsGoThrough(q, net, flow, time, path, src, r[m]);
        TakesHas(net.links, path, Through(r[m]));
      }
    }
  }

  lemma {:induction false} AppliedRemoves(flow: Flow, path: seq<Arc>, i: nat)
    requires i < |flow| && forall j :: 0 <= j < |path| ==> path[j].link < |flow|
    ensures Applied(flow, true, path)[i] <==> flow[i] && i !in LinksOf(path)
    decreases |path|
  {
    if path != [] {
      var next := flow[path[0].link := false];
      AppliedRemoves(next, path[1..], i);
      assert i in LinksOf(path) <==> i == path[0].link || i in LinksOf(path[1..]) by {
        if i in LinksOf(path) && i != path[0].link {
          var j :| 0 <= j < |path| && path[j].link == i;
          assert path[1..][j - 1].link == i;
        }
        if i in LinksOf(path[1..]) {
          var j :| 0 <= j < |path[1..]| && path[1..][j].link == i;
          assert path[j + 1].link == i;
        }
        assert path[0].link in LinksOf(path);
      }
    }
  }

  // While units are left, the target can be reached along used links.
  lemma PositiveReaches(q: Question, net: Net, flow: Flow, units: nat, parent: seq<Option<Arc>>, time: map<nat, nat>)
    requires q.Valid() && net.Valid() && IsFlow(net.links, flow, q.Exit(q.source), q.Entrance(q.target), units)
      && units > 0
    requires IsTree(net, flow, true, q.Exit(q.source), parent, time)
    requires q.Entrance(q.target) !in time ==> AllExplored(net, flow, true, time)
    ensures q.Entrance(q.target) in time
  {
    if q.Entrance(q.target) !in time {
      ExploredClosed(net, flow, true, time);
      forall i | 0 <= i < |net.links| && net.links[i].a in time && net.links[i].b !in time ensures !flow[i] {
        assert net.Leaves(Arc(net.links[i].b, i, false), net.links[i].a);
      }
      NoOutflow(net.links, flow, time.Keys, |net.links|);
      CutValue(net.links, flow, q.Exit(q.source), q.Entrance(q.target), units, time.Keys);
      assert false;
    }
  }

  // Walk a path: drop its links from the remaining flow and note the tiles stepped to.
  method FollowPath(q: Question, links: seq<Link>, remaining0: Flow, path: seq<Arc>)
    returns (remaining: Flow, route: seq<nat>)
    requires |remaining0| == |links| && forall j :: 0 <= j < |path| ==> path[j].link < |links|
    ensures remaining == Applied(remaining0, true, path)
    ensures route == [q.source] + Steps(links, path)
  {
    remaining, route := remaining0, [q.source];
    for j := 0 to |path|
      invariant |remaining| == |links|
      invariant Applied(remaining, true, path[j..]) == Applied(remaining0, true, path)
      invariant route + Steps(links, path[j..]) == [q.source] + Steps(links, path)
    {
      assert path[j..][0] == path[j] && path[j..][1..] == path[j + 1..];
      var l := links[path[j].link];
      remaining := remaining[path[j].link := false];
      if l.meaning.StepTo? { route := route + [l.meaning.there]; }
    }
  }

  // Take one route out of a flow of positive value.
  method TakeRoute(q: Question, net: Net, remaining0: Flow, ghost units: nat)
    returns (route: seq<nat>, remaining: Flow, ghost use: set<nat>)
    requires q.Valid() && net.Valid() && |net.arcs| == Size(q) && IsNetwork(q, net.links) && units > 0
    requires IsFlow(net.links, remaining0, q.Exit(q.source), q.Entrance(q.target), units)
    ensures Carried(q, net.links, route, use)
    ensures IsFlow(net.links, remaining, q.Exit(q.source), q.Entrance(q.target), units - 1)
    ensures InFlow(use, remaining0)
    ensures |remaining| == |remaining0| && forall i :: 0 <= i < |remaining| ==>
      (remaining[i] <==> remaining0[i] && i !in use)
  {
    var src, dst := q.Exit(q.source), q.Entrance(q.target);
    var parent, time := Search(net, remaining0, true, src, dst);
    PositiveReaches(q, net, remaining0, units, parent, time);
    var path := ExtractPath(net, remaining0, true, src, dst, parent, time);
    TrailLater(net, remaining0, true, time, path, src, dst);
    AppliedIsFlow(net, remaining0, true, time, path, src, dst, units);
    TrailIsCarried(q, net, remaining0, time, path);
    use := LinksOf(path);
    remaining, route := FollowPath(q, net.links, remaining0, path);
    forall i | 0 <= i < |remaining| ensures remaining[i] <==> remaining0[i] && i !in use {
      AppliedRemoves(remaining0, path, i);
    }
  }

  ghost predicate InFlow(use: set<nat>, flow: Flow) {
    forall i :: i in use ==> i < |flow| && flow[i]
  }

  // Routes with the links that carry them: used in the flow, and by one route only.
  ghost predicate Decomposed(q: Question, links: seq<Link>, flow: Flow, paths: seq<seq<nat>>, uses: seq<set<nat>>) {
    && |uses| == |paths|
    && (forall j :: 0 <= j < |paths| ==> Carried(q, links, paths[j], uses[j]))
    && (forall j :: 0 <= j < |uses| ==> InFlow(uses[j], flow))
    && (forall j, k :: 0 <= j < k < |uses| ==> uses[j] !! uses[k])
  }

  method Decompose(q: Question, net: Net, flow: Flow, units: nat)
    returns (paths: seq<seq<nat>>, ghost uses: seq<set<nat>>)
    requires q.Valid() && net.Valid() && |net.arcs| == Size(q) && IsNetwork(q, net.links)
    requires IsFlow(net.links, flow, q.Exit(q.source), q.Entrance(q.target), units)
    ensures |paths| == units && Decomposed(q, net.links, flow, paths, uses)
  {
    paths, uses := [], [];
    var remaining := flow;
    for j := 0 to units
      invariant |paths| == j && Decomposed(q, net.links, flow, paths, uses)
      invariant IsFlow(net.links, remaining, q.Exit(q.source), q.Entrance(q.target), units - j)
      invariant |remaining| == |flow| && forall i :: 0 <= i < |flow| && remaining[i] ==> flow[i]
      invariant Gone(uses, remaining)
    {
      var route, next, use := TakeRoute(q, net, remaining, units - j);
      DecomposeStep(q, net.links, flow, paths, uses, remaining, route, use, next);
      paths, uses, remaining := paths + [route], uses + [use], next;
    }
  }

  // The links of the routes taken so far are gone from the remaining flow.
  ghost predicate Gone(uses: seq<set<nat>>, remaining: Flow) {
    forall k, i: nat {:trigger i in uses[k]} :: 0 <= k < |uses| && i in uses[k] ==> i < |remaining| && !remaining[i]
  }

  lemma DecomposeStep(q: Question, links: seq<Link>, flow: Flow, paths: seq<seq<nat>>, uses: seq<set<nat>>,
                      remaining: Flow, route: seq<nat>, use: set<nat>, next: Flow)
    requires Decomposed(q, links, flow, paths, uses) && Gone(uses, remaining) && |remaining| == |flow| == |next|
    requires forall i :: 0 <= i < |flow| && remaining[i] ==> flow[i]
    requires Carried(q, links, route, use) && InFlow(use, remaining)
    requires forall i :: 0 <= i < |next| ==> (next[i] <==> remaining[i] && i !in use)
    ensures Decomposed(q, links, flow, paths + [route], uses + [use]) && Gone(uses + [use], next)
  {
    var more := uses + [use];
    assert forall k :: 0 <= k < |more| ==> more[k] == if k < |uses| then uses[k] else use;
    forall j, k | 0 <= j < k < |more| ensures more[j] !! more[k] {
      forall i | i in more[j] ensures i !in more[k] {
        assert i in uses[j];
      }
    }
  }

  // Two links with the same meaning are the same link.
  lemma SameMeaning(q: Question, links: seq<Link>, i: nat, j: nat)
    requires IsNetwork(q, links) && i < |links| && j < |links| && links[i].meaning == links[j].meaning
    ensures i == j
  {
    WantedAt(q, links, i);
    WantedAt(q, links, j);
    assert links[i] == links[j];
  }

  lemma NotShared(q: Question, links: seq<Link>, r: set<nat>, s: set<nat>, m: Meaning)
    requires IsNetwork(q, links) && r !! s
    ensures !(HasLink(links, r, m) && HasLink(links, s, m))
  {
    if HasLink(links, r, m) && HasLink(links, s, m) {
      var i :| i in r && i < |links| && links[i].meaning == m;
      var j :| j in s && j < |links| && links[j].meaning == m;
      SameMeaning(q, links, i, j);
      assert false;
    }
  }

  // After cancellation no edge carries flow both ways.
  lemma NotBothWays(q: Question, links: seq<Link>, opposing: seq<(nat, nat)>, flow: Flow, i: nat, j: nat)
    requires !q.tiles && IsNetwork(q, links) && Paired(links, opposing) && |flow| == |links| && OneWay(flow, |opposing|)
    requires i < |links| && j < |links| && links[i].a == links[j].b && links[i].b == links[j].a
    ensures !(flow[i] && flow[j])
  {
    var k := i / 2;
    var other := if i % 2 == 0 then i + 1 else i - 1;
    assert opposing[k] == (2 * k, 2 * k + 1);
    WantedAt(q, links, j);
    WantedAt(q, links, other);
    SameMeaning(q, links, j, other);
    assert !(flow[2 * k] && flow[2 * k + 1]);
  }

  // The flow facts that make routes disjoint.
  ghost predicate Settled(q: Question, links: seq<Link>, opposing: seq<(nat, nat)>, flow: Flow) {
    && IsNetwork(q, links) && |flow| == |links|
    && (!q.tiles ==> Paired(links, opposing) && OneWay(flow, |opposing|))
  }

  lemma StepsNotShared(q: Question, links: seq<Link>, opposing: seq<(nat, nat)>, flow: Flow,
                       r: seq<nat>, use: set<nat>, s: seq<nat>, other: set<nat>, m: nat, n: nat)
    requires q.Valid() && Settled(q, links, opposing, flow) && use !! other
    requires Carried(q, links, r, use) && Carried(q, links, s, other)
    requires InFlow(use, flow) && InFlow(other, flow)
    requires m < |r| - 1 && n < |s| - 1
    ensures EdgeBetween(r[m], r[m + 1]) != EdgeBetween(s[n], s[n + 1])
  {
    assert HasLink(links, use, StepTo(r[m], r[m + 1])) && HasLink(links, other, StepTo(s[n], s[n + 1]));
    NotShared(q, links, use, other, StepTo(r[m], r[m + 1]));
    if r[m] == s[n + 1] && r[m + 1] == s[n] {
      var i :| i in use && i < |links| && links[i].meaning == StepTo(r[m], r[m + 1]);
      var j :| j in other && j < |links| && links[j].meaning == StepTo(s[n], s[n + 1]);
      WantedAt(q, links, i);
      WantedAt(q, links, j);
      if q.tiles {
        assert HasLink(links, use, Through(r[m])) && HasLink(links, other, Through(s[n + 1]));
        NotShared(q, links, use, other, Through(r[m]));
      } else {
        NotBothWays(q, links, opposing, flow, i, j);
      }
      assert false;
    }
  }

  lemma CarriedDisjoint(q: Question, links: seq<Link>, opposing: seq<(nat, nat)>, flow: Flow,
                        r: seq<nat>, use: set<nat>, s: seq<nat>, other: set<nat>)
    requires q.Valid() && Settled(q, links, opposing, flow) && use !! other
    requires Carried(q, links, r, use) && Carried(q, links, s, other)
    requires InFlow(use, flow) && InFlow(other, flow)
    ensures DisjointRoutes(q, r, s)
  {
    forall e ensures !(UsesEdge(r, e) && UsesEdge(s, e)) {
      if UsesEdge(r, e) && UsesEdge(s, e) {
        var m :| 0 <= m < |r| - 1 && EdgeBetween(r[m], r[m + 1]) == e;
        var n :| 0 <= n < |s| - 1 && EdgeBetween(s[n], s[n + 1]) == e;
        StepsNotShared(q, links, opposing, flow, r, use, s, other, m, n);
        assert false;
      }
    }
    if q.tiles {
      forall t ensures !(UsesTile(r, t) && UsesTile(s, t)) {
        NotShared(q, links, use, other, Through(t));
      }
    }
  }

  // A set of routes no two of which share an edge or, in tile mode, an inner tile.
  ghost predicate IsRouteSet(q: Question, paths: seq<seq<nat>>) {
    && Distinct(paths)
    && (forall r :: r in paths ==> IsRoute(q, r))
    && (forall r, s :: r in paths && s in paths && r != s ==> DisjointRoutes(q, r, s))
  }

  lemma DecomposedIsRouteSet(q: Question, links: seq<Link>, opposing: seq<(nat, nat)>, flow: Flow,
                             paths: seq<seq<nat>>, uses: seq<set<nat>>)
    requires q.Valid() && Settled(q, links, opposing, flow) && Decomposed(q, links, flow, paths, uses)
    ensures IsRouteSet(q, paths)
  {
    forall j, k | 0 <= j < |paths| && 0 <= k < |paths| && j != k
      ensures DisjointRoutes(q, paths[j], paths[k]) && paths[j] != paths[k]
    {
      assert uses[j] !! uses[k];
      CarriedDisjoint(q, links, opposing, flow, paths[j], uses[j], paths[k], uses[k]);
      assert UsesEdge(paths[j], EdgeBetween(paths[j][0], paths[j][0 + 1]));
    }
    assert forall r :: r in paths ==> exists j :: 0 <= j < |paths| && paths[j] == r;
    forall r, s | r in paths && s in paths && r != s ensures DisjointRoutes(q, r, s) {
      var j :| 0 <= j < |paths| && paths[j] == r;
      var k :| 0 <= k < |paths| && paths[k] == s;
      assert DisjointRoutes(q, paths[j], paths[k]);
    }
  }
}
