// The flow network of a route question: one pair of opposing links per edge, or, when
// internal tiles must not be shared, an entrance and an exit node for every tile.
module RouteNetwork {
  import opened Common
  import opened Graphs
  import opened Sorting
  import opened RouteFlow
  import opened RouteSearch

  // An undirected graph given by symmetric adjacency lists without loops or repetitions.
  ghost predicate SimpleGraph(adj: Graph) {
    && WellFormed(adj)
    && (forall a: nat, b: nat {:trigger Edge(adj, a, b)} :: Edge(adj, a, b) ==> Edge(adj, b, a) && a != b)
    && (forall a :: 0 <= a < |adj| ==> Distinct(adj[a]))
  }

  // A route question: two different tiles of a graph, and whether tiles may be shared.
  datatype Question = Question(adj: Graph, source: nat, target: nat, tiles: bool) {

    ghost predicate Valid() {
      SimpleGraph(adj) && source < |adj| && target < |adj| && source != target
    }

    function Entrance(tile: nat): nat { if tiles then tile * 2 else tile }

    function Exit(tile: nat): nat { if tiles then tile * 2 + 1 else tile }

    function TileOf(node: nat): nat { if tiles then node / 2 else node }

    predicate Internal(tile: nat) { tile < |adj| && tile != source && tile != target }

    // The links the network must have, and no others.
    ghost predicate Wanted(l: Link) {
      match l.meaning
      case Through(t) => tiles && Internal(t) && l.a == Entrance(t) && l.b == Exit(t)
      case StepTo(u, v) =>
        && l.a == Exit(u) && l.b == Entrance(v) && Edge(adj, u, v)
        && (tiles ==> u != target && v != source)
    }

    // The row of the adjacency lists that adds a link, and the neighbour it adds it for.
    ghost function Owner(l: Link): nat {
      match l.meaning
      case Through(t) => t
      case StepTo(u, v) => if tiles || u < v then u else v
    }

    ghost function Partner(l: Link): nat {
      match l.meaning
      case Through(t) => t
      case StepTo(u, v) => if tiles || u < v then v else u
    }

    // Wanted links of finished rows, and of row a for the neighbours done so far.
    ghost predicate Placed(l: Link, a: nat, done: set<nat>) {
      Wanted(l) && (Owner(l) < a || (Owner(l) == a && (l.meaning.Through? || Partner(l) in done)))
    }
  }

  // The links listed are those wanted, each once.
  ghost predicate IsNetwork(q: Question, links: seq<Link>) {
    Distinct(links) && forall l {:trigger l in links} :: l in links <==> q.Wanted(l)
  }

  ghost predicate Building(q: Question, links: seq<Link>, a: nat, done: set<nat>) {
    Distinct(links) && forall l {:trigger l in links} :: l in links <==> q.Placed(l, a, done)
  }

  // Append a link and its two arcs.
  method AddLink(net0: Net, l: Link) returns (net: Net)
    requires net0.Valid() && l.a < |net0.arcs| && l.b < |net0.arcs| && l.a != l.b
    ensures net.links == net0.links + [l] && |net.arcs| == |net0.arcs| && net.Valid()
  {
    var i := |net0.links|;
    var fore := net0.arcs[l.a := net0.arcs[l.a] + [Arc(l.b, i, false)]];
    var both := fore[l.b := fore[l.b] + [Arc(l.a, i, true)]];
    net := Net(net0.links + [l], both);
    AddLinkValid(net0, l, net);
  }

  ghost function NewArcs(l: Link, i: nat, x: nat): seq<Arc> {
    if x == l.a then [Arc(l.b, i, false)] else if x == l.b then [Arc(l.a, i, true)] else []
  }

  lemma AddLinkValid(net0: Net, l: Link, net: Net)
    requires net0.Valid() && l.a < |net0.arcs| && l.b < |net0.arcs| && l.a != l.b
    requires net.links == net0.links + [l] && |net.arcs| == |net0.arcs|
    requires forall x :: 0 <= x < |net.arcs| ==> net.arcs[x] == net0.arcs[x] + NewArcs(l, |net0.links|, x)
    ensures net.Valid()
  {
    forall x, j | 0 <= x < |net.arcs| && 0 <= j < |net.arcs[x]| ensures net.Leaves(net.arcs[x][j], x) {
      if j < |net0.arcs[x]| { assert net0.Leaves(net0.arcs[x][j], x); }
    }
    forall i | 0 <= i < |net.links|
      ensures net.links[i].a < |net.arcs| && net.links[i].b < |net.arcs|
        && Arc(net.links[i].b, i, false) in net.arcs[net.links[i].a]
          && Arc(net.links[i].a, i, true) in net.arcs[net.links[i].b]
    {
      if i < |net0.links| { assert net.links[i] == net0.links[i]; }
    }
  }

  // Opposing links come in consecutive pairs.
  ghost predicate Paired(links: seq<Link>, opposing: seq<(nat, nat)>) {
    && |links| == 2 * |opposing|
    && (forall k :: 0 <= k < |opposing| ==> opposing[k] == (2 * k, 2 * k + 1))
    && (forall k {:trigger opposing[k]} :: 0 <= k < |opposing| ==>
          links[2 * k].a == links[2 * k + 1].b && links[2 * k].b == links[2 * k + 1].a)
  }

  lemma PlaceOne(q: Question, links: seq<Link>, a: nat, done: set<nat>, b: nat, l: Link)
    requires q.Valid() && q.tiles && Building(q, links, a, done) && b !in done
    requires l == Link(q.Exit(a), q.Entrance(b), StepTo(a, b)) && q.Wanted(l)
    ensures Building(q, links + [l], a, done + {b})
  {
    assert l !in links;
    forall k ensures k in links + [l] <==> q.Placed(k, a, done + {b}) {
      assert k in links + [l] <==> k in links || k == l;
    }
  }

  lemma PlaceNone(q: Question, links: seq<Link>, a: nat, done: set<nat>, b: nat)
    requires Building(q, links, a, done)
    requires forall l :: q.Wanted(l) && l.meaning.StepTo? && q.Owner(l) == a ==> q.Partner(l) != b
    ensures Building(q, links, a, done + {b})
  {
  }

  lemma PlacePair(q: Question, links: seq<Link>, a: nat, done: set<nat>, b: nat)
    requires q.Valid() && !q.tiles && Building(q, links, a, done) && b !in done && a < b && Edge(q.adj, a, b)
    ensures Building(q, links + [Link(a, b, StepTo(a, b))] + [Link(b, a, StepTo(b, a))], a, done + {b})
  {
    var f, r := Link(a, b, StepTo(a, b)), Link(b, a, StepTo(b, a));
    var longer := links + [f] + [r];
    assert q.Wanted(f) && q.Wanted(r) by { assert Edge(q.adj, b, a); }
    assert f !in links && r !in links && f != r;
    forall k ensures k in longer <==> q.Placed(k, a, done + {b}) {
      assert k in longer <==> k in links || k == f || k == r;
    }
  }

  // The wanted links of the rows below a.
  ghost predicate Rows(q: Question, links: seq<Link>, a: nat) {
    Distinct(links) && forall l {:trigger l in links} :: l in links <==> q.Wanted(l) && q.Owner(l) < a
  }

  lemma StartRow(q: Question, links: seq<Link>, a: nat)
    requires Rows(q, links, a)
    ensures q.tiles && q.Internal(a) ==> Building(q, links + [Link(q.Entrance(a), q.Exit(a), Through(a))], a, {})
    ensures !(q.tiles && q.Internal(a)) ==> Building(q, links, a, {})
  {
    if q.tiles && q.Internal(a) {
      var l := Link(q.Entrance(a), q.Exit(a), Through(a));
      assert l !in links;
      forall k ensures k in links + [l] <==> q.Placed(k, a, {}) {
        assert k in links + [l] <==> k in links || k == l;
      }
    }
  }

  lemma FinishRow(q: Question, links: seq<Link>, a: nat, done: set<nat>)
    requires q.Valid() && Building(q, links, a, done) && a < |q.adj| && forall b :: b in q.adj[a] ==> b in done
    ensures Rows(q, links, a + 1)
  {
    forall l | q.Wanted(l) && q.Owner(l) == a && l.meaning.StepTo? ensures q.Partner(l) in done {
      assert Edge(q.adj, l.meaning.here, l.meaning.there) && Edge(q.adj, l.meaning.there, l.meaning.here);
    }
  }

  lemma PairedAppend(links: seq<Link>, opposing: seq<(nat, nat)>, f: Link, r: Link)
    requires Paired(links, opposing) && f.a == r.b && f.b == r.a
    ensures Paired(links + [f] + [r], opposing + [(|links|, |links| + 1)])
  {
    var longer := links + [f] + [r];
    var more := opposing + [(|links|, |links| + 1)];
    forall k | 0 <= k < |more| ensures longer[2 * k].a == longer[2 * k + 1].b
      && longer[2 * k].b == longer[2 * k + 1].a {
      if k < |opposing| {
        assert opposing[k] == (2 * k, 2 * k + 1);
        assert longer[2 * k] == links[2 * k] && longer[2 * k + 1] == links[2 * k + 1];
      }
    }
  }

  function Size(q: Question): nat { if q.tiles then |q.adj| * 2 else |q.adj| }

  // The links that row a adds for its neighbour b.
  method AddNeighbour(q: Question, net0: Net, opposing0: seq<(nat, nat)>, a: nat, b: nat, ghost done: set<nat>)
    returns (net: Net, opposing: seq<(nat, nat)>)
    requires q.Valid() && Edge(q.adj, a, b) && a < |q.adj| && b < |q.adj| && b !in done
    requires net0.Valid() && |net0.arcs| == Size(q) && Building(q, net0.links, a, done)
    requires if q.tiles then opposing0 == [] else Paired(net0.links, opposing0)
    ensures net.Valid() && |net.arcs| == Size(q) && Building(q, net.links, a, done + {b})
    ensures if q.tiles then opposing == [] else Paired(net.links, opposing)
  {
    net, opposing := net0, opposing0;
    if q.tiles {
      if a != q.target && b != q.source {
        PlaceOne(q, net.links, a, done, b, Link(q.Exit(a), q.Entrance(b), StepTo(a, b)));
        net := AddLink(net, Link(q.Exit(a), q.Entrance(b), StepTo(a, b)));
      } else {
        PlaceNone(q, net.links, a, done, b);
      }
    } else if a < b {
      PlacePair(q, net.links, a, done, b);
      PairedAppend(net.links, opposing, Link(a, b, StepTo(a, b)), Link(b, a, StepTo(b, a)));
      opposing := opposing + [(|net.links|, |net.links| + 1)];
      net := AddLink(net, Link(a, b, StepTo(a, b)));
      net := AddLink(net, Link(b, a, StepTo(b, a)));
    } else {
      PlaceNone(q, net.links, a, done, b);
    }
  }

  // The links of one row, for its neighbours in ascending order.
  method AddRow(q: Question, net0: Net, opposing0: seq<(nat, nat)>, a: nat)
    returns (net: Net, opposing: seq<(nat, nat)>)
    requires q.Valid() && a < |q.adj| && net0.Valid() && |net0.arcs| == Size(q) && Rows(q, net0.links, a)
    requires if q.tiles then opposing0 == [] else Paired(net0.links, opposing0)
    ensures net.Valid() && |net.arcs| == Size(q) && Rows(q, net.links, a + 1)
    ensures if q.tiles then opposing == [] else Paired(net.links, opposing)
  {
    net, opposing := net0, opposing0;
    StartRow(q, net.links, a);
    if q.tiles && q.Internal(a) {
      net := AddLink(net, Link(q.Entrance(a), q.Exit(a), Through(a)));
    }
    ghost var done: set<nat> := {};
    var row := Sort((x: nat, y: nat) => x <= y, q.adj[a]);
    for j := 0 to |row|
      invariant net.Valid() && |net.arcs| == Size(q)
      invariant forall b :: b in done <==> b in row[..j]
      invariant Building(q, net.links, a, done)
      invariant if q.tiles then opposing == [] else Paired(net.links, opposing)
    {
      var b := row[j];
      assert row[..j + 1] == row[..j] + [b];
      assert b in row && Edge(q.adj, a, b) && Edge(q.adj, b, a);
      assert b !in row[..j];
      net, opposing := AddNeighbour(q, net, opposing, a, b, done);
      done := done + {b};
    }
    assert row[..|row|] == row;
    FinishRow(q, net.links, a, done);
  }

  // Sorting the arcs of a node changes the order in which the search tries them, no more.
  method SortArcs(net0: Net) returns (net: Net)
    requires net0.Valid()
    ensures net.Valid() && net.links == net0.links && |net.arcs| == |net0.arcs|
  {
    var arcs := net0.arcs;
    for x := 0 to |arcs|
      invariant |arcs| == |net0.arcs| && Net(net0.links, arcs).Valid()
    {
      var row := Sort(ArcOrder, arcs[x]);
      ReorderValid(Net(net0.links, arcs), x, row);
      arcs := arcs[x := row];
    }
    net := Net(net0.links, arcs);
  }

  predicate ArcOrder(x: Arc, y: Arc) {
    x.node < y.node || (x.node == y.node && (x.link < y.link || (x.link == y.link && (!x.reverse || y.reverse))))
  }

  lemma ReorderValid(net: Net, x: nat, row: seq<Arc>)
    requires net.Valid() && x < |net.arcs| && Rearranged(net.arcs[x], row)
    ensures Net(net.links, net.arcs[x := row]).Valid()
  {
    var next := Net(net.links, net.arcs[x := row]);
    forall y, j | 0 <= y < |next.arcs| && 0 <= j < |next.arcs[y]| ensures next.Leaves(next.arcs[y][j], y) {
      assert next.arcs[y][j] in next.arcs[y];
      assert next.arcs[y][j] in net.arcs[y];
      var k :| 0 <= k < |net.arcs[y]| && net.arcs[y][k] == next.arcs[y][j];
      assert net.Leaves(net.arcs[y][k], y);
    }
  }

  // The whole network. Opposing pairs exist only when edges, not tiles, are counted.
  method Build(q: Question) returns (net: Net, opposing: seq<(nat, nat)>)
    requires q.Valid()
    ensures net.Valid() && |net.arcs| == Size(q) && IsNetwork(q, net.links)
    ensures if q.tiles then opposing == [] else Paired(net.links, opposing)
  {
    net := Net([], seq(Size(q), _ => []));
    opposing := [];
    for a := 0 to |q.adj|
      invariant net.Valid() && |net.arcs| == Size(q) && Rows(q, net.links, a)
      invariant if q.tiles then opposing == [] else Paired(net.links, opposing)
    {
      net, opposing := AddRow(q, net, opposing, a);
    }
    forall l | q.Wanted(l) ensures q.Owner(l) < |q.adj| { }
    net := SortArcs(net);
  }
}
