// The certificate check that the model runs on its own answer before returning it. Applied to any
// routes and cuts, it accepts exactly the sorted answers.
module RouteCertificate {
  import opened Common
  import opened Graphs
  import opened Sorting
  import opened RouteNetwork
  import opened RouteCuts
  import opened RoutePaths
  import opened RouteResilience
  import opened RouteOracle

  // ---- No element twice.

  lemma {:induction false} CardDistinct<T>(s: seq<T>)
    ensures |Elements(s)| <= |s| && (|Elements(s)| == |s| ==> Distinct(s))
  {
    if s != [] {
      var n := |s| - 1;
      CardDistinct(s[..n]);
      assert Elements(s) == Elements(s[..n]) + {s[n]};
      if |Elements(s)| == |s| {
        assert s[n] !in Elements(s[..n]);
        forall i, j | 0 <= i < j < |s| ensures s[i] != s[j] {
          if j < n { assert s[..n][i] != s[..n][j]; } else { assert s[..n][i] in Elements(s[..n]); }
        }
      }
    }
  }

  method NoRepeats<T(==)>(s: seq<T>) returns (ok: bool)
    ensures ok <==> Distinct(s)
  {
    var elements: set<T> := {};
    for i := 0 to |s|
      invariant elements == Elements(s[..i])
    {
      elements := elements + {s[i]};
      assert Elements(s[..i + 1]) == Elements(s[..i]) + {s[i]};
    }
    assert s[..|s|] == s;
    CardDistinct(s);
    if Distinct(s) { DistinctCard(s); }
    ok := |elements| == |s|;
  }

  // ---- One route.

  function RouteEdges(r: seq<nat>): set<Cut> {
    if |r| < 2 then {} else RouteEdges(r[..|r| - 1]) + {EdgeBetween(r[|r| - 2], r[|r| - 1])}
  }

  function RouteTiles(r: seq<nat>): set<nat> { set m | 0 < m < |r| - 1 :: r[m] }

  // The m-th step goes along an edge that was not used before it.
  ghost predicate FreshStep(q: Question, r: seq<nat>, used: set<Cut>, m: nat)
    requires m < |r| - 1
  {
    Edge(q.adj, r[m], r[m + 1]) && EdgeBetween(r[m], r[m + 1]) !in used + RouteEdges(r[..m + 1])
  }

  method CheckEdges(q: Question, r: seq<nat>, used0: set<Cut>) returns (ok: bool, used: set<Cut>)
    requires |r| >= 1
    ensures ok <==> forall m: nat :: m < |r| - 1 ==> FreshStep(q, r, used0, m)
    ensures ok ==> used == used0 + RouteEdges(r)
  {
    used := used0;
    for i := 0 to |r| - 1
      invariant used == used0 + RouteEdges(r[..i + 1])
      invariant forall m: nat :: m < i ==> FreshStep(q, r, used0, m)
    {
      var e := EdgeBetween(r[i], r[i + 1]);
      assert r[..i + 2][..i + 1] == r[..i + 1];
      if r[i] >= |q.adj| || r[i + 1] !in q.adj[r[i]] || e in used {
        assert !FreshStep(q, r, used0, i);
        return false, used;
      }
      used := used + {e};
    }
    assert r[..|r|] == r;
    ok := true;
  }

  lemma {:induction false} InRouteEdges(r: seq<nat>, e: Cut)
    ensures e in RouteEdges(r) <==> UsesEdge(r, e)
  {
    if |r| >= 2 {
      var s, m := r[..|r| - 1], |r| - 2;
      InRouteEdges(s, e);
      if UsesEdge(s, e) {
        var k :| 0 <= k < |s| - 1 && EdgeBetween(s[k], s[k + 1]) == e;
        assert EdgeBetween(r[k], r[k + 1]) == e;
      }
      if UsesEdge(r, e) {
        var k :| 0 <= k < |r| - 1 && EdgeBetween(r[k], r[k + 1]) == e;
        assert k < m ==> EdgeBetween(s[k], s[k + 1]) == e;
      }
      assert EdgeBetween(r[m], r[m + 1]) == e ==> UsesEdge(r, e);
    }
  }

  ghost predicate FreshTiles(r: seq<nat>, used: set<nat>) {
    && (forall m :: 0 < m < |r| - 1 ==> r[m] !in used)
    && forall k, m :: 0 < k < m < |r| - 1 ==> r[k] != r[m]
  }

  method CheckTiles(r: seq<nat>, used0: set<nat>) returns (ok: bool, used: set<nat>)
    requires |r| >= 2
    ensures ok <==> FreshTiles(r, used0)
    ensures ok ==> used == used0 + RouteTiles(r)
  {
    used := used0;
    for i := 1 to |r| - 1
      invariant used == used0 + set m | 0 < m < i :: r[m]
      invariant forall m :: 0 < m < i ==> r[m] !in used0
      invariant forall k, m :: 0 < k < m < i ==> r[k] != r[m]
    {
      if r[i] in used { return false, used; }
      used := used + {r[i]};
    }
    ok := true;
  }

  // A route that fits the question and uses nothing that was used before.
  ghost predicate RouteFits(q: Question, r: seq<nat>, edges: set<Cut>, tiles: set<nat>) {
    && |r| >= 2 && r[0] == q.source && r[|r| - 1] == q.target && Distinct(r)
    && (forall m: nat :: m < |r| - 1 ==> FreshStep(q, r, edges, m))
    && (q.tiles ==> FreshTiles(r, tiles))
  }

  method CheckRoute(q: Question, r: seq<nat>, edges0: set<Cut>, tiles0: set<nat>)
    returns (ok: bool, edges: set<Cut>, tiles: set<nat>)
    ensures ok <==> RouteFits(q, r, edges0, tiles0)
    ensures ok ==> edges == edges0 + RouteEdges(r) && tiles == if q.tiles then tiles0 + RouteTiles(r) else tiles0
  {
    edges, tiles := edges0, tiles0;
    if !(|r| >= 2 && r[0] == q.source && r[|r| - 1] == q.target) { return false, edges, tiles; }
    ok := NoRepeats(r);
    if !ok { return; }
    ok, edges := CheckEdges(q, r, edges0);
    if ok && q.tiles { ok, tiles := CheckTiles(r, tiles0); }
  }

  // ---- All routes.

  ghost function EdgesOf(paths: seq<seq<nat>>): set<Cut> {
    if paths == [] then {} else EdgesOf(paths[..|paths| - 1]) + RouteEdges(paths[|paths| - 1])
  }

  ghost function TilesOf(paths: seq<seq<nat>>): set<nat> {
    if paths == [] then {} else TilesOf(paths[..|paths| - 1]) + RouteTiles(paths[|paths| - 1])
  }

  ghost predicate FitsAt(q: Question, paths: seq<seq<nat>>, p: nat)
    requires p < |paths|
  {
    RouteFits(q, paths[p], EdgesOf(paths[..p]), TilesOf(paths[..p]))
  }

  ghost predicate AllFit(q: Question, paths: seq<seq<nat>>) {
    forall p: nat :: p < |paths| ==> FitsAt(q, paths, p)
  }

  lemma NextRoute(q: Question, paths: seq<seq<nat>>, p: nat, edges: set<Cut>, tiles: set<nat>)
    requires p < |paths| && edges == EdgesOf(paths[..p]) && (q.tiles ==> tiles == TilesOf(paths[..p]))
    ensures RouteFits(q, paths[p], edges, tiles) <==> FitsAt(q, paths, p)
    ensures EdgesOf(paths[..p + 1]) == edges + RouteEdges(paths[p])
    ensures q.tiles ==> TilesOf(paths[..p + 1]) == tiles + RouteTiles(paths[p])
  {
    assert paths[..p + 1][..p] == paths[..p];
  }

  method CheckRoutes(q: Question, paths: seq<seq<nat>>) returns (ok: bool)
    ensures ok <==> AllFit(q, paths)
  {
    var edges: set<Cut>, tiles: set<nat> := {}, {};
    for p := 0 to |paths|
      invariant edges == EdgesOf(paths[..p]) && (q.tiles ==> tiles == TilesOf(paths[..p]))
      invariant forall k: nat :: k < p ==> FitsAt(q, paths, k)
    {
      NextRoute(q, paths, p, edges, tiles);
      ok, edges, tiles := CheckRoute(q, paths[p], edges, tiles);
      if !ok { return; }
    }
    ok := true;
  }

  lemma {:induction false} InEdgesOf(paths: seq<seq<nat>>, e: Cut)
    ensures e in EdgesOf(paths) <==> exists j :: 0 <= j < |paths| && UsesEdge(paths[j], e)
  {
    if paths != [] {
      var n := |paths| - 1;
      InEdgesOf(paths[..n], e);
      InRouteEdges(paths[n], e);
      if j :| 0 <= j < n && UsesEdge(paths[..n][j], e) { assert UsesEdge(paths[j], e); }
      if j :| 0 <= j < |paths| && UsesEdge(paths[j], e) {
        if j < n { assert UsesEdge(paths[..n][j], e); }
      }
    }
  }

  lemma {:induction false} InTilesOf(paths: seq<seq<nat>>, t: nat)
    ensures t in TilesOf(paths) <==> exists j :: 0 <= j < |paths| && UsesTile(paths[j], t)
  {
    if paths != [] {
      var n := |paths| - 1;
      InTilesOf(paths[..n], t);
      assert t in RouteTiles(paths[n]) <==> UsesTile(paths[n], t);
      if j :| 0 <= j < n && UsesTile(paths[..n][j], t) { assert UsesTile(paths[j], t); }
      if j :| 0 <= j < |paths| && UsesTile(paths[j], t) {
        if j < n { assert UsesTile(paths[..n][j], t); }
      }
    }
  }

  // Two routes that both fit, one after the other, share nothing.
  lemma FittingDisjoint(q: Question, paths: seq<seq<nat>>, j: nat, k: nat)
    requires AllFit(q, paths) && j < k < |paths|
    ensures DisjointRoutes(q, paths[j], paths[k]) && paths[j] != paths[k]
  {
    var r, s := paths[j], paths[k];
    assert FitsAt(q, paths, k) && FitsAt(q, paths, j);
    assert paths[..k][j] == r;
    forall e | UsesEdge(s, e) ensures !UsesEdge(r, e) {
      var m: nat :| m < |s| - 1 && EdgeBetween(s[m], s[m + 1]) == e;
      assert FreshStep(q, s, EdgesOf(paths[..k]), m);
      InEdgesOf(paths[..k], e);
      assert !UsesEdge(paths[..k][j], e);
    }
    if q.tiles {
      forall t ensures !(UsesTile(r, t) && UsesTile(s, t)) { InTilesOf(paths[..k], t); }
    }
    assert UsesEdge(r, EdgeBetween(r[0], r[0 + 1]));
  }

  lemma FitIsRoute(q: Question, r: seq<nat>, edges: set<Cut>, tiles: set<nat>)
    requires RouteFits(q, r, edges, tiles)
    ensures IsRoute(q, r)
  {
    forall m | 0 <= m < |r| - 1 ensures Edge(q.adj, r[m], r[m + 1]) { assert FreshStep(q, r, edges, m); }
  }

  lemma FittingIsRouteSet(q: Question, paths: seq<seq<nat>>)
    requires AllFit(q, paths)
    ensures IsRouteSet(q, paths)
  {
    forall j, k | 0 <= j < k < |paths| ensures paths[j] != paths[k] { FittingDisjoint(q, paths, j, k); }
    forall r | r in paths ensures IsRoute(q, r) {
      var j: nat :| j < |paths| && paths[j] == r;
      assert FitsAt(q, paths, j);
      FitIsRoute(q, r, EdgesOf(paths[..j]), TilesOf(paths[..j]));
    }
    forall r, s | r in paths && s in paths && r != s ensures DisjointRoutes(q, r, s) {
      var j: nat :| j < |paths| && paths[j] == r;
      var k: nat :| k < |paths| && paths[k] == s;
      if j < k { FittingDisjoint(q, paths, j, k); } else { FittingDisjoint(q, paths, k, j); }
    }
  }

  // A simple route crosses no edge twice.
  lemma EdgesOnce(q: Question, r: seq<nat>, m: nat, n: nat)
    requires IsRoute(q, r) && m < n < |r| - 1
    ensures EdgeBetween(r[m], r[m + 1]) != EdgeBetween(r[n], r[n + 1])
  {
    assert r[m] != r[n] && r[m + 1] != r[n + 1] && r[m] != r[n + 1];
  }

  lemma EdgeIsNew(q: Question, r: seq<nat>, m: nat)
    requires IsRoute(q, r) && m < |r| - 1
    ensures EdgeBetween(r[m], r[m + 1]) !in RouteEdges(r[..m + 1])
  {
    var s, e := r[..m + 1], EdgeBetween(r[m], r[m + 1]);
    InRouteEdges(s, e);
    forall k | 0 <= k < |s| - 1 ensures EdgeBetween(s[k], s[k + 1]) != e { EdgesOnce(q, r, k, m); }
  }

  lemma RouteOfSetFits(q: Question, paths: seq<seq<nat>>, p: nat)
    requires IsRouteSet(q, paths) && p < |paths|
    ensures RouteFits(q, paths[p], EdgesOf(paths[..p]), TilesOf(paths[..p]))
  {
    var r, edges, tiles := paths[p], EdgesOf(paths[..p]), TilesOf(paths[..p]);
    assert r in paths;
    forall j | 0 <= j < p ensures DisjointRoutes(q, paths[..p][j], r) { assert paths[j] in paths && paths[j] != r; }
    forall m: nat | m < |r| - 1 ensures FreshStep(q, r, edges, m) {
      var e := EdgeBetween(r[m], r[m + 1]);
      assert UsesEdge(r, e);
      InEdgesOf(paths[..p], e);
      EdgeIsNew(q, r, m);
    }
    if q.tiles {
      forall m | 0 < m < |r| - 1 ensures r[m] !in tiles {
        assert UsesTile(r, r[m]);
        InTilesOf(paths[..p], r[m]);
      }
    }
  }

  lemma FittingExactly(q: Question, paths: seq<seq<nat>>)
    ensures AllFit(q, paths) <==> IsRouteSet(q, paths)
  {
    if AllFit(q, paths) { FittingIsRouteSet(q, paths); }
    if IsRouteSet(q, paths) {
      forall p: nat | p < |paths| ensures FitsAt(q, paths, p) {
        RouteOfSetFits(q, paths, p);
      }
    }
  }

  // ---- Cuts, order and the whole certificate.

  method CheckCuts(q: Question, cuts: seq<Cut>) returns (ok: bool)
    ensures ok <==> forall c :: c in cuts ==> Removable(q, c)
  {
    for i := 0 to |cuts|
      invariant forall j :: 0 <= j < i ==> Removable(q, cuts[j])
    {
      match cuts[i]
      case TileCut(t) =>
        if !(q.tiles && t != q.source && t != q.target && t < |q.adj|) {
          assert cuts[i] in cuts;
          return false;
        }
      case EdgeCut(a, b) =>
        if !(a < b && a < |q.adj| && b in q.adj[a] && (!q.tiles || cuts[i] == EdgeBetween(q.source, q.target))) {
          assert cuts[i] in cuts;
          return false;
        }
    }
    ok := true;
  }

  lemma SortedMore(paths: seq<seq<nat>>, i: nat)
    requires 1 <= i < |paths| && SortedBy(RouteOrder, paths[..i]) && RouteOrder(paths[i - 1], paths[i])
    ensures SortedBy(RouteOrder, paths[..i + 1])
  {
    var before, more := paths[..i], paths[..i + 1];
    forall j, k | 0 <= j < k < |more| ensures RouteOrder(more[j], more[k]) {
      if k < i {
        assert RouteOrder(before[j], before[k]);
      } else if j < i - 1 {
        assert RouteOrder(before[j], before[i - 1]);
        RouteOrderTransitive(paths[j], paths[i - 1], paths[i]);
      }
    }
  }

  method InOrder(paths: seq<seq<nat>>) returns (ok: bool)
    ensures ok <==> SortedBy(RouteOrder, paths)
  {
    if paths == [] { return true; }
    for i := 1 to |paths|
      invariant SortedBy(RouteOrder, paths[..i])
    {
      if !RouteOrder(paths[i - 1], paths[i]) { return false; }
      SortedMore(paths, i);
    }
    assert paths[..|paths|] == paths;
    ok := true;
  }

  // The certificate accepts exactly the sorted answers: as many disjoint routes as cut elements,
  // all of the right kind, which separate the two tiles.
  method Certificate(q: Question, paths: seq<seq<nat>>, cuts: seq<Cut>) returns (ok: bool)
    requires q.Valid()
    ensures ok <==> SortedBy(RouteOrder, paths) && IsAnswer(q, paths, cuts)
  {
    FittingExactly(q, paths);
    ok := InOrder(paths);
    if !ok || |cuts| != |paths| { return false; }
    ok := NoRepeats(cuts);
    if !ok { return; }
    ok := CheckRoutes(q, paths);
    if !ok { return; }
    ok := CheckCuts(q, cuts);
    if !ok { return; }
    var open := RouteOracle.Reachable(q, set c | c in cuts);
    assert Elements(cuts) == set c | c in cuts;
    ok := !open;
  }

  // The model with its closing certificate, which never fails.
  method CertifiedModel(q: Question) returns (paths: seq<seq<nat>>, cuts: seq<Cut>, ok: bool)
    requires q.Valid()
    ensures ok && IsAnswer(q, paths, cuts)
  {
    paths, cuts := Model(q);
    ok := Certificate(q, paths, cuts);
  }
}
