// The brute-force minimum separator, and its agreement with the flow model.
module RouteOracle {
  import opened Common
  import opened Graphs
  import opened RouteNetwork
  import opened RouteCuts
  import opened RouteResilience

  ghost predicate Survives(q: Question, cuts: set<Cut>, v: nat) {
    exists w :: Avoids(q.adj, cuts, w) && Start(w) == q.source && w.v == v
  }

  ghost predicate Open(q: Question, cuts: set<Cut>, a: nat, b: nat) {
    Edge(q.adj, a, b) && TileCut(b) !in cuts && EdgeBetween(a, b) !in cuts
  }

  lemma SurvivesStep(q: Question, cuts: set<Cut>, a: nat, b: nat)
    requires Survives(q, cuts, a) && Open(q, cuts, a, b)
    ensures Survives(q, cuts, b)
  {
    var w :| Avoids(q.adj, cuts, w) && Start(w) == q.source && w.v == a;
    assert Avoids(q.adj, cuts, Step(w, b)) && Start(Step(w, b)) == q.source;
  }

  lemma {:induction false} ClosedHoldsAvoiding(q: Question, cuts: set<Cut>, closed: set<nat>, w: Walk)
    requires Avoids(q.adj, cuts, w) && Start(w) in closed
    requires forall a, b :: a in closed && Open(q, cuts, a, b) ==> b in closed
    ensures w.v in closed
  {
    if w.Step? {
      ClosedHoldsAvoiding(q, cuts, closed, w.prev);
      assert Open(q, cuts, w.prev.v, w.v);
    }
  }

  // The unseen neighbours of a that the cut leaves open.
  method Spread(q: Question, cuts: set<Cut>, a: nat, seen0: set<nat>, queue0: seq<nat>)
    returns (seen: set<nat>, queue: seq<nat>)
    requires q.Valid() && a < |q.adj| && a in seen0 && Survives(q, cuts, a) && seen0 <= Below(|q.adj|)
    requires forall v :: v in seen0 ==> Survives(q, cuts, v)
    ensures seen0 <= seen <= Below(|q.adj|)
    ensures forall v :: v in seen ==> Survives(q, cuts, v)
    ensures forall b :: Open(q, cuts, a, b) ==> b in seen
    ensures forall v :: v in queue <==> v in queue0 || v in seen - seen0
    ensures seen == seen0 ==> queue == queue0
  {
    seen, queue := seen0, queue0;
    for i := 0 to |q.adj[a]|
      invariant seen0 <= seen <= Below(|q.adj|)
      invariant forall v :: v in seen ==> Survives(q, cuts, v)
      invariant forall j :: 0 <= j < i && Open(q, cuts, a, q.adj[a][j]) ==> q.adj[a][j] in seen
      invariant forall v :: v in queue <==> v in queue0 || v in seen - seen0
      invariant seen == seen0 ==> queue == queue0
    {
      var b := q.adj[a][i];
      if b !in seen && TileCut(b) !in cuts && EdgeBetween(a, b) !in cuts {
        assert Open(q, cuts, a, b);
        SurvivesStep(q, cuts, a, b);
        seen := seen + {b};
        queue := queue + [b];
      }
    }
  }

  // Breadth-first reachability around a cut.
  method Reachable(q: Question, cuts: set<Cut>) returns (found: bool)
    requires q.Valid()
    ensures found <==> !Separates(q, cuts)
  {
    assert Avoids(q.adj, cuts, At(q.source)) && Start(At(q.source)) == q.source;
    var seen := {q.source};
    var queue := [q.source];
    while queue != []
      invariant q.source in seen && seen <= Below(|q.adj|)
      invariant forall v :: v in seen ==> Survives(q, cuts, v)
      invariant forall v :: v in queue ==> v in seen
      invariant forall v :: v in seen && v !in queue ==> v != q.target
      invariant forall a, b :: a in seen && a !in queue && Open(q, cuts, a, b) ==> b in seen
      decreases Below(|q.adj|) - seen, |queue|
    {
      var a := queue[0];
      assert queue == [a] + queue[1..];
      assert a in queue && a in seen && Survives(q, cuts, a);
      if a == q.target {
        ghost var w :| Avoids(q.adj, cuts, w) && Start(w) == q.source && w.v == a;
        return true;
      }
      ghost var seen0, queue0 := seen, queue;
      seen, queue := Spread(q, cuts, a, seen, queue[1..]);
      SpreadKeeps(q, cuts, a, seen0, queue0, seen, queue);
    }
    forall w | Avoids(q.adj, cuts, w) && Start(w) == q.source ensures w.v != q.target {
      ClosedHoldsAvoiding(q, cuts, seen, w);
    }
    found := false;
  }

  lemma SpreadKeeps(q: Question, cuts: set<Cut>, a: nat, seen0: set<nat>, queue0: seq<nat>, seen: set<nat>,
                    queue: seq<nat>)
    requires queue0 != [] && queue0[0] == a && a != q.target && seen0 <= seen
    requires forall v :: v in seen0 && v !in queue0 ==> v != q.target
    requires forall x, b :: x in seen0 && x !in queue0 && Open(q, cuts, x, b) ==> b in seen0
    requires forall b :: Open(q, cuts, a, b) ==> b in seen
    requires forall v :: v in queue <==> v in queue0[1..] || v in seen - seen0
    ensures forall v :: v in seen && v !in queue ==> v != q.target
    ensures forall x, b :: x in seen && x !in queue && Open(q, cuts, x, b) ==> b in seen
  {
    assert queue0 == [a] + queue0[1..];
  }

  // The elements that may be removed, in the order the enumeration tries them.
  method Candidates(q: Question) returns (elements: seq<Cut>)
    requires q.Valid()
    ensures Distinct(elements) && forall c :: c in elements <==> Removable(q, c)
  {
    elements := [];
    if q.tiles {
      for i := 0 to |q.adj|
        invariant Distinct(elements)
        invariant forall c :: c in elements <==> c.TileCut? && c.tile < i && q.Internal(c.tile)
      {
        if i != q.source && i != q.target { elements := elements + [TileCut(i)]; }
      }
      assert Edge(q.adj, q.source, q.target) <==> q.target in q.adj[q.source];
      assert Edge(q.adj, q.source, q.target) ==> Edge(q.adj, q.target, q.source);
      assert Edge(q.adj, q.target, q.source) ==> Edge(q.adj, q.source, q.target);
      assert EdgeBetween(q.source, q.target) !in elements;
      if q.target in q.adj[q.source] { elements := elements + [EdgeBetween(q.source, q.target)]; }
    } else {
      for a := 0 to |q.adj|
        invariant Distinct(elements)
        invariant forall c :: c in elements <==> c.EdgeCut? && c.lo < a && c.lo < c.hi && Edge(q.adj, c.lo, c.hi)
      {
        elements := EdgesOf(q, a, elements);
      }
    }
  }

  method EdgesOf(q: Question, a: nat, before: seq<Cut>) returns (elements: seq<Cut>)
    requires q.Valid() && a < |q.adj| && Distinct(before)
    requires forall c :: c in before <==> c.EdgeCut? && c.lo < a && c.lo < c.hi && Edge(q.adj, c.lo, c.hi)
    ensures Distinct(elements)
    ensures forall c :: c in elements <==> c.EdgeCut? && c.lo <= a && c.lo < c.hi && Edge(q.adj, c.lo, c.hi)
  {
    elements := before;
    for i := 0 to |q.adj[a]|
      invariant Distinct(elements)
      invariant forall c :: c in elements <==>
        c in before || (c.EdgeCut? && c.lo == a && a < c.hi && c.hi in q.adj[a][..i])
    {
      var b := q.adj[a][i];
      assert q.adj[a][..i + 1] == q.adj[a][..i] + [b];
      assert b !in q.adj[a][..i];
      if a < b { elements := elements + [EdgeCut(a, b)]; }
    }
    assert q.adj[a][..|q.adj[a]|] == q.adj[a];
  }

  // A separator made of removable elements.
  ghost predicate IsSeparator(q: Question, c: set<Cut>) {
    Separates(q, c) && forall e :: e in c ==> Removable(q, e)
  }

  // c adds `count` of the listed elements to those already chosen.
  ghost predicate Extends(c: set<Cut>, chosen: set<Cut>, elements: seq<Cut>, count: nat) {
    chosen <= c && |c| == |chosen| + count && forall e :: e in c ==> e in chosen || e in elements
  }

  lemma FirstAndRest(s: seq<Cut>)
    requires s != [] && Distinct(s)
    ensures Distinct(s[1..]) && s[0] !in s[1..]
    ensures forall x :: x in s <==> x == s[0] || x in s[1..]
  {
    assert s == [s[0]] + s[1..];
  }

  lemma ExtendsNone(c: set<Cut>, chosen: set<Cut>, elements: seq<Cut>)
    ensures Extends(c, chosen, elements, 0) <==> c == chosen
  {
    if Extends(c, chosen, elements, 0) { SubsetCardEqual(chosen, c); }
  }

  // Either the first element is added or it is not.
  lemma ExtendsCases(c: set<Cut>, chosen: set<Cut>, elements: seq<Cut>, count: nat)
    requires count > 0 && Distinct(elements) && forall e :: e in elements ==> e !in chosen
    ensures elements == [] ==> !Extends(c, chosen, elements, count)
    ensures elements != [] ==>
      (Extends(c, chosen, elements, count) <==>
       Extends(c, chosen + {elements[0]}, elements[1..], count - 1) || Extends(c, chosen, elements[1..], count))
  {
    if elements == [] {
      if c <= chosen { SubsetCard(c, chosen); }
    } else {
      FirstAndRest(elements);
      assert elements[0] in elements;
      assert |chosen + {elements[0]}| == |chosen| + 1;
    }
  }

  // Try the selections of `count` further elements in order, until one separates.
  method SomeSeparates(q: Question, elements: seq<Cut>, count: nat, chosen: set<Cut>) returns (found: bool)
    requires q.Valid() && Distinct(elements) && forall e :: e in elements ==> e !in chosen
    ensures found <==> exists c :: Extends(c, chosen, elements, count) && Separates(q, c)
    decreases |elements|
  {
    if count == 0 {
      var open := Reachable(q, chosen);
      ExtendsNone(chosen, chosen, elements);
      forall c | Extends(c, chosen, elements, 0) ensures c == chosen { ExtendsNone(c, chosen, elements); }
      return !open;
    }
    forall c ensures
      elements == [] ==> !Extends(c, chosen, elements, count)
      ensures elements != [] ==>
        (Extends(c, chosen, elements, count) <==>
         Extends(c, chosen + {elements[0]}, elements[1..], count - 1) || Extends(c, chosen, elements[1..], count))
    {
      ExtendsCases(c, chosen, elements, count);
    }
    if elements == [] { return false; }
    FirstAndRest(elements);
    found := SomeSeparates(q, elements[1..], count - 1, chosen + {elements[0]});
    if !found {
      found := SomeSeparates(q, elements[1..], count, chosen);
    }
  }

  lemma SelectionsAreSeparators(q: Question, elements: seq<Cut>, count: nat)
    requires forall c :: c in elements <==> Removable(q, c)
    ensures forall c :: Extends(c, {}, elements, count) && Separates(q, c) <==> IsSeparator(q, c) && |c| == count
  {
  }

  // The least number of removable elements that separate; none within the source degree
  // would be an error of the enumeration.
  method Oracle(q: Question) returns (least: Option<nat>)
    requires q.Valid()
    ensures least.Some? ==> (exists c :: IsSeparator(q, c) && |c| == least.value)
    ensures least.Some? ==> forall c :: IsSeparator(q, c) ==> least.value <= |c|
    ensures least.None? ==> forall c :: IsSeparator(q, c) ==> |c| > |q.adj[q.source]|
  {
    var elements := Candidates(q);
    for count := 0 to |q.adj[q.source]| + 1
      invariant forall c :: IsSeparator(q, c) ==> |c| >= count
    {
      var found := SomeSeparates(q, elements, count, {});
      SelectionsAreSeparators(q, elements, count);
      if found { return Some(count); }
    }
    least := None;
  }

  // One case of the reference check: the model finds as many routes as the oracle needs cuts.
  method Compare(q: Question) returns (paths: seq<seq<nat>>, cuts: seq<Cut>, least: Option<nat>)
    requires q.Valid()
    ensures IsAnswer(q, paths, cuts)
    ensures least == Some(|paths|)
  {
    paths, cuts := Model(q);
    least := Oracle(q);
    DistinctCard(cuts);
    assert IsSeparator(q, Elements(cuts));
    forall c | IsSeparator(q, c) ensures |paths| <= |c| {
      SeparatorBound(q, paths, c);
    }
  }
}
