// scripts/check_dominance_reference.py: the check by vertex removal, and what it accepts.
module DominanceCheck {
  import opened Common
  import opened Graphs
  import opened DominatorTree
  import opened DominanceImpact

  // Follow the parents from a node; none where a vertex repeats or has no entry.
  function Follow(parents: map<nat, Option<nat>>, node: nat, chain: set<nat>): Option<set<nat>>
    decreases parents.Keys - chain
  {
    if node in chain || node !in parents then None
    else
      match parents[node]
      case None => Some(chain + {node})
      case Some(p) => Follow(parents, p, chain + {node})
  }

  // The loop of the source.
  method FollowParents(parents: map<nat, Option<nat>>, node: nat) returns (chain: Option<set<nat>>)
    ensures chain == Follow(parents, node, {})
  {
    var seen: set<nat> := {};
    var cursor := Some(node);
    while cursor.Some?
      invariant match cursor
                case None => Follow(parents, node, {}) == Some(seen)
                case Some(c) => Follow(parents, node, {}) == Follow(parents, c, seen)
      decreases parents.Keys - seen, cursor.Some?
    {
      var c := cursor.value;
      if c in seen || c !in parents { return None; }
      seen := seen + {c};
      cursor := parents[c];
    }
    chain := Some(seen);
  }

  // What is collected does not depend on what was collected before, as long as nothing repeats.
  lemma {:induction false} FollowApart(parents: map<nat, Option<nat>>, node: nat, before: set<nat>, other: set<nat>)
    requires Follow(parents, node, before).Some?
    requires other !! Follow(parents, node, before).value - before
    ensures before <= Follow(parents, node, before).value
    ensures node in Follow(parents, node, before).value - before
    ensures Follow(parents, node, other) == Some(other + (Follow(parents, node, before).value - before))
    decreases parents.Keys - before
  {
    var c := Follow(parents, node, before).value;
    match parents[node]
    case None =>
      assert c - before == {node};
    case Some(p) =>
      FollowKeeps(parents, p, before + {node});
      FollowApart(parents, p, before + {node}, other + {node});
      assert c - before == (c - (before + {node})) + {node};
      assert other + {node} + (c - (before + {node})) == other + (c - before);
  }

  lemma {:induction false} FollowKeeps(parents: map<nat, Option<nat>>, node: nat, before: set<nat>)
    requires Follow(parents, node, before).Some?
    ensures before <= Follow(parents, node, before).value
    decreases parents.Keys - before
  {
    if parents[node].Some? { FollowKeeps(parents, parents[node].value, before + {node}); }
  }

  // ---- Dominators of a reachable vertex.

  ghost function Dominators(g: Graph, root: nat, v: nat, all: set<nat>): set<nat> {
    set u | u in all && Dominates(g, root, u, v)
  }

  ghost predicate IsBaseline(g: Graph, root: nat, all: set<nat>) {
    forall v :: v in all <==> Connected(g, root, v, {})
  }

  lemma DominatorReachable(g: Graph, root: nat, u: nat, v: nat)
    requires Dominates(g, root, u, v) && Connected(g, root, v, {})
    ensures Connected(g, root, u, {})
  {
    var w :| WalkBetween(g, w, root, v) && Visits(w) !! {};
    PrefixIsWalk(g, w, u);
    assert Visits(Prefix(w, u)) !! {};
  }

  lemma DominatesTransitive(g: Graph, root: nat, u: nat, p: nat, v: nat)
    requires Dominates(g, root, u, p) && Dominates(g, root, p, v)
    ensures Dominates(g, root, u, v)
  {
    forall w | WalkBetween(g, w, root, v) ensures u in Visits(w) {
      PrefixIsWalk(g, w, p);
    }
  }

  lemma DominatesSelf(g: Graph, root: nat, v: nat)
    ensures Dominates(g, root, v, v) && Dominates(g, root, root, v)
  {
    forall w | WalkBetween(g, w, root, v) ensures v in Visits(w) && root in Visits(w) { WalkEnds(w); }
  }

  // Two vertices cannot dominate each other.
  lemma DominatesOneWay(g: Graph, root: nat, u: nat, v: nat)
    requires Dominates(g, root, u, v) && Dominates(g, root, v, u) && Connected(g, root, v, {})
    ensures u == v
  {
    if u != v { DominatesNotBack(g, root, u, v); }
  }

  // A simple walk to v meets a dominator before it meets v.
  lemma DominatesNotBack(g: Graph, root: nat, u: nat, v: nat)
    requires u != v && Dominates(g, root, u, v) && Connected(g, root, v, {})
    ensures !Dominates(g, root, v, u)
  {
    var w :| WalkBetween(g, w, root, v) && Visits(w) !! {};
    var s := Simplify(g, w);
    assert u in Visits(s) && s.Step? && u in Visits(s.prev);
    PrefixIsWalk(g, s.prev, u);
    assert WalkBetween(g, Prefix(s.prev, u), root, u) && v !in Visits(Prefix(s.prev, u));
  }

  lemma RootAlone(g: Graph, root: nat, all: set<nat>)
    requires IsBaseline(g, root, all) && root < |g|
    ensures Dominators(g, root, root, all) == {root}
  {
    var w := At(root);
    assert WalkBetween(g, w, root, root) && Visits(w) == {root} && Visits(w) !! {};
    DominatesSelf(g, root, root);
  }

  // The dominators of a vertex are itself and those of its immediate dominator.
  lemma DominatorsStep(g: Graph, root: nat, p: nat, v: nat, all: set<nat>)
    requires IsBaseline(g, root, all) && v in all && ImmediateDominator(g, root, p, v)
    ensures p in all && v !in Dominators(g, root, p, all)
    ensures Dominators(g, root, v, all) == Dominators(g, root, p, all) + {v}
  {
    DominatorReachable(g, root, p, v);
    DominatesSelf(g, root, v);
    if Dominates(g, root, v, p) { DominatesOneWay(g, root, v, p); }
    forall u | u in all && Dominates(g, root, u, p) ensures Dominates(g, root, u, v) {
      DominatesTransitive(g, root, u, p, v);
    }
  }

  // There is only one immediate dominator.
  lemma ImmediateIsUnique(g: Graph, root: nat, p: nat, q: nat, v: nat)
    requires ImmediateDominator(g, root, p, v) && ImmediateDominator(g, root, q, v) && Connected(g, root, v, {})
    ensures p == q
  {
    DominatorReachable(g, root, p, v);
    DominatesOneWay(g, root, q, p);
  }

  // ---- Chains of parents and immediate dominators say the same.

  ghost predicate ChainsExact(g: Graph, root: nat, parents: map<nat, Option<nat>>) {
    forall v :: v in parents ==> Follow(parents, v, {}) == Some(Dominators(g, root, v, parents.Keys))
  }

  ghost predicate ParentsImmediate(g: Graph, root: nat, parents: map<nat, Option<nat>>) {
    && root in parents && parents[root] == None
    && forall v :: v in parents && v != root ==> parents[v].Some? && ImmediateDominator(g, root, parents[v].value, v)
  }

  lemma {:induction false} ImmediateGivesChain(g: Graph, root: nat, parents: map<nat, Option<nat>>, v: nat)
    requires IsBaseline(g, root, parents.Keys) && root < |g| && ParentsImmediate(g, root, parents) && v in parents
    ensures Follow(parents, v, {}) == Some(Dominators(g, root, v, parents.Keys))
    decreases |Dominators(g, root, v, parents.Keys)|
  {
    if v == root {
      RootAlone(g, root, parents.Keys);
      assert {} + {root} == {root};
    } else {
      var p := parents[v].value;
      DominatorsStep(g, root, p, v, parents.Keys);
      ImmediateGivesChain(g, root, parents, p);
      var d := Dominators(g, root, p, parents.Keys);
      assert d - {} == d && {} + {v} == {v} && {v} + d == d + {v};
      FollowApart(parents, p, {}, {v});
    }
  }

  lemma ChainGivesImmediate(g: Graph, root: nat, parents: map<nat, Option<nat>>, v: nat)
    requires IsBaseline(g, root, parents.Keys) && root < |g| && ChainsExact(g, root, parents) && v in parents
    ensures v == root ==> parents[v] == None
    ensures v != root ==> parents[v].Some? && ImmediateDominator(g, root, parents[v].value, v)
  {
    var all := parents.Keys;
    RootAlone(g, root, all);
    DominatesSelf(g, root, v);
    assert WalkBetween(g, At(root), root, root) && Visits(At(root)) !! {};
    if parents[v].Some? {
      var p := parents[v].value;
      var d := Dominators(g, root, v, all);
      assert {} + {v} == {v} && {} + (d - {v}) == d - {v};
      assert Follow(parents, p, {v}) == Some(d);
      FollowApart(parents, p, {v}, {});
      assert Follow(parents, p, {}) == Some(d - {v});
      assert p in Dominators(g, root, v, all) && p != v;
      forall u | Dominates(g, root, u, v) && u != v ensures Dominates(g, root, u, p) {
        DominatorReachable(g, root, u, v);
        assert u in Dominators(g, root, v, all) - {v};
      }
    } else {
      assert Follow(parents, v, {}) == Some({v});
      assert root in Dominators(g, root, v, all);
    }
  }

  lemma ChainsAreImmediate(g: Graph, root: nat, parents: map<nat, Option<nat>>)
    requires IsBaseline(g, root, parents.Keys) && root < |g|
    ensures ChainsExact(g, root, parents) <==> ParentsImmediate(g, root, parents)
  {
    assert WalkBetween(g, At(root), root, root) && Visits(At(root)) !! {};
    if ChainsExact(g, root, parents) {
      forall v | v in parents ensures (v == root ==> parents[v] == None)
        && (v != root ==> parents[v].Some? && ImmediateDominator(g, root, parents[v].value, v)) {
        ChainGivesImmediate(g, root, parents, v);
      }
    }
    if ParentsImmediate(g, root, parents) {
      forall v | v in parents ensures Follow(parents, v, {}) == Some(Dominators(g, root, v, parents.Keys)) {
        ImmediateGivesChain(g, root, parents, v);
      }
    }
  }

  // ---- The check.

  // The vertices reachable without each vertex of the baseline.
  ghost predicate Removals(g: Graph, root: nat, without: map<nat, set<nat>>) {
    forall u :: u in without ==> forall v :: v in without[u] <==> Connected(g, root, v, {u})
  }

  method RemoveEach(g: Graph, root: nat, baseline: set<nat>) returns (without: map<nat, set<nat>>)
    requires WellFormed(g) && root < |g|
    ensures without.Keys == baseline && Removals(g, root, without)
  {
    without := map[];
    var rest := baseline;
    while rest != {}
      invariant rest <= baseline && without.Keys == baseline - rest
      invariant Removals(g, root, without)
      decreases rest
    {
      var u :| u in rest;
      var reached := Reachable(g, root, Some(u));
      without := without[u := reached];
      rest := rest - {u};
    }
  }

  // One vertex passes: its chain is what it cannot do without, and its impact is what is lost with it.
  predicate Passes(parents: map<nat, Option<nat>>, impacts: map<nat, nat>, without: map<nat, set<nat>>, v: nat)
    requires v in without
  {
    && Follow(parents, v, {}) == Some(set u | u in without && v !in without[u])
    && v in impacts && impacts[v] == |without.Keys - without[v] - {v}|
  }

  // The loop of the check, over any candidate result.
  method CheckEach(parents: map<nat, Option<nat>>, impacts: map<nat, nat>, without: map<nat, set<nat>>)
    returns (ok: bool)
    ensures ok <==> forall v :: v in without ==> Passes(parents, impacts, without, v)
  {
    var rest := without.Keys;
    while rest != {}
      invariant rest <= without.Keys && forall v :: v in without.Keys - rest ==> Passes(parents, impacts, without, v)
      decreases rest
    {
      var node :| node in rest;
      var chain := FollowParents(parents, node);
      if chain != Some(set u | u in without && node !in without[u]) { return false; }
      if node !in impacts || impacts[node] != |without.Keys - without[node] - {node}| { return false; }
      rest := rest - {node};
    }
    ok := true;
  }

  lemma MandatoryIsDominators(g: Graph, root: nat, without: map<nat, set<nat>>, v: nat)
    requires Removals(g, root, without)
    ensures (set u | u in without && v !in without[u]) == Dominators(g, root, v, without.Keys)
  {
    forall u | u in without ensures Dominates(g, root, u, v) <==> v !in without[u] { DominatesIsLost(g, root, u, v); }
  }

  lemma ExpectedIsLost(g: Graph, root: nat, without: map<nat, set<nat>>, v: nat)
    requires IsBaseline(g, root, without.Keys) && Removals(g, root, without) && v in without
    ensures without.Keys - without[v] - {v} == Lost(g, root, v, without.Keys)
  {
  }

  function Only(impacts: map<nat, nat>, all: set<nat>): map<nat, nat> { map v | v in impacts && v in all :: impacts[v] }

  // A result: the reachable vertices with their immediate dominators and the sizes of what they cut off.
  ghost predicate Accepted(g: Graph, root: nat, parents: map<nat, Option<nat>>, impacts: map<nat, nat>) {
    parents.Keys <= impacts.Keys && IsAnalysis(g, root, parents, Only(impacts, parents.Keys))
  }

  ghost predicate ImpactExact(g: Graph, root: nat, all: set<nat>, impacts: map<nat, nat>, v: nat) {
    v in impacts && impacts[v] == |Lost(g, root, v, all)|
  }

  lemma AcceptedParts(g: Graph, root: nat, parents: map<nat, Option<nat>>, impacts: map<nat, nat>)
    requires IsBaseline(g, root, parents.Keys)
    ensures Accepted(g, root, parents, impacts) <==>
      ParentsImmediate(g, root, parents) && forall v :: v in parents ==> ImpactExact(g, root, parents.Keys, impacts, v)
  {
    var only := Only(impacts, parents.Keys);
    if parents.Keys <= impacts.Keys { assert only.Keys == parents.Keys; }
    if IsAnalysis(g, root, parents, only) && parents.Keys <= impacts.Keys {
      forall v | v in parents ensures ImpactExact(g, root, parents.Keys, impacts, v) { assert only[v] == impacts[v]; }
    }
    if forall v :: v in parents ==> ImpactExact(g, root, parents.Keys, impacts, v) {
      forall v | v in parents ensures v in impacts && impacts[v] == |Lost(g, root, v, parents.Keys)| {
        assert ImpactExact(g, root, parents.Keys, impacts, v);
      }
    }
  }

  lemma PassesMeans(g: Graph, root: nat, parents: map<nat, Option<nat>>, impacts: map<nat, nat>, without: map<nat,
                    set<nat>>, v: nat)
    requires IsBaseline(g, root, without.Keys) && Removals(g, root, without) && v in without
    ensures Passes(parents, impacts, without, v) <==>
      Follow(parents, v, {}) == Some(Dominators(g, root, v, without.Keys))
        && ImpactExact(g, root, without.Keys, impacts, v)
  {
    MandatoryIsDominators(g, root, without, v);
    ExpectedIsLost(g, root, without, v);
  }

  lemma PassingIsAnalysis(g: Graph, root: nat, parents: map<nat, Option<nat>>, impacts: map<nat, nat>,
                          without: map<nat, set<nat>>)
    requires IsBaseline(g, root, without.Keys) && Removals(g, root, without) && root < |g|
      && parents.Keys == without.Keys
    ensures (forall v :: v in without ==> Passes(parents, impacts, without, v)) <==> Accepted(g, root, parents, impacts)
  {
    ChainsAreImmediate(g, root, parents);
    AcceptedParts(g, root, parents, impacts);
    if forall v :: v in without ==> Passes(parents, impacts, without, v) {
      forall v | v in parents
        ensures Follow(parents, v, {}) == Some(Dominators(g, root, v, parents.Keys))
          && ImpactExact(g, root, parents.Keys, impacts, v)
      {
        PassesMeans(g, root, parents, impacts, without, v);
      }
    }
    if Accepted(g, root, parents, impacts) {
      forall v | v in without ensures Passes(parents, impacts, without, v) {
        PassesMeans(g, root, parents, impacts, without, v);
      }
    }
  }

  // The check by vertex removal accepts exactly the correct analyses.
  method CheckAnalysis(g: Graph, root: nat, parents: map<nat, Option<nat>>, impacts: map<nat, nat>) returns (ok: bool)
    requires WellFormed(g) && root < |g|
    ensures ok <==> Accepted(g, root, parents, impacts)
  {
    var baseline := Reachable(g, root, None);
    if parents.Keys != baseline { return false; }
    var without := RemoveEach(g, root, baseline);
    PassingIsAnalysis(g, root, parents, impacts, without);
    ok := CheckEach(parents, impacts, without);
  }

  // The reference check: the analysis of every graph and root passes.
  method Verify(g: Graph, root: nat) returns (ok: bool)
    requires WellFormed(g) && root < |g|
    ensures ok
  {
    var parents, impacts := Analyze(g, root);
    assert Only(impacts, parents.Keys) == impacts;
    ok := CheckAnalysis(g, root, parents, impacts);
  }
}
