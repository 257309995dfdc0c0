// Why the allocation is optimal: every prefix of the positions is covered as well as any
// matching can, and the per-role coverage is the lexicographically greatest feasible one.
module LaborOptimum {
  import opened Common
  import opened LaborMatching
  import opened LaborAllocation

  // Any assignment of distinct fitting workers to some of the positions.
  ghost predicate IsMatching(m: Market, x: Slots) {
    && |x| == |m.positions|
    && (forall p :: 0 <= p < |x| && x[p].Some? ==> m.Fits(p, x[p].value))
    && (forall p, q :: 0 <= p < q < |x| && x[p].Some? && x[q].Some? ==> x[p].value != x[q].value)
  }

  ghost function CoveredBelow(x: Slots, k: nat): set<nat> {
    set p | 0 <= p < |x| && p < k && x[p].Some?
  }

  // No matching covers more of a tight set than the matching that made it tight.
  lemma TightIsFull(m: Market, pm: Slots, wm: Slots, t: set<nat>, x: Slots)
    requires m.Valid() && Matched(m, pm, wm) && Tight(m, wm, t) && IsMatching(m, x) && t <= Below(|pm|)
    ensures |t * Covered(x)| <= |t * Covered(pm)|
  {
    var a := t * Covered(x);
    forall p | p in a ensures x[p].value < m.workers && wm[x[p].value].Some?
      && wm[x[p].value].value in t * Covered(pm) {
      assert m.Fits(p, x[p].value);
      assert pm[wm[x[p].value].value] == Some(x[p].value);
    }
    var f := map p | p in a :: wm[x[p].value].value;
    forall p, q | p in a && q in a && f[p] == f[q] ensures p == q {
      assert pm[f[p]] == Some(x[p].value) && pm[f[q]] == Some(x[q].value);
    }
    InjectionCard(a, t * Covered(pm), f);
  }

  // The workers that fit some position of t.
  ghost predicate Neighbour(m: Market, t: set<nat>, w: nat) { exists p: nat :: p in t && m.Fits(p, w) }

  ghost function Neighbours(m: Market, t: set<nat>): set<nat> { set w | w in Below(m.workers) && Neighbour(m, t, w) }

  // Hall: a tight set has exactly as many neighbours as it has covered positions.
  lemma TightIsHall(m: Market, pm: Slots, wm: Slots, t: set<nat>)
    requires m.Valid() && Matched(m, pm, wm) && Tight(m, wm, t) && t <= Below(|pm|)
    ensures |Neighbours(m, t)| == |t * Covered(pm)|
  {
    CoveredNeighbours(m, pm, wm, t);
    NeighboursCovered(m, pm, wm, t);
  }

  lemma CoveredNeighbours(m: Market, pm: Slots, wm: Slots, t: set<nat>)
    requires Matched(m, pm, wm) && t <= Below(|pm|)
    ensures |t * Covered(pm)| <= |Neighbours(m, t)|
  {
    var a := t * Covered(pm);
    var f := map p | p in a :: pm[p].value;
    forall p | p in a ensures f[p] in Neighbours(m, t) { assert m.Fits(p, pm[p].value)
      && Neighbour(m, t, pm[p].value); }
    forall p, q | p in a && q in a && f[p] == f[q] ensures p == q {
      assert wm[pm[p].value] == Some(p) && wm[pm[q].value] == Some(q);
    }
    InjectionCard(a, Neighbours(m, t), f);
  }

  lemma NeighbourHeld(m: Market, pm: Slots, wm: Slots, t: set<nat>, w: nat)
    requires Matched(m, pm, wm) && Tight(m, wm, t) && w < m.workers && Neighbour(m, t, w)
    ensures wm[w].Some? && wm[w].value in t * Covered(pm) && pm[wm[w].value] == Some(w)
  {
    var p: nat :| p in t && m.Fits(p, w);
  }

  lemma NeighboursCovered(m: Market, pm: Slots, wm: Slots, t: set<nat>)
    requires Matched(m, pm, wm) && Tight(m, wm, t)
    ensures |Neighbours(m, t)| <= |t * Covered(pm)|
  {
    var n := Neighbours(m, t);
    forall w | w in n ensures wm[w].Some? && wm[w].value in t * Covered(pm) && pm[wm[w].value] == Some(w) {
      NeighbourHeld(m, pm, wm, t, w);
    }
    var f := map w | w in n :: wm[w].value;
    forall v, w | v in n && w in n && f[v] == f[w] ensures v == w {
      assert pm[wm[v].value] == Some(v) && pm[wm[w].value] == Some(w);
    }
    InjectionCard(n, t * Covered(pm), f);
  }

  // What a failed search leaves: visited positions with one fitting worker too few.
  lemma FailedSearchIsHall(m: Market, pm: Slots, wm: Slots, root: nat, parents: Slots, time: map<nat, nat>)
    requires m.Valid() && Matched(m, pm, wm) && Forest(m, pm, root, parents, time) && Tight(m, wm, time.Keys)
    ensures |Neighbours(m, time.Keys)| == |time.Keys| - 1
  {
    var t := time.Keys;
    forall p | p in t ensures p in Covered(pm) <==> p != root { assert p == root || pm[p].Some?; }
    assert t * Covered(pm) == t - {root};
    TightIsHall(m, pm, wm, t);
  }

  // Priorities: no matching covers more positions of any prefix, so in particular the
  // allocation has maximum cardinality.
  lemma PrefixMaximum(m: Market, pm: Slots, wm: Slots, tights: seq<set<nat>>, x: Slots, k: nat)
    requires m.Valid() && Matched(m, pm, wm) && Certified(m, pm, wm, tights, |pm|)
    requires IsMatching(m, x) && k <= |pm|
    ensures |CoveredBelow(x, k)| <= |CoveredBelow(pm, k)|
  {
    var t := tights[k];
    TightIsFull(m, pm, wm, t, x);
    var outside := Below(k) - t;
    assert forall p :: p in outside ==> pm[p].Some?;
    SplitCovered(pm, k, t);
    SplitCovered(x, k, t);
    SubsetCard(outside * Covered(x), outside);
    assert outside * Covered(pm) == outside;
  }

  lemma SplitCovered(x: Slots, k: nat, t: set<nat>)
    requires t <= Below(k) && k <= |x|
    ensures |CoveredBelow(x, k)| == |t * Covered(x)| + |(Below(k) - t) * Covered(x)|
  {
    assert CoveredBelow(x, k) == t * Covered(x) + (Below(k) - t) * Covered(x);
  }

  // The workers given a role below k, and those given exactly role k, by an assignment.
  ghost function Holding(a: seq<int>, role: int): set<nat> {
    set w: nat | w < |a| && a[w] == role
  }

  ghost function HoldingBelow(a: seq<int>, k: int): set<nat> {
    set w: nat | w < |a| && 0 <= a[w] < k
  }

  // An assignment names a role or -1 for every worker, respects the abilities and the caps.
  ghost predicate Able(roles: seq<seq<nat>>, a: seq<int>) {
    forall w: nat :: w < |a| ==> -1 <= a[w] < |roles| && (a[w] >= 0 ==> w in roles[a[w]])
  }

  ghost predicate Feasible(roles: seq<seq<nat>>, counts: seq<nat>, a: seq<int>) {
    && |counts| == |roles| && Able(roles, a)
    && forall r :: 0 <= r < |roles| ==> |Holding(a, r)| <= counts[r]
  }

  ghost predicate IsTotals(roles: seq<seq<nat>>, a: seq<int>, totals: seq<nat>) {
    |totals| == |roles| && forall r :: 0 <= r < |roles| ==> totals[r] == |Holding(a, r)|
  }

  function Sum(s: seq<nat>, k: nat): nat
    requires k <= |s|
  {
    if k == 0 then 0 else Sum(s, k - 1) + s[k - 1]
  }

  lemma {:induction false} TotalsSum(roles: seq<seq<nat>>, a: seq<int>, totals: seq<nat>, k: nat)
    requires IsTotals(roles, a, totals) && k <= |totals|
    ensures Sum(totals, k) == |HoldingBelow(a, k)|
  {
    if k == 0 {
      assert HoldingBelow(a, 0) == {};
    } else {
      TotalsSum(roles, a, totals, k - 1);
      assert HoldingBelow(a, k) == HoldingBelow(a, k - 1) + Holding(a, k - 1);
    }
  }

  ghost function FilledBelow(m: Market, pm: Slots, k: nat): set<nat> {
    set p | 0 <= p < |pm| && p < |m.positions| && m.positions[p] < k && pm[p].Some?
  }

  lemma {:induction false} CoverageSum(m: Market, pm: Slots, coverage: seq<nat>, k: nat)
    requires |coverage| == |m.roles| && forall r :: 0 <= r < |m.roles| ==> coverage[r] == |Filled(m, pm, r)|
    requires k <= |coverage|
    ensures Sum(coverage, k) == |FilledBelow(m, pm, k)|
  {
    if k == 0 {
      assert FilledBelow(m, pm, 0) == {};
    } else {
      CoverageSum(m, pm, coverage, k - 1);
      assert FilledBelow(m, pm, k) == FilledBelow(m, pm, k - 1) + Filled(m, pm, k - 1);
    }
  }

  // counts[r] positions of role r, in role order.
  function RoleOrder(counts: seq<nat>): (positions: seq<nat>)
    ensures forall p :: 0 <= p < |positions| ==> positions[p] < |counts|
  {
    if counts == [] then [] else
      var n := |counts| - 1;
      RoleOrder(counts[..n]) + seq(counts[n], _ => n)
  }

  ghost function OfRole(positions: seq<nat>, role: nat): set<nat> {
    set p: nat | p < |positions| && positions[p] == role
  }

  lemma {:induction false} RoleOrderSorted(counts: seq<nat>)
    ensures forall p, q :: 0 <= p < q < |RoleOrder(counts)| ==> RoleOrder(counts)[p] <= RoleOrder(counts)[q]
  {
    if counts != [] { RoleOrderSorted(counts[..|counts| - 1]); }
  }

  lemma {:induction false} IntervalCard(lo: nat, hi: nat)
    requires lo <= hi
    ensures |Below(hi) - Below(lo)| == hi - lo
  {
    BelowCard(lo);
    BelowCard(hi);
    assert Below(hi) == Below(lo) + (Below(hi) - Below(lo));
  }

  lemma {:induction false} RoleOrderCounts(counts: seq<nat>, role: nat)
    requires role < |counts|
    ensures |OfRole(RoleOrder(counts), role)| == counts[role]
  {
    var n := |counts| - 1;
    var front := RoleOrder(counts[..n]);
    var all := RoleOrder(counts);
    assert forall p :: 0 <= p < |all| ==> all[p] == if p < |front| then front[p] else n;
    if role == n {
      assert OfRole(all, n) == Below(|all|) - Below(|front|);
      IntervalCard(|front|, |all|);
    } else {
      RoleOrderCounts(counts[..n], role);
      assert OfRole(all, role) == OfRole(front, role);
    }
  }

  // In a sorted list the positions of the roles below k are a prefix.
  lemma {:induction false} RolePrefix(positions: seq<nat>, k: nat, n: nat) returns (cut: nat)
    requires forall p, q :: 0 <= p < q < |positions| ==> positions[p] <= positions[q]
    requires n <= |positions| && forall p :: n <= p < |positions| ==> positions[p] >= k
    ensures cut <= n && forall p :: 0 <= p < |positions| ==> (positions[p] < k <==> p < cut)
  {
    if n == 0 || positions[n - 1] < k {
      cut := n;
    } else {
      cut := RolePrefix(positions, k, n - 1);
    }
  }

  // The workers given a role below k outside r, and the positions of such roles.
  ghost function HoldingOutside(a: seq<int>, k: int, r: set<nat>): set<nat> {
    set w: nat | w < |a| && 0 <= a[w] < k && a[w] !in r
  }

  ghost function PositionsOutside(positions: seq<nat>, k: int, r: set<nat>): set<nat> {
    set p: nat | p < |positions| && positions[p] < k && positions[p] !in r
  }

  // The caps bound the workers role by role.
  lemma {:induction false} CapsBound(roles: seq<seq<nat>>, counts: seq<nat>, a: seq<int>, k: nat, r: set<nat>)
    requires Feasible(roles, counts, a) && k <= |roles|
    ensures |HoldingOutside(a, k, r)| <= |PositionsOutside(RoleOrder(counts), k, r)|
  {
    var positions := RoleOrder(counts);
    if k == 0 {
      assert HoldingOutside(a, 0, r) == {};
    } else {
      CapsBound(roles, counts, a, k - 1, r);
      HoldingNext(a, k - 1, r);
      PositionsNext(positions, k - 1, r);
      RoleOrderCounts(counts, k - 1);
    }
  }

  lemma HoldingNext(a: seq<int>, k: nat, r: set<nat>)
    ensures |HoldingOutside(a, k + 1, r)| == |HoldingOutside(a, k, r)| + if k in r then 0 else |Holding(a, k)|
  {
    if k in r {
      assert HoldingOutside(a, k + 1, r) == HoldingOutside(a, k, r);
    } else {
      assert HoldingOutside(a, k + 1, r) == HoldingOutside(a, k, r) + Holding(a, k);
    }
  }

  lemma PositionsNext(positions: seq<nat>, k: nat, r: set<nat>)
    ensures |PositionsOutside(positions, k + 1, r)| == |PositionsOutside(positions, k, r)| + if k in r then 0
      else |OfRole(positions, k)|
  {
    if k in r {
      assert PositionsOutside(positions, k + 1, r) == PositionsOutside(positions, k, r);
    } else {
      assert PositionsOutside(positions, k + 1, r) == PositionsOutside(positions, k, r) + OfRole(positions, k);
    }
  }

  // The workers given a role of a tight set are all placed in that tight set.
  lemma TightHolds(m: Market, pm: Slots, wm: Slots, t: set<nat>, a: seq<int>, k: nat, r: set<nat>)
    requires m.Valid() && Matched(m, pm, wm) && Tight(m, wm, t) && Able(m.roles, a)
    requires forall p :: p in t ==> p < |m.positions| && m.positions[p] < k && m.positions[p] in r
    requires forall q :: q in r ==> exists p :: p in t && p < |m.positions| && m.positions[p] == q
    ensures |HoldingBelow(a, k) - HoldingOutside(a, k, r)|
         <= |FilledBelow(m, pm, k) - PositionsOutside(m.positions, k, r)|
  {
    var inside := HoldingBelow(a, k) - HoldingOutside(a, k, r);
    var target := FilledBelow(m, pm, k) - PositionsOutside(m.positions, k, r);
    forall w | w in inside ensures w < |wm| && wm[w].Some? && wm[w].value in target {
      var p :| p in t && p < |m.positions| && m.positions[p] == a[w];
      assert m.Fits(p, w);
      assert pm[wm[w].value] == Some(w);
    }
    var f := map w | w in inside :: wm[w].value;
    forall v, w | v in inside && w in inside && f[v] == f[w] ensures v == w {
      assert pm[f[v]] == Some(v) && pm[f[w]] == Some(w);
    }
    InjectionCard(inside, target, f);
  }

  ghost function RolesOf(positions: seq<nat>, t: set<nat>): set<nat> {
    set p | p in t && p < |positions| :: positions[p]
  }

  // With positions in role order, no feasible assignment fills more of the first k roles.
  lemma RoleDominance(m: Market, counts: seq<nat>, pm: Slots, wm: Slots, tights: seq<set<nat>>, a: seq<int>, k: nat)
    requires m.Valid() && Matched(m, pm, wm) && Certified(m, pm, wm, tights, |pm|)
    requires m.positions == RoleOrder(counts) && Feasible(m.roles, counts, a) && k <= |m.roles|
    ensures |HoldingBelow(a, k)| <= |FilledBelow(m, pm, k)|
  {
    RoleOrderSorted(counts);
    var cut := RolePrefix(m.positions, k, |m.positions|);
    var t := tights[cut];
    var r := RolesOf(m.positions, t);
    forall p | p in t ensures p < |m.positions| && m.positions[p] < k && m.positions[p] in r {
      assert p in Below(cut);
    }
    TightHolds(m, pm, wm, t, a, k, r);
    CapsBound(m.roles, counts, a, k, r);
    var outA, outP := HoldingOutside(a, k, r), PositionsOutside(m.positions, k, r);
    OutsideIsFilled(m, pm, wm, tights, cut, k, r);
    SubsetSplit(outA, HoldingBelow(a, k));
    SubsetSplit(outP, FilledBelow(m, pm, k));
  }

  lemma OutsideIsFilled(m: Market, pm: Slots, wm: Slots, tights: seq<set<nat>>, cut: nat, k: nat, r: set<nat>)
    requires Matched(m, pm, wm) && Certified(m, pm, wm, tights, |pm|) && cut <= |pm|
    requires forall p :: 0 <= p < |m.positions| ==> (m.positions[p] < k <==> p < cut)
    requires r == RolesOf(m.positions, tights[cut])
    ensures PositionsOutside(m.positions, k, r) <= FilledBelow(m, pm, k)
  {
    forall p | p in PositionsOutside(m.positions, k, r) ensures pm[p].Some? {
      assert p !in tights[cut];
    }
  }

  lemma SubsetSplit<T>(part: set<T>, whole: set<T>)
    requires part <= whole
    ensures |whole| == |part| + |whole - part|
  {
    assert whole == part + (whole - part);
  }
}
