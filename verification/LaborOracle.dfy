// The exhaustive oracle, and its agreement with the allocation.
module LaborOracle {
  import opened Common
  import opened LaborMatching
  import opened LaborAllocation
  import opened LaborOptimum

  // Lexicographic order of equally long tuples, from index i on.
  predicate LexLeq(s: seq<nat>, t: seq<nat>, i: nat)
    requires |s| == |t| && i <= |s|
    decreases |s| - i
  {
    i == |s| || s[i] < t[i] || (s[i] == t[i] && LexLeq(s, t, i + 1))
  }

  lemma {:induction false} LexTotal(s: seq<nat>, t: seq<nat>, i: nat)
    requires |s| == |t| && i <= |s|
    ensures LexLeq(s, t, i) || LexLeq(t, s, i)
    ensures s == t ==> LexLeq(s, t, i)
    decreases |s| - i
  {
    if i < |s| { LexTotal(s, t, i + 1); }
  }

  lemma {:induction false} LexTransitive(s: seq<nat>, t: seq<nat>, u: seq<nat>, i: nat)
    requires |s| == |t| == |u| && i <= |s| && LexLeq(s, t, i) && LexLeq(t, u, i)
    ensures LexLeq(s, u, i)
    decreases |s| - i
  {
    if i < |s| && s[i] == t[i] == u[i] { LexTransitive(s, t, u, i + 1); }
  }

  lemma {:induction false} LexAntisymmetric(s: seq<nat>, t: seq<nat>, i: nat)
    requires |s| == |t| && i <= |s| && LexLeq(s, t, i) && LexLeq(t, s, i)
    ensures forall j :: i <= j < |s| ==> s[j] == t[j]
    decreases |s| - i
  {
    if i < |s| { LexAntisymmetric(s, t, i + 1); }
  }

  // Smaller prefix sums everywhere make a tuple lexicographically smaller.
  lemma {:induction false} SumsGiveLex(s: seq<nat>, t: seq<nat>, i: nat)
    requires |s| == |t| && i <= |s| && Sum(s, i) == Sum(t, i)
    requires forall k :: 0 <= k <= |s| ==> Sum(s, k) <= Sum(t, k)
    ensures LexLeq(s, t, i)
    decreases |s| - i
  {
    if i < |s| {
      assert Sum(s, i + 1) <= Sum(t, i + 1);
      if s[i] == t[i] { SumsGiveLex(s, t, i + 1); }
    }
  }

  // Every extension of the given tuples by one of -1 .. k - 1, the last entry varying fastest.
  function Extend(prefixes: seq<seq<int>>, k: nat): seq<seq<int>> {
    if prefixes == [] then [] else
      seq(k + 1, v => prefixes[0] + [v - 1]) + Extend(prefixes[1..], k)
  }

  function Product(k: nat, n: nat): seq<seq<int>> {
    if n == 0 then [[]] else Extend(Product(k, n - 1), k)
  }

  lemma {:induction false} ExtendHolds(prefixes: seq<seq<int>>, k: nat, a: seq<int>)
    requires a != [] && -1 <= a[|a| - 1] < k
    ensures a in Extend(prefixes, k) <== a[..|a| - 1] in prefixes
  {
    if a[..|a| - 1] in prefixes {
      var here := seq(k + 1, v => prefixes[0] + [v - 1]);
      if a[..|a| - 1] == prefixes[0] {
        assert a == a[..|a| - 1] + [a[|a| - 1]];
        assert here[a[|a| - 1] + 1] == a;
      } else {
        assert prefixes == [prefixes[0]] + prefixes[1..];
        ExtendHolds(prefixes[1..], k, a);
      }
    }
  }

  lemma {:induction false} ExtendOnly(prefixes: seq<seq<int>>, k: nat, n: nat)
    requires forall p :: p in prefixes ==> |p| == n && forall i :: 0 <= i < n ==> -1 <= p[i] < k
    ensures forall a :: a in Extend(prefixes, k) ==> |a| == n + 1 && forall i :: 0 <= i <= n ==> -1 <= a[i] < k
  {
    if prefixes != [] {
      assert prefixes[0] in prefixes;
      ExtendOnly(prefixes[1..], k, n);
    }
  }

  // The product lists exactly the tuples of length n over -1 .. k - 1.
  lemma {:induction false} ProductHolds(k: nat, n: nat, a: seq<int>)
    requires |a| == n && forall i :: 0 <= i < n ==> -1 <= a[i] < k
    ensures a in Product(k, n)
  {
    if n > 0 {
      ProductHolds(k, n - 1, a[..n - 1]);
      ExtendHolds(Product(k, n - 1), k, a);
    }
  }

  lemma {:induction false} ProductOnly(k: nat, n: nat)
    ensures forall a :: a in Product(k, n) ==> |a| == n && forall i :: 0 <= i < n ==> -1 <= a[i] < k
  {
    if n > 0 {
      ProductOnly(k, n - 1);
      ExtendOnly(Product(k, n - 1), k, n - 1);
    }
  }

  // Count the workers of every role, giving up at the first worker unable to fill its role.
  method Tally(roles: seq<seq<nat>>, a: seq<int>) returns (totals: seq<nat>, valid: bool)
    requires forall w :: 0 <= w < |a| ==> -1 <= a[w] < |roles|
    ensures |totals| == |roles| && (valid <==> Able(roles, a))
    ensures valid ==> IsTotals(roles, a, totals)
  {
    totals := seq(|roles|, _ => 0);
    valid := true;
    assert forall r :: 0 <= r < |roles| ==> Holding(a[..0], r) == {};
    var worker := 0;
    while worker < |a| && valid
      invariant 0 <= worker <= |a| && |totals| == |roles|
      invariant valid ==> Able(roles, a[..worker])
      invariant !valid ==> !Able(roles, a)
      invariant valid ==> forall r :: 0 <= r < |roles| ==> totals[r] == |Holding(a[..worker], r)|
    {
      var role := a[worker];
      HoldingNext(a, worker, |roles|);
      if role >= 0 {
        if worker !in roles[role] {
          valid := false;
        } else {
          totals := totals[role := totals[role] + 1];
        }
      }
      worker := worker + 1;
    }
    assert a[..|a|] == a;
  }

  lemma HoldingNext(a: seq<int>, w: nat, n: nat)
    requires w < |a|
    ensures forall r :: 0 <= r < n ==> |Holding(a[..w + 1], r)| == |Holding(a[..w], r)| + if a[w] == r then 1 else 0
  {
    forall r | 0 <= r < n ensures |Holding(a[..w + 1], r)| == |Holding(a[..w], r)| + if a[w] == r then 1 else 0 {
      if a[w] == r {
        assert Holding(a[..w + 1], r) == Holding(a[..w], r) + {w};
      } else {
        assert Holding(a[..w + 1], r) == Holding(a[..w], r);
      }
    }
  }

  // `best` is the lexicographically greatest total among the given feasible assignments.
  ghost predicate Best(roles: seq<seq<nat>>, counts: seq<nat>, tried: seq<seq<int>>, best: seq<nat>) {
    |best| == |roles| && forall a, t :: a in tried && Feasible(roles, counts, a) && IsTotals(roles, a, t) ==>
      LexLeq(t, best, 0)
  }

  lemma BestNext(roles: seq<seq<nat>>, counts: seq<nat>, tried: seq<seq<int>>, best: seq<nat>, a: seq<int>,
                 next: seq<nat>)
    requires Best(roles, counts, tried, best) && |next| == |best| && LexLeq(best, next, 0)
    requires forall t :: Feasible(roles, counts, a) && IsTotals(roles, a, t) ==> LexLeq(t, next, 0)
    ensures Best(roles, counts, tried + [a], next)
  {
    forall b, t | b in tried + [a] && Feasible(roles, counts, b) && IsTotals(roles, b, t) ensures LexLeq(t, next, 0) {
      if b in tried { LexTransitive(t, best, next, 0); }
    }
  }

  lemma TotalsUnique(roles: seq<seq<nat>>, a: seq<int>, s: seq<nat>, t: seq<nat>)
    requires IsTotals(roles, a, s) && IsTotals(roles, a, t)
    ensures s == t
  {
  }

  // Improve the best total by one assignment.
  method Consider(roles: seq<seq<nat>>, counts: seq<nat>, a: seq<int>, best0: seq<nat>, ghost tried: seq<seq<int>>)
    returns (best: seq<nat>)
    requires |counts| == |roles| && Best(roles, counts, tried, best0)
    requires forall w :: 0 <= w < |a| ==> -1 <= a[w] < |roles|
    ensures Best(roles, counts, tried + [a], best)
    ensures best == best0 || (Feasible(roles, counts, a) && IsTotals(roles, a, best))
  {
    best := best0;
    var totals, valid := Tally(roles, a);
    LexTotal(best0, best0, 0);
    if valid && forall r :: 0 <= r < |roles| ==> totals[r] <= counts[r] {
      LexTotal(best0, totals, 0);
      LexTotal(totals, totals, 0);
      if LexLeq(best0, totals, 0) { best := totals; }
      forall t | IsTotals(roles, a, t) ensures LexLeq(t, best, 0) { TotalsUnique(roles, a, t, totals); }
    }
    BestNext(roles, counts, tried, best0, a, best);
  }

  // The greatest total over all assignments, together with an assignment that reaches it.
  method Oracle(roles: seq<seq<nat>>, counts: seq<nat>, workers: nat) returns (best: seq<nat>, ghost reached: seq<int>)
    requires |counts| == |roles|
    ensures |reached| == workers && Feasible(roles, counts, reached) && IsTotals(roles, reached, best)
    ensures forall a, t :: |a| == workers && Feasible(roles, counts, a) && IsTotals(roles, a, t) ==>
      |t| == |best| && LexLeq(t, best, 0)
  {
    best := seq(|roles|, _ => 0);
    reached := seq(workers, _ => -1);
    assert forall r :: 0 <= r < |roles| ==> Holding(reached, r) == {};
    var all := Product(|roles|, workers);
    ProductOnly(|roles|, workers);
    for i := 0 to |all|
      invariant |reached| == workers && Feasible(roles, counts, reached) && IsTotals(roles, reached, best)
      invariant Best(roles, counts, all[..i], best)
    {
      assert all[i] in all;
      ghost var before := best;
      best := Consider(roles, counts, all[i], best, all[..i]);
      assert all[..i + 1] == all[..i] + [all[i]];
      if best != before { reached := all[i]; }
    }
    assert all[..|all|] == all;
    forall a, t | |a| == workers && Feasible(roles, counts, a) && IsTotals(roles, a, t) ensures LexLeq(t, best, 0) {
      ProductHolds(|roles|, workers, a);
    }
  }

  // The assignment that an allocation amounts to.
  ghost function AsAssignment(m: Market, wm: Slots, workers: nat): (a: seq<int>)
    requires forall w :: 0 <= w < |wm| && wm[w].Some? ==> wm[w].value < |m.positions|
    ensures |a| == workers
  {
    seq(workers, (w: nat) => if w < |wm| && wm[w].Some? then m.positions[wm[w].value] as int else -1)
  }

  lemma AllocationTotals(m: Market, pm: Slots, wm: Slots, workers: nat, role: nat)
    requires m.Valid() && Matched(m, pm, wm) && m.workers <= workers
    ensures |Holding(AsAssignment(m, wm, workers), role)| == |Filled(m, pm, role)|
  {
    var a := AsAssignment(m, wm, workers);
    var held, filled := Holding(a, role), Filled(m, pm, role);
    var f := map w | w in held :: wm[w].value;
    forall w | w in held ensures f[w] in filled && pm[f[w]] == Some(w) {
    }
    InjectionCard(held, filled, f);
    var h := map p | p in filled :: pm[p].value;
    forall p | p in filled ensures h[p] in held && wm[h[p]] == Some(p) {
      assert m.Fits(p, pm[p].value);
    }
    InjectionCard(filled, held, h);
  }

  lemma AllocationFeasible(m: Market, pm: Slots, wm: Slots, counts: seq<nat>, coverage: seq<nat>, workers: nat)
    requires m.Valid() && Matched(m, pm, wm) && m.workers <= workers
    requires m.positions == RoleOrder(counts) && |counts| == |m.roles|
    requires |coverage| == |m.roles| && forall r :: 0 <= r < |m.roles| ==> coverage[r] == |Filled(m, pm, r)|
    ensures Feasible(m.roles, counts, AsAssignment(m, wm, workers))
    ensures IsTotals(m.roles, AsAssignment(m, wm, workers), coverage)
  {
    var a := AsAssignment(m, wm, workers);
    forall r | 0 <= r < |m.roles| ensures |Holding(a, r)| == |Filled(m, pm, r)| <= counts[r] {
      AllocationTotals(m, pm, wm, workers, r);
      RoleOrderCounts(counts, r);
      SubsetCard(Filled(m, pm, r), OfRole(m.positions, r));
    }
    forall w: nat | w < |a| && a[w] >= 0 ensures a[w] < |m.roles| && w in m.roles[a[w]] {
      assert pm[wm[w].value] == Some(w);
      assert m.Fits(wm[w].value, w);
    }
  }

  // No feasible assignment, of any number of workers, is lexicographically greater.
  lemma AllocationGreatest(m: Market, pm: Slots, wm: Slots, tights: seq<set<nat>>, counts: seq<nat>,
                           coverage: seq<nat>, a: seq<int>, totals: seq<nat>)
    requires m.Valid() && Matched(m, pm, wm) && Certified(m, pm, wm, tights, |m.positions|)
    requires m.positions == RoleOrder(counts) && |counts| == |m.roles|
    requires |coverage| == |m.roles| && forall r :: 0 <= r < |m.roles| ==> coverage[r] == |Filled(m, pm, r)|
    requires Feasible(m.roles, counts, a) && IsTotals(m.roles, a, totals)
    ensures LexLeq(totals, coverage, 0)
  {
    forall k | 0 <= k <= |totals| ensures Sum(totals, k) <= Sum(coverage, k) {
      TotalsSum(m.roles, a, totals, k);
      CoverageSum(m, pm, coverage, k);
      RoleDominance(m, counts, pm, wm, tights, a, k);
    }
    SumsGiveLex(totals, coverage, 0);
  }

  // One case of the reference check: allocation and oracle always agree.
  method Compare(roles: seq<seq<nat>>, counts: seq<nat>, workers: nat) returns (actual: seq<nat>, expected: seq<nat>)
    requires |counts| == |roles|
    requires forall r, w :: 0 <= r < |roles| && w in roles[r] ==> w < workers
    ensures actual == expected
    ensures forall a, t :: Feasible(roles, counts, a) && IsTotals(roles, a, t) ==>
      |t| == |actual| && LexLeq(t, actual, 0)
    ensures exists a :: |a| == workers && Feasible(roles, counts, a) && IsTotals(roles, a, actual)
  {
    var positions := RoleOrder(counts);
    ghost var m, pm, wm, tights;
    actual, m, pm, wm, tights := Allocate(roles, Some(positions));
    ghost var reached;
    expected, reached := Oracle(roles, counts, workers);
    assert m.workers <= workers;
    AllocationFeasible(m, pm, wm, counts, actual, workers);
    assert LexLeq(actual, expected, 0);
    forall a, t | Feasible(roles, counts, a) && IsTotals(roles, a, t) ensures LexLeq(t, actual, 0) {
      AllocationGreatest(m, pm, wm, tights, counts, actual, a, t);
    }
    LexAntisymmetric(actual, expected, 0);
  }
}
