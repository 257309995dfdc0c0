// scripts/check_labor_allocation_model.py: prioritised matching and its exhaustive oracle.
module LaborAllocation {
  import opened Common
  import opened LaborMatching

  // For every prefix of the positions a tight set inside it that holds all its uncovered ones.
  ghost predicate Certified(m: Market, pm: Slots, wm: Slots, tights: seq<set<nat>>, n: nat) {
    && |tights| == n + 1 && n <= |pm|
    && (forall i :: 0 <= i <= n ==> Tight(m, wm, tights[i]))
    && (forall i :: 0 <= i <= n ==> tights[i] <= Below(i))
    && (forall i, p :: 0 <= p < i <= n && pm[p].None? ==> p in tights[i])
  }

  lemma TightUnion(m: Market, wm: Slots, s: set<nat>, t: set<nat>)
    requires Tight(m, wm, s) && Tight(m, wm, t)
    ensures Tight(m, wm, s + t)
  {
    forall p: nat, w: nat | p in s + t && m.Fits(p, w) && w < |wm| ensures wm[w].Some? && wm[w].value in s + t {
      if p in s { assert p in s && m.Fits(p, w); }
    }
  }

  lemma CertifySuccess(m: Market, pm: Slots, wm: Slots, pm': Slots, wm': Slots, tights: seq<set<nat>>, n: nat)
    requires Certified(m, pm, wm, tights, n) && n < |pm| == |pm'|
    requires Covered(pm') == Covered(pm) + {n}
    requires forall i :: 0 <= i < |tights| ==> Tight(m, wm', tights[i])
    ensures Certified(m, pm', wm', tights + [tights[n]], n + 1)
  {
    var ts := tights + [tights[n]];
    forall i, p | 0 <= p < i <= n + 1 && pm'[p].None? ensures p in ts[i] {
      assert p !in Covered(pm') && n in Covered(pm');
      assert pm[p].None?;
    }
    forall i | 0 <= i <= n + 1 ensures ts[i] <= Below(i) && Tight(m, wm', ts[i]) {
      assert ts[i] == tights[if i <= n then i else n];
    }
  }

  lemma CertifyFailure(m: Market, pm: Slots, wm: Slots, tights: seq<set<nat>>, n: nat, visited: set<nat>)
    requires Certified(m, pm, wm, tights, n) && n < |pm|
    requires Tight(m, wm, visited) && n in visited && visited <= Below(n + 1)
    ensures Certified(m, pm, wm, tights + [tights[n] + visited], n + 1)
  {
    var ts := tights + [tights[n] + visited];
    TightUnion(m, wm, tights[n], visited);
    forall i, p | 0 <= p < i <= n + 1 && pm[p].None? ensures p in ts[i] {
      if i == n + 1 && p < n { assert p in tights[n]; }
    }
    forall i | 0 <= i <= n + 1 ensures ts[i] <= Below(i) && Tight(m, wm, ts[i]) {
      if i <= n { assert ts[i] == tights[i]; }
    }
  }

  // One root: search, and augment when a free worker is found.
  method Serve(m: Market, pm: array<Option<nat>>, wm: array<Option<nat>>, root: nat, ghost tights: seq<set<nat>>)
    returns (ghost tights': seq<set<nat>>)
    requires m.Valid() && Matched(m, pm[..], wm[..]) && pm != wm && root < pm.Length
    requires Certified(m, pm[..], wm[..], tights, root) && Covered(pm[..]) <= Below(root)
    modifies pm, wm
    ensures Matched(m, pm[..], wm[..])
    ensures Certified(m, pm[..], wm[..], tights', root + 1) && Covered(pm[..]) <= Below(root + 1)
    ensures old(Covered(pm[..])) <= Covered(pm[..])
  {
    ghost var p0, w0 := pm[..], wm[..];
    assert root !in Covered(p0);
    var found, parents, time := Search(m, pm[..], wm[..], root);
    if found.Some? {
      Augment(m, pm, wm, parents, root, found.value, time, tights);
      CertifySuccess(m, p0, w0, pm[..], wm[..], tights, root);
      tights' := tights + [tights[root]];
    } else {
      InForest(m, p0, root, parents, time);
      CertifyFailure(m, p0, w0, tights, root, time.Keys);
      tights' := tights + [tights[root] + time.Keys];
    }
  }

  // One more than the largest worker named by any role.
  method CountWorkers(roles: seq<seq<nat>>) returns (workers: nat)
    ensures forall r, w :: 0 <= r < |roles| && w in roles[r] ==> w < workers
    ensures workers > 0 ==> exists r :: 0 <= r < |roles| && workers - 1 in roles[r]
  {
    workers := 0;
    for r := 0 to |roles|
      invariant forall q, w :: 0 <= q < r && w in roles[q] ==> w < workers
      invariant workers > 0 ==> exists q :: 0 <= q < |roles| && workers - 1 in roles[q]
    {
      for i := 0 to |roles[r]|
        invariant forall q, w :: 0 <= q < r && w in roles[q] ==> w < workers
        invariant forall j :: 0 <= j < i ==> roles[r][j] < workers
        invariant workers > 0 ==> exists q :: 0 <= q < |roles| && workers - 1 in roles[q]
      {
        if roles[r][i] >= workers {
          workers := roles[r][i] + 1;
          assert workers - 1 in roles[r];
        }
      }
    }
  }

  // The covered positions of one role.
  ghost function Filled(m: Market, pm: Slots, role: nat): set<nat> {
    set p | 0 <= p < |pm| && p < |m.positions| && m.positions[p] == role && pm[p].Some?
  }

  method CountFilled(m: Market, pm: array<Option<nat>>, role: nat) returns (n: nat)
    requires pm.Length == |m.positions|
    ensures n == |Filled(m, pm[..], role)|
  {
    n := 0;
    ghost var seen: set<nat> := {};
    for p := 0 to pm.Length
      invariant seen == set q | 0 <= q < p && m.positions[q] == role && pm[q].Some?
      invariant n == |seen|
    {
      if m.positions[p] == role && pm[p].Some? {
        n := n + 1;
        seen := seen + {p};
      }
    }
    assert seen == Filled(m, pm[..], role);
  }

  // Match the positions in order; the result counts the covered positions of every role.
  method Allocate(roles: seq<seq<nat>>, given: Option<seq<nat>>)
    returns (coverage: seq<nat>, ghost m: Market, ghost pm: Slots, ghost wm: Slots, ghost tights: seq<set<nat>>)
    requires given.Some? ==> forall p :: 0 <= p < |given.value| ==> given.value[p] < |roles|
    ensures m.Valid() && m.roles == roles
    ensures given.Some? ==> m.positions == given.value
    ensures given.None? ==> |m.positions| == |roles| && forall p :: 0 <= p < |roles| ==> m.positions[p] == p
    ensures m.workers > 0 ==> exists r :: 0 <= r < |roles| && m.workers - 1 in roles[r]
    ensures Matched(m, pm, wm) && Certified(m, pm, wm, tights, |m.positions|)
    ensures |coverage| == |roles| && forall r :: 0 <= r < |roles| ==> coverage[r] == |Filled(m, pm, r)|
  {
    var positions := match given case Some(ps) => ps case None => seq(|roles|, (i: nat) => i);
    var workers := CountWorkers(roles);
    var market := Market(roles, positions, workers);
    m := market;
    var byPosition := new Option<nat>[|positions|](i => None);
    var byWorker := new Option<nat>[workers](i => None);
    assert byPosition != byWorker;
    tights := [{}];
    for root := 0 to |positions|
      invariant byPosition.Length == |positions| && byWorker.Length == workers
      invariant Matched(market, byPosition[..], byWorker[..])
      invariant Certified(market, byPosition[..], byWorker[..], tights, root)
      invariant Covered(byPosition[..]) <= Below(root)
    {
      tights := Serve(market, byPosition, byWorker, root, tights);
    }
    pm, wm := byPosition[..], byWorker[..];
    coverage := CountRoles(market, byPosition);
  }

  method CountRoles(m: Market, pm: array<Option<nat>>) returns (coverage: seq<nat>)
    requires pm.Length == |m.positions|
    ensures |coverage| == |m.roles| && forall r :: 0 <= r < |m.roles| ==> coverage[r] == |Filled(m, pm[..], r)|
  {
    coverage := [];
    for role := 0 to |m.roles|
      invariant |coverage| == role && forall r :: 0 <= r < role ==> coverage[r] == |Filled(m, pm[..], r)|
    {
      var n := CountFilled(m, pm, role);
      coverage := coverage + [n];
    }
  }
}
