// Bipartite matching by breadth-first augmenting paths: the search, the augmentation, and
// the tight sets that a failed search leaves behind.
module LaborMatching {
  import opened Common

  // roles[r] lists the workers able to fill role r; positions[p] is the role of position p.
  datatype Market = Market(roles: seq<seq<nat>>, positions: seq<nat>, workers: nat) {
    ghost predicate Valid() {
      && (forall p :: 0 <= p < |positions| ==> positions[p] < |roles|)
      && (forall r, w :: 0 <= r < |roles| && w in roles[r] ==> w < workers)
    }

    predicate Fits(p: nat, w: nat) {
      p < |positions| && positions[p] < |roles| && w in roles[positions[p]]
    }
  }

  type Slots = seq<Option<nat>>

  // The two match arrays are inverse to each other along real edges.
  ghost predicate Matched(m: Market, pm: Slots, wm: Slots) {
    && |pm| == |m.positions| && |wm| == m.workers
    && (forall p {:trigger pm[p]} :: 0 <= p < |pm| && pm[p].Some? ==>
          pm[p].value < |wm| && wm[pm[p].value] == Some(p) && m.Fits(p, pm[p].value))
    && (forall w {:trigger wm[w]} :: 0 <= w < |wm| && wm[w].Some? ==>
          wm[w].value < |pm| && pm[wm[w].value] == Some(w))
  }

  // Every worker fitting a position of t is matched inside t, so t cannot be covered better.
  ghost predicate Tight(m: Market, wm: Slots, t: set<nat>) {
    |wm| == m.workers && forall p: nat, w: nat {:trigger m.Fits(p, w)} :: p in t && m.Fits(p, w) && w < |wm| ==>
      wm[w].Some? && wm[w].value in t
  }

  // The search forest: every visited position but the root was reached through the worker
  // it holds, from a position visited earlier.
  ghost predicate Forest(m: Market, pm: Slots, root: nat, parents: Slots, time: map<nat, nat>) {
    && root in time && root < |pm| && pm[root] == None && |parents| == m.workers
    && (forall p :: p in time ==> p < |pm|)
    && (forall p {:trigger pm[p]} :: p in time && p != root ==>
          p < |pm| && pm[p].Some? && pm[p].value < |parents| && parents[pm[p].value].Some?
          && Earlier(time, parents[pm[p].value].value, p))
    && (forall w {:trigger parents[w]} :: 0 <= w < |parents| && parents[w].Some? ==>
          parents[w].value in time && m.Fits(parents[w].value, w))
  }

  ghost predicate Earlier(time: map<nat, nat>, q: nat, p: nat) {
    q in time && p in time && time[q] < time[p]
  }

  // One turn of the augmentation: target takes the free worker and releases its previous one.
  lemma AugmentStep(m: Market, pm: Slots, wm: Slots, free: nat, target: nat)
    requires Matched(m, pm, wm) && free < |wm| && wm[free] == None && m.Fits(target, free)
    ensures target < |pm|
    ensures pm[target].None? ==> Matched(m, pm[target := Some(free)], wm[free := Some(target)])
    ensures pm[target].Some? ==> pm[target].value < |wm| && pm[target].value != free
    ensures pm[target].Some? ==>
      Matched(m, pm[target := Some(free)], wm[free := Some(target)][pm[target].value := None])
  {
  }

  // A tight set stays tight, because neither the free worker nor the released one fits it.
  lemma AugmentKeepsTight(m: Market, pm: Slots, wm: Slots, free: nat, target: nat, t: set<nat>)
    requires Matched(m, pm, wm) && free < |wm| && wm[free] == None && m.Fits(target, free)
    requires Tight(m, wm, t)
    ensures pm[target].None? ==> Tight(m, wm[free := Some(target)], t)
    ensures pm[target].Some? ==>
      pm[target].value < |wm| && Tight(m, wm[free := Some(target)][pm[target].value := None], t)
  {
    assert target !in t;
    forall p: nat, w: nat | p in t && m.Fits(p, w) && w < |wm| ensures w != free
      && (pm[target].Some? ==> w != pm[target].value) {
      assert wm[w].Some? && wm[w].value in t;
    }
  }

  ghost function Covered(pm: Slots): set<nat> {
    set p | 0 <= p < |pm| && pm[p].Some?
  }

  lemma CoveredUpdate(pm: Slots, p: nat, w: nat)
    requires p < |pm|
    ensures Covered(pm[p := Some(w)]) == Covered(pm) + {p}
  {
  }

  // One turn of the augmentation: the position takes the free worker and gives up the one it had.
  method Take(m: Market, pm: array<Option<nat>>, wm: array<Option<nat>>, free: nat, target: nat,
              ghost tights: seq<set<nat>>) returns (previous: Option<nat>)
    requires Matched(m, pm[..], wm[..]) && pm != wm
    requires free < wm.Length && wm[free] == None && m.Fits(target, free)
    requires forall i :: 0 <= i < |tights| ==> Tight(m, wm[..], tights[i])
    modifies pm, wm
    ensures Matched(m, pm[..], wm[..])
    ensures target < pm.Length && previous == old(pm[target]) && pm[..] == old(pm[..])[target := Some(free)]
    ensures Covered(pm[..]) == old(Covered(pm[..])) + {target}
    ensures previous.Some? ==> previous.value < wm.Length && wm[previous.value] == None
    ensures forall i :: 0 <= i < |tights| ==> Tight(m, wm[..], tights[i])
  {
    ghost var p0, w0 := pm[..], wm[..];
    AugmentStep(m, p0, w0, free, target);
    CoveredUpdate(p0, target, free);
    forall i | 0 <= i < |tights| {
      AugmentKeepsTight(m, p0, w0, free, target, tights[i]);
    }
    previous := pm[target];
    pm[target] := Some(free);
    wm[free] := Some(target);
    assert pm[..] == p0[target := Some(free)];
    if previous.Some? {
      wm[previous.value] := None;
      assert wm[..] == w0[free := Some(target)][previous.value := None];
    } else {
      assert wm[..] == w0[free := Some(target)];
    }
  }

  // Flip the alternating path that ends in a free worker; the root becomes covered and
  // every position covered before stays so.
  method Augment(m: Market, pm: array<Option<nat>>, wm: array<Option<nat>>, parents: Slots, ghost root: nat,
                 worker: nat, ghost time: map<nat, nat>, ghost tights: seq<set<nat>>)
    requires Matched(m, pm[..], wm[..]) && Forest(m, pm[..], root, parents, time) && pm != wm
    requires worker < wm.Length && wm[worker] == None && parents[worker].Some?
    requires forall i :: 0 <= i < |tights| ==> Tight(m, wm[..], tights[i])
    modifies pm, wm
    ensures Matched(m, pm[..], wm[..])
    ensures Covered(pm[..]) == old(Covered(pm[..])) + {root}
    ensures forall i :: 0 <= i < |tights| ==> Tight(m, wm[..], tights[i])
  {
    ghost var pm0 := pm[..];
    var free: nat := worker;
    var done := false;
    while !done
      invariant Matched(m, pm[..], wm[..])
      invariant forall i :: 0 <= i < |tights| ==> Tight(m, wm[..], tights[i])
      invariant !done ==> free < wm.Length && wm[free] == None && parents[free].Some?
      invariant !done ==> Covered(pm[..]) == Covered(pm0)
      invariant !done ==> forall q :: q in time && time[q] <= time[parents[free].value] && q < pm.Length ==>
        pm[q] == pm0[q]
      invariant done ==> Covered(pm[..]) == Covered(pm0) + {root}
      decreases if done then 0 else 1 + time[parents[free].value]
    {
      var target := parents[free].value;
      assert m.Fits(target, free);
      var previous := Take(m, pm, wm, free, target, tights);
      assert previous == pm0[target];
      if previous.None? {
        assert target == root;
        done := true;
      } else {
        free := previous.value;
        assert Earlier(time, parents[free].value, target);
      }
    }
  }

  // Workers already reached are all occupied, by visited positions.
  ghost predicate Occupied(wm: Slots, parents: Slots, time: map<nat, nat>) {
    |parents| == |wm| && forall w {:trigger parents[w]} :: 0 <= w < |wm| && parents[w].Some? ==>
      wm[w].Some? && wm[w].value in time
  }

  // Every worker fitting p has been reached.
  ghost predicate Scanned(m: Market, parents: Slots, p: nat) {
    |parents| == m.workers && forall w: nat {:trigger m.Fits(p, w)} :: m.Fits(p, w) && w < |parents| ==>
      parents[w].Some?
  }

  // Reaching an occupied worker makes the position that holds it visited.
  lemma Reach(m: Market, pm: Slots, wm: Slots, root: nat, parents: Slots, time: map<nat, nat>, p: nat, w: nat, now: nat)
    requires Matched(m, pm, wm) && Forest(m, pm, root, parents, time) && Occupied(wm, parents, time)
    requires p in time && m.Fits(p, w) && w < |wm| && parents[w].None? && wm[w].Some?
    requires forall q :: q in time ==> time[q] < now
    ensures var held := wm[w].value;
            var next := if held in time then time else time[held := now];
            Forest(m, pm, root, parents[w := Some(p)], next) && Occupied(wm, parents[w := Some(p)], next)
  {
    var held := wm[w].value;
    var next := if held in time then time else time[held := now];
    var ps := parents[w := Some(p)];
    assert pm[held] == Some(w);
    forall q | q in next && q != root
      ensures q < |pm| && pm[q].Some? && pm[q].value < |ps| && ps[pm[q].value].Some?
        && Earlier(next, ps[pm[q].value].value, q)
    {
      if q in time {
        assert time[q] == next[q];
        assert parents[pm[q].value].Some?;
      } else {
        assert q == held && ps[w] == Some(p);
      }
    }
  }

  lemma ReachFree(m: Market, pm: Slots, root: nat, parents: Slots, time: map<nat, nat>, p: nat, w: nat)
    requires Forest(m, pm, root, parents, time) && p in time && m.Fits(p, w) && w < |parents| && parents[w].None?
    ensures Forest(m, pm, root, parents[w := Some(p)], time)
  {
    forall q | q in time && q != root
      ensures parents[w := Some(p)][pm[q].value] == parents[pm[q].value]
    {
      assert pm[q].Some?;
    }
  }

  // The state of an unfinished search.
  ghost predicate Growing(m: Market, pm: Slots, wm: Slots, root: nat, parents: Slots, visited: set<nat>,
                          time: map<nat, nat>, now: nat) {
    && Forest(m, pm, root, parents, time) && Occupied(wm, parents, time)
    && visited == time.Keys
    && forall q {:trigger time[q]} :: q in time ==> time[q] < now
  }

  lemma RowInRange(m: Market, p: nat)
    requires m.Valid() && p < |m.positions|
    ensures forall j :: 0 <= j < |m.roles[m.positions[p]]| ==>
      m.roles[m.positions[p]][j] < m.workers && m.Fits(p, m.roles[m.positions[p]][j])
  {
    forall j | 0 <= j < |m.roles[m.positions[p]]|
      ensures m.roles[m.positions[p]][j] < m.workers && m.Fits(p, m.roles[m.positions[p]][j])
    {
      assert m.roles[m.positions[p]][j] in m.roles[m.positions[p]];
    }
  }

  // An occupied worker reached for the first time queues the position that holds it.
  method ReachOccupied(ghost m: Market, ghost pm: Slots, wm: Slots, ghost root: nat, p: nat, worker: nat,
                       parents0: Slots, visited0: set<nat>, queue0: seq<nat>, ghost time0: map<nat, nat>,
                         ghost now0: nat)
    returns (parents: Slots, visited: set<nat>, queue: seq<nat>, ghost time: map<nat, nat>, ghost now: nat)
    requires Matched(m, pm, wm) && Growing(m, pm, wm, root, parents0, visited0, time0, now0)
    requires p in time0 && m.Fits(p, worker) && worker < |wm| && parents0[worker].None? && wm[worker].Some?
    ensures Growing(m, pm, wm, root, parents, visited, time, now)
    ensures parents == parents0[worker := Some(p)]
    ensures (visited == visited0 && queue == queue0)
      || (wm[worker].value !in visited0 && visited == visited0 + {wm[worker].value}
        && queue == queue0 + [wm[worker].value])
  {
    Reach(m, pm, wm, root, parents0, time0, p, worker, now0);
    parents, visited, queue, time, now := parents0[worker := Some(p)], visited0, queue0, time0, now0;
    var occupied := wm[worker].value;
    if occupied !in visited {
      visited := visited + {occupied};
      queue := queue + [occupied];
      time, now := time[occupied := now], now + 1;
    }
  }

  // The workers of one queued position, in preference order, up to the first free one.
  method Scan(m: Market, ghost pm: Slots, wm: Slots, ghost root: nat, p: nat, parents0: Slots,
              visited0: set<nat>, queue0: seq<nat>, ghost time0: map<nat, nat>, ghost now0: nat)
    returns (found: Option<nat>, parents: Slots, visited: set<nat>, queue: seq<nat>, ghost time: map<nat, nat>,
             ghost now: nat)
    requires m.Valid() && Matched(m, pm, wm) && Growing(m, pm, wm, root, parents0, visited0, time0, now0)
    requires p in time0 && p < |m.positions|
    ensures Forest(m, pm, root, parents, time)
    ensures found.Some? ==> found.value < |wm| && wm[found.value] == None && parents[found.value].Some?
    ensures found.None? ==> Growing(m, pm, wm, root, parents, visited, time, now) && Scanned(m, parents, p)
    ensures found.None? ==> forall w :: 0 <= w < |parents0| && parents0[w].Some? ==> parents[w].Some?
    ensures found.None? ==> visited0 <= visited && (forall q :: q in queue <==> q in queue0 || q in visited - visited0)
    ensures found.None? && visited == visited0 ==> queue == queue0
  {
    parents, visited, queue, time, now := parents0, visited0, queue0, time0, now0;
    var row := m.roles[m.positions[p]];
    RowInRange(m, p);
    for i := 0 to |row|
      invariant Growing(m, pm, wm, root, parents, visited, time, now)
      invariant p in time && visited0 <= visited
      invariant forall j :: 0 <= j < i ==> parents[row[j]].Some?
      invariant forall w :: 0 <= w < |parents0| && parents0[w].Some? ==> parents[w].Some?
      invariant forall q :: q in queue <==> q in queue0 || q in visited - visited0
      invariant visited == visited0 ==> queue == queue0
    {
      var worker := row[i];
      if parents[worker].None? {
        if wm[worker].None? {
          ReachFree(m, pm, root, parents, time, p, worker);
          return Some(worker), parents[worker := Some(p)], visited, queue, time, now;
        }
        ghost var before := parents;
        parents, visited, queue, time, now :=
          ReachOccupied(m, pm, wm, root, p, worker, parents, visited, queue, time, now);
        assert forall j :: 0 <= j < i ==> before[row[j]].Some? ==> parents[row[j]].Some?;
      }
      assert parents[row[i]].Some?;
    }
    found := None;
  }

  // Breadth-first search for a free worker from an uncovered position. Failure leaves a tight set.
  method Search(m: Market, ghost pm: Slots, wm: Slots, root: nat)
    returns (found: Option<nat>, parents: Slots, ghost time: map<nat, nat>)
    requires m.Valid() && Matched(m, pm, wm) && root < |pm| && pm[root] == None
    ensures Forest(m, pm, root, parents, time)
    ensures found.Some? ==> found.value < |wm| && wm[found.value] == None && parents[found.value].Some?
    ensures found.None? ==> Tight(m, wm, time.Keys)
  {
    parents := seq(m.workers, i => None);
    var visited := {root};
    var queue := [root];
    time := map[root := 0];
    ghost var now := 1;
    found := None;
    while queue != [] && found.None?
      invariant Forest(m, pm, root, parents, time)
      invariant found.Some? ==> found.value < |wm| && wm[found.value] == None && parents[found.value].Some?
      invariant found.None? ==> Growing(m, pm, wm, root, parents, visited, time, now)
      invariant found.None? ==> (forall q :: q in queue ==> q in time)
      invariant found.None? ==> forall q :: q in time && q !in queue ==> Scanned(m, parents, q)
      decreases if found.None? then 1 else 0, Below(|pm|) - visited, |queue|
    {
      var p := queue[0];
      assert queue == [p] + queue[1..];
      assert time[p] < now;
      InForest(m, pm, root, parents, time);
      ghost var parents0, queue0, time0 := parents, queue, time;
      found, parents, visited, queue, time, now := Scan(m, pm, wm, root, p, parents, visited, queue[1..], time, now);
      if found.None? {
        InForest(m, pm, root, parents, time);
        ScanKeeps(m, parents0, parents, queue0, queue, time0, time, p);
      }
    }
    if found.None? {
      forall p: nat, w: nat | p in time && m.Fits(p, w) && w < |wm| ensures wm[w].Some? && wm[w].value in time {
        assert Scanned(m, parents, p);
        assert parents[w].Some?;
      }
    }
  }

  lemma InForest(m: Market, pm: Slots, root: nat, parents: Slots, time: map<nat, nat>)
    requires Forest(m, pm, root, parents, time)
    ensures time.Keys <= Covered(pm) + {root} && time.Keys <= Below(|pm|)
  {
  }

  // A scan finishes the position taken from the queue and keeps the finished ones finished.
  lemma ScanKeeps(m: Market, parents0: Slots, parents: Slots, queue0: seq<nat>, queue: seq<nat>,
                  time0: map<nat, nat>, time: map<nat, nat>, p: nat)
    requires queue0 != [] && queue0[0] == p && |parents0| == |parents| && Scanned(m, parents, p)
    requires forall q :: q in time0 && q !in queue0 ==> Scanned(m, parents0, q)
    requires forall w :: 0 <= w < |parents0| && parents0[w].Some? ==> parents[w].Some?
    requires forall q :: q in queue <==> q in queue0[1..] || q in time.Keys - time0.Keys
    ensures forall q :: q in time && q !in queue ==> Scanned(m, parents, q)
  {
    forall q | q in time && q !in queue ensures Scanned(m, parents, q) {
      assert queue0 == [p] + queue0[1..];
      if q != p { assert Scanned(m, parents0, q); }
    }
  }
}
