// Unit flows on a list of directed links: excess, conservation, and the cut identity.
module RouteFlow {

  // What a link stands for: passing through a tile, or stepping from one tile to the next.
  datatype Meaning = Through(tile: nat) | StepTo(here: nat, there: nat)

  datatype Link = Link(a: nat, b: nat, meaning: Meaning)

  // One Boolean per link: a link carries one unit of flow or none.
  type Flow = seq<bool>

  // What link l contributes to the flow leaving s when it carries a unit.
  function Pull(l: Link, s: set<nat>): int {
    (if l.a in s then 1 else 0) - (if l.b in s then 1 else 0)
  }

  // The net flow out of s over the first n links.
  function Excess(links: seq<Link>, flow: Flow, s: set<nat>, n: nat): int
    requires n <= |links| == |flow|
  {
    if n == 0 then 0 else Excess(links, flow, s, n - 1) + if flow[n - 1] then Pull(links[n - 1], s) else 0
  }

  function Out(links: seq<Link>, flow: Flow, s: set<nat>): int
    requires |links| == |flow|
  {
    Excess(links, flow, s, |links|)
  }

  lemma {:induction false} ExcessUpdate(links: seq<Link>, flow: Flow, s: set<nat>, i: nat, f: bool, n: nat)
    requires n <= |links| == |flow| && i < |links|
    ensures Excess(links, flow[i := f], s, n) == Excess(links, flow, s, n)
      + if i < n then (if f then Pull(links[i], s) else 0) - (if flow[i] then Pull(links[i], s) else 0) else 0
  {
    if n > 0 { ExcessUpdate(links, flow, s, i, f, n - 1); }
  }

  lemma {:induction false} ExcessUnion(links: seq<Link>, flow: Flow, s: set<nat>, t: set<nat>, n: nat)
    requires n <= |links| == |flow| && s !! t
    ensures Excess(links, flow, s + t, n) == Excess(links, flow, s, n) + Excess(links, flow, t, n)
  {
    if n > 0 { ExcessUnion(links, flow, s, t, n - 1); }
  }

  lemma {:induction false} ExcessEmpty(links: seq<Link>, flow: Flow, n: nat)
    requires n <= |links| == |flow|
    ensures Excess(links, flow, {}, n) == 0
  {
    if n > 0 { ExcessEmpty(links, flow, n - 1); }
  }

  lemma {:induction false} ExcessZero(links: seq<Link>, flow: Flow, s: set<nat>, n: nat)
    requires n <= |links| == |flow| && forall i :: 0 <= i < n ==> !flow[i]
    ensures Excess(links, flow, s, n) == 0
  {
    if n > 0 { ExcessZero(links, flow, s, n - 1); }
  }

  // Nothing is gained or lost at any node but the two terminals; `units` leave the source.
  ghost predicate IsFlow(links: seq<Link>, flow: Flow, src: nat, dst: nat, units: int) {
    && |links| == |flow|
    && Out(links, flow, {src}) == units
    && forall x: nat {:trigger Out(links, flow, {x})} :: x != src && x != dst ==> Out(links, flow, {x}) == 0
  }

  // Every set that holds the source and not the target passes the whole value on.
  lemma {:induction false} CutValue(links: seq<Link>, flow: Flow, src: nat, dst: nat, units: int, s: set<nat>)
    requires IsFlow(links, flow, src, dst, units) && dst !in s
    ensures Out(links, flow, s) == if src in s then units else 0
  {
    if s == {} {
      ExcessEmpty(links, flow, |links|);
    } else {
      var x :| x in s;
      CutValue(links, flow, src, dst, units, s - {x});
      assert s == (s - {x}) + {x};
      ExcessUnion(links, flow, s - {x}, {x}, |links|);
      assert x != src ==> Out(links, flow, {x}) == 0;
    }
  }

  // The links that leave s, among the first n.
  ghost function Crossing(links: seq<Link>, s: set<nat>, n: nat): set<nat>
    requires n <= |links|
  {
    set i: nat | i < n && links[i].a in s && links[i].b !in s
  }

  // A saturated cut: all links out of s carry flow and no link into s does.
  ghost predicate Saturated(links: seq<Link>, flow: Flow, s: set<nat>) {
    && |links| == |flow|
    && (forall i :: 0 <= i < |links| && links[i].a in s && links[i].b !in s ==> flow[i])
    && (forall i :: 0 <= i < |links| && links[i].a !in s && links[i].b in s ==> !flow[i])
  }

  lemma CrossingStep(links: seq<Link>, s: set<nat>, n: nat)
    requires 0 < n <= |links|
    ensures |Crossing(links, s, n)| ==
      |Crossing(links, s, n - 1)| + if links[n - 1].a in s && links[n - 1].b !in s then 1 else 0
  {
    if links[n - 1].a in s && links[n - 1].b !in s {
      assert Crossing(links, s, n) == Crossing(links, s, n - 1) + {n - 1};
    } else {
      assert Crossing(links, s, n) == Crossing(links, s, n - 1);
    }
  }

  lemma {:induction false} SaturatedCount(links: seq<Link>, flow: Flow, s: set<nat>, n: nat)
    requires n <= |links| && Saturated(links, flow, s)
    ensures Excess(links, flow, s, n) == |Crossing(links, s, n)|
  {
    if n == 0 {
      assert Crossing(links, s, 0) == {};
    } else {
      SaturatedCount(links, flow, s, n - 1);
      CrossingStep(links, s, n);
    }
  }

  // A cut that carries no flow out of s has no positive value.
  lemma {:induction false} NoOutflow(links: seq<Link>, flow: Flow, s: set<nat>, n: nat)
    requires n <= |links| == |flow|
    requires forall i :: 0 <= i < |links| && links[i].a in s && links[i].b !in s ==> !flow[i]
    ensures Excess(links, flow, s, n) <= 0
  {
    if n > 0 { NoOutflow(links, flow, s, n - 1); }
  }

  // The value never exceeds the number of links that leave the source.
  lemma {:induction false} ValueBound(links: seq<Link>, flow: Flow, src: nat, n: nat)
    requires n <= |links| == |flow|
    ensures Excess(links, flow, {src}, n) <= |Crossing(links, {src}, n)|
  {
    if n > 0 {
      ValueBound(links, flow, src, n - 1);
      CrossingStep(links, {src}, n);
    }
  }
}
