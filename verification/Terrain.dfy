// scripts/check_terrain_watch_reference.py: verdicts on counts with unknown members, and box masks.
module Terrain {
  import opened Common
  import opened Boxes

  datatype Comparison = Eq | Ne | Lt | Le | Gt | Ge

  predicate Compare(c: Comparison, n: int, target: int) {
    match c
    case Eq => n == target
    case Ne => n != target
    case Lt => n < target
    case Le => n <= target
    case Gt => n > target
    case Ge => n >= target
  }

  function IntervalTruth(low: int, high: int, c: Comparison, target: int): Option<bool> {
    var inside := low == high == target;
    var outside := target < low || target > high;
    var (yes, no) :=
      match c
      case Eq => (inside, outside)
      case Ne => (outside, inside)
      case Lt => (high < target, low >= target)
      case Le => (high <= target, low > target)
      case Gt => (low > target, high <= target)
      case Ge => (low >= target, high < target);
    if yes then Some(true) else if no then Some(false) else None
  }

  // Members that are known to be in, known to be out, or unknown.
  function Known(values: seq<Option<bool>>): (n: nat)
    ensures n <= |values|
  {
    if values == [] then 0 else Known(values[1..]) + (if values[0] == Some(true) then 1 else 0)
  }

  function Open(values: seq<Option<bool>>): nat {
    if values == [] then 0 else Open(values[1..]) + (if values[0].None? then 1 else 0)
  }

  function CountTrue(bits: seq<bool>): nat {
    if bits == [] then 0 else CountTrue(bits[1..]) + (if bits[0] then 1 else 0)
  }

  ghost predicate Completes(values: seq<Option<bool>>, bits: seq<bool>) {
    |bits| == |values| && forall i :: 0 <= i < |values| && values[i].Some? ==> bits[i] == values[i].value
  }

  lemma {:induction false} CompletionInRange(values: seq<Option<bool>>, bits: seq<bool>)
    requires Completes(values, bits)
    ensures Known(values) <= CountTrue(bits) <= Known(values) + Open(values)
  {
    if values != [] { CompletionInRange(values[1..], bits[1..]); }
  }

  // Every count in the range is the count of some completion.
  lemma {:induction false} CompletionFor(values: seq<Option<bool>>, n: nat) returns (bits: seq<bool>)
    requires Known(values) <= n <= Known(values) + Open(values)
    ensures Completes(values, bits) && CountTrue(bits) == n
  {
    if values == [] {
      bits := [];
    } else {
      var first := if values[0].Some? then values[0].value else n > Known(values[1..]) + Open(values[1..]);
      var rest := CompletionFor(values[1..], if first then n - 1 else n);
      bits := [first] + rest;
    }
  }

  lemma IntervalExact(low: int, high: int, c: Comparison, target: int)
    requires low <= high
    ensures IntervalTruth(low, high, c, target) == Some(true) <==> forall n :: low <= n <= high ==>
      Compare(c, n, target)
    ensures IntervalTruth(low, high, c, target) == Some(false) <==> forall n :: low <= n <= high ==>
      !Compare(c, n, target)
  {
    var all := forall n :: low <= n <= high ==> Compare(c, n, target);
    var none := forall n :: low <= n <= high ==> !Compare(c, n, target);
    assert all ==> Compare(c, low, target) && Compare(c, high, target);
    assert none ==> !Compare(c, low, target) && !Compare(c, high, target);
    assert all && low <= target <= high ==> Compare(c, target, target);
    assert none && low <= target <= high ==> !Compare(c, target, target);
  }

  // The verdict is true or false exactly when every completion of the unknown members agrees.
  lemma VerdictExact(values: seq<Option<bool>>, c: Comparison, target: int, verdict: bool)
    ensures IntervalTruth(Known(values), Known(values) + Open(values), c, target) == Some(verdict) <==>
            forall bits :: Completes(values, bits) ==> Compare(c, CountTrue(bits), target) == verdict
  {
    var low, high := Known(values), Known(values) + Open(values);
    IntervalExact(low, high, c, target);
    if IntervalTruth(low, high, c, target) == Some(verdict) {
      forall bits | Completes(values, bits) ensures Compare(c, CountTrue(bits), target) == verdict {
        CompletionInRange(values, bits);
      }
    } else {
      var n: int :| low <= n <= high && Compare(c, n, target) != verdict;
      var bits := CompletionFor(values, n);
    }
  }

  // ---- Box masks.

  datatype Point = Point(x: int, y: int, z: int)
  datatype Box = Box(low: Point, high: Point) {
    predicate InBounds() {
      0 <= low.x <= high.x < 32768 && 0 <= low.y <= high.y < 32768 && 0 <= low.z <= high.z < 32768
    }
  }

  function Volume(b: Box): int { (b.high.x - b.low.x + 1) * ((b.high.y - b.low.y + 1) * (b.high.z - b.low.z + 1)) }

  function Cells(b: Box): set<(int, (int, int))> {
    Pairs(Span(b.low.x, b.high.x), Pairs(Span(b.low.y, b.high.y), Span(b.low.z, b.high.z)))
  }

  predicate Overlap(a: Box, b: Box) {
    && a.low.x <= b.high.x && b.low.x <= a.high.x
    && a.low.y <= b.high.y && b.low.y <= a.high.y
    && a.low.z <= b.high.z && b.low.z <= a.high.z
  }

  lemma VolumeIsCard(b: Box)
    requires b.InBounds()
    ensures |Cells(b)| == Volume(b) && Volume(b) >= 1
  {
    var xs, ys, zs := Span(b.low.x, b.high.x), Span(b.low.y, b.high.y), Span(b.low.z, b.high.z);
    PairsCard(ys, zs);
    PairsCard(xs, Pairs(ys, zs));
    SpanCard(b.low.x, b.high.x);
    SpanCard(b.low.y, b.high.y);
    SpanCard(b.low.z, b.high.z);
    assert (b.low.x, (b.low.y, b.low.z)) in Cells(b);
    SameProduct(|xs|, |ys|, |zs|, |Pairs(ys, zs)|, b);
  }

  lemma SameProduct(x: nat, y: nat, z: nat, yz: nat, b: Box)
    requires x == b.high.x - b.low.x + 1 && y == b.high.y - b.low.y + 1 && z == b.high.z - b.low.z + 1 && yz == y * z
    ensures x * yz == Volume(b)
  {
  }

  function Larger(a: int, b: int): int { if a > b then a else b }

  lemma InCells(b: Box, p: (int, (int, int)))
    ensures p in Cells(b) <==>
      b.low.x <= p.0 <= b.high.x && b.low.y <= p.1.0 <= b.high.y && b.low.z <= p.1.1 <= b.high.z
  {
    InPairs(Span(b.low.x, b.high.x), Pairs(Span(b.low.y, b.high.y), Span(b.low.z, b.high.z)), p);
    InPairs(Span(b.low.y, b.high.y), Span(b.low.z, b.high.z), p.1);
  }

  lemma OverlapIsShared(a: Box, b: Box)
    requires a.InBounds() && b.InBounds()
    ensures Overlap(a, b) <==> Cells(a) * Cells(b) != {}
  {
    if Overlap(a, b) {
      var p := (Larger(a.low.x, b.low.x), (Larger(a.low.y, b.low.y), Larger(a.low.z, b.low.z)));
      InCells(a, p);
      InCells(b, p);
      assert p in Cells(a) * Cells(b);
    }
    if p :| p in Cells(a) * Cells(b) {
      InCells(a, p);
      InCells(b, p);
    }
  }

  function Total(areas: seq<Box>): int {
    if areas == [] then 0 else Total(areas[..|areas| - 1]) + Volume(areas[|areas| - 1])
  }

  function Union(areas: seq<Box>): set<(int, (int, int))> {
    if areas == [] then {} else Union(areas[..|areas| - 1]) + Cells(areas[|areas| - 1])
  }

  predicate AllInBounds(areas: seq<Box>) { forall i :: 0 <= i < |areas| ==> areas[i].InBounds() }

  predicate Separate(areas: seq<Box>) {
    forall i, j :: 0 <= i < j < |areas| ==> !Overlap(areas[j], areas[i])
  }

  lemma {:induction false} TotalGrows(areas: seq<Box>, k: nat)
    requires AllInBounds(areas) && k <= |areas|
    ensures 0 <= Total(areas[..k]) <= Total(areas)
    decreases |areas|
  {
    if k == |areas| {
      assert areas[..k] == areas;
      if k > 0 {
        TotalGrows(areas[..k - 1], k - 1);
        VolumeIsCard(areas[k - 1]);
      }
    } else {
      var n := |areas| - 1;
      assert areas[..n][..k] == areas[..k];
      TotalGrows(areas[..n], k);
      VolumeIsCard(areas[n]);
    }
  }

  lemma {:induction false} InUnion(areas: seq<Box>, p: (int, (int, int))) returns (i: nat)
    requires p in Union(areas)
    ensures i < |areas| && p in Cells(areas[i])
  {
    var n := |areas| - 1;
    if p in Cells(areas[n]) { i := n; } else { i := InUnion(areas[..n], p); }
  }

  // Separate boxes cover as many points as their volumes add up to.
  lemma {:induction false} UnionCard(areas: seq<Box>)
    requires AllInBounds(areas) && Separate(areas)
    ensures |Union(areas)| == Total(areas)
  {
    if areas != [] {
      var n := |areas| - 1;
      UnionCard(areas[..n]);
      VolumeIsCard(areas[n]);
      if p :| p in Union(areas[..n]) && p in Cells(areas[n]) {
        var i := InUnion(areas[..n], p);
        OverlapIsShared(areas[n], areas[i]);
        assert p in Cells(areas[n]) * Cells(areas[i]);
        assert !Overlap(areas[n], areas[i]);
      }
    }
  }

  // One box against those before it.
  method Clear(areas: seq<Box>, index: nat) returns (ok: bool)
    requires index < |areas|
    ensures ok <==> forall i :: 0 <= i < index ==> !Overlap(areas[index], areas[i])
  {
    for i := 0 to index
      invariant forall j :: 0 <= j < i ==> !Overlap(areas[index], areas[j])
    {
      if Overlap(areas[index], areas[i]) { return false; }
    }
    ok := true;
  }

  // A mask is accepted exactly when it has 1 to 64 boxes in bounds that share no cell and cover at
  // most 16384 cells together.
  method Validate(areas: seq<Box>) returns (ok: bool)
    ensures ok <==> 1 <= |areas| <= 64 && AllInBounds(areas) && Separate(areas) && |Union(areas)| <= 16384
    ensures ok ==> |Union(areas)| == Total(areas)
  {
    if !(1 <= |areas| <= 64) { return false; }
    var total := 0;
    for index := 0 to |areas|
      invariant total == Total(areas[..index]) <= 16384
      invariant AllInBounds(areas[..index]) && Separate(areas[..index])
    {
      assert areas[..index + 1][..index] == areas[..index];
      var b := areas[index];
      if !b.InBounds() { return false; }
      total := total + Volume(b);
      if total > 16384 {
        if AllInBounds(areas) && Separate(areas) {
          TotalGrows(areas, index + 1);
          UnionCard(areas);
        }
        return false;
      }
      ok := Clear(areas, index);
      if !ok { return; }
    }
    assert areas[..|areas|] == areas;
    UnionCard(areas);
    ok := true;
  }

  // Accepted boxes are disjoint sets of coordinates.
  lemma SeparateIsDisjoint(areas: seq<Box>)
    requires AllInBounds(areas)
    ensures Separate(areas) <==> forall i, j :: 0 <= i < j < |areas| ==> Cells(areas[i]) !! Cells(areas[j])
  {
    forall i, j | 0 <= i < j < |areas| ensures !Overlap(areas[j], areas[i]) <==> Cells(areas[i]) !! Cells(areas[j]) {
      OverlapIsShared(areas[j], areas[i]);
      assert Cells(areas[j]) * Cells(areas[i]) == Cells(areas[i]) * Cells(areas[j]);
    }
  }
}
