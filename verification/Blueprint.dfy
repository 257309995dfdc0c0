// scripts/check_blueprint_geometry_reference.py: rectangles of tiles, disjoint layouts and moats.
module Blueprint {
  import opened Common
  import opened Boxes

  type Cell = (int, int)

  datatype Rect = Rect(x0: int, y0: int, x1: int, y1: int) {
    predicate Proper() { x0 <= x1 && y0 <= y1 }
  }

  function Cells(r: Rect): set<Cell> { Pairs(Span(r.x0, r.x1), Span(r.y0, r.y1)) }

  lemma InCells(r: Rect, p: Cell)
    ensures p in Cells(r) <==> r.x0 <= p.0 <= r.x1 && r.y0 <= p.1 <= r.y1
  {
    InPairs(Span(r.x0, r.x1), Span(r.y0, r.y1), p);
  }

  function Area(r: Rect): int { (r.x1 - r.x0 + 1) * (r.y1 - r.y0 + 1) }

  lemma AreaIsCard(r: Rect)
    requires r.Proper()
    ensures |Cells(r)| == Area(r)
  {
    var xs, ys := Span(r.x0, r.x1), Span(r.y0, r.y1);
    PairsCard(xs, ys);
    SpanCard(r.x0, r.x1);
    SpanCard(r.y0, r.y1);
    SameArea(|xs|, |ys|, r);
  }

  lemma SameArea(w: nat, h: nat, r: Rect)
    requires w == r.x1 - r.x0 + 1 && h == r.y1 - r.y0 + 1
    ensures w * h == Area(r)
  {
  }

  function Union(parts: seq<Rect>): set<Cell> {
    if parts == [] then {} else Union(parts[..|parts| - 1]) + Cells(parts[|parts| - 1])
  }

  function Areas(parts: seq<Rect>): int {
    if parts == [] then 0 else Areas(parts[..|parts| - 1]) + Area(parts[|parts| - 1])
  }

  predicate AllProper(parts: seq<Rect>) { forall i :: 0 <= i < |parts| ==> parts[i].Proper() }

  predicate Apart(parts: seq<Rect>) {
    forall i, j :: 0 <= i < j < |parts| ==> Cells(parts[i]) !! Cells(parts[j])
  }

  lemma {:induction false} UnionHas(parts: seq<Rect>, p: Cell)
    ensures p in Union(parts) <==> exists i :: 0 <= i < |parts| && p in Cells(parts[i])
  {
    if parts != [] {
      var n := |parts| - 1;
      UnionHas(parts[..n], p);
      if i :| 0 <= i < |parts| && p in Cells(parts[i]) {
        if i < n { assert p in Cells(parts[..n][i]); }
      }
      if i :| 0 <= i < n && p in Cells(parts[..n][i]) { assert p in Cells(parts[i]); }
    }
  }

  lemma ApartFromUnion(parts: seq<Rect>, n: nat)
    requires n < |parts| && Apart(parts)
    ensures Union(parts[..n]) !! Cells(parts[n])
  {
    forall p | p in Cells(parts[n]) ensures p !in Union(parts[..n]) {
      UnionHas(parts[..n], p);
      forall i | 0 <= i < n ensures p !in Cells(parts[..n][i]) {
        assert Cells(parts[i]) !! Cells(parts[n]);
      }
    }
  }

  // Disjoint parts cover as many tiles as their areas add up to.
  lemma {:induction false} UnionCard(parts: seq<Rect>)
    requires AllProper(parts) && Apart(parts)
    ensures |Union(parts)| == Areas(parts)
  {
    if parts != [] {
      var n := |parts| - 1;
      assert Apart(parts[..n]) by {
        forall i, j | 0 <= i < j < n ensures Cells(parts[..n][i]) !! Cells(parts[..n][j]) {
          assert Cells(parts[i]) !! Cells(parts[j]);
        }
      }
      UnionCard(parts[..n]);
      ApartFromUnion(parts, n);
      AreaIsCard(parts[n]);
    }
  }

  lemma NotApart(parts: seq<Rect>, n: nat, p: Cell)
    requires n < |parts| && p in Union(parts[..n]) && p in Cells(parts[n])
    ensures !Apart(parts)
  {
    if Apart(parts) { ApartFromUnion(parts, n); }
  }

  lemma ApartMore(parts: seq<Rect>, n: nat)
    requires n < |parts| && Apart(parts[..n]) && Union(parts[..n]) !! Cells(parts[n])
    ensures Apart(parts[..n + 1])
  {
    var more := parts[..n + 1];
    forall i, j | 0 <= i < j < n + 1 ensures Cells(more[i]) !! Cells(more[j]) {
      if j < n {
        assert Cells(parts[..n][i]) !! Cells(parts[..n][j]);
      } else {
        forall p | p in Cells(more[i]) ensures p in Union(parts[..n]) {
          assert p in Cells(parts[..n][i]);
          UnionHas(parts[..n], p);
        }
      }
    }
  }

  // What one more part does.
  lemma NextPart(parts: seq<Rect>, n: nat)
    requires n < |parts| && Apart(parts[..n]) && AllProper(parts[..n])
    ensures Union(parts[..n + 1]) == Union(parts[..n]) + Cells(parts[n])
    ensures Union(parts[..n]) * Cells(parts[n]) == {} ==> Apart(parts[..n + 1])
    ensures Union(parts[..n]) * Cells(parts[n]) != {} ==> !Apart(parts)
    ensures parts[n].Proper() ==> AllProper(parts[..n + 1])
  {
    assert parts[..n + 1][..n] == parts[..n];
    if Union(parts[..n]) * Cells(parts[n]) == {} {
      assert forall p :: p in Union(parts[..n]) && p in Cells(parts[n]) ==> p in Union(parts[..n]) * Cells(parts[n]);
      ApartMore(parts, n);
    } else {
      var p :| p in Union(parts[..n]) * Cells(parts[n]);
      NotApart(parts, n, p);
    }
  }

  // The union of parts, or none where one of the source's assertions fails: it succeeds exactly
  // for at most 64 proper, pairwise disjoint parts that cover at most 16384 tiles.
  method DisjointUnion(parts: seq<Rect>) returns (result: Option<set<Cell>>)
    ensures result.Some? <==> AllProper(parts) && Apart(parts) && |parts| <= 64 && Areas(parts) <= 16384
    ensures result.Some? ==> result.value == Union(parts)
  {
    var tiles: set<Cell> := {};
    for n := 0 to |parts|
      invariant tiles == Union(parts[..n]) && AllProper(parts[..n]) && Apart(parts[..n])
    {
      NextPart(parts, n);
      if !parts[n].Proper() { return None; }
      var points := Cells(parts[n]);
      if tiles * points != {} { return None; }
      tiles := tiles + points;
    }
    assert parts[..|parts|] == parts;
    UnionCard(parts);
    if |parts| > 64 || |tiles| > 16384 { return None; }
    result := Some(tiles);
  }

  // ---- Moats.

  function MoatSides(width: int, height: int): seq<Rect> {
    [Rect(0, 1, 0, height - 2), Rect(width - 1, 1, width - 1, height - 2), Rect(0, height - 1, width - 1, height - 1)]
  }

  function MoatFront(width: int, gap: int): seq<Rect> {
    if gap == 0 then [Rect(0, 0, width - 1, 0)]
    else
      var start := 1 + (width - 2 - gap) / 2;
      [Rect(0, 0, start - 1, 0), Rect(start + gap, 0, width - 1, 0)]
  }

  predicate MoatShape(width: int, height: int, gap: int) { width >= 2 && height >= 3 && 0 <= gap <= width - 2 }

  // The outer ring of a rectangle, without the crossing in the middle of its first row.
  predicate OnMoat(width: int, height: int, gap: int, p: Cell) {
    && 0 <= p.0 < width && 0 <= p.1 < height && (p.0 == 0 || p.0 == width - 1 || p.1 == 0 || p.1 == height - 1)
    && !(p.1 == 0 && (width - gap) / 2 <= p.0 < (width - gap) / 2 + gap)
  }

  lemma MoatTiles(width: int, height: int, gap: int, p: Cell)
    requires MoatShape(width, height, gap)
    ensures p in Union(MoatSides(width, height) + MoatFront(width, gap)) <==> OnMoat(width, height, gap, p)
  {
    var sides, front := MoatSides(width, height), MoatFront(width, gap);
    var parts := sides + front;
    assert 1 + (width - 2 - gap) / 2 == (width - gap) / 2;
    UnionHas(parts, p);
    forall i | 0 <= i < |parts|
      ensures p in Cells(parts[i]) <==>
        parts[i].x0 <= p.0 <= parts[i].x1 && parts[i].y0 <= p.1 <= parts[i].y1
    {
      InCells(parts[i], p);
    }
    assert parts[0] == sides[0] && parts[1] == sides[1] && parts[2] == sides[2] && parts[3] == front[0];
    if gap != 0 { assert parts[4] == front[1]; }
  }

  lemma MoatApart(width: int, height: int, gap: int)
    requires MoatShape(width, height, gap)
    ensures var parts := MoatSides(width, height) + MoatFront(width, gap);
            AllProper(parts) && Apart(parts) && Areas(parts) == 2 * width + 2 * height - 4 - gap
  {
    var sides, front := MoatSides(width, height), MoatFront(width, gap);
    var parts := sides + front;
    assert parts[0] == sides[0] && parts[1] == sides[1] && parts[2] == sides[2] && parts[3] == front[0];
    if gap != 0 { assert parts[4] == front[1]; }
    forall i, j | 0 <= i < j < |parts| ensures Cells(parts[i]) !! Cells(parts[j]) {
      forall p | p in Cells(parts[i]) ensures p !in Cells(parts[j]) {
        InCells(parts[i], p);
        InCells(parts[j], p);
      }
    }
    MoatAreas(width, height, gap);
  }

  lemma MoatAreas(width: int, height: int, gap: int)
    requires MoatShape(width, height, gap)
    ensures Areas(MoatSides(width, height) + MoatFront(width, gap)) == 2 * width + 2 * height - 4 - gap
  {
    var sides, front := MoatSides(width, height), MoatFront(width, gap);
    assert sides[..2] == [sides[0], sides[1]] && sides[..2][..1] == [sides[0]] && [sides[0]][..0] == [];
    assert Areas([sides[0]]) == height - 2;
    assert Areas(sides[..2]) == 2 * (height - 2);
    assert Areas(sides) == 2 * (height - 2) + width;
    if gap == 0 {
      assert (sides + front)[..3] == sides;
    } else {
      assert (sides + front)[..4] == sides + [front[0]] && (sides + [front[0]])[..3] == sides;
    }
  }

  // Other sizes make an improper part or two parts that overlap.
  lemma MoatElse(width: int, height: int, gap: int)
    requires !MoatShape(width, height, gap)
    ensures var parts := MoatSides(width, height) + MoatFront(width, gap); !(AllProper(parts) && Apart(parts))
  {
    var sides, front := MoatSides(width, height), MoatFront(width, gap);
    var parts := sides + front;
    assert parts[0] == sides[0] && parts[1] == sides[1] && parts[2] == sides[2] && parts[3] == front[0];
    if gap != 0 { assert parts[4] == front[1]; }
    if AllProper(parts) {
      assert parts[0].Proper() && parts[2].Proper() && parts[3].Proper() && (gap != 0 ==> parts[4].Proper());
      if width == 1 {
        SharedTile(parts, 0, 1, (0, 1));
      } else {
        SharedTile(parts, 3, 4, (if front[1].x0 < 0 then 0 else front[1].x0, 0));
      }
    }
  }

  lemma SharedTile(parts: seq<Rect>, i: nat, j: nat, p: Cell)
    requires i < j < |parts| && parts[i].x0 <= p.0 <= parts[i].x1 && parts[i].y0 <= p.1 <= parts[i].y1
    requires parts[j].x0 <= p.0 <= parts[j].x1 && parts[j].y0 <= p.1 <= parts[j].y1
    ensures !Apart(parts)
  {
    InCells(parts[i], p);
    InCells(parts[j], p);
    assert p in Cells(parts[i]) && p in Cells(parts[j]);
  }

  // For all sizes: a moat is built exactly when it has at least two columns and three rows, a crossing
  // that leaves both corners, and no more tiles than allowed; it is the outer ring without its crossing.
  method Moat(width: int, height: int, gap: int) returns (result: Option<set<Cell>>)
    ensures result.Some? <==> MoatShape(width, height, gap) && 2 * width + 2 * height - 4 - gap <= 16384
    ensures result.Some? ==> forall p: Cell :: p in result.value <==> OnMoat(width, height, gap, p)
  {
    var parts := [Rect(0, 1, 0, height - 2), Rect(width - 1, 1, width - 1, height - 2),
      Rect(0, height - 1, width - 1, height - 1)];
    if gap != 0 {
      var start := 1 + (width - 2 - gap) / 2;
      parts := parts + [Rect(0, 0, start - 1, 0), Rect(start + gap, 0, width - 1, 0)];
    } else {
      parts := parts + [Rect(0, 0, width - 1, 0)];
    }
    assert parts == MoatSides(width, height) + MoatFront(width, gap);
    result := DisjointUnion(parts);
    if MoatShape(width, height, gap) {
      MoatApart(width, height, gap);
      forall p: Cell ensures p in Union(parts) <==> OnMoat(width, height, gap, p) {
        MoatTiles(width, height, gap, p);
      }
    } else {
      MoatElse(width, height, gap);
    }
  }
}
