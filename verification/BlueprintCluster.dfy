// scripts/check_blueprint_geometry_reference.py: rows of rooms with doors, corridors and a spine.
module BlueprintCluster {
  import opened Common
  import opened Boxes
  import opened Blueprint

  datatype Layout = Layout(count: int, width: int, height: int, columns: int) {
    predicate Positive() { count >= 1 && width >= 1 && height >= 1 && columns >= 1 }

    // The width of a room with its wall, and the height of a row with door, corridor and wall.
    function Stride(): int { width + 1 }
    function Pitch(): int { height + 3 }

    function Rows(): int
      requires columns >= 1
    {
      (count - 1) / columns + 1
    }

    function RowSize(r: int): int { if columns < count - r * columns then columns else count - r * columns }

    function DoorAt(): int { (width - 1) / 2 }
  }

  datatype Part = Room(r: int, c: int) | Door(r: int, c: int) | Corridor(r: int) | Spine

  predicate Has(l: Layout, p: Part)
    requires l.Positive()
  {
    match p
    case Room(r, c) => 0 <= r < l.Rows() && 0 <= c < l.RowSize(r)
    case Door(r, c) => 0 <= r < l.Rows() && 0 <= c < l.RowSize(r)
    case Corridor(r) => 0 <= r < l.Rows()
    case Spine => true
  }

  function RectOf(l: Layout, p: Part): Rect
    requires l.Positive()
  {
    match p
    case Room(r, c) =>
      var x, y := c * l.Stride(), r * l.Pitch();
      Rect(x, y, x + l.width - 1, y + l.height - 1)
    case Door(r, c) =>
      var x, y := c * l.Stride() + l.DoorAt(), r * l.Pitch() + l.height;
      Rect(x, y, x, y)
    case Corridor(r) =>
      var y := r * l.Pitch() + l.height + 1;
      Rect(-1, y, l.RowSize(r) * l.Stride() - 2, y)
    case Spine => Rect(-2, l.height + 1, -2, (l.Rows() - 1) * l.Pitch() + l.height + 1)
  }

  // ---- Which part a tile belongs to, from its coordinates alone.

  function Where(l: Layout, p: Cell): Part
    requires l.Positive()
  {
    if p.0 == -2 then Spine
    else
      var r, dy := p.1 / l.Pitch(), p.1 % l.Pitch();
      if dy == l.height + 1 then Corridor(r)
      else if dy == l.height then Door(r, p.0 / l.Stride())
      else Room(r, p.0 / l.Stride())
  }

  lemma DivMod(q: int, d: int, rem: int)
    requires 0 <= rem < d
    ensures (q * d + rem) / d == q && (q * d + rem) % d == rem
  {
    var n := q * d + rem;
    assert n == (n / d) * d + n % d;
    if n / d > q { Wider(q, n / d, d); }
    if n / d < q { Wider(n / d, q, d); }
  }

  lemma Wider(a: int, b: int, d: int)
    requires a < b && d > 0
    ensures a * d + d <= b * d
  {
    var k := b - a - 1;
    assert k * d >= 0;
    assert b * d == (a + 1 + k) * d == a * d + d + k * d;
  }

  lemma TileKnowsPart(l: Layout, part: Part, p: Cell)
    requires l.Positive() && Has(l, part) && p in Cells(RectOf(l, part))
    ensures Where(l, p) == part
  {
    InCells(RectOf(l, part), p);
    match part
    case Room(r, c) =>
      ColumnsFromZero(l, c);
      DivMod(c, l.Stride(), p.0 - c * l.Stride());
      DivMod(r, l.Pitch(), p.1 - r * l.Pitch());
    case Door(r, c) =>
      ColumnsFromZero(l, c);
      DivMod(c, l.Stride(), l.DoorAt());
      DivMod(r, l.Pitch(), l.height);
    case Corridor(r) => DivMod(r, l.Pitch(), l.height + 1);
    case Spine =>
  }

  lemma ColumnsFromZero(l: Layout, c: int)
    requires l.Positive() && c >= 0
    ensures c * l.Stride() >= 0
  {
  }

  // ---- The parts in the order of the source.

  function RowParts(r: int, c: nat): (ps: seq<Part>)
    ensures |ps| == 2 * c
  {
    if c == 0 then [] else RowParts(r, c - 1) + [Room(r, c - 1), Door(r, c - 1)]
  }

  lemma RowSizes(l: Layout, r: int)
    requires l.Positive() && 0 <= r < l.Rows()
    ensures 1 <= l.RowSize(r) <= l.columns && r * l.columns + l.RowSize(r) == Served(l, r + 1)
  {
    var q := (l.count - 1) / l.columns;
    assert l.count - 1 == q * l.columns + (l.count - 1) % l.columns;
    if r < q {
      Wider(r, q, l.columns);
      assert (r + 1) * l.columns == r * l.columns + l.columns;
    }
  }

  // Rooms in the first r rows.
  function Served(l: Layout, r: int): int
    requires l.Positive()
  {
    if r == l.Rows() then l.count else r * l.columns
  }

  function UpTo(l: Layout, r: nat): (ps: seq<Part>)
    requires l.Positive() && r <= l.Rows()
  {
    if r == 0 then [] else
      RowSizes(l, r - 1);
      UpTo(l, r - 1) + (RowParts(r - 1, l.RowSize(r - 1)) + [Corridor(r - 1)])
  }

  lemma RowsPositive(l: Layout)
    requires l.Positive()
    ensures l.Rows() >= 1
  {
    assert (l.count - 1) / l.columns >= 0;
  }

  function AllParts(l: Layout): seq<Part>
    requires l.Positive()
  {
    RowsPositive(l);
    UpTo(l, l.Rows()) + [Spine]
  }

  lemma {:induction false} InRowParts(r: int, n: nat, p: Part)
    ensures p in RowParts(r, n) <==> (p.Room? || p.Door?) && p.r == r && 0 <= p.c < n
  {
    if n > 0 { InRowParts(r, n - 1, p); }
  }

  lemma {:induction false} InUpTo(l: Layout, r: nat, p: Part)
    requires l.Positive() && r <= l.Rows()
    ensures p in UpTo(l, r) <==> !p.Spine? && Has(l, p) && p.r < r
  {
    if r > 0 {
      InUpTo(l, r - 1, p);
      RowSizes(l, r - 1);
      InRowParts(r - 1, l.RowSize(r - 1), p);
    }
  }

  lemma InAllParts(l: Layout, p: Part)
    requires l.Positive()
    ensures p in AllParts(l) <==> Has(l, p)
  {
    RowsPositive(l);
    InUpTo(l, l.Rows(), p);
  }

  lemma DistinctJoin<T>(a: seq<T>, b: seq<T>)
    requires Distinct(a) && Distinct(b) && forall x :: x in a ==> x !in b
    ensures Distinct(a + b)
  {
    forall i, j | 0 <= i < j < |a + b| ensures (a + b)[i] != (a + b)[j] {
      if i < |a| && j >= |a| { assert a[i] in a && b[j - |a|] in b; }
    }
  }

  lemma {:induction false} RowDistinct(r: int, n: nat)
    ensures Distinct(RowParts(r, n))
  {
    if n > 0 {
      var before, pair := RowParts(r, n - 1), [Room(r, n - 1), Door(r, n - 1)];
      RowDistinct(r, n - 1);
      forall p | p in before ensures p !in pair { InRowParts(r, n - 1, p); }
      DistinctJoin(before, pair);
    }
  }

  lemma {:induction false} UpToDistinct(l: Layout, r: nat)
    requires l.Positive() && r <= l.Rows()
    ensures Distinct(UpTo(l, r))
  {
    if r > 0 {
      UpToDistinct(l, r - 1);
      RowSizes(l, r - 1);
      var before, row, corridor := UpTo(l, r - 1), RowParts(r - 1, l.RowSize(r - 1)), [Corridor(r - 1)];
      RowDistinct(r - 1, l.RowSize(r - 1));
      forall p | p in row ensures p !in corridor { InRowParts(r - 1, l.RowSize(r - 1), p); }
      DistinctJoin(row, corridor);
      var strip := row + corridor;
      forall p | p in before ensures p !in strip {
        InUpTo(l, r - 1, p);
        InRowParts(r - 1, l.RowSize(r - 1), p);
      }
      DistinctJoin(before, strip);
    }
  }

  lemma PartsDistinct(l: Layout)
    requires l.Positive()
    ensures Distinct(AllParts(l))
  {
    RowsPositive(l);
    UpToDistinct(l, l.Rows());
    forall p | p in UpTo(l, l.Rows()) ensures p !in [Spine] { InUpTo(l, l.Rows(), p); }
    DistinctJoin(UpTo(l, l.Rows()), [Spine]);
  }

  function Rects(l: Layout, ps: seq<Part>): (rs: seq<Rect>)
    requires l.Positive()
    ensures |rs| == |ps|
  {
    seq(|ps|, i requires 0 <= i < |ps| => RectOf(l, ps[i]))
  }

  function Tiles(l: Layout): set<Cell>
    requires l.Positive()
  {
    Union(Rects(l, AllParts(l)))
  }

  // The tiles are exactly those of the parts.
  lemma InTiles(l: Layout, p: Cell)
    requires l.Positive()
    ensures p in Tiles(l) <==> Has(l, Where(l, p)) && p in Cells(RectOf(l, Where(l, p)))
  {
    var ps := AllParts(l);
    UnionHas(Rects(l, ps), p);
    if i :| 0 <= i < |ps| && p in Cells(Rects(l, ps)[i]) {
      InAllParts(l, ps[i]);
      TileKnowsPart(l, ps[i], p);
    }
    if Has(l, Where(l, p)) && p in Cells(RectOf(l, Where(l, p))) {
      InAllParts(l, Where(l, p));
      var i :| 0 <= i < |ps| && ps[i] == Where(l, p);
      assert p in Cells(Rects(l, ps)[i]);
    }
  }

  lemma PartInTiles(l: Layout, part: Part, p: Cell)
    requires l.Positive() && Has(l, part) && p in Cells(RectOf(l, part))
    ensures p in Tiles(l)
  {
    TileKnowsPart(l, part, p);
    InTiles(l, p);
  }

  // Parts never overlap.
  lemma ClusterApart(l: Layout)
    requires l.Positive()
    ensures Apart(Rects(l, AllParts(l)))
  {
    var ps := AllParts(l);
    PartsDistinct(l);
    forall i, j | 0 <= i < j < |ps| ensures Cells(Rects(l, ps)[i]) !! Cells(Rects(l, ps)[j]) {
      InAllParts(l, ps[i]);
      InAllParts(l, ps[j]);
      forall p | p in Cells(RectOf(l, ps[i])) ensures p !in Cells(RectOf(l, ps[j])) {
        TileKnowsPart(l, ps[i], p);
        if p in Cells(RectOf(l, ps[j])) { TileKnowsPart(l, ps[j], p); }
      }
    }
  }

  lemma ClusterProper(l: Layout)
    requires l.Positive()
    ensures AllProper(Rects(l, AllParts(l)))
  {
    var ps := AllParts(l);
    forall i | 0 <= i < |ps| ensures RectOf(l, ps[i]).Proper() {
      InAllParts(l, ps[i]);
      PartProper(l, ps[i]);
    }
  }

  lemma PartProper(l: Layout, p: Part)
    requires l.Positive() && Has(l, p)
    ensures RectOf(l, p).Proper()
  {
    match p
    case Corridor(r) =>
      RowSizes(l, r);
      assert l.RowSize(r) * l.Stride() >= l.Stride() by { if l.RowSize(r) > 1 { Wider(1, l.RowSize(r), l.Stride()); } }
    case Spine =>
      RowsPositive(l);
      assert (l.Rows() - 1) * l.Pitch() >= 0;
    case _ =>
  }

  // The row under a room holds exactly its door.
  lemma OneDoor(l: Layout, r: int, c: int, x: int)
    requires l.Positive() && Has(l, Room(r, c))
    requires var room := RectOf(l, Room(r, c)); room.x0 <= x <= room.x1
    ensures var room := RectOf(l, Room(r, c)); (x, room.y1 + 1) in Tiles(l) <==> x == room.x0 + l.DoorAt()
  {
    var room := RectOf(l, Room(r, c));
    var p := (x, room.y1 + 1);
    ColumnsFromZero(l, c);
    DivMod(c, l.Stride(), x - room.x0);
    DivMod(r, l.Pitch(), l.height);
    assert Where(l, p) == Door(r, c);
    InCells(RectOf(l, Door(r, c)), p);
    InTiles(l, p);
  }

  // ---- How many parts and tiles there are.

  lemma {:induction false} AreasJoin(a: seq<Rect>, b: seq<Rect>)
    ensures Areas(a + b) == Areas(a) + Areas(b)
    decreases |b|
  {
    if b == [] {
      assert a + b == a;
    } else {
      var n := |b| - 1;
      AreasJoin(a, b[..n]);
      assert (a + b)[..|a + b| - 1] == a + b[..n];
    }
  }

  lemma RectsJoin(l: Layout, a: seq<Part>, b: seq<Part>)
    requires l.Positive()
    ensures Areas(Rects(l, a + b)) == Areas(Rects(l, a)) + Areas(Rects(l, b))
  {
    assert Rects(l, a + b) == Rects(l, a) + Rects(l, b);
    AreasJoin(Rects(l, a), Rects(l, b));
  }

  lemma OneArea(l: Layout, p: Part)
    requires l.Positive()
    ensures Areas(Rects(l, [p])) == Area(RectOf(l, p))
  {
    var rs := Rects(l, [p]);
    assert rs[..0] == [] && rs[0] == RectOf(l, p);
  }

  lemma {:induction false} RowAreas(l: Layout, r: int, n: nat)
    requires l.Positive()
    ensures Areas(Rects(l, RowParts(r, n))) == n * (l.width * l.height + 1)
  {
    if n > 0 {
      var room, door := Room(r, n - 1), Door(r, n - 1);
      RowAreas(l, r, n - 1);
      RectsJoin(l, RowParts(r, n - 1), [room, door]);
      assert [room, door] == [room] + [door];
      RectsJoin(l, [room], [door]);
      OneArea(l, room);
      OneArea(l, door);
      RoomArea(l, r, n - 1);
      OneMore(n - 1, l.width * l.height + 1);
    }
  }

  lemma RoomArea(l: Layout, r: int, c: int)
    requires l.Positive()
    ensures Area(RectOf(l, Room(r, c))) == l.width * l.height && Area(RectOf(l, Door(r, c))) == 1
  {
  }

  // Tiles that each room brings: itself, its door and its stretch of corridor.
  function PerRoom(l: Layout): int { l.width * l.height + l.width + 2 }

  lemma StripArea(l: Layout, r: nat)
    requires l.Positive() && r < l.Rows()
    ensures l.RowSize(r) >= 1
    ensures Areas(Rects(l, RowParts(r, l.RowSize(r)) + [Corridor(r)])) == l.RowSize(r) * PerRoom(l)
  {
    RowSizes(l, r);
    var n := l.RowSize(r);
    RectsJoin(l, RowParts(r, n), [Corridor(r)]);
    RowAreas(l, r, n);
    OneArea(l, Corridor(r));
    CorridorArea(l, r);
    Distribute(l.width * l.height + 1, l.width + 1, n);
  }

  lemma CorridorArea(l: Layout, r: nat)
    requires l.Positive()
    ensures Area(RectOf(l, Corridor(r))) == l.RowSize(r) * (l.width + 1)
  {
  }

  lemma Distribute(a: int, b: int, n: int)
    ensures n * a + n * b == n * (a + b) && a * n + b * n == (a + b) * n
  {
  }

  lemma ServedNext(l: Layout, r: nat)
    requires l.Positive() && r < l.Rows()
    ensures Served(l, r) + l.RowSize(r) == Served(l, r + 1)
  {
    RowSizes(l, r);
  }

  lemma {:induction false} UpToCount(l: Layout, r: nat)
    requires l.Positive() && r <= l.Rows()
    ensures |UpTo(l, r)| == 2 * Served(l, r) + r
  {
    RowsPositive(l);
    if r > 0 {
      UpToCount(l, r - 1);
      RowSizes(l, r - 1);
      ServedNext(l, r - 1);
    }
  }

  lemma {:induction false} UpToAreas(l: Layout, r: nat)
    requires l.Positive() && r <= l.Rows()
    ensures Areas(Rects(l, UpTo(l, r))) == Served(l, r) * PerRoom(l)
  {
    RowsPositive(l);
    if r > 0 {
      UpToAreas(l, r - 1);
      StripArea(l, r - 1);
      RectsJoin(l, UpTo(l, r - 1), RowParts(r - 1, l.RowSize(r - 1)) + [Corridor(r - 1)]);
      ServedNext(l, r - 1);
      Distribute(Served(l, r - 1), l.RowSize(r - 1), PerRoom(l));
    }
  }

  lemma ClusterSize(l: Layout)
    requires l.Positive()
    ensures |AllParts(l)| == 2 * l.count + l.Rows() + 1
    ensures Areas(Rects(l, AllParts(l))) == l.count * PerRoom(l) + (l.Rows() - 1) * l.Pitch() + 1
  {
    RowsPositive(l);
    UpToCount(l, l.Rows());
    UpToAreas(l, l.Rows());
    RectsJoin(l, UpTo(l, l.Rows()), [Spine]);
    OneArea(l, Spine);
  }
}
