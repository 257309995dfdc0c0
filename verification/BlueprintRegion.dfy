// scripts/check_blueprint_geometry_reference.py: the cluster is one region, found by the search from its spine.
module BlueprintRegion {
  import opened Common
  import opened Blueprint
  import opened BlueprintCluster

  predicate Adjacent(p: Cell, q: Cell) {
    || (p.1 == q.1 && (p.0 == q.0 - 1 || p.0 == q.0 + 1))
    || (p.0 == q.0 && (p.1 == q.1 - 1 || p.1 == q.1 + 1))
  }

  // No step inside the tiles leaves the set.
  ghost predicate Closed(s: set<Cell>, tiles: set<Cell>) {
    forall p, q :: p in s && q in tiles && Adjacent(p, q) ==> q in s
  }

  // Every part of the tiles that holds the start and that no step leaves is all of them.
  ghost predicate OneRegion(tiles: set<Cell>, start: Cell) {
    start in tiles && forall s: set<Cell> :: s <= tiles && start in s && Closed(s, tiles) ==> s == tiles
  }

  function StartOf(l: Layout): Cell { (-2, l.height + 1) }

  // A set of tiles that the search could end with.
  ghost predicate Found(l: Layout, s: set<Cell>)
    requires l.Positive()
  {
    s <= Tiles(l) && StartOf(l) in s && Closed(s, Tiles(l))
  }

  lemma StepFound(l: Layout, s: set<Cell>, part: Part, p: Cell, q: Cell)
    requires l.Positive() && Found(l, s) && p in s && Adjacent(p, q) && Has(l, part) && q in Cells(RectOf(l, part))
    ensures q in s
  {
    PartInTiles(l, part, q);
  }

  lemma {:induction false} SpineFound(l: Layout, s: set<Cell>, y: int)
    requires l.Positive() && Found(l, s) && (-2, y) in Cells(RectOf(l, Spine))
    ensures (-2, y) in s
    decreases y - l.height
  {
    InCells(RectOf(l, Spine), (-2, y));
    if y > l.height + 1 {
      InCells(RectOf(l, Spine), (-2, y - 1));
      SpineFound(l, s, y - 1);
      StepFound(l, s, Spine, (-2, y - 1), (-2, y));
    }
  }

  lemma SpineReaches(l: Layout, r: int)
    requires l.Positive() && 0 <= r < l.Rows()
    ensures (-2, r * l.Pitch() + l.height + 1) in Cells(RectOf(l, Spine))
  {
    var q := l.Rows() - 1;
    if r < q { Wider(r, q, l.Pitch()); }
    assert r * l.Pitch() >= 0;
    InCells(RectOf(l, Spine), (-2, r * l.Pitch() + l.height + 1));
  }

  lemma {:induction false} CorridorFound(l: Layout, s: set<Cell>, r: int, x: int)
    requires l.Positive() && Found(l, s) && Has(l, Corridor(r)) && -1 <= x <= RectOf(l, Corridor(r)).x1
    ensures (x, r * l.Pitch() + l.height + 1) in s
    decreases x + 1
  {
    var y := r * l.Pitch() + l.height + 1;
    InCells(RectOf(l, Corridor(r)), (x, y));
    if x == -1 {
      SpineReaches(l, r);
      SpineFound(l, s, y);
    } else {
      CorridorFound(l, s, r, x - 1);
    }
    StepFound(l, s, Corridor(r), (x - 1, y), (x, y));
  }

  lemma DoorOverCorridor(l: Layout, r: int, c: int)
    requires l.Positive() && Has(l, Door(r, c))
    ensures 0 <= c * l.Stride() + l.DoorAt() <= RectOf(l, Corridor(r)).x1
  {
    ColumnsFromZero(l, c);
    Wider(c, l.RowSize(r), l.Stride());
  }

  lemma DoorFound(l: Layout, s: set<Cell>, r: int, c: int)
    requires l.Positive() && Found(l, s) && Has(l, Door(r, c))
    ensures (c * l.Stride() + l.DoorAt(), r * l.Pitch() + l.height) in s
  {
    var x, y := c * l.Stride() + l.DoorAt(), r * l.Pitch() + l.height;
    DoorOverCorridor(l, r, c);
    CorridorFound(l, s, r, x);
    InCells(RectOf(l, Door(r, c)), (x, y));
    StepFound(l, s, Door(r, c), (x, y + 1), (x, y));
  }

  // Along the bottom of a room, away from its door.
  lemma {:induction false} BottomFound(l: Layout, s: set<Cell>, r: int, c: int, dx: int)
    requires l.Positive() && Found(l, s) && Has(l, Room(r, c)) && 0 <= dx < l.width
    ensures (c * l.Stride() + dx, r * l.Pitch() + l.height - 1) in s
    decreases if dx < l.DoorAt() then l.DoorAt() - dx else dx - l.DoorAt()
  {
    var x, y := c * l.Stride() + dx, r * l.Pitch() + l.height - 1;
    InCells(RectOf(l, Room(r, c)), (x, y));
    if dx < l.DoorAt() {
      BottomFound(l, s, r, c, dx + 1);
      StepFound(l, s, Room(r, c), (x + 1, y), (x, y));
    } else if dx > l.DoorAt() {
      BottomFound(l, s, r, c, dx - 1);
      StepFound(l, s, Room(r, c), (x - 1, y), (x, y));
    } else {
      DoorFound(l, s, r, c);
      StepFound(l, s, Room(r, c), (x, y + 1), (x, y));
    }
  }

  lemma {:induction false} RoomFound(l: Layout, s: set<Cell>, r: int, c: int, dx: int, dy: int)
    requires l.Positive() && Found(l, s) && Has(l, Room(r, c)) && 0 <= dx < l.width && 0 <= dy < l.height
    ensures (c * l.Stride() + dx, r * l.Pitch() + dy) in s
    decreases l.height - dy
  {
    var x, y := c * l.Stride() + dx, r * l.Pitch() + dy;
    if dy == l.height - 1 {
      BottomFound(l, s, r, c, dx);
    } else {
      InCells(RectOf(l, Room(r, c)), (x, y));
      RoomFound(l, s, r, c, dx, dy + 1);
      StepFound(l, s, Room(r, c), (x, y + 1), (x, y));
    }
  }

  lemma TileFound(l: Layout, s: set<Cell>, p: Cell)
    requires l.Positive() && Found(l, s) && p in Tiles(l)
    ensures p in s
  {
    InTiles(l, p);
    InCells(RectOf(l, Where(l, p)), p);
    match Where(l, p)
    case Room(r, c) => RoomFound(l, s, r, c, p.0 - c * l.Stride(), p.1 - r * l.Pitch());
    case Door(r, c) => DoorFound(l, s, r, c);
    case Corridor(r) => CorridorFound(l, s, r, p.0);
    case Spine => SpineFound(l, s, p.1);
  }

  // The tiles of every layout form one connected region from the top of the spine.
  lemma ClusterIsOneRegion(l: Layout)
    requires l.Positive()
    ensures OneRegion(Tiles(l), StartOf(l))
  {
    RowsPositive(l);
    SpineReaches(l, 0);
    PartInTiles(l, Spine, StartOf(l));
    forall s: set<Cell> | s <= Tiles(l) && StartOf(l) in s && Closed(s, Tiles(l)) ensures s == Tiles(l) {
      forall p | p in Tiles(l) ensures p in s { TileFound(l, s, p); }
    }
  }

  // ---- The search.

  function Around(p: Cell): (ns: seq<Cell>)
    ensures |ns| == 4 && forall q :: q in ns <==> Adjacent(p, q)
  {
    var ns := [(p.0 - 1, p.1), (p.0 + 1, p.1), (p.0, p.1 - 1), (p.0, p.1 + 1)];
    assert ns[0] in ns && ns[1] in ns && ns[2] in ns && ns[3] in ns;
    ns
  }

  // Everything adjacent to a finished tile has been seen.
  ghost predicate Settled(seen: set<Cell>, queue: seq<Cell>, tiles: set<Cell>) {
    forall p, q :: p in seen && p !in queue && q in tiles && Adjacent(p, q) ==> q in seen
  }

  method Visit(p: Cell, tiles: set<Cell>, seen0: set<Cell>, queue0: seq<Cell>)
    returns (seen: set<Cell>, queue: seq<Cell>)
    requires seen0 <= tiles && p in seen0 && (forall q :: q in queue0 ==> q in seen0)
    requires forall a, q :: a in seen0 && a != p && a !in queue0 && q in tiles && Adjacent(a, q) ==> q in seen0
    ensures seen0 <= seen <= tiles && (forall q :: q in queue ==> q in seen) && Settled(seen, queue, tiles)
    ensures seen == seen0 ==> queue == queue0
  {
    seen, queue := seen0, queue0;
    var around := Around(p);
    for i := 0 to 4
      invariant seen0 <= seen <= tiles && (forall q :: q in queue ==> q in seen) && queue0 <= queue
      invariant forall q :: q in seen && q !in seen0 ==> q in queue
      invariant forall j :: 0 <= j < i && around[j] in tiles ==> around[j] in seen
      invariant seen == seen0 ==> queue == queue0
    {
      if around[i] in tiles && around[i] !in seen {
        seen := seen + {around[i]};
        queue := queue + [around[i]];
      }
    }
    forall a, q | a in seen && a !in queue && q in tiles && Adjacent(a, q) ensures q in seen {
      if a == p {
        assert q in around;
      } else {
        assert a in seen0 && a !in queue0;
      }
    }
  }

  // The breadth-first search: it ends with a closed set of tiles around the start.
  method Search(tiles: set<Cell>, start: Cell) returns (seen: set<Cell>)
    requires start in tiles
    ensures seen <= tiles && start in seen && Closed(seen, tiles)
  {
    var queue := [start];
    seen := {start};
    while queue != []
      invariant seen <= tiles && start in seen && (forall q :: q in queue ==> q in seen) && Settled(seen, queue, tiles)
      decreases tiles - seen, |queue|
    {
      var p := queue[0];
      assert forall q :: q in queue ==> q == p || q in queue[1..];
      seen, queue := Visit(p, tiles, seen, queue[1..]);
    }
  }

  // ---- The layout of the source.

  method BuildRow(l: Layout, r: nat, parts0: seq<Rect>, rooms0: seq<Rect>) returns (parts: seq<Rect>, rooms: seq<Rect>)
    requires l.Positive() && r < l.Rows()
    ensures l.RowSize(r) >= 1
    ensures parts == parts0 + Rects(l, RowParts(r, l.RowSize(r)) + [Corridor(r)])
    ensures rooms == rooms0 + seq(l.RowSize(r), c => RectOf(l, Room(r, c)))
  {
    RowSizes(l, r);
    parts, rooms := parts0, rooms0;
    var n := if l.columns < l.count - r * l.columns then l.columns else l.count - r * l.columns;
    var y := r * (l.height + 3);
    for column := 0 to n
      invariant parts == parts0 + Rects(l, RowParts(r, column))
      invariant rooms == rooms0 + seq(column, c => RectOf(l, Room(r, c)))
    {
      var x := column * (l.width + 1);
      var room := Rect(x, y, x + l.width - 1, y + l.height - 1);
      var door := x + (l.width - 1) / 2;
      assert room == RectOf(l, Room(r, column)) && Rect(door, y + l.height, door, y + l.height)
        == RectOf(l, Door(r, column));
      rooms := rooms + [room];
      parts := parts + [room, Rect(door, y + l.height, door, y + l.height)];
      assert Rects(l, RowParts(r, column + 1)) == Rects(l, RowParts(r, column)) + [RectOf(l, Room(r, column)),
        RectOf(l, Door(r, column))];
    }
    parts := parts + [Rect(-1, y + l.height + 1, n * (l.width + 1) - 2, y + l.height + 1)];
    assert Rects(l, RowParts(r, n) + [Corridor(r)]) == Rects(l, RowParts(r, n)) + [RectOf(l, Corridor(r))];
  }

  ghost predicate IsRoom(l: Layout, q: Rect)
    requires l.Positive()
  {
    exists r, c :: Has(l, Room(r, c)) && q == RectOf(l, Room(r, c))
  }

  // A room in one of the first n rows.
  ghost predicate RoomAbove(l: Layout, q: Rect, n: nat)
    requires l.Positive()
  {
    exists r, c :: Has(l, Room(r, c)) && r < n && q == RectOf(l, Room(r, c))
  }

  lemma NextRow(l: Layout, q: Rect, n: nat, added: seq<Rect>)
    requires l.Positive() && n < l.Rows() && |added| == l.RowSize(n)
    requires forall c :: 0 <= c < |added| ==> added[c] == RectOf(l, Room(n, c))
    ensures RoomAbove(l, q, n + 1) <==> RoomAbove(l, q, n) || q in added
  {
    if RoomAbove(l, q, n + 1) {
      var r, c :| Has(l, Room(r, c)) && r < n + 1 && q == RectOf(l, Room(r, c));
      if r == n { assert added[c] == q; }
    }
    if q in added {
      var c :| 0 <= c < |added| && added[c] == q;
      assert Has(l, Room(n, c));
    }
  }

  lemma AllRows(l: Layout, q: Rect)
    requires l.Positive() && l.Rows() >= 0
    ensures RoomAbove(l, q, l.Rows()) <==> IsRoom(l, q)
  {
  }

  method Build(l: Layout) returns (parts: seq<Rect>, rooms: seq<Rect>)
    requires l.Positive()
    ensures parts == Rects(l, AllParts(l))
    ensures forall q :: q in rooms <==> IsRoom(l, q)
  {
    RowsPositive(l);
    parts, rooms := [], [];
    for r := 0 to l.Rows()
      invariant parts == Rects(l, UpTo(l, r))
      invariant forall q :: q in rooms <==> RoomAbove(l, q, r)
    {
      ghost var before := rooms;
      parts, rooms := BuildRow(l, r, parts, rooms);
      RowSizes(l, r);
      assert Rects(l, UpTo(l, r + 1)) == Rects(l, UpTo(l, r)) + Rects(l, RowParts(r, l.RowSize(r)) + [Corridor(r)]);
      ghost var added := seq(l.RowSize(r), c => RectOf(l, Room(r, c)));
      forall q ensures q in rooms <==> RoomAbove(l, q, r + 1) {
        NextRow(l, q, r, added);
        assert q in rooms <==> q in before || q in added;
      }
    }
    forall q ensures RoomAbove(l, q, l.Rows()) <==> IsRoom(l, q) { AllRows(l, q); }
    parts := parts + [Rect(-2, l.height + 1, -2, (l.Rows() - 1) * (l.height + 3) + l.height + 1)];
    assert Rects(l, AllParts(l)) == Rects(l, UpTo(l, l.Rows())) + [RectOf(l, Spine)];
  }

  // Under a room there is a tile of the layout in the middle, and nowhere else.
  predicate DoorHere(width: int, tiles: set<Cell>, room: Rect, x: int) {
    (x, room.y1 + 1) in tiles <==> x == room.x0 + (width - 1) / 2
  }

  predicate DoorRow(width: int, tiles: set<Cell>, room: Rect) {
    forall x :: room.x0 <= x <= room.x1 ==> DoorHere(width, tiles, room, x)
  }

  // The final check on each room's doors, over any tiles.
  method DoorsOk(width: int, tiles: set<Cell>, room: Rect) returns (ok: bool)
    requires room.Proper()
    ensures ok <==> DoorRow(width, tiles, room)
  {
    for x := room.x0 to room.x1 + 1
      invariant forall k :: room.x0 <= k < x ==> DoorHere(width, tiles, room, k)
    {
      if ((x, room.y1 + 1) in tiles) != (x == room.x0 + (width - 1) / 2) {
        assert !DoorHere(width, tiles, room, x);
        return false;
      }
    }
    ok := true;
  }

  lemma RoomHasDoorRow(l: Layout, room: Rect)
    requires l.Positive() && IsRoom(l, room)
    ensures room.Proper() && DoorRow(l.width, Tiles(l), room)
  {
    var r, c :| Has(l, Room(r, c)) && room == RectOf(l, Room(r, c));
    forall x | room.x0 <= x <= room.x1 ensures DoorHere(l.width, Tiles(l), room, x) {
      OneDoor(l, r, c, x);
    }
  }

  // The whole layout, or none where an assertion fails. The connectivity and door assertions never
  // fail, parts never overlap, and the two limits are met exactly when the arithmetic says so.
  method Cluster(l: Layout) returns (result: Option<set<Cell>>)
    requires l.Positive()
    ensures result.Some? <==>
      2 * l.count + l.Rows() + 1 <= 64 &&
      l.count * (l.width * l.height + l.width + 2) + (l.Rows() - 1) * (l.height + 3) + 1 <= 16384
    ensures result.Some? ==> result.value == Tiles(l) && OneRegion(result.value, StartOf(l))
    ensures result.Some? ==> forall room :: IsRoom(l, room) ==> DoorRow(l.width, result.value, room)
  {
    var parts, rooms := Build(l);
    ClusterProper(l);
    ClusterApart(l);
    ClusterSize(l);
    ClusterIsOneRegion(l);
    forall room | IsRoom(l, room) ensures DoorRow(l.width, Tiles(l), room) { RoomHasDoorRow(l, room); }
    result := DisjointUnion(parts);
    if result.None? { return; }
    var seen := Search(result.value, (-2, l.height + 1));
    if seen != result.value { return None; }
    for i := 0 to |rooms| {
      RoomHasDoorRow(l, rooms[i]);
      var ok := DoorsOk(l.width, result.value, rooms[i]);
      if !ok { return None; }
    }
  }
}
