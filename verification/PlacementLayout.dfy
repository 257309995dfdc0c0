// scripts/build_placement_wire.py: where each field of a value lies in its bytes.
module PlacementLayout {
  import opened ByteCodec
  import opened PlacementWire
  import opened PlacementCapture
  import opened PlacementRecord
  import opened PlacementRecordCodec

  // A big-endian number of w bytes, and given bytes, from an offset on.
  predicate NumberAt(raw: Bytes, at: nat, w: nat, n: nat) {
    at + w <= |raw| && FromBigEndian(raw[at..at + w]) == n
  }

  predicate BytesAt(raw: Bytes, at: nat, b: Bytes) { at + |b| <= |raw| && raw[at..at + |b|] == b }

  predicate TailAt(raw: Bytes, at: nat, tail: Bytes) { at <= |raw| && raw[at..] == tail }

  // Offsets of numbers that follow each other, and where they end.
  ghost predicate Offsets(ats: seq<nat>, ws: seq<nat>, from: nat) {
    |ats| == |ws| + 1 && ats[0] == from && forall i :: 0 <= i < |ws| ==> ats[i + 1] == ats[i] + ws[i]
  }

  ghost predicate Lie(raw: Bytes, ns: seq<nat>, ws: seq<nat>, ats: seq<nat>, tail: Bytes) {
    && |ns| == |ws| && |ats| == |ws| + 1
    && (forall i :: 0 <= i < |ns| ==> NumberAt(raw, ats[i], ws[i], ns[i])) && TailAt(raw, ats[|ws|], tail)
  }

  lemma OneLies(raw: Bytes, from: nat, n: nat, w: nat, tail: Bytes)
    requires n < Radix(w) && TailAt(raw, from, BigEndian(n, w) + tail)
    ensures NumberAt(raw, from, w, n) && TailAt(raw, from + w, tail)
  {
    var next := from + w;
    assert raw[from..next] == raw[from..][..w] == BigEndian(n, w);
    assert raw[next..] == raw[from..][w..] == tail;
    WriteRead(n, w);
  }

  lemma {:induction false} NumsLie(raw: Bytes, from: nat, ns: seq<nat>, ws: seq<nat>, ats: seq<nat>, tail: Bytes)
    requires Fit(ns, ws) && Offsets(ats, ws, from) && TailAt(raw, from, PutNums(ns, ws, tail))
    ensures Lie(raw, ns, ws, ats, tail)
    decreases |ns|
  {
    if ns != [] {
      var inner := PutNums(ns[1..], ws[1..], tail);
      OneLies(raw, from, ns[0], ws[0], inner);
      NumsLie(raw, from + ws[0], ns[1..], ws[1..], ats[1..], tail);
      forall i | 0 <= i < |ns| ensures NumberAt(raw, ats[i], ws[i], ns[i]) {
        if i > 0 { assert NumberAt(raw, ats[1..][i - 1], ws[1..][i - 1], ns[1..][i - 1]); }
      }
    }
  }

  // Five numbers in a row.
  lemma FiveLie(raw: Bytes, from: nat, ns: seq<nat>, ws: seq<nat>, tail: Bytes)
    requires |ns| == 5 && Fit(ns, ws) && TailAt(raw, from, PutNums(ns, ws, tail))
    ensures NumberAt(raw, from, ws[0], ns[0]) && NumberAt(raw, from + ws[0], ws[1], ns[1])
    ensures NumberAt(raw, from + ws[0] + ws[1], ws[2], ns[2])
    ensures NumberAt(raw, from + ws[0] + ws[1] + ws[2], ws[3], ns[3])
    ensures NumberAt(raw, from + ws[0] + ws[1] + ws[2] + ws[3], ws[4], ns[4])
    ensures TailAt(raw, from + ws[0] + ws[1] + ws[2] + ws[3] + ws[4], tail)
  {
    var ats := [from, from + ws[0], from + ws[0] + ws[1], from + ws[0] + ws[1] + ws[2],
                from + ws[0] + ws[1] + ws[2] + ws[3], from + ws[0] + ws[1] + ws[2] + ws[3] + ws[4]];
    NumsLie(raw, from, ns, ws, ats, tail);
    assert ats[1] == from + ws[0] && ats[2] == ats[1] + ws[1] && ats[3] == ats[2] + ws[2] && ats[4] == ats[3] + ws[3];
  }

  // Numbers in two groups.
  lemma {:induction false} NumsJoin(a: seq<nat>, v: seq<nat>, b: seq<nat>, w: seq<nat>, tail: Bytes)
    requires |a| == |v| && |b| == |w|
    ensures PutNums(a + b, v + w, tail) == PutNums(a, v, PutNums(b, w, tail))
    decreases |a|
  {
    if a == [] {
      assert a + b == b && v + w == w;
    } else {
      NumsJoin(a[1..], v[1..], b, w, tail);
      assert (a + b)[1..] == a[1..] + b && (v + w)[1..] == v[1..] + w;
    }
  }

  // Fifteen numbers in three groups of five.
  lemma NumsJoinThree(a: seq<nat>, u: seq<nat>, b: seq<nat>, v: seq<nat>, c: seq<nat>, w: seq<nat>, tail: Bytes)
    requires |a| == |u| && |b| == |v| && |c| == |w|
    ensures PutNums(a + (b + c), u + (v + w), tail) == PutNums(a, u, PutNums(b, v, PutNums(c, w, tail)))
  {
    NumsJoin(a, u, b + c, v + w, tail);
    NumsJoin(b, v, c, w, tail);
  }

  lemma SelectionLayout(raw: Bytes, from: nat, v: Selection, tail: Bytes)
    requires v.Valid() && TailAt(raw, from, PutSelection(v, tail))
    ensures NumberAt(raw, from, 1, v.kind) && NumberAt(raw, from + 1, 4, v.item)
    ensures NumberAt(raw, from + 5, 4, v.x) && NumberAt(raw, from + 9, 4, v.y) && NumberAt(raw, from + 13, 4, v.z)
    ensures TailAt(raw, from + 17, tail)
  {
    RadixValues();
    var ns, ats := [v.kind, v.item, v.x, v.y, v.z], [from, from + 1, from + 5, from + 9, from + 13, from + 17];
    NumsLie(raw, from, ns, SELECTION_WIDTHS, ats, tail);
    assert ns[0] == v.kind && ns[1] == v.item && ns[2] == v.x && ns[3] == v.y && ns[4] == v.z;
  }

  // A withheld tile is one byte; a visible one has its attributes, and a building at the end where there is one.
  lemma TileLayout(raw: Bytes, from: nat, t: Tile, tail: Bytes)
    requires t.Valid() && TailAt(raw, from, PutTile(t, tail))
    ensures NumberAt(raw, from, 1, t.presence)
    ensures t.presence != 2 ==> TailAt(raw, from + 1, tail)
    ensures t.presence == 2 ==>
      && NumberAt(raw, from + 1, 4, t.tiletype) && NumberAt(raw, from + 5, 1, t.shape)
      && NumberAt(raw, from + 6, 1, t.liquid) && NumberAt(raw, from + 7, 1, t.dig)
        && NumberAt(raw, from + 8, 4, t.other)
      && NumberAt(raw, from + 12, 1, if t.occupied then 1 else 0)
      && NumberAt(raw, from + 13, 1, if t.building.Some? then 1 else 0)
      && (if t.building.None? then TailAt(raw, from + 14, tail)
          else NumberAt(raw, from + 14, 4, t.building.value) && TailAt(raw, from + 18, tail))
  {
    RadixValues();
    var rest := if t.presence != 2 then tail else PutNums(TileNums(t), TILE_WIDTHS, PutBuilding(t.building, tail));
    NumsLie(raw, from, [t.presence], [1], [from, from + 1], rest);
    assert [t.presence][0] == t.presence;
    if t.presence == 2 {
      VisibleTileLayout(raw, from + 1, t, tail);
      if t.building.Some? {
        NumsLie(raw, from + 14, [t.building.value], [4], [from + 14, from + 18], tail);
        assert [t.building.value][0] == t.building.value;
      }
    }
  }

  lemma VisibleTileLayout(raw: Bytes, from: nat, t: Tile, tail: Bytes)
    requires t.Valid() && TailAt(raw, from, PutNums(TileNums(t), TILE_WIDTHS, PutBuilding(t.building, tail)))
    ensures NumberAt(raw, from, 4, t.tiletype) && NumberAt(raw, from + 4, 1, t.shape)
    ensures NumberAt(raw, from + 5, 1, t.liquid) && NumberAt(raw, from + 6, 1, t.dig)
      && NumberAt(raw, from + 7, 4, t.other)
    ensures NumberAt(raw, from + 11, 1, if t.occupied then 1 else 0)
    ensures NumberAt(raw, from + 12, 1, if t.building.Some? then 1 else 0)
    ensures TailAt(raw, from + 13, PutBuilding(t.building, tail))
  {
    TileFits(t);
    var ns, rest := TileNums(t), PutBuilding(t.building, tail);
    var ats := [from, from + 4, from + 5, from + 6, from + 7, from + 11, from + 12, from + 13];
    NumsLie(raw, from, ns, TILE_WIDTHS, ats, rest);
    assert ns[0] == t.tiletype && ns[1] == t.shape && ns[2] == t.liquid && ns[3] == t.dig && ns[4] == t.other;
    assert ns[5] == Bit(t.occupied) && ns[6] == Bit(t.building.Some?);
  }

  // The place and type of a visible item, its make, and its state.
  function ItemPlace(i: Item): (n: seq<nat>) { [i.px, i.py, i.pz, i.kind, i.nativeType] }

  function ItemMake(i: Item): (n: seq<nat>)
    requires i.InRange()
  {
    [FromSigned(i.subtype), FromSigned(i.material), FromSigned(i.materialIndex), i.quality, i.wear]
  }

  function ItemState(i: Item): (n: seq<nat>) { [i.flags, i.refs, Bit(i.onGround), Bit(i.inJob), |i.jobs|] }

  lemma ItemJoined(i: Item, rest: Bytes)
    requires i.Valid()
    ensures PutNums(ItemNums(i), ITEM_WIDTHS, rest)
         == PutNums(ItemPlace(i), [4, 4, 4, 1, 4], PutNums(ItemMake(i), [4, 4, 4, 4, 4],
                    PutNums(ItemState(i), [4, 4, 1, 1, 1], rest)))
  {
    assert ItemNums(i) == ItemPlace(i) + (ItemMake(i) + ItemState(i));
    assert ITEM_WIDTHS == [4, 4, 4, 1, 4] + ([4, 4, 4, 4, 4] + [4, 4, 1, 1, 1]);
    NumsJoinThree(ItemPlace(i), [4, 4, 4, 1, 4], ItemMake(i), [4, 4, 4, 4, 4], ItemState(i), [4, 4, 1, 1, 1], rest);
  }

  lemma JobsFit(i: Item)
    requires i.Valid()
    ensures Fit(i.jobs, Fours(|i.jobs|))
  {
    RadixValues();
  }

  // A withheld item is one byte. A visible one has three groups of numbers, then its jobs and its tile.
  lemma ItemParts(raw: Bytes, from: nat, i: Item, tail: Bytes) returns (make: Bytes, state: Bytes, jobs: Bytes)
    requires i.Valid() && TailAt(raw, from, PutItem(i, tail))
    ensures NumberAt(raw, from, 1, i.presence)
    ensures i.presence != 2 ==> TailAt(raw, from + 1, tail)
    ensures i.presence == 2 ==> TailAt(raw, from + 1, PutNums(ItemPlace(i), [4, 4, 4, 1, 4], make))
    ensures make == PutNums(ItemMake(i), [4, 4, 4, 4, 4], state)
      && state == PutNums(ItemState(i), [4, 4, 1, 1, 1], jobs)
    ensures jobs == PutNums(i.jobs, Fours(|i.jobs|), PutTile(i.ground, tail))
  {
    RadixValues();
    jobs := PutNums(i.jobs, Fours(|i.jobs|), PutTile(i.ground, tail));
    state := PutNums(ItemState(i), [4, 4, 1, 1, 1], jobs);
    make := PutNums(ItemMake(i), [4, 4, 4, 4, 4], state);
    NumsLie(raw, from, [i.presence], [1], [from, from + 1],
            if i.presence != 2 then tail else PutNums(ItemNums(i), ITEM_WIDTHS, jobs));
    assert [i.presence][0] == i.presence;
    ItemJoined(i, jobs);
  }

  lemma ItemPlaceLayout(raw: Bytes, from: nat, i: Item, tail: Bytes) returns (make: Bytes, state: Bytes, jobs: Bytes)
    requires i.Valid() && i.presence == 2 && TailAt(raw, from, PutItem(i, tail))
    ensures NumberAt(raw, from, 1, 2)
    ensures NumberAt(raw, from + 1, 4, i.px) && NumberAt(raw, from + 5, 4, i.py) && NumberAt(raw, from + 9, 4, i.pz)
    ensures NumberAt(raw, from + 13, 1, i.kind) && NumberAt(raw, from + 14, 4, i.nativeType)
    ensures TailAt(raw, from + 18, make)
    ensures make == PutNums(ItemMake(i), [4, 4, 4, 4, 4], state)
      && state == PutNums(ItemState(i), [4, 4, 1, 1, 1], jobs)
    ensures jobs == PutNums(i.jobs, Fours(|i.jobs|), PutTile(i.ground, tail))
  {
    RadixValues();
    make, state, jobs := ItemParts(raw, from, i, tail);
    FiveLie(raw, from + 1, ItemPlace(i), [4, 4, 4, 1, 4], make);
  }

  lemma ItemPlaceEnd(raw: Bytes, from: nat, i: Item, tail: Bytes) returns (state: Bytes, jobs: Bytes)
    requires i.Valid() && i.presence == 2 && TailAt(raw, from, PutItem(i, tail))
    ensures TailAt(raw, from + 18, PutNums(ItemMake(i), [4, 4, 4, 4, 4], state))
    ensures state == PutNums(ItemState(i), [4, 4, 1, 1, 1], jobs)
    ensures jobs == PutNums(i.jobs, Fours(|i.jobs|), PutTile(i.ground, tail))
  {
    var make;
    make, state, jobs := ItemPlaceLayout(raw, from, i, tail);
  }

  lemma SignedWords(i: Item)
    requires i.InRange()
    ensures ItemMake(i)[0] == i.subtype % 0x1_0000_0000 && ItemMake(i)[1] == i.material % 0x1_0000_0000
    ensures ItemMake(i)[2] == i.materialIndex % 0x1_0000_0000
  {
  }

  // Signed words are in two's complement.
  lemma ItemMakeLayout(raw: Bytes, from: nat, i: Item, tail: Bytes) returns (state: Bytes, jobs: Bytes)
    requires i.Valid() && i.presence == 2 && TailAt(raw, from, PutItem(i, tail))
    ensures NumberAt(raw, from + 18, 4, i.subtype % 0x1_0000_0000)
      && NumberAt(raw, from + 22, 4, i.material % 0x1_0000_0000)
    ensures NumberAt(raw, from + 26, 4, i.materialIndex % 0x1_0000_0000)
    ensures NumberAt(raw, from + 30, 4, i.quality) && NumberAt(raw, from + 34, 4, i.wear)
    ensures TailAt(raw, from + 38, state) && state == PutNums(ItemState(i), [4, 4, 1, 1, 1], jobs)
    ensures jobs == PutNums(i.jobs, Fours(|i.jobs|), PutTile(i.ground, tail))
  {
    RadixValues();
    SignedWords(i);
    state, jobs := ItemPlaceEnd(raw, from, i, tail);
    FiveLie(raw, from + 18, ItemMake(i), [4, 4, 4, 4, 4], state);
  }

  lemma ItemStateLayout(raw: Bytes, from: nat, i: Item, tail: Bytes)
    requires i.Valid() && i.presence == 2 && TailAt(raw, from, PutItem(i, tail))
    ensures NumberAt(raw, from + 38, 4, i.flags) && NumberAt(raw, from + 42, 4, i.refs)
    ensures NumberAt(raw, from + 46, 1, if i.onGround then 1 else 0)
    ensures NumberAt(raw, from + 47, 1, if i.inJob then 1 else 0) && NumberAt(raw, from + 48, 1, |i.jobs|)
    ensures TailAt(raw, from + 49, PutNums(i.jobs, Fours(|i.jobs|), PutTile(i.ground, tail)))
  {
    RadixValues();
    var state, jobs := ItemMakeLayout(raw, from, i, tail);
    FiveLie(raw, from + 38, ItemState(i), [4, 4, 1, 1, 1], jobs);
  }

  lemma ItemJobsLayout(raw: Bytes, from: nat, i: Item, tail: Bytes)
    requires i.Valid() && i.presence == 2 && TailAt(raw, from, PutItem(i, tail))
    ensures forall k :: 0 <= k < |i.jobs| ==> NumberAt(raw, from + 49 + 4 * k, 4, i.jobs[k])
    ensures TailAt(raw, from + 49 + 4 * |i.jobs|, PutTile(i.ground, tail))
  {
    ItemStateEnd(raw, from, i, tail);
    JobsFit(i);
    JobsLayout(raw, from + 49, i.jobs, PutTile(i.ground, tail));
  }

  lemma ItemStateEnd(raw: Bytes, from: nat, i: Item, tail: Bytes)
    requires i.Valid() && i.presence == 2 && TailAt(raw, from, PutItem(i, tail))
    ensures TailAt(raw, from + 49, PutNums(i.jobs, Fours(|i.jobs|), PutTile(i.ground, tail)))
  {
    ItemStateLayout(raw, from, i, tail);
  }

  lemma JobsLayout(raw: Bytes, from: nat, jobs: seq<nat>, tail: Bytes)
    requires Fit(jobs, Fours(|jobs|)) && TailAt(raw, from, PutNums(jobs, Fours(|jobs|), tail))
    ensures forall k :: 0 <= k < |jobs| ==> NumberAt(raw, from + 4 * k, 4, jobs[k])
    ensures TailAt(raw, from + 4 * |jobs|, tail)
  {
    var ats := seq(|jobs| + 1, k requires 0 <= k <= |jobs| => from + 4 * k);
    NumsLie(raw, from, jobs, Fours(|jobs|), ats, tail);
    forall k | 0 <= k < |jobs| ensures NumberAt(raw, from + 4 * k, 4, jobs[k]) {
      assert NumberAt(raw, ats[k], Fours(|jobs|)[k], jobs[k]);
    }
  }

  // Two bytes of length and then the bytes.
  lemma FieldLayout(raw: Bytes, from: nat, b: Bytes, tail: Bytes)
    requires |b| < 0x1_0000 && TailAt(raw, from, PutField(b, tail))
    ensures NumberAt(raw, from, 2, |b|) && BytesAt(raw, from + 2, b) && TailAt(raw, from + 2 + |b|, tail)
  {
    RadixValues();
    NumsLie(raw, from, [|b|], [2], [from, from + 2], b + tail);
    assert [|b|][0] == |b|;
    SplitAt(raw, from + 2, b, tail);
  }

  lemma SplitAt(raw: Bytes, at: nat, b: Bytes, tail: Bytes)
    requires TailAt(raw, at, b + tail)
    ensures BytesAt(raw, at, b) && TailAt(raw, at + |b|, tail)
  {
    assert raw[at..at + |b|] == raw[at..][..|b|];
    assert raw[at + |b|..] == raw[at..][|b|..];
  }

  // A capture: the profile, ten counters, the folder, three flags, the selection, nine tiles and the item.
  lemma CaptureLayout(c: Capture)
    requires c.Valid()
    ensures var raw, f := Encode(c), |c.folder|;
            && BytesAt(raw, 0, [68, 70, 77, 66, 67, 48, 49, 57])
            && NumberAt(raw, 8, 8, c.generation) && NumberAt(raw, 16, 8, c.sequence) && NumberAt(raw, 24, 8, c.tick)
            && NumberAt(raw, 32, 4, c.site)
            && NumberAt(raw, 36, 4, c.dx) && NumberAt(raw, 40, 4, c.dy) && NumberAt(raw, 44, 4, c.dz)
            && NumberAt(raw, 48, 4, c.nextBuilding) && NumberAt(raw, 52, 4, c.nextJob)
            && NumberAt(raw, 56, 4, c.buildingCount)
            && NumberAt(raw, 60, 2, f) && BytesAt(raw, 62, c.folder)
            && NumberAt(raw, 62 + f, 1, if c.paused then 1 else 0)
            && NumberAt(raw, 63 + f, 1, if c.freeTile then 1 else 0)
            && NumberAt(raw, 64 + f, 1, if c.supported then 1 else 0)
            && TailAt(raw, 65 + f, PutSelection(c.selection, PutTiles(c.tiles, PutItem(c.item, []))))
  {
    CaptureFits(c);
    var flags := PutNums(FlagNums(c), FLAG_WIDTHS, PutScene(c, []));
    var raw := Encode(c);
    MagicLayout(raw, "DFMBC019", PutNums(CaptureNums(c), CAPTURE_WIDTHS, PutField(c.folder, flags)));
    CountersLayout(raw, c, PutField(c.folder, flags));
    FieldLayout(raw, 60, c.folder, flags);
    FlagsLayout(raw, 62 + |c.folder|, c, PutScene(c, []));
  }

  lemma MagicLayout(raw: Bytes, magic: string, tail: Bytes)
    requires |magic| == 8 && raw == Magic(magic) + tail
    ensures BytesAt(raw, 0, Magic(magic)) && TailAt(raw, 8, tail)
    ensures magic == "DFMBC019" ==> Magic(magic) == [68, 70, 77, 66, 67, 48, 49, 57]
    ensures magic == "DFMBI019" ==> Magic(magic) == [68, 70, 77, 66, 73, 48, 49, 57]
    ensures magic == "DFMBR019" ==> Magic(magic) == [68, 70, 77, 66, 82, 48, 49, 57]
  {
  }

  lemma CountersLayout(raw: Bytes, c: Capture, tail: Bytes)
    requires c.Valid() && TailAt(raw, 8, PutNums(CaptureNums(c), CAPTURE_WIDTHS, tail))
    ensures NumberAt(raw, 8, 8, c.generation) && NumberAt(raw, 16, 8, c.sequence) && NumberAt(raw, 24, 8, c.tick)
    ensures NumberAt(raw, 32, 4, c.site)
    ensures NumberAt(raw, 36, 4, c.dx) && NumberAt(raw, 40, 4, c.dy) && NumberAt(raw, 44, 4, c.dz)
    ensures NumberAt(raw, 48, 4, c.nextBuilding) && NumberAt(raw, 52, 4, c.nextJob)
      && NumberAt(raw, 56, 4, c.buildingCount)
    ensures TailAt(raw, 60, tail)
  {
    CaptureFits(c);
    var ns := CaptureNums(c);
    NumsLie(raw, 8, ns, CAPTURE_WIDTHS, [8, 16, 24, 32, 36, 40, 44, 48, 52, 56, 60], tail);
    assert ns[0] == c.generation && ns[1] == c.sequence && ns[2] == c.tick && ns[3] == c.site && ns[4] == c.dx;
    assert ns[5] == c.dy && ns[6] == c.dz && ns[7] == c.nextBuilding && ns[8] == c.nextJob && ns[9] == c.buildingCount;
  }

  lemma FlagsLayout(raw: Bytes, from: nat, c: Capture, tail: Bytes)
    requires c.Valid() && TailAt(raw, from, PutNums(FlagNums(c), FLAG_WIDTHS, tail))
    ensures NumberAt(raw, from, 1, if c.paused then 1 else 0)
    ensures NumberAt(raw, from + 1, 1, if c.freeTile then 1 else 0)
    ensures NumberAt(raw, from + 2, 1, if c.supported then 1 else 0)
    ensures TailAt(raw, from + 3, tail)
  {
    CaptureFits(c);
    var ns := FlagNums(c);
    NumsLie(raw, from, ns, FLAG_WIDTHS, [from, from + 1, from + 2, from + 3], tail);
    assert ns[0] == Bit(c.paused) && ns[1] == Bit(c.freeTile) && ns[2] == Bit(c.supported);
  }

  function TileSize(t: Tile): nat { if t.presence != 2 then 1 else if t.building.None? then 14 else 18 }

  function TilesSize(ts: seq<Tile>): nat { if ts == [] then 0 else TileSize(ts[0]) + TilesSize(ts[1..]) }

  // The tiles follow each other in order.
  lemma {:induction false} TilesLayout(raw: Bytes, from: nat, ts: seq<Tile>, k: nat, tail: Bytes)
    requires k <= |ts| && (forall i :: 0 <= i < |ts| ==> ts[i].Valid()) && TailAt(raw, from, PutTiles(ts, tail))
    ensures TailAt(raw, from + TilesSize(ts[..k]), PutTiles(ts[k..], tail))
    decreases k
  {
    if k == 0 {
      assert ts[..k] == [] && ts[k..] == ts;
    } else {
      TileLayout(raw, from, ts[0], PutTiles(ts[1..], tail));
      TilesLayout(raw, from + TileSize(ts[0]), ts[1..], k - 1, tail);
      assert ts[..k][1..] == ts[1..][..k - 1] && ts[1..][k - 1..] == ts[k..];
    }
  }

  // The place in a capture, behind the profile, the counters, a folder of f bytes and the flags.
  lemma SceneLayout(c: Capture)
    requires c.Valid()
    ensures var raw, f := Encode(c), |c.folder|;
            && NumberAt(raw, 65 + f, 1, c.selection.kind) && NumberAt(raw, 66 + f, 4, c.selection.item)
            && NumberAt(raw, 70 + f, 4, c.selection.x) && NumberAt(raw, 74 + f, 4, c.selection.y)
            && NumberAt(raw, 78 + f, 4, c.selection.z)
            && TailAt(raw, 82 + f, PutTiles(c.tiles, PutItem(c.item, [])))
  {
    FlagsEnd(c);
    SelectionLayout(Encode(c), 65 + |c.folder|, c.selection, PutTiles(c.tiles, PutItem(c.item, [])));
  }

  lemma FlagsEnd(c: Capture)
    requires c.Valid()
    ensures TailAt(Encode(c), 65 + |c.folder|, PutSelection(c.selection, PutTiles(c.tiles, PutItem(c.item, []))))
  {
    CaptureLayout(c);
  }

  // The tiles of a capture, and the item behind them.
  lemma CaptureTilesLayout(c: Capture, k: nat)
    requires c.Valid() && k < 9
    ensures var raw, at, item := Encode(c), 82 + |c.folder|, PutItem(c.item, []);
            && TailAt(raw, at + TilesSize(c.tiles[..k]), PutTile(c.tiles[k], PutTiles(c.tiles[k + 1..], item)))
            && TailAt(raw, at + TilesSize(c.tiles), item)
  {
    var at, item := 82 + |c.folder|, PutItem(c.item, []);
    SelectionEnd(c);
    TilesLayout(Encode(c), at, c.tiles, k, item);
    TilesLayout(Encode(c), at, c.tiles, 9, item);
    assert c.tiles[..9] == c.tiles && c.tiles[9..] == [];
    assert c.tiles[k..][0] == c.tiles[k] && c.tiles[k..][1..] == c.tiles[k + 1..];
  }

  lemma SelectionEnd(c: Capture)
    requires c.Valid()
    ensures TailAt(Encode(c), 82 + |c.folder|, PutTiles(c.tiles, PutItem(c.item, [])))
  {
    SceneLayout(c);
  }

  // What was registered, where, and in which state.
  function InsertionIds(i: Insertion): (n: seq<nat>) { [i.building, i.job, i.item, i.kind, i.x] }

  function InsertionPlace(i: Insertion): (n: seq<nat>)
    requires i.Valid()
  {
    [i.y, i.z, FromSigned(i.material), FromSigned(i.materialIndex), i.stage]
  }

  function InsertionState(i: Insertion): (n: seq<nat>) {
    [i.maxStage, Bit(i.linked), Bit(i.constructJob), Bit(i.exactItemLink), Bit(i.suspended)]
  }

  lemma InsertionJoined(i: Insertion)
    requires i.Valid()
    ensures EncodeInsertion(i) == Magic("DFMBI019") + PutNums(InsertionIds(i), [4, 4, 4, 1, 4],
      PutNums(InsertionPlace(i), [4, 4, 4, 4, 4], PutNums(InsertionState(i), [4, 1, 1, 1, 1], [])))
  {
    assert InsertionNums(i) == InsertionIds(i) + (InsertionPlace(i) + InsertionState(i));
    assert INSERTION_WIDTHS == [4, 4, 4, 1, 4] + ([4, 4, 4, 4, 4] + [4, 1, 1, 1, 1]);
    NumsJoinThree(InsertionIds(i), [4, 4, 4, 1, 4], InsertionPlace(i), [4, 4, 4, 4, 4],
                  InsertionState(i), [4, 1, 1, 1, 1], []);
  }

  lemma InsertionIdsLayout(raw: Bytes, i: Insertion, rest: Bytes)
    requires i.Valid() && TailAt(raw, 8, PutNums(InsertionIds(i), [4, 4, 4, 1, 4], rest))
    ensures NumberAt(raw, 8, 4, i.building) && NumberAt(raw, 12, 4, i.job) && NumberAt(raw, 16, 4, i.item)
    ensures NumberAt(raw, 20, 1, i.kind) && NumberAt(raw, 21, 4, i.x) && TailAt(raw, 25, rest)
  {
    RadixValues();
    FiveLie(raw, 8, InsertionIds(i), [4, 4, 4, 1, 4], rest);
  }

  lemma InsertionPlaceLayout(raw: Bytes, i: Insertion, rest: Bytes)
    requires i.Valid() && TailAt(raw, 25, PutNums(InsertionPlace(i), [4, 4, 4, 4, 4], rest))
    ensures NumberAt(raw, 25, 4, i.y) && NumberAt(raw, 29, 4, i.z) && NumberAt(raw, 33, 4, i.material % 0x1_0000_0000)
    ensures NumberAt(raw, 37, 4, i.materialIndex % 0x1_0000_0000) && NumberAt(raw, 41, 4, i.stage)
      && TailAt(raw, 45, rest)
  {
    RadixValues();
    FiveLie(raw, 25, InsertionPlace(i), [4, 4, 4, 4, 4], rest);
  }

  lemma InsertionStateLayout(raw: Bytes, i: Insertion, rest: Bytes)
    requires i.Valid() && TailAt(raw, 45, PutNums(InsertionState(i), [4, 1, 1, 1, 1], rest))
    ensures NumberAt(raw, 45, 4, i.maxStage) && NumberAt(raw, 49, 1, if i.linked then 1 else 0)
    ensures NumberAt(raw, 50, 1, if i.constructJob then 1 else 0)
      && NumberAt(raw, 51, 1, if i.exactItemLink then 1 else 0)
    ensures NumberAt(raw, 52, 1, if i.suspended then 1 else 0) && TailAt(raw, 53, rest)
  {
    RadixValues();
    FiveLie(raw, 45, InsertionState(i), [4, 1, 1, 1, 1], rest);
  }

  lemma InsertionLayout(i: Insertion)
    requires i.Valid()
    ensures var raw := EncodeInsertion(i);
            && BytesAt(raw, 0, [68, 70, 77, 66, 73, 48, 49, 57])
            && NumberAt(raw, 8, 4, i.building) && NumberAt(raw, 12, 4, i.job) && NumberAt(raw, 16, 4, i.item)
            && NumberAt(raw, 20, 1, i.kind)
            && NumberAt(raw, 21, 4, i.x) && NumberAt(raw, 25, 4, i.y) && NumberAt(raw, 29, 4, i.z)
            && NumberAt(raw, 33, 4, i.material % 0x1_0000_0000) && NumberAt(raw, 37, 4, i.materialIndex % 0x1_0000_0000)
            && NumberAt(raw, 41, 4, i.stage) && NumberAt(raw, 45, 4, i.maxStage)
            && NumberAt(raw, 49, 1, if i.linked then 1 else 0) && NumberAt(raw, 50, 1, if i.constructJob then 1 else 0)
            && NumberAt(raw, 51, 1, if i.exactItemLink then 1 else 0)
              && NumberAt(raw, 52, 1, if i.suspended then 1 else 0)
            && |raw| == 53
  {
    var state := PutNums(InsertionState(i), [4, 1, 1, 1, 1], []);
    var place := PutNums(InsertionPlace(i), [4, 4, 4, 4, 4], state);
    InsertionJoined(i);
    MagicLayout(EncodeInsertion(i), "DFMBI019", PutNums(InsertionIds(i), [4, 4, 4, 1, 4], place));
    InsertionIdsLayout(EncodeInsertion(i), i, place);
    InsertionPlaceLayout(EncodeInsertion(i), i, state);
    InsertionStateLayout(EncodeInsertion(i), i, []);
  }

  // The plan part of a record: the profile, the key, the capture, the digest and the token.
  ghost predicate PlanAt(raw: Bytes, f: PlanFields) {
    var k, n := |f.key|, |f.raw|;
    && BytesAt(raw, 0, [68, 70, 77, 66, 82, 48, 49, 57])
    && NumberAt(raw, 8, 2, k) && BytesAt(raw, 10, f.key)
    && NumberAt(raw, 10 + k, 2, n) && BytesAt(raw, 12 + k, f.raw)
    && BytesAt(raw, 12 + k + n, f.plan) && BytesAt(raw, 44 + k + n, f.token)
  }

  lemma PlanLayout(raw: Bytes, f: PlanFields, tail: Bytes)
    requires FieldsFit(f) && raw == PutFields(f, tail)
    ensures PlanAt(raw, f) && TailAt(raw, 60 + |f.key| + |f.raw|, tail)
  {
    var inner := f.plan + (f.token + tail);
    MagicLayout(raw, "DFMBR019", PutField(f.key, PutField(f.raw, inner)));
    FieldLayout(raw, 8, f.key, PutField(f.raw, inner));
    FieldLayout(raw, 10 + |f.key|, f.raw, inner);
    SplitAt(raw, 12 + |f.key| + |f.raw|, f.plan, f.token + tail);
    SplitAt(raw, 44 + |f.key| + |f.raw|, f.token, tail);
  }

  // Behind it, the four bytes of the outcome.
  ghost predicate OutcomeAt(raw: Bytes, f: PlanFields, r: Record) {
    var at := 60 + |f.key| + |f.raw|;
    && NumberAt(raw, at, 1, PhaseIndex(r.phase)) && NumberAt(raw, at + 1, 1, ReasonIndex(r.reason))
    && NumberAt(raw, at + 2, 1, if r.Attempted() then 1 else 0)
      && NumberAt(raw, at + 3, 1, if r.after.Some? then 1 else 0)
  }

  lemma OutcomeLayout(raw: Bytes, f: PlanFields, r: Record, rest: Bytes)
    requires FieldsFit(f) && raw == PutFields(f, PutNums(OutcomeNums(r), OUTCOME_WIDTHS, rest))
    ensures OutcomeAt(raw, f, r)
  {
    RadixValues();
    var ns, from := OutcomeNums(r), 60 + |f.key| + |f.raw|;
    PlanEnd(raw, f, PutNums(ns, OUTCOME_WIDTHS, rest));
    NumsLie(raw, from, ns, OUTCOME_WIDTHS, [from, from + 1, from + 2, from + 3, from + 4], rest);
    assert ns[0] == PhaseIndex(r.phase) && ns[1] == ReasonIndex(r.reason);
    assert ns[2] == Bit(r.Attempted()) && ns[3] == Bit(r.after.Some?);
  }

  lemma PlanEnd(raw: Bytes, f: PlanFields, tail: Bytes)
    requires FieldsFit(f) && raw == PutFields(f, tail)
    ensures TailAt(raw, 60 + |f.key| + |f.raw|, tail)
  {
    PlanLayout(raw, f, tail);
  }

  lemma SumLast(body: Bytes, sum: Bytes)
    requires |sum| == 32
    ensures var raw := body + sum; BytesAt(raw, |raw| - 32, sum) && raw[..|raw| - 32] == body
  {
  }

  lemma RecordParts(h: Sha, r: Record) returns (f: PlanFields, rest: Bytes)
    requires r.Valid()
    ensures f == PlanFields(r.plan.key, Encode(r.plan.before), PlanDigest(h, r.plan), Token(h, r.plan)) && FieldsFit(f)
    ensures EncodeRecord(h, r) == PutFields(f, PutNums(OutcomeNums(r), OUTCOME_WIDTHS, rest))
  {
    var sum := Digest(h, RECEIPT, Body(h, r, []));
    FieldsOfFit(h, r.plan);
    BodyAppend(h, r, sum);
    f, rest := FieldsOf(h, r.plan), PutEvidence(r, sum);
  }

  // A record begins with its plan, by key, capture, digest and token; then comes the outcome, before any evidence.
  lemma RecordLayout(h: Sha, r: Record)
    requires r.Valid()
    ensures var f := PlanFields(r.plan.key, Encode(r.plan.before), PlanDigest(h, r.plan), Token(h, r.plan));
            PlanAt(EncodeRecord(h, r), f) && OutcomeAt(EncodeRecord(h, r), f, r)
  {
    var f, rest := RecordParts(h, r);
    PlanLayout(EncodeRecord(h, r), f, PutNums(OutcomeNums(r), OUTCOME_WIDTHS, rest));
    OutcomeLayout(EncodeRecord(h, r), f, r, rest);
  }

  // It ends with the checksum of everything before it.
  lemma RecordSumLayout(h: Sha, r: Record)
    requires r.Valid()
    ensures var raw := EncodeRecord(h, r);
            |raw| >= 32 && BytesAt(raw, |raw| - 32, Digest(h, RECEIPT, raw[..|raw| - 32]))
  {
    SumLast(Body(h, r, []), Digest(h, RECEIPT, Body(h, r, [])));
  }
}
