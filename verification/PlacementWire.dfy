// scripts/build_placement_wire.py: captured values and their canonical encodings. Every
// reader accepts exactly the encodings of valid values and returns the value encoded.
module PlacementWire {
  import opened Common
  import opened ByteCodec

  const MAX_I32: nat := 0x7FFF_FFFF
  const MAX_U32: nat := 0xFFFF_FFFF
  const MAX_U64: nat := 0xFFFF_FFFF_FFFF_FFFF
  const MAX_TICK: nat := 0xFFFF_FFFF * 403200 + 403199
  const MAX_BUILDINGS: nat := 65536
  const MAX_CAPTURE_BYTES: nat := 2048
  const MAX_RECORD_BYTES: nat := 6144

  function Bit(b: bool): nat { if b then 1 else 0 }

  predicate SignedWord(v: int) { -0x8000_0000 <= v < 0x8000_0000 }

  // ---- Selection: which item goes where.

  datatype Selection = Selection(kind: nat, item: nat, x: nat, y: nat, z: nat) {
    predicate Valid() {
      1 <= kind <= 3 && item < MAX_I32 && 1 <= x <= 32766 && 1 <= y <= 32766 && z <= 32767
    }
  }

  const SELECTION_WIDTHS: seq<nat> := [1, 4, 4, 4, 4]

  function PutSelection(v: Selection, tail: Bytes): Bytes {
    PutNums([v.kind, v.item, v.x, v.y, v.z], SELECTION_WIDTHS, tail)
  }

  function GetSelection(s: Bytes): Parsed<Selection> {
    var (n, s1) :- GetNums(s, SELECTION_WIDTHS);
    if |n| != 5 then Fail else
      var v := Selection(n[0], n[1], n[2], n[3], n[4]);
      if v.Valid() then Ok(v, s1) else Fail
  }

  lemma SelectionRoundTrip(v: Selection, tail: Bytes)
    requires v.Valid()
    ensures GetSelection(PutSelection(v, tail)) == Ok(v, tail)
  {
    RadixValues();
    NumsRoundTrip([v.kind, v.item, v.x, v.y, v.z], SELECTION_WIDTHS, tail);
  }

  lemma SelectionExact(s: Bytes)
    requires GetSelection(s).Ok?
    ensures GetSelection(s).value.Valid() && s == PutSelection(GetSelection(s).value, GetSelection(s).rest)
  {
    NumsExact(s, SELECTION_WIDTHS);
    var n := GetNums(s, SELECTION_WIDTHS).value;
    assert n == [n[0], n[1], n[2], n[3], n[4]];
  }

  // ---- Tile: what is known of one map tile.

  datatype Tile = Tile(presence: nat, tiletype: nat, shape: nat, liquid: nat, dig: nat,
                       other: nat, occupied: bool, building: Option<nat>) {
    predicate Valid() {
      && presence <= 2 && tiletype <= MAX_I32 && shape <= 8 && liquid <= 7 && dig <= 7 && other <= MAX_U32
      && (building.Some? ==> building.value < MAX_I32)
      && (presence != 2 ==> this == Redacted(presence))
    }

    predicate Dry() { presence == 2 && liquid == 0 }

    predicate EmptyFloor() {
      Dry() && shape == 3 && dig == 0 && !occupied && building.None? && other == 0
    }
  }

  // A tile whose attributes are withheld.
  function Redacted(presence: nat): Tile { Tile(presence, 0, 0, 0, 0, 0, false, None) }

  const TILE_WIDTHS: seq<nat> := [4, 1, 1, 1, 4, 1, 1]

  // The numbers of a visible tile and the tile they stand for.
  function TileNums(t: Tile): (n: seq<nat>)
    ensures |n| == 7
  {
    [t.tiletype, t.shape, t.liquid, t.dig, t.other, Bit(t.occupied), Bit(t.building.Some?)]
  }

  function TileOf(n: seq<nat>, b: Option<nat>): Tile
    requires |n| == 7
  {
    Tile(2, n[0], n[1], n[2], n[3], n[4], n[5] == 1, b)
  }

  lemma TileNumsInverse(n: seq<nat>, b: Option<nat>)
    requires |n| == 7 && n[5] <= 1 && n[6] == Bit(b.Some?)
    ensures TileNums(TileOf(n, b)) == n
  {
  }

  lemma TileFits(t: Tile)
    requires t.Valid()
    ensures Fit(TileNums(t), TILE_WIDTHS)
  {
    RadixValues();
  }

  function PutBuilding(b: Option<nat>, tail: Bytes): Bytes {
    if b.None? then tail else PutNums([b.value], [4], tail)
  }

  function PutTile(t: Tile, tail: Bytes): Bytes {
    PutNums([t.presence], [1],
      if t.presence != 2 then tail else PutNums(TileNums(t), TILE_WIDTHS, PutBuilding(t.building, tail)))
  }

  function GetBuilding(s: Bytes, present: bool): Parsed<Option<nat>> {
    if !present then Ok(None, s) else
      var (n, s1) :- GetNums(s, [4]);
      if |n| != 1 then Fail else Ok(Some(n[0]), s1)
  }

  function GetVisibleTile(s: Bytes): Parsed<Tile> {
    var (n, s1) :- GetNums(s, TILE_WIDTHS);
    if |n| != 7 || n[5] > 1 || n[6] > 1 then Fail else
      var (b, s2) :- GetBuilding(s1, n[6] == 1);
      var t := TileOf(n, b);
      if t.Valid() then Ok(t, s2) else Fail
  }

  function GetTile(s: Bytes): Parsed<Tile> {
    var (p, s1) :- GetNums(s, [1]);
    if |p| != 1 || p[0] > 2 then Fail
    else if p[0] != 2 then Ok(Redacted(p[0]), s1)
    else GetVisibleTile(s1)
  }

  lemma BuildingRoundTrip(b: Option<nat>, tail: Bytes)
    requires b.Some? ==> b.value <= MAX_U32
    ensures GetBuilding(PutBuilding(b, tail), b.Some?) == Ok(b, tail)
  {
    RadixValues();
    if b.Some? { NumsRoundTrip([b.value], [4], tail); }
  }

  lemma VisibleTileRoundTrip(t: Tile, tail: Bytes)
    requires t.Valid() && t.presence == 2
    ensures GetVisibleTile(PutNums(TileNums(t), TILE_WIDTHS, PutBuilding(t.building, tail))) == Ok(t, tail)
  {
    TileFits(t);
    NumsRoundTrip(TileNums(t), TILE_WIDTHS, PutBuilding(t.building, tail));
    BuildingRoundTrip(t.building, tail);
  }

  lemma TileRoundTrip(t: Tile, tail: Bytes)
    requires t.Valid()
    ensures GetTile(PutTile(t, tail)) == Ok(t, tail)
  {
    RadixValues();
    if t.presence != 2 {
      NumsRoundTrip([t.presence], [1], tail);
    } else {
      NumsRoundTrip([2], [1], PutNums(TileNums(t), TILE_WIDTHS, PutBuilding(t.building, tail)));
      VisibleTileRoundTrip(t, tail);
    }
  }

  lemma BuildingExact(s: Bytes, present: bool)
    requires GetBuilding(s, present).Ok?
    ensures GetBuilding(s, present).value.Some? == present
    ensures s == PutBuilding(GetBuilding(s, present).value, GetBuilding(s, present).rest)
  {
    if present {
      NumsExact(s, [4]);
      assert GetNums(s, [4]).value == [GetNums(s, [4]).value[0]];
    }
  }

  lemma VisibleTileExact(s: Bytes)
    requires GetVisibleTile(s).Ok?
    ensures var t := GetVisibleTile(s);
            t.value.Valid() && t.value.presence == 2
            && s == PutNums(TileNums(t.value), TILE_WIDTHS, PutBuilding(t.value.building, t.rest))
  {
    NumsExact(s, TILE_WIDTHS);
    var q := GetNums(s, TILE_WIDTHS);
    BuildingExact(q.rest, q.value[6] == 1);
    TileNumsInverse(q.value, GetBuilding(q.rest, q.value[6] == 1).value);
  }

  lemma TileExact(s: Bytes)
    requires GetTile(s).Ok?
    ensures GetTile(s).value.Valid() && s == PutTile(GetTile(s).value, GetTile(s).rest)
  {
    NumsExact(s, [1]);
    var p := GetNums(s, [1]);
    assert p.value == [p.value[0]];
    if p.value[0] == 2 { VisibleTileExact(p.rest); }
  }

  lemma TileLength(t: Tile, tail: Bytes)
    ensures |PutTile(t, tail)| <= 18 + |tail|
  {
    var last := PutBuilding(t.building, tail);
    if t.building.Some? { NumsLength([t.building.value], [4], tail); }
    NumsLength(TileNums(t), TILE_WIDTHS, last);
    assert Total(TILE_WIDTHS) == 13;
    NumsLength([t.presence], [1], if t.presence != 2 then tail else PutNums(TileNums(t), TILE_WIDTHS, last));
  }

  // ---- Item: the furniture to be placed.

  datatype Item = Item(presence: nat, px: nat, py: nat, pz: nat, kind: nat, nativeType: nat,
                       subtype: int, material: int, materialIndex: int, quality: nat, wear: nat,
                       flags: nat, refs: nat, onGround: bool, inJob: bool, jobs: seq<nat>, ground: Tile) {

    predicate InRange() {
      && presence <= 2 && px <= 32767 && py <= 32767 && pz <= 32767 && kind <= 3
      && nativeType <= MAX_I32 && quality <= MAX_I32 && wear <= MAX_I32
      && SignedWord(subtype) && SignedWord(material) && SignedWord(materialIndex)
      && flags <= MAX_U32 && refs <= 4096
    }

    predicate JobsOk() {
      && |jobs| <= 8
      && (forall i :: 0 <= i < |jobs| ==> jobs[i] < MAX_I32)
      && (forall i :: 0 < i < |jobs| ==> jobs[i - 1] < jobs[i])
    }

    predicate Valid() {
      && InRange() && JobsOk() && ground.Valid()
      && (if presence != 2 then this == RedactedItem(presence) else ground.presence == 2)
    }

    // Only the two harmless flag bits 28 and 29 may be set on an item that can be used.
    predicate Available(wanted: nat) {
      && presence == 2 && kind == wanted && onGround && !inJob
      && flags % 0x1000_0000 == 0 && flags / 0x4000_0000 == 0
      && refs == 0 && jobs == [] && wear == 0 && material >= 0
      && ground.Dry() && ground.shape == 3 && !ground.occupied
    }
  }

  function RedactedItem(presence: nat): Item {
    Item(presence, 0, 0, 0, 0, 0, 0, 0, 0, 0, 0, 0, 0, false, false, [], Redacted(0))
  }

  const ITEM_WIDTHS: seq<nat> := [4, 4, 4, 1, 4, 4, 4, 4, 4, 4, 4, 4, 1, 1, 1]

  function ItemNums(i: Item): (n: seq<nat>)
    requires i.InRange()
    ensures |n| == 15
  {
    [i.px, i.py, i.pz, i.kind, i.nativeType, FromSigned(i.subtype), FromSigned(i.material), FromSigned(i.materialIndex),
     i.quality, i.wear, i.flags, i.refs, Bit(i.onGround), Bit(i.inJob), |i.jobs|]
  }

  function ItemOf(n: seq<nat>, jobs: seq<nat>, ground: Tile): Item
    requires |n| == 15
  {
    Item(2, n[0], n[1], n[2], n[3], n[4], ToSigned(n[5]), ToSigned(n[6]), ToSigned(n[7]),
         n[8], n[9], n[10], n[11], n[12] == 1, n[13] == 1, jobs, ground)
  }

  lemma ItemNumsInverse(n: seq<nat>, jobs: seq<nat>, ground: Tile)
    requires |n| == 15 && n[12] <= 1 && n[13] <= 1 && n[14] == |jobs| && ItemOf(n, jobs, ground).InRange()
    requires n[5] < I32_SPAN && n[6] < I32_SPAN && n[7] < I32_SPAN
    ensures ItemNums(ItemOf(n, jobs, ground)) == n
  {
    var i := ItemOf(n, jobs, ground);
    assert FromSigned(i.subtype) == n[5] && FromSigned(i.material) == n[6] && FromSigned(i.materialIndex) == n[7];
  }

  lemma ItemOfInverse(i: Item)
    requires i.InRange() && i.presence == 2
    ensures ItemOf(ItemNums(i), i.jobs, i.ground) == i
  {
    assert ToSigned(FromSigned(i.subtype)) == i.subtype;
    assert ToSigned(FromSigned(i.material)) == i.material;
    assert ToSigned(FromSigned(i.materialIndex)) == i.materialIndex;
  }

  lemma ItemFits(i: Item)
    requires i.Valid()
    ensures Fit(ItemNums(i), ITEM_WIDTHS)
  {
    RadixValues();
  }

  function Fours(n: nat): (w: seq<nat>)
    ensures |w| == n && forall i :: 0 <= i < n ==> w[i] == 4
  {
    seq(n, _ => 4)
  }

  function PutItem(i: Item, tail: Bytes): Bytes
    requires i.InRange()
  {
    PutNums([i.presence], [1], if i.presence != 2 then tail else
      PutNums(ItemNums(i), ITEM_WIDTHS, PutNums(i.jobs, Fours(|i.jobs|), PutTile(i.ground, tail))))
  }

  function GetVisibleItem(s: Bytes): Parsed<Item> {
    var (n, s1) :- GetNums(s, ITEM_WIDTHS);
    if |n| != 15 || n[12] > 1 || n[13] > 1 || n[14] > 8 then Fail else
      var (jobs, s2) :- GetNums(s1, Fours(n[14]));
      var (ground, s3) :- GetTile(s2);
      var i := ItemOf(n, jobs, ground);
      if i.Valid() then Ok(i, s3) else Fail
  }

  function GetItem(s: Bytes): Parsed<Item> {
    var (p, s1) :- GetNums(s, [1]);
    if |p| != 1 || p[0] > 2 then Fail
    else if p[0] != 2 then Ok(RedactedItem(p[0]), s1)
    else GetVisibleItem(s1)
  }

  lemma VisibleItemRoundTrip(i: Item, tail: Bytes)
    requires i.Valid() && i.presence == 2
    ensures GetVisibleItem(PutNums(ItemNums(i), ITEM_WIDTHS,
      PutNums(i.jobs, Fours(|i.jobs|), PutTile(i.ground, tail)))) == Ok(i, tail)
  {
    RadixValues();
    ItemFits(i);
    ItemOfInverse(i);
    NumsRoundTrip(ItemNums(i), ITEM_WIDTHS, PutNums(i.jobs, Fours(|i.jobs|), PutTile(i.ground, tail)));
    NumsRoundTrip(i.jobs, Fours(|i.jobs|), PutTile(i.ground, tail));
    TileRoundTrip(i.ground, tail);
  }

  lemma ItemRoundTrip(i: Item, tail: Bytes)
    requires i.Valid()
    ensures GetItem(PutItem(i, tail)) == Ok(i, tail)
  {
    RadixValues();
    if i.presence != 2 {
      NumsRoundTrip([i.presence], [1], tail);
    } else {
      NumsRoundTrip([2], [1], PutNums(ItemNums(i), ITEM_WIDTHS,
        PutNums(i.jobs, Fours(|i.jobs|), PutTile(i.ground, tail))));
      VisibleItemRoundTrip(i, tail);
    }
  }

  lemma VisibleItemExact(s: Bytes)
    requires GetVisibleItem(s).Ok?
    ensures var i := GetVisibleItem(s);
            i.value.Valid() && i.value.presence == 2
            && s == PutNums(ItemNums(i.value), ITEM_WIDTHS, PutNums(i.value.jobs, Fours(|i.value.jobs|),
              PutTile(i.value.ground, i.rest)))
  {
    RadixValues();
    NumsExact(s, ITEM_WIDTHS);
    var p := GetNums(s, ITEM_WIDTHS);
    var n := p.value;
    assert n[5] < Radix(ITEM_WIDTHS[5]) && n[6] < Radix(ITEM_WIDTHS[6]) && n[7] < Radix(ITEM_WIDTHS[7]);
    NumsExact(p.rest, Fours(n[14]));
    var q := GetNums(p.rest, Fours(n[14]));
    TileExact(q.rest);
    ItemNumsInverse(n, q.value, GetTile(q.rest).value);
  }

  lemma ItemExact(s: Bytes)
    requires GetItem(s).Ok?
    ensures GetItem(s).value.Valid() && s == PutItem(GetItem(s).value, GetItem(s).rest)
  {
    NumsExact(s, [1]);
    var p := GetNums(s, [1]);
    assert p.value == [p.value[0]];
    if p.value[0] == 2 { VisibleItemExact(p.rest); }
  }

  lemma ItemTailLength(i: Item, tail: Bytes)
    requires i.Valid()
    ensures |PutNums(i.jobs, Fours(|i.jobs|), PutTile(i.ground, tail))| <= 50 + |tail|
  {
    TileLength(i.ground, tail);
    TotalAtMost(Fours(|i.jobs|), 4);
    NumsLength(i.jobs, Fours(|i.jobs|), PutTile(i.ground, tail));
  }

  lemma ItemWidthsTotal()
    ensures Total(ITEM_WIDTHS) == 48
  {
    TotalSplit([4, 4, 4, 1, 4], [4, 4, 4, 4, 4, 4, 4, 1, 1, 1]);
    TotalSplit([4, 4, 4, 4, 4], [4, 4, 1, 1, 1]);
    assert ITEM_WIDTHS == [4, 4, 4, 1, 4] + ([4, 4, 4, 4, 4] + [4, 4, 1, 1, 1]);
    FiveTotals();
  }

  lemma VisibleItemLength(i: Item, rest: Bytes)
    requires i.Valid()
    ensures |PutNums(ItemNums(i), ITEM_WIDTHS, rest)| == 48 + |rest|
  {
    ItemWidthsTotal();
    NumsLength(ItemNums(i), ITEM_WIDTHS, rest);
  }

  lemma ItemLength(i: Item, tail: Bytes)
    requires i.Valid()
    ensures |PutItem(i, tail)| <= 99 + |tail|
  {
    var rest := PutNums(i.jobs, Fours(|i.jobs|), PutTile(i.ground, tail));
    ItemTailLength(i, tail);
    VisibleItemLength(i, rest);
    PresenceLength(i.presence, if i.presence != 2 then tail else PutNums(ItemNums(i), ITEM_WIDTHS, rest));
  }

  lemma PresenceLength(p: nat, tail: Bytes)
    ensures |PutNums([p], [1], tail)| == 1 + |tail|
  {
    NumsLength([p], [1], tail);
  }

  // ---- The three values on their own: bounded input and no trailing bytes.

  function Alone<T>(p: Parsed<T>): Option<T> { if p.Ok? && p.rest == [] then Some(p.value) else None }

  function DecodeSelection(raw: Bytes): Option<Selection> { if |raw| > 17 then None else Alone(GetSelection(raw)) }

  function DecodeTile(raw: Bytes): Option<Tile> { if |raw| > 18 then None else Alone(GetTile(raw)) }

  function DecodeItem(raw: Bytes): Option<Item> { if |raw| > 100 then None else Alone(GetItem(raw)) }

  lemma SelectionLength(v: Selection)
    ensures |PutSelection(v, [])| == 17
  {
    NumsLength([v.kind, v.item, v.x, v.y, v.z], SELECTION_WIDTHS, []);
    assert Total(SELECTION_WIDTHS) == 17;
  }

  // Decoding accepts exactly the encodings of valid selections, and the limit never bites.
  lemma DecodeSelectionExact(raw: Bytes)
    ensures forall v: Selection :: v.Valid() && raw == PutSelection(v, []) ==> DecodeSelection(raw) == Some(v)
    ensures DecodeSelection(raw).Some? ==>
      DecodeSelection(raw).value.Valid() && raw == PutSelection(DecodeSelection(raw).value, [])
  {
    forall v: Selection | v.Valid() && raw == PutSelection(v, []) ensures DecodeSelection(raw) == Some(v) {
      SelectionRoundTrip(v, []);
      SelectionLength(v);
    }
    if DecodeSelection(raw).Some? { SelectionExact(raw); }
  }

  lemma DecodeTileExact(raw: Bytes)
    ensures forall t: Tile :: t.Valid() && raw == PutTile(t, []) ==> DecodeTile(raw) == Some(t)
    ensures DecodeTile(raw).Some? ==> DecodeTile(raw).value.Valid() && raw == PutTile(DecodeTile(raw).value, [])
  {
    forall t: Tile | t.Valid() && raw == PutTile(t, []) ensures DecodeTile(raw) == Some(t) {
      TileRoundTrip(t, []);
      TileLength(t, []);
    }
    if DecodeTile(raw).Some? { TileExact(raw); }
  }

  lemma DecodeItemExact(raw: Bytes)
    ensures forall i: Item :: i.Valid() && raw == PutItem(i, []) ==> DecodeItem(raw) == Some(i)
    ensures DecodeItem(raw).Some? ==> DecodeItem(raw).value.Valid() && raw == PutItem(DecodeItem(raw).value, [])
  {
    forall i: Item | i.Valid() && raw == PutItem(i, []) ensures DecodeItem(raw) == Some(i) {
      ItemRoundTrip(i, []);
      ItemLength(i, []);
    }
    if DecodeItem(raw).Some? { ItemExact(raw); }
  }
}
