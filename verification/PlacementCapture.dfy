// Captures: one complete observation, when it permits a placement, and what must follow.
module PlacementCapture {
  import opened Common
  import opened ByteCodec
  import opened PlacementWire

  datatype Capture = Capture(generation: nat, sequence: nat, tick: nat, site: nat, dx: nat, dy: nat, dz: nat,
                             nextBuilding: nat, nextJob: nat, buildingCount: nat, folder: Bytes,
                             paused: bool, freeTile: bool, supported: bool,
                             selection: Selection, tiles: seq<Tile>, item: Item) {

    predicate CountersOk() {
      && 1 <= generation <= MAX_U64 - 1 && sequence <= MAX_U64 - 1 && tick <= MAX_TICK
      && site <= MAX_I32 && nextBuilding <= MAX_I32 && nextJob <= MAX_I32 && buildingCount <= MAX_BUILDINGS
      && 1 <= dx <= 32768 && 1 <= dy <= 32768 && 1 <= dz <= 32768
    }

    predicate PlacesOk() {
      && selection.x + 1 < dx && selection.y + 1 < dy && selection.z < dz
      && (item.presence == 2 ==> item.px < dx && item.py < dy && item.pz < dz)
    }

    predicate Valid() {
      && CountersOk() && ValidText(folder, 512)
      && selection.Valid() && |tiles| == 9 && (forall i :: 0 <= i < 9 ==> tiles[i].Valid()) && item.Valid()
      && PlacesOk()
    }

    // The conditions under which a placement may be planned from this capture.
    predicate Eligible() {
      && paused && freeTile && supported
      && sequence < MAX_U64 - 1 && nextBuilding < MAX_I32 && nextJob < MAX_I32 && buildingCount < MAX_BUILDINGS
      && |tiles| == 9 && tiles[4].EmptyFloor()
      && (forall i :: 0 <= i < 9 ==> tiles[i].presence == 2)
      && (forall i :: 0 <= i < 9 ==> tiles[i].presence != 2 || tiles[i].liquid == 0)
      && (tiles[1].EmptyFloor() || tiles[3].EmptyFloor() || tiles[5].EmptyFloor() || tiles[7].EmptyFloor())
      && item.Available(selection.kind)
    }

    // The only capture that may follow a placement.
    function ExpectedAfter(): Capture
      requires |tiles| == 9
    {
      this.(sequence := sequence + 1, nextBuilding := nextBuilding + 1, nextJob := nextJob + 1,
            buildingCount := buildingCount + 1, freeTile := false,
            tiles := tiles[4 := tiles[4].(occupied := true, building := Some(nextBuilding))],
            item := item.(inJob := true, jobs := [nextJob]))
    }
  }

  predicate ValidText(b: Bytes, max: nat) {
    1 <= |b| <= max && 0 !in b
  }

  // An eligible capture is followed by a valid one of the same place and incarnation, in
  // which the target is taken and no further placement is possible.
  lemma ExpectedAfterValid(c: Capture)
    requires c.Valid() && c.Eligible()
    ensures c.ExpectedAfter().Valid() && !c.ExpectedAfter().Eligible()
    ensures c.ExpectedAfter() != c
  {
    var a := c.ExpectedAfter();
    forall i | 0 <= i < 9 ensures a.tiles[i].Valid() {
      assert c.tiles[i].Valid();
    }
    assert a.item.JobsOk() && a.item.InRange();
  }

  const CAPTURE_WIDTHS: seq<nat> := [8, 8, 8, 4, 4, 4, 4, 4, 4, 4]
  const FLAG_WIDTHS: seq<nat> := [1, 1, 1]

  function CaptureNums(c: Capture): (n: seq<nat>)
    ensures |n| == 10
  {
    [c.generation, c.sequence, c.tick, c.site, c.dx, c.dy, c.dz, c.nextBuilding, c.nextJob, c.buildingCount]
  }

  function FlagNums(c: Capture): (n: seq<nat>)
    ensures |n| == 3
  {
    [Bit(c.paused), Bit(c.freeTile), Bit(c.supported)]
  }

  function CaptureOf(n: seq<nat>, folder: Bytes, f: seq<nat>, selection: Selection, tiles: seq<Tile>,
                     item: Item): Capture
    requires |n| == 10 && |f| == 3
  {
    Capture(n[0], n[1], n[2], n[3], n[4], n[5], n[6], n[7], n[8], n[9], folder, f[0] == 1, f[1] == 1, f[2] == 1,
            selection, tiles, item)
  }

  function Magic(s: string): Bytes { Ascii(s) }

  function PutTiles(ts: seq<Tile>, tail: Bytes): Bytes { PutMany(PutTile, ts, tail) }

  function GetTiles(s: Bytes): Parsed<seq<Tile>> { GetMany(GetTile, s, 9) }

  lemma TilesRoundTrip(ts: seq<Tile>, tail: Bytes)
    requires |ts| == 9 && forall i :: 0 <= i < 9 ==> ts[i].Valid()
    ensures GetTiles(PutTiles(ts, tail)) == Ok(ts, tail)
  {
    forall i, s | 0 <= i < |ts| ensures GetTile(PutTile(ts[i], s)) == Ok(ts[i], s) { TileRoundTrip(ts[i], s); }
    ManyRoundTrip(PutTile, GetTile, ts, tail);
  }

  lemma TilesExact(s: Bytes)
    requires GetTiles(s).Ok?
    ensures var ts := GetTiles(s);
            |ts.value| == 9 && (forall i :: 0 <= i < 9 ==> ts.value[i].Valid()) && s == PutTiles(ts.value, ts.rest)
  {
    var valid := (t: Tile) => t.Valid();
    forall b | GetTile(b).Ok? ensures valid(GetTile(b).value)
      && b == PutTile(GetTile(b).value, GetTile(b).rest) { TileExact(b); }
    ManyExact(PutTile, GetTile, valid, s, 9);
  }

  lemma TilesLength(ts: seq<Tile>, tail: Bytes)
    requires |ts| == 9
    ensures |PutTiles(ts, tail)| <= 162 + |tail|
  {
    forall t, s ensures |PutTile(t, s)| <= 18 + |s| { TileLength(t, s); }
    ManyLength(PutTile, ts, tail, 18);
  }

  // The captured place: selection, surrounding tiles and item.
  function PutScene(c: Capture, tail: Bytes): Bytes
    requires c.item.InRange()
  {
    PutSelection(c.selection, PutTiles(c.tiles, PutItem(c.item, tail)))
  }

  function GetScene(s: Bytes): Parsed<(Selection, seq<Tile>, Item)> {
    var (selection, s1) :- GetSelection(s);
    var (tiles, s2) :- GetTiles(s1);
    var (item, s3) :- GetItem(s2);
    Ok((selection, tiles, item), s3)
  }

  // The counters, the folder and the three flags that come first.
  function PutHead(n: seq<nat>, folder: Bytes, f: seq<nat>, tail: Bytes): Bytes
    requires |n| == 10 && |f| == 3
  {
    Magic("DFMBC019") + PutNums(n, CAPTURE_WIDTHS, PutField(folder, PutNums(f, FLAG_WIDTHS, tail)))
  }

  function GetHead(s: Bytes): Parsed<(seq<nat>, Bytes, seq<nat>)> {
    var (magic, s0) :- GetBytes(s, 8);
    if magic != Magic("DFMBC019") then Fail else
      var (n, s1) :- GetNums(s0, CAPTURE_WIDTHS);
      var (folder, s2) :- GetField(s1, 512);
      var (f, s3) :- GetNums(s2, FLAG_WIDTHS);
      if 0 in folder || |n| != 10 || |f| != 3 || f[0] > 1 || f[1] > 1 || f[2] > 1 then Fail else Ok((n, folder, f), s3)
  }

  lemma HeadRoundTrip(n: seq<nat>, folder: Bytes, f: seq<nat>, tail: Bytes)
    requires Fit(n, CAPTURE_WIDTHS) && Fit(f, FLAG_WIDTHS) && ValidText(folder, 512)
    requires |n| == 10 && |f| == 3 && f[0] <= 1 && f[1] <= 1 && f[2] <= 1
    ensures GetHead(PutHead(n, folder, f, tail)) == Ok((n, folder, f), tail)
  {
    var s2 := PutNums(f, FLAG_WIDTHS, tail);
    var s1 := PutField(folder, s2);
    BytesRoundTrip(Magic("DFMBC019"), PutNums(n, CAPTURE_WIDTHS, s1));
    NumsRoundTrip(n, CAPTURE_WIDTHS, s1);
    FieldRoundTrip(folder, 512, s2);
    NumsRoundTrip(f, FLAG_WIDTHS, tail);
  }

  lemma HeadExact(s: Bytes)
    requires GetHead(s).Ok?
    ensures var h := GetHead(s);
            |h.value.0| == 10 && |h.value.2| == 3 && h.value.2[0] <= 1 && h.value.2[1] <= 1 && h.value.2[2] <= 1
            && s == PutHead(h.value.0, h.value.1, h.value.2, h.rest)
  {
    BytesExact(s, 8);
    var s0 := GetBytes(s, 8).rest;
    NumsExact(s0, CAPTURE_WIDTHS);
    var s1 := GetNums(s0, CAPTURE_WIDTHS).rest;
    FieldExact(s1, 512);
    NumsExact(GetField(s1, 512).rest, FLAG_WIDTHS);
  }

  lemma HeadLength(n: seq<nat>, folder: Bytes, f: seq<nat>, tail: Bytes)
    requires |n| == 10 && |f| == 3 && |folder| <= 512
    ensures |PutHead(n, folder, f, tail)| <= 605 + |tail|
  {
    TotalAtMost(FLAG_WIDTHS, 1);
    TotalAtMost(CAPTURE_WIDTHS, 8);
    var s2 := PutNums(f, FLAG_WIDTHS, tail);
    NumsLength(f, FLAG_WIDTHS, tail);
    FieldLength(folder, s2);
    NumsLength(n, CAPTURE_WIDTHS, PutField(folder, s2));
  }

  function Encode(c: Capture): Bytes
    requires c.item.InRange()
  {
    PutHead(CaptureNums(c), c.folder, FlagNums(c), PutScene(c, []))
  }

  // The field readers and the constructor, without the final comparison.
  function ReadFields(s: Bytes): Parsed<Capture> {
    var (head, s1) :- GetHead(s);
    var (scene, s2) :- GetScene(s1);
    if |head.0| != 10 || |head.2| != 3 then Fail else
      var c := CaptureOf(head.0, head.1, head.2, scene.0, scene.1, scene.2);
      if c.Valid() then Ok(c, s2) else Fail
  }

  // Decoding as the source does it: bounded input, no trailing bytes, and a re-encoding check.
  function Decode(raw: Bytes): Option<Capture> {
    if |raw| > MAX_CAPTURE_BYTES then None else
      match ReadFields(raw)
      case Fail => None
      case Ok(c, rest) => if rest == [] && c.item.InRange() && Encode(c) == raw then Some(c) else None
  }

  lemma SceneRoundTrip(c: Capture, tail: Bytes)
    requires c.Valid()
    ensures GetScene(PutScene(c, tail)) == Ok((c.selection, c.tiles, c.item), tail)
  {
    SelectionRoundTrip(c.selection, PutTiles(c.tiles, PutItem(c.item, tail)));
    TilesRoundTrip(c.tiles, PutItem(c.item, tail));
    ItemRoundTrip(c.item, tail);
  }

  lemma SceneExact(s: Bytes, c: Capture)
    requires GetScene(s).Ok? && GetScene(s).value == (c.selection, c.tiles, c.item)
    ensures c.item.InRange() && s == PutScene(c, GetScene(s).rest)
  {
    SelectionExact(s);
    var a := GetSelection(s);
    TilesExact(a.rest);
    var b := GetTiles(a.rest);
    ItemExact(b.rest);
  }

  lemma CaptureFits(c: Capture)
    requires c.Valid()
    ensures Fit(CaptureNums(c), CAPTURE_WIDTHS) && Fit(FlagNums(c), FLAG_WIDTHS)
  {
    RadixValues();
  }

  lemma ReadFieldsRoundTrip(c: Capture)
    requires c.Valid()
    ensures ReadFields(Encode(c)) == Ok(c, [])
  {
    CaptureFits(c);
    HeadRoundTrip(CaptureNums(c), c.folder, FlagNums(c), PutScene(c, []));
    SceneRoundTrip(c, []);
  }

  lemma CaptureNumsInverse(n: seq<nat>, folder: Bytes, f: seq<nat>, selection: Selection, tiles: seq<Tile>, item: Item)
    requires |n| == 10 && |f| == 3 && f[0] <= 1 && f[1] <= 1 && f[2] <= 1
    ensures CaptureNums(CaptureOf(n, folder, f, selection, tiles, item)) == n
    ensures FlagNums(CaptureOf(n, folder, f, selection, tiles, item)) == f
  {
  }

  // The re-encoding check never rejects what the readers and the constructor accepted.
  lemma ReadFieldsExact(s: Bytes)
    requires ReadFields(s).Ok? && ReadFields(s).rest == []
    ensures ReadFields(s).value.Valid() && s == Encode(ReadFields(s).value)
  {
    HeadExact(s);
    var head := GetHead(s);
    var scene := GetScene(head.rest);
    CaptureNumsInverse(head.value.0, head.value.1, head.value.2, scene.value.0, scene.value.1, scene.value.2);
    SceneExact(head.rest, ReadFields(s).value);
  }

  // The size limit is never reached by a valid capture.
  lemma EncodeLength(c: Capture)
    requires c.Valid()
    ensures |Encode(c)| <= 900
  {
    SceneLength(c);
    HeadLength(CaptureNums(c), c.folder, FlagNums(c), PutScene(c, []));
  }

  lemma SceneLength(c: Capture)
    requires c.Valid()
    ensures |PutScene(c, [])| <= 293
  {
    ItemLength(c.item, []);
    TilesLength(c.tiles, PutItem(c.item, []));
    var rest := PutTiles(c.tiles, PutItem(c.item, []));
    TotalAtMost(SELECTION_WIDTHS, 4);
    NumsLength([c.selection.kind, c.selection.item, c.selection.x, c.selection.y, c.selection.z],
               SELECTION_WIDTHS, rest);
  }

  // Decoding accepts exactly the encodings of valid captures and inverts them.
  lemma DecodeExact(raw: Bytes)
    ensures forall c: Capture :: c.Valid() && raw == Encode(c) ==> Decode(raw) == Some(c)
    ensures Decode(raw).Some? ==> Decode(raw).value.Valid() && raw == Encode(Decode(raw).value)
    ensures Decode(raw).Some? <==> |raw| <= MAX_CAPTURE_BYTES && ReadFields(raw).Ok? && ReadFields(raw).rest == []
  {
    forall c: Capture | c.Valid() && raw == Encode(c) ensures Decode(raw) == Some(c) {
      ReadFieldsRoundTrip(c);
      EncodeLength(c);
    }
    if ReadFields(raw).Ok? && ReadFields(raw).rest == [] { ReadFieldsExact(raw); }
  }

  lemma EncodeInjective(c: Capture, d: Capture)
    requires c.Valid() && d.Valid() && Encode(c) == Encode(d)
    ensures c == d
  {
    ReadFieldsRoundTrip(c);
    ReadFieldsRoundTrip(d);
  }
}
