// The reader with a moving offset, refining the pure readers of the wire format.
module PlacementReader {
  import opened Common
  import opened ByteCodec
  import opened PlacementWire
  import opened PlacementCapture

  // A read that fails, or yields the parsed value and leaves the parsed rest.
  ghost predicate Reads<T>(p: Parsed<T>, result: Option<T>, rest: Bytes) {
    match p
    case Fail => result == None
    case Ok(v, s) => result == Some(v) && rest == s
  }

  class Reader {
    const raw: Bytes
    var offset: nat

    ghost predicate Valid()
      reads this
    {
      offset <= |raw|
    }

    ghost function Rest(): Bytes
      reads this
      requires Valid()
    {
      raw[offset..]
    }

    constructor (raw: Bytes)
      ensures Valid() && this.raw == raw && Rest() == raw
    {
      this.raw := raw;
      offset := 0;
    }

    method Take(size: nat) returns (b: Option<Bytes>)
      requires Valid()
      modifies this
      ensures Valid() && Reads(GetBytes(old(Rest()), size), b, Rest())
    {
      if size > |raw| - offset { return None; }
      var start := offset;
      offset := offset + size;
      assert raw[start..][..size] == raw[start..offset] && raw[start..][size..] == raw[offset..];
      b := Some(raw[start..offset]);
    }

    method Number(width: nat) returns (n: Option<nat>)
      requires Valid()
      modifies this
      ensures Valid() && Reads(GetNum(old(Rest()), width), n, Rest())
    {
      var b := Take(width);
      n := match b case None => None case Some(bytes) => Some(FromBigEndian(bytes));
    }

    // Several numbers one after the other.
    method Numbers(widths: seq<nat>) returns (ns: Option<seq<nat>>)
      requires Valid()
      modifies this
      ensures Valid() && Reads(GetNums(old(Rest()), widths), ns, Rest())
    {
      ghost var all := Rest();
      var read: seq<nat> := [];
      assert widths[0..] == widths;
      PrefixedNone(GetNums(all, widths));
      for i := 0 to |widths|
        invariant Valid() && |read| == i
        invariant GetNums(all, widths) == Prefixed(read, GetNums(Rest(), widths[i..]))
      {
        assert widths[i..][0] == widths[i] && widths[i..][1..] == widths[i + 1..];
        NumsAdvance(read, Rest(), widths[i..]);
        var n := Number(widths[i]);
        if n.None? { return None; }
        read := read + [n.value];
      }
      assert widths[|widths|..] == [] && read + [] == read;
      ns := Some(read);
    }

    method Bounded(max: nat) returns (b: Option<Bytes>)
      requires Valid()
      modifies this
      ensures Valid() && Reads(GetField(old(Rest()), max), b, Rest())
    {
      var n := Numbers([2]);
      if n.None? || |n.value| != 1 || n.value[0] < 1 || n.value[0] > max { return None; }
      b := Take(n.value[0]);
    }

    method Finish() returns (ok: bool)
      requires Valid()
      ensures ok <==> Rest() == []
    {
      ok := offset == |raw|;
    }

    method ReadSelection() returns (v: Option<Selection>)
      requires Valid()
      modifies this
      ensures Valid() && Reads(GetSelection(old(Rest())), v, Rest())
    {
      var n := Numbers(SELECTION_WIDTHS);
      if n.None? || |n.value| != 5 { return None; }
      var s := Selection(n.value[0], n.value[1], n.value[2], n.value[3], n.value[4]);
      v := if s.Valid() then Some(s) else None;
    }

    method ReadVisibleTile() returns (v: Option<Tile>)
      requires Valid()
      modifies this
      ensures Valid() && Reads(GetVisibleTile(old(Rest())), v, Rest())
    {
      var n := Numbers(TILE_WIDTHS);
      if n.None? || |n.value| != 7 || n.value[5] > 1 || n.value[6] > 1 { return None; }
      var building: Option<nat> := None;
      if n.value[6] == 1 {
        var b := Numbers([4]);
        if b.None? || |b.value| != 1 { return None; }
        building := Some(b.value[0]);
      }
      var t := TileOf(n.value, building);
      v := if t.Valid() then Some(t) else None;
    }

    method ReadTile() returns (v: Option<Tile>)
      requires Valid()
      modifies this
      ensures Valid() && Reads(GetTile(old(Rest())), v, Rest())
    {
      var p := Numbers([1]);
      if p.None? || |p.value| != 1 || p.value[0] > 2 { return None; }
      if p.value[0] != 2 { return Some(Redacted(p.value[0])); }
      v := ReadVisibleTile();
    }

    method ReadVisibleItem() returns (v: Option<Item>)
      requires Valid()
      modifies this
      ensures Valid() && Reads(GetVisibleItem(old(Rest())), v, Rest())
    {
      var n := Numbers(ITEM_WIDTHS);
      if n.None? || |n.value| != 15 || n.value[12] > 1 || n.value[13] > 1 || n.value[14] > 8 { return None; }
      var jobs := Numbers(Fours(n.value[14]));
      if jobs.None? { return None; }
      var ground := ReadTile();
      if ground.None? { return None; }
      var i := ItemOf(n.value, jobs.value, ground.value);
      v := if i.Valid() then Some(i) else None;
    }

    method ReadItem() returns (v: Option<Item>)
      requires Valid()
      modifies this
      ensures Valid() && Reads(GetItem(old(Rest())), v, Rest())
    {
      var p := Numbers([1]);
      if p.None? || |p.value| != 1 || p.value[0] > 2 { return None; }
      if p.value[0] != 2 { return Some(RedactedItem(p.value[0])); }
      v := ReadVisibleItem();
    }

    // Several tiles one after the other.
    method ReadTiles(n: nat) returns (ts: Option<seq<Tile>>)
      requires Valid()
      modifies this
      ensures Valid() && Reads(GetMany(GetTile, old(Rest()), n), ts, Rest())
    {
      ghost var all := Rest();
      var read: seq<Tile> := [];
      PrefixedNone(GetMany(GetTile, all, n));
      for i := 0 to n
        invariant Valid() && |read| == i
        invariant ManyLeft(GetTile, all, n, read, Rest())
      {
        LeftAdvance(GetTile, all, n, read, Rest());
        var t := ReadTile();
        if t.None? { return None; }
        read := read + [t.value];
      }
      assert read + [] == read;
      ts := Some(read);
    }
  }

  // What a list parser yields when some of its values have been read already.
  ghost function Prefixed<T>(read: seq<T>, p: Parsed<seq<T>>): Parsed<seq<T>> {
    match p case Fail => Fail case Ok(vs, s) => Ok(read + vs, s)
  }

  lemma PrefixedNone<T>(p: Parsed<seq<T>>)
    ensures Prefixed([], p) == p
  {
    if p.Ok? { assert [] + p.value == p.value; }
  }

  // Reading n values is reading those left and putting the ones read in front.
  ghost predicate ManyLeft<T>(get: Bytes -> Parsed<T>, all: Bytes, n: nat, read: seq<T>, rest: Bytes) {
    |read| <= n && GetMany(get, all, n) == Prefixed(read, GetMany(get, rest, n - |read|))
  }

  lemma LeftAdvance<T>(get: Bytes -> Parsed<T>, all: Bytes, n: nat, read: seq<T>, rest: Bytes)
    requires ManyLeft(get, all, n, read, rest) && |read| < n
    ensures get(rest).Fail? ==> GetMany(get, all, n).Fail?
    ensures get(rest).Ok? ==> ManyLeft(get, all, n, read + [get(rest).value], get(rest).rest)
  {
    ManyAdvance(get, read, rest, n - |read|);
  }

  lemma NumsAdvance(read: seq<nat>, s: Bytes, ws: seq<nat>)
    requires ws != []
    ensures GetNum(s, ws[0]).Fail? ==> Prefixed(read, GetNums(s, ws)).Fail?
    ensures GetNum(s, ws[0]).Ok? ==>
      Prefixed(read, GetNums(s, ws))
      == Prefixed(read + [GetNum(s, ws[0]).value], GetNums(GetNum(s, ws[0]).rest, ws[1..]))
  {
    if GetNum(s, ws[0]).Ok? {
      var n, p := GetNum(s, ws[0]).value, GetNums(GetNum(s, ws[0]).rest, ws[1..]);
      if p.Ok? { assert read + ([n] + p.value) == (read + [n]) + p.value; }
    }
  }

  lemma ManyAdvance<T>(get: Bytes -> Parsed<T>, read: seq<T>, s: Bytes, n: nat)
    requires n > 0
    ensures get(s).Fail? ==> Prefixed(read, GetMany(get, s, n)).Fail?
    ensures get(s).Ok? ==>
      Prefixed(read, GetMany(get, s, n)) == Prefixed(read + [get(s).value], GetMany(get, get(s).rest, n - 1))
  {
    if get(s).Ok? {
      var t, p := get(s).value, GetMany(get, get(s).rest, n - 1);
      if p.Ok? { assert read + ([t] + p.value) == (read + [t]) + p.value; }
    }
  }

  // Read the counters, the folder and the flags.
  method ReadHead(r: Reader) returns (h: Option<(seq<nat>, Bytes, seq<nat>)>)
    requires r.Valid()
    modifies r
    ensures r.Valid() && Reads(GetHead(old(r.Rest())), h, r.Rest())
  {
    var magic := r.Take(8);
    if magic != Some(Magic("DFMBC019")) { return None; }
    var n := r.Numbers(CAPTURE_WIDTHS);
    if n.None? { return None; }
    var folder := r.Bounded(512);
    if folder.None? { return None; }
    var f := r.Numbers(FLAG_WIDTHS);
    if f.None? { return None; }
    if 0 in folder.value || |n.value| != 10 || |f.value| != 3 || f.value[0] > 1 || f.value[1] > 1
      || f.value[2] > 1 { return None; }
    h := Some((n.value, folder.value, f.value));
  }

  method ReadScene(r: Reader) returns (v: Option<(Selection, seq<Tile>, Item)>)
    requires r.Valid()
    modifies r
    ensures r.Valid() && Reads(GetScene(old(r.Rest())), v, r.Rest())
  {
    var selection := r.ReadSelection();
    if selection.None? { return None; }
    var tiles := r.ReadTiles(9);
    if tiles.None? { return None; }
    var item := r.ReadItem();
    if item.None? { return None; }
    v := Some((selection.value, tiles.value, item.value));
  }

  // Decoding a capture with the reader; the final comparison never rejects.
  method DecodeCapture(raw: Bytes) returns (c: Option<Capture>)
    ensures c == Decode(raw)
    ensures forall v: Capture :: v.Valid() && raw == Encode(v) ==> c == Some(v)
    ensures c.Some? ==> c.value.Valid() && raw == Encode(c.value)
  {
    DecodeExact(raw);
    if |raw| > MAX_CAPTURE_BYTES { return None; }
    var r := new Reader(raw);
    var head := ReadHead(r);
    if head.None? { return None; }
    var scene := ReadScene(r);
    if scene.None? { return None; }
    var done := r.Finish();
    if |head.value.0| != 10 || |head.value.2| != 3 || !done { return None; }
    var v := CaptureOf(head.value.0, head.value.1, head.value.2, scene.value.0, scene.value.1, scene.value.2);
    if !v.Valid() || Encode(v) != raw { return None; }
    c := Some(v);
  }
}
