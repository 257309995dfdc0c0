// scripts/build_placement_rpc.py: varints and flat messages of numbered fields, as in
// "Base 128 Varints" of the Protocol Buffers Encoding specification.
module PlacementProtobuf {
  import opened Common
  import opened ByteCodec

  const TWO_64: nat := 0x1_0000_0000_0000_0000
  const MAX_REPLY: nat := 8192
  const MAX_REQUEST: nat := 2048

  // Seven bits a byte, least significant first, with a continuation bit on all but the last.
  function Varint(n: nat): Bytes {
    if n < 128 then [n] else [n % 128 + 128] + Varint(n / 128)
  }

  // Reading byte number `index` of a varint and the rest of it.
  function GetVarint(s: Bytes, index: nat): Parsed<nat>
    requires index <= 9
    decreases 9 - index
  {
    if s == [] then Fail
    else if index == 9 && s[0] > 1 then Fail
    else if s[0] < 128 then (if index > 0 && s[0] == 0 then Fail else Ok(s[0], s[1..]))
    else if index == 9 then Fail
    else Next(s[0], GetVarint(s[1..], index + 1))
  }

  // One continued byte in front of what is left to read.
  function Next(b: Byte, p: Parsed<nat>): Parsed<nat>
    requires b >= 128
  {
    match p case Fail => Fail case Ok(n, rest) => Ok(b - 128 + 128 * n, rest)
  }

  // One more than the largest value that fits from byte number `index` on.
  function Limit(index: nat): nat
    requires index <= 9
    decreases 9 - index
  {
    if index == 9 then 2 else 128 * Limit(index + 1)
  }

  lemma LimitIsWord()
    ensures Limit(0) == TWO_64
  {
    assert Limit(7) == 128 * Limit(8);
    assert Limit(5) == 128 * Limit(6);
    assert Limit(3) == 128 * Limit(4);
    assert Limit(1) == 128 * Limit(2);
  }

  lemma {:induction false} LimitBounds(index: nat)
    requires index <= 9
    ensures Limit(index) >= 2 && (index < 9 ==> Limit(index) >= 256)
    decreases 9 - index
  {
    if index < 9 { LimitBounds(index + 1); }
  }

  lemma Split128(n: nat, limit: nat)
    requires 128 <= n < 128 * limit
    ensures 0 < n / 128 < limit && n % 128 + 128 * (n / 128) == n
  {
  }

  // One continued byte in front of a varint.
  lemma GetVarintMore(b: Byte, s: Bytes, index: nat)
    requires b >= 128 && index < 9
    ensures GetVarint([b] + s, index) == Next(b, GetVarint(s, index + 1))
  {
    assert ([b] + s)[0] == b && ([b] + s)[1..] == s;
  }

  lemma {:induction false} VarintRoundTrip(n: nat, index: nat, tail: Bytes)
    requires index <= 9 && n < Limit(index) && (index > 0 ==> n > 0)
    ensures GetVarint(Varint(n) + tail, index) == Ok(n, tail)
    decreases 9 - index
  {
    if n < 128 {
      var s := Varint(n) + tail;
      assert s[0] == n && s[1..] == tail;
    } else {
      assert index < 9;
      Split128(n, Limit(index + 1));
      VarintRoundTrip(n / 128, index + 1, tail);
      GetVarintMore(n % 128 + 128, Varint(n / 128) + tail, index);
      assert Varint(n) + tail == [n % 128 + 128] + (Varint(n / 128) + tail);
    }
  }

  lemma VarintPrepend(b: Byte, n: nat)
    requires b >= 128 && n > 0
    ensures Varint(b - 128 + 128 * n) == [b] + Varint(n)
  {
    var v: nat := b - 128 + 128 * n;
    assert v >= 128 && v / 128 == n && v % 128 + 128 == b;
  }

  lemma VarintMore(s: Bytes, n: nat, rest: Bytes)
    requires s != [] && s[0] >= 128 && n > 0 && s[1..] == Varint(n) + rest
    ensures s == Varint(s[0] - 128 + 128 * n) + rest
  {
    VarintPrepend(s[0], n);
    assert s == [s[0]] + (Varint(n) + rest) == ([s[0]] + Varint(n)) + rest;
  }

  // The reader accepts exactly the shortest form of each value below two to the 64.
  lemma {:induction false} VarintExact(s: Bytes, index: nat)
    requires index <= 9 && GetVarint(s, index).Ok?
    ensures var p := GetVarint(s, index);
            p.value < Limit(index) && (index > 0 ==> p.value > 0) && s == Varint(p.value) + p.rest
    decreases 9 - index
  {
    LimitBounds(index);
    if s[0] < 128 {
      assert s == [s[0]] + s[1..] && Varint(s[0]) == [s[0]];
    } else {
      VarintExact(s[1..], index + 1);
      VarintMore(s, GetVarint(s[1..], index + 1).value, GetVarint(s[1..], index + 1).rest);
    }
  }

  lemma VarintUnique(n: nat, raw: Bytes)
    ensures GetVarint(raw, 0) == Ok(n, []) <==> n < TWO_64 && raw == Varint(n)
  {
    LimitIsWord();
    if n < TWO_64 && raw == Varint(n) {
      VarintRoundTrip(n, 0, []);
      assert raw + [] == raw;
    }
    if GetVarint(raw, 0) == Ok(n, []) {
      VarintExact(raw, 0);
      assert Varint(n) + [] == Varint(n);
    }
  }

  // The writing loop; values of two to the 64 and more are refused.
  method WriteVarint(value: nat) returns (written: Option<Bytes>)
    ensures written == if value < TWO_64 then Some(Varint(value)) else None
  {
    if value >= TWO_64 { return None; }
    var out: Bytes := [];
    var v := value;
    while v >= 128
      invariant out + Varint(v) == Varint(value)
    {
      assert out + ([v % 128 + 128] + Varint(v / 128)) == (out + [v % 128 + 128]) + Varint(v / 128);
      out := out + [v % 128 + 128];
      v := v / 128;
    }
    written := Some(out + [v]);
  }

  // x shifted left by 7 * index bits.
  function Shift(x: nat, index: nat): nat
    decreases index
  {
    if index == 0 then x else 128 * Shift(x, index - 1)
  }

  // Bytes with the continuation bit set.
  predicate Continued(ds: Bytes) {
    forall i :: 0 <= i < |ds| ==> ds[i] >= 128
  }

  // The value of the low seven bits of continued bytes, least significant first.
  function Low(ds: Bytes): nat
    requires Continued(ds)
  {
    if ds == [] then 0 else ds[0] - 128 + 128 * Low(ds[1..])
  }

  lemma {:induction false} LowAppend(ds: Bytes, b: Byte)
    requires Continued(ds) && b >= 128
    ensures Continued(ds + [b]) && Low(ds + [b]) == Low(ds) + Shift(b - 128, |ds|)
  {
    if ds == [] {
      assert ds + [b] == [b] && [b][1..] == [];
    } else {
      LowAppend(ds[1..], b);
      assert (ds + [b])[1..] == ds[1..] + [b];
    }
  }

  // What reading yields when continued bytes stand in front of a varint that reads as p.
  ghost function Past(ds: Bytes, p: Parsed<nat>): Parsed<nat>
    requires Continued(ds)
  {
    if ds == [] then p else Next(ds[0], Past(ds[1..], p))
  }

  lemma {:induction false} GetVarintPast(ds: Bytes, s: Bytes, index: nat)
    requires Continued(ds) && index + |ds| <= 9
    ensures GetVarint(ds + s, index) == Past(ds, GetVarint(s, index + |ds|))
    decreases |ds|
  {
    if ds == [] {
      assert ds + s == s;
    } else {
      var b, more := ds[0], ds[1..];
      GetVarintPast(more, s, index + 1);
      GetVarintMore(b, more + s, index);
      FrontApart(ds, s);
    }
  }

  lemma FrontApart(ds: Bytes, s: Bytes)
    requires ds != []
    ensures ds + s == [ds[0]] + (ds[1..] + s)
  {
  }

  lemma {:induction false} PastValue(ds: Bytes, p: Parsed<nat>)
    requires Continued(ds)
    ensures p.Fail? ==> Past(ds, p).Fail?
    ensures p.Ok? ==> Past(ds, p) == Ok(Low(ds) + Shift(p.value, |ds|), p.rest)
  {
    if ds != [] { PastValue(ds[1..], p); }
  }

  // The bytes up to an offset all continue and are worth the value.
  ghost predicate ReadTo(raw: Bytes, start: nat, offset: nat, value: nat) {
    start <= offset <= |raw| && Continued(raw[start..offset]) && value == Low(raw[start..offset])
  }

  lemma ReadOn(raw: Bytes, start: nat, offset: nat, value: nat)
    requires ReadTo(raw, start, offset, value) && offset < |raw| && raw[offset] >= 128
    ensures ReadTo(raw, start, offset + 1, value + Shift(raw[offset] - 128, offset - start))
  {
    LowNext(raw, start, offset + 1);
  }

  // What the byte at an offset settles when the bytes before it all continue.
  lemma DigitAt(raw: Bytes, start: nat, offset: nat, value: nat)
    requires ReadTo(raw, start, offset, value) && offset - start <= 9
    ensures offset == |raw| ==> GetVarint(raw[start..], 0).Fail?
    ensures offset < |raw| && offset - start == 9 && raw[offset] > 1 ==> GetVarint(raw[start..], 0).Fail?
    ensures offset < |raw| && offset - start > 0 && raw[offset] == 0 ==> GetVarint(raw[start..], 0).Fail?
    ensures (offset < |raw| && raw[offset] < 128 && (offset == start || raw[offset] != 0) &&
             (offset - start < 9 || raw[offset] <= 1)) ==>
      GetVarint(raw[start..], 0) == Ok(value + Shift(raw[offset], offset - start), raw[offset + 1..])
  {
    VarintAt(raw, start, offset);
    if offset < |raw| { GetVarintHere(raw, offset, offset - start); }
  }

  // The byte loop of the reader, with its moving offset.
  method ReadVarint(raw: Bytes, start: nat) returns (n: Option<nat>, offset: nat)
    requires start <= |raw|
    ensures match GetVarint(raw[start..], 0)
            case Fail => n == None
            case Ok(v, rest) => n == Some(v) && start < offset <= |raw| && rest == raw[offset..]
  {
    offset := start;
    var value: nat := 0;
    for index := 0 to 10
      invariant offset == start + index && ReadTo(raw, start, offset, value)
      invariant index == 10 ==> GetVarint(raw[start..], 0).Fail?
    {
      DigitAt(raw, start, offset, value);
      if offset == |raw| { return None, offset; }
      var byte: nat := raw[offset];
      offset := offset + 1;
      if index == 9 && byte > 1 { return None, offset; }
      if byte < 128 {
        if index > 0 && byte == 0 { return None, offset; }
        return Some(value + Shift(byte, index)), offset;
      }
      ReadOn(raw, start, offset - 1, value);
      value := value + Shift(byte - 128, index);
    }
    n := None;
  }

  lemma LowNext(raw: Bytes, start: nat, end: nat)
    requires start < end <= |raw| && Continued(raw[start..end - 1]) && raw[end - 1] >= 128
    ensures Continued(raw[start..end])
    ensures Low(raw[start..end]) == Low(raw[start..end - 1]) + Shift(raw[end - 1] - 128, end - 1 - start)
  {
    LowAppend(raw[start..end - 1], raw[end - 1]);
    assert raw[start..end] == raw[start..end - 1] + [raw[end - 1]];
  }

  // What is left to read when the bytes up to an offset all continue.
  lemma VarintAt(raw: Bytes, start: nat, offset: nat)
    requires start <= offset <= |raw| && offset - start <= 9 && Continued(raw[start..offset])
    ensures var p := GetVarint(raw[offset..], offset - start);
            (p.Fail? ==> GetVarint(raw[start..], 0).Fail?) &&
            (p.Ok? ==>
               GetVarint(raw[start..], 0) == Ok(Low(raw[start..offset]) + Shift(p.value, offset - start), p.rest))
  {
    var ds := raw[start..offset];
    assert raw[start..] == ds + raw[offset..];
    GetVarintPast(ds, raw[offset..], 0);
    PastValue(ds, GetVarint(raw[offset..], offset - start));
  }

  // The cases in which the byte at an offset is the last one read.
  lemma GetVarintHere(raw: Bytes, offset: nat, index: nat)
    requires offset < |raw| && index <= 9
    ensures index == 9 && raw[offset] > 1 ==> GetVarint(raw[offset..], index).Fail?
    ensures index > 0 && raw[offset] == 0 ==> GetVarint(raw[offset..], index).Fail?
    ensures raw[offset] < 128 && (index == 0 || raw[offset] != 0) && (index < 9 || raw[offset] <= 1) ==>
      GetVarint(raw[offset..], index) == Ok(raw[offset], raw[offset + 1..])
  {
    assert raw[offset..][0] == raw[offset] && raw[offset..][1..] == raw[offset + 1..];
  }

  // A field holds a number or a byte string.
  datatype Value = Number(n: nat) | Blob(b: Bytes)

  predicate Storable(v: Value) { v.Number? ==> v.n < TWO_64 }

  function PutEntry(key: nat, v: Value, tail: Bytes): Bytes {
    match v
    case Number(n) => Varint(key * 8) + (Varint(n) + tail)
    case Blob(b) => Varint(key * 8 + 2) + (Varint(|b|) + (b + tail))
  }

  function GetEntry(s: Bytes): Parsed<(nat, Value)> {
    var (tag, s1) :- GetVarint(s, 0);
    if tag % 8 == 0 then
      var (n, s2) :- GetVarint(s1, 0);
      Ok((tag / 8, Number(n)), s2)
    else if tag % 8 == 2 then
      var (width, s2) :- GetVarint(s1, 0);
      var (b, s3) :- GetBytes(s2, width);
      Ok((tag / 8, Blob(b)), s3)
    else Fail
  }

  lemma EntryRoundTrip(key: nat, v: Value, tail: Bytes)
    requires key <= 13 && Storable(v) && (v.Blob? ==> |v.b| < TWO_64)
    ensures GetEntry(PutEntry(key, v, tail)) == Ok((key, v), tail)
  {
    LimitIsWord();
    match v
    case Number(n) =>
      VarintRoundTrip(key * 8, 0, Varint(n) + tail);
      VarintRoundTrip(n, 0, tail);
    case Blob(b) =>
      VarintRoundTrip(key * 8 + 2, 0, Varint(|b|) + (b + tail));
      VarintRoundTrip(|b|, 0, b + tail);
      BytesRoundTrip(b, tail);
  }

  lemma EntryShorter(s: Bytes)
    requires GetEntry(s).Ok?
    ensures |GetEntry(s).rest| < |s|
  {
    VarintExact(s, 0);
    var t := GetVarint(s, 0);
    VarintExact(t.rest, 0);
    assert |Varint(t.value)| >= 1;
  }

  // The fields numbered k .. 13, in ascending order.
  function PutFrom(fields: map<nat, Value>, k: nat): Bytes
    decreases 14 - k
  {
    if k > 13 then [] else if k in fields then PutEntry(k, fields[k], PutFrom(fields, k + 1))
      else PutFrom(fields, k + 1)
  }

  // A request: field numbers 1 to 13, numbers below two to the 64, at most 2048 bytes.
  function Encode(fields: map<nat, Value>): Option<Bytes> {
    if (exists k :: k in fields && !(1 <= k <= 13 && Storable(fields[k]))) || |PutFrom(fields, 1)| > MAX_REQUEST
    then None else Some(PutFrom(fields, 1))
  }

  // Add the entries of s to the fields read so far; unknown and repeated numbers are refused.
  function GetAll(s: Bytes, maximum: nat, fields: map<nat, Value>): Option<map<nat, Value>>
    decreases |s|
  {
    if s == [] then Some(fields) else
      match GetEntry(s)
      case Fail => None
      case Ok(e, rest) =>
        EntryShorter(s);
        if e.0 < 1 || e.0 > maximum || e.0 in fields then None else GetAll(rest, maximum, fields[e.0 := e.1])
  }

  function Decode(raw: Bytes, maximum: nat): Option<map<nat, Value>> {
    if |raw| > MAX_REPLY then None else GetAll(raw, maximum, map[])
  }

  function FieldsBelow(fields: map<nat, Value>, k: nat): map<nat, Value> {
    map i | i in fields && i < k :: fields[i]
  }

  lemma {:induction false} GetAllFrom(fields: map<nat, Value>, k: nat)
    requires 1 <= k <= 14 && forall i :: i in fields ==> i <= 13 && Storable(fields[i])
    requires forall i :: i in fields && fields[i].Blob? ==> |fields[i].b| < TWO_64
    ensures GetAll(PutFrom(fields, k), 13, FieldsBelow(fields, k)) == Some(fields)
    decreases 14 - k
  {
    if k == 14 {
      assert FieldsBelow(fields, 14) == fields;
    } else {
      GetAllFrom(fields, k + 1);
      if k in fields {
        EntryRoundTrip(k, fields[k], PutFrom(fields, k + 1));
        EntryNonEmpty(k, fields[k], PutFrom(fields, k + 1));
        assert FieldsBelow(fields, k)[k := fields[k]] == FieldsBelow(fields, k + 1);
      } else {
        assert FieldsBelow(fields, k) == FieldsBelow(fields, k + 1);
      }
    }
  }

  lemma EntryNonEmpty(key: nat, v: Value, tail: Bytes)
    ensures |PutEntry(key, v, tail)| >= 1 + |tail|
    ensures v.Blob? ==> |PutEntry(key, v, tail)| >= |v.b| + |tail|
  {
    assert |Varint(key * 8)| >= 1 && |Varint(key * 8 + 2)| >= 1;
  }

  lemma {:induction false} BlobsFit(fields: map<nat, Value>, k: nat, i: nat)
    requires k <= i <= 13 && i in fields && fields[i].Blob?
    ensures |fields[i].b| <= |PutFrom(fields, k)|
    decreases 14 - k
  {
    if k in fields { EntryNonEmpty(k, fields[k], PutFrom(fields, k + 1)); }
    if k < i { BlobsFit(fields, k + 1, i); }
  }

  // Whatever can be encoded decodes back to the same fields.
  lemma MessageRoundTrip(fields: map<nat, Value>)
    requires Encode(fields).Some?
    ensures Decode(Encode(fields).value, 13) == Some(fields)
  {
    forall i | i in fields && fields[i].Blob? ensures |fields[i].b| < TWO_64 {
      assert 1 <= i <= 13;
      BlobsFit(fields, 1, i);
    }
    assert FieldsBelow(fields, 1) == map[];
    GetAllFrom(fields, 1);
  }

  lemma BytesAt(raw: Bytes, offset: nat, width: nat)
    requires offset + width <= |raw|
    ensures GetBytes(raw[offset..], width) == Ok(raw[offset..offset + width], raw[offset + width..])
  {
    assert raw[offset..][..width] == raw[offset..offset + width] && raw[offset..][width..] == raw[offset + width..];
  }

  // One entry at an offset: tag, then a number or a sized byte string.
  method ReadEntry(raw: Bytes, start: nat) returns (e: Option<(nat, Value)>, offset: nat)
    requires start <= |raw|
    ensures match GetEntry(raw[start..])
            case Fail => e == None
            case Ok(v, rest) => e == Some(v) && start < offset <= |raw| && rest == raw[offset..]
  {
    var tag, at := ReadVarint(raw, start);
    if tag.None? { return None, start; }
    var key, wire := tag.value / 8, tag.value % 8;
    if wire != 0 && wire != 2 { return None, start; }
    var n;
    n, offset := ReadVarint(raw, at);
    if n.None? { return None, start; }
    if wire == 0 { return Some((key, Number(n.value))), offset; }
    if n.value > |raw| - offset { return None, start; }
    BytesAt(raw, offset, n.value);
    e := Some((key, Blob(raw[offset..offset + n.value])));
    offset := offset + n.value;
  }

  // The message loop with its moving offset.
  method ReadMessage(raw: Bytes, maximum: nat) returns (fields: Option<map<nat, Value>>)
    ensures fields == Decode(raw, maximum)
  {
    if |raw| > MAX_REPLY { return None; }
    var offset := 0;
    var result: map<nat, Value> := map[];
    assert raw[0..] == raw;
    while offset < |raw|
      invariant 0 <= offset <= |raw| && GetAll(raw[offset..], maximum, result) == GetAll(raw, maximum, map[])
    {
      var e, next := ReadEntry(raw, offset);
      if e.None? { return None; }
      var (key, value) := e.value;
      if key < 1 || key > maximum || key in result { return None; }
      result := result[key := value];
      offset := next;
    }
    fields := Some(result);
  }

  lemma EntryAppend(key: nat, v: Value, tail: Bytes)
    ensures PutEntry(key, v, []) + tail == PutEntry(key, v, tail)
  {
    match v
    case Number(n) => assert Varint(n) + [] + tail == Varint(n) + tail;
    case Blob(b) => assert Varint(|b|) + (b + []) + tail == Varint(|b|) + (b + tail);
  }

  // One entry: a tag, then a number or a sized byte string; numbers that do not fit are refused.
  method WriteEntry(key: nat, v: Value) returns (written: Option<Bytes>)
    requires key <= 13
    ensures written == if Storable(v) && (v.Blob? ==> |v.b| < TWO_64) then Some(PutEntry(key, v, [])) else None
  {
    var tag := WriteVarint(if v.Number? then key * 8 else key * 8 + 2);
    var size := WriteVarint(if v.Number? then v.n else |v.b|);
    if size.None? { return None; }
    written := Some(tag.value + (size.value + (if v.Number? then [] else v.b)));
    if v.Blob? { assert v.b + [] == v.b; }
  }

  lemma EntryRefused(fields: map<nat, Value>, k: nat)
    requires 1 <= k <= 13 && k in fields && !(Storable(fields[k]) && (fields[k].Blob? ==> |fields[k].b| < TWO_64))
    ensures Encode(fields) == None
  {
    if fields[k].Blob? { BlobsFit(fields, 1, k); }
  }

  lemma PutNext(fields: map<nat, Value>, k: nat, written: Bytes)
    requires k <= 13 && k in fields
    ensures written + PutFrom(fields, k) == (written + PutEntry(k, fields[k], [])) + PutFrom(fields, k + 1)
  {
    var entry, rest := PutEntry(k, fields[k], []), PutFrom(fields, k + 1);
    EntryAppend(k, fields[k], rest);
    assert written + (entry + rest) == (written + entry) + rest;
  }

  // The encoding loop over the fields in ascending order.
  method WriteMessage(fields: map<nat, Value>) returns (out: Option<Bytes>)
    ensures out == Encode(fields)
  {
    if k :| k in fields && !(1 <= k <= 13) { return None; }
    var written: Bytes := [];
    for k := 1 to 14
      invariant written + PutFrom(fields, k) == PutFrom(fields, 1)
      invariant forall i :: i in fields && i < k ==> Storable(fields[i])
    {
      if k in fields {
        var entry := WriteEntry(k, fields[k]);
        if entry.None? {
          EntryRefused(fields, k);
          return None;
        }
        PutNext(fields, k, written);
        written := written + entry.value;
      }
    }
    assert written + [] == written;
    if |written| > MAX_REQUEST { return None; }
    out := Some(written);
  }
}
