// Big-endian numbers, bounded fields, and parsers that are exact inverses of their writers.
module ByteCodec {

  type Byte = n: nat | n < 256
  type Bytes = seq<Byte>

  // The outcome of reading a value from the front of a byte string.
  datatype Parsed<+T> = Fail | Ok(value: T, rest: Bytes) {
    predicate IsFailure() { Fail? }
    function PropagateFailure<U>(): Parsed<U> requires Fail? { Fail }
    function Extract(): (T, Bytes) requires Ok? { (value, rest) }
  }

  function Ascii(s: string): (r: Bytes)
    ensures |r| == |s|
  {
    seq(|s|, i requires 0 <= i < |s| => (s[i] as int) % 256)
  }

  // 256 to the power w.
  function Radix(w: nat): nat {
    if w == 0 then 1 else 256 * Radix(w - 1)
  }

  lemma RadixValues()
    ensures Radix(1) == 0x100 && Radix(2) == 0x1_0000 && Radix(4) == 0x1_0000_0000
      && Radix(8) == 0x1_0000_0000_0000_0000
  {
    assert Radix(3) == 256 * Radix(2);
    assert Radix(5) == 256 * Radix(4);
    assert Radix(7) == 256 * Radix(6);
  }

  function BigEndian(n: nat, w: nat): (r: Bytes)
    ensures |r| == w
  {
    if w == 0 then [] else BigEndian(n / 256, w - 1) + [n % 256]
  }

  function FromBigEndian(s: Bytes): nat {
    if s == [] then 0 else FromBigEndian(s[..|s| - 1]) * 256 + s[|s| - 1]
  }

  lemma {:induction false} WriteRead(n: nat, w: nat)
    requires n < Radix(w)
    ensures FromBigEndian(BigEndian(n, w)) == n
  {
    if w > 0 {
      WriteRead(n / 256, w - 1);
      assert BigEndian(n, w)[..w - 1] == BigEndian(n / 256, w - 1);
    }
  }

  lemma {:induction false} ReadWrite(s: Bytes)
    ensures FromBigEndian(s) < Radix(|s|)
    ensures BigEndian(FromBigEndian(s), |s|) == s
  {
    if s != [] {
      var n := |s| - 1;
      ReadWrite(s[..n]);
      assert s == s[..n] + [s[n]];
    }
  }

  // Numbers of given widths, written before and read from the front of a tail.
  function PutNums(ns: seq<nat>, ws: seq<nat>, tail: Bytes): Bytes
    requires |ns| == |ws|
  {
    if ns == [] then tail else BigEndian(ns[0], ws[0]) + PutNums(ns[1..], ws[1..], tail)
  }

  function GetNum(s: Bytes, w: nat): Parsed<nat> {
    if |s| < w then Fail else Ok(FromBigEndian(s[..w]), s[w..])
  }

  function GetNums(s: Bytes, ws: seq<nat>): Parsed<seq<nat>>
    decreases |ws|
  {
    if ws == [] then Ok([], s) else
      var (n, s1) :- GetNum(s, ws[0]);
      var (ns, s2) :- GetNums(s1, ws[1..]);
      Ok([n] + ns, s2)
  }

  ghost predicate Fit(ns: seq<nat>, ws: seq<nat>) {
    |ns| == |ws| && forall i :: 0 <= i < |ns| ==> ns[i] < Radix(ws[i])
  }

  lemma {:induction false} NumsRoundTrip(ns: seq<nat>, ws: seq<nat>, tail: Bytes)
    requires Fit(ns, ws)
    ensures GetNums(PutNums(ns, ws, tail), ws) == Ok(ns, tail)
    decreases |ns|
  {
    if ns != [] {
      var s := PutNums(ns, ws, tail);
      var inner := PutNums(ns[1..], ws[1..], tail);
      NumsRoundTrip(ns[1..], ws[1..], tail);
      assert s[..ws[0]] == BigEndian(ns[0], ws[0]) && s[ws[0]..] == inner;
      WriteRead(ns[0], ws[0]);
      assert ns == [ns[0]] + ns[1..];
    }
  }

  lemma {:induction false} NumsExact(s: Bytes, ws: seq<nat>)
    requires GetNums(s, ws).Ok?
    ensures Fit(GetNums(s, ws).value, ws)
    ensures s == PutNums(GetNums(s, ws).value, ws, GetNums(s, ws).rest)
    decreases |ws|
  {
    if ws != [] {
      var w := ws[0];
      NumsExact(s[w..], ws[1..]);
      ReadWrite(s[..w]);
      assert s == s[..w] + s[w..];
      var ns := GetNums(s, ws).value;
      assert ns[1..] == GetNums(s[w..], ws[1..]).value;
    }
  }

  lemma {:induction false} NumsLength(ns: seq<nat>, ws: seq<nat>, tail: Bytes)
    requires |ns| == |ws|
    ensures |PutNums(ns, ws, tail)| == Total(ws) + |tail|
    decreases |ns|
  {
    if ns != [] { NumsLength(ns[1..], ws[1..], tail); }
  }

  function Total(ws: seq<nat>): nat {
    if ws == [] then 0 else ws[0] + Total(ws[1..])
  }

  lemma {:induction false} TotalSplit(a: seq<nat>, b: seq<nat>)
    ensures Total(a + b) == Total(a) + Total(b)
    decreases |a|
  {
    if a == [] {
      assert a + b == b;
    } else {
      TotalSplit(a[1..], b);
      assert (a + b)[1..] == a[1..] + b;
    }
  }

  lemma FiveTotals()
    ensures Total([4, 4, 4, 1, 4]) == 17 && Total([4, 4, 4, 4, 4]) == 20
    ensures Total([4, 1, 1, 1, 1]) == 8 && Total([4, 4, 1, 1, 1]) == 11
  {
  }

  lemma {:induction false} TotalAtMost(ws: seq<nat>, m: nat)
    requires forall i :: 0 <= i < |ws| ==> ws[i] <= m
    ensures Total(ws) <= |ws| * m
  {
    if ws != [] { TotalAtMost(ws[1..], m); }
  }

  lemma {:induction false} NumsAppend(ns: seq<nat>, ws: seq<nat>, a: Bytes, b: Bytes)
    requires |ns| == |ws|
    ensures PutNums(ns, ws, a) + b == PutNums(ns, ws, a + b)
    decreases |ns|
  {
    if ns != [] {
      NumsAppend(ns[1..], ws[1..], a, b);
      assert BigEndian(ns[0], ws[0]) + PutNums(ns[1..], ws[1..], a) + b
          == BigEndian(ns[0], ws[0]) + (PutNums(ns[1..], ws[1..], a) + b);
    }
  }

  // Raw bytes of a known length.
  function GetBytes(s: Bytes, n: nat): Parsed<Bytes> {
    if |s| < n then Fail else Ok(s[..n], s[n..])
  }

  lemma BytesRoundTrip(b: Bytes, tail: Bytes)
    ensures GetBytes(b + tail, |b|) == Ok(b, tail)
  {
    assert (b + tail)[..|b|] == b && (b + tail)[|b|..] == tail;
  }

  lemma BytesExact(s: Bytes, n: nat)
    requires GetBytes(s, n).Ok?
    ensures |GetBytes(s, n).value| == n && s == GetBytes(s, n).value + GetBytes(s, n).rest
  {
  }

  // A field: two length bytes and then that many bytes, at least one and at most max.
  function PutField(b: Bytes, tail: Bytes): Bytes {
    PutNums([|b|], [2], b + tail)
  }

  function GetField(s: Bytes, max: nat): Parsed<Bytes> {
    var (n, s1) :- GetNums(s, [2]);
    if n[0] < 1 || n[0] > max then Fail else GetBytes(s1, n[0])
  }

  lemma FieldRoundTrip(b: Bytes, max: nat, tail: Bytes)
    requires 1 <= |b| <= max && |b| < 0x1_0000
    ensures GetField(PutField(b, tail), max) == Ok(b, tail)
  {
    RadixValues();
    NumsRoundTrip([|b|], [2], b + tail);
    BytesRoundTrip(b, tail);
  }

  lemma FieldExact(s: Bytes, max: nat)
    requires GetField(s, max).Ok?
    ensures 1 <= |GetField(s, max).value| <= max && |GetField(s, max).value| < 0x1_0000
    ensures s == PutField(GetField(s, max).value, GetField(s, max).rest)
  {
    RadixValues();
    NumsExact(s, [2]);
    var p := GetNums(s, [2]);
    assert p.value == [p.value[0]];
    BytesExact(p.rest, p.value[0]);
  }

  lemma FieldAppend(f: Bytes, a: Bytes, b: Bytes)
    ensures PutField(f, a) + b == PutField(f, a + b)
  {
    NumsAppend([|f|], [2], f + a, b);
    assert f + a + b == f + (a + b);
  }

  lemma FieldLength(b: Bytes, tail: Bytes)
    ensures |PutField(b, tail)| == 2 + |b| + |tail|
  {
    NumsLength([|b|], [2], b + tail);
  }

  // n values one after another, by the writer and reader of one value.
  function PutMany<T>(put: (T, Bytes) -> Bytes, ts: seq<T>, tail: Bytes): Bytes {
    if ts == [] then tail else put(ts[0], PutMany(put, ts[1..], tail))
  }

  function GetMany<T>(get: Bytes -> Parsed<T>, s: Bytes, n: nat): Parsed<seq<T>>
    decreases n
  {
    if n == 0 then Ok([], s) else
      var (t, s1) :- get(s);
      var (ts, s2) :- GetMany(get, s1, n - 1);
      Ok([t] + ts, s2)
  }

  lemma {:induction false} ManyRoundTrip<T>(put: (T, Bytes) -> Bytes, get: Bytes -> Parsed<T>, ts: seq<T>, tail: Bytes)
    requires forall i, s :: 0 <= i < |ts| ==> get(put(ts[i], s)) == Ok(ts[i], s)
    ensures GetMany(get, PutMany(put, ts, tail), |ts|) == Ok(ts, tail)
  {
    if ts != [] {
      var rest := ts[1..];
      assert ts == [ts[0]] + rest;
      forall i, s | 0 <= i < |rest| ensures get(put(rest[i], s)) == Ok(rest[i], s) {
        assert rest[i] == ts[i + 1];
      }
      ManyRoundTrip(put, get, rest, tail);
    }
  }

  lemma {:induction false} ManyExact<T(!new)>(put: (T, Bytes) -> Bytes, get: Bytes -> Parsed<T>, valid: T -> bool,
    s: Bytes, n: nat)
    requires forall b :: get(b).Ok? ==> valid(get(b).value) && b == put(get(b).value, get(b).rest)
    requires GetMany(get, s, n).Ok?
    ensures var ts := GetMany(get, s, n);
            |ts.value| == n && (forall i :: 0 <= i < n ==> valid(ts.value[i])) && s == PutMany(put, ts.value, ts.rest)
    decreases n
  {
    if n > 0 {
      var t := get(s);
      ManyExact(put, get, valid, t.rest, n - 1);
      var ts, rest := GetMany(get, s, n).value, GetMany(get, t.rest, n - 1).value;
      assert ts == [t.value] + rest;
      assert ts[1..] == rest;
    }
  }

  lemma {:induction false} ManyLength<T(!new)>(put: (T, Bytes) -> Bytes, ts: seq<T>, tail: Bytes, m: nat)
    requires forall t, s :: |put(t, s)| <= m + |s|
    ensures |PutMany(put, ts, tail)| <= m * |ts| + |tail|
  {
    if ts != [] { ManyLength(put, ts[1..], tail, m); }
  }

  // Two's complement in 32 bits.
  const I32_SPAN: nat := 0x1_0000_0000

  function ToSigned(n: nat): int {
    if n < 0x8000_0000 then n else n - I32_SPAN
  }

  function FromSigned(v: int): nat
    requires -0x8000_0000 <= v < 0x8000_0000
  {
    if v < 0 then v + I32_SPAN else v
  }
}
