// A canonical frame text with the properties the journal relies on, so that they can all be met
// at once: hexadecimal-like digits for every field, each field closed by a mark.
module PlacementText {
  import opened Common
  import opened ByteCodec
  import opened PlacementRecord
  import opened PlacementLog
  import opened PlacementJournal
  import PB = PlacementProtobuf

  const MARK: Byte := 48

  function Digits(a: Bytes): Bytes {
    if a == [] then [] else [32 + a[0] / 16, 32 + a[0] % 16] + Digits(a[1..])
  }

  function Put(a: Bytes, tail: Bytes): Bytes { Digits(a) + ([MARK] + tail) }

  predicate Printable(s: Bytes) { forall i :: 0 <= i < |s| ==> 32 <= s[i] <= MARK }

  lemma {:induction false} DigitsFacts(a: Bytes)
    ensures |Digits(a)| == 2 * |a| && Printable(Digits(a))
  {
    if a != [] { DigitsFacts(a[1..]); }
  }

  lemma PutFacts(a: Bytes, tail: Bytes)
    requires Printable(tail)
    ensures |Put(a, tail)| == 2 * |a| + 1 + |tail| && Printable(Put(a, tail))
  {
    DigitsFacts(a);
  }

  lemma PutFirst(a: Bytes, tail: Bytes)
    ensures a == [] ==> Put(a, tail) == [MARK] + tail
    ensures a != [] ==> Put(a, tail) == [32 + a[0] / 16, 32 + a[0] % 16] + Put(a[1..], tail)
  {
  }

  // Fields can be told apart.
  lemma {:induction false} PutInjective(a: Bytes, s: Bytes, c: Bytes, t: Bytes)
    requires Put(a, s) == Put(c, t)
    ensures a == c && s == t
    decreases |a|
  {
    PutFirst(a, s);
    PutFirst(c, t);
    if a == [] || c == [] {
      assert Put(a, s)[0] == Put(c, t)[0];
      assert a == [] && c == [];
      assert s == Put(a, s)[1..] == Put(c, t)[1..] == t;
    } else {
      assert Put(a, s)[0] == Put(c, t)[0] && Put(a, s)[1] == Put(c, t)[1];
      SameByte(a[0], c[0]);
      assert Put(a[1..], s) == Put(a, s)[2..] == Put(c, t)[2..] == Put(c[1..], t);
      PutInjective(a[1..], s, c[1..], t);
      assert a == [a[0]] + a[1..] && c == [c[0]] + c[1..];
    }
  }

  lemma SameByte(x: Byte, y: Byte)
    requires x / 16 == y / 16 && x % 16 == y % 16
    ensures x == y
  {
  }

  lemma {:induction false} VarintInjective(n: nat, m: nat)
    requires PB.Varint(n) == PB.Varint(m)
    ensures n == m
  {
    assert PB.Varint(n)[0] == PB.Varint(m)[0];
    if n >= 128 && m >= 128 {
      assert PB.Varint(n / 128) == PB.Varint(n)[1..] == PB.Varint(m)[1..] == PB.Varint(m / 128);
      VarintInjective(n / 128, m / 128);
    }
  }

  lemma {:induction false} VarintLength(n: nat, index: nat)
    requires index <= 9 && n < PB.Limit(index)
    ensures |PB.Varint(n)| <= 10 - index
    decreases 9 - index
  {
    if n >= 128 {
      PB.Split128(n, PB.Limit(index + 1));
      VarintLength(n / 128, index + 1);
    }
  }

  function PutManifest(m: Manifest, tail: Bytes): Bytes {
    Put(PB.Varint(m.generation), Put(m.dfVersion, Put(m.dfhackVersion, tail)))
  }

  lemma ManifestFacts(m: Manifest, tail: Bytes)
    requires Printable(tail)
    ensures Printable(PutManifest(m, tail))
    ensures m.Valid() ==> |PutManifest(m, tail)| <= 23 + 2 * (|m.dfVersion| + |m.dfhackVersion|) + |tail|
  {
    PutFacts(m.dfhackVersion, tail);
    PutFacts(m.dfVersion, Put(m.dfhackVersion, tail));
    PutFacts(PB.Varint(m.generation), Put(m.dfVersion, Put(m.dfhackVersion, tail)));
    if m.Valid() {
      PB.LimitIsWord();
      VarintLength(m.generation, 0);
    }
  }

  lemma ManifestInjective(m: Manifest, s: Bytes, n: Manifest, t: Bytes)
    requires PutManifest(m, s) == PutManifest(n, t)
    ensures m == n && s == t
  {
    PutInjective(PB.Varint(m.generation), Put(m.dfVersion, Put(m.dfhackVersion, s)),
                 PB.Varint(n.generation), Put(n.dfVersion, Put(n.dfhackVersion, t)));
    VarintInjective(m.generation, n.generation);
    PutInjective(m.dfVersion, Put(m.dfhackVersion, s), n.dfVersion, Put(n.dfhackVersion, t));
    PutInjective(m.dfhackVersion, s, n.dfhackVersion, t);
  }

  // The first part of an intent, up to its manifest.
  function PutIntent(p: Payload, tail: Bytes): Bytes
    requires p.IntentFrame?
  {
    Put(p.key, Put(p.capture, Put(p.planDigest, Put(p.token, tail))))
  }

  lemma IntentFacts(p: Payload, tail: Bytes)
    requires p.IntentFrame? && Printable(tail)
    ensures Printable(PutIntent(p, tail))
    ensures |PutIntent(p, tail)| == 4 + 2 * (|p.key| + |p.capture| + |p.planDigest| + |p.token|) + |tail|
  {
    PutFacts(p.token, tail);
    PutFacts(p.planDigest, Put(p.token, tail));
    PutFacts(p.capture, Put(p.planDigest, Put(p.token, tail)));
    PutFacts(p.key, Put(p.capture, Put(p.planDigest, Put(p.token, tail))));
  }

  lemma IntentInjective(p: Payload, s: Bytes, q: Payload, t: Bytes)
    requires p.IntentFrame? && q.IntentFrame? && PutIntent(p, s) == PutIntent(q, t)
    ensures p.key == q.key && p.capture == q.capture && p.planDigest == q.planDigest && p.token == q.token && s == t
  {
    PutInjective(p.key, Put(p.capture, Put(p.planDigest, Put(p.token, s))),
                 q.key, Put(q.capture, Put(q.planDigest, Put(q.token, t))));
    PutInjective(p.capture, Put(p.planDigest, Put(p.token, s)), q.capture, Put(q.planDigest, Put(q.token, t)));
    PutInjective(p.planDigest, Put(p.token, s), q.planDigest, Put(q.token, t));
    PutInjective(p.token, s, q.token, t);
  }

  function PutAddress(a: Address): Bytes { Put([a.b, a.c, a.d], Put(PB.Varint(a.port), [])) }

  lemma AddressFacts(a: Address)
    ensures Printable(PutAddress(a))
    ensures a.Valid() ==> |PutAddress(a)| <= 28
  {
    PutFacts(PB.Varint(a.port), []);
    PutFacts([a.b, a.c, a.d], Put(PB.Varint(a.port), []));
    if a.Valid() {
      PB.LimitIsWord();
      VarintLength(a.port, 0);
    }
  }

  lemma AddressInjective(a: Address, c: Address)
    requires PutAddress(a) == PutAddress(c)
    ensures a == c
  {
    PutInjective([a.b, a.c, a.d], Put(PB.Varint(a.port), []), [c.b, c.c, c.d], Put(PB.Varint(c.port), []));
    assert [a.b, a.c, a.d][0] == [c.b, c.c, c.d][0] && [a.b, a.c, a.d][1] == [c.b, c.c, c.d][1]
      && [a.b, a.c, a.d][2] == [c.b, c.c, c.d][2];
    PutInjective(PB.Varint(a.port), [], PB.Varint(c.port), []);
    VarintInjective(a.port, c.port);
  }

  function Tag(p: Payload): Byte {
    match KindOf(p)
    case AnIntent => 0
    case APreparation => 1
    case ADispatch => 2
    case AReceipt => 3
    case AReconciliation => 4
  }

  function PutParts(p: Payload): Bytes {
    match p
    case IntentFrame(_, _, _, _, m, a) => PutIntent(p, PutManifest(m, PutAddress(a)))
    case PreparedFrame(r, m) => Put(r, PutManifest(m, []))
    case DispatchFrame(d) => Put(d, [])
    case TerminalFrame(r, m) => Put(r, PutManifest(m, []))
    case ReconciledFrame(r, m, receipt) => Put(r, PutManifest(m, Put(receipt, [])))
  }

  ghost predicate ProperPayload(p: Payload) {
    (!p.DispatchFrame? ==> p.manifest.Valid()) && (p.IntentFrame? ==> p.address.Valid())
  }

  lemma PartsFacts(p: Payload)
    ensures Printable(PutParts(p))
    ensures ProperPayload(p) ==> |PutParts(p)| <= 60 + PayloadSize(p)
  {
    match p
    case IntentFrame(_, _, _, _, m, a) =>
      AddressFacts(a);
      ManifestFacts(m, PutAddress(a));
      IntentFacts(p, PutManifest(m, PutAddress(a)));
    case PreparedFrame(r, m) =>
      ManifestFacts(m, []);
      PutFacts(r, PutManifest(m, []));
    case DispatchFrame(d) => PutFacts(d, []);
    case TerminalFrame(r, m) =>
      ManifestFacts(m, []);
      PutFacts(r, PutManifest(m, []));
    case ReconciledFrame(r, m, receipt) =>
      PutFacts(receipt, []);
      ManifestFacts(m, Put(receipt, []));
      PutFacts(r, PutManifest(m, Put(receipt, [])));
  }

  lemma PartsInjective(p: Payload, q: Payload)
    requires KindOf(p) == KindOf(q) && PutParts(p) == PutParts(q)
    ensures p == q
  {
    match p
    case IntentFrame(_, _, _, _, m, a) =>
      IntentInjective(p, PutManifest(m, PutAddress(a)), q, PutManifest(q.manifest, PutAddress(q.address)));
      ManifestInjective(m, PutAddress(a), q.manifest, PutAddress(q.address));
      AddressInjective(a, q.address);
    case PreparedFrame(r, m) =>
      PutInjective(r, PutManifest(m, []), q.record, PutManifest(q.manifest, []));
      ManifestInjective(m, [], q.manifest, []);
    case DispatchFrame(d) => PutInjective(d, [], q.planDigest, []);
    case TerminalFrame(r, m) =>
      PutInjective(r, PutManifest(m, []), q.record, PutManifest(q.manifest, []));
      ManifestInjective(m, [], q.manifest, []);
    case ReconciledFrame(r, m, receipt) =>
      PutInjective(r, PutManifest(m, Put(receipt, [])), q.record, PutManifest(q.manifest, Put(q.previousReceipt, [])));
      ManifestInjective(m, Put(receipt, []), q.manifest, Put(q.previousReceipt, []));
      PutInjective(receipt, [], q.previousReceipt, []);
  }

  function Text(f: Frame<Payload>): Bytes {
    Put(PB.Varint(f.sequence), Put(f.previous, Put(f.checksum, Put([Tag(f.payload)], PutParts(f.payload)))))
  }

  lemma TextFacts(f: Frame<Payload>)
    ensures Printable(Text(f))
    ensures Proper(f) ==> |Text(f)| < 1024 + PayloadSize(f.payload)
  {
    PartsFacts(f.payload);
    PutFacts([Tag(f.payload)], PutParts(f.payload));
    var s := Put([Tag(f.payload)], PutParts(f.payload));
    PutFacts(f.checksum, s);
    PutFacts(f.previous, Put(f.checksum, s));
    PutFacts(PB.Varint(f.sequence), Put(f.previous, Put(f.checksum, s)));
    if Proper(f) {
      PB.LimitIsWord();
      VarintLength(f.sequence, 0);
    }
  }

  lemma TextInjective(f: Frame<Payload>, g: Frame<Payload>)
    requires Text(f) == Text(g)
    ensures f == g
  {
    var s, t := Put([Tag(f.payload)], PutParts(f.payload)), Put([Tag(g.payload)], PutParts(g.payload));
    PutInjective(PB.Varint(f.sequence), Put(f.previous, Put(f.checksum, s)),
                 PB.Varint(g.sequence), Put(g.previous, Put(g.checksum, t)));
    VarintInjective(f.sequence, g.sequence);
    PutInjective(f.previous, Put(f.checksum, s), g.previous, Put(g.checksum, t));
    PutInjective(f.checksum, s, g.checksum, t);
    PutInjective([Tag(f.payload)], PutParts(f.payload), [Tag(g.payload)], PutParts(g.payload));
    assert [Tag(f.payload)][0] == [Tag(g.payload)][0];
    PartsInjective(f.payload, g.payload);
  }

  // The frame of a line, where there is one.
  ghost function Parse(line: Bytes): Option<Frame<Payload>> {
    if exists f: Frame<Payload> :: Text(f) + [LF] == line then
      var f: Frame<Payload> :| Text(f) + [LF] == line; Some(f)
    else None
  }

  lemma ParseText(f: Frame<Payload>)
    ensures Parse(Text(f) + [LF]) == Some(f)
  {
    var line := Text(f) + [LF];
    var g := Parse(line).value;
    assert Text(f) == line[..|line| - 1] == Text(g);
    TextInjective(f, g);
  }

  ghost function ExampleEnv(h: Sha): JournalEnv {
    Env(h, (n: nat, previous: Bytes, p: Payload) => Text(Frame(n, previous, p, [])), (f: Frame<Payload>) => Text(f),
        (line: Bytes) => Parse(line), (s: Option<State>, p: Payload) => Apply(WireOf(h), s, p))
  }

  lemma PrintableIsPlain(s: Bytes)
    requires Printable(s)
    ensures Plain(s)
  {
  }

  // The assumptions on canonical text can be met for every hash, so nothing below is vacuous.
  lemma TextExists(h: Sha)
    ensures IsJournal(WireOf(h), ExampleEnv(h)) && IsBook(BookOf(WireOf(h), ExampleEnv(h)))
  {
    var env := ExampleEnv(h);
    forall f: Frame<Payload> ensures Plain(env.text(f)) && env.parse(env.text(f) + [LF]) == Some(f) {
      TextFacts(f);
      PrintableIsPlain(Text(f));
      ParseText(f);
    }
    forall f: Frame<Payload> | Proper(f) ensures |env.text(f)| < 1024 + PayloadSize(f.payload) {
      TextFacts(f);
    }
    BookOfIsBook(WireOf(h), env);
  }

  ghost function ExampleBook(h: Sha): (b: Book)
    ensures IsBook(b)
  {
    TextExists(h);
    BookOf(WireOf(h), ExampleEnv(h))
  }

  // Any hash, any canonical text with the stated properties, and the journal's own transitions.
  type JournalBook = b: Book | IsBook(b) ghost witness ExampleBook((b: Bytes) => seq(32, _ => 0))
}
