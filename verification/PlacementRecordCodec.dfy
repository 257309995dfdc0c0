// The canonical bytes of an effect record: a plan part, an outcome part and a checksum.
module PlacementRecordCodec {
  import opened Common
  import opened ByteCodec
  import opened PlacementWire
  import opened PlacementCapture
  import opened PlacementRecord

  // The plan part as raw fields: key, capture bytes, plan digest and token.
  datatype PlanFields = PlanFields(key: Bytes, raw: Bytes, plan: Bytes, token: Bytes)

  predicate FieldsFit(f: PlanFields) {
    1 <= |f.key| <= 128 && 1 <= |f.raw| <= MAX_CAPTURE_BYTES && |f.plan| == 32 && |f.token| == 16
  }

  function PutFields(f: PlanFields, tail: Bytes): Bytes {
    Magic("DFMBR019") + PutField(f.key, PutField(f.raw, f.plan + (f.token + tail)))
  }

  function GetFields(s: Bytes): Parsed<PlanFields> {
    var (magic, s0) :- GetBytes(s, 8);
    var (key, s1) :- GetField(s0, 128);
    var (raw, s2) :- GetField(s1, MAX_CAPTURE_BYTES);
    var (d, s3) :- GetBytes(s2, 32);
    var (t, s4) :- GetBytes(s3, 16);
    if magic == Magic("DFMBR019") then Ok(PlanFields(key, raw, d, t), s4) else Fail
  }

  lemma FieldsRoundTrip(f: PlanFields, tail: Bytes)
    requires FieldsFit(f)
    ensures GetFields(PutFields(f, tail)) == Ok(f, tail)
  {
    var s3 := f.token + tail;
    var s2 := f.plan + s3;
    var s1 := PutField(f.raw, s2);
    BytesRoundTrip(Magic("DFMBR019"), PutField(f.key, s1));
    FieldRoundTrip(f.key, 128, s1);
    FieldRoundTrip(f.raw, MAX_CAPTURE_BYTES, s2);
    BytesRoundTrip(f.plan, s3);
    BytesRoundTrip(f.token, tail);
  }

  lemma FieldsExact(s: Bytes)
    requires GetFields(s).Ok?
    ensures FieldsFit(GetFields(s).value) && s == PutFields(GetFields(s).value, GetFields(s).rest)
  {
    BytesExact(s, 8);
    var s0 := GetBytes(s, 8).rest;
    FieldExact(s0, 128);
    var s1 := GetField(s0, 128).rest;
    FieldExact(s1, MAX_CAPTURE_BYTES);
    var s2 := GetField(s1, MAX_CAPTURE_BYTES).rest;
    BytesExact(s2, 32);
    BytesExact(GetBytes(s2, 32).rest, 16);
  }

  lemma FieldsAppend(f: PlanFields, a: Bytes, b: Bytes)
    ensures PutFields(f, a) + b == PutFields(f, a + b)
  {
    assert f.plan + (f.token + a) + b == f.plan + (f.token + (a + b));
    FieldAppend(f.raw, f.plan + (f.token + a), b);
    var inner := PutField(f.raw, f.plan + (f.token + a));
    FieldAppend(f.key, inner, b);
    assert Magic("DFMBR019") + PutField(f.key, inner) + b == Magic("DFMBR019") + (PutField(f.key, inner) + b);
  }

  lemma FieldsLength(f: PlanFields, tail: Bytes)
    ensures |PutFields(f, tail)| == 12 + |f.key| + |f.raw| + |f.plan| + |f.token| + |tail|
  {
    var rest := f.plan + (f.token + tail);
    FieldLength(f.raw, rest);
    FieldLength(f.key, PutField(f.raw, rest));
  }

  function FieldsOf(h: Sha, p: Plan): PlanFields
    requires p.before.item.InRange()
  {
    PlanFields(p.key, Encode(p.before), PlanDigest(h, p), Token(h, p))
  }

  lemma FieldsOfFit(h: Sha, p: Plan)
    requires p.Valid()
    ensures FieldsFit(FieldsOf(h, p)) && |Encode(p.before)| <= 900
  {
    EncodeLength(p.before);
    HeadNonEmpty(p.before);
  }

  lemma HeadNonEmpty(c: Capture)
    requires c.item.InRange()
    ensures |Encode(c)| >= 8
  {
  }

  // The plan that the fields name, when its digest and token are the committed ones.
  function PlanOf(h: Sha, f: PlanFields): Option<Plan> {
    match Decode(f.raw)
    case None => None
    case Some(c) =>
      var p := Plan(f.key, c);
      if p.Valid() && f.plan == PlanDigest(h, p) && f.token == Token(h, p) then Some(p) else None
  }

  lemma PlanOfExact(h: Sha, f: PlanFields)
    ensures forall p: Plan :: p.Valid() && f == FieldsOf(h, p) ==> PlanOf(h, f) == Some(p)
    ensures PlanOf(h, f).Some? ==> PlanOf(h, f).value.Valid() && f == FieldsOf(h, PlanOf(h, f).value)
  {
    DecodeExact(f.raw);
  }

  function GetPlan(h: Sha, s: Bytes): Parsed<Plan> {
    var (f, s1) :- GetFields(s);
    match PlanOf(h, f) case None => Fail case Some(p) => Ok(p, s1)
  }

  lemma PlanRoundTrip(h: Sha, p: Plan, tail: Bytes)
    requires p.Valid()
    ensures GetPlan(h, PutFields(FieldsOf(h, p), tail)) == Ok(p, tail)
  {
    FieldsOfFit(h, p);
    FieldsRoundTrip(FieldsOf(h, p), tail);
    PlanOfExact(h, FieldsOf(h, p));
  }

  lemma PlanExact(h: Sha, s: Bytes)
    requires GetPlan(h, s).Ok?
    ensures GetPlan(h, s).value.Valid() && s == PutFields(FieldsOf(h, GetPlan(h, s).value), GetPlan(h, s).rest)
  {
    FieldsExact(s);
    PlanOfExact(h, GetFields(s).value);
  }

  // The evidence of a placed record as two raw fields, absent from every other record.
  function PutTwo(a: Bytes, i: Bytes, tail: Bytes): Bytes { PutField(a, PutField(i, tail)) }

  function GetTwo(s: Bytes): Parsed<(Bytes, Bytes)> {
    var (a, s1) :- GetField(s, MAX_CAPTURE_BYTES);
    var (i, s2) :- GetField(s1, 53);
    Ok((a, i), s2)
  }

  lemma TwoRoundTrip(a: Bytes, i: Bytes, tail: Bytes)
    requires 1 <= |a| <= MAX_CAPTURE_BYTES && 1 <= |i| <= 53
    ensures GetTwo(PutTwo(a, i, tail)) == Ok((a, i), tail)
  {
    FieldRoundTrip(a, MAX_CAPTURE_BYTES, PutField(i, tail));
    FieldRoundTrip(i, 53, tail);
  }

  lemma TwoExact(s: Bytes)
    requires GetTwo(s).Ok?
    ensures s == PutTwo(GetTwo(s).value.0, GetTwo(s).value.1, GetTwo(s).rest)
  {
    FieldExact(s, MAX_CAPTURE_BYTES);
    FieldExact(GetField(s, MAX_CAPTURE_BYTES).rest, 53);
  }

  lemma TwoAppend(a: Bytes, i: Bytes, tail: Bytes)
    ensures PutTwo(a, i, []) + tail == PutTwo(a, i, tail)
    ensures |PutTwo(a, i, tail)| == 4 + |a| + |i| + |tail|
  {
    FieldAppend(a, PutField(i, []), tail);
    FieldAppend(i, [], tail);
    assert [] + tail == tail;
    FieldLength(i, tail);
    FieldLength(a, PutField(i, tail));
  }

  function PutEvidence(r: Record, tail: Bytes): Bytes
    requires r.Valid()
  {
    if r.after.None? then tail else PutTwo(Encode(r.after.value), EncodeInsertion(r.insertion.value), tail)
  }

  function GetEvidence(s: Bytes, present: bool): Parsed<(Option<Capture>, Option<Insertion>)> {
    if !present then Ok((None, None), s) else
      var (e, s1) :- GetTwo(s);
      match (Decode(e.0), DecodeInsertion(e.1))
      case (Some(after), Some(insertion)) => Ok((Some(after), Some(insertion)), s1)
      case _ => Fail
  }

  lemma EvidenceRoundTrip(r: Record, tail: Bytes)
    requires r.Valid()
    ensures GetEvidence(PutEvidence(r, tail), r.after.Some?) == Ok((r.after, r.insertion), tail)
  {
    if r.after.Some? {
      var a, i := Encode(r.after.value), EncodeInsertion(r.insertion.value);
      EncodeLength(r.after.value);
      HeadNonEmpty(r.after.value);
      InsertionDecodes(r.insertion.value);
      TwoRoundTrip(a, i, tail);
      DecodeExact(a);
    }
  }

  lemma EvidenceExact(s: Bytes, present: bool, r: Record)
    requires GetEvidence(s, present).Ok? && GetEvidence(s, present).value == (r.after, r.insertion) && r.Valid()
    ensures s == PutEvidence(r, GetEvidence(s, present).rest)
  {
    if present {
      TwoExact(s);
      DecodeExact(GetTwo(s).value.0);
      InsertionExact(GetTwo(s).value.1);
    }
  }

  lemma EvidenceAppend(r: Record, tail: Bytes)
    requires r.Valid()
    ensures PutEvidence(r, []) + tail == PutEvidence(r, tail)
    ensures |PutEvidence(r, [])| <= 957
  {
    if r.after.Some? {
      EncodeLength(r.after.value);
      InsertionDecodes(r.insertion.value);
      TwoAppend(Encode(r.after.value), EncodeInsertion(r.insertion.value), tail);
    } else {
      assert [] + tail == tail;
    }
  }

  const OUTCOME_WIDTHS: seq<nat> := [1, 1, 1, 1]

  function OutcomeNums(r: Record): seq<nat> {
    [PhaseIndex(r.phase), ReasonIndex(r.reason), Bit(r.Attempted()), Bit(r.after.Some?)]
  }

  function PutOutcome(r: Record, tail: Bytes): Bytes
    requires r.Valid()
  {
    PutNums(OutcomeNums(r), OUTCOME_WIDTHS, PutEvidence(r, tail))
  }

  function GetOutcome(p: Plan, s: Bytes): Parsed<Record> {
    var (n, s1) :- GetNums(s, OUTCOME_WIDTHS);
    if |n| != 4 || n[0] > 4 || n[1] > 5 || n[2] > 1 || n[3] > 1 then Fail else
      var (e, s2) :- GetEvidence(s1, n[3] == 1);
      var r := Record(p, PHASES[n[0]], REASONS[n[1]], e.0, e.1);
      if n[2] == Bit(r.Attempted()) && r.Valid() then Ok(r, s2) else Fail
  }

  lemma OutcomeRoundTrip(r: Record, tail: Bytes)
    requires r.Valid()
    ensures GetOutcome(r.plan, PutOutcome(r, tail)) == Ok(r, tail)
  {
    RadixValues();
    NumsRoundTrip(OutcomeNums(r), OUTCOME_WIDTHS, PutEvidence(r, tail));
    EvidenceRoundTrip(r, tail);
  }

  lemma OutcomeExact(p: Plan, s: Bytes)
    requires GetOutcome(p, s).Ok?
    ensures var o := GetOutcome(p, s);
            o.value.Valid() && o.value.plan == p && s == PutOutcome(o.value, o.rest)
  {
    NumsExact(s, OUTCOME_WIDTHS);
    var g := GetNums(s, OUTCOME_WIDTHS);
    var r := GetOutcome(p, s).value;
    EvidenceExact(g.rest, g.value[3] == 1, r);
    OutcomeNumsInverse(r, g.value);
  }

  lemma OutcomeNumsInverse(r: Record, n: seq<nat>)
    requires |n| == 4 && n[0] <= 4 && n[1] <= 5 && r.phase == PHASES[n[0]] && r.reason == REASONS[n[1]]
    requires n[2] == Bit(r.Attempted()) && n[3] == Bit(r.after.Some?)
    ensures OutcomeNums(r) == n
  {
    assert PhaseIndex(PHASES[n[0]]) == n[0];
    assert ReasonIndex(REASONS[n[1]]) == n[1];
  }

  function Body(h: Sha, r: Record, tail: Bytes): Bytes
    requires r.Valid()
  {
    PutFields(FieldsOf(h, r.plan), PutOutcome(r, tail))
  }

  function GetBody(h: Sha, s: Bytes): Parsed<Record> {
    var (p, s1) :- GetPlan(h, s);
    GetOutcome(p, s1)
  }

  const RECEIPT: string := "dfmcp-build-receipt/1"

  function EncodeRecord(h: Sha, r: Record): Bytes
    requires r.Valid()
  {
    Body(h, r, []) + Digest(h, RECEIPT, Body(h, r, []))
  }

  // Decoding as the source does it, with the receipt checksum and the re-encoding check.
  function DecodeRecord(h: Sha, raw: Bytes, expected: Option<Plan>): Option<Record> {
    if |raw| > MAX_RECORD_BYTES then None else
      match GetBody(h, raw)
      case Fail => None
      case Ok(r, rest) =>
        if |rest| != 32 || |raw| < 32 || rest != Digest(h, RECEIPT, raw[..|raw| - 32]) then None
        else if expected.Some? && r.plan != expected.value then None
        else if !r.Valid() || EncodeRecord(h, r) != raw then None
        else Some(r)
  }

  lemma BodyRoundTrip(h: Sha, r: Record, tail: Bytes)
    requires r.Valid()
    ensures GetBody(h, Body(h, r, tail)) == Ok(r, tail)
  {
    PlanRoundTrip(h, r.plan, PutOutcome(r, tail));
    OutcomeRoundTrip(r, tail);
  }

  lemma BodyExact(h: Sha, s: Bytes)
    requires GetBody(h, s).Ok?
    ensures GetBody(h, s).value.Valid() && s == Body(h, GetBody(h, s).value, GetBody(h, s).rest)
  {
    PlanExact(h, s);
    var p := GetPlan(h, s);
    OutcomeExact(p.value, p.rest);
  }

  lemma OutcomeAppend(r: Record, tail: Bytes)
    requires r.Valid()
    ensures PutOutcome(r, []) + tail == PutOutcome(r, tail)
    ensures |PutOutcome(r, [])| <= 961
  {
    EvidenceAppend(r, tail);
    NumsAppend(OutcomeNums(r), OUTCOME_WIDTHS, PutEvidence(r, []), tail);
    TotalAtMost(OUTCOME_WIDTHS, 1);
    NumsLength(OutcomeNums(r), OUTCOME_WIDTHS, PutEvidence(r, []));
  }

  lemma BodyAppend(h: Sha, r: Record, tail: Bytes)
    requires r.Valid()
    ensures Body(h, r, []) + tail == Body(h, r, tail)
  {
    OutcomeAppend(r, tail);
    FieldsAppend(FieldsOf(h, r.plan), PutOutcome(r, []), tail);
  }

  // The record size limit is never reached.
  lemma RecordLength(h: Sha, r: Record)
    requires r.Valid()
    ensures 32 <= |EncodeRecord(h, r)| <= 2100
  {
    OutcomeAppend(r, []);
    FieldsOfFit(h, r.plan);
    FieldsLength(FieldsOf(h, r.plan), PutOutcome(r, []));
  }

  // Only placed records carry evidence; the others are short.
  lemma ShortRecordLength(h: Sha, r: Record)
    requires r.Valid() && !r.phase.Placed?
    ensures |EncodeRecord(h, r)| <= 1124
  {
    TotalAtMost(OUTCOME_WIDTHS, 1);
    NumsLength(OutcomeNums(r), OUTCOME_WIDTHS, []);
    FieldsOfFit(h, r.plan);
    FieldsLength(FieldsOf(h, r.plan), PutOutcome(r, []));
  }

  lemma DropSum(body: Bytes, sum: Bytes)
    requires |sum| == 32
    ensures (body + sum)[..|body + sum| - 32] == body
  {
  }

  // Records decode back to themselves whatever the hash is, for the right plan only.
  lemma RecordDecodes(h: Sha, r: Record, expected: Option<Plan>)
    requires r.Valid() && (expected.Some? ==> r.plan == expected.value)
    ensures DecodeRecord(h, EncodeRecord(h, r), expected) == Some(r)
  {
    var body := Body(h, r, []);
    var sum := Digest(h, RECEIPT, body);
    BodyAppend(h, r, sum);
    BodyRoundTrip(h, r, sum);
    RecordLength(h, r);
    DropSum(body, sum);
  }

  // The re-encoding check never rejects what the readers and the checksum accepted.
  lemma RecordRecheckIdle(h: Sha, raw: Bytes)
    requires GetBody(h, raw).Ok? && |GetBody(h, raw).rest| == 32
    requires |raw| >= 32 && GetBody(h, raw).rest == Digest(h, RECEIPT, raw[..|raw| - 32])
    ensures GetBody(h, raw).value.Valid() && EncodeRecord(h, GetBody(h, raw).value) == raw
  {
    BodyExact(h, raw);
    var r, rest := GetBody(h, raw).value, GetBody(h, raw).rest;
    BodyAppend(h, r, rest);
    assert raw == Body(h, r, []) + rest;
    assert raw[..|raw| - 32] == Body(h, r, []);
  }

  lemma RecordSound(h: Sha, raw: Bytes, expected: Option<Plan>)
    requires DecodeRecord(h, raw, expected).Some?
    ensures var r := DecodeRecord(h, raw, expected).value;
            r.Valid() && raw == EncodeRecord(h, r) && (expected.Some? ==> r.plan == expected.value)
  {
  }

  lemma RecordInjective(h: Sha, r: Record, s: Record)
    requires r.Valid() && s.Valid() && EncodeRecord(h, r) == EncodeRecord(h, s)
    ensures r == s
  {
    RecordDecodes(h, r, None);
    RecordDecodes(h, s, None);
  }
}
