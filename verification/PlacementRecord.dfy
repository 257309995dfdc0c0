// Plans, insertion proofs and native effect records, with their digests and codecs.
module PlacementRecord {
  import opened Common
  import opened ByteCodec
  import opened PlacementWire
  import opened PlacementCapture

  // SHA-256 is any fixed function from byte strings to 32 bytes.
  type Sha = h: Bytes -> Bytes | forall b :: |h(b)| == 32 witness (b: Bytes) => seq(32, _ => 0)

  function Digest(h: Sha, domain: string, raw: Bytes): (d: Bytes)
    ensures |d| == 32
  {
    h(Ascii(domain) + [0] + raw)
  }

  // ---- Insertion: proof that the construction job was registered.

  datatype Insertion = Insertion(building: nat, job: nat, item: nat, kind: nat, x: nat, y: nat, z: nat,
                                 material: int, materialIndex: int, stage: nat, maxStage: nat,
                                 linked: bool, constructJob: bool, exactItemLink: bool, suspended: bool) {
    predicate Valid() {
      && building < MAX_I32 && job < MAX_I32 && item < MAX_I32 && 1 <= kind <= 3
      && x <= 32767 && y <= 32767 && z <= 32767
      && SignedWord(material) && SignedWord(materialIndex)
      && 1 <= maxStage <= 32 && stage <= maxStage
    }

    // The insertion that a placement from this capture must have made.
    predicate Matches(before: Capture) {
      && building == before.nextBuilding && job == before.nextJob
      && item == before.selection.item && kind == before.selection.kind
      && x == before.selection.x && y == before.selection.y && z == before.selection.z
      && material == before.item.material && materialIndex == before.item.materialIndex && stage == 0
      && linked && constructJob && exactItemLink && !suspended
    }
  }

  const INSERTION_WIDTHS: seq<nat> := [4, 4, 4, 1, 4, 4, 4, 4, 4, 4, 4, 1, 1, 1, 1]

  function InsertionNums(i: Insertion): (n: seq<nat>)
    requires i.Valid()
    ensures |n| == 15
  {
    [i.building, i.job, i.item, i.kind, i.x, i.y, i.z, FromSigned(i.material), FromSigned(i.materialIndex),
     i.stage, i.maxStage, Bit(i.linked), Bit(i.constructJob), Bit(i.exactItemLink), Bit(i.suspended)]
  }

  function InsertionOf(n: seq<nat>): Insertion
    requires |n| == 15
  {
    Insertion(n[0], n[1], n[2], n[3], n[4], n[5], n[6], ToSigned(n[7]), ToSigned(n[8]), n[9], n[10],
              n[11] == 1, n[12] == 1, n[13] == 1, n[14] == 1)
  }

  function EncodeInsertion(i: Insertion): Bytes
    requires i.Valid()
  {
    Magic("DFMBI019") + PutNums(InsertionNums(i), INSERTION_WIDTHS, [])
  }

  function DecodeInsertion(raw: Bytes): Option<Insertion> {
    if |raw| > 53 then None else
      match GetBytes(raw, 8)
      case Fail => None
      case Ok(magic, s) =>
        if magic != Magic("DFMBI019") then None else
          match GetNums(s, INSERTION_WIDTHS)
          case Fail => None
          case Ok(n, rest) =>
            if |n| != 15 || n[11] > 1 || n[12] > 1 || n[13] > 1 || n[14] > 1 || rest != [] || !InsertionOf(n).Valid()
            then None else Some(InsertionOf(n))
  }

  lemma InsertionInverse(i: Insertion)
    requires i.Valid()
    ensures InsertionOf(InsertionNums(i)) == i && Fit(InsertionNums(i), INSERTION_WIDTHS)
  {
    RadixValues();
    assert ToSigned(FromSigned(i.material)) == i.material && ToSigned(FromSigned(i.materialIndex)) == i.materialIndex;
  }

  lemma InsertionNumsInverse(n: seq<nat>)
    requires |n| == 15 && n[11] <= 1 && n[12] <= 1 && n[13] <= 1 && n[14] <= 1 && InsertionOf(n).Valid()
    requires n[7] < I32_SPAN && n[8] < I32_SPAN
    ensures InsertionNums(InsertionOf(n)) == n
  {
    assert FromSigned(ToSigned(n[7])) == n[7] && FromSigned(ToSigned(n[8])) == n[8];
  }

  lemma InsertionWidthsTotal()
    ensures Total(INSERTION_WIDTHS) == 45
  {
    TotalSplit([4, 4, 4, 1, 4], [4, 4, 4, 4, 4, 4, 1, 1, 1, 1]);
    TotalSplit([4, 4, 4, 4, 4], [4, 1, 1, 1, 1]);
    assert INSERTION_WIDTHS == [4, 4, 4, 1, 4] + ([4, 4, 4, 4, 4] + [4, 1, 1, 1, 1]);
    FiveTotals();
  }

  // Insertion proofs decode back to themselves, and nothing else decodes.
  lemma InsertionExact(raw: Bytes)
    ensures forall i: Insertion :: i.Valid() && raw == EncodeInsertion(i) ==>
      |raw| == 53 && DecodeInsertion(raw) == Some(i)
    ensures DecodeInsertion(raw).Some? ==>
      DecodeInsertion(raw).value.Valid() && raw == EncodeInsertion(DecodeInsertion(raw).value)
  {
    forall i: Insertion | i.Valid() && raw == EncodeInsertion(i) ensures |raw| == 53
      && DecodeInsertion(raw) == Some(i) {
      InsertionDecodes(i);
    }
    if DecodeInsertion(raw).Some? { InsertionSound(raw); }
  }

  lemma InsertionDecodes(i: Insertion)
    requires i.Valid()
    ensures |EncodeInsertion(i)| == 53 && DecodeInsertion(EncodeInsertion(i)) == Some(i)
  {
    var n := InsertionNums(i);
    InsertionInverse(i);
    InsertionWidthsTotal();
    NumsLength(n, INSERTION_WIDTHS, []);
    BytesRoundTrip(Magic("DFMBI019"), PutNums(n, INSERTION_WIDTHS, []));
    NumsRoundTrip(n, INSERTION_WIDTHS, []);
  }

  lemma InsertionSound(raw: Bytes)
    requires DecodeInsertion(raw).Some?
    ensures DecodeInsertion(raw).value.Valid() && raw == EncodeInsertion(DecodeInsertion(raw).value)
  {
    RadixValues();
    BytesExact(raw, 8);
    var s := GetBytes(raw, 8).rest;
    NumsExact(s, INSERTION_WIDTHS);
    var n := GetNums(s, INSERTION_WIDTHS).value;
    assert n[7] < Radix(INSERTION_WIDTHS[7]) && n[8] < Radix(INSERTION_WIDTHS[8]);
    InsertionNumsInverse(n);
  }

  // ---- Plan: a key and the eligible capture it was made from.

  predicate KeyByte(b: Byte) {
    (48 <= b <= 57) || (65 <= b <= 90) || (97 <= b <= 122) || b == 95 || b == 46 || b == 45
  }

  predicate KeyText(key: Bytes) {
    1 <= |key| <= 128 && forall i :: 0 <= i < |key| ==> KeyByte(key[i])
  }

  datatype Plan = Plan(key: Bytes, before: Capture) {
    predicate Valid() { KeyText(key) && before.Valid() && before.Eligible() }
  }

  function Fingerprint(h: Sha, c: Capture): Bytes
    requires c.item.InRange()
  {
    h(Encode(c))
  }

  function PlanDigest(h: Sha, p: Plan): (d: Bytes)
    requires p.before.item.InRange()
    ensures |d| == 32
  {
    Digest(h, "dfmcp-build-plan/1", PutSelection(p.before.selection, []) + Fingerprint(h, p.before))
  }

  function Token(h: Sha, p: Plan): (t: Bytes)
    requires p.before.item.InRange()
    ensures |t| == 16
  {
    Digest(h, "dfmcp-build-token/1", PutField(p.key, PlanDigest(h, p)))[..16]
  }

  // ---- Record: what the native side retains about a plan.

  datatype Phase = Prepared | Indeterminate | Placed | Refused | Cancelled
  datatype Reason = NoReason | Stale | Expired | SourceChanged | CancelReason | NativeFailure

  const PHASES: seq<Phase> := [Prepared, Indeterminate, Placed, Refused, Cancelled]
  const REASONS: seq<Reason> := [NoReason, Stale, Expired, SourceChanged, CancelReason, NativeFailure]

  function PhaseIndex(p: Phase): (i: nat)
    ensures i < 5 && PHASES[i] == p
  {
    match p case Prepared => 0 case Indeterminate => 1 case Placed => 2 case Refused => 3 case Cancelled => 4
  }

  function ReasonIndex(r: Reason): (i: nat)
    ensures i < 6 && REASONS[i] == r
  {
    match r
    case NoReason => 0
    case Stale => 1
    case Expired => 2
    case SourceChanged => 3
    case CancelReason => 4
    case NativeFailure => 5
  }

  datatype Record = Record(plan: Plan, phase: Phase, reason: Reason, after: Option<Capture>,
                           insertion: Option<Insertion>) {

    predicate Attempted() { phase.Indeterminate? || phase.Placed? }

    predicate Resolved() { phase.Placed? || phase.Refused? || phase.Cancelled? }

    predicate ReasonFits() {
      match phase
      case Prepared => reason.NoReason?
      case Indeterminate => reason.NativeFailure?
      case Placed => reason.NoReason?
      case Refused => reason.Stale? || reason.Expired? || reason.SourceChanged?
      case Cancelled => reason.CancelReason?
    }

    // A placed record carries the one capture and the one insertion its plan allows.
    predicate Valid() {
      && plan.Valid() && ReasonFits()
      && (after.Some? <==> phase.Placed?) && (insertion.Some? <==> after.Some?)
      && (after.Some? ==> after.value.Valid() && after.value == plan.before.ExpectedAfter())
      && (insertion.Some? ==> insertion.value.Valid() && insertion.value.Matches(plan.before))
    }
  }
}
