// scripts/build_placement_store.py and build_placement_reconciliation.py: what the frames of
// one placement journal mean.
module PlacementJournal {
  import opened Common
  import opened ByteCodec
  import opened PlacementWire
  import opened PlacementCapture
  import opened PlacementRecord
  import opened PlacementRecordCodec
  import opened PlacementLog

  // The native incarnation and its software versions.
  datatype Manifest = Manifest(generation: nat, dfVersion: Bytes, dfhackVersion: Bytes) {
    predicate Valid() {
      1 <= generation <= 0xFFFF_FFFF_FFFF_FFFE && ValidText(dfVersion, 128) && ValidText(dfhackVersion, 128)
    }

    predicate SameSoftware(other: Manifest) { dfVersion == other.dfVersion && dfhackVersion == other.dfhackVersion }
  }

  // A loopback endpoint 127.b.c.d:port.
  datatype Address = Address(b: Byte, c: Byte, d: Byte, port: nat) {
    predicate Valid() { 1 <= port <= 65535 }
  }

  datatype Payload =
    | IntentFrame(key: Bytes, capture: Bytes, planDigest: Bytes, token: Bytes, manifest: Manifest, address: Address)
    | PreparedFrame(record: Bytes, manifest: Manifest)
    | DispatchFrame(planDigest: Bytes)
    | TerminalFrame(record: Bytes, manifest: Manifest)
    | ReconciledFrame(record: Bytes, manifest: Manifest, previousReceipt: Bytes)

  datatype State = State(plan: Plan, manifest: Manifest, address: Address, prepared: Option<Record>, dispatched: bool,
                         terminal: Option<Record>, terminalManifest: Option<Manifest>, reconciledFrom: Option<Record>) {
    predicate Pending() { terminal.None? || !terminal.value.Resolved() }

    function SourceGeneration(): nat {
      if terminalManifest.Some? then terminalManifest.value.generation else manifest.generation
    }
  }

  // The record codec as the journal calls it. `raw` is total: only valid records exist in the source.
  datatype Wire = Wire(h: Sha, decode: (Bytes, Plan) -> Option<Record>, raw: Record -> Bytes)

  function Raw(h: Sha, r: Record): Bytes { if r.Valid() then EncodeRecord(h, r) else [] }

  ghost predicate IsWire(w: Wire) {
    && (forall b: Bytes, p: Plan {:trigger DecodeRecord(w.h, b, Some(p))} ::
          w.decode(b, p) == DecodeRecord(w.h, b, Some(p)))
    && (forall r: Record {:trigger Raw(w.h, r)} :: w.raw(r) == Raw(w.h, r))
  }

  // The codec of the previous modules, as such a value.
  function WireOf(h: Sha): (w: Wire)
    ensures w.h == h && IsWire(w)
  {
    Wire(h, (b: Bytes, p: Plan) => DecodeRecord(h, b, Some(p)), (r: Record) => Raw(h, r))
  }

  lemma WireDecodes(w: Wire, r: Record)
    requires IsWire(w) && r.Valid()
    ensures w.decode(w.raw(r), r.plan) == Some(r) && 32 <= |w.raw(r)| <= 2100
  {
    RecordDecodes(w.h, r, Some(r.plan));
    RecordLength(w.h, r);
    assert w.raw(r) == Raw(w.h, r);
    assert w.decode(w.raw(r), r.plan) == DecodeRecord(w.h, w.raw(r), Some(r.plan));
  }

  lemma WireSound(w: Wire, b: Bytes, p: Plan)
    requires IsWire(w) && w.decode(b, p).Some?
    ensures var r := w.decode(b, p).value; r.Valid() && r.plan == p && b == w.raw(r)
  {
    assert w.decode(b, p) == DecodeRecord(w.h, b, Some(p));
    RecordSound(w.h, b, Some(p));
    assert w.raw(w.decode(b, p).value) == Raw(w.h, w.decode(b, p).value);
  }

  // The receipt checksum of a record, its last 32 bytes.
  function Receipt(w: Wire, r: Record): Bytes {
    var raw := w.raw(r);
    if |raw| < 32 then raw else raw[|raw| - 32..]
  }

  predicate VerifyReconciliation(w: Wire, previous: Record, current: Record) {
    && previous.phase.Indeterminate? && current.phase.Placed? && previous.plan == current.plan
    && w.decode(w.raw(previous), previous.plan).Some? && w.decode(w.raw(current), previous.plan).Some?
  }

  function ApplyIntent(w: Wire, p: Payload): Option<State>
    requires p.IntentFrame?
  {
    if !(0 < |p.capture| <= MAX_CAPTURE_BYTES) then None else
      match Decode(p.capture)
      case None => None
      case Some(before) =>
        var plan := Plan(p.key, before);
        if !plan.Valid() || p.planDigest != PlanDigest(w.h, plan) || p.token != Token(w.h, plan) then None
        else if !p.manifest.Valid() || p.manifest.generation != before.generation || !p.address.Valid() then None
        else Some(State(plan, p.manifest, p.address, None, false, None, None, None))
  }

  function ApplyReconciled(w: Wire, s: State, p: Payload): Option<State>
    requires p.ReconciledFrame?
  {
    if s.terminal.None? || s.reconciledFrom.Some? || p.record == [] then None else
      match w.decode(p.record, s.plan)
      case None => None
      case Some(value) =>
        if !p.manifest.Valid() || p.previousReceipt != Receipt(w, s.terminal.value) then None
        else if p.manifest != s.manifest || Some(p.manifest) != s.terminalManifest then None
        else if !VerifyReconciliation(w, s.terminal.value, value) then None
        else Some(s.(terminal := Some(value), terminalManifest := Some(p.manifest), reconciledFrom := s.terminal))
  }

  function ApplyRecord(w: Wire, s: State, p: Payload): Option<State>
    requires p.PreparedFrame? || p.TerminalFrame?
  {
    if p.record == [] then None else
      match w.decode(p.record, s.plan)
      case None => None
      case Some(value) =>
        if !p.manifest.Valid() || !p.manifest.SameSoftware(s.manifest) || p.manifest.generation < s.manifest.generation
          then None
        else if p.PreparedFrame? then
          if s.prepared.Some? || s.dispatched || !value.phase.Prepared? || p.manifest != s.manifest then None
          else Some(s.(prepared := Some(value)))
        else if value.phase.Prepared? then None
        else Some(s.(terminal := Some(value), terminalManifest := Some(p.manifest)))
  }

  function Apply(w: Wire, state: Option<State>, p: Payload): Option<State> {
    match state
    case None => if p.IntentFrame? then ApplyIntent(w, p) else None
    case Some(s) =>
      if p.ReconciledFrame? then ApplyReconciled(w, s, p)
      else if s.terminal.Some? then None
      else if p.DispatchFrame? then
        if s.prepared.None? || s.dispatched || !s.plan.before.item.InRange() || p.planDigest != PlanDigest(w.h, s.plan)
          then None
        else Some(s.(dispatched := true))
      else if p.IntentFrame? then None
      else ApplyRecord(w, s, p)
  }

  // What holds of every state that a journal stands for.
  ghost predicate Sound(s: State) {
    && s.plan.Valid() && s.manifest.Valid() && s.address.Valid() && s.manifest.generation == s.plan.before.generation
    && (s.dispatched ==> s.prepared.Some?) && (s.reconciledFrom.Some? ==> s.terminal.Some?)
    && (s.prepared.Some? ==>
          s.prepared.value.Valid() && s.prepared.value.plan == s.plan && s.prepared.value.phase.Prepared?)
    && (s.terminal.Some? <==> s.terminalManifest.Some?)
    && (s.terminal.Some? ==> SoundReceipt(s))
    && (s.reconciledFrom.Some? ==>
          s.terminal.value.phase.Placed? && s.reconciledFrom.value.phase.Indeterminate?
            && s.terminalManifest.value == s.manifest)
  }

  ghost predicate SoundReceipt(s: State)
    requires s.terminal.Some? && s.terminalManifest.Some?
  {
    && s.terminal.value.Valid() && s.terminal.value.plan == s.plan && !s.terminal.value.phase.Prepared?
    && s.terminalManifest.value.Valid() && s.terminalManifest.value.SameSoftware(s.manifest)
    && s.terminalManifest.value.generation >= s.manifest.generation
  }

  // How a frame of each kind may change the state; every other field stays.
  ghost predicate Follows(before: Option<State>, p: Payload, after: State) {
    match before
    case None =>
      && p.IntentFrame? && after.plan.key == p.key && after.manifest == p.manifest && after.address == p.address
      && after == State(after.plan, after.manifest, after.address, None, false, None, None, None)
    case Some(s) =>
      match p
      case IntentFrame(_, _, _, _, _, _) => false
      case PreparedFrame(_, _) =>
        s.prepared.None? && !s.dispatched && s.terminal.None? && after.prepared.Some?
          && after == s.(prepared := after.prepared)
      case DispatchFrame(_) => s.prepared.Some? && !s.dispatched && s.terminal.None? && after == s.(dispatched := true)
      case TerminalFrame(_, m) =>
        && s.terminal.None? && after.terminal.Some?
        && after == s.(terminal := after.terminal, terminalManifest := Some(m))
      case ReconciledFrame(_, m, _) =>
        && s.terminal.Some? && s.terminal.value.phase.Indeterminate? && s.reconciledFrom.None?
        && after.terminal.Some? && after.terminal.value.phase.Placed?
        && after == s.(terminal := after.terminal, terminalManifest := Some(m), reconciledFrom := s.terminal)
  }

  // Every accepted frame keeps the state sound and changes only what its kind may change.
  lemma ApplyFollows(w: Wire, state: Option<State>, p: Payload)
    requires IsWire(w) && Apply(w, state, p).Some? && (state.Some? ==> Sound(state.value))
    ensures Sound(Apply(w, state, p).value) && Follows(state, p, Apply(w, state, p).value)
  {
    if state.None? {
      IntentSound(w, p);
    } else if !p.DispatchFrame? {
      WireSound(w, p.record, state.value.plan);
    }
  }

  lemma IntentSound(w: Wire, p: Payload)
    requires p.IntentFrame? && ApplyIntent(w, p).Some?
    ensures Sound(ApplyIntent(w, p).value)
  {
  }

  // The intent frame of a plan is accepted exactly when its manifest is the plan's source.
  lemma IntentAccepted(w: Wire, plan: Plan, m: Manifest, a: Address)
    requires plan.Valid() && m.Valid() && a.Valid()
    ensures var p := IntentFrame(plan.key, Encode(plan.before), PlanDigest(w.h, plan), Token(w.h, plan), m, a);
            Apply(w, None, p) ==
            if m.generation == plan.before.generation then Some(State(plan, m, a, None, false, None, None, None))
              else None
  {
    FieldsOfFit(w.h, plan);
    DecodeExact(Encode(plan.before));
  }

  // The re-decoding in the reconciliation check never decides it.
  lemma ReconciliationIs(w: Wire, previous: Record, current: Record)
    requires IsWire(w) && previous.Valid() && current.Valid()
    ensures VerifyReconciliation(w, previous, current) <==>
            previous.phase.Indeterminate? && current.phase.Placed? && previous.plan == current.plan
  {
    WireDecodes(w, previous);
    WireDecodes(w, current);
  }

  // A resolved receipt is final.
  lemma ResolvedIsFinal(w: Wire, s: State, p: Payload)
    requires !s.Pending()
    ensures Apply(w, Some(s), p) == None
  {
  }

  // After an uncertain receipt, full placed evidence for the same plan from the same source is accepted.
  lemma ReconciliationAccepted(w: Wire, s: State, r: Record)
    requires IsWire(w) && Sound(s) && Reconcilable(s, r)
    ensures Apply(w, Some(s), ReconciliationPayload(w, s, r))
         == Some(s.(terminal := Some(r), reconciledFrom := s.terminal))
  {
    WireDecodes(w, r);
    ReconciliationIs(w, s.terminal.value, r);
  }

  // ---- Exactly which frames are accepted, and what they make of the state.

  // The bytes of a record of this plan.
  ghost predicate Carries(w: Wire, raw: Bytes, plan: Plan, r: Record) {
    r.Valid() && r.plan == plan && raw == w.raw(r)
  }

  lemma DecodesExactly(w: Wire, raw: Bytes, plan: Plan)
    requires IsWire(w)
    ensures w.decode(raw, plan).Some? <==> exists r :: Carries(w, raw, plan, r)
    ensures forall r :: Carries(w, raw, plan, r) ==> w.decode(raw, plan) == Some(r) && raw != []
  {
    forall r | Carries(w, raw, plan, r) ensures w.decode(raw, plan) == Some(r) && raw != [] { WireDecodes(w, r); }
    if w.decode(raw, plan).Some? {
      WireSound(w, raw, plan);
      assert Carries(w, raw, plan, w.decode(raw, plan).value);
    }
  }

  // A preparation: the first one, before any dispatch or receipt, by the native incarnation of the intent.
  lemma PreparationExactly(w: Wire, s: State, raw: Bytes, m: Manifest)
    requires IsWire(w) && s.manifest.Valid()
    ensures Apply(w, Some(s), PreparedFrame(raw, m)).Some? <==>
      && s.prepared.None? && !s.dispatched && s.terminal.None? && m == s.manifest
      && exists r :: Carries(w, raw, s.plan, r) && r.phase.Prepared?
    ensures forall r :: Carries(w, raw, s.plan, r) && Apply(w, Some(s), PreparedFrame(raw, m)).Some? ==>
      Apply(w, Some(s), PreparedFrame(raw, m)) == Some(s.(prepared := Some(r)))
  {
    DecodesExactly(w, raw, s.plan);
  }

  // A dispatch: once, after a preparation and before any receipt, for the plan of the journal.
  lemma DispatchExactly(w: Wire, s: State, d: Bytes)
    requires s.plan.before.item.InRange()
    ensures Apply(w, Some(s), DispatchFrame(d)) ==
      if s.prepared.Some? && !s.dispatched && s.terminal.None? && d == PlanDigest(w.h, s.plan)
      then Some(s.(dispatched := true)) else None
  {
  }

  // A receipt: the first one, not a prepared record, by the same software and no earlier incarnation.
  lemma ReceiptExactly(w: Wire, s: State, raw: Bytes, m: Manifest)
    requires IsWire(w)
    ensures Apply(w, Some(s), TerminalFrame(raw, m)).Some? <==>
      && s.terminal.None? && m.Valid() && m.generation >= s.manifest.generation
      && m.dfVersion == s.manifest.dfVersion && m.dfhackVersion == s.manifest.dfhackVersion
      && exists r :: Carries(w, raw, s.plan, r) && !r.phase.Prepared?
    ensures forall r :: Carries(w, raw, s.plan, r) && Apply(w, Some(s), TerminalFrame(raw, m)).Some? ==>
      Apply(w, Some(s), TerminalFrame(raw, m)) == Some(s.(terminal := Some(r), terminalManifest := Some(m)))
  {
    DecodesExactly(w, raw, s.plan);
  }

  // A reconciliation: placed evidence, once, for the uncertain receipt it names, by the original incarnation.
  lemma ReconciliationExactly(w: Wire, s: State, raw: Bytes, m: Manifest, receipt: Bytes)
    requires IsWire(w) && Sound(s)
    ensures Apply(w, Some(s), ReconciledFrame(raw, m, receipt)).Some? <==>
      && s.terminal.Some? && s.terminal.value.phase.Indeterminate? && receipt == Receipt(w, s.terminal.value)
      && m == s.manifest && s.terminalManifest == Some(m)
      && exists r :: Carries(w, raw, s.plan, r) && r.phase.Placed?
    ensures forall r :: Carries(w, raw, s.plan, r) && Apply(w, Some(s), ReconciledFrame(raw, m, receipt)).Some? ==>
      Apply(w, Some(s), ReconciledFrame(raw, m, receipt))
      == Some(s.(terminal := Some(r), terminalManifest := Some(m), reconciledFrom := s.terminal))
  {
    DecodesExactly(w, raw, s.plan);
    if s.terminal.Some? && w.decode(raw, s.plan).Some? {
      var r := w.decode(raw, s.plan).value;
      WireSound(w, raw, s.plan);
      ReconciliationIs(w, s.terminal.value, r);
    }
  }

  // An intent: only as the first frame, and only the one of an eligible plan from its own incarnation.
  lemma IntentExactly(w: Wire, state: Option<State>, p: Payload)
    requires p.IntentFrame?
    ensures Apply(w, state, p).Some? <==>
      state.None? && exists plan, m, a :: IntentFits(plan, m, a) && p == IntentOf(w.h, plan, m, a)
    ensures forall plan, m, a :: state.None? && IntentFits(plan, m, a) && p == IntentOf(w.h, plan, m, a) ==>
      Apply(w, state, p) == Some(State(plan, m, a, None, false, None, None, None))
  {
    forall plan, m, a | state.None? && IntentFits(plan, m, a) && p == IntentOf(w.h, plan, m, a)
      ensures Apply(w, state, p) == Some(State(plan, m, a, None, false, None, None, None))
    {
      IntentAccepted(w, plan, m, a);
    }
    if state.None? && Apply(w, state, p).Some? { IntentFound(w, p); }
  }

  lemma IntentFound(w: Wire, p: Payload)
    requires p.IntentFrame? && Apply(w, None, p).Some?
    ensures var s := Apply(w, None, p).value;
            IntentFits(s.plan, s.manifest, s.address) && p == IntentOf(w.h, s.plan, s.manifest, s.address)
  {
    DecodeExact(p.capture);
  }

  ghost predicate IntentFits(plan: Plan, m: Manifest, a: Address) {
    plan.Valid() && m.Valid() && a.Valid() && m.generation == plan.before.generation
  }

  // Nothing but an intent starts a journal.
  lemma FirstIsIntent(w: Wire, p: Payload)
    requires !p.IntentFrame?
    ensures Apply(w, None, p) == None
  {
  }

  // ---- The journal as a log.

  type JournalEnv = Env<Payload, State>

  // A bound on the canonical text of the fields: two characters for each byte written in hexadecimal, six
  // for each byte of a version text, the digits of a generation, and the endpoint.
  function PayloadSize(p: Payload): nat {
    match p
    case IntentFrame(key, capture, d, t, m, _) => 2 * (|key| + |capture| + |d| + |t|) + ManifestSize(m) + 21
    case PreparedFrame(record, m) => 2 * |record| + ManifestSize(m)
    case DispatchFrame(d) => 2 * |d|
    case TerminalFrame(record, m) => 2 * |record| + ManifestSize(m)
    case ReconciledFrame(record, m, receipt) => 2 * |record| + ManifestSize(m) + 2 * |receipt|
  }

  function ManifestSize(m: Manifest): nat { 20 + 6 * (|m.dfVersion| + |m.dfhackVersion|) }

  ghost predicate Proper(f: Frame<Payload>) {
    && f.sequence < MAX_FRAMES && |f.previous| == 32 && |f.checksum| == 32
    && (!f.payload.DispatchFrame? ==> f.payload.manifest.Valid())
    && (f.payload.IntentFrame? ==> f.payload.address.Valid())
  }

  ghost predicate Bounded(env: JournalEnv) {
    forall f: Frame<Payload> :: Proper(f) ==> |env.text(f)| < 1024 + PayloadSize(f.payload)
  }

  // Canonical text that parses back and stays in bounds, with the journal's transition function.
  ghost predicate IsJournal(w: Wire, env: JournalEnv) {
    && IsWire(w) && w.h == env.h && Faithful(env) && Bounded(env)
    && forall s: Option<State>, p: Payload {:trigger Apply(w, s, p)} :: env.apply(s, p) == Apply(w, s, p)
  }

  lemma StepFollows(w: Wire, env: JournalEnv, state: Option<State>, p: Payload)
    requires IsJournal(w, env) && env.apply(state, p).Some? && (state.Some? ==> Sound(state.value))
    ensures Sound(env.apply(state, p).value) && Follows(state, p, env.apply(state, p).value)
  {
    assert env.apply(state, p) == Apply(w, state, p);
    ApplyFollows(w, state, p);
  }

  lemma StepIsFinal(w: Wire, env: JournalEnv, s: State, p: Payload)
    requires IsJournal(w, env) && !s.Pending()
    ensures env.apply(Some(s), p) == None
  {
    ResolvedIsFinal(w, s, p);
  }

  datatype Kind = AnIntent | APreparation | ADispatch | AReceipt | AReconciliation

  function KindOf(p: Payload): Kind {
    match p
    case IntentFrame(_, _, _, _, _, _) => AnIntent
    case PreparedFrame(_, _) => APreparation
    case DispatchFrame(_) => ADispatch
    case TerminalFrame(_, _) => AReceipt
    case ReconciledFrame(_, _, _) => AReconciliation
  }

  function Kinds(ps: seq<Payload>): (ks: seq<Kind>)
    ensures |ks| == |ps|
  {
    if ps == [] then [] else Kinds(ps[..|ps| - 1]) + [KindOf(ps[|ps| - 1])]
  }

  // The one list of kinds that leads to a state.
  function HistoryOf(s: State): (ks: seq<Kind>)
    ensures 1 <= |ks| <= 5
  {
    [AnIntent] + (if s.prepared.Some? then [APreparation] else []) + (if s.dispatched then [ADispatch] else [])
    + (if s.terminal.Some? then [AReceipt] else []) + (if s.reconciledFrom.Some? then [AReconciliation] else [])
  }

  lemma HistoryGrows(before: Option<State>, p: Payload, after: State)
    requires Follows(before, p, after)
    requires before.Some? ==> Sound(before.value)
    ensures HistoryOf(after) == (if before.None? then [] else HistoryOf(before.value)) + [KindOf(p)]
  {
  }

  // The state of a log is sound and has exactly its own history behind it.
  lemma {:induction false} WrittenIsLegal(w: Wire, env: JournalEnv, ps: seq<Payload>)
    requires IsJournal(w, env) && Written(env, ps).Some?
    ensures SoundChain(Written(env, ps).value.chain) && Kinds(ps) == ChainHistory(Written(env, ps).value.chain)
  {
    if ps != [] {
      var n := |ps| - 1;
      WrittenIsLegal(w, env, ps[..n]);
      LegalStep(w, env, Written(env, ps[..n]).value.chain, ps[n]);
    }
  }

  ghost predicate SoundChain(c: Chain<State>) { c.state.Some? ==> Sound(c.state.value) }

  function ChainHistory(c: Chain<State>): seq<Kind> { if c.state.None? then [] else HistoryOf(c.state.value) }

  lemma LegalStep(w: Wire, env: JournalEnv, c: Chain<State>, p: Payload)
    requires IsJournal(w, env) && FrameBytes(env, c, p).Some? && SoundChain(c)
    ensures Advance(env, c, p).state.Some? && SoundChain(Advance(env, c, p))
    ensures ChainHistory(Advance(env, c, p)) == ChainHistory(c) + [KindOf(p)]
  {
    StepFollows(w, env, c.state, p);
    HistoryGrows(c.state, p, env.apply(c.state, p).value);
  }

  // Every file that replays has a legal history of at most five frames and a sound state.
  lemma ReplayIsLegal(w: Wire, env: JournalEnv, raw: Bytes) returns (ps: seq<Payload>)
    requires IsJournal(w, env) && Replay(env, raw).Some?
    ensures var c := Replay(env, raw).value;
            Written(env, ps) == Some(Log(raw, c)) && c.state.Some? && SoundChain(c) &&
            Kinds(ps) == ChainHistory(c) && c.frames == |ps| <= 5
  {
    ps := ReplayUnderstood(env, raw);
    WrittenIsLegal(w, env, ps);
    WrittenFrames(env, ps);
  }

  lemma {:induction false} TailWidth(env: JournalEnv, ps: seq<Payload>)
    requires Written(env, ps).Some?
    ensures |Written(env, ps).value.chain.tail| == 32
  {
    if ps != [] { TailWidth(env, ps[..|ps| - 1]); }
  }

  // The size of a frame that carries a record.
  lemma RecordFrameFits(w: Wire, env: JournalEnv, c: Chain<State>, p: Payload, r: Record)
    requires IsJournal(w, env) && c.frames < MAX_FRAMES && |c.tail| == 32
    requires !p.IntentFrame? && !p.DispatchFrame? && r.Valid() && p.record == w.raw(r) && p.manifest.Valid()
    requires p.ReconciledFrame? ==> |p.previousReceipt| <= 32
    ensures |Line(env, c, p)| <= MAX_FRAME
  {
    WireDecodes(w, r);
    assert Proper(NextFrame(env, c, p));
  }

  // The room that an append keeps behind an uncertain receipt.
  predicate Reserved(c: Chain<State>, size: nat) {
    c.state.Some? && c.state.value.terminal.Some? && c.state.value.terminal.value.phase.Indeterminate? ==>
      c.frames < MAX_FRAMES && size + MAX_FRAME <= MAX_FILE
  }

  // An uncertain receipt, and placed evidence for it from the same source.
  ghost predicate Reconcilable(s: State, r: Record) {
    && s.terminal.Some? && s.terminal.value.phase.Indeterminate? && s.terminalManifest == Some(s.manifest)
    && r.Valid() && r.phase.Placed? && r.plan == s.plan
  }

  function ReconciliationPayload(w: Wire, s: State, r: Record): Payload
    requires r.Valid() && s.terminal.Some?
  {
    ReconciledFrame(w.raw(r), s.manifest, Receipt(w, s.terminal.value))
  }

  lemma ReconciliationFrame(w: Wire, env: JournalEnv, c: Chain<State>, r: Record)
    requires IsJournal(w, env) && c.state.Some? && Sound(c.state.value) && Reconcilable(c.state.value, r)
    requires c.frames < MAX_FRAMES && |c.tail| == 32
    ensures var s := c.state.value;
            var p := ReconciliationPayload(w, s, r);
            FrameBytes(env, c, p).Some? &&
            env.apply(c.state, p) == Some(s.(terminal := Some(r), reconciledFrom := s.terminal))
  {
    var s := c.state.value;
    ReconciliationAccepted(w, s, r);
    ReceiptWidth(w, s.terminal.value);
    RecordFrameFits(w, env, c, ReconciliationPayload(w, s, r), r);
  }

  // Behind a stored uncertain receipt, placed evidence of the original attempt always fits.
  lemma ReconciliationFits(w: Wire, env: JournalEnv, raw: Bytes, r: Record)
    requires IsJournal(w, env) && Replay(env, raw).Some? && Reserved(Replay(env, raw).value, |raw|)
    requires Replay(env, raw).value.state.Some? && Reconcilable(Replay(env, raw).value.state.value, r)
    ensures var c := Replay(env, raw).value;
            var s := c.state.value;
            var out := FrameBytes(env, c, ReconciliationPayload(w, s, r));
            out.Some? && Replay(env, raw + out.value).Some? &&
            Replay(env, raw + out.value).value.state == Some(s.(terminal := Some(r), reconciledFrom := s.terminal))
  {
    var c := Replay(env, raw).value;
    var ps := ReplayIsLegal(w, env, raw);
    TailWidth(env, ps);
    ReconciliationFrame(w, env, c, r);
    ReplayAppend(env, raw, ReconciliationPayload(w, c.state.value, r));
  }

  lemma ReceiptWidth(w: Wire, r: Record)
    requires IsWire(w) && r.Valid()
    ensures |Receipt(w, r)| == 32
  {
    WireDecodes(w, r);
  }

  function IntentOf(h: Sha, plan: Plan, m: Manifest, a: Address): Payload
    requires plan.Valid()
  {
    IntentFrame(plan.key, Encode(plan.before), PlanDigest(h, plan), Token(h, plan), m, a)
  }

  // The operations that the directory, the connection and the protocol use, as values: replaying a
  // file, framing a payload, and checking, naming and announcing a plan.
  datatype Book = Book(wire: Wire, env: JournalEnv, replay: Bytes -> Option<Chain<State>>,
                       frame: (Chain<State>, Payload) -> Option<Bytes>, validPlan: Plan -> bool,
                       digest: Plan -> Bytes, intent: (Plan, Manifest, Address) -> Payload)

  ghost predicate IsBook(b: Book) {
    && IsJournal(b.wire, b.env)
    && (forall raw: Bytes {:trigger Replay(b.env, raw)} :: b.replay(raw) == Replay(b.env, raw))
    && (forall c: Chain<State>, p: Payload {:trigger FrameBytes(b.env, c, p)} ::
          b.frame(c, p) == FrameBytes(b.env, c, p))
    && (forall p: Plan {:trigger p.Valid()} :: b.validPlan(p) == p.Valid())
    && (forall p: Plan {:trigger PlanDigest(b.wire.h, p)} :: p.Valid() ==> b.digest(p) == PlanDigest(b.wire.h, p))
    && (forall p: Plan, m: Manifest, a: Address {:trigger IntentOf(b.wire.h, p, m, a)} ::
          p.Valid() ==> b.intent(p, m, a) == IntentOf(b.wire.h, p, m, a))
  }

  function BookOf(wire: Wire, env: JournalEnv): Book {
    Book(wire, env, (raw: Bytes) => Replay(env, raw), (c: Chain<State>, p: Payload) => FrameBytes(env, c, p),
         (p: Plan) => p.Valid(), (p: Plan) => if p.Valid() then PlanDigest(wire.h, p) else [],
         (p: Plan, m: Manifest, a: Address) => if p.Valid() then IntentOf(wire.h, p, m, a) else DispatchFrame([]))
  }

  lemma BookOfIsBook(wire: Wire, env: JournalEnv)
    requires IsJournal(wire, env)
    ensures IsBook(BookOf(wire, env))
  {
  }

  // Records with different outcomes have different bytes.
  lemma WireInjective(w: Wire, r: Record, s: Record)
    requires IsWire(w) && r.Valid() && s.Valid() && r.plan == s.plan && w.raw(r) == w.raw(s)
    ensures r == s
  {
    WireDecodes(w, r);
    WireDecodes(w, s);
  }
}
