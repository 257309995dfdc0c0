// scripts/build_placement_store.py: the size limits of a journal never stand in the way of a legal frame.
module PlacementCapacity {
  import opened Common
  import opened ByteCodec
  import opened PlacementRecord
  import opened PlacementRecordCodec
  import opened PlacementLog
  import opened PlacementJournal

  // The room that each frame may need.
  const INTENT_ROOM: nat := 4753
  const SHORT_ROOM: nat := 4828
  const DISPATCH_ROOM: nat := 1088
  const PLACED_ROOM: nat := 6780
  const RECONCILED_ROOM: nat := 6844

  // The room that a whole journal in this state may need.
  function Room(s: State): (n: nat)
    ensures n <= 22341
  {
    INTENT_ROOM + (if s.prepared.Some? then SHORT_ROOM else 0) + (if s.dispatched then DISPATCH_ROOM else 0)
    + (if s.terminal.None? then 0
       else if s.reconciledFrom.Some? then SHORT_ROOM + RECONCILED_ROOM
       else if s.terminal.value.phase.Placed? then PLACED_ROOM else SHORT_ROOM)
  }

  function ChainRoom(c: Chain<State>): nat { if c.state.None? then 0 else Room(c.state.value) }

  lemma ManifestRoom(m: Manifest)
    requires m.Valid()
    ensures ManifestSize(m) <= 1556
  {
  }

  lemma RecordRoom(w: Wire, r: Record)
    requires IsWire(w) && r.Valid()
    ensures |w.raw(r)| <= 2100 && (!r.phase.Placed? ==> |w.raw(r)| <= 1124)
  {
    WireDecodes(w, r);
    assert w.raw(r) == Raw(w.h, r);
    if !r.phase.Placed? { ShortRecordLength(w.h, r); }
  }

  lemma IntentRoom(w: Wire, p: Payload)
    requires p.IntentFrame? && Apply(w, None, p).Some?
    ensures PayloadSize(p) <= INTENT_ROOM - 1024 && p.manifest.Valid() && p.address.Valid()
  {
    IntentExactly(w, None, p);
    var plan, m, a :| IntentFits(plan, m, a) && p == IntentOf(w.h, plan, m, a);
    FieldsOfFit(w.h, plan);
    ManifestRoom(m);
  }

  // What a frame with a record may need, by its outcome.
  lemma RecordFrameRoom(w: Wire, s: State, p: Payload)
    requires IsWire(w) && Sound(s) && !p.IntentFrame? && !p.DispatchFrame? && Apply(w, Some(s), p).Some?
    ensures PayloadSize(p) + 1024 <= Room(Apply(w, Some(s), p).value) - Room(s) && p.manifest.Valid()
  {
    var r := w.decode(p.record, s.plan).value;
    WireSound(w, p.record, s.plan);
    RecordRoom(w, r);
    ManifestRoom(p.manifest);
    if p.ReconciledFrame? {
      ReceiptWidth(w, s.terminal.value);
      ReconciliationIs(w, s.terminal.value, r);
    }
  }

  // Every accepted frame takes no more than the room of its state has grown by.
  lemma FrameRoom(w: Wire, env: JournalEnv, c: Chain<State>, p: Payload)
    requires IsJournal(w, env) && SoundChain(c) && env.apply(c.state, p).Some? && c.frames < MAX_FRAMES
      && |c.tail| == 32
    ensures |Line(env, c, p)| <= MAX_FRAME
    ensures |Line(env, c, p)| + ChainRoom(c) <= Room(env.apply(c.state, p).value)
  {
    assert env.apply(c.state, p) == Apply(w, c.state, p);
    PayloadRoom(w, c.state, p);
    assert Proper(NextFrame(env, c, p));
  }

  lemma PayloadRoom(w: Wire, state: Option<State>, p: Payload)
    requires IsWire(w) && (state.Some? ==> Sound(state.value)) && Apply(w, state, p).Some?
    ensures PayloadSize(p) + 1024 + (if state.None? then 0 else Room(state.value)) <= Room(Apply(w, state, p).value)
    ensures PayloadSize(p) + 1024 <= MAX_FRAME
    ensures (!p.DispatchFrame? ==> p.manifest.Valid()) && (p.IntentFrame? ==> p.address.Valid())
  {
    if state.None? {
      FirstIsIntentOnly(w, p);
      IntentRoom(w, p);
    } else if p.DispatchFrame? {
      DispatchRoom(w, state.value, p);
    } else {
      LaterIsNoIntent(w, state.value, p);
      RecordFrameRoom(w, state.value, p);
    }
  }

  lemma DispatchRoom(w: Wire, s: State, p: Payload)
    requires p.DispatchFrame? && Apply(w, Some(s), p).Some?
    ensures PayloadSize(p) + 1024 + Room(s) == Room(Apply(w, Some(s), p).value)
  {
  }

  lemma FirstIsIntentOnly(w: Wire, p: Payload)
    requires Apply(w, None, p).Some?
    ensures p.IntentFrame?
  {
  }

  lemma LaterIsNoIntent(w: Wire, s: State, p: Payload)
    requires Apply(w, Some(s), p).Some?
    ensures !p.IntentFrame?
  {
  }

  lemma {:induction false} WrittenRoom(w: Wire, env: JournalEnv, ps: seq<Payload>)
    requires IsJournal(w, env) && Written(env, ps).Some?
    ensures |Written(env, ps).value.raw| <= ChainRoom(Written(env, ps).value.chain)
  {
    if ps != [] {
      var n := |ps| - 1;
      var before := ps[..n];
      WrittenRoom(w, env, before);
      WrittenIsLegal(w, env, before);
      WrittenIsLegal(w, env, ps);
      WrittenFrames(env, before);
      TailWidth(env, before);
      FrameRoom(w, env, Written(env, before).value.chain, ps[n]);
    }
  }

  // A file that replays never takes more than the room of its state.
  lemma FileRoom(w: Wire, env: JournalEnv, raw: Bytes)
    requires IsJournal(w, env) && Replay(env, raw).Some?
    ensures |raw| <= ChainRoom(Replay(env, raw).value)
  {
    var ps := ReplayUnderstood(env, raw);
    WrittenRoom(w, env, ps);
  }

  // An accepted frame is never the sixth.
  lemma FrameCount(w: Wire, env: JournalEnv, raw: Bytes, p: Payload)
    requires IsJournal(w, env) && Replay(env, raw).Some? && env.apply(Replay(env, raw).value.state, p).Some?
    ensures var c := Replay(env, raw).value;
            c.state.Some? && SoundChain(c) && |c.tail| == 32 && c.frames == |ChainHistory(c)| < MAX_FRAMES
  {
    var c := Replay(env, raw).value;
    var ps := ReplayIsLegal(w, env, raw);
    TailWidth(env, ps);
    StepFollows(w, env, c.state, p);
    HistoryGrows(c.state, p, env.apply(c.state, p).value);
  }

  // Behind an uncertain receipt there is always room for one whole frame.
  lemma UncertainRoom(s: State)
    requires Sound(s) && s.terminal.Some? && s.terminal.value.phase.Indeterminate?
    ensures Room(s) + MAX_FRAME <= MAX_FILE && |HistoryOf(s)| < MAX_FRAMES
  {
  }

  // A frame that the transitions allow is never refused for its size, the size of the file, the number of
  // frames or the reserve behind an uncertain receipt.
  lemma NeverTooLarge(w: Wire, env: JournalEnv, raw: Bytes, p: Payload)
    requires IsJournal(w, env) && Replay(env, raw).Some? && env.apply(Replay(env, raw).value.state, p).Some?
    ensures var c := Replay(env, raw).value;
            var out := FrameBytes(env, c, p);
            && out.Some? && Replay(env, raw + out.value) == Some(Advance(env, c, p))
            && Reserved(Advance(env, c, p), |raw + out.value|)
  {
    var c := Replay(env, raw).value;
    FrameCount(w, env, raw, p);
    FileRoom(w, env, raw);
    FrameRoom(w, env, c, p);
    ReplayAppend(env, raw, p);
    StepFollows(w, env, c.state, p);
    var s := env.apply(c.state, p).value;
    if s.terminal.Some? && s.terminal.value.phase.Indeterminate? {
      UncertainRoom(s);
      HistoryGrows(c.state, p, s);
    }
  }

  // The intent that starts a journal always fits.
  lemma FirstNeverTooLarge(w: Wire, env: JournalEnv, p: Payload)
    requires IsJournal(w, env) && env.apply(None, p).Some?
    ensures FrameBytes(env, Empty(), p).Some?
    ensures Replay(env, FrameBytes(env, Empty(), p).value) == Some(Advance(env, Empty(), p))
  {
    FrameRoom(w, env, Empty(), p);
    ReplayFirst(env, p);
  }
}
