// The journal operations as the directory and the protocol use them.
module PlacementBook {
  import opened Common
  import opened ByteCodec
  import opened PlacementRecord
  import opened PlacementLog
  import opened PlacementJournal
  import opened PlacementCapacity
  import opened PlacementText

  // A file that replays stands for a sound state.
  lemma BookSound(b: JournalBook, raw: Bytes)
    requires b.replay(raw).Some?
    ensures b.replay(raw).value.state.Some? && SoundChain(b.replay(raw).value)
  {
    assert b.replay(raw) == Replay(b.env, raw);
    var ps := ReplayIsLegal(b.wire, b.env, raw);
  }

  // Appending a frame to a file that replays: possible only while it is pending, and changing only
  // what the frame may change.
  lemma BookAppend(b: JournalBook, raw: Bytes, p: Payload)
    requires b.replay(raw).Some? && b.frame(b.replay(raw).value, p).Some?
    requires b.replay(raw + b.frame(b.replay(raw).value, p).value).Some?
    ensures var c := b.replay(raw).value;
            var next := b.replay(raw + b.frame(c, p).value).value;
            c.state.Some? && c.state.value.Pending() && next.state.Some? && Follows(c.state, p, next.state.value)
  {
    var c := b.replay(raw).value;
    assert c == Replay(b.env, raw).value;
    assert b.frame(c, p) == FrameBytes(b.env, c, p);
    assert b.replay(raw + b.frame(c, p).value) == Replay(b.env, raw + b.frame(c, p).value);
    BookSound(b, raw);
    ReplayAppend(b.env, raw, p);
    StepFollows(b.wire, b.env, c.state, p);
    if !c.state.value.Pending() { StepIsFinal(b.wire, b.env, c.state.value, p); }
  }

  // A strict part of a frame after whole frames is refused, and so is a strict part of a first frame.
  lemma BookTorn(b: JournalBook, raw: Bytes, c: Chain<State>, p: Payload, k: nat)
    requires b.frame(c, p).Some? && 0 < k < |b.frame(c, p).value|
    ensures b.replay(raw + b.frame(c, p).value[..k]).None?
  {
    assert b.frame(c, p) == FrameBytes(b.env, c, p);
    var torn := raw + b.frame(c, p).value[..k];
    assert b.replay(torn) == Replay(b.env, torn);
    TornRefused(b.env, raw, c, p, k);
  }

  // The file with only the intent of a plan.
  lemma BookIntent(b: JournalBook, plan: Plan, m: Manifest, a: Address)
    requires b.validPlan(plan) && m.Valid() && a.Valid()
    requires b.frame(Empty(), b.intent(plan, m, a)).Some?
    requires b.replay(b.frame(Empty(), b.intent(plan, m, a)).value).Some?
    ensures b.replay(b.frame(Empty(), b.intent(plan, m, a)).value).value.state
         == Some(State(plan, m, a, None, false, None, None, None))
  {
    assert plan.Valid();
    var p := IntentOf(b.wire.h, plan, m, a);
    assert b.intent(plan, m, a) == p;
    assert b.frame(Empty(), p) == FrameBytes(b.env, Empty(), p);
    var raw := b.frame(Empty(), p).value;
    assert b.replay(raw) == Replay(b.env, raw);
    ReplayFirst(b.env, p);
    IntentAccepted(b.wire, plan, m, a);
    assert b.env.apply(None, p) == Apply(b.wire, None, p);
  }

  lemma BookEmpty(b: JournalBook)
    ensures b.replay([]).None?
  {
    assert b.replay([]) == Replay(b.env, []);
  }

  lemma BookReconciles(b: JournalBook, raw: Bytes, r: Record)
    requires b.replay(raw).Some? && Reserved(b.replay(raw).value, |raw|)
    requires b.replay(raw).value.state.Some? && Reconcilable(b.replay(raw).value.state.value, r)
    ensures var c := b.replay(raw).value;
            var s := c.state.value;
            var out := b.frame(c, ReconciliationPayload(b.wire, s, r));
            out.Some? && b.replay(raw + out.value).Some? &&
            b.replay(raw + out.value).value.state == Some(s.(terminal := Some(r), reconciledFrom := s.terminal))
  {
    assert b.replay(raw) == Replay(b.env, raw);
    var c := b.replay(raw).value;
    var p := ReconciliationPayload(b.wire, c.state.value, r);
    assert b.frame(c, p) == FrameBytes(b.env, c, p);
    ReconciliationFits(b.wire, b.env, raw, r);
    assert b.replay(raw + b.frame(c, p).value) == Replay(b.env, raw + b.frame(c, p).value);
  }

  // A frame can be written behind a file exactly when its transition is allowed, and never fails for size.
  lemma BookFits(b: JournalBook, raw: Bytes, p: Payload)
    requires b.replay(raw).Some?
    ensures var c := b.replay(raw).value;
            b.frame(c, p).Some? <==> b.env.apply(c.state, p).Some?
    ensures var c := b.replay(raw).value;
            b.frame(c, p).Some? ==>
              var next := b.replay(raw + b.frame(c, p).value);
              next.Some? && next.value.state == b.env.apply(c.state, p)
                && Reserved(next.value, |raw + b.frame(c, p).value|)
  {
    assert b.replay(raw) == Replay(b.env, raw);
    var c := b.replay(raw).value;
    assert b.frame(c, p) == FrameBytes(b.env, c, p);
    if b.env.apply(c.state, p).Some? {
      NeverTooLarge(b.wire, b.env, raw, p);
      assert b.replay(raw + b.frame(c, p).value) == Replay(b.env, raw + b.frame(c, p).value);
    }
  }

  lemma BookStarts(b: JournalBook, plan: Plan, m: Manifest, a: Address)
    requires b.validPlan(plan) && m.Valid() && a.Valid() && m.generation == plan.before.generation
    ensures b.frame(Empty(), b.intent(plan, m, a)).Some?
    ensures b.replay(b.frame(Empty(), b.intent(plan, m, a)).value).Some?
  {
    assert plan.Valid();
    var p := IntentOf(b.wire.h, plan, m, a);
    assert b.intent(plan, m, a) == p;
    assert b.frame(Empty(), p) == FrameBytes(b.env, Empty(), p);
    IntentAccepted(b.wire, plan, m, a);
    assert b.env.apply(None, p) == Apply(b.wire, None, p);
    FirstNeverTooLarge(b.wire, b.env, p);
    assert b.replay(b.frame(Empty(), p).value) == Replay(b.env, b.frame(Empty(), p).value);
  }

  // What each stage of a placement adds to a journal.
  lemma BookPrepares(b: JournalBook, s: State, r: Record)
    requires s.manifest.Valid() && s.prepared.None? && !s.dispatched && s.terminal.None?
    requires r.Valid() && r.plan == s.plan && r.phase.Prepared?
    ensures b.env.apply(Some(s), PreparedFrame(b.wire.raw(r), s.manifest)) == Some(s.(prepared := Some(r)))
  {
    var p := PreparedFrame(b.wire.raw(r), s.manifest);
    assert b.env.apply(Some(s), p) == Apply(b.wire, Some(s), p);
    assert Carries(b.wire, b.wire.raw(r), s.plan, r);
    PreparationExactly(b.wire, s, b.wire.raw(r), s.manifest);
  }

  lemma BookDispatches(b: JournalBook, s: State)
    requires b.validPlan(s.plan) && s.prepared.Some? && !s.dispatched && s.terminal.None?
    ensures b.env.apply(Some(s), DispatchFrame(b.digest(s.plan))) == Some(s.(dispatched := true))
  {
    assert s.plan.Valid();
    assert b.digest(s.plan) == PlanDigest(b.wire.h, s.plan);
    var p := DispatchFrame(b.digest(s.plan));
    assert b.env.apply(Some(s), p) == Apply(b.wire, Some(s), p);
    DispatchExactly(b.wire, s, b.digest(s.plan));
  }

  lemma BookReceives(b: JournalBook, s: State, r: Record, m: Manifest)
    requires s.terminal.None? && m.Valid() && m.SameSoftware(s.manifest) && m.generation >= s.manifest.generation
    requires r.Valid() && r.plan == s.plan && !r.phase.Prepared?
    ensures b.env.apply(Some(s), TerminalFrame(b.wire.raw(r), m))
         == Some(s.(terminal := Some(r), terminalManifest := Some(m)))
  {
    var p := TerminalFrame(b.wire.raw(r), m);
    assert b.env.apply(Some(s), p) == Apply(b.wire, Some(s), p);
    assert Carries(b.wire, b.wire.raw(r), s.plan, r);
    ReceiptExactly(b.wire, s, b.wire.raw(r), m);
  }

  lemma BookDecodes(b: JournalBook, r: Record)
    requires r.Valid()
    ensures b.wire.decode(b.wire.raw(r), r.plan) == Some(r)
  {
    WireDecodes(b.wire, r);
  }
}
