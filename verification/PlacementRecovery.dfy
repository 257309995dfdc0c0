// scripts/build_placement_client.py: what `recover` achieves when the native side answers well and the write is
// complete, and what its result says about the files.
module PlacementRecovery {
  import opened Common
  import opened ByteCodec
  import opened PlacementRecord
  import opened PlacementJournal
  import opened PlacementText
  import opened PlacementBook
  import opened PlacementStore
  import opened PlacementRpc
  import opened PlacementReplies
  import opened PlacementProtocol
  import opened PlacementSafety
  import opened PlacementPending
  import opened PlacementStart
  import opened PlacementOutcome
  import opened PlacementStored

  // The state that an owner knows is a sound one of an eligible plan.
  lemma KnownSound(b: JournalBook, v: World, d: Directory, key: Bytes, s: State)
    requires Owns(b, d, v.files) && StateOf(d, key) == Some(s)
    ensures Sound(s) && b.validPlan(s.plan) && s.plan.key == key
  {
    assert Mirrors(b, d.journals[key], key, v.files[key]);
    BookSound(b, v.files[key]);
  }

  // A recovery connects to the endpoint of the intent, to the original native incarnation or a later one.
  lemma RecoverConnects(b: Book, v: World, d: Directory, key: Bytes, cancel: bool, s: State, m: Manifest,
                        hello: Arrival)
    requires v.owner == Some(Process(d, Idle)) && Contacts(d, v.files, key, cancel, s.address)
      && StateOf(d, key) == Some(s)
    requires m.Valid() && Binds(s, m) && SaysNothing(hello, m)
    ensures Tried(b, v, BeginRecover(key, cancel, s.address, hello))
         == At(v, d, Recovering(key, cancel, Greeting(v.connections, s.plan, m))).(connections := v.connections + 1)
  {
    RecoverBegins(b, v, Process(d, Idle), key, cancel, s.address, hello);
    HelloExactly(b, v.connections, s.plan.before.selection, hello.reply);
  }

  lemma RecoverAnswered(b: JournalBook, id: nat, cancel: bool, plan: Plan, m: Manifest, a: Arrival, r: Record)
    requires m.Valid() && b.validPlan(plan) && plan.before.generation <= m.generation
    requires SaysRecord(a, m, plan, r) && !r.phase.Prepared? && a.reply.replayed.None?
    ensures Answer(b, Greeting(id, plan, m), RecoveryCall(plan, cancel, a)) == Some(a.reply)
  {
    AnswerExactly(b, Greeting(id, plan, m), RecoveryCall(plan, cancel, a), a.reply);
  }

  lemma RecoverGoes(b: JournalBook, v: World, d: Directory, id: nat, key: Bytes, cancel: bool, s: State, m: Manifest,
                    a: Arrival, r: Record)
    returns (c: Connection)
    requires Standing(b, v, d, Recovering(key, cancel, Greeting(id, s.plan, m))) && StateOf(d, key) == Some(s)
    requires m.Valid() && Binds(s, m) && b.validPlan(s.plan) && s.plan.before.generation <= m.generation
    requires SaysRecord(a, m, s.plan, r) && !r.phase.Prepared? && a.reply.replayed.None?
    ensures var u := Tried(b, v, RecoverStep(a));
            Standing(b, u, d, RecoveryReply(key, c, a.reply)) && u.files == v.files
  {
    var t := Recovering(key, cancel, Greeting(id, s.plan, m));
    RecoverAnswered(b, id, cancel, s.plan, m, a, r);
    StandingChecks(b, v, d, t);
    RecoverTaken(b, v, d, key, cancel, Greeting(id, s.plan, m), a);
    c := After(b, Greeting(id, s.plan, m), RecoveryCall(s.plan, cancel, a));
    StandsAs(b, v, d, t, Tried(b, v, RecoverStep(a)), RecoveryReply(key, c, a.reply));
  }

  lemma SourceBinds(b: JournalBook, v: World, d: Directory, key: Bytes, s: State, m: Manifest)
    requires Owns(b, d, v.files) && StateOf(d, key) == Some(s) && Binds(s, m)
    ensures b.validPlan(s.plan) && s.plan.before.generation <= m.generation
  {
    KnownSound(b, v, d, key, s);
  }

  lemma InquiryBegins(b: Book, v: World, d: Directory, key: Bytes, cancel: bool, s: State, m: Manifest, hello: Arrival)
    requires Standing(b, v, d, Idle) && StateOf(d, key) == Some(s) && RequiresNative(s, cancel)
    requires m.Valid() && Binds(s, m) && SaysNothing(hello, m)
    ensures var u := Tried(b, v, BeginRecover(key, cancel, s.address, hello));
            Standing(b, u, d, Recovering(key, cancel, Greeting(v.connections, s.plan, m))) && u.files == v.files
  {
    StandingChecks(b, v, d, Idle);
    RecoverConnects(b, v, d, key, cancel, s, m, hello);
    var u := Tried(b, v, BeginRecover(key, cancel, s.address, hello));
    StandsAs(b, v, d, Idle, u, Recovering(key, cancel, Greeting(v.connections, s.plan, m)));
  }

  // Up to the answer.
  lemma InquiryGoes(b: JournalBook, v: World, d: Directory, key: Bytes, cancel: bool, s: State, m: Manifest,
                    hello: Arrival, a: Arrival, r: Record)
    returns (w: World, c: Connection)
    requires Standing(b, v, d, Idle) && StateOf(d, key) == Some(s) && RequiresNative(s, cancel)
    requires m.Valid() && Binds(s, m) && SaysNothing(hello, m)
    requires SaysRecord(a, m, s.plan, r) && !r.phase.Prepared? && a.reply.replayed.None?
    ensures w == Tried(b, Tried(b, v, BeginRecover(key, cancel, s.address, hello)), RecoverStep(a))
    ensures Standing(b, w, d, RecoveryReply(key, c, a.reply)) && w.files == v.files
  {
    SourceBinds(b, v, d, key, s, m);
    InquiryBegins(b, v, d, key, cancel, s, m, hello);
    var v1 := Tried(b, v, BeginRecover(key, cancel, s.address, hello));
    c := RecoverGoes(b, v1, d, v.connections, key, cancel, s, m, a, r);
    w := Tried(b, v1, RecoverStep(a));
  }

  // Keeping what the answer brought ends the call.
  lemma SettleGoes(b: JournalBook, v: World, d: Directory, key: Bytes, c: Connection, reply: Reply, p: Payload,
                   s: State)
    requires Standing(b, v, d, RecoveryReply(key, c, reply)) && StateOf(d, key).Some?
    requires RecoveryVerdict(b, StateOf(d, key).value, reply) == Put(p) && (p.TerminalFrame? || p.ReconciledFrame?)
    requires b.env.apply(StateOf(d, key), p) == Some(s)
    ensures EndedWell(b, v.files, Tried(b, v, Keep(Complete)), key, s) && Stores(b, v, Complete)
  {
    DueRecovery(b, d, key, c, reply);
    KeepEnds(b, v, d, RecoveryReply(key, c, reply), Due(key, p, Idle), s);
  }

  // An uncertain receipt needs the native side, and is bound to its original incarnation.
  lemma OriginalBinds(b: JournalBook, v: World, d: Directory, key: Bytes, s: State, r: Record)
    requires Owns(b, d, v.files) && StateOf(d, key) == Some(s) && Reconcilable(s, r)
    ensures s.manifest.Valid() && Binds(s, s.manifest) && RequiresNative(s, false) && !r.phase.Prepared?
    ensures !s.(terminal := Some(r), reconciledFrom := s.terminal).Pending()
  {
    KnownSound(b, v, d, key, s);
  }

  // Placed evidence for an uncertain receipt is to be stored, and resolves it.
  lemma EvidenceApplies(b: JournalBook, v: World, d: Directory, key: Bytes, s: State, reply: Reply, r: Record)
    returns (p: Payload)
    requires Owns(b, d, v.files) && StateOf(d, key) == Some(s)
    requires Reconcilable(s, r) && reply.record == Some(r) && reply.manifest == s.manifest
    ensures p.ReconciledFrame? && RecoveryVerdict(b, s, reply) == Put(p)
    ensures b.env.apply(Some(s), p) == Some(s.(terminal := Some(r), reconciledFrom := s.terminal))
  {
    KnownSound(b, v, d, key, s);
    p := ReconciliationPayload(b.wire, s, r);
    EvidenceVerdict(b, s, reply);
    assert b.env.apply(Some(s), p) == Apply(b.wire, Some(s), p);
    ReconciliationAccepted(b.wire, s, r);
  }

  // `recover` of an uncertain receipt with placed evidence from the original source: the journal is resolved,
  // keeps the uncertain receipt beside the evidence, and the evidence is stored.
  lemma RecoverySettles(b: JournalBook, v: World, d: Directory, key: Bytes, s: State, hello: Arrival, a: Arrival,
                        r: Record)
    requires Standing(b, v, d, Idle) && StateOf(d, key) == Some(s) && Reconcilable(s, r)
    requires SaysNothing(hello, s.manifest) && SaysRecord(a, s.manifest, s.plan, r) && a.reply.replayed.None?
    ensures EndedWell(b, v.files, Recovered(b, v, key, false, s.address, hello, a, Complete), key,
                      s.(terminal := Some(r), reconciledFrom := s.terminal))
    ensures !s.(terminal := Some(r), reconciledFrom := s.terminal).Pending()
    ensures RecoverStores(b, v, key, false, s.address, hello, a, Complete)
  {
    OriginalBinds(b, v, d, key, s, r);
    var w, c := InquiryGoes(b, v, d, key, false, s, s.manifest, hello, a, r);
    var p := EvidenceApplies(b, v, d, key, s, a.reply, r);
    SettleGoes(b, w, d, key, c, a.reply, p, s.(terminal := Some(r), reconciledFrom := s.terminal));
  }

  // `recover` of a journal without a receipt, whether it queries or cancels, with an outcome from the original
  // source or a later incarnation of the same software: the outcome becomes the receipt, and it is stored.
  lemma RecoveryReceives(b: JournalBook, v: World, d: Directory, key: Bytes, cancel: bool, s: State, m: Manifest,
                         hello: Arrival, a: Arrival, r: Record)
    requires Standing(b, v, d, Idle) && StateOf(d, key) == Some(s) && s.terminal.None?
    requires m.Valid() && m.SameSoftware(s.manifest) && m.generation >= s.manifest.generation
    requires SaysNothing(hello, m) && SaysRecord(a, m, s.plan, r) && !r.phase.Prepared? && a.reply.replayed.None?
    ensures EndedWell(b, v.files, Recovered(b, v, key, cancel, s.address, hello, a, Complete), key,
                      s.(terminal := Some(r), terminalManifest := Some(m)))
    ensures RecoverStores(b, v, key, cancel, s.address, hello, a, Complete)
  {
    KnownSound(b, v, d, key, s);
    var w, c := InquiryGoes(b, v, d, key, cancel, s, m, hello, a, r);
    VerdictFor(b, s, r, a.reply, false);
    BookReceives(b, s, r, m);
    SettleGoes(b, w, d, key, c, a.reply, TerminalFrame(b.wire.raw(r), m),
      s.(terminal := Some(r), terminalManifest := Some(m)));
  }

  // ---- `recover` reports that it stored something exactly when a file changed.

  // Up to the answer nothing is written.
  lemma InquiryWritesNothing(b: Book, v: World, d: Directory, key: Bytes, cancel: bool, address: Address,
                             hello: Arrival,
                             a: Arrival)
    requires v.owner == Some(Process(d, Idle))
    ensures var w := Tried(b, Tried(b, v, BeginRecover(key, cancel, address, hello)), RecoverStep(a));
            && w.files == v.files && w.owner.Some? && w.owner.value.dir == d
            && (w.owner.value.task.Idle? || (w.owner.value.task.RecoveryReply? && !d.fenced))
  {
    RecoverBegins(b, v, Process(d, Idle), key, cancel, address, hello);
    var v1 := Tried(b, v, BeginRecover(key, cancel, address, hello));
    if Contacts(d, v.files, key, cancel, address) && v1.owner.value.task.Recovering? {
      RecoverTaken(b, v1, d, key, cancel, v1.owner.value.task.conn, a);
    } else {
      IdleStays(b, v1, RecoverStep(a));
    }
  }

  // An append changes what the file stands for.
  lemma AppendChanges(b: JournalBook, d: Directory, files: Files, key: Bytes, p: Payload)
    requires Owns(b, d, files) && key in d.journals && Appended(b, d, files, key, p).Some?
    ensures key in files && Appended(b, d, files, key, p).value.raw != files[key]
  {
    assert Mirrors(b, d.journals[key], key, files[key]);
    AppendMirrors(b, d, files, key, p);
    FollowsChanges(d.journals[key].chain.state, p, Appended(b, d, files, key, p).value.chain.state.value);
  }

  lemma FollowsChanges(before: Option<State>, p: Payload, after: State)
    requires Follows(before, p, after)
    ensures before != Some(after)
  {
  }

  lemma LastKeep(b: Book, v: World, d: Directory, due: Due, end: Outcome)
    requires !d.fenced && due.key in d.journals && due.key in v.files && due.next.Idle?
    requires var j := Appended(b, d, v.files, due.key, due.payload); j.Some? ==> j.value.raw != v.files[due.key]
    ensures var u := Appending(b, v, d, due, end);
            && u.owner.Some?
            && (end.Complete? && Appended(b, d, v.files, due.key, due.payload).Some? <==>
                u.files != v.files && !u.owner.value.dir.fenced)
  {
    AppendingIs(b, v, d, due, end);
  }

  lemma RecoveryKeep(b: JournalBook, v: World, d: Directory, end: Outcome)
    requires v.owner.Some? && v.owner.value.dir == d && Owns(b, d, v.files) && !d.fenced
    requires v.owner.value.task.RecoveryReply?
    ensures var u := Tried(b, v, Keep(end));
            u.owner.Some? && (Stores(b, v, end) <==> u.files != v.files && !u.owner.value.dir.fenced)
  {
    var p := v.owner.value;
    if DueOf(b, p).None? || DueOf(b, p).value.key !in d.journals {
      NotKept(b, v, p, end);
    } else {
      var due := DueOf(b, p).value;
      DueOfFits(b, p);
      KeepTried(b, v, p, due, end);
      if Appended(b, d, v.files, due.key, due.payload).Some? { AppendChanges(b, d, v.files, due.key, due.payload); }
      LastKeep(b, v, d, due, end);
    }
  }

  // Whatever the native side answers and however the write ends: `recover` reports that it stored evidence
  // exactly when it changed a file and goes on without a fence.
  lemma RecoveredExactly(b: JournalBook, v: World, d: Directory, key: Bytes, cancel: bool, address: Address,
                         hello: Arrival, a: Arrival, end: Outcome)
    requires v.owner == Some(Process(d, Idle)) && (!d.fenced ==> Owns(b, d, v.files))
    ensures var u := Recovered(b, v, key, cancel, address, hello, a, end);
            && u.owner.Some?
            && (RecoverStores(b, v, key, cancel, address, hello, a, end) <==>
                u.files != v.files && !u.owner.value.dir.fenced)
  {
    InquiryWritesNothing(b, v, d, key, cancel, address, hello, a);
    var w := Tried(b, Tried(b, v, BeginRecover(key, cancel, address, hello)), RecoverStep(a));
    if w.owner.value.task.Idle? {
      IdleStays(b, w, Keep(end));
      IdleStoresNothing(b, w, end);
    } else {
      RecoveryKeep(b, w, d, end);
    }
  }
}
