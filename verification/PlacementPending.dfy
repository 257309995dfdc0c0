// The directory fence over whole runs: at most one unfinished journal, resolved journals never
// change, and room is always left for the evidence that resolves an uncertain receipt.
module PlacementPending {
  import opened Common
  import opened ByteCodec
  import opened PlacementRecord
  import opened PlacementLog
  import opened PlacementJournal
  import opened PlacementText
  import opened PlacementBook
  import opened PlacementStore
  import opened PlacementRpc
  import opened PlacementProtocol
  import opened PlacementSafety

  // A file that does not replay, or whose placement has no resolved receipt.
  ghost predicate Unfinished(b: Book, raw: Bytes) {
    var c := b.replay(raw);
    c.None? || c.value.state.None? || c.value.state.value.Pending()
  }

  ghost predicate AllFinished(b: Book, files: Files) {
    forall k :: k in files ==> !Unfinished(b, files[k])
  }

  ghost predicate OneUnfinished(b: Book, files: Files) {
    forall k, l :: k in files && l in files && Unfinished(b, files[k]) && Unfinished(b, files[l]) ==> k == l
  }

  ghost predicate HasReserve(b: Book, raw: Bytes) {
    b.replay(raw).Some? ==> Reserved(b.replay(raw).value, |raw|)
  }

  ghost predicate AllReserve(b: Book, files: Files) {
    forall k :: k in files ==> HasReserve(b, files[k])
  }

  // The one file that a step may write: a new one where all are finished, or the unfinished one.
  datatype Change = Same | Write(key: Bytes, raw: Bytes)

  ghost predicate Changes(b: Book, before: Files, c: Change, after: Files) {
    match c
    case Same => after == before
    case Write(key, raw) =>
      && after == before[key := raw]
      && (if key in before then Unfinished(b, before[key]) else AllFinished(b, before))
      && ((key in before ==> HasReserve(b, before[key])) ==> HasReserve(b, raw))
  }

  lemma ReadyMeansFinished(b: Book, d: Directory, files: Files, key: Bytes)
    requires Owns(b, d, files) && Ready(d, files, key)
    ensures AllFinished(b, files) && key !in files
  {
    forall k | k in files ensures !Unfinished(b, files[k]) {
      assert Mirrors(b, d.journals[k], k, files[k]);
    }
  }

  // A first part of a new file: nothing, torn, or the whole intent without a receipt.
  lemma CreatePart(b: JournalBook, d: Directory, files: Files, plan: Plan, m: Manifest, a: Address, n: nat)
    requires CreateBytes(b, d, files, plan, m, a).Some? && m.Valid()
    requires n <= |CreateBytes(b, d, files, plan, m, a).value|
    ensures HasReserve(b, CreateBytes(b, d, files, plan, m, a).value[..n])
  {
    var raw := CreateBytes(b, d, files, plan, m, a).value;
    if n == 0 {
      assert raw[..0] == [];
      BookEmpty(b);
    } else if n < |raw| {
      BookTorn(b, [], Empty(), b.intent(plan, m, a), n);
      assert [] + raw[..n] == raw[..n];
    } else {
      assert raw[..n] == raw;
      CreateState(b, d, files, plan, m, a);
    }
  }

  lemma PartOfAppend(raw: Bytes, out: Bytes, n: nat)
    requires |raw| <= n <= |raw + out|
    ensures (raw + out)[..n] == raw + out[..n - |raw|]
  {
  }

  // A first part of an append: nothing new, torn, or the whole frame.
  lemma AppendPart(b: JournalBook, d: Directory, files: Files, key: Bytes, p: Payload, n: nat)
    requires key in d.journals && key in files && Mirrors(b, d.journals[key], key, files[key])
    requires Appended(b, d, files, key, p).Some? && HasReserve(b, files[key])
    requires |files[key]| <= n <= |Appended(b, d, files, key, p).value.raw|
    ensures HasReserve(b, Appended(b, d, files, key, p).value.raw[..n])
  {
    AppendMirrors(b, d, files, key, p);
    PartReserved(b, files[key], d.journals[key].chain, p, Appended(b, d, files, key, p).value.raw, n);
  }

  lemma PartReserved(b: JournalBook, raw: Bytes, c: Chain<State>, p: Payload, whole: Bytes, n: nat)
    requires b.frame(c, p).Some? && whole == raw + b.frame(c, p).value && |raw| <= n <= |whole|
    requires HasReserve(b, raw) && HasReserve(b, whole)
    ensures HasReserve(b, whole[..n])
  {
    var k := n - |raw|;
    PartOfAppend(raw, b.frame(c, p).value, n);
    if k == 0 {
      assert whole[..n] == raw;
    } else if n < |whole| {
      BookTorn(b, raw, c, p, k);
    } else {
      assert whole[..n] == whole;
    }
  }

  lemma PendingIsUnfinished(b: JournalBook, d: Directory, files: Files, key: Bytes, p: Payload)
    requires key in d.journals && key in files && Mirrors(b, d.journals[key], key, files[key])
    requires Appended(b, d, files, key, p).Some?
    ensures Unfinished(b, files[key])
  {
    AppendMirrors(b, d, files, key, p);
  }

  // A creation writes a first part of a new file where all files are finished, or nothing.
  lemma CreateEndChanges(b: Book, v: World, d: Directory, plan: Plan, conn: Connection, j: Journal, end: Creation)
    returns (c: Change)
    requires AllFinished(b, v.files) && plan.key !in v.files && forall n :: 0 <= n <= |j.raw| ==>
      HasReserve(b, j.raw[..n])
    ensures Changes(b, v.files, c, CreateEnd(v, d, plan, conn, j, end).files)
  {
    if end.NoFile? { return Same; }
    var n := if end.Made? then |j.raw| else Least(end.written, |j.raw|);
    assert j.raw[..|j.raw|] == j.raw;
    c := Write(plan.key, j.raw[..n]);
  }

  lemma CreatingChanges(b: JournalBook, v: World, p: Process, plan: Plan, m: Manifest, conn: Connection, a: Address,
                        end: Creation)
    returns (c: Change)
    requires Safe(b, v) && v.owner == Some(p) && p.task == Unretained(plan, m, conn)
    ensures Changes(b, v.files, c, Creating(b, v, p.dir, plan, m, conn, a, end).files)
  {
    var can := CreateBytes(b, p.dir, v.files, plan, m, a);
    if can.None? { return Same; }
    ReadyMeansFinished(b, p.dir, v.files, plan.key);
    forall n | 0 <= n <= |can.value| ensures HasReserve(b, can.value[..n]) {
      CreatePart(b, p.dir, v.files, plan, m, a, n);
    }
    c := CreateEndChanges(b, v, p.dir, plan, conn, Load(b, plan.key, can.value).value, end);
  }

  // Every first part of an append keeps the reserve that was there.
  ghost predicate PartsReserve(b: Book, before: Bytes, raw: Bytes) {
    HasReserve(b, before) ==> forall n :: |before| <= n <= |raw| ==> HasReserve(b, raw[..n])
  }

  // An append writes only a file that was unfinished.
  lemma AppendFence(b: JournalBook, d: Directory, files: Files, key: Bytes, p: Payload)
    requires Owns(b, d, files) && key in d.journals && Appended(b, d, files, key, p).Some?
    ensures key in files && Unfinished(b, files[key])
    ensures PartsReserve(b, files[key], Appended(b, d, files, key, p).value.raw)
  {
    assert Mirrors(b, d.journals[key], key, files[key]);
    PendingIsUnfinished(b, d, files, key, p);
    var raw := Appended(b, d, files, key, p).value.raw;
    if HasReserve(b, files[key]) {
      forall n | |files[key]| <= n <= |raw| ensures HasReserve(b, raw[..n]) {
        AppendPart(b, d, files, key, p, n);
      }
    }
  }

  lemma PartChanges(b: Book, files: Files, key: Bytes, raw: Bytes, n: nat)
    requires key in files && Unfinished(b, files[key]) && PartsReserve(b, files[key], raw) && |files[key]| <= n <= |raw|
    ensures Changes(b, files, Write(key, raw[..n]), files[key := raw[..n]])
  {
  }

  lemma WholeChanges(b: Book, files: Files, key: Bytes, raw: Bytes)
    requires key in files && Unfinished(b, files[key]) && PartsReserve(b, files[key], raw) && |files[key]| <= |raw|
    ensures Changes(b, files, Write(key, raw), files[key := raw])
  {
    PartChanges(b, files, key, raw, |raw|);
    assert raw[..|raw|] == raw;
  }

  lemma AppendEndChanges(b: Book, v: World, d: Directory, due: Due, j: Journal, end: Outcome) returns (c: Change)
    requires due.key in d.journals && due.key in v.files && v.files[due.key] == d.journals[due.key].raw <= j.raw
    requires Unfinished(b, v.files[due.key]) && PartsReserve(b, v.files[due.key], j.raw)
    ensures Changes(b, v.files, c, AppendEnd(v, d, due, j, end).files)
  {
    if end.Complete? {
      WholeChanges(b, v.files, due.key, j.raw);
      c := Write(due.key, j.raw);
    } else {
      var n := Least(|d.journals[due.key].raw| + end.written, |j.raw|);
      PartChanges(b, v.files, due.key, j.raw, n);
      c := Write(due.key, j.raw[..n]);
    }
  }

  lemma AppendingChanges(b: JournalBook, v: World, d: Directory, due: Due, end: Outcome) returns (c: Change)
    requires Owns(b, d, v.files) && due.key in d.journals
    ensures Changes(b, v.files, c, Appending(b, v, d, due, end).files)
  {
    var can := Appended(b, d, v.files, due.key, due.payload);
    if can.None? { return Same; }
    AppendFence(b, d, v.files, due.key, due.payload);
    AppendFacts(b, d, v.files, due.key, due.payload);
    c := AppendEndChanges(b, v, d, due, can.value, end);
  }

  lemma KeepChanges(b: JournalBook, v: World, p: Process, end: Outcome) returns (c: Change)
    requires Safe(b, v) && v.owner == Some(p) && TakeKeep(b, v, p, end).Some?
    ensures Changes(b, v.files, c, TakeKeep(b, v, p, end).value.files)
  {
    DueMeansUnfenced(b, v, p);
    c := AppendingChanges(b, v, p.dir, DueOf(b, p).value, end);
  }

  predicate Writes(step: Step) { step.Create? || step.Keep? }

  lemma QuietSame(b: Book, v: World, step: Step)
    requires !Writes(step) && Take(b, v, step).Some?
    ensures Take(b, v, step).value.files == v.files
  {
    match step
    case Begin(_, _, _, _) =>
    case BeginRecover(_, _, _, _) =>
    case ObserveStep(_) =>
    case AskKnown(_) =>
    case PrepareStep(_) =>
    case CommitStep(_) =>
    case RecoverStep(_) =>
    case _ =>
  }

  lemma StepChanges(b: JournalBook, v: World, step: Step) returns (c: Change)
    requires Safe(b, v) && Take(b, v, step).Some?
    ensures Changes(b, v.files, c, Take(b, v, step).value.files)
  {
    if !Writes(step) {
      QuietSame(b, v, step);
      return Same;
    }
    var p := v.owner.value;
    match step
    case Create(a, end) => c := CreatingChanges(b, v, p, p.task.plan, p.task.manifest, p.task.conn, a, end);
    case Keep(end) => c := KeepChanges(b, v, p, end);
  }

  lemma ChangeKeepsFence(b: Book, before: Files, c: Change, after: Files)
    requires Changes(b, before, c, after) && OneUnfinished(b, before) && AllReserve(b, before)
    ensures OneUnfinished(b, after) && AllReserve(b, after)
  {
  }

  lemma {:induction false} FenceHolds(b: JournalBook, steps: seq<Step>)
    requires Run(b, Initial(map[]), steps).Some?
    ensures var v := Run(b, Initial(map[]), steps).value;
            Safe(b, v) && OneUnfinished(b, v.files) && AllReserve(b, v.files)
  {
    RunKeepsSafe(b, Initial(map[]), steps);
    if steps != [] {
      var n := |steps| - 1;
      FenceHolds(b, steps[..n]);
      var v := Run(b, Initial(map[]), steps[..n]).value;
      var c := StepChanges(b, v, steps[n]);
      ChangeKeepsFence(b, v.files, c, Take(b, v, steps[n]).value.files);
    }
  }

  // From an empty directory, at most one journal is ever unfinished.
  lemma AtMostOnePending(b: JournalBook, steps: seq<Step>, k: Bytes, l: Bytes)
    requires Run(b, Initial(map[]), steps).Some?
    requires var v := Run(b, Initial(map[]), steps).value; k in v.files && l in v.files && k != l
    ensures var v := Run(b, Initial(map[]), steps).value; !Unfinished(b, v.files[k]) || !Unfinished(b, v.files[l])
  {
    FenceHolds(b, steps);
  }

  // A resolved journal is never written again, in any continuation of any run.
  lemma {:induction false} ResolvedForever(b: JournalBook, v: World, steps: seq<Step>, key: Bytes)
    requires Safe(b, v) && Run(b, v, steps).Some? && key in v.files && !Unfinished(b, v.files[key])
    ensures key in Run(b, v, steps).value.files && Run(b, v, steps).value.files[key] == v.files[key]
  {
    if steps != [] {
      var n := |steps| - 1;
      ResolvedForever(b, v, steps[..n], key);
      RunKeepsSafe(b, v, steps[..n]);
      StepKeepsResolved(b, Run(b, v, steps[..n]).value, steps[n], key);
    }
  }

  lemma StepKeepsResolved(b: JournalBook, v: World, step: Step, key: Bytes)
    requires Safe(b, v) && Take(b, v, step).Some? && key in v.files && !Unfinished(b, v.files[key])
    ensures key in Take(b, v, step).value.files && Take(b, v, step).value.files[key] == v.files[key]
  {
    var c := StepChanges(b, v, step);
    ChangeKeepsResolved(b, v.files, c, Take(b, v, step).value.files, key);
  }

  lemma ChangeKeepsResolved(b: Book, before: Files, c: Change, after: Files, key: Bytes)
    requires Changes(b, before, c, after) && key in before && !Unfinished(b, before[key])
    ensures key in after && after[key] == before[key]
  {
  }

  // An owner of a directory with a torn file is fenced and idle; without one nobody can open it.
  ghost predicate TornAt(b: Book, v: World, key: Bytes) {
    && key in v.files && b.replay(v.files[key]).None?
    && (v.owner.Some? ==> v.owner.value.dir.fenced && v.owner.value.task.Idle?)
  }

  lemma TornStep(b: Book, v: World, key: Bytes, step: Step)
    requires TornAt(b, v, key) && Take(b, v, step).Some?
    ensures TornAt(b, Take(b, v, step).value, key)
    ensures Take(b, v, step).value.files == v.files && Take(b, v, step).value.commits == v.commits
  {
    TornNotLoadable(b, v.files, key);
  }

  lemma TornNotLoadable(b: Book, files: Files, key: Bytes)
    requires key in files && b.replay(files[key]).None?
    ensures !Loadable(b, files)
  {
    assert Load(b, key, files[key]).None?;
  }

  lemma OwnedReplays(b: Book, d: Directory, files: Files, key: Bytes)
    ensures Owns(b, d, files) && key in files ==> b.replay(files[key]).Some?
  {
  }

  lemma TornIsFenced(b: JournalBook, v: World, key: Bytes)
    requires Safe(b, v) && key in v.files && b.replay(v.files[key]).None?
    ensures TornAt(b, v, key)
  {
    if v.owner.Some? { OwnedReplays(b, v.owner.value.dir, v.files, key); }
  }

  // From the moment a file is torn no file of the directory changes and nothing is committed, in any
  // continuation of any run.
  lemma {:induction false} TornClosesDirectory(b: JournalBook, v: World, key: Bytes, steps: seq<Step>)
    requires Safe(b, v) && key in v.files && b.replay(v.files[key]).None? && Run(b, v, steps).Some?
    ensures TornAt(b, Run(b, v, steps).value, key)
    ensures Run(b, v, steps).value.files == v.files && Run(b, v, steps).value.commits == v.commits
  {
    if steps == [] {
      TornIsFenced(b, v, key);
    } else {
      var n := |steps| - 1;
      TornClosesDirectory(b, v, key, steps[..n]);
      TornStep(b, Run(b, v, steps[..n]).value, key, steps[n]);
    }
  }

  // Where a recovery has full placed evidence for an uncertain receipt from the original source,
  // storing it is never refused: not for file size, frame size or number of frames.
  lemma EvidenceAlwaysFits(b: JournalBook, steps: seq<Step>, p: Process, key: Bytes, conn: Connection, reply: Reply)
    requires Run(b, Initial(map[]), steps).Some?
    requires var v := Run(b, Initial(map[]), steps).value;
             v.owner == Some(p) && Check(p.dir, v.files) && p.dir.writable && p.task == RecoveryReply(key, conn, reply)
    requires StateOf(p.dir, key).Some? && reply.record.Some?
    requires Reconcilable(StateOf(p.dir, key).value, reply.record.value)
      && reply.manifest == StateOf(p.dir, key).value.manifest
    ensures var v := Run(b, Initial(map[]), steps).value;
            Take(b, v, Keep(Complete)).Some? && key in Take(b, v, Keep(Complete)).value.files &&
            b.replay(Take(b, v, Keep(Complete)).value.files[key]).Some?
              && !Unfinished(b, Take(b, v, Keep(Complete)).value.files[key])
  {
    FenceHolds(b, steps);
    EvidenceKept(b, Run(b, Initial(map[]), steps).value, p, key, conn, reply);
  }

  lemma EvidenceKept(b: JournalBook, v: World, p: Process, key: Bytes, conn: Connection, reply: Reply)
    requires v.owner == Some(p) && OwnerOk(b, v, p) && AllReserve(b, v.files)
    requires Check(p.dir, v.files) && p.dir.writable && p.task == RecoveryReply(key, conn, reply)
    requires StateOf(p.dir, key).Some? && reply.record.Some?
    requires Reconcilable(StateOf(p.dir, key).value, reply.record.value)
    requires reply.manifest == StateOf(p.dir, key).value.manifest
    ensures Take(b, v, Keep(Complete)).Some? && key in Take(b, v, Keep(Complete)).value.files
    ensures b.replay(Take(b, v, Keep(Complete)).value.files[key]).Some?
    ensures !Unfinished(b, Take(b, v, Keep(Complete)).value.files[key])
  {
    EvidenceDue(b, v, p, key, conn, reply);
    EvidenceAppends(b, p.dir, v.files, key, reply.record.value);
    KeepDue(b, v, p, DueOf(b, p).value);
  }

  lemma KeepDue(b: Book, v: World, p: Process, due: Due)
    requires v.owner == Some(p) && DueOf(b, p) == Some(due) && due.key in p.dir.journals
    requires var j := Appended(b, p.dir, v.files, due.key, due.payload);
             j.Some? && b.replay(j.value.raw).Some? && !Unfinished(b, j.value.raw)
    ensures Take(b, v, Keep(Complete)).Some? && due.key in Take(b, v, Keep(Complete)).value.files
    ensures b.replay(Take(b, v, Keep(Complete)).value.files[due.key]).Some?
    ensures !Unfinished(b, Take(b, v, Keep(Complete)).value.files[due.key])
  {
    assert Take(b, v, Keep(Complete)) == Some(Appending(b, v, p.dir, due, Complete));
  }

  lemma EvidenceDue(b: JournalBook, v: World, p: Process, key: Bytes, conn: Connection, reply: Reply)
    requires OwnerOk(b, v, p) && p.task == RecoveryReply(key, conn, reply)
    requires StateOf(p.dir, key).Some? && reply.record.Some?
    requires Reconcilable(StateOf(p.dir, key).value, reply.record.value)
      && reply.manifest == StateOf(p.dir, key).value.manifest
    ensures DueOf(b, p)
         == Some(Due(key, ReconciliationPayload(b.wire, StateOf(p.dir, key).value, reply.record.value), Idle))
  {
    ReceiptSound(b, p.dir, v.files, key);
    EvidenceVerdict(b, StateOf(p.dir, key).value, reply);
    RecoveryDue(b, p, key, conn, reply);
  }

  lemma RecoveryDue(b: Book, p: Process, key: Bytes, conn: Connection, reply: Reply)
    requires p.task == RecoveryReply(key, conn, reply) && StateOf(p.dir, key).Some?
    ensures DueOf(b, p) == PutDue(key, RecoveryVerdict(b, StateOf(p.dir, key).value, reply), Idle)
  {
  }

  lemma ReceiptSound(b: JournalBook, d: Directory, files: Files, key: Bytes)
    requires Owns(b, d, files) && StateOf(d, key).Some? && StateOf(d, key).value.terminal.Some?
    ensures var s := StateOf(d, key).value; s.terminal.value.Valid() && s.terminal.value.plan == s.plan
  {
    assert Mirrors(b, d.journals[key], key, files[key]);
    BookSound(b, files[key]);
  }

  lemma EvidenceVerdict(b: Book, s: State, reply: Reply)
    requires IsWire(b.wire) && reply.record.Some? && Reconcilable(s, reply.record.value) && reply.manifest == s.manifest
    requires s.terminal.value.Valid() && s.terminal.value.plan == s.plan
    ensures RecoveryVerdict(b, s, reply) == Put(ReconciliationPayload(b.wire, s, reply.record.value))
  {
    var r := reply.record.value;
    ReconciliationIs(b.wire, s.terminal.value, r);
    if b.wire.raw(r) == b.wire.raw(s.terminal.value) { WireInjective(b.wire, r, s.terminal.value); }
  }

  lemma AppendedWhen(b: Book, d: Directory, files: Files, key: Bytes, p: Payload)
    requires Check(d, files) && d.writable && key in d.journals && p.ReconciledFrame?
    requires b.frame(d.journals[key].chain, p).Some?
    requires var c := b.replay(d.journals[key].raw + b.frame(d.journals[key].chain, p).value);
             c.Some? && c.value.state.Some? && !c.value.state.value.Pending()
    ensures Appended(b, d, files, key, p).Some? && !Unfinished(b, Appended(b, d, files, key, p).value.raw)
    ensures b.replay(Appended(b, d, files, key, p).value.raw).Some?
  {
  }

  lemma EvidenceFits(b: JournalBook, j: Journal, key: Bytes, raw: Bytes, r: Record)
    requires Mirrors(b, j, key, raw) && HasReserve(b, raw) && Reconcilable(j.chain.state.value, r)
    ensures var out := b.frame(j.chain, ReconciliationPayload(b.wire, j.chain.state.value, r));
            out.Some? && b.replay(j.raw + out.value).Some? && b.replay(j.raw + out.value).value.state.Some? &&
            !b.replay(j.raw + out.value).value.state.value.Pending()
  {
    BookReconciles(b, raw, r);
  }

  lemma EvidenceAppends(b: JournalBook, d: Directory, files: Files, key: Bytes, r: Record)
    requires Check(d, files) && d.writable && Owns(b, d, files) && AllReserve(b, files)
    requires StateOf(d, key).Some? && Reconcilable(StateOf(d, key).value, r)
    ensures var p := ReconciliationPayload(b.wire, StateOf(d, key).value, r);
            Appended(b, d, files, key, p).Some? &&
            b.replay(Appended(b, d, files, key, p).value.raw).Some?
              && !Unfinished(b, Appended(b, d, files, key, p).value.raw)
  {
    assert Mirrors(b, d.journals[key], key, files[key]);
    assert HasReserve(b, files[key]);
    EvidenceFits(b, d.journals[key], key, files[key], r);
    AppendedWhen(b, d, files, key, ReconciliationPayload(b.wire, StateOf(d, key).value, r));
  }
}
