// scripts/build_placement_store.py: journals in memory, the directory that owns them, and its fence.
module PlacementStore {
  import opened Common
  import opened ByteCodec
  import opened PlacementCapture
  import opened PlacementRecord
  import opened PlacementLog
  import opened PlacementJournal
  import opened PlacementText
  import opened PlacementBook

  const MAX_PLACEMENTS: nat := 256

  // The durable files of a directory, by placement key.
  type Files = map<Bytes, Bytes>

  datatype Journal = Journal(raw: Bytes, chain: Chain<State>, freshIntent: bool, preparedThisOwner: bool) {
    predicate Pending() { chain.state.None? || chain.state.value.Pending() }
  }

  datatype Directory = Directory(journals: map<Bytes, Journal>, fenced: bool, writable: bool)

  // What the native side answered.
  datatype Reply = Reply(manifest: Manifest, unresolved: bool, retained: nat,
                         capture: Option<Capture>, record: Option<Record>, replayed: Option<bool>)

  // How a reply comes back: not at all, or with every check to come; a late one has its record
  // stored before the final guard fails.
  datatype Arrival = Lost | Came(reply: Reply, late: bool)

  // The directory still holds exactly the journals this owner knows.
  predicate Check(d: Directory, files: Files) {
    && !d.fenced && |files| <= MAX_PLACEMENTS && d.journals.Keys == files.Keys
    && forall k :: k in files ==> d.journals[k].raw == files[k]
  }

  predicate NonePending(d: Directory) { forall k :: k in d.journals ==> !d.journals[k].Pending() }

  predicate Ready(d: Directory, files: Files, key: Bytes) {
    Check(d, files) && KeyText(key) && key !in d.journals && |d.journals| < MAX_PLACEMENTS && NonePending(d)
  }

  // A journal read from a file: no authority comes with it.
  function Load(b: Book, key: Bytes, raw: Bytes): Option<Journal> {
    match b.replay(raw)
    case None => None
    case Some(c) =>
      if c.state.None? || c.state.value.plan.key != key then None else Some(Journal(raw, c, false, false))
  }

  predicate Loadable(b: Book, files: Files) {
    |files| <= MAX_PLACEMENTS && forall k :: k in files ==> KeyText(k) && Load(b, k, files[k]).Some?
  }

  function Opened(b: Book, files: Files, writable: bool): Directory
    requires Loadable(b, files)
  {
    Directory(map k | k in files :: Load(b, k, files[k]).value, false, writable)
  }

  // The first bytes of a new journal, when this owner may create it.
  function CreateBytes(b: Book, d: Directory, files: Files, plan: Plan, m: Manifest, a: Address): Option<Bytes> {
    if !d.writable || !b.validPlan(plan) || !Ready(d, files, plan.key) then None
    else if m.generation != plan.before.generation || !a.Valid() then None
    else
      match b.frame(Empty(), b.intent(plan, m, a))
      case None => None
      case Some(raw) => if Load(b, plan.key, raw).None? then None else Some(raw)
  }

  // The journal after an append, when this owner may make it.
  function Appended(b: Book, d: Directory, files: Files, key: Bytes, p: Payload): Option<Journal>
    requires key in d.journals
  {
    var j := d.journals[key];
    if !d.writable || ((p.PreparedFrame? || p.DispatchFrame?) && !j.freshIntent)
      || (p.DispatchFrame? && !j.preparedThisOwner)
       || !Check(d, files) then None
    else
      match b.frame(j.chain, p)
      case None => None
      case Some(out) =>
        match b.replay(j.raw + out)
        case None => None
        case Some(c) =>
          if !Reserved(c, |j.raw + out|) then None
          else Some(Journal(j.raw + out, c, j.freshIntent, p.PreparedFrame?
            || (j.preparedThisOwner && !p.DispatchFrame?)))
  }

  // How an append ends: completely, or interrupted after some bytes. One whose bytes all
  // arrived may fail before or after the owner took note of them.
  datatype Outcome = Complete | Interrupted(written: nat, noted: bool)

  function Least(a: nat, b: nat): nat { if a < b then a else b }

  // The journal in memory after an append that failed: dispatch authority stays consumed.
  function AfterFault(was: Journal, j: Journal, p: Payload, noted: bool): Journal {
    (if noted then j else was).(preparedThisOwner := was.preparedThisOwner && !p.DispatchFrame?)
  }

  // The directory and the files after an append to one journal, for each way it can end.
  function AppendDirectory(d: Directory, key: Bytes, p: Payload, j: Journal, end: Outcome): Directory
    requires key in d.journals
  {
    match end
    case Complete => d.(journals := d.journals[key := j])
    case Interrupted(written, noted) =>
      var all := |d.journals[key].raw| + written >= |j.raw|;
      d.(fenced := true, journals := d.journals[key := AfterFault(d.journals[key], j, p, noted && all)])
  }

  function AppendFiles(d: Directory, files: Files, key: Bytes, j: Journal, end: Outcome): Files
    requires key in d.journals
  {
    match end
    case Complete => files[key := j.raw]
    case Interrupted(written, _) => files[key := j.raw[..Least(|d.journals[key].raw| + written, |j.raw|)]]
  }

  // How a creation ends: made, without a file, or with some first part of one; a whole file may
  // have been taken note of before the last check fails.
  datatype Creation = Made | NoFile | Partial(written: nat, noted: bool)

  // The directory and the files after the creation of a journal. Only a made one carries fresh authority.
  function CreateDirectory(d: Directory, key: Bytes, j: Journal, end: Creation): Directory {
    match end
    case Made => d.(journals := d.journals[key := j.(freshIntent := true)])
    case NoFile => d.(fenced := true)
    case Partial(written, noted) =>
      if noted && written >= |j.raw| then d.(fenced := true, journals := d.journals[key := j]) else d.(fenced := true)
  }

  function CreateFiles(files: Files, key: Bytes, j: Journal, end: Creation): Files {
    match end
    case Made => files[key := j.raw]
    case NoFile => files
    case Partial(written, _) => files[key := j.raw[..Least(written, |j.raw|)]]
  }

  // What to do with a record in a reply: refuse it, store nothing, or append a frame.
  datatype Verdict = Refuse | Nothing | Put(payload: Payload)

  function RetainVerdict(b: Book, s: State, reply: Reply, prepared: bool): Verdict {
    if reply.record.None? || b.wire.decode(b.wire.raw(reply.record.value), s.plan) != reply.record then Refuse
    else if !reply.manifest.SameSoftware(s.manifest) || reply.manifest.generation < s.SourceGeneration() then Refuse
    else if s.terminal.Some? then
      if b.wire.raw(reply.record.value) == b.wire.raw(s.terminal.value) then Nothing else Refuse
    else if !prepared && reply.record.value.phase.Prepared? then Nothing
    else if prepared then Put(PreparedFrame(b.wire.raw(reply.record.value), reply.manifest))
    else Put(TerminalFrame(b.wire.raw(reply.record.value), reply.manifest))
  }

  function ReconcileVerdict(b: Book, s: State, reply: Reply): Verdict {
    if reply.record.None? || s.terminal.None? then Refuse
    else if reply.manifest != s.manifest || Some(reply.manifest) != s.terminalManifest then Refuse
    else if b.wire.raw(reply.record.value) == b.wire.raw(s.terminal.value) then Nothing
    else if !VerifyReconciliation(b.wire, s.terminal.value, reply.record.value) then Refuse
    else Put(ReconciledFrame(b.wire.raw(reply.record.value), reply.manifest, Receipt(b.wire, s.terminal.value)))
  }

  // ---- What an unfenced owner always knows.

  ghost predicate Mirrors(b: Book, j: Journal, key: Bytes, raw: Bytes) {
    j.raw == raw && b.replay(raw) == Some(j.chain) && j.chain.state.Some? && j.chain.state.value.plan.key == key
  }

  ghost predicate MirrorAll(b: Book, journals: map<Bytes, Journal>, files: Files) {
    journals.Keys == files.Keys && forall k :: k in files ==> Mirrors(b, journals[k], k, files[k])
  }

  ghost predicate Owns(b: Book, d: Directory, files: Files) { MirrorAll(b, d.journals, files) }

  lemma OpenOwns(b: Book, files: Files, writable: bool)
    requires Loadable(b, files)
    ensures Owns(b, Opened(b, files, writable), files)
  {
  }

  // A new journal holds exactly the intent of its plan.
  lemma CreateState(b: JournalBook, d: Directory, files: Files, plan: Plan, m: Manifest, a: Address)
    requires CreateBytes(b, d, files, plan, m, a).Some? && m.Valid()
    ensures var raw := CreateBytes(b, d, files, plan, m, a).value;
            Load(b, plan.key, raw).Some? && Mirrors(b, Load(b, plan.key, raw).value, plan.key, raw) &&
            Load(b, plan.key, raw).value.chain.state == Some(State(plan, m, a, None, false, None, None, None))
  {
    BookIntent(b, plan, m, a);
  }

  // An append moves the journal along, was possible only while it was pending, and keeps the reserve.
  lemma AppendMirrors(b: JournalBook, d: Directory, files: Files, key: Bytes, p: Payload)
    requires key in d.journals && key in files && Mirrors(b, d.journals[key], key, files[key])
    requires Appended(b, d, files, key, p).Some?
    ensures var was := d.journals[key];
            var j := Appended(b, d, files, key, p).value;
            Mirrors(b, j, key, j.raw) && was.Pending() && Follows(was.chain.state, p, j.chain.state.value) &&
            b.frame(was.chain, p).Some? && j.raw == files[key] + b.frame(was.chain, p).value
              && Reserved(j.chain, |j.raw|)
  {
    BookAppend(b, files[key], p);
  }

  // The authority that a frame needs beyond a legal transition.
  predicate HasAuthority(j: Journal, p: Payload) {
    (p.PreparedFrame? || p.DispatchFrame? ==> j.freshIntent) && (p.DispatchFrame? ==> j.preparedThisOwner)
  }

  // An append is refused only for a read-only owner, missing authority, a failed check or an illegal
  // transition: never for the size of the frame or the file, the number of frames or the reserve.
  lemma AppendedExactly(b: JournalBook, d: Directory, files: Files, key: Bytes, p: Payload)
    requires key in d.journals && key in files && Mirrors(b, d.journals[key], key, files[key])
    ensures Appended(b, d, files, key, p).Some? <==>
      d.writable && Check(d, files) && HasAuthority(d.journals[key], p)
        && b.env.apply(d.journals[key].chain.state, p).Some?
    ensures Appended(b, d, files, key, p).Some? ==>
      Appended(b, d, files, key, p).value.chain.state == b.env.apply(d.journals[key].chain.state, p)
  {
    BookFits(b, files[key], p);
    AppendedFor(b, d, files, key, p, b.env.apply(d.journals[key].chain.state, p));
  }

  lemma AppendedFor(b: Book, d: Directory, files: Files, key: Bytes, p: Payload, next: Option<State>)
    requires key in d.journals
    requires var j := d.journals[key];
             && (b.frame(j.chain, p).Some? <==> next.Some?)
             && (next.Some? ==>
                   var c := b.replay(j.raw + b.frame(j.chain, p).value);
                   c.Some? && c.value.state == next && Reserved(c.value, |j.raw + b.frame(j.chain, p).value|))
    ensures Appended(b, d, files, key, p).Some? <==>
      d.writable && Check(d, files) && HasAuthority(d.journals[key], p) && next.Some?
    ensures Appended(b, d, files, key, p).Some? ==> Appended(b, d, files, key, p).value.chain.state == next
  {
  }

  // A creation is refused only for a read-only owner, a directory that is not ready, or a plan that is not
  // eligible or not of this incarnation.
  lemma CreateExactly(b: JournalBook, d: Directory, files: Files, plan: Plan, m: Manifest, a: Address)
    requires m.Valid()
    ensures CreateBytes(b, d, files, plan, m, a).Some? <==>
      && d.writable && b.validPlan(plan) && Ready(d, files, plan.key)
      && m.generation == plan.before.generation && a.Valid()
  {
    if b.validPlan(plan) && m.generation == plan.before.generation && a.Valid() {
      BookStarts(b, plan, m, a);
      BookIntent(b, plan, m, a);
    }
  }
}
