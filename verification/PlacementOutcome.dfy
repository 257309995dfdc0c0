// scripts/build_placement_client.py: what `start` and `recover` achieve when the native side answers well and
// every write is complete.
module PlacementOutcome {
  import opened Common
  import opened ByteCodec
  import opened PlacementWire
  import opened PlacementRecord
  import opened PlacementJournal
  import opened PlacementText
  import opened PlacementBook
  import opened PlacementStore
  import opened PlacementRpc
  import opened PlacementReplies
  import opened PlacementProtocol
  import opened PlacementSafety
  import opened PlacementStart

  // ---- An owner that may write.

  ghost predicate Standing(b: Book, v: World, d: Directory, t: Task) {
    v.owner == Some(Process(d, t)) && !d.fenced && d.writable && Owns(b, d, v.files) && |v.files| <= MAX_PLACEMENTS
  }

  lemma StandingChecks(b: Book, v: World, d: Directory, t: Task)
    requires Standing(b, v, d, t)
    ensures Check(d, v.files)
  {
    forall k | k in v.files ensures d.journals[k].raw == v.files[k] {
      assert Mirrors(b, d.journals[k], k, v.files[k]);
    }
  }

  // One more complete append: the journal of that key moves along, and nothing else changes.
  ghost predicate Kept(b: Book, v: World, d: Directory, due: Due, s: State, j: Journal, u: World) {
    && due.key in d.journals && due.key in v.files && Mirrors(b, j, due.key, j.raw) && j.chain.state == Some(s)
    && j.freshIntent == d.journals[due.key].freshIntent
    && (due.payload.PreparedFrame? ==> j.preparedThisOwner)
    && u == At(v, d.(journals := d.journals[due.key := j]), due.next).(files := v.files[due.key := j.raw])
  }

  lemma KeepGoes(b: JournalBook, v: World, d: Directory, t: Task, due: Due, s: State) returns (j: Journal)
    requires Standing(b, v, d, t) && DueOf(b, Process(d, t)) == Some(due) && due.key in d.journals
    requires HasAuthority(d.journals[due.key], due.payload)
    requires b.env.apply(d.journals[due.key].chain.state, due.payload) == Some(s)
    ensures Kept(b, v, d, due, s, j, Tried(b, v, Keep(Complete)))
    ensures due.next.Idle? ==> Stores(b, v, Complete)
  {
    StandingChecks(b, v, d, t);
    assert Mirrors(b, d.journals[due.key], due.key, v.files[due.key]);
    j := AppendGoes(b, d, v.files, due.key, due.payload, s);
    KeepFrom(b, v, d, t, due, s, j);
  }

  lemma KeepFrom(b: Book, v: World, d: Directory, t: Task, due: Due, s: State, j: Journal)
    requires v.owner == Some(Process(d, t)) && DueOf(b, Process(d, t)) == Some(due)
    requires due.key in d.journals && due.key in v.files
    requires Appended(b, d, v.files, due.key, due.payload) == Some(j)
    requires Mirrors(b, j, due.key, j.raw) && j.chain.state == Some(s)
    requires j.freshIntent == d.journals[due.key].freshIntent && (due.payload.PreparedFrame? ==> j.preparedThisOwner)
    ensures Kept(b, v, d, due, s, j, Tried(b, v, Keep(Complete)))
    ensures due.next.Idle? ==> Stores(b, v, Complete)
  {
    KeepTried(b, v, Process(d, t), due, Complete);
  }

  lemma AppendGoes(b: JournalBook, d: Directory, files: Files, key: Bytes, p: Payload, s: State) returns (j: Journal)
    requires key in d.journals && key in files && Mirrors(b, d.journals[key], key, files[key])
    requires d.writable && Check(d, files) && HasAuthority(d.journals[key], p)
    requires b.env.apply(d.journals[key].chain.state, p) == Some(s)
    ensures Appended(b, d, files, key, p) == Some(j) && Mirrors(b, j, key, j.raw) && j.chain.state == Some(s)
    ensures j.freshIntent == d.journals[key].freshIntent && (p.PreparedFrame? ==> j.preparedThisOwner)
  {
    AppendedExactly(b, d, files, key, p);
    j := Appended(b, d, files, key, p).value;
    AppendMirrors(b, d, files, key, p);
    AppendedFlags(b, d, files, key, p);
  }

  lemma AppendedFlags(b: Book, d: Directory, files: Files, key: Bytes, p: Payload)
    requires key in d.journals && Appended(b, d, files, key, p).Some?
    ensures var j := Appended(b, d, files, key, p).value;
            j.freshIntent == d.journals[key].freshIntent && (p.PreparedFrame? ==> j.preparedThisOwner)
  {
  }

  lemma KeptStands(b: Book, v: World, d: Directory, t: Task, due: Due, s: State, j: Journal, u: World)
    requires Standing(b, v, d, t) && Kept(b, v, d, due, s, j, u)
    ensures Standing(b, u, d.(journals := d.journals[due.key := j]), due.next)
    ensures SameElsewhere(v.files, u.files, due.key) && u.commits == v.commits && Holds(b, u.files, due.key, s)
  {
    MirrorsFresh(b, d.journals, v.files, due.key, j, j.raw);
    SameSize(v.files, due.key, j.raw);
  }

  // The same files, with other contents for at most one key.
  predicate SameElsewhere(before: Files, after: Files, key: Bytes) {
    key in before && after.Keys == before.Keys && forall k :: k in before && k != key ==> after[k] == before[k]
  }

  lemma SameElsewhereOn(x: Files, y: Files, z: Files, key: Bytes)
    requires SameElsewhere(x, y, key) && SameElsewhere(y, z, key)
    ensures SameElsewhere(x, z, key)
  {
  }

  // The file of this key stands for this state.
  ghost predicate Holds(b: Book, files: Files, key: Bytes, s: State) {
    key in files && b.replay(files[key]).Some? && b.replay(files[key]).value.state == Some(s)
  }

  lemma SameSize(files: Files, key: Bytes, raw: Bytes)
    requires key in files
    ensures |files[key := raw]| == |files|
  {
    assert files[key := raw].Keys == files.Keys;
    assert |files.Keys| == |files| && |files[key := raw].Keys| == |files[key := raw]|;
  }

  // ---- A script in which everything goes well.

  // An answer in time from this native incarnation.
  predicate Says(a: Arrival, m: Manifest) {
    a.Came? && !a.late && a.reply.manifest == m && a.reply.retained <= 256
      && (a.reply.unresolved ==> a.reply.retained > 0)
  }

  predicate SaysNothing(a: Arrival, m: Manifest) {
    Says(a, m) && a.reply.capture.None? && a.reply.record.None? && a.reply.replayed.None?
  }

  // The place is observed as it was when the plan was confirmed.
  predicate SaysPlace(b: Book, a: Arrival, m: Manifest, plan: Plan, expected: Bytes) {
    && Says(a, m) && !a.reply.unresolved && a.reply.capture == Some(plan.before) && a.reply.record.None?
    && a.reply.replayed.None? && b.validPlan(plan) && b.digest(plan) == expected
    && plan.before.generation == m.generation
  }

  // A record of the plan, with the fence that uncertainty needs.
  predicate SaysRecord(a: Arrival, m: Manifest, plan: Plan, r: Record) {
    && Says(a, m) && a.reply.capture.None? && a.reply.record == Some(r) && r.Valid() && r.plan == plan
    && a.reply.retained > 0 && (r.phase.Indeterminate? ==> a.reply.unresolved)
  }

  // Up to the preparation.
  predicate Inviting(b: Book, s: Script, m: Manifest, plan: Plan, expected: Bytes) {
    && m.Valid() && SaysNothing(s.hello, m) && SaysPlace(b, s.observed, m, plan, expected)
    && SaysNothing(s.known, m) && !s.known.reply.unresolved && s.creation.Made?
  }

  // A fresh preparation, then a commit with an outcome, every write complete.
  predicate Willing(s: Script, m: Manifest, plan: Plan, prepared: Record, outcome: Record) {
    && SaysRecord(s.prepared, m, plan, prepared) && prepared.phase.Prepared?
    && s.prepared.reply.replayed == Some(false) && !s.prepared.reply.unresolved
    && SaysRecord(s.committed, m, plan, outcome) && !outcome.phase.Prepared? && s.committed.reply.replayed.None?
    && s.preparation.Complete? && s.dispatch.Complete? && s.receipt.Complete?
  }

  // ---- The stages.

  // The connection after its handshake, and after the fresh preparation.
  function Greeting(id: nat, plan: Plan, m: Manifest): Connection {
    Fresh(id, plan.before.selection).(manifest := Some(m))
  }

  function Permitted(id: nat, plan: Plan, m: Manifest, prepared: Record): Connection {
    Greeting(id, plan, m).(permit := Some(plan), records := map[plan.key := prepared])
  }

  lemma BeginGoes(b: Book, v: World, d: Directory, plan: Plan, m: Manifest, expected: Bytes, s: Script)
    requires v.owner == Some(Process(d, Idle)) && Ready(d, v.files, plan.key) && m.Valid() && SaysNothing(s.hello, m)
    ensures Begun(b, v, plan.key, expected, plan.before.selection, s)
         == At(v, d, Connected(plan.key, expected, Greeting(v.connections, plan, m))).(connections := v.connections + 1)
  {
    BeginTaken(b, v, Process(d, Idle), Begin(plan.key, expected, plan.before.selection, s.hello));
    HelloExactly(b, v.connections, plan.before.selection, s.hello.reply);
  }

  lemma ObserveGoes(b: JournalBook, v: World, d: Directory, id: nat, plan: Plan, m: Manifest, expected: Bytes,
                    a: Arrival)
    requires v.owner == Some(Process(d, Connected(plan.key, expected, Greeting(id, plan, m))))
    requires m.Valid() && SaysPlace(b, a, m, plan, expected)
    ensures Tried(b, v, ObserveStep(a)) == At(v, d, Observed(plan, m, Greeting(id, plan, m)))
  {
    var c, call := Greeting(id, plan, m), Observe(a);
    AnswerExactly(b, c, call, a.reply);
    AfterAnswer(b, c, call);
    ObserveTaken(b, v, d, plan.key, expected, c, a);
    assert plan == Plan(plan.key, plan.before);
  }

  lemma ObserveTaken(b: Book, v: World, d: Directory, key: Bytes, expected: Bytes, c: Connection, a: Arrival)
    requires v.owner == Some(Process(d, Connected(key, expected, c)))
    ensures var r := Answer(b, c, Observe(a));
            Tried(b, v, ObserveStep(a)) ==
            if r.Some? && !r.value.unresolved && r.value.capture.Some?
              && b.validPlan(Plan(key, r.value.capture.value)) &&
               b.digest(Plan(key, r.value.capture.value)) == expected
            then At(v, d, Observed(Plan(key, r.value.capture.value), r.value.manifest, After(b, c, Observe(a))))
            else At(v, d, Idle)
  {
    var p := v.owner.value;
    assert Take(b, v, ObserveStep(a)) == TakeOwned(b, v, p, ObserveStep(a)) == TakeObserve(b, v, p, a);
  }

  lemma AskGoes(b: JournalBook, v: World, d: Directory, id: nat, plan: Plan, m: Manifest, a: Arrival)
    requires v.owner == Some(Process(d, Observed(plan, m, Greeting(id, plan, m)))) && Check(d, v.files)
    requires m.Valid() && b.validPlan(plan) && SaysNothing(a, m) && !a.reply.unresolved
    ensures Tried(b, v, AskKnown(a)) == At(v, d, Unretained(plan, m, Greeting(id, plan, m)))
  {
    var c, call := Greeting(id, plan, m), Query(plan, a);
    AnswerExactly(b, c, call, a.reply);
    AfterAnswer(b, c, call);
    AskTaken(b, v, d, plan, m, c, a);
  }

  lemma AskTaken(b: Book, v: World, d: Directory, plan: Plan, m: Manifest, c: Connection, a: Arrival)
    requires v.owner == Some(Process(d, Observed(plan, m, c)))
    ensures var r := Answer(b, c, Query(plan, a));
            Tried(b, v, AskKnown(a)) ==
            if Check(d, v.files) && r.Some? && r.value.record.None? && !r.value.unresolved
            then At(v, d, Unretained(plan, m, After(b, c, Query(plan, a)))) else At(v, d, Idle)
  {
    var p := v.owner.value;
    assert Take(b, v, AskKnown(a)) == TakeOwned(b, v, p, AskKnown(a)) == TakeAsk(b, v, p, a);
  }

  // The intent is written: a new journal of this plan with fresh authority.
  ghost predicate Announced(b: Book, v: World, d: Directory, plan: Plan, m: Manifest, a: Address, c: Connection,
                            j: Journal,
                            u: World) {
    && plan.key !in v.files && Mirrors(b, j, plan.key, j.raw) && j.freshIntent
    && j.chain.state == Some(State(plan, m, a, None, false, None, None, None))
    && u == At(v, d.(journals := d.journals[plan.key := j]), Created(plan, c)).(files := v.files[plan.key := j.raw])
  }

  lemma CreateGoes(b: JournalBook, v: World, d: Directory, plan: Plan, m: Manifest, a: Address, c: Connection)
    returns (j: Journal)
    requires Standing(b, v, d, Unretained(plan, m, c)) && Ready(d, v.files, plan.key)
    requires m.Valid() && b.validPlan(plan) && m.generation == plan.before.generation && a.Valid()
    ensures Announced(b, v, d, plan, m, a, c, j, Tried(b, v, Create(a, Made)))
  {
    CreateExactly(b, d, v.files, plan, m, a);
    CreateState(b, d, v.files, plan, m, a);
    j := CreateFrom(b, v, d, plan, m, a, c);
  }

  lemma CreateFrom(b: Book, v: World, d: Directory, plan: Plan, m: Manifest, a: Address, c: Connection)
    returns (j: Journal)
    requires v.owner == Some(Process(d, Unretained(plan, m, c))) && plan.key !in v.files
    requires CreateBytes(b, d, v.files, plan, m, a).Some?
    requires var raw := CreateBytes(b, d, v.files, plan, m, a).value;
             Load(b, plan.key, raw).Some? && Mirrors(b, Load(b, plan.key, raw).value, plan.key, raw) &&
             Load(b, plan.key, raw).value.chain.state == Some(State(plan, m, a, None, false, None, None, None))
    ensures Announced(b, v, d, plan, m, a, c, j, Tried(b, v, Create(a, Made)))
  {
    j := Load(b, plan.key, CreateBytes(b, d, v.files, plan, m, a).value).value.(freshIntent := true);
    var p := v.owner.value;
    assert Take(b, v, Create(a, Made)) == TakeOwned(b, v, p, Create(a, Made)) == TakeCreate(b, v, p, a, Made);
  }

  lemma AnnouncedStands(b: Book, v: World, d: Directory, plan: Plan, m: Manifest, a: Address, c: Connection, j: Journal,
                        u: World)
    requires Standing(b, v, d, Unretained(plan, m, c)) && Announced(b, v, d, plan, m, a, c, j, u)
    requires |v.files| < MAX_PLACEMENTS
    ensures Standing(b, u, d.(journals := d.journals[plan.key := j]), Created(plan, c))
    ensures u.files.Keys == v.files.Keys + {plan.key} && u.commits == v.commits
  {
    MirrorsFresh(b, d.journals, v.files, plan.key, j, j.raw);
    assert v.files[plan.key := j.raw].Keys == v.files.Keys + {plan.key};
    assert |v.files[plan.key := j.raw].Keys| == |v.files.Keys| + 1;
    assert |v.files.Keys| == |v.files| && |v.files[plan.key := j.raw].Keys| == |v.files[plan.key := j.raw]|;
  }

  lemma PrepareGoes(b: JournalBook, v: World, d: Directory, id: nat, plan: Plan, m: Manifest, a: Arrival, r: Record)
    requires v.owner == Some(Process(d, Created(plan, Greeting(id, plan, m)))) && Check(d, v.files)
    requires m.Valid() && b.validPlan(plan) && plan.before.generation == m.generation && SaysRecord(a, m, plan, r)
    requires r.phase.Prepared? && a.reply.replayed == Some(false) && !a.reply.unresolved
    ensures Tried(b, v, PrepareStep(a))
         == At(v, d, PreparedReply(plan, Permitted(id, plan, m, r),
           a.reply)).(preparations := v.preparations + {(id, plan)})
  {
    PrepareAnswered(b, id, plan, m, a, r);
    PrepareTaken(b, v, d, plan, Greeting(id, plan, m), a);
  }

  lemma PrepareAnswered(b: JournalBook, id: nat, plan: Plan, m: Manifest, a: Arrival, r: Record)
    requires m.Valid() && b.validPlan(plan) && plan.before.generation == m.generation && SaysRecord(a, m, plan, r)
    requires r.phase.Prepared? && a.reply.replayed == Some(false) && !a.reply.unresolved
    ensures Answer(b, Greeting(id, plan, m), Prepare(plan, a)) == Some(a.reply)
    ensures After(b, Greeting(id, plan, m), Prepare(plan, a)) == Permitted(id, plan, m, r)
  {
    var c, call := Greeting(id, plan, m), Prepare(plan, a);
    AnswerExactly(b, c, call, a.reply);
    AfterAnswer(b, c, call);
    assert map[][plan.key := r] == map[plan.key := r];
  }

  lemma CommitGoes(b: JournalBook, v: World, d: Directory, id: nat, plan: Plan, m: Manifest, pr: Record, a: Arrival,
                   r: Record)
    requires v.owner == Some(Process(d, DispatchKept(plan, Permitted(id, plan, m, pr)))) && Check(d, v.files)
    requires m.Valid() && b.validPlan(plan) && plan.before.generation <= m.generation && plan.key in v.files
    requires pr.Valid() && pr.plan == plan && pr.phase.Prepared?
    requires SaysRecord(a, m, plan, r) && !r.phase.Prepared? && a.reply.replayed.None?
    ensures Tried(b, v, CommitStep(a))
         == At(v, d, CommitReply(plan, After(b, Permitted(id, plan, m, pr), Commit(plan, a)), a.reply))
            .(commits := v.commits + [Dispatch(id, plan, v.files[plan.key])])
  {
    var c, call := Permitted(id, plan, m, pr), Commit(plan, a);
    CommitAnswered(b, id, plan, m, pr, a, r);
    CommitTaken(b, v, d, plan, c, a);
  }

  lemma CommitAnswered(b: JournalBook, id: nat, plan: Plan, m: Manifest, pr: Record, a: Arrival, r: Record)
    requires m.Valid() && b.validPlan(plan) && plan.before.generation <= m.generation
    requires pr.Valid() && pr.plan == plan && pr.phase.Prepared?
    requires SaysRecord(a, m, plan, r) && !r.phase.Prepared? && a.reply.replayed.None?
    ensures Sends(b, Permitted(id, plan, m, pr), Commit(plan, a))
    ensures Answer(b, Permitted(id, plan, m, pr), Commit(plan, a)) == Some(a.reply)
  {
    var c, call := Permitted(id, plan, m, pr), Commit(plan, a);
    assert SoundRecord(plan.key, pr);
    AnswerExactly(b, c, call, a.reply);
    SendsExactly(b, c, call);
  }

  // What a reply asks to be kept.
  lemma VerdictFor(b: JournalBook, s: State, r: Record, reply: Reply, prepared: bool)
    requires s.terminal.None? && s.terminalManifest.None? && r.Valid() && r.plan == s.plan && reply.record == Some(r)
    requires reply.manifest.SameSoftware(s.manifest) && reply.manifest.generation >= s.manifest.generation
    requires prepared <==> r.phase.Prepared?
    ensures RetainVerdict(b, s, reply, prepared) ==
      Put(if prepared then PreparedFrame(b.wire.raw(r), reply.manifest)
        else TerminalFrame(b.wire.raw(r), reply.manifest))
  {
    BookDecodes(b, r);
  }

  lemma PreparationDue(b: JournalBook, d: Directory, plan: Plan, c: Connection, reply: Reply, s: State, r: Record)
    requires StateOf(d, plan.key) == Some(s)
    requires s == State(plan, s.manifest, s.address, None, false, None, None, None)
    requires s.manifest.Valid() && reply.manifest == s.manifest && reply.replayed == Some(false)
    requires reply.record == Some(r) && r.Valid() && r.plan == plan && r.phase.Prepared?
    ensures var p := PreparedFrame(b.wire.raw(r), s.manifest);
            && DueOf(b, Process(d, PreparedReply(plan, c, reply))) == Some(Due(plan.key, p, PreparedKept(plan, c)))
            && b.env.apply(Some(s), p) == Some(s.(prepared := Some(r)))
  {
    VerdictFor(b, s, r, reply, true);
    DuePreparation(b, d, plan, c, reply);
    BookPrepares(b, s, r);
  }

  // Keeping the preparation.
  lemma PreparationKept(b: JournalBook, v: World, d: Directory, plan: Plan, c: Connection, reply: Reply, s: State,
                        r: Record)
    returns (j: Journal)
    requires Standing(b, v, d, PreparedReply(plan, c, reply)) && StateOf(d, plan.key) == Some(s)
    requires d.journals[plan.key].freshIntent && s == State(plan, s.manifest, s.address, None, false, None, None, None)
    requires s.manifest.Valid() && reply.manifest == s.manifest && reply.replayed == Some(false)
    requires reply.record == Some(r) && r.Valid() && r.plan == plan && r.phase.Prepared?
    ensures var due := Due(plan.key, PreparedFrame(b.wire.raw(r), s.manifest), PreparedKept(plan, c));
            Kept(b, v, d, due, s.(prepared := Some(r)), j, Tried(b, v, Keep(Complete)))
  {
    var due := Due(plan.key, PreparedFrame(b.wire.raw(r), s.manifest), PreparedKept(plan, c));
    PreparationDue(b, d, plan, c, reply, s, r);
    j := KeepGoes(b, v, d, PreparedReply(plan, c, reply), due, s.(prepared := Some(r)));
  }

  // Keeping the dispatch.
  lemma DispatchKeeps(b: JournalBook, v: World, d: Directory, plan: Plan, c: Connection, s: State) returns (j: Journal)
    requires Standing(b, v, d, PreparedKept(plan, c)) && StateOf(d, plan.key) == Some(s) && b.validPlan(plan)
    requires d.journals[plan.key].freshIntent && d.journals[plan.key].preparedThisOwner
    requires s.plan == plan && s.prepared.Some? && !s.dispatched && s.terminal.None?
    ensures var due := Due(plan.key, DispatchFrame(b.digest(plan)), DispatchKept(plan, c));
            Kept(b, v, d, due, s.(dispatched := true), j, Tried(b, v, Keep(Complete)))
  {
    DueDispatch(b, d, plan, c);
    BookDispatches(b, s);
    j := KeepGoes(b, v, d, PreparedKept(plan, c), Due(plan.key, DispatchFrame(b.digest(plan)), DispatchKept(plan, c)),
                  s.(dispatched := true));
  }

  lemma ReceiptDue(b: JournalBook, d: Directory, t: Task, plan: Plan, reply: Reply, s: State, r: Record)
    requires StateOf(d, plan.key) == Some(s) && (t.CommitReply? || t.PreparedReply?) && t.plan == plan
      && t.reply == reply
    requires s.plan == plan && s.terminal.None? && s.terminalManifest.None? && s.manifest.Valid()
    requires reply.manifest == s.manifest && reply.record == Some(r) && r.Valid() && r.plan == plan
      && !r.phase.Prepared?
    ensures var p := TerminalFrame(b.wire.raw(r), s.manifest);
            && DueOf(b, Process(d, t)) == Some(Due(plan.key, p, Idle))
            && b.env.apply(Some(s), p) == Some(s.(terminal := Some(r), terminalManifest := Some(s.manifest)))
  {
    VerdictFor(b, s, r, reply, false);
    if t.CommitReply? { DueReceipt(b, d, plan, t.conn, reply); } else { DueOutcome(b, d, plan, t.conn, reply); }
    BookReceives(b, s, r, s.manifest);
  }

  // ---- The whole call.

  // Up to the written intent.
  lemma InviteGoes(b: JournalBook, v: World, d: Directory, plan: Plan, m: Manifest, expected: Bytes, a: Address,
                   s: Script)
    returns (j: Journal, w: World)
    requires Standing(b, v, d, Idle) && Ready(d, v.files, plan.key) && a.Valid() && Inviting(b, s, m, plan, expected)
    ensures w == Tried(b, Surveyed(b, Begun(b, v, plan.key, expected, plan.before.selection, s), s),
      Create(a, s.creation))
    ensures Standing(b, w, d.(journals := d.journals[plan.key := j]), Created(plan, Greeting(v.connections, plan, m)))
    ensures j.freshIntent && j.chain.state == Some(State(plan, m, a, None, false, None, None, None))
    ensures plan.key !in v.files && w.files == v.files[plan.key := j.raw] && w.commits == v.commits
  {
    var c := Greeting(v.connections, plan, m);
    StandingChecks(b, v, d, Idle);
    BeginGoes(b, v, d, plan, m, expected, s);
    var w1 := Begun(b, v, plan.key, expected, plan.before.selection, s);
    ObserveGoes(b, w1, d, v.connections, plan, m, expected, s.observed);
    var w2 := Tried(b, w1, ObserveStep(s.observed));
    AskGoes(b, w2, d, v.connections, plan, m, s.known);
    var w3 := Surveyed(b, w1, s);
    j := CreateGoes(b, w3, d, plan, m, a, c);
    w := Tried(b, w3, Create(a, s.creation));
    SameCount(d.journals, v.files);
    AnnouncedStands(b, w3, d, plan, m, a, c, j, w);
  }

  lemma SameCount(journals: map<Bytes, Journal>, files: Files)
    requires journals.Keys == files.Keys
    ensures |journals| == |files|
  {
    assert |journals.Keys| == |journals| && |files.Keys| == |files|;
  }

  // The other files stay as they were, and one new one is there.
  predicate OneNewFile(before: Files, key: Bytes, after: Files) {
    key !in before && after.Keys == before.Keys + {key} && forall k :: k in before ==> after[k] == before[k]
  }

  lemma NewThenElsewhere(x: Files, y: Files, z: Files, key: Bytes, raw: Bytes)
    requires key !in x && y == x[key := raw] && SameElsewhere(y, z, key)
    ensures OneNewFile(x, key, z)
  {
  }

  // A call that has ended well: idle, unfenced, and with this state in the file of its key.
  ghost predicate EndedWell(b: Book, before: Files, u: World, key: Bytes, s: State) {
    && u.owner.Some? && u.owner.value.task.Idle? && !u.owner.value.dir.fenced
    && SameElsewhere(before, u.files, key) && Holds(b, u.files, key, s)
  }

  // A complete append after which nothing is due ends the call.
  lemma KeepEnds(b: JournalBook, v: World, d: Directory, t: Task, due: Due, s: State)
    requires Standing(b, v, d, t) && DueOf(b, Process(d, t)) == Some(due) && due.key in d.journals && due.next.Idle?
    requires HasAuthority(d.journals[due.key], due.payload)
    requires b.env.apply(d.journals[due.key].chain.state, due.payload) == Some(s)
    ensures EndedWell(b, v.files, Tried(b, v, Keep(Complete)), due.key, s) && Stores(b, v, Complete)
    ensures Tried(b, v, Keep(Complete)).commits == v.commits
  {
    var j := KeepGoes(b, v, d, t, due, s);
    KeptStands(b, v, d, t, due, s, j, Tried(b, v, Keep(Complete)));
  }

  // Keeping a receipt ends the call.
  lemma ReceiptEnds(b: JournalBook, v: World, d: Directory, t: Task, plan: Plan, reply: Reply, s: State, r: Record)
    requires Standing(b, v, d, t) && StateOf(d, plan.key) == Some(s)
    requires t.CommitReply? || t.PreparedReply?
    requires t.plan == plan && t.reply == reply
    requires s.plan == plan && s.terminal.None? && s.terminalManifest.None? && s.manifest.Valid()
    requires reply.manifest == s.manifest && reply.record == Some(r) && r.Valid() && r.plan == plan
      && !r.phase.Prepared?
    ensures var u := Tried(b, v, Keep(Complete));
            && EndedWell(b, v.files, u, plan.key, s.(terminal := Some(r), terminalManifest := Some(s.manifest)))
            && u.commits == v.commits
    ensures Stores(b, v, Complete)
  {
    ReceiptDue(b, d, t, plan, reply, s, r);
    KeepEnds(b, v, d, t, Due(plan.key, TerminalFrame(b.wire.raw(r), s.manifest), Idle),
             s.(terminal := Some(r), terminalManifest := Some(s.manifest)));
  }

  lemma StandsAs(b: Book, v: World, d: Directory, t: Task, u: World, t2: Task)
    requires Standing(b, v, d, t) && u.owner == Some(Process(d, t2)) && u.files == v.files
    ensures Standing(b, u, d, t2)
  {
  }

  // From the kept dispatch to the stored receipt.
  lemma FinishGoes(b: JournalBook, v: World, d: Directory, id: nat, plan: Plan, m: Manifest, s: Script, state: State,
                   prepared: Record, outcome: Record)
    requires Standing(b, v, d, DispatchKept(plan, Permitted(id, plan, m, prepared)))
      && StateOf(d, plan.key) == Some(state)
    requires state.plan == plan && state.manifest == m && state.terminal.None? && state.terminalManifest.None?
    requires m.Valid() && b.validPlan(plan) && plan.before.generation == m.generation
    requires Willing(s, m, plan, prepared, outcome)
    ensures plan.key in v.files
    ensures EndedWell(b, v.files, Finished(b, v, s), plan.key,
      state.(terminal := Some(outcome), terminalManifest := Some(m)))
    ensures Finished(b, v, s).commits == v.commits + [Dispatch(id, plan, v.files[plan.key])]
    ensures Stores(b, Tried(b, v, CommitStep(s.committed)), s.receipt)
  {
    var c := CommitStands(b, v, d, id, plan, m, s, prepared, outcome);
    var w := Tried(b, v, CommitStep(s.committed));
    ReceiptEnds(b, w, d, CommitReply(plan, c, s.committed.reply), plan, s.committed.reply, state, outcome);
  }

  // The commit goes out and is answered.
  lemma CommitStands(b: JournalBook, v: World, d: Directory, id: nat, plan: Plan, m: Manifest, s: Script,
                     prepared: Record, outcome: Record)
    returns (c: Connection)
    requires Standing(b, v, d, DispatchKept(plan, Permitted(id, plan, m, prepared))) && plan.key in d.journals
    requires m.Valid() && b.validPlan(plan) && plan.before.generation == m.generation
    requires Willing(s, m, plan, prepared, outcome)
    ensures var w := Tried(b, v, CommitStep(s.committed));
            && Standing(b, w, d, CommitReply(plan, c, s.committed.reply)) && w.files == v.files
            && plan.key in v.files && w.commits == v.commits + [Dispatch(id, plan, v.files[plan.key])]
  {
    var t := DispatchKept(plan, Permitted(id, plan, m, prepared));
    StandingChecks(b, v, d, t);
    CommitGoes(b, v, d, id, plan, m, prepared, s.committed, outcome);
    c := After(b, Permitted(id, plan, m, prepared), Commit(plan, s.committed));
    StandsAs(b, v, d, t, Tried(b, v, CommitStep(s.committed)), CommitReply(plan, c, s.committed.reply));
  }

  // From a fresh preparation to the kept dispatch.
  lemma AuthoriseGoes(b: JournalBook, v: World, d: Directory, plan: Plan, c: Connection, m: Manifest, s: Script,
                      reply: Reply, state: State, prepared: Record)
    returns (d2: Directory)
    requires s.preparation.Complete? && s.dispatch.Complete? && s.prepared.Came?
    requires reply == s.prepared.reply && reply.manifest == m && reply.replayed == Some(false)
    requires reply.record == Some(prepared) && prepared.Valid() && prepared.plan == plan && prepared.phase.Prepared?
    requires Standing(b, v, d, PreparedReply(plan, c, reply))
    requires StateOf(d, plan.key) == Some(state) && d.journals[plan.key].freshIntent
    requires state == State(plan, m, state.address, None, false, None, None, None) && m.Valid() && b.validPlan(plan)
    ensures Standing(b, Authorised(b, v, s), d2, DispatchKept(plan, c))
    ensures StateOf(d2, plan.key) == Some(state.(prepared := Some(prepared), dispatched := true))
    ensures SameElsewhere(v.files, Authorised(b, v, s).files, plan.key) && Authorised(b, v, s).commits == v.commits
  {
    var d1 := FirstKeep(b, v, d, plan, c, m, reply, state, prepared);
    var v1 := Tried(b, v, Keep(s.preparation));
    d2 := SecondKeep(b, v1, d1, plan, c, state.(prepared := Some(prepared)));
    SameElsewhereOn(v.files, v1.files, Authorised(b, v, s).files, plan.key);
  }

  lemma FirstKeep(b: JournalBook, v: World, d: Directory, plan: Plan, c: Connection, m: Manifest, reply: Reply,
                  state: State, prepared: Record)
    returns (d1: Directory)
    requires Standing(b, v, d, PreparedReply(plan, c, reply)) && StateOf(d, plan.key) == Some(state)
    requires d.journals[plan.key].freshIntent
    requires state == State(plan, m, state.address, None, false, None, None, None) && m.Valid()
    requires reply.manifest == m && reply.replayed == Some(false) && reply.record == Some(prepared)
    requires prepared.Valid() && prepared.plan == plan && prepared.phase.Prepared?
    ensures var u := Tried(b, v, Keep(Complete));
            && Standing(b, u, d1, PreparedKept(plan, c)) && SameElsewhere(v.files, u.files, plan.key)
            && u.commits == v.commits && StateOf(d1, plan.key) == Some(state.(prepared := Some(prepared)))
            && d1.journals[plan.key].freshIntent && d1.journals[plan.key].preparedThisOwner
  {
    var j := PreparationKept(b, v, d, plan, c, reply, state, prepared);
    var due := Due(plan.key, PreparedFrame(b.wire.raw(prepared), m), PreparedKept(plan, c));
    d1 := d.(journals := d.journals[plan.key := j]);
    KeptStands(b, v, d, PreparedReply(plan, c, reply), due, state.(prepared := Some(prepared)), j,
      Tried(b, v, Keep(Complete)));
  }

  lemma SecondKeep(b: JournalBook, v: World, d: Directory, plan: Plan, c: Connection, state: State)
    returns (d1: Directory)
    requires Standing(b, v, d, PreparedKept(plan, c)) && StateOf(d, plan.key) == Some(state) && b.validPlan(plan)
    requires d.journals[plan.key].freshIntent && d.journals[plan.key].preparedThisOwner
    requires state.plan == plan && state.prepared.Some? && !state.dispatched && state.terminal.None?
    ensures var u := Tried(b, v, Keep(Complete));
            && Standing(b, u, d1, DispatchKept(plan, c)) && SameElsewhere(v.files, u.files, plan.key)
            && u.commits == v.commits && StateOf(d1, plan.key) == Some(state.(dispatched := true))
  {
    var j := DispatchKeeps(b, v, d, plan, c, state);
    d1 := d.(journals := d.journals[plan.key := j]);
    KeptStands(b, v, d, PreparedKept(plan, c), Due(plan.key, DispatchFrame(b.digest(plan)), DispatchKept(plan, c)),
               state.(dispatched := true), j, Tried(b, v, Keep(Complete)));
  }

  // What a successful placement leaves: the plan, prepared and dispatched, with the receipt that was sent.
  function Done(plan: Plan, m: Manifest, a: Address, prepared: Record, outcome: Record): State {
    State(plan, m, a, Some(prepared), true, Some(outcome), Some(m), None)
  }

  // From a fresh preparation to the stored receipt.
  lemma PerformGoes(b: JournalBook, v: World, d: Directory, id: nat, plan: Plan, m: Manifest, a: Address, s: Script,
                    prepared: Record, outcome: Record)
    returns (raw: Bytes)
    requires Willing(s, m, plan, prepared, outcome)
    requires Standing(b, v, d, PreparedReply(plan, Permitted(id, plan, m, prepared), s.prepared.reply))
    requires StateOf(d, plan.key) == Some(State(plan, m, a, None, false, None, None, None))
    requires d.journals[plan.key].freshIntent && m.Valid() && b.validPlan(plan)
      && plan.before.generation == m.generation
    ensures EndedWell(b, v.files, Performed(b, v, s), plan.key, Done(plan, m, a, prepared, outcome))
    ensures Performed(b, v, s).commits == v.commits + [Dispatch(id, plan, raw)]
    ensures PerformStores(b, v, s)
  {
    var state := State(plan, m, a, None, false, None, None, None);
    var d2 := AuthoriseGoes(b, v, d, plan, Permitted(id, plan, m, prepared), m, s, s.prepared.reply, state, prepared);
    var w := Authorised(b, v, s);
    FinishGoes(b, w, d2, id, plan, m, s, state.(prepared := Some(prepared), dispatched := true), prepared, outcome);
    raw := w.files[plan.key];
    EndedFrom(b, v.files, w.files, Performed(b, v, s), plan.key, Done(plan, m, a, prepared, outcome));
  }

  lemma EndedFrom(b: Book, x: Files, y: Files, u: World, key: Bytes, s: State)
    requires SameElsewhere(x, y, key) && EndedWell(b, y, u, key, s)
    ensures EndedWell(b, x, u, key, s)
  {
    SameElsewhereOn(x, y, u.files, key);
  }

  // The world after the written intent and a fresh preparation.
  lemma EstablishGoes(b: JournalBook, v: World, d: Directory, plan: Plan, m: Manifest, expected: Bytes, a: Address,
                      s: Script, prepared: Record, outcome: Record)
    returns (j: Journal)
    requires Standing(b, v, d, Idle) && Ready(d, v.files, plan.key) && a.Valid()
    requires Inviting(b, s, m, plan, expected) && Willing(s, m, plan, prepared, outcome)
    ensures var w := Established(b, Surveyed(b, Begun(b, v, plan.key, expected, plan.before.selection, s), s), a, s);
            var d1 := d.(journals := d.journals[plan.key := j]);
            && Standing(b, w, d1, PreparedReply(plan, Permitted(v.connections, plan, m, prepared), s.prepared.reply))
            && StateOf(d1, plan.key) == Some(State(plan, m, a, None, false, None, None, None)) && j.freshIntent
            && plan.key !in v.files && w.files == v.files[plan.key := j.raw] && w.commits == v.commits
  {
    var w;
    j, w := InviteGoes(b, v, d, plan, m, expected, a, s);
    var d1, t := d.(journals := d.journals[plan.key := j]), Created(plan, Greeting(v.connections, plan, m));
    StandingChecks(b, w, d1, t);
    PrepareGoes(b, w, d1, v.connections, plan, m, s.prepared, prepared);
    var u := Tried(b, w, PrepareStep(s.prepared));
    StandsAs(b, w, d1, t, u, u.owner.value.task);
  }

  // `start` on a ready, writable directory, with a native side that answers well and complete writes: one more
  // CommitPlacement, on the new connection and for the confirmed plan; one new file, which stands for a
  // prepared and dispatched placement with exactly the receipt that the native side sent; and it is stored.
  lemma StartSucceeds(b: JournalBook, v: World, d: Directory, plan: Plan, m: Manifest, expected: Bytes, a: Address,
                      s: Script, prepared: Record, outcome: Record)
    returns (raw: Bytes)
    requires Standing(b, v, d, Idle) && Ready(d, v.files, plan.key) && a.Valid()
    requires Inviting(b, s, m, plan, expected) && Willing(s, m, plan, prepared, outcome)
    ensures var u := Started(b, v, plan.key, expected, plan.before.selection, a, s);
            && u.owner.Some? && u.owner.value.task.Idle? && !u.owner.value.dir.fenced
            && u.commits == v.commits + [Dispatch(v.connections, plan, raw)]
            && OneNewFile(v.files, plan.key, u.files)
            && Holds(b, u.files, plan.key, State(plan, m, a, Some(prepared), true, Some(outcome), Some(m), None))
    ensures StartStores(b, v, plan.key, expected, plan.before.selection, a, s)
  {
    var j := EstablishGoes(b, v, d, plan, m, expected, a, s, prepared, outcome);
    var w := Established(b, Surveyed(b, Begun(b, v, plan.key, expected, plan.before.selection, s), s), a, s);
    raw := SucceedsFrom(b, v, w, d.(journals := d.journals[plan.key := j]), j.raw, plan, m, a, s, prepared, outcome);
    StartIsPerform(b, v, w, plan.key, expected, plan.before.selection, a, s);
  }

  lemma SucceedsFrom(b: JournalBook, v: World, w: World, d: Directory, first: Bytes, plan: Plan, m: Manifest,
                     a: Address,
                     s: Script, prepared: Record, outcome: Record)
    returns (raw: Bytes)
    requires Willing(s, m, plan, prepared, outcome) && plan.before.generation == m.generation && b.validPlan(plan)
      && m.Valid()
    requires Standing(b, w, d, PreparedReply(plan, Permitted(v.connections, plan, m, prepared), s.prepared.reply))
    requires StateOf(d, plan.key) == Some(State(plan, m, a, None, false, None, None, None))
    requires d.journals[plan.key].freshIntent
    requires plan.key !in v.files && w.files == v.files[plan.key := first] && w.commits == v.commits
    ensures var u := Performed(b, w, s);
            && u.owner.Some? && u.owner.value.task.Idle? && !u.owner.value.dir.fenced
            && u.commits == v.commits + [Dispatch(v.connections, plan, raw)]
            && OneNewFile(v.files, plan.key, u.files)
            && Holds(b, u.files, plan.key, State(plan, m, a, Some(prepared), true, Some(outcome), Some(m), None))
    ensures PerformStores(b, w, s)
  {
    raw := PerformGoes(b, w, d, v.connections, plan, m, a, s, prepared, outcome);
    NewThenElsewhere(v.files, w.files, Performed(b, w, s).files, plan.key, first);
  }

  lemma StartIsPerform(b: Book, v: World, w: World, key: Bytes, expected: Bytes, selection: Selection, a: Address,
                       s: Script)
    requires w == Established(b, Surveyed(b, Begun(b, v, key, expected, selection, s), s), a, s)
    ensures Started(b, v, key, expected, selection, a, s) == Performed(b, w, s)
    ensures StartStores(b, v, key, expected, selection, a, s) <==> PerformStores(b, w, s)
  {
  }

  // ---- A preparation that meets an outcome.

  // The native side already holds an outcome for the plan, and the write of it is complete.
  predicate Met(s: Script, m: Manifest, plan: Plan, outcome: Record) {
    && SaysRecord(s.prepared, m, plan, outcome) && !outcome.phase.Prepared?
    && s.prepared.reply.replayed == Some(true) && s.preparation.Complete?
  }

  lemma MeetingAnswered(b: JournalBook, id: nat, plan: Plan, m: Manifest, a: Arrival, r: Record)
    requires m.Valid() && b.validPlan(plan) && plan.before.generation == m.generation && SaysRecord(a, m, plan, r)
    requires a.reply.replayed == Some(true)
    ensures Answer(b, Greeting(id, plan, m), Prepare(plan, a)) == Some(a.reply)
  {
    AnswerExactly(b, Greeting(id, plan, m), Prepare(plan, a), a.reply);
  }

  lemma MeetingGoes(b: JournalBook, v: World, d: Directory, id: nat, plan: Plan, m: Manifest, a: Arrival, r: Record)
    returns (c: Connection)
    requires Standing(b, v, d, Created(plan, Greeting(id, plan, m)))
    requires m.Valid() && b.validPlan(plan) && plan.before.generation == m.generation && SaysRecord(a, m, plan, r)
    requires a.reply.replayed == Some(true)
    ensures var u := Tried(b, v, PrepareStep(a));
            Standing(b, u, d, PreparedReply(plan, c, a.reply)) && u.files == v.files && u.commits == v.commits
  {
    MeetingAnswered(b, id, plan, m, a, r);
    StandingChecks(b, v, d, Created(plan, Greeting(id, plan, m)));
    PrepareTaken(b, v, d, plan, Greeting(id, plan, m), a);
    c := After(b, Greeting(id, plan, m), Prepare(plan, a));
    StandsAs(b, v, d, v.owner.value.task, Tried(b, v, PrepareStep(a)), PreparedReply(plan, c, a.reply));
  }

  // `start` where the preparation is answered with an outcome: no commit goes out, and the one new file stands
  // for an intent with exactly that outcome, which is stored.
  lemma StartMeetsOutcome(b: JournalBook, v: World, d: Directory, plan: Plan, m: Manifest, expected: Bytes, a: Address,
                          s: Script, outcome: Record)
    requires Standing(b, v, d, Idle) && Ready(d, v.files, plan.key) && a.Valid()
    requires Inviting(b, s, m, plan, expected) && Met(s, m, plan, outcome)
    ensures var u := Started(b, v, plan.key, expected, plan.before.selection, a, s);
            && u.owner.Some? && u.owner.value.task.Idle? && !u.owner.value.dir.fenced
            && u.commits == v.commits
            && OneNewFile(v.files, plan.key, u.files)
            && Holds(b, u.files, plan.key, State(plan, m, a, None, false, Some(outcome), Some(m), None))
    ensures StartStores(b, v, plan.key, expected, plan.before.selection, a, s)
  {
    var j, w := InviteGoes(b, v, d, plan, m, expected, a, s);
    MeetingFrom(b, v, w, d.(journals := d.journals[plan.key := j]), j.raw, plan, m, a, s, outcome);
    StartIsPerform(b, v, Tried(b, w, PrepareStep(s.prepared)), plan.key, expected, plan.before.selection, a, s);
  }

  lemma MeetingFrom(b: JournalBook, v: World, w: World, d: Directory, first: Bytes, plan: Plan, m: Manifest, a: Address,
                    s: Script, outcome: Record)
    requires Met(s, m, plan, outcome) && plan.before.generation == m.generation && b.validPlan(plan) && m.Valid()
    requires Standing(b, w, d, Created(plan, Greeting(v.connections, plan, m)))
    requires StateOf(d, plan.key) == Some(State(plan, m, a, None, false, None, None, None))
    requires plan.key !in v.files && w.files == v.files[plan.key := first] && w.commits == v.commits
    ensures var u := Performed(b, Tried(b, w, PrepareStep(s.prepared)), s);
            && u.owner.Some? && u.owner.value.task.Idle? && !u.owner.value.dir.fenced && u.commits == v.commits
            && OneNewFile(v.files, plan.key, u.files)
            && Holds(b, u.files, plan.key, State(plan, m, a, None, false, Some(outcome), Some(m), None))
    ensures PerformStores(b, Tried(b, w, PrepareStep(s.prepared)), s)
  {
    var c := MeetingGoes(b, w, d, v.connections, plan, m, s.prepared, outcome);
    var w1 := Tried(b, w, PrepareStep(s.prepared));
    ReceiptEnds(b, w1, d, PreparedReply(plan, c, s.prepared.reply), plan, s.prepared.reply,
                State(plan, m, a, None, false, None, None, None), outcome);
    EndedAtKeep(b, w1, s);
    NewThenElsewhere(v.files, w.files, Performed(b, w1, s).files, plan.key, first);
  }
}
