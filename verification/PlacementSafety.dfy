// Safety of whole runs: at most one dispatch per key, and at most one unfinished journal.
module PlacementSafety {
  import opened Common
  import opened ByteCodec
  import opened PlacementRecord
  import opened PlacementJournal
  import opened PlacementText
  import opened PlacementStore
  import opened PlacementRpc
  import opened PlacementProtocol

  // ---- What every reachable world satisfies.

  // The file at the moment of dispatch: complete frames, a dispatch for this plan, no outcome yet.
  ghost predicate DurableDispatch(b: Book, raw: Bytes, plan: Plan) {
    var c := b.replay(raw);
    c.Some? && c.value.state.Some? && c.value.state.value.plan == plan && c.value.state.value.dispatched
      && c.value.state.value.terminal.None?
  }

  ghost predicate CommitOk(b: Book, v: World, e: Dispatch) {
    && e.plan.key in v.files && e.durable <= v.files[e.plan.key] && DurableDispatch(b, e.durable, e.plan)
    && (e.connection, e.plan) in v.preparations
  }

  ghost predicate OncePerKey(commits: seq<Dispatch>) {
    forall i, j :: 0 <= i < j < |commits| ==> commits[i].plan.key != commits[j].plan.key
  }

  ghost predicate CommitsOk(b: Book, v: World) {
    OncePerKey(v.commits) && forall i :: 0 <= i < |v.commits| ==> CommitOk(b, v, v.commits[i])
  }

  predicate NotCommitted(v: World, key: Bytes) {
    forall i :: 0 <= i < |v.commits| ==> v.commits[i].plan.key != key
  }

  predicate PermitOk(v: World, c: Connection) { c.permit.Some? ==> (c.id, c.permit.value) in v.preparations }

  // A journal of this plan that has no outcome, dispatched or not.
  predicate Underway(d: Directory, plan: Plan, dispatched: bool) {
    var s := StateOf(d, plan.key);
    s.Some? && s.value.plan == plan && s.value.dispatched == dispatched && s.value.terminal.None?
  }

  predicate TaskOk(v: World, d: Directory, t: Task) {
    match t
    case Idle => true
    case Connected(_, _, conn) => PermitOk(v, conn)
    case Observed(plan, m, conn) => m.Valid() && PermitOk(v, conn)
    case Unretained(plan, m, conn) => m.Valid() && PermitOk(v, conn)
    case Created(plan, conn) => PermitOk(v, conn) && Underway(d, plan, false) && NotCommitted(v, plan.key)
    case PreparedReply(plan, conn, _) => PermitOk(v, conn) && Underway(d, plan, false) && NotCommitted(v, plan.key)
    case PreparedKept(plan, conn) => PermitOk(v, conn) && Underway(d, plan, false) && NotCommitted(v, plan.key)
    case DispatchKept(plan, conn) => PermitOk(v, conn) && Underway(d, plan, true) && NotCommitted(v, plan.key)
    case _ => true
  }

  ghost predicate OwnerOk(b: Book, v: World, p: Process) {
    (if p.dir.fenced then p.task.Idle? else Owns(b, p.dir, v.files)) && TaskOk(v, p.dir, p.task)
  }

  ghost predicate Safe(b: Book, v: World) {
    CommitsOk(b, v) && (v.owner.Some? ==> OwnerOk(b, v, v.owner.value))
  }

  // ---- Steps that leave the files alone.

  predicate Grows(a: Files, b: Files) { forall k :: k in a ==> k in b && a[k] <= b[k] }

  lemma CommitsKept(b: Book, v: World, u: World)
    requires CommitsOk(b, v) && u.commits == v.commits && v.preparations <= u.preparations && Grows(v.files, u.files)
    ensures CommitsOk(b, u)
  {
    forall i | 0 <= i < |u.commits| ensures CommitOk(b, u, u.commits[i]) {
      assert CommitOk(b, v, v.commits[i]);
    }
  }

  lemma PermitKept(b: Book, v: World, u: World, c: Connection, call: Call)
    requires PermitOk(v, c) && v.preparations <= u.preparations
    requires call.Prepare? && Answer(b, c, call).Some? && FreshPreparation(Answer(b, c, call).value) ==>
             (c.id, call.plan) in u.preparations
    ensures PermitOk(u, After(b, c, call))
  {
    CallKeeps(b, c, call);
  }

  lemma AcceptGivesNoPermit(b: Book, c: Connection, op: Operation, plan: Option<Plan>, r: Reply)
    requires Accept(b, c, op, plan, r).Some?
    ensures Accept(b, c, op, plan, r).value.permit == c.permit && r.manifest.Valid()
  {
  }

  lemma AnswerAccepted(b: Book, c: Connection, call: Call)
    requires Answer(b, c, call).Some?
    ensures Answer(b, c, call).value.manifest.Valid()
  {
    AcceptGivesNoPermit(b, Relinquished(c, call), OperationOf(call), PlanOf(call), call.reply.reply);
  }

  // Steps that only talk, and steps that end something.
  predicate Talks(step: Step) {
    step.Crash? || step.Abort? || step.Begin? || step.ObserveStep? || step.AskKnown? || step.BeginRecover?
      || step.RecoverStep?
  }

  lemma TalkingIsSafe(b: Book, v: World, p: Process, step: Step)
    requires Safe(b, v) && v.owner == Some(p) && Talks(step) && TakeOwned(b, v, p, step).Some?
    ensures Safe(b, TakeOwned(b, v, p, step).value)
  {
    var u := TakeOwned(b, v, p, step).value;
    CommitsKept(b, v, u);
    match step
    case Begin(_, _, selection, hello) =>
      AcceptGivesNoPermit(b, Fresh(v.connections, selection), Handshake, None, hello.reply);
    case ObserveStep(reply) =>
      PermitKept(b, v, u, p.task.conn, Observe(reply));
      AnswerAccepted(b, p.task.conn, Observe(reply));
    case AskKnown(reply) => PermitKept(b, v, u, p.task.conn, Query(p.task.plan, reply));
    case _ =>
  }

  lemma PreparedIsSafe(b: Book, v: World, u: World, p: Process, plan: Plan, conn: Connection, reply: Arrival)
    requires CommitsOk(b, v) && Owns(b, p.dir, v.files) && !p.dir.fenced && TaskOk(v, p.dir, Created(plan, conn))
    requires var call := Prepare(plan, reply);
             Answer(b, conn, call).Some? &&
             u == At(v, p.dir, PreparedReply(plan, After(b, conn, call), Answer(b, conn, call).value))
                  .(preparations := u.preparations) &&
             u.preparations == if FreshPreparation(Answer(b, conn, call).value) then v.preparations + {(conn.id, plan)}
               else v.preparations
    ensures Safe(b, u)
  {
    CommitsKept(b, v, u);
    PermitKept(b, v, u, conn, Prepare(plan, reply));
  }

  lemma PreparingIsSafe(b: Book, v: World, p: Process, reply: Arrival)
    requires Safe(b, v) && v.owner == Some(p) && TakePrepare(b, v, p, reply).Some?
    ensures Safe(b, TakePrepare(b, v, p, reply).value)
  {
    PreparedIsSafe(b, v, TakePrepare(b, v, p, reply).value, p, p.task.plan, p.task.conn, reply);
  }

  // ---- The dispatch itself.

  lemma CommittingIsSafe(b: Book, v: World, p: Process, reply: Arrival)
    requires Safe(b, v) && v.owner == Some(p) && TakeCommit(b, v, p, reply).Some?
    ensures Safe(b, TakeCommit(b, v, p, reply).value)
  {
    var u := TakeCommit(b, v, p, reply).value;
    DispatchIsSafe(b, v, u, p, p.task.plan, p.task.conn);
  }

  lemma DispatchIsSafe(b: Book, v: World, u: World, p: Process, plan: Plan, conn: Connection)
    requires Safe(b, v) && v.owner == Some(p) && p.task == DispatchKept(plan, conn) && !p.dir.fenced
    requires plan.key in v.files && conn.permit == Some(plan)
    requires u.commits == v.commits + [Dispatch(conn.id, plan, v.files[plan.key])]
    requires u.files == v.files && u.preparations == v.preparations
    requires u.owner.Some? && u.owner.value.dir == p.dir && (u.owner.value.task.Idle?
      || u.owner.value.task.CommitReply?)
    ensures Safe(b, u)
  {
    DispatchIsDurable(b, v, p, plan);
    forall i | 0 <= i < |u.commits| ensures CommitOk(b, u, u.commits[i]) {
      if i < |v.commits| { assert CommitOk(b, v, v.commits[i]); }
    }
  }

  lemma DispatchIsDurable(b: Book, v: World, p: Process, plan: Plan)
    requires Owns(b, p.dir, v.files) && plan.key in v.files && Underway(p.dir, plan, true)
    ensures DurableDispatch(b, v.files[plan.key], plan)
  {
    assert Mirrors(b, p.dir.journals[plan.key], plan.key, v.files[plan.key]);
  }

  // ---- Steps that write.

  lemma CreatingIsSafe(b: JournalBook, v: World, p: Process, plan: Plan, m: Manifest, conn: Connection, a: Address,
                       end: Creation)
    requires Safe(b, v) && v.owner == Some(p) && p.task == Unretained(plan, m, conn)
    ensures Safe(b, Creating(b, v, p.dir, plan, m, conn, a, end))
  {
    var can := CreateBytes(b, p.dir, v.files, plan, m, a);
    if can.None? {
      CommitsKept(b, v, Creating(b, v, p.dir, plan, m, conn, a, end));
    } else {
      CreateState(b, p.dir, v.files, plan, m, a);
      NewJournalIsSafe(b, v, p, plan, conn, Load(b, plan.key, can.value).value, end);
    }
  }

  lemma NewJournalIsSafe(b: Book, v: World, p: Process, plan: Plan, conn: Connection, j: Journal, end: Creation)
    requires CommitsOk(b, v) && Owns(b, p.dir, v.files) && !p.dir.fenced && PermitOk(v, conn) && plan.key !in v.files
    requires Mirrors(b, j, plan.key, j.raw) && j.chain.state.value.plan == plan
    requires !j.chain.state.value.dispatched && j.chain.state.value.terminal.None?
    ensures Safe(b, CreateEnd(v, p.dir, plan, conn, j, end))
  {
    var u := CreateEnd(v, p.dir, plan, conn, j, end);
    CommitsKept(b, v, u);
    if end.Made? {
      NewKeyNotCommitted(b, v, plan.key);
      MirrorsFresh(b, p.dir.journals, v.files, plan.key, j.(freshIntent := true), j.raw);
    }
  }

  lemma NewKeyNotCommitted(b: Book, v: World, key: Bytes)
    requires CommitsOk(b, v) && key !in v.files
    ensures NotCommitted(v, key)
  {
    forall i | 0 <= i < |v.commits| ensures v.commits[i].plan.key != key {
      assert CommitOk(b, v, v.commits[i]);
    }
  }

  // Replacing or adding one journal together with its file.
  lemma MirrorsFresh(b: Book, journals: map<Bytes, Journal>, files: Files, key: Bytes, j: Journal, raw: Bytes)
    requires MirrorAll(b, journals, files) && Mirrors(b, j, key, raw)
    ensures MirrorAll(b, journals[key := j], files[key := raw])
  {
  }

  lemma GrowsAt(files: Files, key: Bytes, raw: Bytes)
    requires key in files ==> files[key] <= raw
    ensures Grows(files, files[key := raw])
  {
  }

  lemma PartGrows(files: Files, key: Bytes, raw: Bytes, n: nat)
    requires key in files && files[key] <= raw && |files[key]| <= n <= |raw|
    ensures Grows(files, files[key := raw[..n]])
  {
    GrowsAt(files, key, raw[..n]);
  }

  // What an append by a mirroring owner does to one journal.
  lemma AppendFacts(b: JournalBook, d: Directory, files: Files, key: Bytes, p: Payload)
    requires Owns(b, d, files) && key in d.journals && Appended(b, d, files, key, p).Some?
    ensures var j := Appended(b, d, files, key, p).value;
            key in files && files[key] == d.journals[key].raw <= j.raw && Mirrors(b, j, key, j.raw) &&
            Follows(d.journals[key].chain.state, p, j.chain.state.value)
  {
    AppendMirrors(b, d, files, key, p);
  }

  // The appends of each stage, and the stage they lead to.
  predicate DueFits(t: Task, due: Due) {
    || due.next.Idle?
    || (t.PreparedReply? && due == Due(t.plan.key, due.payload, PreparedKept(t.plan, t.conn))
      && due.payload.PreparedFrame?)
    || (t.PreparedKept? && due == Due(t.plan.key, due.payload, DispatchKept(t.plan, t.conn))
      && due.payload.DispatchFrame?)
  }

  lemma DueOfFits(b: Book, p: Process)
    requires DueOf(b, p).Some?
    ensures DueFits(p.task, DueOf(b, p).value)
  {
  }

  // A kept preparation or dispatch leaves the journal where the next stage expects it.
  lemma AppendAdvances(v: World, u: World, p: Process, due: Due, j: Journal)
    requires TaskOk(v, p.dir, p.task) && DueFits(p.task, due) && due.key in p.dir.journals && j.chain.state.Some?
    requires Follows(p.dir.journals[due.key].chain.state, due.payload, j.chain.state.value)
    requires u.commits == v.commits && u.preparations == v.preparations
    ensures TaskOk(u, p.dir.(journals := p.dir.journals[due.key := j]), due.next)
  {
  }

  lemma DueMeansUnfenced(b: Book, v: World, p: Process)
    requires OwnerOk(b, v, p) && DueOf(b, p).Some?
    ensures !p.dir.fenced && Owns(b, p.dir, v.files) && TaskOk(v, p.dir, p.task)
  {
  }

  lemma WholeIsSafe(b: Book, v: World, u: World, p: Process, due: Due, j: Journal)
    requires CommitsOk(b, v) && Owns(b, p.dir, v.files) && TaskOk(v, p.dir, p.task) && !p.dir.fenced
      && DueFits(p.task, due)
    requires due.key in p.dir.journals && due.key in v.files && v.files[due.key] <= j.raw
      && Mirrors(b, j, due.key, j.raw)
    requires Follows(p.dir.journals[due.key].chain.state, due.payload, j.chain.state.value)
    requires u == At(v, p.dir.(journals := p.dir.journals[due.key := j]), due.next).(files := v.files[due.key := j.raw])
    ensures Safe(b, u)
  {
    GrowsAt(v.files, due.key, j.raw);
    MirrorsFresh(b, p.dir.journals, v.files, due.key, j, j.raw);
    AppendAdvances(v, u, p, due, j);
    CommitsKept(b, v, u);
  }

  lemma AppendEndIsSafe(b: Book, v: World, p: Process, due: Due, j: Journal, end: Outcome)
    requires CommitsOk(b, v) && Owns(b, p.dir, v.files) && TaskOk(v, p.dir, p.task) && !p.dir.fenced
      && DueFits(p.task, due)
    requires due.key in p.dir.journals && due.key in v.files && v.files[due.key] == p.dir.journals[due.key].raw <= j.raw
    requires Mirrors(b, j, due.key, j.raw)
    requires Follows(p.dir.journals[due.key].chain.state, due.payload, j.chain.state.value)
    ensures Safe(b, AppendEnd(v, p.dir, due, j, end))
  {
    if end.Complete? {
      WholeIsSafe(b, v, AppendEnd(v, p.dir, due, j, end), p, due, j);
    } else {
      PartGrows(v.files, due.key, j.raw, Least(|p.dir.journals[due.key].raw| + end.written, |j.raw|));
      CommitsKept(b, v, AppendEnd(v, p.dir, due, j, end));
    }
  }

  lemma AppendingIsSafe(b: JournalBook, v: World, p: Process, due: Due, end: Outcome)
    requires CommitsOk(b, v) && Owns(b, p.dir, v.files) && TaskOk(v, p.dir, p.task) && !p.dir.fenced
      && DueFits(p.task, due)
    requires due.key in p.dir.journals
    ensures Safe(b, Appending(b, v, p.dir, due, end))
  {
    var can := Appended(b, p.dir, v.files, due.key, due.payload);
    if can.None? {
      CommitsKept(b, v, Appending(b, v, p.dir, due, end));
    } else {
      AppendFacts(b, p.dir, v.files, due.key, due.payload);
      AppendEndIsSafe(b, v, p, due, can.value, end);
    }
  }

  lemma KeepingIsSafe(b: JournalBook, v: World, p: Process, end: Outcome)
    requires Safe(b, v) && v.owner == Some(p) && TakeKeep(b, v, p, end).Some?
    ensures Safe(b, TakeKeep(b, v, p, end).value)
  {
    DueMeansUnfenced(b, v, p);
    DueOfFits(b, p);
    AppendingIsSafe(b, v, p, DueOf(b, p).value, end);
  }

  lemma OpeningIsSafe(b: JournalBook, v: World, step: Step)
    requires Safe(b, v) && v.owner.None? && Take(b, v, step).Some?
    ensures Safe(b, Take(b, v, step).value)
  {
    OpenOwns(b, v.files, step.writable);
    CommitsKept(b, v, Take(b, v, step).value);
  }

  lemma WritingIsSafe(b: JournalBook, v: World, p: Process, step: Step)
    requires Safe(b, v) && v.owner == Some(p) && (step.Create? || step.Keep?) && TakeOwned(b, v, p, step).Some?
    ensures Safe(b, TakeOwned(b, v, p, step).value)
  {
    match step
    case Create(a, end) => CreatingIsSafe(b, v, p, p.task.plan, p.task.manifest, p.task.conn, a, end);
    case Keep(end) => KeepingIsSafe(b, v, p, end);
  }

  lemma SendingIsSafe(b: Book, v: World, p: Process, step: Step)
    requires Safe(b, v) && v.owner == Some(p) && (step.PrepareStep? || step.CommitStep?)
      && TakeOwned(b, v, p, step).Some?
    ensures Safe(b, TakeOwned(b, v, p, step).value)
  {
    match step
    case PrepareStep(reply) => PreparingIsSafe(b, v, p, reply);
    case CommitStep(reply) => CommittingIsSafe(b, v, p, reply);
  }

  // Every step keeps the world safe.
  lemma StepIsSafe(b: JournalBook, v: World, step: Step)
    requires Safe(b, v) && Take(b, v, step).Some?
    ensures Safe(b, Take(b, v, step).value)
  {
    match v.owner
    case None => OpeningIsSafe(b, v, step);
    case Some(p) =>
      assert Take(b, v, step) == TakeOwned(b, v, p, step);
      if step.Create? || step.Keep? {
        WritingIsSafe(b, v, p, step);
      } else if step.PrepareStep? || step.CommitStep? {
        SendingIsSafe(b, v, p, step);
      } else {
        TalkingIsSafe(b, v, p, step);
      }
  }

  lemma {:induction false} RunKeepsSafe(b: JournalBook, v: World, steps: seq<Step>)
    requires Safe(b, v) && Run(b, v, steps).Some?
    ensures Safe(b, Run(b, v, steps).value)
  {
    if steps != [] {
      var n := |steps| - 1;
      RunKeepsSafe(b, v, steps[..n]);
      StepIsSafe(b, Run(b, v, steps[..n]).value, steps[n]);
    }
  }

  // ---- Keys that had a file at the start.

  // The keys that were there stay there, and neither a commit nor a task on its way to one has such a key.
  predicate Novel(v: World, first: set<Bytes>) {
    && first <= v.files.Keys
    && (forall i :: 0 <= i < |v.commits| ==> v.commits[i].plan.key !in first)
    && (v.owner.Some? ==> NovelTask(v.owner.value.task, first))
  }

  predicate NovelTask(t: Task, first: set<Bytes>) {
    t.Created? || t.PreparedReply? || t.PreparedKept? || t.DispatchKept? ==> t.plan.key !in first
  }

  lemma KeepIsNovel(b: Book, v: World, p: Process, due: Due, end: Outcome, first: set<Bytes>)
    requires Novel(v, first) && v.owner == Some(p) && DueFits(p.task, due) && due.key in p.dir.journals
    ensures Novel(Appending(b, v, p.dir, due, end), first)
  {
  }

  lemma CreateIsNovel(b: Book, v: World, p: Process, plan: Plan, m: Manifest, conn: Connection, a: Address,
                      end: Creation, first: set<Bytes>)
    requires Novel(v, first) && v.owner == Some(p) && p.task == Unretained(plan, m, conn)
    ensures Novel(Creating(b, v, p.dir, plan, m, conn, a, end), first)
  {
  }

  lemma StepIsNovel(b: Book, v: World, step: Step, first: set<Bytes>)
    requires Novel(v, first) && Take(b, v, step).Some?
    ensures Novel(Take(b, v, step).value, first)
  {
    if v.owner.Some? {
      var p := v.owner.value;
      match step
      case Create(a, end) => CreateIsNovel(b, v, p, p.task.plan, p.task.manifest, p.task.conn, a, end, first);
      case Keep(end) =>
        DueOfFits(b, p);
        KeepIsNovel(b, v, p, DueOf(b, p).value, end, first);
      case CommitStep(reply) => CommitIsNovel(b, v, p, reply, first);
      case _ => TalkIsNovel(b, v, p, step, first);
    }
  }

  lemma CommitIsNovel(b: Book, v: World, p: Process, reply: Arrival, first: set<Bytes>)
    requires Novel(v, first) && v.owner == Some(p) && TakeCommit(b, v, p, reply).Some?
    ensures Novel(TakeCommit(b, v, p, reply).value, first)
  {
    CommitShape(b, v, p, reply);
    OneMoreIsNovel(v, TakeCommit(b, v, p, reply).value,
                   Dispatch(p.task.conn.id, p.task.plan, v.files[p.task.plan.key]), first);
  }

  // A commit adds one entry, for the plan of its task, and touches no file.
  lemma CommitShape(b: Book, v: World, p: Process, reply: Arrival)
    requires TakeCommit(b, v, p, reply).Some?
    ensures var u := TakeCommit(b, v, p, reply).value;
            && p.task.DispatchKept? && p.task.plan.key in v.files && u.files == v.files
            && u.commits == v.commits + [Dispatch(p.task.conn.id, p.task.plan, v.files[p.task.plan.key])]
            && u.owner.Some? && (u.owner.value.task.Idle? || u.owner.value.task.CommitReply?)
  {
  }

  lemma OneMoreIsNovel(v: World, u: World, e: Dispatch, first: set<Bytes>)
    requires Novel(v, first) && u.files == v.files && u.commits == v.commits + [e] && e.plan.key !in first
    requires u.owner.Some? && (u.owner.value.task.Idle? || u.owner.value.task.CommitReply?)
    ensures Novel(u, first)
  {
  }

  lemma TalkIsNovel(b: Book, v: World, p: Process, step: Step, first: set<Bytes>)
    requires Novel(v, first) && v.owner == Some(p) && (Talks(step) || step.PrepareStep?)
      && TakeOwned(b, v, p, step).Some?
    ensures Novel(TakeOwned(b, v, p, step).value, first)
  {
  }

  lemma {:induction false} RunIsNovel(b: Book, files: Files, steps: seq<Step>)
    requires Run(b, Initial(files), steps).Some?
    ensures Novel(Run(b, Initial(files), steps).value, files.Keys)
  {
    if steps != [] {
      var n := |steps| - 1;
      RunIsNovel(b, files, steps[..n]);
      StepIsNovel(b, Run(b, Initial(files), steps[..n]).value, steps[n], files.Keys);
    }
  }

  // Two runs one after the other are one run.
  lemma {:induction false} RunsJoin(b: Book, v: World, s: seq<Step>, t: seq<Step>)
    requires Run(b, v, s).Some?
    ensures Run(b, v, s + t) == Run(b, Run(b, v, s).value, t)
  {
    if t == [] {
      assert s + t == s;
    } else {
      var n := |t| - 1;
      RunsJoin(b, v, s, t[..n]);
      assert (s + t)[..|s + t| - 1] == s + t[..n];
    }
  }

  // In every run from any directory, CommitPlacement goes out at most once per key, only on the
  // connection whose fresh preparation of that plan was answered, and only while the journal file
  // holds a complete dispatch frame for that plan, which stays in the file for ever. A key that had a
  // file at the start is never committed.
  lemma AtMostOnce(b: JournalBook, files: Files, steps: seq<Step>)
    requires Run(b, Initial(files), steps).Some?
    ensures var v := Run(b, Initial(files), steps).value;
            (forall i, j :: 0 <= i < j < |v.commits| ==> v.commits[i].plan.key != v.commits[j].plan.key) &&
            (forall i :: 0 <= i < |v.commits| ==>
              && (v.commits[i].connection, v.commits[i].plan) in v.preparations
              && DurableDispatch(b, v.commits[i].durable, v.commits[i].plan) && v.commits[i].plan.key !in files
              && v.commits[i].plan.key in v.files && v.commits[i].durable <= v.files[v.commits[i].plan.key])
  {
    RunKeepsSafe(b, Initial(files), steps);
    RunIsNovel(b, files, steps);
    var v := Run(b, Initial(files), steps).value;
    forall i | 0 <= i < |v.commits| ensures CommitOk(b, v, v.commits[i]) {}
  }
}
