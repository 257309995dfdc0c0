// scripts/build_placement_client.py: `start` and `recover` drive the directory and a connection,
// and everything they do is a run of the protocol.
module PlacementStart {
  import opened Common
  import opened ByteCodec
  import opened PlacementWire
  import opened PlacementRecord
  import opened PlacementJournal
  import opened PlacementStore
  import opened PlacementRpc
  import opened PlacementProtocol
  import opened PlacementText
  import opened PlacementSafety
  import opened PlacementOwner

  // How the native side answers and how each write ends during one call.
  datatype Script = Script(hello: Arrival, observed: Arrival, known: Arrival, prepared: Arrival, committed: Arrival,
                           creation: Creation, preparation: Outcome, dispatch: Outcome, receipt: Outcome)

  // The commits of a world as requests.
  function Ledger(commits: seq<Dispatch>): seq<Request> {
    if commits == [] then [] else
      var last := commits[|commits| - 1];
      Ledger(commits[..|commits| - 1]) + [Request(last.connection, CommitPlacement, Some(last.plan))]
  }

  // The world as this owner, the disk and the native side show it: the commits of the world are
  // exactly the CommitPlacement requests that were sent.
  ghost predicate Shows(v: World, d: PlacementDirectory, native: Native, t: Task)
    reads d, d.disk, native
  {
    v.files == d.disk.files && v.owner == Some(Process(d.Value(), t)) && CommitsIn(native.sent) == Ledger(v.commits)
  }

  // A call other than commit sends no CommitPlacement.
  lemma QuietCall(b: Book, c: Connection, call: Call, sent: seq<Request>)
    requires !call.Commit?
    ensures CommitsIn(sent + RequestOf(b, c, call)) == CommitsIn(sent)
  {
    var more := RequestOf(b, c, call);
    if more == [] { assert sent + more == sent; } else { assert (sent + more)[..|sent|] == sent; }
  }

  lemma QuietHandshake(id: nat, sent: seq<Request>)
    ensures CommitsIn(sent + [Request(id, Handshake, None)]) == CommitsIn(sent)
  {
    assert (sent + [Request(id, Handshake, None)])[..|sent|] == sent;
  }

  // A commit that goes out is one more request, and one more entry of the ledger.
  lemma CommitCall(b: Book, c: Connection, plan: Plan, reply: Arrival, sent: seq<Request>, commits: seq<Dispatch>,
                   raw: Bytes)
    requires CommitsIn(sent) == Ledger(commits)
    ensures Sends(b, c, Commit(plan, reply)) ==>
      CommitsIn(sent + RequestOf(b, c, Commit(plan, reply))) == Ledger(commits + [Dispatch(c.id, plan, raw)])
    ensures !Sends(b, c, Commit(plan, reply)) ==> sent + RequestOf(b, c, Commit(plan, reply)) == sent
  {
    var request := Request(c.id, CommitPlacement, Some(plan));
    assert (sent + [request])[..|sent|] == sent;
    assert (commits + [Dispatch(c.id, plan, raw)])[..|commits|] == commits;
  }

  // At most one more commit.
  ghost predicate OneMore(before: seq<Dispatch>, after: seq<Dispatch>) {
    before <= after && |after| <= |before| + 1
  }

  // ---- What `start` does to the world, stage by stage. A stage that fails ends the call, and later stages
  // then change nothing.

  // Observe, and ask whether the native side holds anything for the plan.
  function Surveyed(b: Book, v: World, s: Script): World {
    Tried(b, Tried(b, v, ObserveStep(s.observed)), AskKnown(s.known))
  }

  // Write the intent and ask for a preparation.
  function Established(b: Book, v: World, a: Address, s: Script): World {
    Tried(b, Tried(b, v, Create(a, s.creation)), PrepareStep(s.prepared))
  }

  // Keep the preparation, or the outcome it met, and then the dispatch.
  function Authorised(b: Book, v: World, s: Script): World {
    Tried(b, Tried(b, v, Keep(s.preparation)), Keep(s.dispatch))
  }

  // Commit and keep the receipt.
  function Finished(b: Book, v: World, s: Script): World {
    Tried(b, Tried(b, v, CommitStep(s.committed)), Keep(s.receipt))
  }

  function Begun(b: Book, v: World, key: Bytes, expected: Bytes, selection: Selection, s: Script): World {
    Tried(b, v, Begin(key, expected, selection, s.hello))
  }

  function Started(b: Book, v: World, key: Bytes, expected: Bytes, selection: Selection, a: Address, s: Script): World {
    Finished(b, Authorised(b, Established(b, Surveyed(b, Begun(b, v, key, expected, selection, s), s), a, s), s), s)
  }

  // A complete append that ends the call: a receipt or a reconciliation is stored.
  predicate Stores(b: Book, v: World, end: Outcome) {
    && v.owner.Some? && end.Complete?
    && var due := DueOf(b, v.owner.value);
    && due.Some? && due.value.next.Idle? && due.value.key in v.owner.value.dir.journals
    && Appended(b, v.owner.value.dir, v.files, due.value.key, due.value.payload).Some?
  }

  // Whether `start` stores a receipt: for the preparation, or for the commit.
  predicate StartStores(b: Book, v: World, key: Bytes, expected: Bytes, selection: Selection, a: Address, s: Script) {
    var w := Established(b, Surveyed(b, Begun(b, v, key, expected, selection, s), s), a, s);
    Stores(b, w, s.preparation) || Stores(b, Tried(b, Authorised(b, w, s), CommitStep(s.committed)), s.receipt)
  }

  // Steps that only do something in the middle of a call.
  predicate Inner(step: Step) {
    !step.Open? && !step.Crash? && !step.Begin? && !step.BeginRecover?
  }

  lemma IdleStays(b: Book, v: World, step: Step)
    requires v.owner.Some? && v.owner.value.task.Idle? && Inner(step)
    ensures Tried(b, v, step) == v
  {
  }

  lemma IdleStoresNothing(b: Book, v: World, end: Outcome)
    requires v.owner.Some? && v.owner.value.task.Idle?
    ensures !Stores(b, v, end)
  {
  }

  // ---- The methods.

  // The append that is due, with any outcome.
  method KeepNext(d: PlacementDirectory, due: Due, end: Outcome, ghost native: Native, ghost t: Task, ghost v: World)
    returns (ok: bool)
    requires Shows(v, d, native, t)
    requires due.key in d.journals && DueOf(d.book, Process(d.Value(), t)) == Some(due)
    modifies d, d.disk
    ensures ok <==> end.Complete? && Appended(d.book, old(d.Value()), old(d.disk.files), due.key, due.payload).Some?
    ensures Shows(Tried(d.book, v, Keep(end)), d, native, if ok then due.next else Idle)
  {
    KeepTried(d.book, v, Process(d.Value(), t), due, end);
    ok := d.Append(due.key, due.payload, end);
  }

  lemma KeepTried(b: Book, v: World, p: Process, due: Due, end: Outcome)
    requires v.owner == Some(p) && DueOf(b, p) == Some(due) && due.key in p.dir.journals
    ensures Tried(b, v, Keep(end)) == Appending(b, v, p.dir, due, end)
  {
    assert Take(b, v, Keep(end)) == TakeKeep(b, v, p, end);
  }

  lemma NothingDue(b: Book, v: World, p: Process, end: Outcome)
    requires v.owner == Some(p) && DueOf(b, p).None?
    ensures Tried(b, v, Keep(end)) == At(v, p.dir, Idle) && !Stores(b, v, end)
  {
    assert Take(b, v, Keep(end)) == TakeKeep(b, v, p, end);
  }

  // Observe the place that is to be used, and form the plan that was confirmed.
  method Look(d: PlacementDirectory, client: Client, key: Bytes, expected: Bytes, reply: Arrival, ghost v: World)
    returns (plan: Option<(Plan, Manifest)>)
    requires client.book == d.book && Shows(v, d, client.native, Connected(key, expected, client.Value()))
    modifies client, client.native
    ensures old(client.native.sent) <= client.native.sent
    ensures Shows(Tried(d.book, v, ObserveStep(reply)), d, client.native,
                  if plan.None? then Idle else Observed(plan.value.0, plan.value.1, client.Value()))
  {
    QuietCall(d.book, client.Value(), Observe(reply), client.native.sent);
    var observed := client.ObservePlacement(reply);
    if observed.None? || observed.value.unresolved || observed.value.capture.None? { return None; }
    var p := Plan(key, observed.value.capture.value);
    if !d.book.validPlan(p) || d.book.digest(p) != expected { return None; }
    plan := Some((p, observed.value.manifest));
  }

  // Ask whether the native side holds anything for this plan.
  method Ask(d: PlacementDirectory, client: Client, plan: Plan, m: Manifest, reply: Arrival, ghost v: World)
    returns (clear: bool)
    requires client.book == d.book && Shows(v, d, client.native, Observed(plan, m, client.Value()))
    modifies client, client.native
    ensures old(client.native.sent) <= client.native.sent
    ensures Shows(Tried(d.book, v, AskKnown(reply)), d, client.native,
                  if clear then Unretained(plan, m, client.Value()) else Idle)
  {
    var same := d.CheckAll();
    if !same { return false; }
    QuietCall(d.book, client.Value(), Query(plan, reply), client.native.sent);
    var known := client.QueryPlan(plan, reply);
    clear := known.Some? && known.value.record.None? && !known.value.unresolved;
  }

  // Write the intent of the plan.
  method Announce(d: PlacementDirectory, conn: Connection, plan: Plan, m: Manifest, a: Address, end: Creation,
                  ghost native: Native, ghost v: World)
    returns (made: bool)
    requires Shows(v, d, native, Unretained(plan, m, conn))
    modifies d, d.disk
    ensures Shows(Tried(d.book, v, Create(a, end)), d, native, if made then Created(plan, conn) else Idle)
  {
    made := d.CreateJournal(plan, m, a, end);
  }

  lemma PrepareTaken(b: Book, v: World, d: Directory, plan: Plan, conn: Connection, reply: Arrival)
    requires v.owner == Some(Process(d, Created(plan, conn)))
    ensures var call := Prepare(plan, reply);
            Tried(b, v, PrepareStep(reply)) ==
            if Check(d, v.files) && Answer(b, conn, call).Some?
            then PreparedWorld(v, d, plan, conn.id, After(b, conn, call), Answer(b, conn, call).value)
            else At(v, d, Idle)
  {
    var p := v.owner.value;
    assert Take(b, v, PrepareStep(reply)) == TakeOwned(b, v, p, PrepareStep(reply)) == TakePrepare(b, v, p, reply);
  }

  // Ask for a preparation once the intent is durable.
  method AskPreparation(d: PlacementDirectory, client: Client, plan: Plan, reply: Arrival, ghost v: World)
    returns (prepared: Option<Reply>)
    requires client.book == d.book && Shows(v, d, client.native, Created(plan, client.Value()))
    modifies client, client.native
    ensures old(client.native.sent) <= client.native.sent
    ensures Shows(Tried(d.book, v, PrepareStep(reply)), d, client.native,
                  if prepared.None? then Idle else PreparedReply(plan, client.Value(), prepared.value))
  {
    PrepareTaken(d.book, v, d.Value(), plan, client.Value(), reply);
    var same := d.CheckAll();
    if !same { return None; }
    QuietCall(d.book, client.Value(), Prepare(plan, reply), client.native.sent);
    prepared := client.PreparePlan(plan, reply);
  }

  // What each stage appends.
  lemma DueOutcome(b: Book, d: Directory, plan: Plan, conn: Connection, reply: Reply)
    requires StateOf(d, plan.key).Some? && reply.record.Some? && !reply.record.value.phase.Prepared?
    ensures DueOf(b, Process(d, PreparedReply(plan, conn, reply)))
         == PutDue(plan.key, RetainVerdict(b, StateOf(d, plan.key).value, reply, false), Idle)
  {
  }

  lemma DuePreparation(b: Book, d: Directory, plan: Plan, conn: Connection, reply: Reply)
    requires StateOf(d, plan.key).Some? && reply.record.Some? && reply.record.value.phase.Prepared?
    requires reply.replayed == Some(false)
    ensures DueOf(b, Process(d, PreparedReply(plan, conn, reply)))
         == PutDue(plan.key, RetainVerdict(b, StateOf(d, plan.key).value, reply, true), PreparedKept(plan, conn))
  {
  }

  lemma DueNothing(b: Book, d: Directory, plan: Plan, conn: Connection, reply: Reply)
    requires StateOf(d, plan.key).None? || reply.record.None? ||
      (reply.record.value.phase.Prepared? && reply.replayed != Some(false))
    ensures DueOf(b, Process(d, PreparedReply(plan, conn, reply))) == None
  {
  }

  lemma DueDispatch(b: Book, d: Directory, plan: Plan, conn: Connection)
    ensures DueOf(b, Process(d, PreparedKept(plan, conn))) ==
      if b.validPlan(plan) then Some(Due(plan.key, DispatchFrame(b.digest(plan)), DispatchKept(plan, conn))) else None
  {
  }

  lemma DueReceipt(b: Book, d: Directory, plan: Plan, conn: Connection, reply: Reply)
    ensures DueOf(b, Process(d, CommitReply(plan, conn, reply))) ==
      if StateOf(d, plan.key).None? then None
      else PutDue(plan.key, RetainVerdict(b, StateOf(d, plan.key).value, reply, false), Idle)
  {
  }

  // `journal.retain`: append what the verdict asks for, then go on to the next stage.
  method RetainNext(d: PlacementDirectory, key: Bytes, reply: Reply, prepared: bool, after: Task, end: Outcome,
                    ghost native: Native, ghost t: Task, ghost v: World)
    returns (stored: bool)
    requires Shows(v, d, native, t) && StateOf(d.Value(), key).Some?
    requires DueOf(d.book, Process(d.Value(), t))
          == PutDue(key, RetainVerdict(d.book, StateOf(d.Value(), key).value, reply, prepared), after)
    modifies d, d.disk
    ensures after.Idle? ==> (stored <==> Stores(d.book, v, end))
    ensures Shows(Tried(d.book, v, Keep(end)), d, native, if stored then after else Idle)
  {
    var verdict := RetainVerdict(d.book, StateOf(d.Value(), key).value, reply, prepared);
    if verdict.Put? {
      stored := KeepNext(d, Due(key, verdict.payload, after), end, native, t, v);
    } else {
      NothingDue(d.book, v, Process(d.Value(), t), end);
      stored := false;
    }
  }

  lemma CommitTaken(b: Book, v: World, d: Directory, plan: Plan, conn: Connection, reply: Arrival)
    requires v.owner == Some(Process(d, DispatchKept(plan, conn)))
    ensures var call := Commit(plan, reply);
            var answer := Answer(b, conn, call);
            Tried(b, v, CommitStep(reply)) ==
            if Check(d, v.files) && plan.key in v.files && Sends(b, conn, call)
            then At(v, d, if answer.None? then Idle else CommitReply(plan, After(b, conn, call), answer.value))
                 .(commits := v.commits + [Dispatch(conn.id, plan, v.files[plan.key])])
            else At(v, d, Idle)
  {
    var p := v.owner.value;
    assert Take(b, v, CommitStep(reply)) == TakeOwned(b, v, p, CommitStep(reply)) == TakeCommit(b, v, p, reply);
  }

  // Send the commit once the dispatch is durable.
  method Send(d: PlacementDirectory, client: Client, plan: Plan, committed: Arrival, ghost v: World)
    returns (reply: Option<Reply>)
    requires client.book == d.book && Shows(v, d, client.native, DispatchKept(plan, client.Value()))
    modifies client, client.native
    ensures old(client.native.sent) <= client.native.sent
    ensures Shows(Tried(d.book, v, CommitStep(committed)), d, client.native,
                  if reply.None? then Idle else CommitReply(plan, client.Value(), reply.value))
  {
    CommitTaken(d.book, v, d.Value(), plan, client.Value(), committed);
    var same := d.CheckAll();
    if !same || plan.key !in d.disk.files { return None; }
    CommitCall(d.book, client.Value(), plan, committed, client.native.sent, v.commits, d.disk.files[plan.key]);
    reply := client.CommitPlan(plan, committed);
  }

  // Keep the outcome that a preparation met.
  method KeepOutcome(d: PlacementDirectory, client: Client, plan: Plan, prepared: Reply, end: Outcome, ghost v: World)
    returns (stored: bool)
    requires Shows(v, d, client.native, PreparedReply(plan, client.Value(), prepared))
    requires prepared.record.Some? && !prepared.record.value.phase.Prepared? && StateOf(d.Value(), plan.key).Some?
    modifies d, d.disk
    ensures stored <==> Stores(d.book, v, end)
    ensures Shows(Tried(d.book, v, Keep(end)), d, client.native, Idle)
  {
    DueOutcome(d.book, d.Value(), plan, client.Value(), prepared);
    stored := RetainNext(d, plan.key, prepared, false, Idle, end, client.native,
                         PreparedReply(plan, client.Value(), prepared), v);
  }

  // Keep a fresh preparation.
  method KeepPreparation(d: PlacementDirectory, client: Client, plan: Plan, prepared: Reply, end: Outcome,
                         ghost v: World)
    returns (ok: bool)
    requires Shows(v, d, client.native, PreparedReply(plan, client.Value(), prepared))
    requires prepared.record.Some? && prepared.record.value.phase.Prepared? && StateOf(d.Value(), plan.key).Some?
    modifies d, d.disk
    ensures !Stores(d.book, v, end)
    ensures Shows(Tried(d.book, v, Keep(end)), d, client.native, if ok then PreparedKept(plan, client.Value())
      else Idle)
  {
    if prepared.replayed != Some(false) {
      DueNothing(d.book, d.Value(), plan, client.Value(), prepared);
      NothingDue(d.book, v, Process(d.Value(), PreparedReply(plan, client.Value(), prepared)), end);
      return false;
    }
    DuePreparation(d.book, d.Value(), plan, client.Value(), prepared);
    ok := RetainNext(d, plan.key, prepared, true, PreparedKept(plan, client.Value()), end, client.native,
                     PreparedReply(plan, client.Value(), prepared), v);
  }

  // Keep the dispatch.
  method KeepDispatch(d: PlacementDirectory, client: Client, plan: Plan, end: Outcome, ghost v: World)
    returns (ok: bool)
    requires Shows(v, d, client.native, PreparedKept(plan, client.Value()))
    modifies d, d.disk
    ensures Shows(Tried(d.book, v, Keep(end)), d, client.native, if ok then DispatchKept(plan, client.Value())
      else Idle)
  {
    DueDispatch(d.book, d.Value(), plan, client.Value());
    if !d.book.validPlan(plan) || plan.key !in d.journals {
      NoJournalDue(d.book, v, Process(d.Value(), PreparedKept(plan, client.Value())), end);
      return false;
    }
    var due := Due(plan.key, DispatchFrame(d.book.digest(plan)), DispatchKept(plan, client.Value()));
    ok := KeepNext(d, due, end, client.native, PreparedKept(plan, client.Value()), v);
  }

  lemma NoJournalDue(b: Book, v: World, p: Process, end: Outcome)
    requires v.owner == Some(p) && (DueOf(b, p).Some? ==> DueOf(b, p).value.key !in p.dir.journals)
    ensures Tried(b, v, Keep(end)) == At(v, p.dir, Idle)
  {
    assert Take(b, v, Keep(end)) == TakeKeep(b, v, p, end);
  }

  // Commit, and keep the receipt.
  method Finish(d: PlacementDirectory, client: Client, plan: Plan, s: Script, ghost v: World) returns (stored: bool)
    requires client.book == d.book && Shows(v, d, client.native, DispatchKept(plan, client.Value()))
    modifies client, client.native, d, d.disk
    ensures old(client.native.sent) <= client.native.sent
    ensures stored <==> Stores(d.book, Tried(d.book, v, CommitStep(s.committed)), s.receipt)
    ensures Shows(Finished(d.book, v, s), d, client.native, Idle)
  {
    var reply := Send(d, client, plan, s.committed, v);
    ghost var w := Tried(d.book, v, CommitStep(s.committed));
    if reply.None? {
      IdleStays(d.book, w, Keep(s.receipt));
      IdleStoresNothing(d.book, w, s.receipt);
      return false;
    }
    DueReceipt(d.book, d.Value(), plan, client.Value(), reply.value);
    if StateOf(d.Value(), plan.key).None? {
      NothingDue(d.book, w, Process(d.Value(), CommitReply(plan, client.Value(), reply.value)), s.receipt);
      return false;
    }
    stored := RetainNext(d, plan.key, reply.value, false, Idle, s.receipt, client.native,
                         CommitReply(plan, client.Value(), reply.value), w);
  }

  // The world after the answer to the preparation.
  function Performed(b: Book, v: World, s: Script): World { Finished(b, Authorised(b, v, s), s) }

  predicate PerformStores(b: Book, v: World, s: Script) {
    Stores(b, v, s.preparation) || Stores(b, Tried(b, Authorised(b, v, s), CommitStep(s.committed)), s.receipt)
  }

  // A call that has ended by the first append does nothing more.
  lemma EndedAtKeep(b: Book, v: World, s: Script)
    requires var w := Tried(b, v, Keep(s.preparation)); w.owner.Some? && w.owner.value.task.Idle?
    ensures Performed(b, v, s) == Tried(b, v, Keep(s.preparation))
    ensures PerformStores(b, v, s) <==> Stores(b, v, s.preparation)
  {
    var w := Tried(b, v, Keep(s.preparation));
    IdleStays(b, w, Keep(s.dispatch));
    EndedAtDispatch(b, w, s);
  }

  lemma EndedAtDispatch(b: Book, w: World, s: Script)
    requires w.owner.Some? && w.owner.value.task.Idle?
    ensures Finished(b, w, s) == w && !Stores(b, Tried(b, w, CommitStep(s.committed)), s.receipt)
  {
    IdleStays(b, w, CommitStep(s.committed));
    IdleStays(b, w, Keep(s.receipt));
    IdleStoresNothing(b, w, s.receipt);
  }

  // From the answer to the preparation to the end: keep its outcome, or authorise, commit and keep the receipt.
  method Perform(d: PlacementDirectory, client: Client, plan: Plan, prepared: Reply, s: Script, ghost v: World)
    returns (stored: bool)
    requires client.book == d.book && Shows(v, d, client.native, PreparedReply(plan, client.Value(), prepared))
    modifies client, client.native, d, d.disk
    ensures old(client.native.sent) <= client.native.sent
    ensures stored <==> PerformStores(d.book, v, s)
    ensures Shows(Performed(d.book, v, s), d, client.native, Idle)
  {
    stored := false;
    if prepared.record.None? || StateOf(d.Value(), plan.key).None? {
      DueNothing(d.book, d.Value(), plan, client.Value(), prepared);
      NothingDue(d.book, v, Process(d.Value(), PreparedReply(plan, client.Value(), prepared)), s.preparation);
      EndedAtKeep(d.book, v, s);
      return;
    }
    if !prepared.record.value.phase.Prepared? {
      stored := KeepOutcome(d, client, plan, prepared, s.preparation, v);
      EndedAtKeep(d.book, v, s);
      return;
    }
    var ok := KeepPreparation(d, client, plan, prepared, s.preparation, v);
    if !ok {
      EndedAtKeep(d.book, v, s);
      return;
    }
    ok := KeepDispatch(d, client, plan, s.dispatch, Tried(d.book, v, Keep(s.preparation)));
    if !ok {
      EndedAtDispatch(d.book, Authorised(d.book, v, s), s);
      return;
    }
    stored := Finish(d, client, plan, s, Authorised(d.book, v, s));
  }

  // Everything after the intent, when the intent or the preparation fails.
  lemma EndedEarly(b: Book, w: World, s: Script)
    requires w.owner.Some? && w.owner.value.task.Idle?
    ensures Performed(b, w, s) == w && !PerformStores(b, w, s)
  {
    IdleStays(b, w, Keep(s.preparation));
    IdleStoresNothing(b, w, s.preparation);
    EndedAtKeep(b, w, s);
  }

  // Write the intent, prepare and perform.
  method Undertake(d: PlacementDirectory, client: Client, plan: Plan, m: Manifest, a: Address, s: Script,
                   ghost v: World)
    returns (stored: bool)
    requires client.book == d.book && Shows(v, d, client.native, Unretained(plan, m, client.Value()))
    modifies client, client.native, d, d.disk
    ensures old(client.native.sent) <= client.native.sent
    ensures stored <==> PerformStores(d.book, Established(d.book, v, a, s), s)
    ensures Shows(Performed(d.book, Established(d.book, v, a, s), s), d, client.native, Idle)
  {
    ghost var w := Tried(d.book, v, Create(a, s.creation));
    var made := Announce(d, client.Value(), plan, m, a, s.creation, client.native, v);
    if !made {
      IdleStays(d.book, w, PrepareStep(s.prepared));
      EndedEarly(d.book, w, s);
      return false;
    }
    var prepared := AskPreparation(d, client, plan, s.prepared, w);
    if prepared.None? {
      EndedEarly(d.book, Established(d.book, v, a, s), s);
      return false;
    }
    stored := Perform(d, client, plan, prepared.value, s, Established(d.book, v, a, s));
  }

  lemma EndedAtSurvey(b: Book, w: World, a: Address, s: Script)
    requires w.owner.Some? && w.owner.value.task.Idle?
    ensures Established(b, w, a, s) == w && Performed(b, w, s) == w && !PerformStores(b, w, s)
  {
    IdleStays(b, w, Create(a, s.creation));
    IdleStays(b, w, PrepareStep(s.prepared));
    EndedEarly(b, w, s);
  }

  // Everything that `start` does on its connection.
  method Place(d: PlacementDirectory, client: Client, key: Bytes, expected: Bytes, a: Address, s: Script,
               ghost v: World)
    returns (stored: bool)
    requires client.book == d.book && Shows(v, d, client.native, Connected(key, expected, client.Value()))
    modifies client, client.native, d, d.disk
    ensures old(client.native.sent) <= client.native.sent
    ensures stored <==> PerformStores(d.book, Established(d.book, Surveyed(d.book, v, s), a, s), s)
    ensures Shows(Performed(d.book, Established(d.book, Surveyed(d.book, v, s), a, s), s), d, client.native, Idle)
  {
    var found := Look(d, client, key, expected, s.observed, v);
    ghost var w := Tried(d.book, v, ObserveStep(s.observed));
    if found.None? {
      IdleStays(d.book, w, AskKnown(s.known));
      EndedAtSurvey(d.book, w, a, s);
      return false;
    }
    var (plan, m) := found.value;
    var clear := Ask(d, client, plan, m, s.known, w);
    if !clear {
      EndedAtSurvey(d.book, Surveyed(d.book, v, s), a, s);
      return false;
    }
    stored := Undertake(d, client, plan, m, a, s, Surveyed(d.book, v, s));
  }

  // A call that never begins leaves the world alone.
  lemma NotBegun(b: Book, v: World, p: Process, step: Step)
    requires v.owner == Some(p) && p.task.Idle? && Take(b, v, step).None?
    ensures Tried(b, v, step) == v
  {
  }

  // `start`: the world after it is what the stages make of it, its commits stay exactly the CommitPlacement
  // requests that were sent, and it reports whether it stored a receipt.
  method Start(d: PlacementDirectory, native: Native, id: nat, key: Bytes, expected: Bytes, selection: Selection,
               a: Address, s: Script, ghost v: World)
    returns (stored: bool)
    requires Shows(v, d, native, Idle) && v.connections == id
    modifies d, d.disk, native
    ensures Shows(Started(d.book, v, key, expected, selection, a, s), d, native, Idle)
    ensures old(native.sent) <= native.sent
    ensures stored <==> StartStores(d.book, v, key, expected, selection, a, s)
  {
    ghost var step := Begin(key, expected, selection, s.hello);
    ghost var p := Process(d.Value(), Idle);
    BeginTaken(d.book, v, p, step);
    var ready := d.IsReady(key);
    if !ready {
      EndedAtStart(d.book, v, a, s);
      return false;
    }
    QuietHandshake(id, native.sent);
    var client := new Client(d.book, native, id, selection, s.hello);
    if client.closed {
      EndedAtStart(d.book, v, a, s);
      return false;
    }
    stored := Place(d, client, key, expected, a, s, Begun(d.book, v, key, expected, selection, s));
  }

  lemma BeginTaken(b: Book, v: World, p: Process, step: Step)
    requires v.owner == Some(p) && p.task.Idle? && step.Begin?
    ensures Tried(b, v, step) ==
      if Ready(p.dir, v.files, step.key) && Greeted(b, v.connections, step.selection, step.hello).Some?
      then At(v, p.dir, Connected(step.key, step.expected, Greeted(b, v.connections, step.selection, step.hello).value))
           .(connections := v.connections + 1)
      else v
  {
    assert Take(b, v, step) == TakeBegin(b, v, p, step);
    if Take(b, v, step).None? { NotBegun(b, v, p, step); }
  }

  lemma EndedAtStart(b: Book, v: World, a: Address, s: Script)
    requires v.owner.Some? && v.owner.value.task.Idle?
    ensures Surveyed(b, v, s) == v && Established(b, v, a, s) == v && Performed(b, v, s) == v && !PerformStores(b, v, s)
  {
    IdleStays(b, v, ObserveStep(s.observed));
    IdleStays(b, v, AskKnown(s.known));
    EndedAtSurvey(b, v, a, s);
  }

  // ---- `recover`.

  function Recovered(b: Book, v: World, key: Bytes, cancel: bool, address: Address, hello: Arrival, reply: Arrival,
                     end: Outcome): World {
    Tried(b, Tried(b, Tried(b, v, BeginRecover(key, cancel, address, hello)), RecoverStep(reply)), Keep(end))
  }

  predicate RecoverStores(b: Book, v: World, key: Bytes, cancel: bool, address: Address, hello: Arrival, reply: Arrival,
                          end: Outcome) {
    Stores(b, Tried(b, Tried(b, v, BeginRecover(key, cancel, address, hello)), RecoverStep(reply)), end)
  }

  lemma DueRecovery(b: Book, d: Directory, key: Bytes, conn: Connection, reply: Reply)
    requires StateOf(d, key).Some?
    ensures DueOf(b, Process(d, RecoveryReply(key, conn, reply)))
         == PutDue(key, RecoveryVerdict(b, StateOf(d, key).value, reply), Idle)
  {
  }

  method AskAgain(client: Client, plan: Plan, cancel: bool, reply: Arrival) returns (answer: Option<Reply>)
    modifies client, client.native
    ensures client.Value() == After(client.book, old(client.Value()), RecoveryCall(plan, cancel, reply))
    ensures answer == Answer(client.book, old(client.Value()), RecoveryCall(plan, cancel, reply))
    ensures client.native.sent
         == old(client.native.sent) + RequestOf(client.book, old(client.Value()), RecoveryCall(plan, cancel, reply))
  {
    if cancel {
      answer := client.CancelPlan(plan, reply);
    } else {
      answer := client.QueryPlan(plan, reply);
    }
  }

  lemma RecoverTaken(b: Book, v: World, d: Directory, key: Bytes, cancel: bool, conn: Connection, reply: Arrival)
    requires v.owner == Some(Process(d, Recovering(key, cancel, conn))) && StateOf(d, key).Some?
    ensures var s := StateOf(d, key).value;
            var call := RecoveryCall(s.plan, cancel, reply);
            var answer := Answer(b, conn, call);
            Tried(b, v, RecoverStep(reply)) ==
            if Check(d, v.files) && answer.Some? && Binds(s, answer.value.manifest)
            then At(v, d, RecoveryReply(key, After(b, conn, call), answer.value)) else At(v, d, Idle)
  {
    var p := v.owner.value;
    assert Take(b, v, RecoverStep(reply)) == TakeOwned(b, v, p, RecoverStep(reply)) == TakeRecover(b, v, p, reply);
  }

  // Ask the native side what became of the original attempt; the answer never allows a new one.
  method Inquire(d: PlacementDirectory, client: Client, key: Bytes, cancel: bool, reply: Arrival, ghost v: World)
    returns (answer: Option<Reply>)
    requires client.book == d.book
    requires Shows(v, d, client.native, Recovering(key, cancel, client.Value())) && StateOf(d.Value(), key).Some?
    modifies client, client.native
    ensures old(client.native.sent) <= client.native.sent
    ensures Shows(Tried(d.book, v, RecoverStep(reply)), d, client.native,
                  if answer.None? then Idle else RecoveryReply(key, client.Value(), answer.value))
  {
    var state := StateOf(d.Value(), key).value;
    RecoverTaken(d.book, v, d.Value(), key, cancel, client.Value(), reply);
    var same := d.CheckAll();
    if !same { return None; }
    QuietCall(d.book, client.Value(), RecoveryCall(state.plan, cancel, reply), client.native.sent);
    answer := AskAgain(client, state.plan, cancel, reply);
    if answer.None? || !Binds(state, answer.value.manifest) { return None; }
  }

  // Keep the evidence that a recovery brought.
  method Settle(d: PlacementDirectory, client: Client, key: Bytes, reply: Reply, end: Outcome, ghost v: World)
    returns (stored: bool)
    requires client.book == d.book && StateOf(d.Value(), key).Some?
    requires Shows(v, d, client.native, RecoveryReply(key, client.Value(), reply))
    modifies d, d.disk
    ensures stored <==> Stores(d.book, v, end)
    ensures Shows(Tried(d.book, v, Keep(end)), d, client.native, Idle)
  {
    ghost var t := RecoveryReply(key, client.Value(), reply);
    DueRecovery(d.book, d.Value(), key, client.Value(), reply);
    var verdict := RecoveryVerdict(d.book, StateOf(d.Value(), key).value, reply);
    if verdict.Put? {
      stored := KeepNext(d, Due(key, verdict.payload, Idle), end, client.native, t, v);
    } else {
      NothingDue(d.book, v, Process(d.Value(), t), end);
      stored := false;
    }
  }

  // Everything that `recover` does on its connection.
  method Reclaim(d: PlacementDirectory, client: Client, key: Bytes, cancel: bool, reply: Arrival, end: Outcome,
                 ghost v: World)
    returns (stored: bool)
    requires client.book == d.book
    requires Shows(v, d, client.native, Recovering(key, cancel, client.Value())) && StateOf(d.Value(), key).Some?
    modifies client, client.native, d, d.disk
    ensures old(client.native.sent) <= client.native.sent
    ensures stored <==> Stores(d.book, Tried(d.book, v, RecoverStep(reply)), end)
    ensures Shows(Tried(d.book, Tried(d.book, v, RecoverStep(reply)), Keep(end)), d, client.native, Idle)
  {
    ghost var w := Tried(d.book, v, RecoverStep(reply));
    var answer := Inquire(d, client, key, cancel, reply, v);
    if answer.None? {
      IdleStays(d.book, w, Keep(end));
      IdleStoresNothing(d.book, w, end);
      return false;
    }
    stored := Settle(d, client, key, answer.value, end, w);
  }

  // Which recoveries contact the native side: a writable owner that still holds the files it knows, the
  // endpoint of the intent, and a journal without a receipt or, unless cancelling, with an uncertain one.
  predicate Contacts(d: Directory, files: Files, key: Bytes, cancel: bool, address: Address) {
    && d.writable && Check(d, files) && StateOf(d, key).Some? && address == StateOf(d, key).value.address
    && (StateOf(d, key).value.terminal.None? ||
        (!cancel && StateOf(d, key).value.terminal.value.phase.Indeterminate?))
  }

  lemma RecoverBegins(b: Book, v: World, p: Process, key: Bytes, cancel: bool, address: Address, hello: Arrival)
    requires v.owner == Some(p) && p.task.Idle?
    ensures var s := StateOf(p.dir, key);
            var step := BeginRecover(key, cancel, address, hello);
            Tried(b, v, step) ==
            if Contacts(p.dir, v.files, key, cancel, address) &&
               Greeted(b, v.connections, s.value.plan.before.selection, hello).Some? &&
               Binds(s.value, hello.reply.manifest)
            then At(v, p.dir, Recovering(key, cancel, Greeted(b, v.connections, s.value.plan.before.selection,
              hello).value))
                 .(connections := v.connections + 1)
            else v
  {
    var step := BeginRecover(key, cancel, address, hello);
    assert Take(b, v, step) == TakeBeginRecover(b, v, p, step);
    if Take(b, v, step).None? { NotBegun(b, v, p, step); }
  }

  lemma EndedAtRecovery(b: Book, v: World, reply: Arrival, end: Outcome)
    requires v.owner.Some? && v.owner.value.task.Idle?
    ensures Tried(b, Tried(b, v, RecoverStep(reply)), Keep(end)) == v
      && !Stores(b, Tried(b, v, RecoverStep(reply)), end)
  {
    IdleStays(b, v, RecoverStep(reply));
    IdleStays(b, v, Keep(end));
    IdleStoresNothing(b, v, end);
  }

  // `recover`: the world after it is what its stages make of it, it sends something exactly when the native
  // side is needed and never a CommitPlacement, and it reports whether it stored evidence.
  method Recover(d: PlacementDirectory, native: Native, id: nat, key: Bytes, cancel: bool, address: Address,
                 hello: Arrival, reply: Arrival, end: Outcome, ghost v: World)
    returns (stored: bool)
    requires Shows(v, d, native, Idle) && v.connections == id
    modifies d, d.disk, native
    ensures Shows(Recovered(d.book, v, key, cancel, address, hello, reply, end), d, native, Idle)
    ensures old(native.sent) <= native.sent && CommitsIn(native.sent) == CommitsIn(old(native.sent))
    ensures native.sent != old(native.sent) <==> old(Contacts(d.Value(), d.disk.files, key, cancel, address))
    ensures stored <==> RecoverStores(d.book, v, key, cancel, address, hello, reply, end)
  {
    RecoveryCommitsNothing(d.book, v, key, cancel, address, hello, reply, end);
    RecoverBegins(d.book, v, Process(d.Value(), Idle), key, cancel, address, hello);
    var same := d.CheckAll();
    var found := StateOf(d.Value(), key);
    if !same || found.None? || !RequiresNative(found.value, cancel) || !d.writable || address != found.value.address {
      EndedAtRecovery(d.book, v, reply, end);
      return false;
    }
    stored := Contact(d, native, id, key, cancel, address, hello, reply, end, v);
  }

  // Connect, ask and keep the evidence.
  method Contact(d: PlacementDirectory, native: Native, id: nat, key: Bytes, cancel: bool, address: Address,
                 hello: Arrival, reply: Arrival, end: Outcome, ghost v: World)
    returns (stored: bool)
    requires Shows(v, d, native, Idle) && v.connections == id
    requires Contacts(d.Value(), d.disk.files, key, cancel, address)
    modifies d, d.disk, native
    ensures Shows(Recovered(d.book, v, key, cancel, address, hello, reply, end), d, native, Idle)
    ensures old(native.sent) < native.sent
    ensures stored <==> RecoverStores(d.book, v, key, cancel, address, hello, reply, end)
  {
    RecoverBegins(d.book, v, Process(d.Value(), Idle), key, cancel, address, hello);
    var state := StateOf(d.Value(), key).value;
    QuietHandshake(id, native.sent);
    var client := new Client(d.book, native, id, state.plan.before.selection, hello);
    if client.closed || !Binds(state, hello.reply.manifest) {
      EndedAtRecovery(d.book, v, reply, end);
      return false;
    }
    stored := Reclaim(d, client, key, cancel, reply, end, Tried(d.book, v, BeginRecover(key, cancel, address, hello)));
  }

  lemma QuietStep(b: Book, v: World, step: Step)
    requires !step.CommitStep?
    ensures Tried(b, v, step).commits == v.commits
  {
  }

  lemma RecoveryCommitsNothing(b: Book, v: World, key: Bytes, cancel: bool, address: Address, hello: Arrival,
                               reply: Arrival, end: Outcome)
    ensures Recovered(b, v, key, cancel, address, hello, reply, end).commits == v.commits
  {
    var w := Tried(b, v, BeginRecover(key, cancel, address, hello));
    QuietStep(b, v, BeginRecover(key, cancel, address, hello));
    QuietStep(b, w, RecoverStep(reply));
    QuietStep(b, Tried(b, w, RecoverStep(reply)), Keep(end));
  }

  // ---- What `start` and `recover` mean for whole runs.

  // Some run of the protocol leads from one world to the other.
  ghost predicate Reaches(b: Book, v: World, u: World) { exists steps :: Run(b, v, steps) == Some(u) }

  lemma ReachesSelf(b: Book, v: World)
    ensures Reaches(b, v, v)
  {
    assert Run(b, v, []) == Some(v);
  }

  lemma ReachesOn(b: Book, v: World, w: World, u: World)
    requires Reaches(b, v, w) && Reaches(b, w, u)
    ensures Reaches(b, v, u)
  {
    var s :| Run(b, v, s) == Some(w);
    var t :| Run(b, w, t) == Some(u);
    RunsJoin(b, v, s, t);
    assert Run(b, v, s + t) == Some(u);
  }

  // Trying a step is taking it or giving up.
  lemma ReachesTried(b: Book, v: World, w: World, step: Step)
    requires Reaches(b, v, w) && w.owner.Some? && !step.Crash?
    ensures Reaches(b, v, Tried(b, w, step)) && Tried(b, w, step).owner.Some?
  {
    var u := Tried(b, w, step);
    OneStep(b, w, if Take(b, w, step).Some? then step else Abort, u);
    ReachesOn(b, v, w, u);
  }

  lemma OneStep(b: Book, w: World, step: Step, u: World)
    requires Take(b, w, step) == Some(u)
    ensures Reaches(b, w, u)
  {
    assert [step][..0] == [];
    assert Run(b, w, [step]) == Some(u);
  }

  // A call of `start` is a run of the protocol with at most one commit.
  lemma StartIsRun(b: Book, v: World, key: Bytes, expected: Bytes, selection: Selection, a: Address, s: Script)
    requires v.owner.Some?
    ensures Reaches(b, v, Started(b, v, key, expected, selection, a, s))
    ensures OneMore(v.commits, Started(b, v, key, expected, selection, a, s).commits)
  {
    ReachesSelf(b, v);
    var w1 := Begun(b, v, key, expected, selection, s);
    Onwards(b, v, v, Begin(key, expected, selection, s.hello));
    Onwards(b, v, w1, ObserveStep(s.observed));
    Onwards(b, v, Tried(b, w1, ObserveStep(s.observed)), AskKnown(s.known));
    var w2 := Surveyed(b, w1, s);
    Onwards(b, v, w2, Create(a, s.creation));
    Onwards(b, v, Tried(b, w2, Create(a, s.creation)), PrepareStep(s.prepared));
    var w3 := Established(b, w2, a, s);
    Onwards(b, v, w3, Keep(s.preparation));
    Onwards(b, v, Tried(b, w3, Keep(s.preparation)), Keep(s.dispatch));
    var w4 := Authorised(b, w3, s);
    ReachesTried(b, v, w4, CommitStep(s.committed));
    var w5 := Tried(b, w4, CommitStep(s.committed));
    OneCommitStep(b, w4, s.committed);
    ReachesTried(b, v, w5, Keep(s.receipt));
    QuietStep(b, w5, Keep(s.receipt));
  }

  lemma Onwards(b: Book, v: World, w: World, step: Step)
    requires Reaches(b, v, w) && w.owner.Some? && !step.Crash? && !step.CommitStep?
    ensures Reaches(b, v, Tried(b, w, step)) && Tried(b, w, step).owner.Some? && Tried(b, w, step).commits == w.commits
  {
    ReachesTried(b, v, w, step);
    QuietStep(b, w, step);
  }

  lemma OneCommitStep(b: Book, w: World, reply: Arrival)
    ensures OneMore(w.commits, Tried(b, w, CommitStep(reply)).commits)
  {
  }

  lemma RecoverIsRun(b: Book, v: World, key: Bytes, cancel: bool, address: Address, hello: Arrival, reply: Arrival,
                     end: Outcome)
    requires v.owner.Some?
    ensures Reaches(b, v, Recovered(b, v, key, cancel, address, hello, reply, end))
    ensures Recovered(b, v, key, cancel, address, hello, reply, end).commits == v.commits
  {
    ReachesSelf(b, v);
    var w := Tried(b, v, BeginRecover(key, cancel, address, hello));
    Onwards(b, v, v, BeginRecover(key, cancel, address, hello));
    Onwards(b, v, w, RecoverStep(reply));
    Onwards(b, v, Tried(b, w, RecoverStep(reply)), Keep(end));
  }

  lemma {:induction false} LedgerEntry(commits: seq<Dispatch>, i: nat)
    requires i < |commits|
    ensures |Ledger(commits)| == |commits|
    ensures Ledger(commits)[i] == Request(commits[i].connection, CommitPlacement, Some(commits[i].plan))
  {
    var n := |commits| - 1;
    if n > 0 { LedgerEntry(commits[..n], if i < n then i else 0); }
  }

  // Whatever calls of `start` and `recover`, crashes and reopenings led from a directory to this world:
  // no two CommitPlacement requests that ever reached the native side name the same key.
  lemma NativeSeesOneCommit(b: JournalBook, files: Files, u: World, sent: seq<Request>, i: nat, j: nat)
    requires Reaches(b, Initial(files), u) && CommitsIn(sent) == Ledger(u.commits) && i < j < |CommitsIn(sent)|
    ensures CommitsIn(sent)[i].plan.Some? && CommitsIn(sent)[j].plan.Some?
    ensures CommitsIn(sent)[i].plan.value.key != CommitsIn(sent)[j].plan.value.key
  {
    var steps :| Run(b, Initial(files), steps) == Some(u);
    AtMostOnce(b, files, steps);
    if u.commits != [] { LedgerEntry(u.commits, 0); }
    LedgerEntry(u.commits, i);
    LedgerEntry(u.commits, j);
  }
}
