// scripts/build_placement_client.py: what the result of `start` and `recover` says about the files.
module PlacementStored {
  import opened Common
  import opened ByteCodec
  import opened PlacementWire
  import opened PlacementRecord
  import opened PlacementJournal
  import opened PlacementText
  import opened PlacementStore
  import opened PlacementRpc
  import opened PlacementProtocol
  import opened PlacementSafety
  import opened PlacementPending
  import opened PlacementStart
  import opened PlacementOutcome

  // ---- `start` reports that it stored something exactly when the file of its key has got a receipt.

  // The file of this key replays to a state with a receipt.
  ghost predicate HasReceipt(b: Book, files: Files, key: Bytes) {
    && key in files && b.replay(files[key]).Some? && b.replay(files[key]).value.state.Some?
    && b.replay(files[key]).value.state.value.terminal.Some?
  }

  // The stages of `start` for this key.
  predicate Starting(t: Task, key: Bytes) {
    match t
    case Idle => true
    case Connected(k, _, _) => k == key
    case Observed(plan, m, _) => plan.key == key && m.Valid()
    case Unretained(plan, m, _) => plan.key == key && m.Valid()
    case Recovering(_, _, _) => false
    case RecoveryReply(_, _, _) => false
    case _ => t.plan.key == key
  }

  // An owner that knows its files while it is not fenced, in the middle of `start` or after it.
  ghost predicate Tracked(b: Book, v: World, key: Bytes, stored: bool) {
    && v.owner.Some?
    && var p := v.owner.value;
    && Starting(p.task, key) && (stored ==> p.task.Idle?)
    && (if p.dir.fenced then !stored else Owns(b, p.dir, v.files) && (stored <==> HasReceipt(b, v.files, key)))
  }

  // Steps that write nothing.
  lemma TrackQuiet(b: Book, v: World, step: Step, key: Bytes)
    requires Tracked(b, v, key, false) && Inner(step) && !Writes(step) && !step.RecoverStep?
    ensures Tracked(b, Tried(b, v, step), key, false)
  {
  }

  // A new file holds an intent.
  lemma TrackMade(b: Book, v: World, d: Directory, plan: Plan, conn: Connection, j: Journal, end: Creation)
    requires Owns(b, d, v.files) && !d.fenced && Mirrors(b, j, plan.key, j.raw) && j.chain.state.value.terminal.None?
    ensures Tracked(b, CreateEnd(v, d, plan, conn, j, end), plan.key, false)
  {
    MirrorsFresh(b, d.journals, v.files, plan.key, j.(freshIntent := true), j.raw);
  }

  lemma TrackCreating(b: JournalBook, v: World, d: Directory, plan: Plan, m: Manifest, conn: Connection, a: Address,
                      end: Creation)
    requires Tracked(b, At(v, d, Unretained(plan, m, conn)), plan.key, false)
    ensures Tracked(b, Creating(b, v, d, plan, m, conn, a, end), plan.key, false)
  {
    if CreateBytes(b, d, v.files, plan, m, a).Some? {
      CreateState(b, d, v.files, plan, m, a);
      var raw := CreateBytes(b, d, v.files, plan, m, a).value;
      TrackMade(b, v, d, plan, conn, Load(b, plan.key, raw).value, end);
    }
  }

  lemma TrackCreate(b: JournalBook, v: World, a: Address, end: Creation, key: Bytes)
    requires Tracked(b, v, key, false)
    ensures Tracked(b, Tried(b, v, Create(a, end)), key, false)
  {
    var p := v.owner.value;
    CreateTaken(b, v, p, a, end);
    if p.task.Unretained? { TrackCreating(b, v, p.dir, p.task.plan, p.task.manifest, p.task.conn, a, end); }
  }

  lemma CreateTaken(b: Book, v: World, p: Process, a: Address, end: Creation)
    requires v.owner == Some(p)
    ensures Tried(b, v, Create(a, end)) ==
      if p.task.Unretained? then Creating(b, v, p.dir, p.task.plan, p.task.manifest, p.task.conn, a, end)
      else At(v, p.dir, Idle)
    ensures p.task.Unretained? ==> v == At(v, p.dir, Unretained(p.task.plan, p.task.manifest, p.task.conn))
  {
    assert Take(b, v, Create(a, end)) == TakeOwned(b, v, p, Create(a, end)) == TakeCreate(b, v, p, a, end);
  }

  // What a stage of `start` appends: a receipt exactly where the call then ends.
  lemma DueKind(b: Book, p: Process, key: Bytes)
    requires DueOf(b, p).Some? && Starting(p.task, key)
    ensures var due := DueOf(b, p).value;
            && due.key == key && Starting(due.next, key)
            && (if due.next.Idle? then due.payload.TerminalFrame?
                else due.payload.PreparedFrame? || due.payload.DispatchFrame?)
  {
  }

  // A frame gives a journal a receipt exactly when it is one.
  lemma TrackAppended(b: JournalBook, d: Directory, files: Files, key: Bytes, p: Payload)
    requires Owns(b, d, files) && key in d.journals && Appended(b, d, files, key, p).Some?
    requires p.TerminalFrame? || p.PreparedFrame? || p.DispatchFrame?
    ensures var j := Appended(b, d, files, key, p).value;
            Mirrors(b, j, key, j.raw) && (j.chain.state.value.terminal.Some? <==> p.TerminalFrame?)
  {
    assert Mirrors(b, d.journals[key], key, files[key]);
    AppendMirrors(b, d, files, key, p);
  }

  lemma TrackEnd(b: Book, v: World, d: Directory, due: Due, j: Journal, end: Outcome)
    requires Owns(b, d, v.files) && !d.fenced && due.key in d.journals && Starting(due.next, due.key)
    requires Mirrors(b, j, due.key, j.raw) && (j.chain.state.value.terminal.Some? <==> due.next.Idle?)
    ensures Tracked(b, AppendEnd(v, d, due, j, end), due.key, end.Complete? && due.next.Idle?)
  {
    MirrorsFresh(b, d.journals, v.files, due.key, j, j.raw);
  }

  lemma TrackAppending(b: Book, v: World, d: Directory, due: Due, end: Outcome)
    requires Tracked(b, v, due.key, false) && v.owner.value.dir == d && due.key in d.journals
      && Starting(due.next, due.key)
    requires var j := Appended(b, d, v.files, due.key, due.payload);
             j.Some? ==> Mirrors(b, j.value, due.key, j.value.raw) &&
                         (j.value.chain.state.value.terminal.Some? <==> due.next.Idle?)
    ensures Tracked(b, Appending(b, v, d, due, end), due.key,
                    end.Complete? && due.next.Idle? && Appended(b, d, v.files, due.key, due.payload).Some?)
  {
    AppendingIs(b, v, d, due, end);
    if Appended(b, d, v.files, due.key, due.payload).Some? {
      TrackEnd(b, v, d, due, Appended(b, d, v.files, due.key, due.payload).value, end);
    } else {
      TrackRefused(b, v, d, due.key);
    }
  }

  lemma AppendingIs(b: Book, v: World, d: Directory, due: Due, end: Outcome)
    requires due.key in d.journals
    ensures var j := Appended(b, d, v.files, due.key, due.payload);
            Appending(b, v, d, due, end) == (if j.None? then At(v, d, Idle) else AppendEnd(v, d, due, j.value, end))
    ensures Appended(b, d, v.files, due.key, due.payload).Some? ==> !d.fenced
  {
  }

  lemma TrackRefused(b: Book, v: World, d: Directory, key: Bytes)
    requires Tracked(b, v, key, false) && v.owner.value.dir == d
    ensures Tracked(b, At(v, d, Idle), key, false)
  {
  }

  lemma TrackKeep(b: JournalBook, v: World, end: Outcome, key: Bytes)
    requires Tracked(b, v, key, false)
    ensures Tracked(b, Tried(b, v, Keep(end)), key, Stores(b, v, end))
  {
    var p := v.owner.value;
    if DueOf(b, p).None? || DueOf(b, p).value.key !in p.dir.journals {
      NotKept(b, v, p, end);
    } else {
      DueKind(b, p, key);
      var due := DueOf(b, p).value;
      KeepTried(b, v, p, due, end);
      AppendingIs(b, v, p.dir, due, end);
      if Appended(b, p.dir, v.files, due.key, due.payload).Some? {
        TrackAppended(b, p.dir, v.files, due.key, due.payload);
      }
      TrackAppending(b, v, p.dir, due, end);
    }
  }

  lemma NotKept(b: Book, v: World, p: Process, end: Outcome)
    requires v.owner == Some(p) && (DueOf(b, p).None? || DueOf(b, p).value.key !in p.dir.journals)
    ensures Tried(b, v, Keep(end)) == At(v, p.dir, Idle) && !Stores(b, v, end)
  {
    assert Take(b, v, Keep(end)) == TakeKeep(b, v, p, end);
  }

  // The stages up to the answered preparation store nothing.
  lemma TrackEstablished(b: JournalBook, v: World, key: Bytes, a: Address, s: Script)
    requires Tracked(b, v, key, false)
    ensures Tracked(b, Established(b, Surveyed(b, v, s), a, s), key, false)
    ensures var t := Established(b, Surveyed(b, v, s), a, s).owner.value.task; t.PreparedReply? || t.Idle?
  {
    TrackQuiet(b, v, ObserveStep(s.observed), key);
    TrackQuiet(b, Tried(b, v, ObserveStep(s.observed)), AskKnown(s.known), key);
    var w := Surveyed(b, v, s);
    TrackCreate(b, w, a, s.creation, key);
    TrackQuiet(b, Tried(b, w, Create(a, s.creation)), PrepareStep(s.prepared), key);
    AfterPrepare(b, Tried(b, w, Create(a, s.creation)), s.prepared);
  }

  lemma AfterPrepare(b: Book, v: World, reply: Arrival)
    requires v.owner.Some?
    ensures var u := Tried(b, v, PrepareStep(reply));
            u.owner.Some? && (u.owner.value.task.PreparedReply? || u.owner.value.task.Idle?)
  {
  }

  // The first append of a call ends it or leads to the dispatch, which is no receipt.
  lemma AfterFirstKeep(b: Book, v: World, end: Outcome, later: Outcome)
    requires v.owner.Some? && (v.owner.value.task.PreparedReply? || v.owner.value.task.Idle?)
    ensures var u := Tried(b, v, Keep(end));
            u.owner.Some? && (u.owner.value.task.PreparedKept? || u.owner.value.task.Idle?)
    ensures !Stores(b, Tried(b, v, Keep(end)), later)
  {
    var p := v.owner.value;
    if DueOf(b, p).None? || DueOf(b, p).value.key !in p.dir.journals {
      NotKept(b, v, p, end);
    } else {
      DueOfFits(b, p);
      KeepTried(b, v, p, DueOf(b, p).value, end);
      AppendingIs(b, v, p.dir, DueOf(b, p).value, end);
    }
    NoReceiptDue(b, Tried(b, v, Keep(end)), later);
  }

  lemma NoReceiptDue(b: Book, v: World, end: Outcome)
    requires v.owner.Some? && (v.owner.value.task.PreparedKept? || v.owner.value.task.Idle?)
    ensures !Stores(b, v, end)
  {
  }

  lemma TrackPerformed(b: JournalBook, w: World, key: Bytes, s: Script)
    requires Tracked(b, w, key, false)
    requires w.owner.value.task.PreparedReply? || w.owner.value.task.Idle?
    ensures Tracked(b, Performed(b, w, s), key, PerformStores(b, w, s))
  {
    TrackKeep(b, w, s.preparation, key);
    AfterFirstKeep(b, w, s.preparation, s.dispatch);
    var w1 := Tried(b, w, Keep(s.preparation));
    if Stores(b, w, s.preparation) {
      EndedAtKeep(b, w, s);
    } else {
      TrackKeep(b, w1, s.dispatch, key);
      TrackQuiet(b, Authorised(b, w, s), CommitStep(s.committed), key);
      TrackKeep(b, Tried(b, Authorised(b, w, s), CommitStep(s.committed)), s.receipt, key);
    }
  }

  lemma TrackBegin(b: Book, v: World, d: Directory, key: Bytes, expected: Bytes, selection: Selection, hello: Arrival)
    requires v.owner == Some(Process(d, Idle)) && Owns(b, d, v.files) && Ready(d, v.files, key)
    ensures Tracked(b, Tried(b, v, Begin(key, expected, selection, hello)), key, false) && key !in v.files
  {
    BeginTaken(b, v, Process(d, Idle), Begin(key, expected, selection, hello));
  }

  // A directory that is not ready: nothing happens at all.
  lemma NotReady(b: Book, v: World, d: Directory, key: Bytes, expected: Bytes, selection: Selection, a: Address,
                 s: Script)
    requires v.owner == Some(Process(d, Idle)) && !Ready(d, v.files, key)
    ensures Started(b, v, key, expected, selection, a, s) == v && !StartStores(b, v, key, expected, selection, a, s)
  {
    BeginTaken(b, v, Process(d, Idle), Begin(key, expected, selection, s.hello));
    EndedAtStart(b, v, a, s);
  }

  // Whatever the native side answers and however the writes end: `start` reports that it stored something
  // exactly when the file of its key has got a receipt and the owner goes on without a fence.
  lemma StoredExactly(b: JournalBook, v: World, d: Directory, key: Bytes, expected: Bytes, selection: Selection,
                      a: Address, s: Script)
    requires v.owner == Some(Process(d, Idle)) && (!d.fenced ==> Owns(b, d, v.files))
    ensures var u := Started(b, v, key, expected, selection, a, s);
            && u.owner.Some?
            && (StartStores(b, v, key, expected, selection, a, s) <==>
                HasReceipt(b, u.files, key) && !HasReceipt(b, v.files, key) && !u.owner.value.dir.fenced)
  {
    if Ready(d, v.files, key) {
      var w := Begun(b, v, key, expected, selection, s);
      TrackBegin(b, v, d, key, expected, selection, s.hello);
      TrackEstablished(b, w, key, a, s);
      TrackPerformed(b, Established(b, Surveyed(b, w, s), a, s), key, s);
      StartIsPerform(b, v, Established(b, Surveyed(b, w, s), a, s), key, expected, selection, a, s);
    } else {
      NotReady(b, v, d, key, expected, selection, a, s);
    }
  }
}
