// scripts/build_placement_rpc.py: exactly which replies a connection accepts, said of the replies themselves.
module PlacementReplies {
  import opened Common
  import opened PlacementWire
  import opened PlacementRecord
  import opened PlacementJournal
  import opened PlacementText
  import opened PlacementStore
  import opened PlacementRpc

  // When each request may go out.
  predicate Allowed(b: Book, c: Connection, call: Call) {
    match call
    case Observe(_) => !c.closed
    case Prepare(plan, _) =>
      && !c.closed && b.validPlan(plan) && plan.before.selection == c.selection
      && c.permit.None? && !c.commitAttempted && c.records == map[]
      && c.manifest.Some? && c.manifest.value.generation == plan.before.generation
    case Commit(plan, _) =>
      && !c.closed && b.validPlan(plan) && plan.before.selection == c.selection
      && c.permit == Some(plan) && !c.commitAttempted
    case Query(plan, _) => !c.closed && b.validPlan(plan) && plan.before.selection == c.selection
    case Cancel(plan, _) => !c.closed && b.validPlan(plan) && plan.before.selection == c.selection
    case Close => false
  }

  // What every reply must say: the native incarnation of this connection, and a consistent fence.
  predicate Envelope(c: Connection, r: Reply) {
    && r.manifest.Valid() && (c.manifest.Some? ==> r.manifest == c.manifest.value)
    && r.retained <= 256 && (r.unresolved ==> r.retained > 0)
  }

  // A record as evidence about a plan: its own, of no later incarnation, with the fence that uncertainty needs.
  predicate Evidence(plan: Plan, record: Record, r: Reply) {
    && record.Valid() && record.plan == plan && r.retained > 0
    && plan.before.generation <= r.manifest.generation && (record.phase.Indeterminate? ==> r.unresolved)
  }

  // How evidence fits what the connection already knows: the same record, anything after a preparation, or
  // in a query from the original incarnation placed evidence after an uncertain one.
  predicate Continues(c: Connection, plan: Plan, record: Record, r: Reply, query: bool) {
    if plan.key !in c.records then |c.records| < MAX_RECORDS
    else
      var previous := c.records[plan.key];
      && previous.plan == plan
      && (previous == record || previous.phase.Prepared? ||
          (query && previous.phase.Indeterminate? && record.phase.Placed? &&
           r.manifest.generation == plan.before.generation))
  }

  predicate Answered(c: Connection, plan: Plan, r: Reply, query: bool) {
    && r.capture.None? && r.record.Some?
    && Evidence(plan, r.record.value, r) && Continues(c, plan, r.record.value, r, query)
  }

  // The replies that each operation accepts.
  predicate WellAnswered(c: Connection, call: Call, r: Reply) {
    && Envelope(c, r)
    && match call
       case Observe(_) =>
         && r.record.None? && r.replayed.None? && r.capture.Some?
         && r.capture.value.selection == c.selection && r.capture.value.generation == r.manifest.generation
       case Prepare(plan, _) =>
         && Answered(c, plan, r, false) && r.replayed.Some?
         && (r.replayed == Some(false) ==>
               && r.record.value.phase.Prepared? && !r.unresolved
               && plan.before.generation == r.manifest.generation)
       case Commit(plan, _) => Answered(c, plan, r, false) && r.replayed.None? && !r.record.value.phase.Prepared?
       case Query(plan, _) =>
         && r.replayed.None?
         && (if r.record.None? then r.capture.None? && plan.key !in c.records else Answered(c, plan, r, true))
       case Cancel(plan, _) => Answered(c, plan, r, false) && r.replayed.None? && !r.record.value.phase.Prepared?
       case Close => false
  }

  lemma SendsExactly(b: Book, c: Connection, call: Call)
    ensures Sends(b, c, call) <==> Allowed(b, c, call)
  {
  }

  lemma FollowExactly(b: JournalBook, op: Operation, previous: Record, record: Record, m: Manifest)
    requires previous.Valid() && record.Valid()
    ensures MayFollow(b, op, previous, record, m) <==>
      && previous.plan == record.plan
      && (previous == record || previous.phase.Prepared? ||
          (op.QueryPlacement? && previous.phase.Indeterminate? && record.phase.Placed? &&
           m.generation == record.plan.before.generation))
  {
    ReconciliationIs(b.wire, previous, record);
    if previous.plan == record.plan && b.wire.raw(previous) == b.wire.raw(record) {
      WireInjective(b.wire, previous, record);
    }
  }

  lemma DecodesAsItself(b: JournalBook, record: Record, plan: Plan)
    ensures b.wire.decode(b.wire.raw(record), plan) == Some(record) <==> record.Valid() && record.plan == plan
  {
    if b.wire.decode(b.wire.raw(record), plan) == Some(record) { WireSound(b.wire, b.wire.raw(record), plan); }
    if record.Valid() && record.plan == plan { WireDecodes(b.wire, record); }
  }

  lemma ContinuesExactly(b: JournalBook, c: Connection, op: Operation, plan: Plan, r: Reply)
    requires RecordsSound(c.records) && r.record.Some? && r.record.value.Valid() && r.record.value.plan == plan
    ensures Continues(c, plan, r.record.value, r, op.QueryPlacement?) <==>
      && (plan.key in c.records ==> MayFollow(b, op, c.records[plan.key], r.record.value, r.manifest))
      && (plan.key !in c.records ==> |c.records| < MAX_RECORDS)
  {
    if plan.key in c.records {
      assert SoundRecord(plan.key, c.records[plan.key]);
      FollowExactly(b, op, c.records[plan.key], r.record.value, r.manifest);
    }
  }

  // The checks on a record, said of the record.
  ghost predicate RecordFits(c: Connection, op: Operation, plan: Plan, r: Reply)
    requires r.record.Some?
  {
    && Evidence(plan, r.record.value, r) && Continues(c, plan, r.record.value, r, op.QueryPlacement?)
    && (op.PreparePlacement? && r.replayed == Some(false) ==>
          r.record.value.phase.Prepared? && !r.unresolved && plan.before.generation == r.manifest.generation)
  }

  lemma RecordExactly(b: JournalBook, c: Connection, op: Operation, plan: Plan, r: Reply)
    requires RecordsSound(c.records) && r.record.Some?
    ensures RecordOk(b, c, op, plan, r) <==> RecordFits(c, op, plan, r)
  {
    DecodesAsItself(b, r.record.value, plan);
    if r.record.value.Valid() && r.record.value.plan == plan { ContinuesExactly(b, c, op, plan, r); }
    RecordFrom(b, c, op, plan, r);
  }

  lemma RecordFrom(b: Book, c: Connection, op: Operation, plan: Plan, r: Reply)
    requires r.record.Some?
    requires var record := r.record.value;
             && (b.wire.decode(b.wire.raw(record), plan) == Some(record) <==> record.Valid() && record.plan == plan)
             && (record.Valid() && record.plan == plan ==>
                   (Continues(c, plan, record, r, op.QueryPlacement?) <==>
                    && (plan.key in c.records ==> MayFollow(b, op, c.records[plan.key], record, r.manifest))
                    && (plan.key !in c.records ==> |c.records| < MAX_RECORDS)))
    ensures RecordOk(b, c, op, plan, r) <==> RecordFits(c, op, plan, r)
  {
  }

  // A call returns a reply to its caller exactly when the request may go out and the reply comes in time
  // and is well formed for the operation.
  lemma AnswerExactly(b: JournalBook, c: Connection, call: Call, r: Reply)
    requires RecordsSound(c.records)
    ensures Answer(b, c, call) == Some(r) <==>
      Allowed(b, c, call) && call.reply == Came(r, false) && WellAnswered(c, call, r)
  {
    SendsExactly(b, c, call);
    if Allowed(b, c, call) && call.reply == Came(r, false) { AcceptExactly(b, c, call, r); }
  }

  lemma AcceptExactly(b: JournalBook, c: Connection, call: Call, r: Reply)
    requires RecordsSound(c.records) && Allowed(b, c, call)
    ensures WellAnswered(c, call, r) <==> Passes(b, c, call, r)
  {
    if r.record.Some? && PlanOf(call).Some? {
      RecordExactly(b, Relinquished(c, call), OperationOf(call), PlanOf(call).value, r);
    }
    PassesWith(b, c, call, r);
  }

  // The checks of a call, with the one that commit and cancel add.
  ghost predicate Passes(b: Book, c: Connection, call: Call, r: Reply) {
    && Accept(b, Relinquished(c, call), OperationOf(call), PlanOf(call), r).Some?
    && !((call.Commit? || call.Cancel?) && r.record.Some? && r.record.value.phase.Prepared?)
  }

  lemma PassesWith(b: Book, c: Connection, call: Call, r: Reply)
    requires Allowed(b, c, call)
    requires r.record.Some? && PlanOf(call).Some? ==>
      (RecordOk(b, Relinquished(c, call), OperationOf(call), PlanOf(call).value, r) <==>
       RecordFits(Relinquished(c, call), OperationOf(call), PlanOf(call).value, r))
    ensures WellAnswered(c, call, r) <==> Passes(b, c, call, r)
  {
    match call
    case Observe(_) => ObservePassesWith(b, c, call, r);
    case Prepare(_, _) => PreparePassesWith(b, c, call, r);
    case Query(_, _) => QueryPassesWith(b, c, call, r);
    case _ => EndingPassesWith(b, c, call, r);
  }

  lemma QueryPassesWith(b: Book, c: Connection, call: Call, r: Reply)
    requires Allowed(b, c, call) && call.Query?
    requires r.record.Some? ==>
      (RecordOk(b, Relinquished(c, call), QueryPlacement, call.plan, r) <==>
       RecordFits(Relinquished(c, call), QueryPlacement, call.plan, r))
    ensures WellAnswered(c, call, r) <==> Passes(b, c, call, r)
  {
  }

  lemma PreparePassesWith(b: Book, c: Connection, call: Call, r: Reply)
    requires Allowed(b, c, call) && call.Prepare?
    requires r.record.Some? && PlanOf(call).Some? ==>
      (RecordOk(b, Relinquished(c, call), OperationOf(call), PlanOf(call).value, r) <==>
       RecordFits(Relinquished(c, call), OperationOf(call), PlanOf(call).value, r))
    ensures WellAnswered(c, call, r) <==> Passes(b, c, call, r)
  {
  }

  lemma EndingPassesWith(b: Book, c: Connection, call: Call, r: Reply)
    requires Allowed(b, c, call) && (call.Commit? || call.Cancel?)
    requires r.record.Some? && PlanOf(call).Some? ==>
      (RecordOk(b, Relinquished(c, call), OperationOf(call), PlanOf(call).value, r) <==>
       RecordFits(Relinquished(c, call), OperationOf(call), PlanOf(call).value, r))
    ensures WellAnswered(c, call, r) <==> Passes(b, c, call, r)
  {
  }

  lemma ObservePassesWith(b: Book, c: Connection, call: Call, r: Reply)
    requires Allowed(b, c, call) && call.Observe?
    requires r.record.Some? && PlanOf(call).Some? ==>
      (RecordOk(b, Relinquished(c, call), OperationOf(call), PlanOf(call).value, r) <==>
       RecordFits(Relinquished(c, call), OperationOf(call), PlanOf(call).value, r))
    ensures WellAnswered(c, call, r) <==> Passes(b, c, call, r)
  {
  }

  // A handshake is accepted exactly with the common part and nothing else.
  lemma HelloExactly(b: Book, id: nat, selection: Selection, r: Reply)
    ensures var c := Fresh(id, selection);
            Accept(b, c, Handshake, None, r) ==
            if Envelope(c, r) && r.capture.None? && r.record.None? && r.replayed.None?
            then Some(c.(manifest := Some(r.manifest))) else None
  {
  }

  // The connection after an answer, in full.
  lemma AfterAnswer(b: Book, c: Connection, call: Call)
    requires Answer(b, c, call).Some?
    ensures var r := Answer(b, c, call).value;
            After(b, c, call) == Relinquished(c, call).(
              manifest := Some(r.manifest),
              records := (if r.record.Some? && PlanOf(call).Some?
                          then c.records[PlanOf(call).value.key := r.record.value] else c.records),
              permit := (if call.Prepare? && FreshPreparation(r) then Some(call.plan)
                else Relinquished(c, call).permit))
  {
  }

  // What the connection knows after an answer.
  lemma AnswerRemembered(b: Book, c: Connection, call: Call)
    requires Answer(b, c, call).Some?
    ensures var r := Answer(b, c, call).value;
            && After(b, c, call).manifest == Some(r.manifest) && !After(b, c, call).closed
            && After(b, c, call).records ==
               (if r.record.Some? && PlanOf(call).Some? then c.records[PlanOf(call).value.key := r.record.value]
                 else c.records)
  {
  }

  // Every answer in the life of a connection comes from the incarnation it shook hands with, a capture is
  // of its own selection, and uncertainty is always fenced.
  lemma {:induction false} AnswersOfLife(b: JournalBook, c: Connection, calls: seq<Call>, m: Manifest, i: nat)
    requires RecordsSound(c.records) && c.manifest == Some(m) && i < |calls|
    requires Answer(b, Trace(b, c, calls[..i]), calls[i]).Some?
    ensures var r := Answer(b, Trace(b, c, calls[..i]), calls[i]).value;
            && r.manifest == m
            && (r.capture.Some? ==>
                  r.capture.value.selection == c.selection && r.capture.value.generation == m.generation)
            && (r.record.Some? && r.record.value.phase.Indeterminate? ==> r.unresolved)
            && (r.record.Some? ==> PlanOf(calls[i]) == Some(r.record.value.plan))
  {
    var before := Trace(b, c, calls[..i]);
    TraceSound(b, c, calls[..i]);
    LifeKeeps(b, c, calls[..i], m);
    AnswerExactly(b, before, calls[i], Answer(b, before, calls[i]).value);
  }

  lemma {:induction false} LifeKeeps(b: Book, c: Connection, calls: seq<Call>, m: Manifest)
    requires c.manifest == Some(m)
    ensures Trace(b, c, calls).manifest == Some(m) && Trace(b, c, calls).selection == c.selection
  {
    if calls != [] {
      var n := |calls| - 1;
      LifeKeeps(b, c, calls[..n], m);
      CallKeepsManifest(b, Trace(b, c, calls[..n]), calls[n], m);
      CallKeeps(b, Trace(b, c, calls[..n]), calls[n]);
    }
  }

  lemma AcceptKeepsManifest(b: Book, c: Connection, op: Operation, plan: Option<Plan>, r: Reply, m: Manifest)
    requires c.manifest == Some(m) && Accept(b, c, op, plan, r).Some?
    ensures Accept(b, c, op, plan, r).value.manifest == Some(m)
  {
    AcceptKeeps(b, c, op, plan, r);
  }

  lemma CallKeepsManifest(b: Book, c: Connection, call: Call, m: Manifest)
    requires c.manifest == Some(m)
    ensures After(b, c, call).manifest == Some(m)
  {
    if Sends(b, c, call) && call.reply.Came? {
      var c1 := Relinquished(c, call);
      if Accept(b, c1, OperationOf(call), PlanOf(call), call.reply.reply).Some? {
        AcceptKeepsManifest(b, c1, OperationOf(call), PlanOf(call), call.reply.reply, m);
      }
    }
  }
}
