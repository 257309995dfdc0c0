// scripts/build_placement_rpc.py: one connection, its commit permit and the records it has seen.
module PlacementRpc {
  import opened Common
  import opened ByteCodec
  import opened PlacementWire
  import opened PlacementRecord
  import opened PlacementJournal
  import opened PlacementText
  import opened PlacementStore

  const MAX_RECORDS: nat := 32

  datatype Operation = Handshake | ReadPlacement | PreparePlacement | CommitPlacement | QueryPlacement | CancelPlacement

  datatype Connection = Connection(id: nat, selection: Selection, manifest: Option<Manifest>, permit: Option<Plan>,
                                   commitAttempted: bool, records: map<Bytes, Record>, closed: bool)

  function Fresh(id: nat, selection: Selection): Connection {
    Connection(id, selection, None, None, false, map[], false)
  }

  // A native record never changes after the attempt; before it, anything may follow.
  predicate Successor(b: Book, previous: Record, current: Record) {
    previous.plan == current.plan && (!previous.phase.Prepared? ==> b.wire.raw(previous) == b.wire.raw(current))
  }

  // Which parts a successful reply to each operation must have.
  predicate Shaped(op: Operation, r: Reply) {
    && (r.capture.Some? <==> op.ReadPlacement?)
    && (op.PreparePlacement? || op.CommitPlacement? || op.CancelPlacement? ==> r.record.Some?)
    && (op.Handshake? || op.ReadPlacement? ==> r.record.None?)
    && (r.replayed.Some? <==> op.PreparePlacement?)
  }

  predicate RecordOk(b: Book, c: Connection, op: Operation, plan: Plan, r: Reply)
    requires r.record.Some?
  {
    var record := r.record.value;
    && b.wire.decode(b.wire.raw(record), plan) == Some(record) && r.retained > 0
    && plan.before.generation <= r.manifest.generation
    && (record.phase.Indeterminate? ==> r.unresolved)
    && (op.PreparePlacement? && r.replayed == Some(false) ==>
          record.phase.Prepared? && !r.unresolved && plan.before.generation == r.manifest.generation)
    && (plan.key in c.records ==> MayFollow(b, op, c.records[plan.key], record, r.manifest))
    && (plan.key !in c.records ==> |c.records| < MAX_RECORDS)
  }

  predicate MayFollow(b: Book, op: Operation, previous: Record, record: Record, m: Manifest) {
    if op.QueryPlacement? && previous.phase.Indeterminate? && record.phase.Placed?
    then m.generation == record.plan.before.generation && VerifyReconciliation(b.wire, previous, record)
    else Successor(b, previous, record)
  }

  predicate CaptureOk(c: Connection, r: Reply)
    requires r.capture.Some?
  {
    r.capture.value.selection == c.selection && r.capture.value.generation == r.manifest.generation
  }

  // The connection after a reply that passes every check.
  function Accept(b: Book, c: Connection, op: Operation, plan: Option<Plan>, r: Reply): Option<Connection> {
    if c.closed || !Shaped(op, r) || !r.manifest.Valid() || (c.manifest.Some? && c.manifest.value != r.manifest)
      then None
    else if r.retained > 256 || (r.unresolved && r.retained == 0) then None
    else if r.capture.Some? && !CaptureOk(c, r) then None
    else if r.record.Some? then
      if plan.None? || !RecordOk(b, c, op, plan.value, r) then None
      else Some(c.(manifest := Some(r.manifest), records := c.records[plan.value.key := r.record.value]))
    else if plan.Some? && plan.value.key in c.records then None
    else Some(c.(manifest := Some(r.manifest)))
  }

  // One call of the client, with the native answer; a refusal counts as lost.
  datatype Call =
    | Observe(reply: Arrival)
    | Prepare(plan: Plan, reply: Arrival)
    | Commit(plan: Plan, reply: Arrival)
    | Query(plan: Plan, reply: Arrival)
    | Cancel(plan: Plan, reply: Arrival)
    | Close

  predicate PlanOk(b: Book, c: Connection, plan: Plan) { b.validPlan(plan) && plan.before.selection == c.selection }

  // Whether the call reaches the native side.
  predicate Sends(b: Book, c: Connection, call: Call) {
    !c.closed &&
    match call
    case Observe(_) => true
    case Prepare(plan, _) =>
      && PlanOk(b, c, plan) && !c.commitAttempted && c.permit.None? && c.records == map[]
      && c.manifest.Some? && plan.before.generation == c.manifest.value.generation
    case Commit(plan, _) => PlanOk(b, c, plan) && !c.commitAttempted && c.permit == Some(plan)
    case Query(plan, _) => PlanOk(b, c, plan)
    case Cancel(plan, _) => PlanOk(b, c, plan)
    case Close => false
  }

  function Shut(c: Connection): Connection { c.(closed := true, permit := None) }

  function OperationOf(call: Call): Operation {
    match call
    case Observe(_) => ReadPlacement
    case Prepare(_, _) => PreparePlacement
    case Commit(_, _) => CommitPlacement
    case Query(_, _) => QueryPlacement
    case Cancel(_, _) => CancelPlacement
    case Close => Handshake
  }

  function PlanOf(call: Call): Option<Plan> {
    match call
    case Prepare(plan, _) => Some(plan)
    case Commit(plan, _) => Some(plan)
    case Query(plan, _) => Some(plan)
    case Cancel(plan, _) => Some(plan)
    case _ => None
  }

  // Before the request goes out: commit, query and cancel give up the permit.
  function Relinquished(c: Connection, call: Call): Connection {
    match call
    case Commit(_, _) => c.(permit := None, commitAttempted := true)
    case Query(_, _) => c.(permit := None)
    case Cancel(_, _) => c.(permit := None)
    case _ => c
  }

  predicate FreshPreparation(r: Reply) { r.record.Some? && r.record.value.phase.Prepared? && r.replayed == Some(false) }

  // What the caller gets, and the connection it is left with.
  function Answer(b: Book, c: Connection, call: Call): Option<Reply> {
    if !Sends(b, c, call) || call.Close? || call.reply.Lost? then None
    else if Accept(b, Relinquished(c, call), OperationOf(call), PlanOf(call), call.reply.reply).None? then None
    else if (call.Commit? || call.Cancel?) && call.reply.reply.record.Some?
      && call.reply.reply.record.value.phase.Prepared? then None
    else if call.reply.late then None
    else Some(call.reply.reply)
  }

  function After(b: Book, c: Connection, call: Call): Connection {
    if !Sends(b, c, call) then
      if call.Close? || ((call.Query? || call.Cancel?) && PlanOk(b, c, call.plan)) || (call.Observe? && c.closed)
        then Shut(c) else c
    else
      match Answer(b, c, call)
      case None => AfterFailure(b, c, call)
      case Some(r) =>
        var next := Accept(b, Relinquished(c, call), OperationOf(call), PlanOf(call), r).value;
        if call.Prepare? && FreshPreparation(r) then next.(permit := Some(call.plan)) else next
  }

  // A failed call closes the connection; a late or contradictory record is still stored first.
  function AfterFailure(b: Book, c: Connection, call: Call): Connection
    requires Sends(b, c, call)
  {
    var c1 := Relinquished(c, call);
    match call.reply
    case Lost => Shut(c1)
    case Came(r, late) =>
      match Accept(b, c1, OperationOf(call), PlanOf(call), r)
      case None => Shut(c1)
      case Some(next) => if late then Shut(c1.(records := next.records)) else Shut(next)
  }

  // ---- Whole lives of a connection.

  function Trace(b: Book, c: Connection, calls: seq<Call>): Connection {
    if calls == [] then c else After(b, Trace(b, c, calls[..|calls| - 1]), calls[|calls| - 1])
  }

  predicate SentAt(b: Book, c: Connection, calls: seq<Call>, i: nat)
    requires i < |calls|
  {
    Sends(b, Trace(b, c, calls[..i]), calls[i])
  }

  lemma AcceptKeeps(b: Book, c: Connection, op: Operation, plan: Option<Plan>, r: Reply)
    requires Accept(b, c, op, plan, r).Some?
    ensures var next := Accept(b, c, op, plan, r).value;
            next == c.(manifest := Some(r.manifest), records := next.records)
  {
  }

  // One call: the attempt is remembered, and a permit appears only by a fresh preparation.
  lemma CallKeeps(b: Book, c: Connection, call: Call)
    ensures c.commitAttempted ==> After(b, c, call).commitAttempted
    ensures call.Commit? && Sends(b, c, call) ==> After(b, c, call).commitAttempted
    ensures After(b, c, call).permit.Some? && After(b, c, call).permit != c.permit ==>
      call.Prepare? && Sends(b, c, call) && Answer(b, c, call).Some? && FreshPreparation(Answer(b, c, call).value) &&
      After(b, c, call).permit == Some(call.plan)
    ensures (call.Query? || call.Cancel? || call.Commit?) && Sends(b, c, call) ==> After(b, c, call).permit.None?
    ensures After(b, c, call).id == c.id && After(b, c, call).selection == c.selection
  {
    if Sends(b, c, call) && call.reply.Came? {
      var c1 := Relinquished(c, call);
      if Accept(b, c1, OperationOf(call), PlanOf(call), call.reply.reply).Some? {
        AcceptKeeps(b, c1, OperationOf(call), PlanOf(call), call.reply.reply);
      }
    }
  }

  lemma {:induction false} AttemptStays(b: Book, c: Connection, calls: seq<Call>, i: nat)
    requires i <= |calls| && Trace(b, c, calls[..i]).commitAttempted
    ensures Trace(b, c, calls).commitAttempted
    decreases |calls|
  {
    if i == |calls| {
      assert calls[..i] == calls;
    } else {
      var n := |calls| - 1;
      assert calls[..n][..i] == calls[..i];
      AttemptStays(b, c, calls[..n], i);
      CallKeeps(b, Trace(b, c, calls[..n]), calls[n]);
    }
  }

  // A connection sends CommitPlacement at most once, whatever is called and whatever is answered.
  lemma OneCommit(b: Book, c: Connection, calls: seq<Call>, i: nat, j: nat)
    requires i < j < |calls| && calls[i].Commit? && calls[j].Commit? && SentAt(b, c, calls, i)
    ensures !SentAt(b, c, calls, j)
  {
    CallKeeps(b, Trace(b, c, calls[..i]), calls[i]);
    assert calls[..i + 1][..i] == calls[..i];
    assert calls[..j][..i + 1] == calls[..i + 1];
    AttemptStays(b, c, calls[..j], i + 1);
  }

  // The preparation that gave the permit held at the end: fresh, for that plan, not given up since.
  ghost predicate GrantedAt(b: Book, c: Connection, calls: seq<Call>, j: nat, plan: Plan)
    requires j < |calls|
  {
    var before := Trace(b, c, calls[..j]);
    && calls[j].Prepare? && calls[j].plan == plan && Sends(b, before, calls[j])
    && Answer(b, before, calls[j]).Some? && FreshPreparation(Answer(b, before, calls[j]).value)
    && forall m :: j < m < |calls| ==> !GivesUp(b, c, calls, m)
  }

  predicate GivesUp(b: Book, c: Connection, calls: seq<Call>, m: nat)
    requires m < |calls|
  {
    (calls[m].Query? || calls[m].Cancel? || calls[m].Commit?) && SentAt(b, c, calls, m)
  }

  lemma GrantedStays(b: Book, c: Connection, calls: seq<Call>, j: nat, plan: Plan)
    requires j < |calls| - 1 && GrantedAt(b, c, calls[..|calls| - 1], j, plan) && !GivesUp(b, c, calls, |calls| - 1)
    ensures GrantedAt(b, c, calls, j, plan)
  {
    var n := |calls| - 1;
    assert calls[..n][..j] == calls[..j];
    forall m | j < m < |calls| ensures !GivesUp(b, c, calls, m) {
      if m < n { GivesUpEarlier(b, c, calls, n, m); }
    }
  }

  lemma GivesUpEarlier(b: Book, c: Connection, calls: seq<Call>, n: nat, m: nat)
    requires m < n <= |calls|
    ensures GivesUp(b, c, calls[..n], m) <==> GivesUp(b, c, calls, m)
  {
    assert calls[..n][..m] == calls[..m] && calls[..n][m] == calls[m];
  }

  lemma {:induction false} PermitGranted(b: Book, c: Connection, calls: seq<Call>) returns (j: nat)
    requires c.permit.None? && Trace(b, c, calls).permit.Some?
    ensures j < |calls| && GrantedAt(b, c, calls, j, Trace(b, c, calls).permit.value)
  {
    var n := |calls| - 1;
    var before := Trace(b, c, calls[..n]);
    CallKeeps(b, before, calls[n]);
    if before.permit == Trace(b, c, calls).permit {
      j := PermitGranted(b, c, calls[..n]);
      GrantedStays(b, c, calls, j, before.permit.value);
    } else {
      j := n;
    }
  }

  // A commit goes out only for the plan of a fresh preparation on the same connection.
  lemma CommitNeedsPreparation(b: Book, c: Connection, calls: seq<Call>, i: nat) returns (j: nat)
    requires c.permit.None? && i < |calls| && calls[i].Commit? && SentAt(b, c, calls, i)
    ensures j < i && GrantedAt(b, c, calls[..i], j, calls[i].plan)
  {
    j := PermitGranted(b, c, calls[..i]);
  }

  // ---- The records of a connection.

  // How a retained record may change: only before the attempt, or from uncertain to placed.
  predicate Progress(previous: Record, current: Record) {
    || previous == current
    || (previous.plan == current.plan &&
        (previous.phase.Prepared? || (previous.phase.Indeterminate? && current.phase.Placed?)))
  }

  // Records never disappear and only make progress.
  predicate Onward(before: map<Bytes, Record>, after: map<Bytes, Record>) {
    forall k :: k in before ==> k in after && Progress(before[k], after[k])
  }

  lemma OnwardOnward(a: map<Bytes, Record>, b: map<Bytes, Record>, c: map<Bytes, Record>)
    requires Onward(a, b) && Onward(b, c)
    ensures Onward(a, c)
  {
    forall k | k in a ensures k in c && Progress(a[k], c[k]) {
      assert Progress(a[k], b[k]) && Progress(b[k], c[k]);
    }
  }

  ghost predicate SoundRecord(k: Bytes, r: Record) { r.Valid() && r.plan.key == k }

  // Every retained record is valid and stands under its own key.
  ghost predicate RecordsSound(records: map<Bytes, Record>) {
    forall k :: k in records ==> SoundRecord(k, records[k])
  }

  // What an accepted reply does to the records.
  lemma AcceptRecords(b: Book, c: Connection, op: Operation, plan: Option<Plan>, r: Reply)
    requires Accept(b, c, op, plan, r).Some?
    ensures r.record.None? ==> Accept(b, c, op, plan, r).value.records == c.records
    ensures r.record.Some? ==>
      && plan.Some? && RecordOk(b, c, op, plan.value, r)
      && Accept(b, c, op, plan, r).value.records == c.records[plan.value.key := r.record.value]
  {
  }

  // Records change only by a reply that passes every check.
  lemma RecordsAfter(b: Book, c: Connection, call: Call)
    ensures After(b, c, call).records == c.records || (
      Sends(b, c, call) && call.reply.Came? &&
      var next := Accept(b, Relinquished(c, call), OperationOf(call), PlanOf(call), call.reply.reply);
      next.Some? && After(b, c, call).records == next.value.records)
  {
    if Sends(b, c, call) { RecordsAfterSent(b, c, call); }
  }

  lemma RecordsAfterSent(b: Book, c: Connection, call: Call)
    requires Sends(b, c, call)
    ensures var next := if call.reply.Lost? then None
                        else Accept(b, Relinquished(c, call), OperationOf(call), PlanOf(call), call.reply.reply);
            After(b, c, call).records == if next.None? then c.records else next.value.records
  {
    if Answer(b, c, call).None? { assert After(b, c, call) == AfterFailure(b, c, call); }
  }

  lemma FollowProgress(b: JournalBook, op: Operation, previous: Record, record: Record, m: Manifest)
    requires MayFollow(b, op, previous, record, m) && previous.Valid() && record.Valid()
    ensures Progress(previous, record)
  {
    if b.wire.raw(previous) == b.wire.raw(record) && previous.plan == record.plan {
      WireInjective(b.wire, previous, record);
    }
  }

  // A record that passes the checks is sound and continues the one under its key.
  lemma RecordOkProgress(b: JournalBook, c: Connection, op: Operation, plan: Plan, r: Reply)
    requires r.record.Some? && RecordOk(b, c, op, plan, r) && RecordsSound(c.records)
    ensures SoundRecord(plan.key, r.record.value)
    ensures plan.key in c.records ==> Progress(c.records[plan.key], r.record.value)
  {
    WireSound(b.wire, b.wire.raw(r.record.value), plan);
    if plan.key in c.records { FollowProgress(b, op, c.records[plan.key], r.record.value, r.manifest); }
  }

  lemma PutOnward(records: map<Bytes, Record>, key: Bytes, r: Record)
    requires RecordsSound(records) && SoundRecord(key, r) && (key in records ==> Progress(records[key], r))
    ensures RecordsSound(records[key := r]) && Onward(records, records[key := r])
  {
  }

  // An accepted reply keeps every record, or moves the one it names along.
  lemma AcceptProgress(b: JournalBook, c: Connection, op: Operation, plan: Option<Plan>, r: Reply)
    requires RecordsSound(c.records) && Accept(b, c, op, plan, r).Some?
    ensures RecordsSound(Accept(b, c, op, plan, r).value.records)
    ensures Onward(c.records, Accept(b, c, op, plan, r).value.records)
  {
    AcceptRecords(b, c, op, plan, r);
    if r.record.Some? {
      RecordOkProgress(b, c, op, plan.value, r);
      PutOnward(c.records, plan.value.key, r.record.value);
    }
  }

  lemma CallProgress(b: JournalBook, c: Connection, call: Call)
    requires RecordsSound(c.records)
    ensures RecordsSound(After(b, c, call).records) && Onward(c.records, After(b, c, call).records)
  {
    RecordsAfter(b, c, call);
    if After(b, c, call).records != c.records {
      AcceptProgress(b, Relinquished(c, call), OperationOf(call), PlanOf(call), call.reply.reply);
    }
  }

  lemma {:induction false} TraceSound(b: JournalBook, c: Connection, calls: seq<Call>)
    requires RecordsSound(c.records)
    ensures RecordsSound(Trace(b, c, calls).records)
  {
    if calls != [] {
      TraceSound(b, c, calls[..|calls| - 1]);
      CallProgress(b, Trace(b, c, calls[..|calls| - 1]), calls[|calls| - 1]);
    }
  }

  lemma OnwardSelf(records: map<Bytes, Record>)
    ensures Onward(records, records)
  {
  }

  lemma LastCallProgress(b: JournalBook, c: Connection, calls: seq<Call>, records: map<Bytes, Record>)
    requires RecordsSound(c.records) && calls != []
    requires Onward(records, Trace(b, c, calls[..|calls| - 1]).records)
    ensures Onward(records, Trace(b, c, calls).records)
  {
    var before := Trace(b, c, calls[..|calls| - 1]);
    TraceSound(b, c, calls[..|calls| - 1]);
    CallProgress(b, before, calls[|calls| - 1]);
    OnwardOnward(records, before.records, After(b, before, calls[|calls| - 1]).records);
  }

  lemma {:induction false} RecordsFrom(b: JournalBook, c: Connection, calls: seq<Call>, i: nat,
                                       records: map<Bytes, Record>)
    requires RecordsSound(c.records) && i <= |calls| && records == Trace(b, c, calls[..i]).records
    ensures Onward(records, Trace(b, c, calls).records)
    decreases |calls|
  {
    if i == |calls| {
      assert calls[..i] == calls;
      OnwardSelf(records);
    } else {
      var before := calls[..|calls| - 1];
      assert before[..i] == calls[..i];
      RecordsFrom(b, c, before, i, records);
      LastCallProgress(b, c, calls, records);
    }
  }

  // Over the whole life of a connection a record never disappears and never changes its plan, and
  // its outcome changes only from uncertain to placed.
  lemma RecordsEvolve(b: JournalBook, c: Connection, calls: seq<Call>, i: nat)
    requires RecordsSound(c.records) && i <= |calls|
    ensures Onward(Trace(b, c, calls[..i]).records, Trace(b, c, calls).records)
  {
    RecordsFrom(b, c, calls, i, Trace(b, c, calls[..i]).records);
  }

  // ---- The native side as the connection sees it, and the client object.

  datatype Request = Request(connection: nat, operation: Operation, plan: Option<Plan>)

  // Everything that was ever sent to one native endpoint, on any connection.
  class Native {
    var sent: seq<Request>

    constructor ()
      ensures sent == []
    {
      sent := [];
    }
  }

  // The CommitPlacement requests among those sent.
  function CommitsIn(sent: seq<Request>): seq<Request> {
    if sent == [] then [] else
      var last := sent[|sent| - 1];
      CommitsIn(sent[..|sent| - 1]) + (if last.operation.CommitPlacement? then [last] else [])
  }

  // The request that a call makes, if it makes one.
  function RequestOf(b: Book, c: Connection, call: Call): seq<Request> {
    if Sends(b, c, call) then [Request(c.id, OperationOf(call), PlanOf(call))] else []
  }

  // The client object: its methods update the connection in place and send to the native side.
  class Client {
    const book: Book
    const native: Native
    const id: nat
    const selection: Selection
    var manifest: Option<Manifest>
    var permit: Option<Plan>
    var commitAttempted: bool
    var records: map<Bytes, Record>
    var closed: bool

    function Value(): Connection
      reads this
    {
      Connection(id, selection, manifest, permit, commitAttempted, records, closed)
    }

    // Connect and shake hands.
    constructor (book: Book, native: Native, id: nat, selection: Selection, reply: Arrival)
      modifies native
      ensures this.book == book && this.native == native
      ensures native.sent == old(native.sent) + [Request(id, Handshake, None)]
      ensures var next := if reply.Lost? || reply.late then None
                          else Accept(book, Fresh(id, selection), Handshake, None, reply.reply);
              Value() == if next.Some? then next.value else Shut(Fresh(id, selection))
    {
      this.book, this.native, this.id, this.selection := book, native, id, selection;
      permit, commitAttempted, records := None, false, map[];
      var next := if reply.Lost? || reply.late then None
                  else Accept(book, Fresh(id, selection), Handshake, None, reply.reply);
      manifest := if next.None? then None else next.value.manifest;
      closed := next.None?;
      new;
      native.sent := native.sent + [Request(id, Handshake, None)];
    }

    method Shutdown()
      modifies this
      ensures Value() == Shut(old(Value())) == After(book, old(Value()), Close)
    {
      closed := true;
      permit := None;
    }

    // Send, check the reply and remember its record; close on any failure.
    method Exchange(op: Operation, plan: Option<Plan>, reply: Arrival) returns (answer: Option<Reply>)
      modifies this, native
      ensures native.sent == old(native.sent) + if old(closed) then [] else [Request(id, op, plan)]
      ensures match reply
              case Lost => answer == None && Value() == Shut(old(Value()))
              case Came(r, late) =>
                match Accept(book, old(Value()), op, plan, r)
                case None => answer == None && Value() == Shut(old(Value()))
                case Some(c) =>
                  if late then answer == None && Value() == Shut(old(Value()).(records := c.records))
                  else answer == Some(r) && Value() == c
    {
      var c := Value();
      if !closed { native.sent := native.sent + [Request(id, op, plan)]; }
      var next := if reply.Lost? then None else Accept(book, c, op, plan, reply.reply);
      if next.None? {
        Shutdown();
        return None;
      }
      if reply.reply.record.Some? { records := records[plan.value.key := reply.reply.record.value]; }
      if reply.late {
        Shutdown();
        return None;
      }
      manifest := Some(reply.reply.manifest);
      answer := Some(reply.reply);
    }

    method ObservePlacement(reply: Arrival) returns (answer: Option<Reply>)
      modifies this, native
      ensures Value() == After(book, old(Value()), Observe(reply))
      ensures answer == Answer(book, old(Value()), Observe(reply))
      ensures native.sent == old(native.sent) + RequestOf(book, old(Value()), Observe(reply))
    {
      answer := Exchange(ReadPlacement, None, reply);
    }

    method PreparePlan(plan: Plan, reply: Arrival) returns (answer: Option<Reply>)
      modifies this, native
      ensures Value() == After(book, old(Value()), Prepare(plan, reply))
      ensures answer == Answer(book, old(Value()), Prepare(plan, reply))
      ensures native.sent == old(native.sent) + RequestOf(book, old(Value()), Prepare(plan, reply))
    {
      if !(book.validPlan(plan) && plan.before.selection == selection) { return None; }
      if closed || commitAttempted || permit.Some? || records != map[] { return None; }
      if manifest.None? || plan.before.generation != manifest.value.generation { return None; }
      answer := Exchange(PreparePlacement, Some(plan), reply);
      if answer.Some? && FreshPreparation(answer.value) { permit := Some(plan); }
    }

    method CommitPlan(plan: Plan, reply: Arrival) returns (answer: Option<Reply>)
      modifies this, native
      ensures Value() == After(book, old(Value()), Commit(plan, reply))
      ensures answer == Answer(book, old(Value()), Commit(plan, reply))
      ensures native.sent == old(native.sent) + RequestOf(book, old(Value()), Commit(plan, reply))
    {
      if !(book.validPlan(plan) && plan.before.selection == selection) { return None; }
      if closed || commitAttempted || permit != Some(plan) { return None; }
      permit := None;
      commitAttempted := true;
      answer := Exchange(CommitPlacement, Some(plan), reply);
      if answer.Some? && answer.value.record.value.phase.Prepared? {
        Shutdown();
        return None;
      }
    }

    method QueryPlan(plan: Plan, reply: Arrival) returns (answer: Option<Reply>)
      modifies this, native
      ensures Value() == After(book, old(Value()), Query(plan, reply))
      ensures answer == Answer(book, old(Value()), Query(plan, reply))
      ensures native.sent == old(native.sent) + RequestOf(book, old(Value()), Query(plan, reply))
    {
      if !(book.validPlan(plan) && plan.before.selection == selection) { return None; }
      permit := None;
      answer := Exchange(QueryPlacement, Some(plan), reply);
    }

    method CancelPlan(plan: Plan, reply: Arrival) returns (answer: Option<Reply>)
      modifies this, native
      ensures Value() == After(book, old(Value()), Cancel(plan, reply))
      ensures answer == Answer(book, old(Value()), Cancel(plan, reply))
      ensures native.sent == old(native.sent) + RequestOf(book, old(Value()), Cancel(plan, reply))
    {
      if !(book.validPlan(plan) && plan.before.selection == selection) { return None; }
      permit := None;
      answer := Exchange(CancelPlacement, Some(plan), reply);
      if answer.Some? && answer.value.record.value.phase.Prepared? {
        Shutdown();
        return None;
      }
    }
  }
}
