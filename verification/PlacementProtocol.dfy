// scripts/build_placement_client.py over the store and the transport: whole runs of one
// directory through owners, connections, crashes and reopenings. The native side answers as it likes.
module PlacementProtocol {
  import opened Common
  import opened ByteCodec
  import opened PlacementWire
  import opened PlacementRecord
  import opened PlacementJournal
  import opened PlacementStore
  import opened PlacementRpc

  // Where `start` or `recover` stands.
  datatype Task =
    | Idle
    | Connected(key: Bytes, expected: Bytes, conn: Connection)
    | Observed(plan: Plan, manifest: Manifest, conn: Connection)
    | Unretained(plan: Plan, manifest: Manifest, conn: Connection)
    | Created(plan: Plan, conn: Connection)
    | PreparedReply(plan: Plan, conn: Connection, reply: Reply)
    | PreparedKept(plan: Plan, conn: Connection)
    | DispatchKept(plan: Plan, conn: Connection)
    | CommitReply(plan: Plan, conn: Connection, reply: Reply)
    | Recovering(key: Bytes, cancel: bool, conn: Connection)
    | RecoveryReply(key: Bytes, conn: Connection, reply: Reply)

  datatype Process = Process(dir: Directory, task: Task)

  // One CommitPlacement request: the connection, the plan, and the journal file at that moment.
  datatype Dispatch = Dispatch(connection: nat, plan: Plan, durable: Bytes)

  // The durable files, the owner if there is one, and what was ever prepared afresh or committed.
  datatype World = World(files: Files, owner: Option<Process>, connections: nat,
                         preparations: set<(nat, Plan)>, commits: seq<Dispatch>)

  function Initial(files: Files): World { World(files, None, 0, {}, []) }

  datatype Step =
    | Open(writable: bool)
    | Crash
    | Abort
    | Begin(key: Bytes, expected: Bytes, selection: Selection, hello: Arrival)
    | ObserveStep(reply: Arrival)
    | AskKnown(reply: Arrival)
    | Create(address: Address, made: Creation)
    | PrepareStep(reply: Arrival)
    | Keep(end: Outcome)
    | CommitStep(reply: Arrival)
    | BeginRecover(key: Bytes, cancel: bool, address: Address, hello: Arrival)
    | RecoverStep(reply: Arrival)

  // The append that the task makes next, and where it stands afterwards.
  datatype Due = Due(key: Bytes, payload: Payload, next: Task)

  function StateOf(d: Directory, key: Bytes): Option<State> {
    if key in d.journals then d.journals[key].chain.state else None
  }

  function PutDue(key: Bytes, v: Verdict, next: Task): Option<Due> {
    if v.Put? then Some(Due(key, v.payload, next)) else None
  }

  // Only placed evidence for an uncertain receipt reconciles; everything else is retained or refused.
  function RecoveryVerdict(b: Book, s: State, reply: Reply): Verdict {
    if s.terminal.Some? && s.terminal.value.phase.Indeterminate? && reply.record.Some?
      && reply.record.value.phase.Placed?
    then ReconcileVerdict(b, s, reply) else RetainVerdict(b, s, reply, false)
  }

  function DueOf(b: Book, p: Process): Option<Due> {
    match p.task
    case PreparedReply(plan, conn, reply) =>
      (match StateOf(p.dir, plan.key)
       case None => None
       case Some(s) =>
         if reply.record.None? then None
         else if !reply.record.value.phase.Prepared? then PutDue(plan.key, RetainVerdict(b, s, reply, false), Idle)
         else if reply.replayed != Some(false) then None
         else PutDue(plan.key, RetainVerdict(b, s, reply, true), PreparedKept(plan, conn)))
    case PreparedKept(plan, conn) =>
      if !b.validPlan(plan) then None else Some(Due(plan.key, DispatchFrame(b.digest(plan)), DispatchKept(plan, conn)))
    case CommitReply(plan, conn, reply) =>
      (match StateOf(p.dir, plan.key)
       case None => None
       case Some(s) => PutDue(plan.key, RetainVerdict(b, s, reply, false), Idle))
    case RecoveryReply(key, conn, reply) =>
      (match StateOf(p.dir, key)
       case None => None
       case Some(s) => PutDue(key, RecoveryVerdict(b, s, reply), Idle))
    case _ => None
  }

  // Offline recovery answers from the journal alone.
  predicate RequiresNative(s: State, cancel: bool) {
    s.terminal.None? || (!cancel && s.terminal.value.phase.Indeterminate?)
  }

  predicate Binds(s: State, m: Manifest) { m.SameSoftware(s.manifest) && m.generation >= s.SourceGeneration() }

  function At(w: World, dir: Directory, task: Task): World { w.(owner := Some(Process(dir, task))) }

  // A new connection after its handshake.
  function Greeted(b: Book, id: nat, selection: Selection, hello: Arrival): (c: Option<Connection>)
    ensures c.Some? ==> hello.Came?
  {
    if hello.Lost? || hello.late then None else Accept(b, Fresh(id, selection), Handshake, None, hello.reply)
  }

  // Each step as a function: none where the code cannot take it.
  function TakeBegin(b: Book, v: World, p: Process, step: Step): Option<World>
    requires step.Begin?
  {
    if !p.task.Idle? || !Ready(p.dir, v.files, step.key) then None
    else match Greeted(b, v.connections, step.selection, step.hello)
         case None => None
         case Some(c) => Some(At(v, p.dir, Connected(step.key, step.expected, c)).(connections := v.connections + 1))
  }

  function TakeObserve(b: Book, v: World, p: Process, reply: Arrival): Option<World> {
    if !p.task.Connected? then None else
      match Answer(b, p.task.conn, Observe(reply))
      case None => None
      case Some(r) =>
        if r.unresolved || r.capture.None? then None else
          var plan := Plan(p.task.key, r.capture.value);
          if !b.validPlan(plan) || b.digest(plan) != p.task.expected then None
          else Some(At(v, p.dir, Observed(plan, r.manifest, After(b, p.task.conn, Observe(reply)))))
  }

  function TakeAsk(b: Book, v: World, p: Process, reply: Arrival): Option<World> {
    if !p.task.Observed? || !Check(p.dir, v.files) then None else
      var call := Query(p.task.plan, reply);
      match Answer(b, p.task.conn, call)
      case None => None
      case Some(r) =>
        if r.record.Some? || r.unresolved then None
        else Some(At(v, p.dir, Unretained(p.task.plan, p.task.manifest, After(b, p.task.conn, call))))
  }

  function CreateEnd(v: World, d: Directory, plan: Plan, conn: Connection, j: Journal, end: Creation): World {
    At(v, CreateDirectory(d, plan.key, j, end), if end.Made? then Created(plan, conn) else Idle)
    .(files := CreateFiles(v.files, plan.key, j, end))
  }

  // A refused creation or append ends the call; one that starts ends in one of the ways above.
  function Creating(b: Book, v: World, d: Directory, plan: Plan, m: Manifest, conn: Connection, a: Address,
                    end: Creation): World {
    match CreateBytes(b, d, v.files, plan, m, a)
    case None => At(v, d, Idle)
    case Some(raw) => CreateEnd(v, d, plan, conn, Load(b, plan.key, raw).value, end)
  }

  function TakeCreate(b: Book, v: World, p: Process, address: Address, end: Creation): Option<World> {
    match p.task
    case Unretained(plan, m, conn) => Some(Creating(b, v, p.dir, plan, m, conn, address, end))
    case _ => None
  }

  // A fresh preparation is remembered with the connection that got it.
  function PreparedWorld(v: World, d: Directory, plan: Plan, id: nat, conn: Connection, r: Reply): World {
    At(v, d, PreparedReply(plan, conn, r))
    .(preparations := if FreshPreparation(r) then v.preparations + {(id, plan)} else v.preparations)
  }

  function TakePrepare(b: Book, v: World, p: Process, reply: Arrival): Option<World> {
    if !p.task.Created? || !Check(p.dir, v.files) then None else
      var plan, conn := p.task.plan, p.task.conn;
      match Answer(b, conn, Prepare(plan, reply))
      case None => None
      case Some(r) =>
        Some(PreparedWorld(v, p.dir, plan, conn.id, After(b, conn, Prepare(plan, reply)), r))
  }

  function AppendEnd(v: World, d: Directory, due: Due, j: Journal, end: Outcome): World
    requires due.key in d.journals
  {
    At(v, AppendDirectory(d, due.key, due.payload, j, end), if end.Complete? then due.next else Idle)
    .(files := AppendFiles(d, v.files, due.key, j, end))
  }

  function Appending(b: Book, v: World, d: Directory, due: Due, end: Outcome): World
    requires due.key in d.journals
  {
    match Appended(b, d, v.files, due.key, due.payload)
    case None => At(v, d, Idle)
    case Some(j) => AppendEnd(v, d, due, j, end)
  }

  function TakeKeep(b: Book, v: World, p: Process, end: Outcome): Option<World> {
    match DueOf(b, p)
    case None => None
    case Some(due) => if due.key in p.dir.journals then Some(Appending(b, v, p.dir, due, end)) else None
  }

  // The request goes out and is answered or lost; either way it counts as sent.
  function TakeCommit(b: Book, v: World, p: Process, reply: Arrival): Option<World> {
    if !p.task.DispatchKept? || !Check(p.dir, v.files) || p.task.plan.key !in v.files then None else
      var plan, conn := p.task.plan, p.task.conn;
      var call := Commit(plan, reply);
      if !Sends(b, conn, call) then None else
        var next := v.(commits := v.commits + [Dispatch(conn.id, plan, v.files[plan.key])]);
        match Answer(b, conn, call)
        case None => Some(At(next, p.dir, Idle))
        case Some(r) => Some(At(next, p.dir, CommitReply(plan, After(b, conn, call), r)))
  }

  function TakeBeginRecover(b: Book, v: World, p: Process, step: Step): Option<World>
    requires step.BeginRecover?
  {
    if !p.task.Idle? || !Check(p.dir, v.files) || !p.dir.writable then None else
      match StateOf(p.dir, step.key)
      case None => None
      case Some(s) =>
        if !RequiresNative(s, step.cancel) || step.address != s.address then None else
          match Greeted(b, v.connections, s.plan.before.selection, step.hello)
          case None => None
          case Some(c) =>
            if !Binds(s, step.hello.reply.manifest) then None
            else Some(At(v, p.dir, Recovering(step.key, step.cancel, c)).(connections := v.connections + 1))
  }

  function RecoveryCall(plan: Plan, cancel: bool, reply: Arrival): Call {
    if cancel then Cancel(plan, reply) else Query(plan, reply)
  }

  function TakeRecover(b: Book, v: World, p: Process, reply: Arrival): Option<World> {
    if !p.task.Recovering? || !Check(p.dir, v.files) then None else
      match StateOf(p.dir, p.task.key)
      case None => None
      case Some(s) =>
        var call := RecoveryCall(s.plan, p.task.cancel, reply);
        match Answer(b, p.task.conn, call)
        case None => None
        case Some(r) =>
          if !Binds(s, r.manifest) then None
          else Some(At(v, p.dir, RecoveryReply(p.task.key, After(b, p.task.conn, call), r)))
  }

  function TakeOwned(b: Book, v: World, p: Process, step: Step): Option<World> {
    match step
    case Open(_) => None
    case Crash => Some(v.(owner := None))
    case Abort => Some(At(v, p.dir, Idle))
    case Begin(_, _, _, _) => TakeBegin(b, v, p, step)
    case ObserveStep(reply) => TakeObserve(b, v, p, reply)
    case AskKnown(reply) => TakeAsk(b, v, p, reply)
    case Create(address, end) => TakeCreate(b, v, p, address, end)
    case PrepareStep(reply) => TakePrepare(b, v, p, reply)
    case Keep(end) => TakeKeep(b, v, p, end)
    case CommitStep(reply) => TakeCommit(b, v, p, reply)
    case BeginRecover(_, _, _, _) => TakeBeginRecover(b, v, p, step)
    case RecoverStep(reply) => TakeRecover(b, v, p, reply)
  }

  // An owner opens the whole directory, and there is at most one.
  function Take(b: Book, v: World, step: Step): Option<World> {
    match v.owner
    case None => if step.Open? && Loadable(b, v.files) then Some(At(v, Opened(b, v.files, step.writable), Idle))
      else None
    case Some(p) => TakeOwned(b, v, p, step)
  }

  function Run(b: Book, v: World, steps: seq<Step>): Option<World> {
    if steps == [] then Some(v) else
      match Run(b, v, steps[..|steps| - 1])
      case None => None
      case Some(u) => Take(b, u, steps[|steps| - 1])
  }

  // A step that is tried: where the code cannot take it, its exception ends the call.
  function Tried(b: Book, v: World, step: Step): World {
    match Take(b, v, step)
    case Some(u) => u
    case None => if v.owner.None? then v else At(v, v.owner.value.dir, Idle)
  }
}
