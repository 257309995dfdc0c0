# Verified reference models of the fortress controller

The controller plans and supervises work in a running fortress. Its reference scripts state, in
plain Python, how the hard parts must behave: how redundant a route between two tiles is, which
tiles or buildings everything else depends on, how labour is shared out, and how one piece of
furniture is placed at most once although the native side, the connection and the process may all
fail. This project states those algorithms and that protocol in Dafny and proves what they are for,
for inputs of every size and for runs of every length.

What is proved, in short:

* **Route redundancy.** Unit-capacity max-flow with breadth-first augmentation, cancellation of
  opposing flow, a residual cut and a decomposition into routes. For every symmetric simple graph,
  both tiles and both modes, the model returns k disjoint simple routes and k removable elements
  that separate the tiles (Menger, for edges and for inner tiles), k is what the exhaustive
  separator search finds, and no assertion of the model or of its certificate can fire. Applied to
  arbitrary routes and cuts the certificate accepts exactly the sorted answers.
* **Dominators.** Depth-first search, reverse postorder and the two-finger intersection always
  stabilise within size + 1 passes. The parents are exactly the immediate dominators, the impacts
  exactly the numbers of vertices lost by removal, and the check by vertex removal accepts exactly
  the correct results, whoever computed them.
* **Labour allocation.** Augmenting paths keep two inverse match arrays, failed searches leave sets
  of positions with one fitting worker too few that stay tight for ever, and the coverage is the
  lexicographically greatest one over all feasible assignments, as the exhaustive oracle says.
* **One-shot placement.** A strict binary codec, a protobuf codec, a hash-chained journal, a
  directory fence, a connection with a one-shot permit, and `start`/`recover` over all of them.
  In every run with crashes, torn writes and reopenings CommitPlacement goes out at most once per
  key, only on the connection that prepared the plan afresh, and only while a complete dispatch
  frame is durable; at most one journal is ever unfinished; a resolved journal never changes; and
  no frame that the transitions allow is ever refused for its size. Where the native side answers
  well and the writes are complete, `start` ends with exactly one commit and a file that holds the
  receipt it was sent, `recover` ends with the uncertain receipt resolved, and what either reports as
  stored is exactly what its files gained. Which frames and which replies are accepted is stated as
  if-and-only-if on the state and the reply.
* **Smaller parts.** Three-valued conditions, interval verdicts on counts, box masks, the temporal
  watch, moats and room clusters, each against a simple definition.

## How the files fit together

| part | files |
|---|---|
| shared facts | `Common`, `Graphs`, `Sorting`, `Boxes`, `ByteCodec` |
| dominators | `DepthFirst`, `DominatorTree`, `Dominance`, `DominanceImpact`, `DominanceCheck` |
| labour | `LaborMatching`, `LaborAllocation`, `LaborOptimum`, `LaborOracle` |
| routes | `RouteFlow`, `RouteSearch`, `RouteNetwork`, `RouteModel`, `RouteCuts`, `RoutePaths`, `RouteResilience`, `RouteOracle`, `RouteCertificate` |
| placement codecs | `PlacementWire`, `PlacementCapture`, `PlacementReader`, `PlacementRecord`, `PlacementRecordCodec`, `PlacementLayout`, `PlacementProtobuf` |
| placement journal | `PlacementLog`, `PlacementJournal`, `PlacementCapacity`, `PlacementText`, `PlacementBook`, `PlacementStore`, `PlacementOwner` |
| placement protocol | `PlacementRpc`, `PlacementReplies`, `PlacementProtocol`, `PlacementSafety`, `PlacementPending`, `PlacementStart`, `PlacementOutcome`, `PlacementStored`, `PlacementRecovery` |
| smaller parts | `Conditions`, `ConditionVerdicts`, `Terrain`, `Watch`, `Blueprint`, `BlueprintCluster`, `BlueprintRegion` |

`dafny verify dfyconfig.toml` checks everything.

Code that updates arrays, maps, offsets or objects in loops is modelled by methods and classes with
loop invariants: the searches, flows, matchings, passes, readers, codecs, the journal directory
(`PlacementOwner.PlacementDirectory`), the connection (`PlacementRpc.Client`) and `start`/`recover`
(`PlacementStart`). Their contracts equate the new state with functions of the old one, and the
properties are proved about those functions. The protocol itself is a step function over worlds
(`PlacementProtocol.Take`, `Run`): durable files, at most one owner, where its call stands, what
was ever prepared afresh and what was ever committed. The native side answers arbitrarily, and
writes end completely or after any number of bytes. What reaches the native side is logged by
`PlacementRpc.Native`, and `start` and `recover` keep the commits of the world equal to the
CommitPlacement requests in that log. Each stage of a call is also a function of the world
(`PlacementStart.Started`, `Recovered`): a stage that cannot be taken ends the call, and the methods
are proved to leave exactly the world that these functions give.

Three values stand for what the model does not look into:

* `PlacementRecord.Sha` is any function to 32 bytes; no theorem assumes that it has no collisions.
* `PlacementLog.Env` holds any canonical frame text without line breaks that parses back to its
  frame, of fewer than 1024 characters beside two for each byte that is written in hexadecimal and six
  for each byte of a version text. `PlacementText.TextExists` builds one, for every hash, so these
  conditions can be met together.
* `PlacementJournal.Wire` and `Book` hand the record codec and the journal operations to the later
  modules as values; `IsWire` and `IsBook` say that they are the functions of the earlier modules,
  and `PlacementText.JournalBook` is the type of all such values.

## Three findings

* The watch and its window search agree on every bit sequence exactly when there is at least one
  sample and at least one true sample is required (`Watch.Compare`): without samples one says
  pending and the other expired, and with nothing required the search is satisfied at once.
* The cluster layout never overlaps and never disconnects, so its only possible failures are the
  two size limits. They are met exactly when 2 * count + rows + 1 is at most 64 and
  count * (width * height + width + 2) + (rows - 1) * (height + 3) + 1 is at most 16384
  (`BlueprintRegion.Cluster`).
* A moat is built exactly for at least two columns, at least three rows and a gap between nothing and
  two less than the width, within the tile limit; every other size makes an improper part or two
  parts that overlap (`Blueprint.Moat`).

## Model

| member | source | states |
|---|---|---|
| `RouteNetwork.Build` | scripts/check_route_resilience_reference.py:78-100 | the network holds exactly the links the mode asks for, each once, with both arcs of every link, and opposing pairs for every undirected edge in edge mode |
| `RouteSearch.Search` | scripts/check_route_resilience_reference.py:102-117 | the search leaves a tree of usable arcs ordered in time; when the target is not in it, everything reachable was explored |
| `RouteSearch.ExtractPath` | scripts/check_route_resilience_reference.py:119-127 | the recorded arcs lead back to the source along a trail shorter than the number of nodes, so the assertion cannot fire |
| `RouteSearch.AppliedIsFlow` | scripts/check_route_resilience_reference.py:134-135 | pushing one unit along a trail keeps conservation everywhere and changes the value by exactly one, for augmentation and for removal |
| `RouteFlow.CutValue` | scripts/check_route_resilience_reference.py:129-142 | every set with the source and without the target passes on the whole value of a flow |
| `RouteModel.UnitsBounded` | scripts/check_route_resilience_reference.py:136-137 | no conserving flow exceeds the degree of the source |
| `RouteModel.AugmentOnce` | scripts/check_route_resilience_reference.py:131-137 | one augmentation raises the value of the flow by exactly one |
| `RouteModel.MaxFlow` | scripts/check_route_resilience_reference.py:129-137 | the loop ends within degree(source) rounds with a flow that saturates every link out of the reached side |
| `RouteModel.CancelStep` | scripts/check_route_resilience_reference.py:138-140 | cancelling an opposing pair leaves exactly the same residual steps possible |
| `RouteModel.Cancel` | scripts/check_route_resilience_reference.py:138-140 | cancellation keeps the value and every residual step, and no undirected edge stays used both ways |
| `RouteModel.Residual` | scripts/check_route_resilience_reference.py:141-142 | the last search reaches the same nodes as before cancellation and never the target |
| `RouteCuts.CrossingStepLeavesSource` | scripts/check_route_resilience_reference.py:143-155 | in tile mode a step link that crosses the residual cut leaves the source |
| `RouteCuts.CutsDiffer` | scripts/check_route_resilience_reference.py:143-155 | the mapping from crossing links to cut elements merges no two links |
| `RouteCuts.CollectCuts` | scripts/check_route_resilience_reference.py:143-155 | the loop collects exactly the elements of the crossing links, all of which carry flow |
| `RouteCuts.CutCount` | scripts/check_route_resilience_reference.py:143-155 | there are as many cut elements as units of flow |
| `RouteCuts.CutSeparates` | scripts/check_route_resilience_reference.py:143-155 | removing the cut elements disconnects the two tiles |
| `RouteCuts.CutsRemovable` | scripts/check_route_resilience_reference.py:148-155 | cut elements are inner tiles or the direct edge in tile mode, and edges in edge mode |
| `RoutePaths.TakeRoute` | scripts/check_route_resilience_reference.py:158-166 | a flow of positive value yields a simple route along its links and leaves a flow of one unit less |
| `RoutePaths.Decompose` | scripts/check_route_resilience_reference.py:156-168 | the flow falls apart into as many routes as it has units, over disjoint sets of links |
| `RoutePaths.DecomposedIsRouteSet` | scripts/check_route_resilience_reference.py:156-168 | those routes are simple, from source to target, and share no edge and in tile mode no inner tile |
| `RouteResilience.SolveFlow` | scripts/check_route_resilience_reference.py:74-155 | network, flow and cut together: as many separating removable elements as units |
| `RouteResilience.Model` | scripts/check_route_resilience_reference.py:74-170 | sorted disjoint routes and an equally large sorted separator, for every graph, pair of tiles and mode |
| `RouteResilience.SeparatorBound` | scripts/check_route_resilience_reference.py:34-45 | no separator of removable elements is smaller than a set of disjoint routes |
| `RouteResilience.AnswerIsOptimal` | scripts/check_route_resilience_reference.py:34-71 | Menger: no larger set of disjoint routes and no smaller separator exists |
| `RouteOracle.Reachable` | scripts/check_route_resilience_reference.py:18-31 | the search around a cut succeeds exactly when the cut does not separate |
| `RouteOracle.Candidates` | scripts/check_route_resilience_reference.py:35-40 | the enumerated elements are exactly the removable ones, each once |
| `RouteOracle.SomeSeparates` | scripts/check_route_resilience_reference.py:42-44 | some selection of the given size separates, exactly when the enumeration says so |
| `RouteOracle.Oracle` | scripts/check_route_resilience_reference.py:34-45 | the least size of a separator of removable elements |
| `RouteOracle.Compare` | scripts/check_route_resilience_reference.py:34-170 | the number of routes of the model equals the least separator of the oracle, which always exists |
| `RouteCertificate.CheckRoutes` | scripts/check_route_resilience_reference.py:52-62 | the running checks over used edges and tiles accept a list of routes exactly when each fits after those before it |
| `RouteCertificate.FittingExactly` | scripts/check_route_resilience_reference.py:52-62 | fitting one after the other is the same as being pairwise disjoint simple routes |
| `RouteCertificate.CheckCuts` | scripts/check_route_resilience_reference.py:63-70 | the kind and range checks accept exactly the removable elements |
| `RouteCertificate.Certificate` | scripts/check_route_resilience_reference.py:48-71 | applied to any routes and cuts, it accepts exactly the sorted answers |
| `RouteCertificate.CertifiedModel` | scripts/check_route_resilience_reference.py:167-170 | the certificate accepts every answer of the model |
| `Graphs.Reachable` | scripts/check_dominance_reference.py:14-25 | the search returns exactly the vertices with a walk that avoids the removed one |
| `DepthFirst.ReversePostorder` | scripts/check_dominance_reference.py:35-50 | the order lists the reachable vertices once each, the root first and every other after a predecessor |
| `Dominance.Incoming` | scripts/check_dominance_reference.py:30-34 | predecessor lists hold exactly the sources of edges |
| `Dominance.Intersect` | scripts/check_dominance_reference.py:62-68 | the two fingers meet where the parent chains of both vertices begin to agree |
| `Dominance.ProcessVertex` | scripts/check_dominance_reference.py:55-69 | a parent is always found, with a smaller rank, so the assertion cannot fire; the invariants of the pass hold afterwards |
| `DominatorTree.UpdateSound` | scripts/check_dominance_reference.py:54-72 | true dominators stay on every chain when a parent is replaced |
| `DominatorTree.UpdateComplete` | scripts/check_dominance_reference.py:54-72 | after k passes a vertex on a chain is on every walk that goes against the ranks less than k times |
| `DominatorTree.EnoughPasses` | scripts/check_dominance_reference.py:52-76 | after as many passes as vertices every chain is exactly the set of dominators |
| `DominatorTree.StableIsExact` | scripts/check_dominance_reference.py:73-74 | a pass without change leaves exact chains |
| `DominatorTree.ExactIsStable` | scripts/check_dominance_reference.py:70-74 | exact chains are never changed again |
| `Dominance.Pass` | scripts/check_dominance_reference.py:53-74 | one pass keeps the invariants; it changes nothing on exact chains, and when it changes nothing the parents are stable |
| `Dominance.Iterate` | scripts/check_dominance_reference.py:51-76 | the iteration converges within size + 1 passes on every graph |
| `DominanceImpact.Counts` | scripts/check_dominance_reference.py:77-79 | accumulated counts are subtree sizes |
| `DominanceImpact.Solve` | scripts/check_dominance_reference.py:30-76 | search, order and iteration together give exact chains for the reachable vertices |
| `DominanceImpact.ImpactIsLost` | scripts/check_dominance_reference.py:77-81 | a subtree without its root is what removing that root loses |
| `DominanceImpact.Analyze` | scripts/check_dominance_reference.py:28-81 | parents are immediate dominators and impacts are the numbers of vertices lost by removal |
| `DominanceCheck.FollowParents` | scripts/check_dominance_reference.py:93-98 | the loop collects the chain of any parent map, or fails where a vertex repeats or is missing |
| `DominanceCheck.ImmediateIsUnique` | scripts/check_dominance_reference.py:84-101 | a reachable vertex has one immediate dominator |
| `DominanceCheck.ChainsAreImmediate` | scripts/check_dominance_reference.py:92-99 | for any parent map: every chain is the set of dominators exactly when every parent is the immediate dominator |
| `DominanceCheck.CheckEach` | scripts/check_dominance_reference.py:92-101 | the loop over any candidate result accepts exactly when every vertex passes |
| `DominanceCheck.CheckAnalysis` | scripts/check_dominance_reference.py:86-101 | the check by removal accepts exactly the correct analyses |
| `DominanceCheck.Verify` | scripts/check_dominance_reference.py:84-101 | no assertion fires for the analysis of any graph and root |
| `LaborMatching.AugmentStep` | scripts/check_labor_allocation_model.py:29-37 | one turn of the augmentation keeps the two match arrays inverse along real edges |
| `LaborMatching.AugmentKeepsTight` | scripts/check_labor_allocation_model.py:29-37 | a tight set stays tight through every later augmentation |
| `LaborMatching.Augment` | scripts/check_labor_allocation_model.py:28-39 | the root becomes covered and no covered position loses its cover |
| `LaborMatching.Search` | scripts/check_labor_allocation_model.py:12-27 | the search finds a free worker along an alternating path, or leaves a tight set of visited positions |
| `LaborOptimum.TightIsHall` | scripts/check_labor_allocation_model.py:11-39 | a tight set has exactly as many fitting workers as covered positions |
| `LaborOptimum.FailedSearchIsHall` | scripts/check_labor_allocation_model.py:11-39 | the positions of a failed search have one fitting worker too few |
| `LaborAllocation.Serve` | scripts/check_labor_allocation_model.py:11-39 | serving one root keeps every earlier certificate and adds one for the new prefix |
| `LaborAllocation.CountWorkers` | scripts/check_labor_allocation_model.py:8-8 | the number of workers is one more than the largest named |
| `LaborAllocation.Allocate` | scripts/check_labor_allocation_model.py:6-44 | a matching along real edges, certified for every prefix of the positions, counted by role |
| `LaborOptimum.TightIsFull` | scripts/check_labor_allocation_model.py:11-39 | no matching covers more of a tight set |
| `LaborOptimum.PrefixMaximum` | scripts/check_labor_allocation_model.py:6-44 | no matching covers more of any prefix of the positions, so the matching is largest |
| `LaborOptimum.RoleDominance` | scripts/check_labor_allocation_model.py:44-60 | with positions in role order no feasible assignment fills more of the first k roles |
| `LaborOracle.Tally` | scripts/check_labor_allocation_model.py:50-57 | totals of an assignment, valid exactly when every worker is able |
| `LaborOracle.Oracle` | scripts/check_labor_allocation_model.py:47-60 | the lexicographically greatest totals over all feasible assignments, reached by one of them |
| `LaborOracle.AllocationFeasible` | scripts/check_labor_allocation_model.py:44-60 | the allocation is a feasible assignment with its coverage as totals |
| `LaborOracle.AllocationGreatest` | scripts/check_labor_allocation_model.py:44-60 | no feasible assignment of any number of workers has lexicographically greater totals |
| `LaborOracle.Compare` | scripts/check_labor_allocation_model.py:63-71 | allocation and oracle agree for any roles, caps and workers |
| `PlacementReader.Reader.Take` | scripts/build_placement_wire.py:112-133 | the moving offset takes exactly the next bytes or fails |
| `PlacementReader.Reader.Numbers` | scripts/build_placement_wire.py:112-133 | numbers are read one after the other as the pure reader does |
| `PlacementReader.Reader.Bounded` | scripts/build_placement_wire.py:112-133 | a length-prefixed field within bounds, or failure |
| `PlacementReader.Reader.ReadTile` | scripts/build_placement_wire.py:176-217 | reading a tile with the moving offset refines the pure tile reader |
| `PlacementReader.Reader.ReadItem` | scripts/build_placement_wire.py:243-309 | reading an item with the moving offset refines the pure item reader |
| `PlacementReader.DecodeCapture` | scripts/build_placement_wire.py:389-406 | decoding accepts exactly the encodings of valid captures and returns the capture encoded |
| `PlacementWire.SelectionRoundTrip` | scripts/build_placement_wire.py:136-170 | a selection is read back from its encoding in front of any bytes |
| `PlacementWire.DecodeSelectionExact` | scripts/build_placement_wire.py:165-170 | decoding within 17 bytes accepts exactly the encodings of valid selections |
| `PlacementWire.TileRoundTrip` | scripts/build_placement_wire.py:176-217 | a valid tile is read back from its encoding in front of any bytes |
| `PlacementWire.TileExact` | scripts/build_placement_wire.py:176-217 | whatever reads as a tile is the encoding of that valid tile |
| `PlacementWire.DecodeTileExact` | scripts/build_placement_wire.py:219-224 | decoding within 18 bytes accepts exactly the encodings of valid tiles |
| `PlacementWire.ItemRoundTrip` | scripts/build_placement_wire.py:243-309 | a valid item is read back from its encoding in front of any bytes |
| `PlacementWire.ItemExact` | scripts/build_placement_wire.py:243-309 | whatever reads as an item is the encoding of that valid item |
| `PlacementWire.DecodeItemExact` | scripts/build_placement_wire.py:311-316 | decoding within 100 bytes accepts exactly the encodings of valid items |
| `PlacementCapture.ExpectedAfterValid` | scripts/build_placement_wire.py:421-449 | the expected capture after a placement is valid, different and no longer eligible |
| `PlacementCapture.ReadFieldsExact` | scripts/build_placement_wire.py:389-406 | the final comparison never rejects what the readers and the constructor accepted |
| `PlacementCapture.DecodeExact` | scripts/build_placement_wire.py:337-406 | decoding accepts exactly the encodings of valid captures |
| `PlacementCapture.EncodeInjective` | scripts/build_placement_wire.py:337-406 | different valid captures have different encodings |
| `PlacementRecord.InsertionExact` | scripts/build_placement_wire.py:502-543 | insertion proofs are 53 bytes, decode back to themselves, and nothing else decodes |
| `PlacementRecordCodec.RecordDecodes` | scripts/build_placement_wire.py:566-618 | every valid record decodes back to itself, for its own plan |
| `PlacementRecordCodec.RecordRecheckIdle` | scripts/build_placement_wire.py:612-618 | the final comparison never rejects what the readers and the checksum accepted |
| `PlacementRecordCodec.RecordInjective` | scripts/build_placement_wire.py:566-618 | different valid records have different encodings, whatever the hash is |
| `PlacementRecordCodec.RecordLength` | scripts/build_placement_wire.py:595-596 | no valid record comes near the size limit |
| `PlacementLayout.SelectionLayout` | scripts/build_placement_wire.py:136-170 | kind, item and the three coordinates of a selection at bytes 0, 1, 5, 9 and 13, big-endian, and what follows at byte 17 |
| `PlacementLayout.TileLayout` | scripts/build_placement_wire.py:190-224 | the position and width of every attribute of a tile, with the building only where there is one |
| `PlacementLayout.ItemPlaceLayout` | scripts/build_placement_wire.py:264-316 | presence, position, kind and native type of an item at bytes 0 to 17 |
| `PlacementLayout.ItemMakeLayout` | scripts/build_placement_wire.py:264-316 | subtype, material and material index in two's complement, quality and wear at bytes 18 to 37 |
| `PlacementLayout.ItemStateLayout` | scripts/build_placement_wire.py:264-316 | flags, references, the two booleans and the number of jobs at bytes 38 to 48 |
| `PlacementLayout.ItemJobsLayout` | scripts/build_placement_wire.py:264-316 | each job in four bytes from byte 49 on, and the tile behind them |
| `PlacementLayout.CaptureLayout` | scripts/build_placement_wire.py:358-387 | profile, ten counters, folder and flags of a capture at their bytes |
| `PlacementLayout.SceneLayout` | scripts/build_placement_wire.py:358-387 | the selection of a capture, at bytes that depend only on the length of the folder |
| `PlacementLayout.CaptureTilesLayout` | scripts/build_placement_wire.py:358-387 | the nine tiles in order, and the item behind them |
| `PlacementLayout.InsertionLayout` | scripts/build_placement_wire.py:521-543 | every field of the 53 bytes of an insertion proof |
| `PlacementLayout.RecordLayout` | scripts/build_placement_wire.py:577-596 | profile, key, capture, plan digest, token and the four outcome bytes of a record |
| `PlacementLayout.RecordSumLayout` | scripts/build_placement_wire.py:594-596 | the last 32 bytes of a record are the checksum of everything before them |
| `PlacementProtobuf.VarintUnique` | scripts/build_placement_rpc.py:125-132 | the reader accepts exactly one byte string for each value below two to the 64 |
| `PlacementProtobuf.WriteVarint` | scripts/build_placement_rpc.py:125-132 | the writing loop produces the shortest form and refuses values from two to the 64 on |
| `PlacementProtobuf.ReadVarint` | scripts/build_placement_rpc.py:151-163 | the reading loop with its shifts and its offset computes the same value, or fails on the same bytes, as the recursive reader |
| `PlacementProtobuf.MessageRoundTrip` | scripts/build_placement_rpc.py:135-179 | decoding inverts encoding for every field map within bounds |
| `PlacementProtobuf.WriteMessage` | scripts/build_placement_rpc.py:135-144 | the encoding loop writes the fields in ascending order and refuses field numbers, numbers and messages out of bounds |
| `PlacementProtobuf.ReadMessage` | scripts/build_placement_rpc.py:147-179 | the message loop refuses unknown and repeated fields and truncation, and otherwise yields every field |
| `PlacementLog.ReplayFile` | scripts/build_placement_store.py:143-161 | the replay loop folds the lines of a file, refusing it at the first that does not fit |
| `PlacementLog.ReplayWritten` | scripts/build_placement_store.py:143-171 | the bytes written for a history replay to its state |
| `PlacementLog.ReplayUnderstood` | scripts/build_placement_store.py:143-161 | every file that replays is the file of some history, byte for byte |
| `PlacementLog.PrefixReplays` | scripts/build_placement_store.py:143-161 | every frame-boundary prefix of a journal replays to the state it had then |
| `PlacementLog.TornRefused` | scripts/build_placement_store.py:144-161 | a strict part of a frame behind whole frames is never accepted |
| `PlacementLog.ReplayAppend` | scripts/build_placement_store.py:164-171 | appending an allowed frame replays to the next state exactly when the size and count limits hold |
| `PlacementJournal.ApplyFollows` | scripts/build_placement_store.py:100-140 | every accepted frame keeps the state sound and changes only what its kind may change |
| `PlacementJournal.IntentAccepted` | scripts/build_placement_store.py:101-109 | the intent of a plan is accepted exactly from its own native incarnation |
| `PlacementJournal.IntentExactly` | scripts/build_placement_store.py:101-109 | an intent is accepted exactly as the first frame and exactly when it is the one of an eligible plan from its own incarnation, with the resulting state |
| `PlacementJournal.PreparationExactly` | scripts/build_placement_store.py:129-138 | a preparation is accepted exactly when there is no preparation, dispatch or receipt yet, the record is a valid prepared one of the plan and the manifest is the intent's; with the resulting state |
| `PlacementJournal.DispatchExactly` | scripts/build_placement_store.py:123-128 | a dispatch is accepted exactly when there is a preparation, no dispatch and no receipt, and the digest is the plan's; with the resulting state |
| `PlacementJournal.ReceiptExactly` | scripts/build_placement_store.py:129-140 | a receipt is accepted exactly when there is none yet, the record is a valid one of the plan and not prepared, the software is the same and the generation no earlier; with the resulting state |
| `PlacementJournal.ReconciliationExactly` | scripts/build_placement_store.py:111-122 | a reconciliation is accepted exactly for an uncertain receipt that it names, from the original source, with a valid placed record of the plan; with the resulting state |
| `PlacementJournal.ResolvedIsFinal` | scripts/build_placement_store.py:71-140 | no frame is accepted after a resolved receipt |
| `PlacementJournal.ReconciliationIs` | scripts/build_placement_reconciliation.py:9-23 | only placed evidence for the same plan follows an uncertain receipt, and re-decoding never decides it |
| `PlacementJournal.ReconciliationAccepted` | scripts/build_placement_store.py:111-122 | such evidence from the original source is accepted |
| `PlacementJournal.ReplayIsLegal` | scripts/build_placement_store.py:100-161 | the kinds of frames of an accepted file are intent, then at most one each of preparation, dispatch, receipt and reconciliation, in that order, as its state says, so never more than five |
| `PlacementJournal.ReconciliationFits` | scripts/build_placement_store.py:246-248 | behind the reserve, a valid reconciliation meets the frame limit, the file limit and the frame count |
| `PlacementCapacity.NeverTooLarge` | scripts/build_placement_store.py:143-171 | a frame that the transitions allow behind any accepted file is never refused for the frame limit, the file limit or the frame count, and keeps the reserve |
| `PlacementCapacity.FirstNeverTooLarge` | scripts/build_placement_store.py:164-171 | neither is the first frame of a file |
| `PlacementStore.CreateState` | scripts/build_placement_store.py:373-398 | a new journal stands for exactly the intent of its plan |
| `PlacementStore.AppendMirrors` | scripts/build_placement_store.py:236-265 | after an append the bytes replay to the state in memory; it was possible only while pending and keeps the reserve |
| `PlacementStore.AppendedExactly` | scripts/build_placement_store.py:236-265 | an append is refused exactly for a read-only owner, missing authority, a failed check or a transition that is not allowed |
| `PlacementStore.CreateExactly` | scripts/build_placement_store.py:373-398 | a creation is refused exactly for a read-only owner, a directory that is not ready, a plan that is not eligible or of another incarnation, or an improper address |
| `PlacementOwner.PlacementDirectory.OpenAll` | scripts/build_placement_store.py:315-338 | a directory opens exactly when every file replays under its own key, and no authority comes with it |
| `PlacementOwner.PlacementDirectory.CheckAll` | scripts/build_placement_store.py:351-364 | the check holds exactly when nothing is fenced and the files are those in memory |
| `PlacementOwner.PlacementDirectory.IsReady` | scripts/build_placement_store.py:366-371 | a new key is ready exactly when it is new, there is room and nothing is pending |
| `PlacementOwner.PlacementDirectory.CreateJournal` | scripts/build_placement_store.py:373-398 | the whole new state of directory and files after a creation: refused, complete, without a file, with part of one, or with a whole one noted before the last check fails |
| `PlacementOwner.PlacementDirectory.Append` | scripts/build_placement_store.py:236-265 | the whole new state of directory and files after an append, complete, refused or interrupted |
| `PlacementOwner.PlacementDirectory.WriteFrame` | scripts/build_placement_store.py:250-265 | dispatch authority is consumed before the write; an interrupted write leaves a first part and a fence |
| `PlacementRpc.OneCommit` | scripts/build_placement_rpc.py:344-354 | a connection sends CommitPlacement at most once, whatever is called and answered |
| `PlacementRpc.CommitNeedsPreparation` | scripts/build_placement_rpc.py:333-374 | a commit goes out only for the plan of a fresh preparation on that connection, with no query, cancel or commit in between |
| `PlacementRpc.RecordsEvolve` | scripts/build_placement_rpc.py:287-304 | over the whole life of a connection records never disappear or change plan, and an outcome changes only from uncertain to placed |
| `PlacementRpc.Client.Exchange` | scripts/build_placement_rpc.py:248-313 | the request reaches the native side unless the connection is closed; the reply is returned and remembered where the checks accept it, or the connection is closed, with the record already stored when only the last guard fails (which replies those are: `PlacementReplies.AnswerExactly`) |
| `PlacementReplies.HelloExactly` | scripts/build_placement_rpc.py:184-213 | a handshake is accepted exactly with a valid manifest, a consistent fence and nothing else |
| `PlacementReplies.AnswerExactly` | scripts/build_placement_rpc.py:248-369 | each operation returns a reply exactly when it may be sent and the reply comes in time with the manifest of the connection, a consistent fence, the right parts, and a valid record of the plan that continues what is known and is fenced where it is uncertain |
| `PlacementReplies.AfterAnswer` | scripts/build_placement_rpc.py:248-369 | the whole connection after an answer: its manifest, its record under the key, and the permit only for a fresh preparation |
| `PlacementReplies.AnswersOfLife` | scripts/build_placement_rpc.py:248-313 | over the whole life of a connection every answer has the manifest of its handshake, a capture is of its own selection and generation, and an uncertain record is always fenced |
| `PlacementReplies.FollowExactly` | scripts/build_placement_rpc.py:295-302 | a record may follow another exactly when it is the same one, follows a preparation, or is placed evidence for an uncertain one in a query from the original incarnation |
| `PlacementRpc.Client.PreparePlan` | scripts/build_placement_rpc.py:333-342 | the new connection state after a preparation; only a fresh prepared answer gives the permit |
| `PlacementRpc.Client.CommitPlan` | scripts/build_placement_rpc.py:344-354 | the permit is consumed before sending and never comes back; CommitPlacement is sent exactly when the permit is for this plan |
| `PlacementRpc.Client.QueryPlan` | scripts/build_placement_rpc.py:356-360 | a query gives up the permit |
| `PlacementRpc.Client.CancelPlan` | scripts/build_placement_rpc.py:362-369 | a cancellation gives up the permit and refuses prepared evidence |
| `PlacementRpc.Client.Shutdown` | scripts/build_placement_rpc.py:371-374 | closing gives up the permit |
| `PlacementSafety.StepIsSafe` | scripts/build_placement_client.py:104-184 | every step of start, recover, crash and reopening keeps the safety invariant |
| `PlacementSafety.AtMostOnce` | scripts/build_placement_client.py:104-144 | in every run from any directory: at most one CommitPlacement per key, never for a key that had a file at the start, on the connection of the fresh preparation, with a complete durable dispatch frame that stays in the file |
| `PlacementSafety.RunsJoin` | scripts/build_placement_client.py:104-184 | two runs one after the other are one run, so what holds of runs holds of every world that start or recover leaves |
| `PlacementPending.AtMostOnePending` | scripts/build_placement_store.py:366-398 | in every run from an empty directory no two journals are unfinished at once |
| `PlacementPending.ResolvedForever` | scripts/build_placement_store.py:100-140 | a resolved journal keeps its bytes in every continuation of a run |
| `PlacementPending.TornClosesDirectory` | scripts/build_placement_store.py:315-338 | from the moment a file is torn no file of its directory changes and nothing is committed, in any continuation of any run |
| `PlacementPending.EvidenceAlwaysFits` | scripts/build_placement_store.py:236-304 | in every run from an empty directory, storing valid evidence for an uncertain receipt is never refused, and resolves the journal |
| `PlacementStart.Start` | scripts/build_placement_client.py:104-144 | for all native answers and write outcomes, the world after `start` is what its stages make of it, the commits of the world are exactly the CommitPlacement requests that reached the native side, and it reports that it stored a receipt exactly when one of its appends did |
| `PlacementStart.Recover` | scripts/build_placement_client.py:147-184 | for all native answers and write outcomes, the world after `recover` is what its stages make of it; it sends something exactly when the native side is needed and may be asked, never a CommitPlacement, and reports whether its append stored evidence |
| `PlacementStart.NativeSeesOneCommit` | scripts/build_placement_client.py:104-184 | whatever calls, crashes and reopenings led to a world, no two CommitPlacement requests that ever reached the native side name the same key |
| `PlacementStart.StartIsRun` | scripts/build_placement_client.py:104-144 | a call of `start` is a run of the protocol with at most one more commit, so every theorem about runs covers it |
| `PlacementStart.RecoverIsRun` | scripts/build_placement_client.py:159-184 | a call of `recover` is a run of the protocol without a commit |
| `PlacementOutcome.StartSucceeds` | scripts/build_placement_client.py:104-144 | from a ready directory, with good answers and complete writes: exactly one more commit, for the confirmed plan; one new file, which replays to a prepared and dispatched state with exactly the receipt that was sent; and it is reported as stored |
| `PlacementOutcome.StartMeetsOutcome` | scripts/build_placement_client.py:104-144 | where the preparation is answered with an outcome: no commit, one new file that replays to the intent with exactly that outcome, reported as stored |
| `PlacementStored.StoredExactly` | scripts/build_placement_client.py:104-144 | for all answers and write outcomes, `start` reports that it stored something exactly when the file of its key has got a receipt and the owner is not fenced |
| `PlacementRecovery.RecoverySettles` | scripts/build_placement_client.py:159-184 | an uncertain receipt, an accepted query with placed evidence from the original source and a complete write end in a resolved journal that keeps both records, reported as stored |
| `PlacementRecovery.RecoveryReceives` | scripts/build_placement_client.py:159-184 | a journal without a receipt, queried or cancelled, gets the outcome that was answered, also from a later incarnation of the same software |
| `PlacementRecovery.RecoveredExactly` | scripts/build_placement_client.py:159-184 | for all answers and write outcomes, `recover` reports that it stored something exactly when a file changed and the owner is not fenced |
| `Conditions.Combine` | scripts/check_construction_progress_reference.py:24-28 | conjunction and disjunction with unknowns, decided exactly by the decisive values |
| `Conditions.Monotone` | scripts/check_construction_progress_reference.py:31-70 | learning fields, and entities of kinds that the condition does not count, never changes a decided verdict of any condition, except into an exception |
| `Conditions.CompleteDecides` | scripts/check_construction_progress_reference.py:37-70 | with complete knowledge the evaluator decides as two-valued logic does |
| `Conditions.VerdictIsSound` | scripts/check_construction_progress_reference.py:37-70 | a verdict from partial knowledge is true in every completion, also one in which missing entities appear |
| `Conditions.CountedKindsMatter` | scripts/check_construction_progress_reference.py:60-70 | one more entity of a counted kind can turn a verdict around, so the restriction to other kinds is needed |
| `ConditionVerdicts.FieldExactly` | scripts/check_construction_progress_reference.py:41-49 | a field is open exactly when its entity, generation or field is not there, and otherwise yes or no by its value |
| `ConditionVerdicts.RelatedExactly` | scripts/check_construction_progress_reference.py:50-56 | a relation is open exactly when its root is not there in its generation; with a row it is decided by the edges, and without one it raises exactly when an edge must be compared with the row |
| `ConditionVerdicts.AllExactly` | scripts/check_construction_progress_reference.py:24-40 | a conjunction raises exactly when an argument does, and otherwise is false exactly with a false argument and true exactly with only true ones |
| `ConditionVerdicts.AnyExactly` | scripts/check_construction_progress_reference.py:24-40 | the dual for a disjunction |
| `ConditionVerdicts.RootsExactly` | scripts/check_construction_progress_reference.py:31-34 | the roots bound before counting are those of the relations at any depth of conjunctions and disjunctions |
| `ConditionVerdicts.CountExactly` | scripts/check_construction_progress_reference.py:57-70 | a count never raises and is decided exactly when its roots are bound and every way the open rows could turn out agrees |
| `Terrain.VerdictExact` | scripts/check_terrain_watch_reference.py:8-17 | for all six comparisons, a verdict is given exactly when every completion of the unknown members agrees with it |
| `Terrain.Validate` | scripts/check_terrain_watch_reference.py:20-36 | a mask is accepted exactly when it has 1 to 64 boxes in bounds without overlap that cover at most 16384 cells, and then volumes add up to the cells covered |
| `Terrain.SeparateIsDisjoint` | scripts/check_terrain_watch_reference.py:33-41 | boxes do not overlap exactly when they share no cell |
| `Watch.Model` | scripts/check_progress_watch_reference.py:12-32 | for every list of events: the report is at the first segment, sample past or at the deadline, special event or required counting sample, with the verdict that event calls for, and pending exactly when none ends the watch; samples count exactly when true and a cadence after the one that counted last, and the streak lists those since the last false sample |
| `Watch.ReportExactly` | scripts/check_progress_watch_reference.py:12-32 | that description holds of exactly one report, the one the stream gives |
| `Watch.SatisfiedIsStreak` | scripts/check_progress_watch_reference.py:12-32 | a satisfied streak is the required number of true samples, a cadence apart, with no false sample in between and none past the deadline |
| `Watch.RunLengthOracle` | scripts/check_progress_watch_reference.py:35-40 | the earliest window of true samples, or that there is none |
| `Watch.Compare` | scripts/check_progress_watch_reference.py:12-40 | with cadence one on ticks 1 to n both give the same report exactly when there is a sample and one is required |
| `Blueprint.DisjointUnion` | scripts/check_blueprint_geometry_reference.py:13-20 | the union is returned exactly for at most 64 proper disjoint parts of at most 16384 tiles |
| `Blueprint.Moat` | scripts/check_blueprint_geometry_reference.py:23-31 | for all sizes and gaps, exactly when a moat is built, and that it is the outer ring without its crossing |
| `BlueprintCluster.ClusterApart` | scripts/check_blueprint_geometry_reference.py:34-49 | the parts of every layout are disjoint |
| `BlueprintCluster.OneDoor` | scripts/check_blueprint_geometry_reference.py:58-60 | the row under each room holds exactly its door |
| `BlueprintCluster.ClusterSize` | scripts/check_blueprint_geometry_reference.py:34-49 | how many parts and tiles a layout has |
| `BlueprintRegion.ClusterIsOneRegion` | scripts/check_blueprint_geometry_reference.py:47-57 | the tiles of every layout form one connected region from the top of the spine |
| `BlueprintRegion.Search` | scripts/check_blueprint_geometry_reference.py:50-56 | the search ends with tiles around the start that no step leaves |
| `BlueprintRegion.Build` | scripts/check_blueprint_geometry_reference.py:35-48 | the nested loops list exactly the parts of the layout and exactly its rooms |
| `BlueprintRegion.DoorsOk` | scripts/check_blueprint_geometry_reference.py:58-60 | for any tiles, the door check accepts exactly a row with one tile in its middle |
| `BlueprintRegion.Cluster` | scripts/check_blueprint_geometry_reference.py:34-61 | the layout is returned exactly when it meets the two limits; overlap, connectivity and door assertions never fire |

## Left out

- POSIX custody of the journals (modes, locks, no-follow opens, inode stamps, fsync): reduced to durable files with one owner at a time and writes that may end after any byte.
- Files changed behind the owner's back: the check against memory is modelled, but no step of the protocol changes a file outside the owner.
- The canonical JSON text of a frame itself: `PlacementText` shows only that the properties assumed of it can be met.
- Sockets, greeting and method binding, deadlines, budgets, environment authority, command line and output views; a call that fails for any such reason is a call without an answer.
- The field-by-field unpacking of a native reply from its protobuf map: the checks on the unpacked reply are modelled.
- JSON text and UTF-8: texts are byte strings without zero bytes, and the frame text is any canonical one with the stated properties; frames of other shapes are frames that do not parse.
- Directory entries that are no placement journals, which only keep a directory closed.
- The inventory pages of the placement directory, the batch and room workflows around `start`, and their extra guards, which can only stop it earlier.
- The endpoint is a loopback address and port; its textual form is not modelled.
- Watch.Model: special event kinds carry a name only, as the source returns it unchanged.
- BlueprintRegion.Cluster: counts, sizes and columns are positive; for others the source fails on a division or an improper rectangle before it builds a layout.
- Conditions: node shapes that the source rejects with an exception are not representable; an exception for a relation without a row is modelled.
- LaborAllocation.Allocate: every position names an existing role, as the source's indexing demands.
- The journal directory holds its journals as values in a map, so aliasing between journal objects is not modelled.
- The other journals (dig, order run, workforce, creation, job control), the bounded run client, the alert recovery model and the static text checkers: the same ideas again, or no algorithm.
