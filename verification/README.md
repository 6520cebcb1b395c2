# DOT in Dafny

A model of DOT, an operational-transformation library with a central append-only log, and proofs of what it
promises. `dafny verify dfyconfig.toml` checks everything.

The model has three layers.

* **Changes.** Values are Nil, atoms, arrays and objects nested to any depth; changes are Replace, Splice, Move,
  PathChange and ChangeSet. `Moves`, `Splices` and `SpliceMoves` hold the arithmetic of the basic merges over
  sequences of any elements, and `MoveOrders`, `SpliceOutcomes` and `SpliceMoveOutcomes` say what the merged sequence
  is. `Changes` and `Merging` are the change types and their dispatch, `Convergence` is the main contract,
  `MergeOutcomes` says what is left of two basic changes at any paths, `Reverting` is about reverts, `Flattening`,
  `Grids` and `Symmetry` are about the relation between Merge and ReverseMerge, `MergeTermination`, `GridCells`,
  `Completion` and `Firmness` about when merging returns, and `ChangeSets` has the loops of the program. `Apply`
  answers None when a change does not belong on a value: an offset out of range, a `Before` that is not what is
  there, a path that leads nowhere.
* **Structures over any algebra of changes.** An `Algebra` has states, changes, apply, merge, revert and join, and
  the laws it may satisfy are predicates. Streams, branches, undo, folds and the protocol are proved for every
  algebra with the laws they name, and `Instances` shows that the library's changes are such algebras: for splices
  and replaces, and for moves of single elements and replaces, where merging always returns, and for all changes,
  where a document is hung after a merge that never returns. `Streams` and `Branches` work on linked nodes that are
  written in place; what they stand for (terminal node, values, routes) is passed along as a ghost `Shape`. `Undo`,
  `UndoLimits`, `UndoableEdits`, `UpstreamUndo`, `UndoMisses` and `UndoStacks` are about undo, `Refs`,
  `AffectedParts` and `Substreams` about paths that follow a value, `Folds` about a change held back.
* **The protocol.** `Operations` is the transformation of raw operations into ones that apply in log order, `Stores`
  the deduplicating log and the caching transformer, `VirtualLogs` what a foreign operation does to a queue of pending
  ones, `Protocol` the steps of any number of clients (edit, push, deliver in per-client order, pull one operation)
  with their invariant, `Sessions` the session object on its linked stream, and `Reliables` delivery over a store that
  may apply a batch and still report failure. `ClientOrders`, `Conservation` and `Independence` say what the steps do
  to the value that a client shows, and that no change is lost on the way. A client's log version is a position in the
  log, so an operation's version is its index.

`Precedence` and `Parser` are a separate core: the two-stack expression parser against a declarative definition of
operator precedence.

Where code and documentation disagree the code is modelled:

* The documented equation for `refs.MergeResult` (refs/refs.go:53-55) does not hold for all changes.
  `AffectedParts.DocumentedSplitFails` is an example, `SplitsExactly` says exactly when it holds, `ScopedRebuilds`
  which equation always does.
* An undo stack does not record a nil change (streams/undo/stack.go:30-38), so an edit whose revert is nil, or
  becomes nil when reverted again, puts undo out of step. `UndoableEdits.LastingExactly` says which edits these are.
* `simplify` (streams/undo/stack.go:112-133) can drop a redone entry together with an undone one that it does not
  redo. `UndoMisses.UndoCanMiss` is a history in which undo then misses, and `UpstreamUndo.UndoExactly` says exactly
  when undo and redo work. `Clean` and `Aligned` are conditions for that which the entries alone show.

## Model

| member | source | states |
|---|---|---|
| `Moves.ShiftMapsIndex` | changes/move.go:199-209 | the cut-and-splice effect of a move on a sequence is the permutation MapIndex describes: the element at index i ends up at MapIndex(i) |
| `Moves.ShiftRevert` | changes/move.go:15-17 | a move followed by its revert restores the sequence, and the revert is in range there |
| `Moves.MovesConverge` | changes/move.go:32-195 | move against move, for all sequences and all in-range moves, in every case (disjoint, destination inside the other block, each inside the other, contained, same destination, partial overlap): m then all of ox equals o then all of mx, and every produced move is in range; which sequence that is says MoveOrders.MergeOrders |
| `MoveOrders.MergeOrders` | changes/move.go:32-195 | which permutation both orders of two merged moves give: any two elements end up in the order that a rule over the blocks and destinations of the two moves asks for, without the merged moves. The argument's block stands first at a common destination, a block whose destination lies in the other one goes inside it, an overlap goes with the block that starts further left, a shuffle inside the other block goes with it |
| `MoveOrders.BothMovesShow` | changes/move.go:32-195 | neither move is lost: against an element that nobody moves, an element moved by one side alone stands where that side put it, unless it was put inside the other side's block |
| `MoveOrders.ShiftAllMapsIndex` | changes/move.go:199-209 | after a list of moves the element from index i is at the position that the composed MapIndex gives |
| `Splices.CutRevert` | changes/splice.go:15-17 | a splice followed by its revert restores the sequence |
| `Splices.SplicesConverge` | changes/splice.go:26-68 | splice against splice in every relative position: both orders reach the same sequence, and each transformed splice's Before is exactly the run it meets; which sequence that is says SpliceOutcomes.MergeOutcome |
| `SpliceOutcomes.MergeOutcome` | changes/splice.go:26-68 | the merged sequence of two splices in closed form: runs beside each other or overlapping both stay, in order of position, the receiver's first if both insert at one place; of nested runs only the outer one's replacement is left, the receiver's if the runs are equal |
| `SpliceMoves.SpliceMoveConverges` | changes/splice.go:71-179 | splice against move in every relative position, including a destination that splits the splice and a partly spliced block: both orders reach the same sequence and every produced edit is valid where it is applied; which sequence that is says SpliceMoveOutcomes.MergeOutcome |
| `SpliceMoveOutcomes.MergeOutcome` | changes/splice.go:71-179 | the merged sequence of a splice and a move in closed form: a shuffle inside the replaced run is lost with it, elements moved out of it are kept and stand at the destination, a run inside the block moves with it, and otherwise what the block has outside the run goes to its destination, behind the run's replacement if the destination was inside |
| `Changes.ApplyAtFocus` | changes/path.go:45-48 | a path change applies exactly if the path leads somewhere and its inner change applies there; afterwards the path leads to the changed value |
| `Changes.LiftJoin` | changes/path.go:66-79 | a converging pair at the end of a path converges as a pair of path changes |
| `Changes.PutElsewhere` | changes/types/generic.go:18-40 | setting two different keys of a value commutes, removed fields included |
| `Merging.CommonPrefixIs` | changes/path.go:125-136 | the common prefix length is the only length at which the prefixes agree and the next elements differ |
| `Convergence.MovesToChangeApplies` | changes/move.go:244-258 | the change built from a list of moves, with its leading nils and dropped no-ops, has the effect of all the moves in order |
| `Convergence.BasicConverges` | changes/replace.go:21-60 | every pair of Replace, Splice and Move that applies to a value merges without panic and converges, for arrays, deletes and creates alike |
| `Convergence.SpliceOverElement` | changes/path.go:95-108 | a splice against a change inside one of the elements: left of the splice, right of it, or replaced with it, the two converge |
| `Convergence.MoveOverElement` | changes/path.go:109-120 | a move against a change inside one of the elements: the path follows the element through the move |
| `Convergence.MergePathsConverges` | changes/path.go:52-64 | two path changes converge whether their paths differ, are equal or nested, in both the forward and the reverse role |
| `MergeOutcomes.BasicOutcome` | changes/replace.go:19-60 | which of two basic changes of one value is left: the argument's of two replacements, a replacement against a splice or a move whichever side it is on, and for arrays the closed forms of splices and moves |
| `MergeOutcomes.MergeApart` | changes/path.go:52-64 | changes at paths that branch off are handed through as they are, by Merge and by ReverseMerge |
| `MergeOutcomes.MergeSame` | changes/path.go:66-79 | at one path the merge is the basic merge of the inner changes in the same roles, under the path |
| `MergeOutcomes.MergeBelow` | changes/path.go:81-123 | a change below the value that a basic change changes: it is handed through at the path of its element, the basic change staying as it is, or its element is replaced and it is lost, and the value is what the basic change alone makes of it |
| `MergeOutcomes.BelowExchanged` | changes/path.go:52-64 | with the deeper change as receiver the results are the same, exchanged |
| `Convergence.MergeEachConverges` | changes/changes.go:180-188 | walking a change set against another change closes the whole row: the set's effect then the transformed other equals the other then the transformed members |
| `Convergence.ReverseMergeEachConverges` | changes/changes.go:192-200 | the same for the walk with receiver and argument exchanged |
| `Convergence.MergeConverges` | changes/changes.go:39-44 | the library's contract: whatever two changes apply to a value, merging them never panics, both transformed changes apply where they are used, and both orders give the same value |
| `Convergence.ReverseMergeConverges` | changes/changes.go:130-138 | the same contract for ReverseMerge |
| `Convergence.SimplifyPreserves` | changes/changes.go:226-242 | Simplify keeps the meaning of every change that applies, nested sets and coalesced paths included |
| `Reverting.RevertUndoes` | changes/changes.go:205-214 | reverting undoes every change that applies, whatever it is built from |
| `Reverting.RevertEachUndoes` | changes/changes.go:205-214 | the reverted members in reverse order lead back through a whole change set |
| `Flattening.LeavesApply` | changes/changes.go:218-224 | taking a change apart into basic changes at their paths, in order, does not change its effect |
| `Flattening.SimplifyKeepsLeaves` | changes/changes.go:226-242 | Simplify only drops nils and nesting: every basic change stays where it was |
| `Grids.CrossRows` | changes/changes.go:180-188 | the grid of basic merges may be completed row by row |
| `Grids.CrossColumns` | changes/changes.go:192-200 | or column by column, with the same outcome, although a cell may turn one change into several |
| `Symmetry.CrossesUnder` | changes/path.go:66-79 | the grid gives the same outcome under a path |
| `Symmetry.ThroughCrosses` | changes/path.go:87-123 | a basic change above others meets them one by one with the same outcome in both roles |
| `Symmetry.MergeWalks` | changes/changes.go:180-188 | whatever two changes Merge is given, it returns the outcome of the grid of their basic changes |
| `Symmetry.ReverseMergeIsMerge` | changes/changes.go:130-138 | whenever both return, b.ReverseMerge(a) gives what a.Merge(b) does with the results exchanged, up to dropped nils and nesting, although one walks the grid by rows and the other by columns |
| `Symmetry.NestingIsIrrelevant` | changes/changes.go:180-202 | whenever both return, how the two sides are nested into sets does not matter for what merging them gives |
| `MergeTermination.FuelIrrelevant` | changes/changes.go:180-202 | the depth bound of the model never changes an answer: any two bounds that give one give the same |
| `MergeTermination.ReturnedConverges` | changes/changes.go:39-44 | convergence stated for what Merge returns, with no bound mentioned |
| `Completion.ReturnsExactly` | changes/changes.go:180-202 | merging two changes of one value returns if and only if the grid of their basic changes has an end |
| `Completion.ReverseMergeReturns` | changes/changes.go:130-138 | a.Merge(b) returns if and only if b.ReverseMerge(a) does |
| `Completion.NestingReturns` | changes/changes.go:180-202 | whether merging returns does not depend on how the two sides are nested into sets and paths |
| `GridCells.TakesColumns` | changes/changes.go:192-200 | a grid with an end divides into the grids of any two parts of its second list, and the numbers of cells add up |
| `Firmness.MergeEnds` | changes/changes.go:180-202 | merging always returns, whichever side is the receiver and however deeply both are nested, if one side only replaces and inserts and the other does anything at all; or if both replace and splice; or both replace and move single elements; or one replaces, inserts and moves single elements and the other replaces, deletes and moves |
| `ChangeSets.SimplifyMembers` | changes/changes.go:228-242 | the loop of ChangeSet.Simplify computes the simplification that SimplifyPreserves is about |
| `ChangeSets.MergeMembers` | changes/changes.go:180-188 | the loop of ChangeSet.Merge, with its compacting result array, computes the merge that MergeConverges is about |
| `ChangeSets.ReverseMergeMembers` | changes/changes.go:192-200 | the loop of ChangeSet.ReverseMerge, the same |
| `ChangeSets.RevertMembers` | changes/changes.go:205-214 | the loop of ChangeSet.Revert computes the revert that RevertUndoes is about |
| `ChangeSets.ApplyTo` | changes/changes.go:218-224 | the loop of ChangeSet.ApplyTo applies the members one after another |
| `ChangeSets.MovesToChangeLoop` | changes/move.go:244-258 | the loop of movesToChange computes the change that MovesToChangeApplies is about |
| `ChangeSets.CommonPrefix` | changes/path.go:125-136 | the loop over the shorter path computes the common prefix length |
| `Algebras.DescendCloses` | ops/sync/session.go:74-79 | carrying a change down a list of merges in which it is the receiver closes the row |
| `Algebras.DescendConcat` | ops/sync/session.go:74-80 | carrying a change past the merge chain and then past the edits in the stream is carrying it past both, one after the other |
| `Algebras.AscendCloses` | streams/stream.go:160-183 | carrying a change along a list of merges in which it is the argument closes the row |
| `Operations.FoldCloses` | ops/transformer.go:128-152 | merging an operation with a list of links closes the row: the links then the result equals the operation then its merge chain |
| `Operations.FoldIsRow` | ops/transformer.go:128-158 | an operation is merged with what it has missed as a change is appended to a stream: it is the argument of every merge, in order, and every entry of its chain keeps its version |
| `Operations.LogSound` | ops/transformer.go:68-123 | for every well-formed log whose operations applied where they were made: the transformed operations apply one after another from the initial value, and for each of them the author's state plus the raw operation plus its merge chain is the log state after it |
| `VirtualLogs.PrefixAuthentic` | ops/transformer.go:68-123 | the transformation of an operation depends only on the log before it, so a prefix of a sound log is sound |
| `VirtualLogs.InsertAgrees` | ops/sync/session.go:67-85 | a foreign operation in front of a queue of pending ones changes their transformed changes exactly as one walk along the queue does |
| `VirtualLogs.InsertedAuthentic` | ops/sync/session.go:67-85 | and every pending operation still applies where its author made it |
| `Protocol.OwnOperationAgrees` | ops/sync/session.go:71-73 | when a client pulls its own first pending operation back, the head of its merge chain is exactly the change that xform computes for that log entry, so dropping it loses nothing |
| `Protocol.PushKeeps` | ops/sync/session.go:37-55 | pushing never fails and keeps the client consistent with the log |
| `Protocol.PullKeeps` | ops/sync/session.go:57-89 | pulling any operation never fails and keeps: transformed log up to the version, then the merge chain, gives the value at the stream node; what a pull does to the value shown and to the changes underway says Conservation.StepShows |
| `Protocol.DeliverKeeps` | ops/sync/session.go:22-35 | an operation reaching the log in per-client order keeps every client consistent |
| `Protocol.StepKeeps` | ops/sync/session.go:22-89 | every step of any client keeps the invariant; only an edit that does not apply is refused |
| `Conservation.ReceivedShows` | ops/sync/session.go:74-80 | pulling a foreign change loses nothing: it is carried past everything the client has not got back yet, which is all still there, adjusted, and the client shows its old value with that change applied |
| `Conservation.StepShows` | ops/sync/session.go:22-89 | in every world of every run, what a step does to what its client shows and has underway: an edit shows at once, a push moves all edits into one operation that leads to the value shown, an own operation coming back changes nothing, a foreign one is applied to what is shown; no other client changes |
| `Protocol.RunsAgreeWithLog` | ops/sync/session.go:22-89 | in every run of any number of clients, a client with nothing pending holds the log state at its version |
| `Protocol.RunsConverge` | ops/sync/session.go:22-89 | any two clients at the same version with nothing pending and no unpushed edits hold equal values |
| `Protocol.UpToDateAgree` | ops/sync/session.go:22-89 | a client that has made everything known and pulled everything has nothing pending and holds the state of the whole log |
| `ClientOrders.LogInOrder` | ops/sync/session.go:37-55 | in every run every operation in the log names the last earlier operation of its client as its parent, or is based on a version that includes all of them |
| `Conservation.XformPasses` | ops/transformer.go:68-123 | in such a log, operations that need no adjusting for those of other clients come out of the transformation as their authors made them, and so do the entries of their merge chains |
| `Conservation.NothingLost` | ops/sync/session.go:22-89 | in every run in which no operation needs adjusting for one of another client, an up-to-date client shows the initial value with every operation of every client applied, in log order |
| `Instances.PlainIsAlgebra` | changes/changes.go:81-108 | all changes that replace and splice, and all that replace and move single elements, form an algebra with the laws the upper layers need, with no condition on termination |
| `Instances.DocumentsIsAlgebra` | changes/changes.go:81-108 | so do all changes, where a merge that never returned would leave its document hung |
| `Instances.PlainClientsConverge` | ops/sync/session.go:22-89 | clients over real values and all changes of such a kind converge in every run |
| `Instances.ClientsConverge` | ops/sync/session.go:22-89 | clients over real values and all changes converge in every run as long as their document is live |
| `Independence.ApartPasses` | changes/path.go:52-64 | changes at paths that branch off need no adjusting for each other |
| `Independence.EveryOperationLasts` | ops/sync/session.go:22-89 | in every run in which different clients make changes at paths that branch off, an up-to-date client shows the effect of every operation that any client made |
| `Stores.AppendedKeeps` | ops/store.go:11-20 | appending keeps ids unique, moves nothing stored, and afterwards every appended id is there |
| `Stores.AppendTwice` | ops/store.go:11-20 | appending the same operations again changes nothing |
| `Stores.AppendedFresh` | ops/store.go:9-14 | the new operations of one batch stay together, in order, at the end of the log |
| `Stores.MemStore.Append` | test/testops/store.go:28-39 | the store's loop over a batch appends exactly the operations whose ids are new, in order |
| `Stores.MemStore.GetSince` | test/testops/store.go:41-52 | returns the operations from a version on, up to the limit, with consecutive versions |
| `Stores.Transformer.XformOp` | ops/transformer.go:68-123 | with any cache of correct entries returns what the cacheless recursion returns, leaves the cache correct, and recurses only on smaller versions |
| `Stores.Transformer.MergeSinceBasis` | ops/transformer.go:84-118 | the search for the parent, the parent's chain and the operations since then are merged in the order of the definition |
| `Stores.Transformer.MergeUnseen` | ops/transformer.go:128-152 | the chain entries up to the basis are skipped and the others merged in order |
| `Stores.Transformer.GetSince` | ops/transformer.go:41-66 | each raw operation is returned with its transformed change |
| `Sessions.Session.Edit` | streams/stream.go:152-158 | a change appended to any node of the session's stream family is an edit step of the protocol, in the form it has at the end of the stream, where it is the argument of every merge on the way |
| `Sessions.Session.Push` | ops/sync/session.go:22-55 | on a linked stream, moving to its end and appending the joined changes is the push step of the protocol; what the store does not accept stays in the out list |
| `Sessions.Session.MergeIntoChain` | ops/sync/session.go:74-79 | the loop over the merge chain carries the pulled change past every pending operation, in place |
| `Sessions.Session.PullOne` | ops/sync/session.go:67-85 | handling one pulled operation, own or foreign, with ReverseAppend on the linked stream, is the pull step of the protocol; what that step does to the value shown and to the changes underway says Conservation.StepShows |
| `Sessions.Session.Pull` | ops/sync/session.go:57-89 | pulls the entries in order, one pull step each; fails exactly if one is not the next version, having handled those before it |
| `Sessions.CanAlwaysPull` | ops/sync/session.go:57-89 | in a run of the protocol a client can pull as many operations as the log holds, and stays consistent with it |
| `Streams.Apply` | streams/stream.go:160-183 | Append and ReverseAppend on any node of a family: there is again exactly one terminal node, every route got one change longer, the returned node has the value with the change applied, and of the old nodes only the terminal one was written |
| `Streams.CarryOne` | streams/stream.go:173-183 | the roles: the change given to Append is the argument of the merge with a change on the way, the one given to ReverseAppend its receiver |
| `Streams.CarryConcat` | streams/stream.go:160-171 | a longer way is walked piece by piece, and from the terminal node a change goes in as it is |
| `Streams.CarryPasses` | streams/stream.go:160-171 | a change that needs no adjusting for what is on the way arrives as it is and leaves that as it was |
| `Streams.RouteLeads` | streams/stream.go:145-150 | the changes along the route of any node lead from its value to the terminal value, and only the terminal node has an empty route |
| `Streams.Latest` | streams/stream.go:201-211 | returns the terminal node and the joined changes on the way to it |
| `Branches.Play` | streams/stream.go:145-183 | after any sequence of appends on any nodes there is exactly one terminal node, and from every node returned the changes along its route lead to the same value |
| `Branches.Transfer` | streams/branch.go:69-86 | the merge loop carries every change across: the receiver gets, in order, each of them carried along the route that the ones before it leave behind, and nothing else; the cursors denote equal values again |
| `Branches.Branch.Merge` | streams/branch.go:69-86 | a call while a merge is going on does nothing; otherwise it carries everything across |
| `Branches.Branch.Push` | streams/branch.go:59-62 | moves both cursors and keeps their values equal, with exactly the downstream changes carried to the end of the upstream family |
| `Branches.Branch.Pull` | streams/branch.go:64-67 | the same in the other direction |
| `Branches.NewBranch` | streams/branch.go:13-17 | a new branch starts with a fresh downstream family of one node that denotes the upstream value |
| `Branches.PushPull` | streams/branch.go:59-86 | Push then Pull makes the latest upstream and downstream values equal without losing a change: the pushed changes, as carried over, lead to the new upstream value |
| `Branches.PullPush` | streams/branch.go:59-86 | so does Pull then Push: the pulled changes, as carried over, lead to the new downstream value |
| `Refs.PathTracks` | refs/path.go:59-101 | if following a path through a change gives a result, the value at the new path after the change is the old value with the scoped change applied |
| `Refs.FollowPassesLeaves` | refs/path.go:59-120 | a path is lost exactly when a basic part of the change replaces a value above its end or removes an element it goes through, and otherwise moves as these parts say one after another |
| `Refs.JoinChangesApply` | refs/refs.go:74-91 | joined changes do what the two do in order, and fail where these fail |
| `AffectedParts.UnaffectedSlides` | refs/path.go:59-120 | the unaffected part of any change and any change of the value at the path pass each other: either may come first |
| `AffectedParts.ScopedRebuilds` | refs/path.go:59-120 | for every change: the unaffected part, and then the scoped part at the path's final place, amount to the change |
| `AffectedParts.SplitsExactly` | refs/refs.go:53-61 | the documented equation, the unaffected and then the affected part amount to the change, holds if and only if after the unaffected part the affected part does what the scoped part does at the final path |
| `AffectedParts.SettledSplits` | refs/refs.go:53-61 | it holds whenever every part at or below the path, a nil included, happens while the path is where it is in the end |
| `AffectedParts.NilPartCounts` | refs/refs.go:53-61 | a nil has to be included: a concrete change with no basic part at or below the path for which the equation fails |
| `AffectedParts.DocumentedSplitFails` | refs/refs.go:53-61 | otherwise it can fail: a concrete value, path and change |
| `Refs.MergeResult.Join` | refs/refs.go:63-72 | overwrites the fields with the joined result, or gives nothing |
| `Refs.MergeResult.AddPrefix` | refs/refs.go:95-102 | puts the prefix on the path and on both parts, not on the scoped change |
| `Refs.MergePath` | refs/path.go:59-120 | the loops over path elements and over the members of a set compute the result that PathTracks is about |
| `Substreams.StaysInStep` | streams/substream.go:42-58 | a substream that is not dry always shows its parent's value at its current path, and the changes it emitted lead there |
| `Substreams.DriesExactly` | streams/substream.go:42-58 | it dries up exactly if the path gets lost among the parent's basic changes, taken one by one, and otherwise is at the path they lead to |
| `Substreams.AppendReachesParent` | streams/substream.go:60-78 | a change made on the substream applies to the parent exactly if it applies to the substream's value, and changes it as intended |
| `Substreams.AppendLeavesTheRest` | streams/substream.go:60-78 | and nothing beside the path changes |
| `Undo.UndoFindsTop` | streams/undo/stack.go:65-80 | for every list of entries that the two stacks of an editor accept, upstream entries included, the scan with its skip count finds the entry at that depth of the undo stack |
| `Undo.RedoFindsTop` | streams/undo/stack.go:82-99 | the same for redo, which a local entry clears |
| `Undo.UndoPicks` | streams/undo/stack.go:65-80 | without upstream entries undo picks the top of the stack, and cancelling leaves nothing above it |
| `Undo.RedoPicks` | streams/undo/stack.go:82-99 | the same for redo |
| `Undo.DocumentMatchesEditor` | streams/undo/stack.go:47-133 | without upstream entries, and with edits none of whose reverts back and forth is nil, the document always equals that of an editor that keeps two stacks of whole documents, and only an edit that does not apply is refused |
| `UndoLimits.NotLastingSlips` | streams/undo/stack.go:30-63 | any other edit, made after one that changes the document, is followed by undos and redos after which program and editor differ |
| `UndoableEdits.LastingExactly` | changes/changes.go:205-214 | the edits with lasting reverts are exactly those that contain a basic change, at any depth |
| `UndoableEdits.UndoMatches` | streams/undo/stack.go:47-133 | with all changes of the library, as long as every edit contains a basic change, undo and redo show the documents that the editor shows |
| `UpstreamUndo.UndoneClean` | streams/undo/stack.go:112-133 | an undone entry that simplify drops is always the revert of the entry it is dropped with, upstream entries and redos in between or not |
| `UpstreamUndo.PicksTops` | streams/undo/stack.go:65-99 | in every history of edits, undos, redos and upstream changes the entries are such a list, undo and redo pick the tops of the two stacks, and find nothing exactly if the stack is empty |
| `UpstreamUndo.UndoExactly` | streams/undo/stack.go:101-133 | exactly when undo and redo work, that is, apply and leave the document as it was before the entry picked followed by the later changes in the form they have without it: what simplify keeps leads from the document after that entry to the current one |
| `UpstreamUndo.UndoRemoves` | streams/undo/stack.go:101-133 | this is so in any history in which every pair that simplify leaves out is a change and its revert |
| `UpstreamUndo.UndoTakesBack` | streams/undo/stack.go:47-133 | in every history of edits, undos, redos and upstream changes in any order undo and redo work exactly under that condition, and in particular if each redone entry that simplify drops is dropped with the entry it redoes |
| `UpstreamUndo.NoRedoAligned` | streams/undo/stack.go:112-133 | which is always so without redo |
| `UndoMisses.UndoCanMiss` | streams/undo/stack.go:112-133 | with redo undo can miss: a concrete history after which it deletes at an index where another element is |
| `UndoStacks.Simplify` | streams/undo/stack.go:114-133 | the loop with two result stacks computes the cancelled list |
| `UndoStacks.Stack.PullChanges` | streams/undo/stack.go:30-38 | walks to the end of the stream and records every change on the way that is not nil |
| `UndoStacks.Stack.FindUndo` | streams/undo/stack.go:65-80 | the backward loop computes the scan |
| `UndoStacks.Stack.FindRedo` | streams/undo/stack.go:82-99 | the backward loop computes the scan |
| `UndoStacks.Stack.ChangeAt` | streams/undo/stack.go:101-110 | the revert of the entry, merged past what is left of the later changes |
| `UndoStacks.Stack.Undo` | streams/undo/stack.go:47-54 | on a linked stream, with whatever came from upstream recorded first, does one undo step of the history and moves to the end of the stream, if the undo change fits the document |
| `UndoStacks.Stack.Redo` | streams/undo/stack.go:56-63 | one redo step of the history, if the redo change fits the document |
| `UndoStacks.Stack.Append` | streams/undo/stream.go:22-29 | a change appended on any node of the stream is one local step of the history, in the form it has at the end of the stream |
| `Folds.AppendKeeps` | x/fold/fold.go:41-55 | it panics exactly for a nil change on a fold that is not nil; otherwise the change passed to the base applies there, and base value plus new fold is the folded value with the change; which of the two changes is passed on say AppendPasses, Independence.FoldsApart and FoldsBeside |
| `Folds.NextKeeps` | x/fold/fold.go:61-68 | it panics exactly at a nil change; otherwise the change passed to the reader applies to the folded value, and base value plus new fold is the result |
| `Folds.AppendPasses` | x/fold/fold.go:41-55 | a change that needs no adjusting for the revert of the fold goes to the base as it is, and the fold stays held back |
| `Folds.NextPasses` | x/fold/fold.go:61-68 | a change of the base that needs no adjusting for the fold goes to the reader as it is, and the fold stays held back |
| `Independence.FoldsApart` | x/fold/fold.go:41-68 | with a basic change held back at one path and a change at a path that branches off, the base or the reader gets the new change, and the held-back one stays |
| `Independence.FoldsBeside` | x/fold/fold.go:41-55 | in an array: the base gets the new run, at its index without the fold, and the held-back run stays held back, at its index with the new one |
| `Independence.UpstreamBeside` | x/fold/fold.go:61-68 | a run that arrives from upstream reaches the reader at its index with the fold, and the held-back run stays held back |
| `Folds.StepKeeps` | x/fold/fold.go:41-68 | a local or upstream change succeeds exactly if it applies where it is made and is not nil where the program calls it, and keeps base value plus fold equal to the folded value |
| `Folds.HistoryKeeps` | x/fold/fold.go:41-68 | so in every history of local and upstream changes that does not panic base value plus fold equals the folded value |
| `Folds.Append` | x/fold/fold.go:41-55 | on a linked stream: panics for a nil change on a fold that is not nil, and otherwise returns a stream that shows the value with the change applied; the fold and the change passed to the base are those of AppendPasses and Independence.FoldsBeside |
| `Folds.Next` | x/fold/fold.go:61-68 | on a linked stream: nothing at its end, a panic at a nil change; otherwise the next node, and the change leads from the value shown to the one shown there |
| `Reliables.OwnAppended` | test/testops/store.go:28-39 | delivering again what is partly there adds exactly the missing rest, in order |
| `Reliables.StepKeeps` | ops/sync/reliable.go:68-92 | every step keeps: at most one delivery running or reported, holding the front of the queue, and the queue is what is not yet acknowledged |
| `Reliables.DeliveredInOrder` | ops/sync/reliable.go:68-92 | in every run at most one delivery is running and the client's operations in the log are a prefix of what it handed over, in order, each exactly once, whatever the store reported; with the queue empty all are there |
| `Reliables.Reliable.RunJob` | ops/sync/reliable.go:68-92 | adding to the queue or removing what was delivered, and starting the next delivery |
| `Reliables.Reliable.Deliver` | ops/sync/reliable.go:79-92 | one call of the store by a delivery; success ends it and sends a job |
| `Precedence.SplitPeel` | x/rich/eval/parser.go:121-127 | splitting at the last operator that binds least agrees with resolving the leftmost one first |
| `Precedence.ReadKeepsMeaning` | x/rich/eval/parser.go:66-91 | reading an operator or a call keeps the meaning of stacks and items to come, with the operator stack strictly increasing and one more term than operators |
| `Precedence.StacksSplit` | x/rich/eval/parser.go:53-127 | for every operand and everything that follows it the two stacks give the tree of the declarative definition |
| `Parser.ReadsBack` | x/rich/eval/parser.go:53-119 | every written expression, with prefix operators, groups, calls and perhaps a missing last operand, is read back as its tree, and nothing behind it is touched |
| `Parser.OnlyExpressions` | x/rich/eval/parser.go:53-119 | nothing else is read: tokens that give a tree are a written expression and what follows it, which is nothing or the end of a group |
| `Parser.Merge` | x/rich/eval/parser.go:121-127 | the loop popping both stacks computes the merge |
| `Parser.ParseTokens` | x/rich/eval/parser.go:53-109 | the loop over the tokens computes the reading that ReadsBack is about, errors included |
| `Parser.ParseGroupTokens` | x/rich/eval/parser.go:111-119 | reads up to the end of the group and fails without it |

## Left out

- Firmness.MergeEnds: does not cover every pair of changes. One pair of moves of several elements, or a splice and such a move, can turn into two changes on either side (changes/move.go:128-166), and whether merging sets of them on both sides always ends is not settled here; `MergeConverges` holds for every merge that returns, and `ReturnsExactly` reduces the question to lists of basic changes.
- ClientsConverge: speaks of documents that are live at one client, for the same reason; `PlainClientsConverge` needs no such condition.
- EveryOperationLasts: asks that every operation is one change at a path; a push of several edits makes a set of changes. `StepShows` says what becomes of any changes, step by step, in terms of the merges.
- SettledSplits: is a condition on the change alone; whether the equation holds also depends on the value, and `SplitsExactly` is the exact law.
- Stack.Undo: asks that the undo change fits the document, and so does Stack.Redo for its change. The program appends a change that does not fit all the same, and what a value then does with it is not modelled; `UndoExactly` says when the change is the right one.
- HistoryKeeps: leaves out ReverseAppend on folded streams, which panics in the program, and Unfold.
- Custom changes, Meta and its contexts, and values other than arrays and objects (strings, counters, CRDT containers): the same merges over other element types.
- changes/run, x/rich text and attributes, changes/crdt, diff, x/heap.
- Integers are unbounded, and a Move has a count of at least zero.
- Slice aliasing and typed nil values; nil is the change Noop.
- Session: the error from making a new id, resuming from stored state, logging and polling. Ids are a client number and a serial number.
- Reliable delivery: the retry timer and backoff; a delivery may call the store at any time.
- The scanner of the expression parser: an expression is a list of tokens. Error texts and offsets.
- refs.Container, refs.Update, carets and ranges, and custom path mergers.
- Network, database and process code, and code generation.
