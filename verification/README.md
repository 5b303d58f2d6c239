# Flywheel verification

A Dafny model of the parts of the agent flywheel in which most can go wrong, with proofs of
what they promise. `dafny verify dfyconfig.toml` checks all of it.

The files follow the program's components:

- **Dependency graph and waves.** `Graphs` defines walks, reachability and cycles.
  `Tarjan` is the iterative search for strongly connected components with its explicit call
  stack; `BeadGraph` builds the bead graph on it and lists the cycles. `ExecutionOrder` is
  Kahn's algorithm, `ParallelGroups` the levels, `PlanSimulation` the file conflicts and the
  verdict. `CycleAgreement` shows that the two ways of finding cycles agree.
- **Protocols that survive crashes and repetition.** `VerificationLedger` (any number of
  processes appending to one file), `CommitBatch` and `OverlappingReviews` (beads for the
  findings of a batch review), `Checkpoint` (write, rename, read back), `Reservations` (file
  reservations with a retry) and `OutcomeGrading` (locks, verdict files, history). Where several processes or calls
  interleave, the model is a system of small steps whose order, failures and crashes the
  environment chooses, and the theorems are about all runs. Objects that the source updates
  in place are classes, whose methods are proved against functions on the state.
- **Printers and parsers.** `Escaping`, `RubricScalars`, `RubricGrammar`, `RubricLines`,
  `Rubrics` and `RubricRoundTrip` are the front matter of rubrics, written and read back, and
  `RubricForms`, `RubricReadings`, `RubricComments` and `RubricSchema` say part by part what is written and read;
  `JsonStrings` and `CanonicalJson` the canonical JSON text; `SkillText`, `SkillsWalk`,
  `SkillsBundle`, `SkillFiles`, `SkillsServing` and `SkillsCheck` the skills bundle.
- **Numbers.** `EditDistance` (typo suggestions), `LineDiff` and `Convergence` (the score of a
  plan's revisions).

`Options`, `Selections`, `OrderedMaps`, `Sorting`, `Splitting` and `Beads` are shared.

Things the program takes from elsewhere are parameters: JSON parsing, hashes, dates, sizes,
number printing, what the file system or a server answers, and when a process dies. A hash is
assumed to be free of collisions only where a lemma says so. JavaScript strings are sequences
of UTF-16 code units where their order or encoding matters (`Text`), and Dafny strings in the
rubric and skill text parsers, which never look inside a surrogate pair.

Several promises hold only under a condition. There the code is modelled as it is, and the
theorem is an equivalence with the condition, next to an input that shows the failure:

- The documented law that a parsed rubric survives rendering and parsing again fails for
  weights that print with an exponent (`ParseRenderParse`, `ExponentLosesWeight`); for rubrics
  from elsewhere it also fails for strings that look like a boolean or a number, or that
  contain a line break (`RoundTripIff`).
- A batch-review verdict that changes between two calls loses findings
  (`AlignedIff`, `ApplyAlignsExactly`, `RepairedVerdictLosesFirstFinding`).
- Two calls on one range that overlap file its findings twice (`FiledOnceIff`,
  `TwoCallsFileTwice`).
- A failed reservation can leave something held, when the id of a grant is not sent back as
  the server knows it (`FailureHoldsNothingMore`, `EmptyIdStaysHeld`, `RoundedIdStaysHeld`,
  `DigitIdStaysHeld`).
- A row of the ledger can share its line with a torn one, when the tear falls between the
  look at the file and the write (`AcknowledgedRowsAndTornWrites`,
  `TornWriteInWindowSharesLine`).
- A forced grading call that is made while another one is in flight breaks the lock and can
  make an unforced call overwrite a verdict file (`LockWorksIff`, `SecondGraderIff`,
  `OverwriteIff`, `ForcedCallIsOverwritten`, `ForcedCallDropsLock`), and calls that overlap
  break the numbering of iterations (`IterationIsPositionIff`, `TwoPlansShareIterations`).
- A bundled skill can differ from its file without a warning, when another file has the same
  name (`BundleAgreesWithDiskIff`, `AgreesOnListingsIff`, `ShadowedStartFile`), and a bundle
  that has just been built can fail its own check (`FreshBuildAcceptedIff`,
  `SkippedSkillIsDrift`).
- A bead that lists a file twice conflicts with itself as soon as another one is in its wave
  (`VerdictIsExact`, `DoubleListingConflictsWithItself`).

## Model

| member | source | states |
|---|---|---|
| `Tarjan.TarjanSCC` | mcp-server/src/bead-graph.ts:58-131 | For every finite graph the loop with the explicit call stack terminates; each emitted component is a maximal set of nodes that reach each other, every node reachable from the given ids is in exactly one, and no edge leads into a component emitted later (reverse topological order). |
| `Tarjan.PlacesDecompose` | mcp-server/src/bead-graph.ts:58-131 | No id is in two components, the components cover what is reachable, and an edge leads into the component of its source or an earlier one. |
| `Tarjan.ScanNeighbours` | mcp-server/src/bead-graph.ts:89-102 | The inner loop stops at the first neighbour that was not entered, after lowering the lowlink by the indices of those still on the stack, and keeps the whole search invariant. |
| `Tarjan.PopComponent` | mcp-server/src/bead-graph.ts:115-123 | Popping down to the node takes exactly the top segment of the stack, clears its on-stack marks, and leaves everything below alone. |
| `Tarjan.EnterKeepsInv` | mcp-server/src/bead-graph.ts:80-84 | Entering a node (index, lowlink, stack) keeps the invariant of stack, indices, call frames, reachability, lowlinks and finished components. |
| `Tarjan.ScanKeepsInv` | mcp-server/src/bead-graph.ts:89-102 | Looking at one neighbour keeps the invariant; this is where a lowlink may drop to the index of a node on the stack. |
| `Tarjan.ReturnKeepsInv` | mcp-server/src/bead-graph.ts:105-112 | Leaving a node whose lowlink is below its index, handing the lowlink to the caller, keeps the invariant. |
| `Tarjan.CompletionKeepsInv` | mcp-server/src/bead-graph.ts:114-124 | Emitting a component keeps the invariant. |
| `Tarjan.SegmentIsComponent` | mcp-server/src/bead-graph.ts:114-124 | When lowlink equals index, the part of the stack from the node on is a strongly connected component: connected, and nothing outside it is mutually reachable. |
| `Tarjan.DecompositionIsComplete` | mcp-server/src/bead-graph.ts:74-131 | When the roots are used up, the emitted components cover exactly what is reachable from them. |
| `BeadGraph.BuildBeadGraph` | mcp-server/src/bead-graph.ts:135-229 | Nodes are the readable rows in order; the first edges come from the explicit rows with both ends listed, one each and in order, with the ends and the type of the row, or "blocks" where it gives none; after them stand the inline dependencies that are new, in the order in which the rows first mention them; the listed cycles are exactly the nodes on a directed cycle, each in one cycle, sorted by smallest id. |
| `BeadGraph.CollectExplicit` | mcp-server/src/bead-graph.ts:160-171 | The explicit edges are kept in order, with "blocks" as the default type, when both ends are known ids. |
| `BeadGraph.ExplicitComeFromRows` | mcp-server/src/bead-graph.ts:160-171 | Each explicit edge stands for one row, and the rows for which there is one are those with both ends listed, in order, each with its own type. |
| `BeadGraph.CollectInline` | mcp-server/src/bead-graph.ts:173-187 | Inline dependencies add an edge exactly when the pair has none yet, in the order in which the pairs are first listed, and never touch the edges already there. |
| `BeadGraph.InlineFollowMentions` | mcp-server/src/bead-graph.ts:173-187 | The inline edges stand in the order of the first mentions of their pairs, row by row and place by place. |
| `BeadGraph.PickCycles` | mcp-server/src/bead-graph.ts:201-215 | Of the components, those with two nodes or a self-loop are kept: a node is listed if and only if it lies on a directed cycle, and in one cycle only. |
| `BeadGraph.ComponentOnCycle` | mcp-server/src/bead-graph.ts:207-214 | A node of a component lies on a cycle exactly when the component has at least two nodes or the node has an edge to itself. |
| `BeadGraph.SortedCycles` | mcp-server/src/bead-graph.ts:217-224 | Sorting the cycles keeps them and puts them in ascending order of their smallest ids, which are all different. |
| `Options.PresentPicks` | mcp-server/src/bead-graph.ts:141-154 | The rows that count are those that pass their schema, one each and in their order. |
| `ExecutionOrder.ComputeExecutionOrder` | mcp-server/src/plan-simulation.ts:72-119 | Returns an order, or the ids left over; an order is returned if and only if ids are distinct and the in-set dependencies have no cycle, and it is a permutation of the ids with every in-set dependency earlier. |
| `ExecutionOrder.BuildTables` | mcp-server/src/plan-simulation.ts:75-91 | The degree of a bead counts its in-set dependencies with repetitions, and the dependents mirror them. |
| `ExecutionOrder.OrderFromTables` | mcp-server/src/plan-simulation.ts:93-107 | Kahn's loop ends with every id whose dependencies are all ordered, each once, dependencies first. |
| `ExecutionOrder.OrderedIffNoCycleAhead` | mcp-server/src/plan-simulation.ts:98-107 | A bead is ordered exactly when no dependency chain from it runs into a cycle. |
| `ExecutionOrder.CompleteIffAcyclic` | mcp-server/src/plan-simulation.ts:109-119 | All ids are ordered exactly when the dependency graph is acyclic. |
| `ExecutionOrder.VerdictIsRight` | mcp-server/src/plan-simulation.ts:109-119 | Comparing the number of ordered ids with the number of beads gives the right verdict also when ids repeat: a repeated id always makes the order fail. |
| `ExecutionOrder.RemainingReachesCycle` | mcp-server/src/plan-simulation.ts:110-116 | With distinct ids, every bead named in the error has a dependency chain that leads into a cycle. |
| `CycleAgreement.OrderExistsIffNoCyclesReported` | mcp-server/src/plan-simulation.ts:64-119 | The two ways of deciding on cycles agree: on rows and explicit dependency rows that say the same as the beads, in whatever mixture, the scheduler finds an order exactly when ids are distinct and the bead graph lists no cycle. |
| `ParallelGroups.LevelSearch.GetLevel` | mcp-server/src/plan-simulation.ts:136-164 | The memoised recursion gives a bead the length of its longest dependency chain, and keeps every level found so far. |
| `ParallelGroups.LevelSearch.LevelOfDeps` | mcp-server/src/plan-simulation.ts:153-158 | The loop over the dependencies finds the largest of their levels, skipping those outside the set. |
| `ParallelGroups.ComputeParallelGroups` | mcp-server/src/plan-simulation.ts:128-177 | Every id is in exactly one group; when the plan can run, the group number is the length of the longest in-set dependency chain, no group is empty, dependencies are in earlier groups, no path links two beads of a group, and no layering that respects the dependencies is shorter. |
| `ParallelGroups.LevelFromSuccessors` | mcp-server/src/plan-simulation.ts:153-162 | One more than the largest level of the dependencies is the length of the longest chain, defined independently by walks. |
| `ParallelGroups.GroupsAreInhabited` | mcp-server/src/plan-simulation.ts:170-177 | No group is empty. |
| `ParallelGroups.GroupsRespectDeps` | mcp-server/src/plan-simulation.ts:121-127 | Every dependency, direct or through others, is in an earlier group. |
| `ParallelGroups.GroupMembersAreIndependent` | mcp-server/src/plan-simulation.ts:121-127 | No two beads of a group are linked by a dependency path. |
| `ParallelGroups.GroupsAreFewest` | mcp-server/src/plan-simulation.ts:121-127 | No layering that respects the dependencies has fewer groups. |
| `ParallelGroups.LevelsAreMinimalWaves` | mcp-server/src/plan-simulation.ts:121-177 | Groups by longest dependency chain, with a last group that is not empty, are such a layering of the plan: inhabited, respecting, independent and fewest. |
| `ParallelGroups.LevelGraphIsDepGraph` | mcp-server/src/plan-simulation.ts:131-137 | Looking dependencies up in the bead map gives the graph of in-set dependencies when ids are distinct. |
| `PlanSimulation.DetectInGroup` | mcp-server/src/plan-simulation.ts:192-212 | Within a group of at least two, each file touched more than once is reported once, with exactly the beads that list it, in group order and as often as they list it; the conflicts are in the order in which their files are first listed; nothing else is reported. |
| `PlanSimulation.TouchingInGroupOrder` | mcp-server/src/plan-simulation.ts:197-206 | The beads of a conflict stand in the order of the group, each as often as it lists the file. |
| `PlanSimulation.FirstsStandFirst` | mcp-server/src/plan-simulation.ts:195-208 | The files are looked at once each, in the order in which the group first lists them. |
| `PlanSimulation.ConflictsPick` | mcp-server/src/plan-simulation.ts:207-211 | Of these files, exactly those that are listed more than once are reported, in that order. |
| `PlanSimulation.DetectFileConflicts` | mcp-server/src/plan-simulation.ts:185-216 | The conflicts of all groups, one group after another. |
| `PlanSimulation.DetectMissingFiles` | mcp-server/src/plan-simulation.ts:226-241 | Exactly the listed files that the repository does not have, with the bead that lists them. |
| `PlanSimulation.SimulateExecutionPaths` | mcp-server/src/plan-simulation.ts:248-296 | Order, groups, conflicts and missing files as their own checks say; without an order everything is empty; when the plan can run the waves are the fewest possible, none of them empty and none with linked beads; the plan is valid if and only if it can run, no wave shares a file, every file exists, and no bead that has company in its wave lists a file twice. |
| `PlanSimulation.ValidPlanIsSafe` | mcp-server/src/plan-simulation.ts:248-296 | In a valid plan beads that share a file are in different waves, dependencies finish in earlier waves, and all files exist. |
| `PlanSimulation.VerdictIsExact` | mcp-server/src/plan-simulation.ts:286-288 | For every plan: valid if and only if it can run, no wave shares a file, no file is missing, and no bead in a wave of two or more lists a file twice. |
| `PlanSimulation.SharedFileIsReported` | mcp-server/src/plan-simulation.ts:197-212 | A file that two beads of a group list is reported. |
| `PlanSimulation.ReportedFileIsShared` | mcp-server/src/plan-simulation.ts:207-211 | A reported file is shared by two different beads of the group or listed twice by one of them, and the group has at least two beads. |
| `PlanSimulation.DoubleListingIsReported` | mcp-server/src/plan-simulation.ts:200-211 | In a group of at least two, a file that one bead lists twice is reported, whoever else lists it. |
| `PlanSimulation.DoubleListingConflictsWithItself` | mcp-server/src/plan-simulation.ts:200-211 | The plans that show it: two beads without dependencies, one of which repeats any file in its list, never make a valid plan, whatever else they list and whatever files exist. |
| `VerificationLedger.RowRoundTrip` | mcp-server/src/completion-report.ts:482-484 | A row is one line, and splitting it on tabs gives back the eight sanitised fields. |
| `VerificationLedger.CollapseHasNoBreaks` | mcp-server/src/completion-report.ts:482-484 | No tab and no line break is left in a sanitised field. |
| `VerificationLedger.CollapseKeepsCleanFields` | mcp-server/src/completion-report.ts:482-484 | A field without tabs and line breaks is written as it is. |
| `VerificationLedger.FieldOfTextAndBreaks` | mcp-server/src/completion-report.ts:482-484 | A run of tabs and line breaks, however long and wherever it stands, becomes one space. |
| `VerificationLedger.FieldsByPlace` | mcp-server/src/completion-report.ts:521-533 | Which field stands at which place, and which of three times the first one holds. |
| `VerificationLedger.StepKeepsInv` | mcp-server/src/completion-report.ts:496-556 | Every step of every writer (look, link, stat, read the last byte, one append that may be short, acknowledge, crash) keeps the invariant that ties the file to the log of writes and each writer to what it saw. |
| `VerificationLedger.RunKeepsInv` | mcp-server/src/completion-report.ts:496-556 | The invariant holds after any interleaving of any number of writers with crashes and short writes. |
| `VerificationLedger.LedgerIsHeaderThenRows` | mcp-server/src/completion-report.ts:503-550 | For any interleaving with no torn write the file, once it exists, is the header followed by whole rows in write order, and every acknowledged append is in it exactly once. |
| `VerificationLedger.AcknowledgedRowsAndTornWrites` | mcp-server/src/completion-report.ts:534-550 | With torn writes anywhere, an acknowledged row stands at the place of its write, on a line of its own if and only if its writer saw an unfinished line and closes it, or the last write between its stat and its write that left anything left the end of a line; then splitting that line on tabs gives the eight sanitised fields, and otherwise the line has a torn fragment before the row. |
| `VerificationLedger.StartsLineIff` | mcp-server/src/completion-report.ts:534-550 | When a write starts a line, in terms of the interleaving alone: it brings a newline, or of the writes in its window the last that left anything was complete or cut right after the newline that it brought. |
| `VerificationLedger.RowsAreOnDifferentLines` | mcp-server/src/completion-report.ts:546-550 | Complete rows are on different lines of the file, also when their texts are the same. |
| `VerificationLedger.TornWriteInWindowSharesLine` | mcp-server/src/completion-report.ts:534-545 | The window between stat and write is a real race: an interleaving in which a torn write inside it shares a line with an acknowledged row. |
| `CommitBatch.DispatchIsPendingOnce` | mcp-server/src/commit-batch.ts:67-71 | A dispatched range is pending, once however often it is dispatched; other ranges and all recorded ids stay. |
| `CommitBatch.BaselineIsLastDispatched` | mcp-server/src/commit-batch.ts:67-71 | After any run of dispatches and applications the baseline is the end of the range dispatched last, and there is none before the first. |
| `CommitBatch.BaselineStaysAtHead` | mcp-server/src/commit-batch.ts:67-71 | After the dispatch of base..head and any applications of verdicts the baseline is head. |
| `CommitBatch.EndShaOfRange` | mcp-server/src/commit-batch.ts:68 | The baseline of a range base..head is head. |
| `CommitBatch.EndShaIsSecondPiece` | mcp-server/src/commit-batch.ts:68 | For any text at all, the new baseline is what lies between its first double dots and the next ones or the end, and there is none exactly when the text has no double dots. |
| `CommitBatch.IdList.FileMissing` | mcp-server/src/commit-batch.ts:169-199 | The loop calls br for the findings beyond the recorded ids, in order, pushes each id as soon as it comes, and stops at the first failed call or empty answer. |
| `CommitBatch.FlywheelState.FileFindingBeads` | mcp-server/src/commit-batch.ts:156-200 | The array that the state holds is the one the loop pushes into, so that the ids are recorded whether or not the call succeeds. |
| `CommitBatch.SettleUndoesDispatch` | mcp-server/src/commit-batch.ts:202-205 | A settled range is no longer pending and no other range is touched; settling undoes a dispatch and keeps the recorded ids, so that a late repetition finds them. |
| `CommitBatch.FlywheelState.ApplyBatchReviewVerdict` | mcp-server/src/commit-batch.ts:89-119 | An absent verdict changes nothing; a readable or malformed one files what is missing and settles the range only when every finding has its bead. |
| `CommitBatch.OutcomeMeans` | mcp-server/src/commit-batch.ts:89-119 | When a call reports pending, filed, malformed or an error: it is filed exactly when there is an id for every finding, with all of them, and then the range is no longer pending; an absent or unreadable file changes nothing. |
| `CommitBatch.MalformedIsOneFinding` | mcp-server/src/commit-batch.ts:139-154 | A malformed verdict stands for one finding of high severity that names the range and the file. |
| `CommitBatch.AcceptedIsPrefix` | mcp-server/src/commit-batch.ts:169-199 | The ids taken over are the answers up to the first that failed or was empty, at most one per missing finding. |
| `CommitBatch.RunsKeepIdsInOrder` | mcp-server/src/commit-batch.ts:163-199 | After any run, whatever the verdicts say, the recorded ids of a range are br's answers in the order of the findings, and no place is filed twice. |
| `CommitBatch.AlignedIff` | mcp-server/src/commit-batch.ts:163-199 | After any run the recorded ids belong to the findings of a verdict one by one if and only if every call that filed something read what this verdict has at those places. |
| `CommitBatch.RunsStayAligned` | mcp-server/src/commit-batch.ts:81-88 | In particular, while the verdict does not change, the ids recorded for a range are the ids br gave, one per finding and in order, and no finding was filed twice, with br failing anywhere. |
| `CommitBatch.ApplyAlignsExactly` | mcp-server/src/commit-batch.ts:163-199 | After any run, one more call keeps ids and findings aligned exactly when they were aligned with the verdict it reads before the call. |
| `CommitBatch.LeavesPendingOnlyWhenFiled` | mcp-server/src/commit-batch.ts:81-88 | In any run a range leaves the pending ones only by a call after which it has at least as many ids as its verdict has findings; they are the beads of exactly these findings if and only if they agreed with it before the call. |
| `CommitBatch.ReapplyCreatesNothing` | mcp-server/src/commit-batch.ts:84-86 | Applying a finished range again, after any other calls, hands nothing to br and returns the same ids. |
| `CommitBatch.RepairedVerdictLosesFirstFinding` | mcp-server/src/commit-batch.ts:101-116 | Where the promise ends: a verdict that is malformed at first and repaired later is reported as filed although its only finding never got a bead. |
| `OverlappingReviews.FiledOnceIff` | mcp-server/src/commit-batch.ts:163-199 | However calls on one range overlap, interleave and fail, no finding gets a second bead if and only if no call files a finding after another one has pushed an id since it began; then the ids stand at the places of their findings. |
| `OverlappingReviews.TwoCallsFileTwice` | mcp-server/src/commit-batch.ts:163-199 | Two calls that begin together on a range with one finding make two beads for it. |
| `Checkpoint.CheckpointDir.WriteCheckpointInner` | mcp-server/src/checkpoint.ts:156-192 | Writes the temporary file, then renames it; a failure or a death at any point leaves the checkpoint file as it was. |
| `Checkpoint.WriteTouches` | mcp-server/src/checkpoint.ts:156-192 | A write changes the checkpoint only by its rename, which takes the whole text; otherwise it leaves the temporary file alone or with a prefix of the text. |
| `Checkpoint.CheckpointDir.ReadCheckpoint` | mcp-server/src/checkpoint.ts:227-272 | Returns the stored envelope with its warnings, sets a broken file aside, and removes an orphaned temporary file when there is no checkpoint. |
| `Checkpoint.BrokenIsSetAside` | mcp-server/src/checkpoint.ts:299-333 | A read of a broken checkpoint loses its bytes only when they could not be moved and were deleted instead; what is left gives nothing to the next read; a valid checkpoint is never moved. |
| `Checkpoint.OrphansGo` | mcp-server/src/checkpoint.ts:227-234 | A read that finds no checkpoint removes a temporary file that was left behind; one that finds a checkpoint never touches it. |
| `Checkpoint.ClearedReadsNothing` | mcp-server/src/checkpoint.ts:280-295 | From a clear that deletes the file until the next write that reaches its rename, whatever else happens, every read gives nothing. |
| `Checkpoint.OwnEnvelopeValidates` | mcp-server/src/checkpoint.ts:86-145 | An envelope that the program writes validates when read back, exactly when its state has a phase. |
| `Checkpoint.RulesOfEnvelopes` | mcp-server/src/checkpoint.ts:86-145 | What a valid envelope has, rule by rule. |
| `Checkpoint.KeptRulesMakeValid` | mcp-server/src/checkpoint.ts:86-145 | Whatever keeps these rules is valid, with the current name of the version or the older one. |
| `Checkpoint.MissingFieldsAreNamed` | mcp-server/src/checkpoint.ts:93-119 | An envelope of the program's own with one field taken out gets the complaint about that field. |
| `Checkpoint.ChangedStateIsRejected` | mcp-server/src/checkpoint.ts:122-129 | A valid checkpoint whose state is replaced by another stays valid exactly when the new state has a phase and the same digest. |
| `Checkpoint.Warnings` | mcp-server/src/checkpoint.ts:137-144 | A version warning exactly for another version. |
| `Checkpoint.ReadsGiveLastWrite` | mcp-server/src/checkpoint.ts:147-272 | Over any run with crashes during or after the temporary write, a read gives nothing or the complete envelope of the last write that reached its rename since the last clear, and exactly that when the file can be read and its state has a phase; only this one envelope has to print as JSON that parses as itself. |
| `Checkpoint.WritesRunInCallOrder` | mcp-server/src/checkpoint.ts:201-210 | The writes tried since the process started are a prefix of those asked for, in the same order, and the rest are still queued. |
| `Checkpoint.LateChangeIsWritten` | mcp-server/src/checkpoint.ts:201-208 | A queued write takes the state as it is when it runs: a change made after the call is written. |
| `Checkpoint.QueueDrains` | mcp-server/src/checkpoint.ts:194-210 | Running the queue decides every queued write, in order, whatever becomes of the ones before it. |
| `Checkpoint.RunKeepsInv` | mcp-server/src/checkpoint.ts:147-333 | What the file holds, what reads gave, and which writes were tried agree with the notes of an outside observer after any run. |
| `Reservations.Agent.ExtractIds` | mcp-server/src/agent-mail-helpers.ts:83-92 | The ids of the grants that are numbers or strings, in order. |
| `Reservations.Agent.ReleaseReservations` | mcp-server/src/agent-mail-helpers.ts:252-291 | Sends digit strings as numbers and other non-empty strings as they are, skips the rest, makes no call when nothing is left, and counts what was released. |
| `Reservations.Agent.AttemptReserve` | mcp-server/src/agent-mail-helpers.ts:94-132 | A non-empty conflict list is a conflict whatever was granted beside it; no grants at all is an empty response. |
| `Reservations.Agent.ReserveOrFail` | mcp-server/src/agent-mail-helpers.ts:156-240 | At most two reserve calls, the second only after a conflict; the result says what the last reply says, and on success it has the number and text ids of its grants, one each and in order; the holdings are those that the attempts and releases leave. |
| `Reservations.VerdictAnswers` | mcp-server/src/agent-mail-helpers.ts:105-132 | Which result stands for which reply: an error, conflicts whatever was granted beside them, nothing at all, or grants with their ids. |
| `Reservations.ReleaseReports` | mcp-server/src/agent-mail-helpers.ts:252-291 | What a release reports: nothing to send, the server's refusal, its count, or else how many ids were sent. |
| `Reservations.AttemptRestoresIff` | mcp-server/src/agent-mail-helpers.ts:210-231 | Against a server that grants new ids and reports its own, one attempt leaves the holdings as they were if and only if every grant stood beside a conflict, its release was carried out, and its id was sent back as the server's own. |
| `Reservations.SentAsItselfIff` | mcp-server/src/agent-mail-helpers.ts:258-266 | Which ids are sent back as the server's own: the numbers that rounding leaves alone, reported as numbers or as digits, and the texts that are neither empty nor digits. |
| `Reservations.SecondAttemptDoesNotHelp` | mcp-server/src/agent-mail-helpers.ts:219-231 | What a first attempt leaves behind is never made good by the second one, even when that one releases something it did not make. |
| `Reservations.FailureHoldsNothingMore` | mcp-server/src/agent-mail-helpers.ts:143-155 | A failing call leaves the holdings as they were if and only if each of its attempts leaves nothing: every grant stood beside a conflict, its release was carried out, and its id was sent back as the server's own. |
| `Reservations.SuccessAddsLastGrants` | mcp-server/src/agent-mail-helpers.ts:177-184 | A successful call adds exactly the grants of its last attempt, if and only if a conflicting attempt before it left nothing. |
| `Reservations.ReleaseUndoesReserve` | mcp-server/src/agent-mail-helpers.ts:242-270 | Releasing the returned ids gives back the old holdings exactly when every id is sent back as the server's own. |
| `Reservations.ReleasingTheResultUndoes` | mcp-server/src/agent-mail-helpers.ts:177-291 | Releasing the ids in the result of a successful call gives back the old holdings if and only if every id is sent back as the server's own and a conflicting attempt before it left nothing. |
| `Reservations.EmptyIdStaysHeld` | mcp-server/src/agent-mail-helpers.ts:261-269 | The grant that is never given back: one with an empty string as its id beside a conflict. |
| `Reservations.RoundedIdStaysHeld` | mcp-server/src/agent-mail-helpers.ts:258-266 | A grant whose id is a number that reading the reply rounds to another one stays held, too. |
| `Reservations.DigitIdStaysHeld` | mcp-server/src/agent-mail-helpers.ts:258-266 | So does one whose id is a text of digits, because it is sent as a number; and the agent loses what it held under that number. |
| `Reservations.WiresAreSent` | mcp-server/src/agent-mail-helpers.ts:260-270 | An id is sent in a release exactly when some grant reports it in a form that can be sent. |
| `Reservations.WiresAreForms` | mcp-server/src/agent-mail-helpers.ts:258-267 | What is sent are the forms of the ids that have one, one each and in order. |
| `Reservations.FormsById` | mcp-server/src/agent-mail-helpers.ts:258-267 | The form of each kind of id: a number as it is, decimal digits as the number they spell, other text as it is, and nothing for the rest. |
| `OutcomeGrading.GetMaxOutcomeIterations` | mcp-server/src/outcome-grading.ts:97-100 | The cap is between one and five, three when unset, and the given value when it is in range. |
| `OutcomeGrading.Session.Begin` | mcp-server/src/outcome-grading.ts:1390-1439 | The checks up to the first pause, in order: skipped, no rubric path, lock, rubric file, rubric syntax, verdict file; the lock is taken before the last three and given up when one of them fails. |
| `OutcomeGrading.BeginMeans` | mcp-server/src/outcome-grading.ts:1390-1439 | When a call starts, and when it gets which complaint. |
| `OutcomeGrading.BeginTouchesOneLock` | mcp-server/src/outcome-grading.ts:1403-1427 | A call that starts has the next iteration and the configured cap between one and five, and nothing but the lock of its slug is touched. |
| `OutcomeGrading.Session.Persist` | mcp-server/src/outcome-grading.ts:1541-1568 | Coerces the status at the cap, writes the verdict file, and goes on when the disk is full. |
| `OutcomeGrading.RecordedAnswer` | mcp-server/src/outcome-grading.ts:1547-1600 | Over any run, every recorded grade is what its grader answered, except that a call for another revision at or above the cap is recorded as iterations used up, and it says whether its file was written. |
| `OutcomeGrading.FileHoldsAnswer` | mcp-server/src/outcome-grading.ts:1564-1568 | Over any run, a verdict file holds the answer given in the call that wrote it last, with the same exception. |
| `OutcomeGrading.Session.Record` | mcp-server/src/outcome-grading.ts:1570-1577 | Appends the grade, drops the oldest beyond five, and gives up the lock. |
| `OutcomeGrading.HistoryAndCapHold` | mcp-server/src/outcome-grading.ts:1547-1577 | However calls interleave, the history is the last five recorded grades, and no recorded grade at or above its cap asks for another revision. |
| `OutcomeGrading.IterationIsPositionIff` | mcp-server/src/outcome-grading.ts:1427 | The k-th recorded grade has iteration min(k, 6) exactly when no grade was recorded between its start and its end, or five had been recorded when it started. |
| `OutcomeGrading.KthGradeHasIterationK` | mcp-server/src/outcome-grading.ts:1404-1427 | In any run whose calls do not overlap, forced or not and on whatever plans, the k-th recorded grade has iteration min(k, 6). |
| `OutcomeGrading.OnePlanTakesTurns` | mcp-server/src/outcome-grading.ts:1404-1439 | With one plan the lock makes calls take turns, unless a forced one is made while another is in flight. |
| `OutcomeGrading.LockWorksIff` | mcp-server/src/outcome-grading.ts:1404-1410 | At every point of a run at most one grader for a slug is in flight and the lock is held exactly then, if and only if no forced call on the slug is made while another is in flight. |
| `OutcomeGrading.SecondGraderIff` | mcp-server/src/outcome-grading.ts:1404-1410 | Some point of a run can be continued by unforced calls so that two graders for a slug are in flight, if and only if the run has a forced call on the slug while another is in flight. |
| `OutcomeGrading.OverwriteIff` | mcp-server/src/outcome-grading.ts:1429-1555 | An unforced call overwrites a verdict file if and only if, between its start and its own write, another call has written the file of the same slug and iteration and nobody has deleted it since. |
| `OutcomeGrading.UnforcedCallsNeverOverwrite` | mcp-server/src/outcome-grading.ts:1429-1439 | No unforced call on a slug overwrites a verdict file, whatever files were there before, unless a forced call on the slug is made while another is in flight. |
| `OutcomeGrading.AtMostSixGrades` | mcp-server/src/outcome-grading.ts:1427-1577 | On one plan, without forced calls, failed writes or deleted files, at most six grades are ever recorded. |
| `OutcomeGrading.RunKeepsInv` | mcp-server/src/outcome-grading.ts:1379-1611 | History, iterations and capped verdicts are as stated after any run of calls, failures, deletions and crashes. |
| `OutcomeGrading.TwoPlansShareIterations` | mcp-server/src/outcome-grading.ts:1427 | Two plans graded at once share one history and both get iteration one. |
| `OutcomeGrading.ForcedCallIsOverwritten` | mcp-server/src/outcome-grading.ts:1433-1439 | Beside a forced call an unforced one can overwrite a verdict file. |
| `OutcomeGrading.ForcedCallDropsLock` | mcp-server/src/outcome-grading.ts:1606-1610 | A forced call that ends takes away the lock of the call it ran beside, so that a third can start. |
| `Escaping.ThreePassesUndoTwo` | mcp-server/src/outcome-grading.ts:420-433 | The three replacements of unquoting undo the two of quoting on every text, although one of the three is for a mark that was never escaped. |
| `RubricScalars.StripUndoesYamlScalar` | mcp-server/src/outcome-grading.ts:492-508 | Unquoting a rendered scalar gives the string back, for any mix of backslashes, quotes, colons and hashes. |
| `RubricScalars.CoerceKeepsPlainStrings` | mcp-server/src/outcome-grading.ts:437-451 | A token stays a string exactly when it is neither true nor false nor a number in range; the test for a date never changes the outcome. |
| `RubricForms.CharactersAreListed` | mcp-server/src/outcome-grading.ts:295 | White space is what ECMAScript lists as white space and line terminators, and nothing else. |
| `RubricForms.EscapeByCharacter` | mcp-server/src/outcome-grading.ts:504 | Quoting puts a backslash before each backslash and each double quote and touches nothing else. |
| `RubricForms.WrittenPlainIff` | mcp-server/src/outcome-grading.ts:492-506 | A string is written as it is exactly when it is a token without marks and has the shape of no other scalar; otherwise it stands in double quotes. |
| `RubricForms.EscapesAreUndone` | mcp-server/src/outcome-grading.ts:420-434 | Each of the three escapes is undone where it stands. |
| `RubricForms.QuotesAreStripped` | mcp-server/src/outcome-grading.ts:420-434 | What stands between two quotes of one kind is unescaped, and everything else stays. |
| `RubricForms.NumberShapeParts` | mcp-server/src/outcome-grading.ts:443-450 | A number is an optional minus sign, digits, and perhaps a dot with digits after it. |
| `RubricForms.NumberPartsShape` | mcp-server/src/outcome-grading.ts:443-450 | And everything of that form is a number. |
| `RubricForms.DateShapeParts` | mcp-server/src/outcome-grading.ts:436 | A date and time has seconds, perhaps a fraction of them, and a zone. |
| `RubricForms.DatePartsShape` | mcp-server/src/outcome-grading.ts:436 | And everything of that form is a date and time. |
| `RubricForms.CoercedTable` | mcp-server/src/outcome-grading.ts:438-453 | The two words, the numbers in range, and text for everything else. |
| `RubricGrammar.ParseRubricYamlSubset` | mcp-server/src/outcome-grading.ts:289-335 | The loop over the lines computes the grammar: entries, blocks, lists, ignored lines, errors. |
| `RubricGrammar.ParseListItems` | mcp-server/src/outcome-grading.ts:356-418 | The two nested loops read the items at one indentation and the entries below each. |
| `RubricGrammar.PeekIsItem` | mcp-server/src/outcome-grading.ts:342-349 | Whether the next line that is neither blank nor a comment is a list item. |
| `RubricComments.CommentsDoNotMatter` | mcp-server/src/outcome-grading.ts:289-418 | One more blank line or comment, anywhere, changes nothing. |
| `RubricComments.FirstLineHasToBeAnEntry` | mcp-server/src/outcome-grading.ts:295-305 | A first line that is neither needs a colon and no indentation. |
| `RubricGrammar.DocumentReads` | mcp-server/src/outcome-grading.ts:289-418 | A document of entries with one list at the end reads as exactly those entries and items. |
| `RubricGrammar.DocumentIsGood` | mcp-server/src/outcome-grading.ts:289-418 | Every value of a parsed document comes from one of its lines. |
| `RubricReadings.ItemMeans` | mcp-server/src/outcome-grading.ts:388-413 | An item goes on to the first line that is indented no deeper or starts an item and takes all entries up to there, the last of a key counting; a deeper line without an entry is an error, and nothing else is. |
| `RubricReadings.ListMeans` | mcp-server/src/outcome-grading.ts:356-418 | A list has the items whose dashes stand at the indentation of the first, which is not zero; it ends at the first line that is no such dash; and it fails exactly where one of its items does. |
| `RubricReadings.AheadMeans` | mcp-server/src/outcome-grading.ts:342-349 | Looking ahead finds an item exactly when the next line that is neither blank nor a comment starts one. |
| `RubricReadings.DocumentMeans` | mcp-server/src/outcome-grading.ts:289-335 | A document has one entry for each line outside the lists above it, all without indentation; the last entry of a key counts; and it is refused exactly at the first line that breaks this. |
| `RubricLines.WrittenEntry` | mcp-server/src/outcome-grading.ts:297-331 | A written entry line reads as its indentation, its key and its value, and is no list item. |
| `RubricLines.WrittenItem` | mcp-server/src/outcome-grading.ts:371-386 | The first line of a written item reads as the start of an item with that one entry. |
| `RubricForms.IgnoredLines` | mcp-server/src/outcome-grading.ts:291-296 | Blank lines and those that start with a hash are ignored, and no others. |
| `RubricForms.EntryByColon` | mcp-server/src/outcome-grading.ts:298-331 | A line has an entry exactly when it has a colon; its key stands before the first one and its value after it, both without white space around them. |
| `RubricForms.ItemByDash` | mcp-server/src/outcome-grading.ts:371-386 | A list item is a dash with white space after it, at any indentation. |
| `RubricForms.ItemText` | mcp-server/src/outcome-grading.ts:371-387 | What follows the dash is an entry if it has a colon, unless it begins with its only quotation mark; otherwise it is one bare value; and a line separator in it makes the line no item at all. |
| `Rubrics.RenderRubricFrontmatter` | mcp-server/src/outcome-grading.ts:461-485 | The loop over the criteria writes the lines of the rubric between two delimiters. |
| `RubricSchema.HeadIsSpelled` | mcp-server/src/outcome-grading.ts:461-471 | The head of a written rubric, line by line. |
| `RubricSchema.CriterionIsSpelled` | mcp-server/src/outcome-grading.ts:472-481 | A written criterion, line by line. |
| `RubricSchema.LinesAreSpelled` | mcp-server/src/outcome-grading.ts:461-485 | How a line is put together from its indentation, key and text. |
| `Rubrics.ParseRubricFrontmatter` | mcp-server/src/outcome-grading.ts:227-276 | Finds the two delimiters, parses what is between them and applies the schema. |
| `RubricSchema.FrontMatterIff` | mcp-server/src/outcome-grading.ts:227-257 | Front matter is what stands between a first line that is a delimiter and the next one. |
| `RubricSchema.BreaksByPlace` | mcp-server/src/outcome-grading.ts:228 | A carriage return becomes a line feed, together with one that follows it. |
| `RubricSchema.UnitsByCharacter` | mcp-server/src/outcome-grading.ts:112 | The length that the schema bounds is in code units, of which a character beyond the first plane takes two. |
| `RubricSchema.SchemaIff` | mcp-server/src/outcome-grading.ts:106-138 | The schema accepts a document as a rubric if and only if the document says just that and the rubric keeps to the bounds, each spelled out. |
| `RubricRoundTrip.BodyReads` | mcp-server/src/outcome-grading.ts:461-485 | The lines of a valid rubric read as its fields, each of them coerced. |
| `RubricRoundTrip.CheckRubricIff` | mcp-server/src/outcome-grading.ts:106-138 | The schema accepts what was read as the same rubric exactly when no coercion has changed a field. |
| `RubricRoundTrip.RoundTripIff` | mcp-server/src/outcome-grading.ts:227-485 | Parsing a rendered valid rubric gives the same rubric if and only if no string has a line break or the shape of a boolean or of a number in range, and every weight is printed in plain decimals that read back as the same number. |
| `RubricRoundTrip.ParseRenderParse` | mcp-server/src/outcome-grading.ts:455-460 | Whatever text a rubric was parsed from, rendering and parsing it again gives the same rubric if and only if its weights are printed in plain decimals. |
| `RubricRoundTrip.ParsedRubricsAreClean` | mcp-server/src/outcome-grading.ts:227-276 | No text at all parses as a rubric with a line break in a string or with a string of boolean or number shape. |
| `RubricRoundTrip.BreaksReadAlike` | mcp-server/src/outcome-grading.ts:228-229 | A text and the same text with its line breaks normalised parse alike. |
| `RubricRoundTrip.ExponentLosesWeight` | mcp-server/src/outcome-grading.ts:475-477 | The rubrics for which the promised round trip fails: those with a weight that prints with an exponent. |
| `JsonStrings.QuoteRoundTrip` | mcp-server/src/skills-bundle.ts:80-82 | A quoted string read by the rules of section 7 of RFC 8259 gives the string back, wherever it stands, for all code units including lone surrogates. |
| `JsonStrings.EscapeTable` | mcp-server/src/skills-bundle.ts:80-82 | How each code unit is written: seven short escapes, lower-case hexadecimal for other control characters and lone surrogates, and the unit itself for all else. |
| `JsonStrings.PairsStandForThemselves` | mcp-server/src/skills-bundle.ts:80-82 | A surrogate is escaped exactly when its other half is missing. |
| `CanonicalJson.ReadsValue` | mcp-server/src/skills-bundle.ts:79-90 | A reader that keeps the order of keys and allows no space reads the canonical text of a value as the value with its keys in order, whatever follows it. |
| `CanonicalJson.TextHasKeysInOrder` | mcp-server/src/skills-bundle.ts:79-90 | The canonical text reads as a value that means the same and whose keys ascend strictly by code units, at every depth, and there is nothing else in it. |
| `CanonicalJson.SameMeaningSameText` | mcp-server/src/skills-bundle.ts:79-90 | Values that are the same up to the order of their keys have the same canonical text. |
| `CanonicalJson.SameTextIffSameMeaning` | mcp-server/scripts/build-skills-bundle.ts:241-252 | Two values have the same canonical text if and only if they are the same up to the order of their keys, at every depth. |
| `Sorting.SortBySorts` | mcp-server/src/skills-bundle.ts:87 | Sorting gives an ascending permutation. |
| `Sorting.SortedIsUnique` | mcp-server/src/skills-bundle.ts:87 | There is only one ascending arrangement of given elements. |
| `Sorting.TextLeMeans` | mcp-server/src/skills-bundle.ts:87 | The order is by code units at the first place where two strings differ, a prefix first. |
| `SkillText.ParseSkillText` | mcp-server/src/skills-bundle.ts:153-182 | The loops that find the closing delimiter and fill the record compute the division of the text. |
| `SkillText.LastEntryCounts` | mcp-server/src/skills-bundle.ts:169-178 | The value of a key is that of the last line which sets it, and a key that no line sets is absent. |
| `SkillText.EntryOnByColon` | mcp-server/src/skills-bundle.ts:169-178 | A line sets a key exactly when it is no comment and has a colon with something before it; the value loses its white space and its quotes. |
| `SkillText.FrontMatterIsValid` | mcp-server/src/skills-bundle.ts:153-182 | The record of the front matter has each key once. |
| `SkillText.NothingIsLost` | mcp-server/src/skills-bundle.ts:153-182 | The front matter lines, a line break and the body are the whole text again; a text without front matter is all body. |
| `SkillText.WhereFrontMatterIs` | mcp-server/src/skills-bundle.ts:155-168 | Front matter is there exactly when the first line is a delimiter and a later one is, too, and the first such line closes it. |
| `SkillsWalk.WalkSources` | mcp-server/scripts/build-skills-bundle.ts:266-318 | The skills with a SKILL.md in directory order, then the files _<x>.md of the start directory. |
| `SkillsWalk.SkillIsSpelled` | mcp-server/scripts/build-skills-bundle.ts:266-296 | The name and the path of a skill of a directory, letter by letter, and what else it takes from there. |
| `SkillsWalk.StartFileIsSpelled` | mcp-server/scripts/build-skills-bundle.ts:297-318 | The name and the path of a start file, letter by letter, and what else it takes from there. |
| `SkillsWalk.SkillsInOrder` | mcp-server/scripts/build-skills-bundle.ts:266-300 | There is one skill for each directory that has one, in the order of the directories. |
| `SkillsWalk.StartFilesInOrder` | mcp-server/scripts/build-skills-bundle.ts:300-318 | And one for each file of the start directory that is called _<x>.md, in their order. |
| `SkillsWalk.NamesApartIff` | mcp-server/scripts/build-skills-bundle.ts:286-312 | All files of the walk have different names if and only if no skill directory start_<x> stands beside a file _<x>.md. |
| `SkillsWalk.ShadowedStartFile` | mcp-server/scripts/build-skills-bundle.ts:447-453 | The trees for which bundle and files disagree with no warning: a skill directory start_<x> beside a file _<x>.md, skipped in the build or added since; the bundle serves the file, the directory is what the disk gives, and they agree only when they read alike. |
| `SkillsBundle.Build` | mcp-server/scripts/build-skills-bundle.ts:430-500 | The first file with an entry whose body or largest reference is too large stops the build; otherwise the bundle is built exactly when the whole is not too large. |
| `SkillsBundle.BundleSays` | mcp-server/scripts/build-skills-bundle.ts:436-492 | A bundle has one entry for each file that has front matter or stands in the start directory, with all that the file says, ascending by name, and its manifest hash verifies. |
| `SkillsBundle.ManifestPinsEntries` | mcp-server/src/skills-bundle.ts:186-189 | Two bundles that verify have the same manifest hash if and only if their entries are the same up to the order of keys. |
| `SkillsBundle.SameManifestSameEntries` | mcp-server/src/skills-bundle.ts:186-189 | Bundles that verify with one manifest hash have the same entries, field by field, up to the order of keys inside front matter and references. |
| `SkillsBundle.EntriesAreWellFormed` | mcp-server/scripts/build-skills-bundle.ts:470-480 | Entries are JSON objects without repeated keys. |
| `SkillFiles.BuiltBundleIsJson` | mcp-server/scripts/build-skills-bundle.ts:436-492 | Every bundle that is built from texts with the parser of front matter prints as JSON without repeated keys. |
| `SkillFiles.BuiltManifestsPin` | mcp-server/scripts/build-skills-bundle.ts:484-492 | Two bundles built from texts have one manifest hash if and only if their entries are the same up to the order of keys. |
| `SkillsServing.Loader.LoadSkillsBundle` | mcp-server/src/skills-bundle.ts:200-250 | A hit returns the cached bundle; only a bundle that verifies is returned or cached; a failed verification empties the cache and an unreadable file leaves it. |
| `SkillsServing.Loader.GetSkill` | mcp-server/src/skills-bundle.ts:347-406 | From the bundle if it is on, sound and has the name, with a stale warning when the source has changed; otherwise from the files. |
| `SkillsServing.ServeMeans` | mcp-server/src/skills-bundle.ts:347-406 | What is served: the entry's front matter and body, with a warning exactly when its file can be read and has another hash; else the first file of the name; else nothing. |
| `SkillsServing.FirstNamedMeans` | mcp-server/src/skills-bundle.ts:319-345 | The file of a name is the first one of the walk. |
| `SkillsServing.BundleAgreesWithDiskIff` | mcp-server/src/skills-bundle.ts:361-393 | A bundle built at any time from any files, served with no stale warning while its source is readable, gives the front matter and body that the disk path gives now, if and only if the file that the walk finds first under the name reads as the same skill as the entry's file. |
| `SkillsWalk.AgreesOnListingsIff` | mcp-server/src/skills-bundle.ts:319-406 | The same read off two listings, at the build and now: a served entry agrees with the disk path if and only if it came from a skill directory, or there is no skill directory of that name now, or that directory's skill reads like the start file the entry came from. |
| `SkillsServing.BundleAgreesWhenNamesAreUnique` | mcp-server/src/skills-bundle.ts:319-393 | With different names for all files, it does so for every file that is still there. |
| `SkillsServing.UnchangedFilesAgreeIff` | mcp-server/src/skills-bundle.ts:319-393 | While the files have not changed since the build, serving gives what the disk path gives if and only if the first file of the name was not skipped, or no file of that name got an entry, or the one that did reads the same. |
| `SkillsServing.FindAfterSort` | mcp-server/scripts/build-skills-bundle.ts:482 | Sorting the entries by name keeps the order of those with the same name. |
| `SkillsCheck.Check` | mcp-server/scripts/check-skills-bundle.ts:242-295 | The drifts: the manifest, then the files missing from the bundle or with another hash, then the entries without a file. |
| `SkillsCheck.DriftsMean` | mcp-server/scripts/check-skills-bundle.ts:242-295 | Which complaint stands for what: the manifest, a file without an entry, a file with another hash, an entry without a file. |
| `SkillsCheck.AcceptedIff` | mcp-server/scripts/check-skills-bundle.ts:242-300 | Any bundle is accepted if and only if its manifest hash is right and it has the same names with the same hashes as the files, where the last entry of a name counts. |
| `SkillsCheck.UniqueNamesAcceptedIff` | mcp-server/scripts/check-skills-bundle.ts:242-300 | A bundle without repeated names is accepted if and only if its manifest hash is right and its names with their hashes are exactly those of the files. |
| `SkillsCheck.BuiltNamesApart` | mcp-server/scripts/build-skills-bundle.ts:436-492 | When all files have different names, so have the entries of every bundle built from them. |
| `SkillsCheck.FreshBuildAcceptedIff` | mcp-server/scripts/check-skills-bundle.ts:256-300 | A bundle that has just been built is accepted if and only if every name has a file that was not skipped and files of one name have one content. |
| `SkillsCheck.SkippedSkillIsDrift` | mcp-server/scripts/build-skills-bundle.ts:447-453 | The trees for which a fresh bundle fails its check: a SKILL.md without front matter, unless a start file has the same name and the very same content. |
| `EditDistance.Levenshtein` | mcp-server/src/flywheel-config.ts:108-131 | The two rows hold the distances of prefixes, and the result is the recursive edit distance, up to the length limit, beyond which different strings are infinitely far apart. |
| `EditDistance.MeasureMeans` | mcp-server/src/flywheel-config.ts:108-131 | Nothing between equal strings, infinity between different ones of which one has more than forty code units, and else the length of a shortest sequence of edits. |
| `EditDistance.SuggestKey` | mcp-server/src/flywheel-config.ts:137-148 | A key is suggested exactly when a known one is within distance one, and it is the first at the smallest distance. |
| `EditDistance.DistanceZero` | mcp-server/src/flywheel-config.ts:108-131 | The distance is zero only between equal strings. |
| `EditDistance.DistanceSymmetric` | mcp-server/src/flywheel-config.ts:108-131 | The distance is symmetric. |
| `EditDistance.DistanceTriangle` | mcp-server/src/flywheel-config.ts:108-131 | The distance satisfies the triangle inequality. |
| `EditDistance.PathIsLongEnough` | mcp-server/src/flywheel-config.ts:120-124 | No sequence of single insertions, deletions and substitutions between two strings is shorter than their distance. |
| `EditDistance.ShortestPath` | mcp-server/src/flywheel-config.ts:120-124 | There is such a sequence of exactly that length. |
| `EditDistance.CloseMeansOneEdit` | mcp-server/src/flywheel-config.ts:137-148 | A key is close enough exactly when it is the unknown key or, up to the length limit, one edit away. |
| `LineDiff.DiffLineCounts` | mcp-server/src/convergence.ts:195-215 | The two counts are the sizes of the two multiset differences of the lines. |
| `LineDiff.LinesEndAtBreaks` | mcp-server/src/convergence.ts:195-197 | Lines end at a line feed, and a carriage return right before it goes with it. |
| `LineDiff.LinesAreConserved` | mcp-server/src/convergence.ts:195-215 | Prior lines with the added ones are current lines with the removed ones; both counts are zero exactly for a rearrangement. |
| `Convergence.ComputeSignals` | mcp-server/src/convergence.ts:279-308 | The accumulating loop computes the churn per round over the current size, and the mean of the known similarities. |
| `Convergence.SignalsMean` | mcp-server/src/convergence.ts:279-308 | The churn signals are the mean step in size and the mean edit, per line of the last revision, and the similarity is the mean of those that are known, or one. |
| `Convergence.SignalsAreInRange` | mcp-server/src/convergence.ts:279-308 | Churn is never negative and zero exactly when nothing changed, and the similarity is between zero and one. |
| `Convergence.ScoreIsBlend` | mcp-server/src/convergence.ts:345-353 | The weights add up to one, so that the last clamp does nothing, and the score is one exactly when the plan stands still. |
| `Convergence.ScoreWeights` | mcp-server/src/convergence.ts:345-353 | Half of the score is similarity, three tenths steadiness in size and two tenths steadiness in content, with churn counted up to one; with fewer than two revisions it is zero. |
| `Convergence.StatusMarks` | mcp-server/src/convergence.ts:258-263 | The marks at which the status changes. |
| `Convergence.DetectOscillation` | mcp-server/src/convergence.ts:310-326 | The flips are the sign changes among the size changes that are not zero. |
| `Convergence.FlipsAreTurns` | mcp-server/src/convergence.ts:310-326 | The flips are the places where the size changes against its last direction, and a plan oscillates when there are more of them than a third of its revisions. |
| `Convergence.FlipsAreBounded` | mcp-server/src/convergence.ts:323-325 | At most n - 2 flips among n revisions; so three revisions never count as oscillating. |
| `Convergence.SteadyPlansDoNotFlip` | mcp-server/src/convergence.ts:310-326 | A plan that only grows or only shrinks never oscillates. |
| `Convergence.IsMonotonicallyClimbing` | mcp-server/src/convergence.ts:328-335 | Never falling, and higher at the end than at the start. |
| `Convergence.ClimbingIff` | mcp-server/src/convergence.ts:328-335 | Scores climb exactly when no later one is below an earlier one and they rise somewhere. |
| `Convergence.ScoresByPlace` | mcp-server/src/convergence.ts:415-421 | The scores compared are those of the first two revisions, the first three, and so on, one each. |
| `Convergence.SchemaRejectsIff` | mcp-server/src/convergence.ts:97-114 | The schema check of a new state fails only for an empty slug or for a revision whose similarity is not between zero and one. |
| `Convergence.AppendRevision` | mcp-server/src/convergence.ts:371-455 | Refuses another score version; otherwise the new state is that of the last five revisions, with all its fields. |
| `Convergence.StateSays` | mcp-server/src/convergence.ts:371-455 | A state has its version, its revisions, their signals and score, and a status by the score unless the plan oscillates. |
| `Convergence.ProjectionMeans` | mcp-server/src/convergence.ts:396-437 | A projection is given exactly for five revisions with climbing scores that are neither converged nor oscillating. |
| `Convergence.ProjectionRounds` | mcp-server/src/convergence.ts:396-437 | The projection is the number of rounds along the line from the first to the last score, rounded to the nearest, between one and ten. |
| `Convergence.RunKeepsLastFive` | mcp-server/src/convergence.ts:371-455 | After any run of k appends the buffer holds the last min(k, 5) revisions and the state satisfies the schema, so the check at the end never fails. |

## Left out

- BeadGraph.BuildBeadGraph: rows are given as already read or rejected by their schema, and the time stamp of the graph is not modelled.
- ExecutionOrder.ComputeExecutionOrder: the text of the error is left out, the ids it names are not. Which of several orders is found is not stated.
- ParallelGroups.LevelSearch.GetLevel: proved on acyclic dependencies with distinct ids, which is what its caller has checked; the fallback for cycles is in the model's body as a branch that is never reached there. Its loop over the dependencies is a method of its own.
- PlanSimulation.SimulateExecutionPaths: the warning texts are left out.
- ParallelGroups.ComputeParallelGroups: does not state the order of the beads inside a group, which is the order in which the recursion finishes them and on which only the order of the reported conflicts depends.
- VerificationLedger.LedgerIsHeaderThenRows: bytes are modelled, the encoding of text into bytes is not; the temporary header file, directory creation and flushing are not steps of their own, and a short write of the header is a link of a prefix of it.
- VerificationLedger.AcknowledgedRowsAndTornWrites: says nothing about rows that were never acknowledged.
- CommitBatch.RunsStayAligned: assumes that the verdict of a range, once readable, stays the same; `AlignedIff` is the exact condition. Calls follow each other here; calls that overlap are in `OverlappingReviews`, for one verdict. The bodies and labels of beads and the note in memory for a malformed verdict are left out.
- Checkpoint.ReadsGiveLastWrite: one process and one directory at a time; two processes that write the same temporary file at once are not modelled. A write to the temporary file leaves a prefix of its text.
- Reservations.FailureHoldsNothingMore: the server is assumed to give new reservations ids of their own that the agent does not hold, and to report a number or a text only if that is its own id, as a number rounded in reading, as a text, or as the number that it spells. The delay between attempts is left out.
- OutcomeGrading.KthGradeHasIterationK: for calls that do not overlap; otherwise the exact condition is `IterationIsPositionIff`. The prompt, the diff, the retry and the parsing of the answer come down to an answer or a failure. One process: verdict files that another process writes meanwhile are not modelled.
- RubricRoundTrip.RoundTripIff: dates and times are any test that accepts only digits and their marks; white space and code units are as in JavaScript, except that lone surrogates do not occur in Dafny strings. A weight of negative zero prints as zero and so does not survive.
- CanonicalJson.SameTextIffSameMeaning: numbers are compared by their printed text, so that zero and negative zero are the same value; values that JSON does not have are left out.
- SkillsBundle.Build: the recursive reading of references is an input, with the size of the largest; writing the file through a temporary one is left out.
- SkillFiles.BuiltBundleIsJson: the order that JavaScript gives to keys which look like array indices is not modelled; the canonical text does not depend on it.
- EditDistance.Levenshtein: strings longer than forty code units are infinitely far apart unless equal, as in the source, so a long key with a typo is never suggested.
- Convergence.AppendRevision: arithmetic is exact instead of rounded; words, characters, structural counts, time stamps and the similarity of two texts are not computed.
- Process spawning, transport, git, the bead tracker, the terminal multiplexer, the HTTP server and the tool wiring: only their answers appear, as inputs.
- Prompt texts, rendering of reports, heuristics over prose, model routing, error tables and command-line parsing: no specification beyond the code.
- The completion report's own schema and `assessVerification`: a table of cases.
- `synthesizeRubric`, its lock file and its edit instructions.
- The guards of `fs-safety.ts`: a guarded rename or unlink either happens as a whole or is refused.
- The remaining configuration, calibration, mutex and retry helpers.
