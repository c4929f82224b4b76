# Verified model of zsh-pro: shared worktree, install, ingest and activation

This project models the parts of zsh-pro that must not lose a user's data and proves what they
promise, for every input, run and interruption.

- **Shared worktree** (`LastOccurrence`, `Live`, `Order`, `Diff`, `Projection`, `Fingerprint`,
  `State`, `Registry`, `Steps`, `Protocol`, `Preservation`, `Keeps`, `Workflow`, `Runs`,
  `Consequences`, `Replay`, `Readmission`, `Transitions`, `Attaches`, `Publishes`, `Pulls`, `Requests`,
  `Branches`, `Callbacks`, `Service`, `Scenarios`, `SecondCommit`). Many shells attach to one canonical state.
  `Steps` gives every transaction callback as a function; `Callbacks` and the class `Service.Service`
  run them as the source does and are proved equal to those functions; `Runs` composes them into
  runs, and `Attaches`, `Publishes`, `Pulls`, `Requests` and `Branches` say what each operation comes to.
  A ghost history records the generation shared at every revision, compacted ones included, and the invariant `Protocol.Inv` ties every shell, event and fingerprint to it.
- **Install transaction** (`ByteStrings`, `Markers`, `Scanner`, `Rendered`, `Journal`, `Install`,
  `Durable`). The marker scanner and renderer work on bytes and are proved against a grammar of lines
  and regions; `Rendered` says what that comes to in terms of marker lines. The
  journal is a file of two slots; the install runs over a target and a peer cell, with an
  adversary that may replace the target before every step and with failures and crashes at any step.
  `Durable` shows that the record step of the install is what a torn write of that file gives.
- **Ingest commit** (`Ingest`). A reference behind prepared sessions whose response may be lost,
  and a secret backend whose calls may fail with or without their effect.
- **Activation** (`Lists`, `Build`, `Manifests`, `Patch`, `Compiled`). Source-ordered entries become one
  manifest, and `Manifests` reads it back over the entries; live differences become inverse plans;
  `Compiled` reads the live states of a manifest and closes the way back to the worktree commit.

A snapshot fingerprint is modelled as the canonical sequence it is computed from, request digests
and tokens as the requests they are computed from, and a capability verifier as the capability.
The repository's replies, the secret policy, JSON, the journal digest and the grammar of legacy
list parts are parameters. A transaction is one atomic step on a copy that is stored only if it
validates.

## Findings

Claims one might expect that the code does not meet, each with its input and its exact condition:

- A publish conflicts with the shell's own unacknowledged events: `Consequences.LoneShellConflictsWithItself`
  says when, `Scenarios.LoneShellRunConflicts` is a run with one shell, and `Consequences.PublishFate`
  is the exact fate of every proposed identity.
- `Acknowledge` and `ResolveShared` admit what they observe before they look for a receipt. Their replay
  changes nothing if and only if everything observed is known (`Readmission.AcknowledgeReplaySilent`,
  `Readmission.ResolveReplaySilent`); `Scenarios.AcknowledgeReplayMayAdmit` is a run in which it changes the state.
- A text without markers that ends in a marker and a lone CR renders to a text that no longer scans:
  `Markers.AppendedRescans` states exactly when, `Markers.LoneCrBreaksRescan` gives one.
- `applyStateChanges` keeps the slots of absent base values that `applyNormalizedOverlay` drops. The orders
  agree for every list of changes if and only if the base has only present values
  (`Projection.EditorsAgreeExactly`; `Projection.AbsentBaseReorders` is a base of two), the maps always
  (`Projection.EditorsAgreeAsMaps`).
- Recovery can report that recovery is required although the occupant is in the target. `Install.Stuck` is
  the exact condition in `Install.Transaction.Recover`: either a rollback exchanged the cells but did not
  record it (`Install.CrashedRollback` is such a run), or nothing was exchanged and the target no longer
  matches what was captured.
- A requested link changed behind an install in place makes recovery refuse and the candidate stay
  (`Install.RelinkedStays`).
- An alias whose entries all hold a secret reference is built but is not among the live states
  (`Compiled.LiveStatesMean`, `Compiled.SecretAliasIsMissing`). Only a direct caller of `BuildEffective` can
  pass one: ingest (core/store/secret.go:205-213) and the registry (core/worktree/registry.go:308-320) refuse
  such entries, and without them no alias is missing (`Compiled.SecretFreeAliases`).
- A second commit may require recovery: its changes are taken against the committed projection, but it is
  rebuilt from the source. The check holds if and only if the source still gives the committed value of
  every identity that is not dirty (`Compiled.RebuildMatches`); `SecondCommit.SecondCommitNeedsRecovery` is
  a run at whose end every commit fails it.
- The service does not consult the table of legal shell transitions. An operation follows the table if and
  only if it is an attach, a pull or a resolution (`Transitions.LegalExactly`); `Scenarios.PublishAfterAttach`
  is a run that leaves it.

## Model

| member | source | states |
|---|---|---|
| Runs.RunKeeps | core/worktree/service.go:309-757 | after every sequence of materializations, attaches, publishes, prepares, resolutions, acknowledgements, repairs, checkouts, resets, commits and settings, by any shells and with failed or rejected operations anywhere, the protocol invariant holds with the recorded history of generations |
| Runs.ValidationOnlyLimits | core/worktree/state.go:205-306 | a successful callback on an invariant state is rejected by validation only for its size or for the exhausted revision space; every other check of ValidateState is inductive |
| Runs.StepCounts | core/worktree/service.go:512-524 | after materialization every operation spends exactly one revision if the shared map changes and none if it does not |
| Runs.HistoryIsThePast | core/worktree/service.go:512-524 | the final history lists, under the revision current at any moment of a run, exactly the generation shared at that moment; later operations never rewrite it |
| Runs.AppliedBaselineIsItsGeneration | core/worktree/service.go:728-752 | in every reachable state a shell with a nonzero applied revision holds exactly the generation shared at that revision, compacted or not |
| Runs.PendingLeadsToItsGeneration | core/worktree/service.go:608-619 | while a pull or resolution is pending, its changes lead from the capture baseline to the generation of its revision, and its fingerprint is that generation's |
| Runs.ConflictsCarryTheirDelta | core/worktree/service.go:534-556 | over every run a conflict and an unpublished delta exist together, the conflict names an identity of the delta, never beside a pending pull, and a pending resolution is of that very conflict |
| Runs.SharedIsFoldedHistory | core/worktree/state.go:347-389 | in every reachable state the shared generation is the compaction baseline with the retained events folded over it, at most 128 events running without a gap from floor to head |
| Runs.CallbackKeeps | core/worktree/service.go:309-757 | each operation separately keeps the invariant, extending the history by the generation it shares |
| Consequences.PublishFate | core/worktree/service.go:488-556 | for every identity: what a publish proposed, whether it was accepted, lost or already shared, and what the shared value is afterwards; the three cases partition the semantic delta and a history gap makes every unequal change lose |
| Consequences.NoLostUpdate | core/worktree/service.go:496-524 | an identity changes in a publish only if its shared value was still the one in the publisher's applied baseline, and never across a history gap |
| Consequences.LoneShellConflictsWithItself | core/worktree/service.go:1153-1164 | detection counts a shell's own unacknowledged events: a second unequal proposal for an accepted identity on the same acknowledged revision loses right after it |
| Scenarios.LoneShellRunConflicts | core/worktree/service.go:1153-1164 | a run of four operations by the only shell there ever was, at whose end that shell conflicts with its own publish |
| Transitions.TransitionsTell | core/worktree/state.go:664-678 | in every reachable state a shell is unpublished exactly if it has a conflict and nothing pending, preparing exactly if a pull and resolving exactly if a resolution is pending, and never in one of the capture or apply states |
| Transitions.LegalExactly | core/worktree/state.go:664-678 | in every run an operation that sets the transition of its shell follows an edge of the table if and only if it is an attach, a pull or a resolution; every publish and every acknowledgement breaks the table |
| Transitions.OthersStay | core/worktree/state.go:664-678 | no operation changes the transition of any other shell, nor of its caller when it is a replay or an empty pull |
| Scenarios.PublishAfterAttach | core/worktree/service.go:526-556 | a run in which a shell goes from its attach straight to publishing |
| Replay.EveryOperationIsLocal | core/worktree/service.go:970-985 | an operation leaves every shell but its caller untouched and adds at most one receipt, for its caller, under an unused operation ID |
| Replay.ConflictEndsOnlyBySettling | core/worktree/service.go:728-747 | a conflict and its delta survive every operation of every shell except an acknowledgement of the pending resolution of that conflict, with its token, that observes the target generation |
| Replay.AttachReplays | core/worktree/service.go:384-397 | repeating an attach after any operations that added fewer than 64 receipts for its shell gives the same reply and changes nothing |
| Replay.PublishReplays | core/worktree/service.go:465-471 | the same for a publish |
| Replay.PrepareReplays | core/worktree/service.go:578-585 | the same for a prepared pull |
| Replay.ReceiptAges | core/worktree/service.go:970-985 | a receipt is found again at exactly as many places from the newest of its shell as receipts were added since |
| Readmission.AcknowledgeReplaySilent | core/worktree/service.go:706-727 | a replayed acknowledgement leaves the state unchanged if and only if every identity it keeps is already owned or admitted |
| Readmission.ResolveReplaySilent | core/worktree/service.go:639-660 | the same for a replayed resolution |
| Scenarios.AcknowledgeReplayMayAdmit | core/worktree/service.go:706-727 | a run of materialization, attach, pull, acknowledgement and checkout, after which repeating the acknowledgement is answered from its receipt and nevertheless admits an identity |
| Protocol.FoldIsGeneration | core/worktree/state.go:376-389 | folding any number of retained events over the compaction baseline gives the generation recorded at that revision |
| Protocol.CompactConnects | core/worktree/state.go:626-644 | compaction keeps the retained events connecting consecutive recorded generations and bounds them |
| Protocol.AdvanceConnects | core/worktree/service.go:512-524 | appending the event of a new generation and compacting keeps the history connected and never rewrites a recorded generation |
| Protocol.AdvancedKeeps | core/worktree/service.go:512-524 | moving to a new generation keeps the invariant for every attached shell |
| Protocol.RecordedKeeps | core/worktree/service.go:970-985 | recording a sound shell under a new receipt keeps the invariant, receipt windows included |
| Preservation.MergeKeeps | core/worktree/service.go:496-556 | splitting a delta into accepted and losing changes and recording the result keeps the invariant |
| Preservation.UntouchedSince | core/worktree/service.go:1153-1164 | an identity that no event after a revision touches has the value it had there |
| Keeps.PublishKeeps | core/worktree/service.go:444-559 | a publish keeps the protocol invariant |
| Keeps.PrepareKeeps | core/worktree/service.go:561-624 | a prepared pull keeps the protocol invariant, also when the client reports another revision than recorded |
| Keeps.ResolveKeeps | core/worktree/service.go:626-691 | a resolution keeps the protocol invariant |
| Keeps.AcknowledgeKeeps | core/worktree/service.go:693-757 | an acknowledgement keeps the protocol invariant: what was observed under the pending fingerprint is the pending generation |
| Keeps.AttachKeeps | core/worktree/service.go:360-442 | an attach keeps the protocol invariant and gives no shell an unaccountable baseline |
| Attaches.AttachRecords | core/worktree/service.go:375-441 | a fresh attach succeeds exactly within the limits and in a ready registry; it records as present exactly the identities of the snapshot, captures exactly the owned and permitted ones, reports as excluded exactly the present and not allowed ones with the policy's reason or the reason of presence, and answers with the head |
| Attaches.OriginForGood | core/worktree/service.go:402-424 | over every run what was present at a shell's attach, what it excluded, its verifier and its revision of attach never change |
| Publishes.PublishTakesIn | core/worktree/service.go:472-487 | after a publish the shell captures its old capture with exactly the publishable part of the delta, and exactly the unowned identities of that part are admitted |
| Publishes.PublishesOnlyPermitted | core/worktree/registry.go:228-248 | a publish changes a shared value only to one it proposed, for an identity that the policy permits and that is owned, admitted or was not present at the attach |
| Publishes.PrivateStaysPrivate | core/worktree/service.go:402-424 | over every run an identity that was present when a shell attached is changed by that shell's publishes only if the registry owned it by then |
| Publishes.PublishSucceeds | core/worktree/service.go:444-495 | a fresh publish is refused exactly on the listed grounds: identifiers, delta, conflict or pending work, revision, registry and limits |
| Publishes.PublishReports | core/worktree/service.go:526-556 | the reply, the conflict with its delta, the behind flag and the acknowledged revision follow whether anything lost or changed, a stale claim and a history gap included |
| Pulls.PullAnswers | core/worktree/service.go:586-622 | a fresh pull is answered with nothing to do if and only if capture and shared generation are one map and both applied revisions are the head; otherwise the pending pull and the reply name the head and lead from the capture to the shared map |
| Pulls.PullSucceeds | core/worktree/service.go:573-600 | a fresh pull is refused exactly for its identifiers, an open conflict, pending work or the snapshot limits |
| Pulls.AcknowledgeAnswers | core/worktree/service.go:714-755 | an acknowledgement applies exactly the pending generation at its revision, tells whether the shell is behind and settles the conflict exactly if a resolution was pending |
| Pulls.AcknowledgeSucceeds | core/worktree/service.go:705-735 | a fresh acknowledgement succeeds exactly if its token and revision are the pending ones and what it observes, as far as it counts, is the pending generation |
| Pulls.PullReachesHead | core/worktree/service.go:608-752 | pulling and acknowledging ends with the applied revision at the head, the shared generation applied and the shell not behind |
| Pulls.ResolveAnswers | core/worktree/service.go:661-689 | a resolution offers the shared generation at the head for the conflict it names, over what the shell observes |
| Pulls.ResolveSucceeds | core/worktree/service.go:638-668 | a fresh resolution succeeds exactly if it names the shell's conflict, nothing is pending and it observes what the shell captures |
| Requests.OnlyItsOwnCapability | core/worktree/service.go:944-958 | over every run a request for an attached shell succeeds only under the capability the shell attached with |
| Requests.UsedIdAnswersOnlyItself | core/worktree/service.go:465-471 | a used operation ID answers nothing but a repetition of the recorded request, field by field and for a snapshot by what counts of it, and changes nothing but admissions |
| Requests.UsedIdStaysUsed | core/worktree/service.go:970-985 | that holds through every run in which the shell adds fewer than 64 more receipts |
| Branches.CheckoutMoves | core/worktree/service.go:197-233 | a checkout leaves only a clean, settled worktree and ends on exactly the branch, the commit and the document asked for, with nothing dirty and every shell behind exactly if a revision was spent or it was behind before |
| Branches.DirtyIsRefused | core/worktree/service.go:206-218 | a dirty worktree is refused as dirty and an unsettled one as a conflict, whatever the repository answers |
| Branches.CheckoutSucceeds | core/worktree/service.go:197-233 | a clean, settled worktree can be left whenever the repository answers well and the limits allow it |
| Branches.ResetTakes | core/worktree/service.go:236-250 | a hard reset succeeds exactly on a valid document within the limits, keeps the branch and the commit, and shares and commits that document |
| Branches.ReplacementTakesOver | core/worktree/service.go:900-932 | a replacement takes over branch, commit and document even where the shared map does not change |
| Branches.RepairMoves | core/worktree/service.go:877-898 | a repair moves the base to the commit the reference is at, only if its document is what is shared |
| Branches.RepairSucceeds | core/worktree/service.go:877-898 | it succeeds exactly if the reference did not move, or moved to a valid commit of what is shared in a ready registry |
| Branches.MaterializesOn | core/worktree/service.go:313-357 | the first materialization starts revision 1 on exactly the given branch, commit and document without shells; a later one must name the same and changes nothing |
| Branches.CommitConcludes | core/worktree/service.go:93-134 | the repository is asked exactly if there is something to commit that the source rebuilds; the state stores exactly what the repository confirmed and is unchanged otherwise |
| Workflow.MaterializeKeeps | core/worktree/service.go:309-358 | materialization records the committed projection as generation 1 over the empty generation 0 |
| Workflow.ReplaceKeeps | core/worktree/service.go:900-932 | replacing the generation shares exactly the document's projection, spends a revision only if the map changes, and keeps every shell accountable |
| Workflow.CheckoutKeeps | core/worktree/service.go:190-234 | a checkout keeps the protocol invariant |
| Workflow.ResetKeeps | core/worktree/service.go:236-250 | a hard reset keeps the protocol invariant |
| Workflow.RepairKeeps | core/worktree/service.go:877-898 | repairing the published reference changes only the base and its committed document |
| Workflow.CommitSafe | core/worktree/service.go:84-149 | a commit never changes the shared generation, its history or any shell; when it moves the base nothing is dirty afterwards; success without recovery is reported as such |
| Service.Service.Materialize | core/worktree/service.go:309-358 | one transaction: the repository's first generation is stored, repeated idempotently or refused; the stored state is valid and is the next state of the run model, unchanged on any error |
| Service.Service.Attach | core/worktree/service.go:360-442 | one transaction: a new shell, a replay or a refusal; the stored state is valid and is the next state of the run model, unchanged on any error |
| Service.Service.Publish | core/worktree/service.go:444-559 | one transaction: the split of the delta, or the exact error; the stored state is valid and is the next state of the run model, unchanged on any error |
| Service.Service.PreparePull | core/worktree/service.go:561-624 | one transaction: a pending pull, an empty answer at head, or the exact error; the stored state is valid and is the next state of the run model, unchanged on any error |
| Service.Service.ResolveShared | core/worktree/service.go:626-691 | one transaction: a pending resolution or the exact error; the stored state is valid and is the next state of the run model, unchanged on any error |
| Service.Service.Acknowledge | core/worktree/service.go:693-757 | one transaction: the applied generation or the exact error; the stored state is valid and is the next state of the run model, unchanged on any error |
| Service.Service.RepairPublishedRef | core/worktree/service.go:865-898 | one transaction: the repaired base or the exact error; the stored state is valid and is the next state of the run model, unchanged on any error |
| Service.Service.Checkout | core/worktree/service.go:190-234 | one transaction: the replaced generation or the exact error; the stored state is valid and is the next state of the run model, unchanged on any error |
| Service.Service.ResetHard | core/worktree/service.go:236-250 | one transaction: the replaced generation or the exact error; the stored state is valid and is the next state of the run model, unchanged on any error |
| Service.Service.Commit | core/worktree/service.go:84-149 | one transaction: the commit outcome, and recovery when the store rejects what the repository accepted; the stored state is valid and is the next state of the run model, unchanged on any error |
| Service.Service.SetAutoApplyDefault | core/worktree/service.go:252-263 | one transaction: the stored setting; the stored state is valid and is the next state of the run model, unchanged on any error |
| Callbacks.ValidateState | core/worktree/state.go:260-306 | the validators composed in source order decide exactly the validity predicate |
| Callbacks.AttachCallback | core/worktree/service.go:375-441 | the callback, step by step, computes the attach step |
| Callbacks.PublishCallback | core/worktree/service.go:460-557 | the callback, step by step, computes the publish step |
| Callbacks.SplitDelta | core/worktree/service.go:496-510 | one pass over the semantic delta collects exactly the accepted and the losing changes |
| Callbacks.ChangedIdentitiesAfter | core/worktree/service.go:1153-1164 | the collected set is exactly the identities of later events |
| Callbacks.MergeDelta | core/worktree/service.go:496-556 | the shared generation, conflicts, publishing shell and receipt after the split |
| Callbacks.PrepareCallback | core/worktree/service.go:573-622 | the callback, step by step, computes the prepare step |
| Callbacks.ResolveCallback | core/worktree/service.go:638-689 | the callback, step by step, computes the resolve step |
| Callbacks.AcknowledgeCallback | core/worktree/service.go:705-755 | the callback, step by step, computes the acknowledge step |
| Callbacks.MaterializeCallback | core/worktree/service.go:313-357 | the callback, step by step, computes the materialize step |
| Callbacks.ReplaceWorkflowGeneration | core/worktree/service.go:900-932 | replacement with its loop over the shells computes the replace step |
| Callbacks.CheckoutCallback | core/worktree/service.go:197-233 | the callback, step by step, computes the checkout step |
| Callbacks.ResetCallback | core/worktree/service.go:240-249 | the callback, step by step, computes the reset step |
| Callbacks.RepairCallback | core/worktree/service.go:877-898 | the callback, step by step, computes the repair step |
| Callbacks.CommitCallback | core/worktree/service.go:93-134 | the callback, step by step, computes the commit outcome |
| Callbacks.AttachRegistry | core/worktree/registry.go:182-224 | one pass over the normalized snapshot collects exactly the baseline and the exclusions |
| State.CompactStateHistory | core/worktree/state.go:626-644 | the loop succeeds exactly on a contiguous history and computes the compacted one |
| State.CompactKeepsHistory | core/worktree/state.go:626-644 | compaction keeps the folded state and the head, stays contiguous and bounds the events at 128 |
| State.ValidateEventSequence | core/worktree/state.go:347-374 | accepts exactly the gap-free sequences of valid events from floor to head |
| State.ValidateSharedGeneration | core/worktree/state.go:376-389 | accepts exactly when the folded history and the shared state are comparable and denote the same map |
| State.ValidateReceipts | core/worktree/state.go:497-518 | counting with maps accepts exactly unique receipts of known shells, at most 64 each |
| State.FindReceipt | core/worktree/service.go:960-968 | the search from the newest receipt finds the receipt of an operation if there is one |
| State.AppendReceipt | core/worktree/service.go:970-985 | counting, remembering the first and splicing drops the shell's oldest receipt exactly when it has 64 |
| State.ReceiptWindow | core/worktree/service.go:970-985 | one append slides exactly the appending shell's window of 64 and no other shell's |
| Registry.AdmittedChanges | core/worktree/service.go:1112-1127 | the loop keeps exactly the admissible changes and admits exactly their unknown identities |
| Registry.AdmittedSnapshot | core/worktree/service.go:1129-1151 | the loop keeps exactly the admissible present states and admits exactly their unknown identities |
| Registry.AdmitAllCanonical | core/worktree/service.go:1079-1099 | admissions keep the admitted identities valid, strictly sorted and free of duplicates |
| Diff.DiffSnapshot | core/worktree/diff.go:19-64 | for duplicate-carrying snapshots it fails exactly on invalid or oversized ones and else returns the ordered difference of the denoted maps |
| Diff.DiffApplies | core/worktree/diff.go:19-64 | applying the difference to the first map yields the second |
| Diff.DiffEmpty | core/worktree/diff.go:19-64 | the difference is empty exactly between equal maps |
| Diff.DiffMinimal | core/worktree/diff.go:19-64 | changes are valid, strictly ordered by identity, name exactly the differing identities, and carry the right kind and value |
| Diff.ApplyStateChanges | core/worktree/state.go:688-728 | editing slots in place fails exactly on invalid input and else computes the overlay of the changes |
| Diff.ApplyChangesMap | core/worktree/state.go:688-728 | applying changes denotes the edited map, with distinct, valid, present states |
| Diff.OverlayMap | core/worktree/diff.go:96-132 | an overlay denotes the base map with the edits applied |
| Projection.ApplyNormalizedOverlay | core/worktree/diff.go:96-132 | editing slots in place computes the overlay on the present base |
| Projection.EffectiveProjection | core/activate/builder.go:31-74 | the activation package's slots compute the same overlay and the tombstones in order |
| Projection.BuildProjection | core/worktree/diff.go:136-157 | fails exactly on invalid input and else projects the normalized overlay on the normalized base |
| Projection.NormalizeOverlay | core/model/worktree.go:536-564 | fails exactly on an invalid entry and else keeps the last entry of every identity in place |
| Projection.EditorsAgree | core/worktree/diff.go:96-132 | on bases of present values the three editors give the same sequence |
| Projection.EditorsAgreeExactly | core/worktree/state.go:688-728 | on a base of distinct values the editors agree for every valid list of changes if and only if every value of the base is present |
| Projection.EditorsAgreeAsMaps | core/worktree/diff.go:96-132 | on any base they give the same map |
| Projection.AbsentBaseReorders | core/worktree/state.go:688-728 | a concrete base with an absent value on which their order differs |
| Fingerprint.FingerprintSnapshot | core/worktree/state.go:646-662 | fails exactly on invalid snapshots and else identifies the denoted map |
| Fingerprint.FingerprintsDecideMaps | core/worktree/state.go:646-662 | two lists of present states have equal fingerprints exactly when they denote equal maps |
| Fingerprint.FingerprintDetermined | core/worktree/state.go:646-662 | a map has only one fingerprint, whatever order its states are listed in |
| Fingerprint.EqualLiveStates | core/worktree/state.go:730-744 | decides equality of the denoted maps on comparable lists and is false otherwise |
| Order.SortIsCanonical | core/worktree/state.go:646-662 | sorting lists with the same members by a strict order gives the same sequence |
| Live.NormalizeLiveStates | core/model/worktree.go:516-534 | fails exactly on an invalid state and else keeps the last state of every identity in place |
| LastOccurrence.LastBySnoc | core/activate/builder.go:229-249 | one more occurrence removes the earlier one of its key and goes to the end |
| Scanner.ScanZshrcMarkerTopology | core/cli/install_transaction.go:84-149 | the byte scanner reports exactly the error of the line grammar, or its regions, the stretches between them, the topology and the first line ending |
| Scanner.LayoutPartitions | core/cli/install_transaction.go:135-147 | regions and ordinary spans are nonempty, in order and cover every byte exactly once |
| Scanner.RenderManagedCandidate | core/cli/install_transaction.go:151-175 | the renderer computes the candidate of the line grammar |
| Scanner.EligibleSourceFromLayout | core/cli/install_transaction.go:177-186 | the eligible source is exactly the bytes outside the regions |
| Markers.OutsideLossless | core/cli/install_transaction.go:84-149 | the pieces of a scanned text flatten to the text |
| Markers.RegionsAreBlocks | core/cli/install_transaction.go:108-121 | every region of a scanned text is itself one well-formed block |
| Markers.RewriteRescans | core/cli/install_transaction.go:163-175 | the rewritten text scans to exactly the rewritten pieces |
| Markers.AppendedRescans | core/cli/install_transaction.go:151-161 | appending keeps the text as a prefix and scans again, with one region, exactly unless the text ends in a marker and a lone CR |
| Markers.LoneCrBreaksRescan | core/cli/install_transaction.go:104-107 | a concrete text without markers whose candidate does not scan |
| Markers.RenderingIsIdempotent | core/cli/install_transaction.go:151-175 | the candidate scans again exactly unless that last line exists; then its one region is the block, rendering it again changes nothing, and a text with regions keeps its eligible source byte for byte |
| Markers.FramedBlock | core/cli/install.go:313-326 | BEGIN and END around complete ordinary lines are a well-formed block |
| Rendered.MarkersDecide | core/cli/install_transaction.go:105-133 | a scan succeeds exactly if the marker lines are BEGIN and END in turn, with one region for each pair; otherwise its error names the first line out of turn, or the BEGIN that is never closed |
| Rendered.RenderedInPlace | core/cli/install_transaction.go:163-175 | the block stands where the first region stood, after exactly the bytes before it and before exactly the bytes outside the later regions |
| Rendered.RenderedAtEnd | core/cli/install_transaction.go:151-161 | without a region the block ends the file, after the fewest line feeds that leave an empty line; alone in a file it ends with a line feed |
| Rendered.NewlineIsFirst | core/cli/install_transaction.go:89-103 | the recorded line terminator is CR LF exactly if the first line feed follows a CR |
| Journal.EncodeSlot | core/cli/install_transaction.go:1467-1493 | filling the buffer field by field gives the slot, or nothing for generation 0 and payloads that are empty or do not fit |
| Journal.SlotRoundTrip | core/cli/install_transaction.go:1467-1536 | decoding inverts encoding for every valid journal that fits and every generation up to 2^64 - 1 |
| Journal.DecodeRecord | core/cli/install_transaction.go:1547-1572 | the loop over the slots takes the newer of two consecutive records, a single record, or fails |
| Journal.TearsUnforgeable | core/cli/install_transaction.go:1520-1545 | of the mixtures a torn slot write leaves, one whose digest fits has the very content of the old or the new slot, given that the digest does not collide on them and apart from two named accidents |
| Journal.TornWriteIsAtomic | core/cli/install_transaction.go:1736-1743 | a write torn after any number of bytes leaves a file that decodes to exactly the old or exactly the new record; a complete one leaves the new record |
| Journal.RunIsKept | core/cli/install_transaction.go:1734-1736 | after any run of valid transitions generation n sits in slot (n - 1) mod 2 beside generation n - 1 |
| Journal.TornRunIsAtomic | core/cli/install_transaction.go:1712-1763 | both together: after any run of transitions a torn write decodes to the last record or the next |
| Durable.AtMostFive | core/cli/install_transaction.go:1599-1629 | every sequence of valid install transitions from a prepared journal has at most five journals, so generations never run out |
| Durable.HistoryReads | core/cli/install_transaction.go:1547-1572 | the file of an install reads back as its last journal at the generation that counts them |
| Durable.TornWriteIsAStep | core/cli/install_transaction.go:1712-1763 | wherever a journal write of an install is torn, what is read back is the record before it or exactly the next one, which is the step the install model takes |
| Install.Transaction.Authenticate | core/cli/install_transaction.go:1633-1710 | succeeds only if the stored record is the one in memory and, without interference, exactly if the link condition holds too |
| Install.Transaction.WriteJournalTransition | core/cli/install_transaction.go:1712-1763 | stores at most the next record and only a valid transition from the authenticated one |
| Install.Transaction.Promote | core/cli/install_transaction.go:1819-1907 | whoever replaces the target up to and including the exchange, the run stops anywhere in an unfinished install over what the exchange displaced; without faults it installs over the captured original and puts a late substitute back; an install reported over a target holds its exact original as the peer |
| Install.Transaction.ReadyToExchange | core/cli/install_transaction.go:1819-1843 | the checks before an exchange change nothing, end in the fourth turn when they succeed, and succeed on an undisturbed original |
| Install.Transaction.PromoteExisting | core/cli/install_transaction.go:1873-1907 | with others acting in the turn of the exchange itself, the entry then in the target is the occupant of the install from there on, and decides between installed and restored |
| Install.Transaction.ReverseLateSubstitution | core/cli/install_transaction.go:1909-1940 | a substituted occupant is put back in the target and reported as restored; an unfinished install over it is kept wherever this stops |
| Install.Transaction.Rollback | core/cli/install_transaction.go:1966-2014 | never removes the original; an undisturbed rollback puts the occupant back |
| Install.Transaction.Finalize | core/cli/install_transaction.go:2016-2106 | removes nothing but the candidate, or the original an installed candidate replaced, and never touches the target |
| Install.Transaction.RemoveExpectedPeer | core/cli/install_transaction.go:2034-2054 | the peer is removed only when it is exactly the expected entry |
| Install.Transaction.Recover | core/cli/install_transaction.go:2180-2333 | once nobody else acts, recovery of every unfinished install ends with the occupant in the target, restored unless the exact stuck condition holds; a recovery that fails or crashes leaves a recoverable install; a link that does not authenticate leaves everything as it was |
| Install.UnderInterference | core/cli/install_transaction.go:2034-2054 | under arbitrary replacement of the target between any two steps, with failures and crashes anywhere in promotion, rollback, finalization and any number of recoveries, a foreign entry is never removed: it is in a cell or others overwrote it |
| Install.CrashAnywhere | core/cli/install_transaction.go:2261-2333 | others may replace the target up to and including the exchange; however promotion, reversal and rollback then crash or fail, and any number of recoveries after them, the install ends with the target holding what others last put there, the original or the displaced substitute, rolled back by itself or reported by a last recovery as restored or needing recovery |
| Install.InstallSucceeds | core/cli/install_transaction.go:1819-2106 | without faults and interference an install over the captured original ends with the candidate in the target and exactly the original removed, or rolled back with the original in the target; nothing else is left |
| Install.AbsentInstallSucceeds | core/cli/install_transaction.go:1843-1872 | the same to an absent target: the candidate is moved there and nothing is removed; a rollback changes nothing and asks for recovery |
| Install.AbsentRecovery | core/cli/install_transaction.go:2261-2333 | recovery over an absent target ends a transaction that moved nothing, and leaves everything alone once something is in the target |
| Install.CrashedRollback | core/cli/install_transaction.go:2261-2333 | an install whose rollback crashes right after its exchange: the original is in the target, and recovery leaves it there and reports that recovery is required |
| Install.LateSubstitution | core/cli/install_transaction.go:1909-1940 | an entry that replaced the original in the very turn of the exchange is put back in the target and the install reports that it restored |
| Install.RelinkedStays | core/cli/install_transaction.go:1681-1699 | the link condition of that theorem is needed: when the requested link was changed behind an install in place, recovery changes nothing |
| Install.ForeignSurvives | core/cli/install_transaction.go:2034-2054 | authorized removals and the account of all entries leave every foreign entry in a cell or overwritten by others |
| Install.RecoveryCases | core/cli/install_transaction.go:2261-2333 | what the recovery matrix finds in every phase: occupant and candidate in opposite cells and an authentic link unless stuck |
| Ingest.Store.CommitIngest | core/store/store.go:1135-1347 | committed means the objects were published, the reference held the candidate and every literal is stored with its last value; without recovery any other outcome left the backend as it was. Undisturbed, the reference moves only to the candidate and only with the objects published and the literals stored. If every step succeeds, the outcome is committed at the candidate exactly on the expected reference with published objects, not committed with everything as before when the objects were not published, and a conflict exactly on another reference |
| Ingest.Store.ReconcileIngest | core/store/store.go:1271-1334 | a lost response is decided by what the reference holds, and secrets are put back only under a guard that holds it at its expected value; once every step succeeds the outcome is a function of what it holds |
| Ingest.Store.CommitPrepared | core/store/store.go:1204-1270 | under the lock: committed only with published objects; if every step succeeds exactly then, and otherwise secrets and reference are as before with recovery exactly if objects may remain |
| Ingest.Store.ApplyPreparedSecrets | core/store/store.go:874-891 | either every secret is stored, or the backend is as before, or a failed rollback is reported |
| Ingest.Store.RestoreSecretPriors | core/store/store.go:851-872 | success means the backend equals its prior value although failures do not stop the loop |
| Ingest.Store.SnapshotSecretPriors | core/store/store.go:839-849 | the priors recall every pending key's value or absence |
| Ingest.Store.CommitWorktree | core/store/store.go:297-378 | the same truth for a worktree document; if every step succeeds it commits at the candidate with every literal stored exactly on the expected reference, and on another one it is a conflict that changed nothing |
| Ingest.Store.ReconcileWorktreeCommit | core/store/store.go:446-479 | a lost response of a worktree commit, decided the same way |
| Ingest.CollectPending | core/store/secret.go:100-165 | one write per key in order of first appearance, with the value that appears last |
| Ingest.StoresLiterals | core/store/secret.go:100-165 | storing the collected writes stores every literal with its last value and changes nothing else |
| Lists.ComposeList | core/activate/builder.go:347-368 | accepts exactly valid lists of known names and splices the current stream for the list's own value |
| Lists.ComposeLegacyList | core/activate/builder.go:375-394 | the interleaving loop splices the current stream at the base index of an accepted legacy value |
| Lists.PathDelta | core/activate/builder.go:431-489 | accepts exactly one reference to the list itself at either end and acceptable parts elsewhere, in order |
| Lists.ValidateList | core/model/profile.go:44-62 | accepts exactly well-formed segments with one self marker |
| Lists.StreamExecutes | core/activate/builder.go:347-394 | any mixture of semantic and legacy assignments keeps exactly one base token, and executing the stream equals executing the assignments one after another |
| Lists.ReduceStream | core/activate/builder.go:324-337 | additions, their flags and the base index that denote the stream again |
| Build.Build | core/activate/builder.go:200-338 | the delete-and-shift loop computes the last accepted occurrence of every scalar, function and option with exports accumulated, the last bodies and aliases, and one reduced list per written name |
| Build.MoveToEnd | core/activate/builder.go:237-248 | deleting by index, shifting the index map and appending is removing the earlier occurrence of the key |
| Build.NormalSnoc | core/activate/builder.go:233-248 | one more scalar moves its name to the end and keeps an earlier export |
| Build.ListsKeepTheirMeaning | core/activate/builder.go:347-394 | expanding the base index and additions of a built list equals executing its accepted assignments in source order, for any base list and any late-bound values |
| Build.UnwrittenLists | core/activate/builder.go:347-394 | a list without an accepted assignment is left alone |
| Manifests.OptionsMean | core/activate/builder.go:304-323 | a built manifest holds an option exactly as the last active options command naming it says, on after setopt and off after unsetopt, in the order of those last mentions |
| Manifests.ScalarsMean | core/activate/builder.go:228-249 | it holds a variable with exactly the text and dynamic flag of its last accepted entry, exported exactly if any accepted entry exported it, in the order of the last entries |
| Manifests.AliasesMean | core/activate/builder.go:268-276 | it holds an alias exactly as its last accepted entry says |
| Manifests.FunctionsMean | core/activate/builder.go:277-303 | it declares exactly the functions some accepted entry declares, each with the body of the last one, in the order of the last mentions |
| Manifests.ListsMean | core/activate/builder.go:250-267 | it holds exactly the lists some accepted entry writes, in the order they were last written |
| Manifests.ListRuns | core/activate/builder.go:250-267 | activating a built list is running its accepted entries one after the other, from any list and for any late-bound parts |
| Build.NormalizeManifest | core/activate/diff.go:213-271 | the two-pass normalizers keep the last occurrence of every name, exported if any was |
| Build.BuiltIsNormal | core/activate/diff.go:213-271 | normalization is the identity on every built manifest |
| Build.Diff | core/activate/diff.go:157-211 | refuses exactly an unacceptable target and else plans on the normalized manifests |
| Build.BuiltIsAccepted | core/activate/diff.go:157-211 | a built manifest is never refused and is planned on unchanged |
| Compiled.LiveStatesFromManifest | core/activate/builder.go:76-153 | the loops list every value once, by its last mention in the entries and then in manifest order |
| Compiled.LiveStatesFacts | core/activate/builder.go:76-153 | the live states of a manifest are distinct and present, so they are well formed exactly if their values are valid |
| Compiled.LiveStatesMean | core/activate/builder.go:76-153 | as a map they are the values of the manifest exactly if every alias comes from some entry without a secret reference |
| Compiled.SecretFreeAliases | core/activate/builder.go:76-153 | in a built manifest that is so whenever no alias entry holds a secret reference |
| Compiled.SecretAliasIsMissing | core/activate/builder.go:155-158 | an alias entry with a secret reference that is built and leaves no live state |
| Compiled.BuildEffective | core/activate/builder.go:18-29 | fails exactly on invalid live states or an invalid overlay and else projects the normalized overlay on the built values |
| Compiled.EffectiveStatesMean | core/worktree/service.go:104-112 | what a commit rebuilds from its source denotes the built values with the dirty changes applied |
| Compiled.RebuildMatches | core/worktree/service.go:104-112 | the check whose failure makes a commit require recovery holds exactly if, within the snapshot limits, the source gives the committed value of every identity that is not dirty |
| Compiled.CommitMatches | core/worktree/service.go:104-112 | the same for a source compiled from entries: the built values agree with the committed projection outside the dirty identities |
| SecondCommit.SecondCommitNeedsRecovery | core/worktree/service.go:104-112 | a run of publish, commit and publish after which every commit requires recovery and changes nothing, whatever the repository would answer |
| Patch.DiffLiveStates | core/activate/diff.go:42-78 | the activation traversal computes the ordered difference of the denoted maps |
| Patch.DiffsAgree | core/activate/diff.go:42-78 | on snapshots within the limits both packages compute the same changes |
| Patch.LiveChangesToOps | core/activate/diff.go:99-143 | one operation per change in order, refused exactly when a change has none |
| Patch.BuildLivePatch | core/activate/diff.go:10-36 | refused exactly on invalid states; forward turns the values before into the values after and the replacement reverse turns them back |
| Patch.PatchRoundTrip | core/activate/diff.go:10-36 | doing and undoing is the identity both ways, the plans have the same length and are empty exactly between equal maps |

## Left out

- Journal.TornWriteIsAtomic: assumes that the digest does not collide on the contents of these torn slots (an injective 32-byte digest does not exist), and excludes two accidents that no digest over the contents can (`Journal.NoAccident`): a tear inside the digest field that happens to leave the digest of the new header over the old payload, and a digest of zeros over the empty slot beside generation 1. The write of the first prepared journal into a new file is not torn.
- Replay.AttachReplays: counts operations that added a receipt for the shell, so it says nothing about replays after 64 of them, which the source refuses as a second attach.
- Install.CrashAnywhere: others leave the requested link as it was captured and do not act after the exchange; what holds when they do is `Install.UnderInterference` and `Install.RelinkedStays`. A run whose journal already reached the finalized state is not promised a restored target; the install is then complete.
- Workflow.CommitSafe: only safety is stated; what a commit comes to is `Branches.CommitConcludes`, when the rebuild of the source matches is `Compiled.RebuildMatches`, and that a commit eventually succeeds is false (`SecondCommit.SecondCommitNeedsRecovery`).
- The byte size limit of the encoded state (MAX_STATE_BYTES) needs the JSON encoding and is not modelled; the other size limits are `State.WithinLimits`.
- Build.Diff: the operation lists derived from the two manifests are not modelled, only which manifests they are derived from and when they are refused.
- Patch.BuildLivePatch: operations are interpreted as updates of a map of live values, not as zsh text.
- Whether an empty list is nil or has no elements, and payload combinations no kind accepts, are not distinguished.
- The text form of event operation IDs is a constructor; the schema number and the migration of documents without admitted identities are not modelled.
- LastRecoveredError, AutoApplyOverride, the status and branch queries, categorized diffs and forensic fields only add easy members.
- The redaction of secrets, pinned secrets and source profiles inside the registry are summarized by the owned and pinned sets of a committed source.
- The base states of a committed source are a field of it; `Compiled` shows how a profile produces them.
- Structural fidelity of a source entry is one flag, and the grammar of legacy list additions is a parameter.
- hasOrdinaryPostEnd, the warning about text after the block, is not modelled.
- System calls, descriptors, inode authentication, file locks and synchronization are steps that may fail; the constant fields of a journal and directory evidence are not modelled.
- Git subprocesses, object hashing and publication, quarantine and cleanup are given outcomes of the ingest commit.
- JSON, regular expressions of the parser, cryptography, random tokens, lock timeouts, command-line parsing, rendering and generated zsh text are not part of this model.
- Fingerprint.FingerprintsDecideMaps: names and values are sequences of characters. The JSON encoder replaces bytes that are not valid UTF-8 and validation excludes only NUL, so in the code two different malformed texts can share a fingerprint.
- Unicode normalization and encoding are not modelled: names and values are sequences of characters, startup files sequences of bytes.
