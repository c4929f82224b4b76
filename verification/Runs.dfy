/**
 * Runs of the protocol: any sequence of operations by any shells, interleaved with
 * checkouts, resets, commits and repairs. An operation that fails, or whose result the
 * store rejects, leaves the canonical state as it was.
 */
module Runs {
  import opened Wrappers
  import opened LastOccurrence
  import opened Live
  import opened Diff
  import opened Fingerprint
  import opened Projection
  import opened State
  import opened Registry
  import opened Steps
  import opened Protocol
  import opened Preservation
  import opened Keeps
  import opened Workflow

  datatype Op =
    | DoMaterialize(branch: string, oid: string, committed: Committed)
    | DoAttach(attach: AttachRequest)
    | DoPublish(publish: PublishRequest)
    | DoPrepare(prepare: PrepareRequest)
    | DoResolve(resolve: ResolveRequest)
    | DoAcknowledge(acknowledge: AcknowledgeRequest)
    | DoRepair(current: RefReply)
    | DoCheckout(target: string, create: bool, current: RefReply, created: bool, document: RefReply)
    | DoReset(original: Option<Committed>)
    | DoCommit(message: string, reply: CommitReply)
    | DoSetAutoApply(enabled: bool)

  const EMPTY_COMMITTED: Committed := Committed(Source({}, {}, []), Projection([], []))

  const INITIAL: State := State(false, "", "", EMPTY_COMMITTED, 0, false, [], [], 0, [], [], map[], [])

  function StateOf(r: Result<Step, Error>): Option<State> {
    if r.Ok? then Some(r.value.state) else None
  }

  function Succeeded(r: Result<State, Error>): Option<State> {
    if r.Ok? then Some(r.value) else None
  }

  /** The state a transaction callback leaves behind, when it does not fail. */
  ghost function Callback(policy: Policy, s: State, op: Op): Option<State> {
    match op
    case DoMaterialize(branch, oid, committed) => Succeeded(MaterializeStep(policy, s, branch, oid, committed))
    case DoAttach(request) => StateOf(AttachStep(policy, s, request))
    case DoPublish(request) => StateOf(PublishStep(policy, s, request))
    case DoPrepare(request) => StateOf(PrepareStep(s, request))
    case DoResolve(request) => StateOf(ResolveStep(policy, s, request))
    case DoAcknowledge(request) => StateOf(AcknowledgeStep(policy, s, request))
    case DoRepair(current) => if s.materialized then Succeeded(RepairStep(policy, s, current)) else None
    case DoCheckout(branch, create, current, created, document) =>
      Succeeded(CheckoutStep(policy, s, branch, create, current, created, document))
    case DoReset(original) => Succeeded(ResetStep(policy, s, original))
    case DoCommit(message, reply) => Some(CommitStep(policy, s, message, reply).state)
    case DoSetAutoApply(enabled) => if s.materialized then Some(s.(autoApplyDefault := enabled)) else None
  }

  /** The transaction: what the callback leaves is stored only if it validates. */
  ghost function Next(policy: Policy, s: State, op: Op): State {
    match Callback(policy, s, op)
    case None => s
    case Some(next) => if ValidState(next) then next else s
  }

  ghost function Run(policy: Policy, ops: seq<Op>): State {
    if ops == [] then INITIAL else Next(policy, Run(policy, ops[..|ops| - 1]), ops[|ops| - 1])
  }

  /** The generation shared at every revision the run has reached. */
  ghost function RunHistory(policy: Policy, ops: seq<Op>): Generations {
    if ops == [] then BEFORE_MATERIALIZATION
    else Recording(RunHistory(policy, ops[..|ops| - 1]), Run(policy, ops))
  }

  // ---------------------------------------------------------------- every step

  lemma AutoApplyKeeps(s: State, g: Generations, enabled: bool)
    requires Inv(s, g) && s.materialized
    ensures Inv(s.(autoApplyDefault := enabled), g)
  {
    hide ValidShell, ShellCausal, EventsConnect, FoldEvents, MapOf, ValidCommitted, CanonicalAdmitted, WellFormed,
         ValidEventSequence, ValidBranch, ValidOid, AllValid, Distinct, ValidReceipts;
  }

  lemma CallbackKeeps(policy: Policy, s: State, g: Generations, op: Op)
    requires Inv(s, g) && Callback(policy, s, op).Some?
    ensures Sustains(g, Callback(policy, s, op).value)
  {
    hide Inv, AttachStep, PublishStep, PrepareStep, ResolveStep, AcknowledgeStep, MaterializeStep, RepairStep,
         CheckoutStep, ResetStep, CommitStep, Recording;
    match op
    case DoMaterialize(branch, oid, committed) => MaterializeKeeps(policy, s, g, branch, oid, committed);
    case DoAttach(request) => AttachKeeps(policy, s, g, request);
    case DoPublish(request) => PublishKeeps(policy, s, g, request);
    case DoPrepare(request) => PrepareKeeps(s, g, request);
    case DoResolve(request) => ResolveKeeps(policy, s, g, request);
    case DoAcknowledge(request) => AcknowledgeKeeps(policy, s, g, request);
    case DoRepair(current) => RepairKeeps(policy, s, g, current);
    case DoCheckout(branch, create, current, created, document) =>
      CheckoutKeeps(policy, s, g, branch, create, current, created, document);
    case DoReset(original) => ResetKeeps(policy, s, g, original);
    case DoCommit(message, reply) => CommitSafe(policy, s, g, message, reply);
    case DoSetAutoApply(enabled) =>
      AutoApplyKeeps(s, g, enabled);
      Unchanged(s.(autoApplyDefault := enabled), g);
  }

  /**
   * Validation rejects the result of a successful callback only for its size or because the
   * revision space is exhausted: every other check of ValidateState is kept by every operation.
   */
  lemma ValidationOnlyLimits(policy: Policy, s: State, g: Generations, op: Op)
    requires Inv(s, g) && Callback(policy, s, op).Some?
    ensures ValidState(Callback(policy, s, op).value) <==> WithinLimits(Callback(policy, s, op).value)
  {
    CallbackKeeps(policy, s, g, op);
  }

  lemma InitialInv()
    ensures Inv(INITIAL, BEFORE_MATERIALIZATION)
  {
  }

  /** The protocol invariant holds after every run. */
  lemma {:induction false} RunKeeps(policy: Policy, ops: seq<Op>)
    ensures Inv(Run(policy, ops), RunHistory(policy, ops))
  {
    if ops == [] {
      InitialInv();
    } else {
      var before, op := ops[..|ops| - 1], ops[|ops| - 1];
      var s, g := Run(policy, before), RunHistory(policy, before);
      RunKeeps(policy, before);
      hide Inv, Callback, Recording, ValidState;
      SameHeadSameHistory(s, g);
      if Callback(policy, s, op).Some? {
        CallbackKeeps(policy, s, g, op);
      }
    }
  }

  // ---------------------------------------------------------------- the revision counter

  /** A revision is spent exactly when the shared generation changes. */
  ghost predicate Counts(s: State, s': State) {
    s'.materialized && s'.headRevision == s.headRevision + if MapOf(s'.shared) == MapOf(s.shared) then 0 else 1
  }

  lemma MergeCounts(s: State, request: PublishRequest, shell: Shell, observed: seq<LiveState>,
                    semantic: seq<LiveChange>)
    requires s.materialized && WellFormed(s.shared) && ValidChanges(semantic)
    ensures var r := Merge(s, request, shell, observed, semantic);
            r.Ok? ==> Counts(s, r.value.state)
  {
    var acknowledged := request.acknowledgedRevision;
    var accepted := Accepted(s, acknowledged, semantic);
    AcceptedChangesGeneration(s, acknowledged, semantic);
    SplitValid(s, acknowledged, semantic);
    ApplyChangesMap(s.shared, accepted);
    hide Accepted, Losing, ApplyChanges, MapOf, WellFormed, ValidChanges, WithReceipt, ConflictsOf, Compact;
  }

  lemma CountsAdmitted(s: State, admitted: seq<Identity>, s': State)
    requires Counts(s.(admitted := admitted), s')
    ensures Counts(s, s')
  {
  }

  lemma PublishCounts(policy: Policy, s: State, g: Generations, request: PublishRequest)
    requires Inv(s, g) && PublishStep(policy, s, request).Ok?
    ensures Counts(s, PublishStep(policy, s, request).value.state)
  {
    PublishIs(policy, s, request);
    var id := request.credential.shellId;
    if ReceiptFor(s.receipts, id, request.operationId).None? {
      InvShell(s, g, id);
      assert CanonicalAdmitted(s.admitted);
      hide *;
      var shell := s.shells[id];
      FilteredChangesSound(policy, s, shell, request.delta);
      var filtered := FilterChanges(policy, s, shell, request.delta).value;
      ObservedSound(shell.captureBaseline, filtered.kept);
      var observed := ApplyChanges(shell.captureBaseline, filtered.kept);
      MergeCounts(s.(admitted := filtered.admitted), request, shell, observed,
                  DiffMaps(MapOf(shell.captureBaseline), MapOf(observed)));
      CountsAdmitted(s, filtered.admitted, PublishStep(policy, s, request).value.state);
    }
  }

  /** After materialization every operation raises the head by one or leaves the generation alone. */
  lemma StepCounts(policy: Policy, s: State, g: Generations, op: Op)
    requires Inv(s, g) && s.materialized && Callback(policy, s, op).Some?
    ensures Counts(s, Callback(policy, s, op).value)
  {
    hide Inv, AttachStep, PublishStep, PrepareStep, ResolveStep, AcknowledgeStep, ReplaceStep, RepairStep,
         CommitStep, MapOf, ResetStep, CheckoutStep, NewShell, Pulled, ResolvingShell, AcknowledgedShell,
         WithReceipt, FilterSnapshot, FilterChanges, ReceiptFor, DiffMaps, ValidCommitted, FingerprintOf;
    match op
    case DoMaterialize(branch, oid, committed) =>
    case DoAttach(request) => AttachIs(policy, s, request);
    case DoPublish(request) => PublishCounts(policy, s, g, request);
    case DoPrepare(request) => PrepareIs(s, request);
    case DoResolve(request) => ResolveIs(policy, s, request);
    case DoAcknowledge(request) => AcknowledgeIs(policy, s, request);
    case DoRepair(current) => RepairKeeps(policy, s, g, current);
    case DoCheckout(branch, create, current, created, document) =>
      CheckoutCounts(policy, s, g, branch, create, current, created, document);
    case DoReset(original) => ResetCounts(policy, s, g, original);
    case DoCommit(message, reply) => CommitSafe(policy, s, g, message, reply);
    case DoSetAutoApply(enabled) =>
  }

  lemma CheckoutCounts(policy: Policy, s: State, g: Generations, branch: string, create: bool, current: RefReply,
                       created: bool, target: RefReply)
    requires Inv(s, g) && CheckoutStep(policy, s, branch, create, current, created, target).Ok?
    ensures Counts(s, CheckoutStep(policy, s, branch, create, current, created, target).value)
  {
    RepairKeeps(policy, s, g, current);
    var s1 := RepairStep(policy, s, current).value;
    ReplaceKeeps(policy, s1, g, branch, target.observed.value, target.exact.value, "checkout");
    ReplaceMaterialized(policy, s1, branch, target.observed.value, target.exact.value, "checkout");
  }

  lemma ResetCounts(policy: Policy, s: State, g: Generations, target: Option<Committed>)
    requires Inv(s, g) && ResetStep(policy, s, target).Ok?
    ensures Counts(s, ResetStep(policy, s, target).value)
  {
    assert ValidBranch(s.branch) && ValidOid(s.baseOid);
    ReplaceKeeps(policy, s, g, s.branch, s.baseOid, target.value, "reset");
    ReplaceMaterialized(policy, s, s.branch, s.baseOid, target.value, "reset");
  }

  lemma ReplaceMaterialized(policy: Policy, s: State, branch: string, oid: string, document: Committed,
                            operation: string)
    requires s.materialized && ReplaceStep(policy, s, branch, oid, document, operation).Ok?
    ensures ReplaceStep(policy, s, branch, oid, document, operation).value.materialized
  {
    hide RegistryReady, DiffMaps, Compact, Refreshed, InBounds, AllValid;
  }

  // ---------------------------------------------------------------- the history is the past

  lemma MaterializedHead(policy: Policy, s: State, g: Generations, op: Op)
    requires Inv(s, g)
    ensures s.headRevision <= Next(policy, s, op).headRevision
    ensures s.materialized ==> Next(policy, s, op).materialized
    ensures s.materialized && Next(policy, s, op).headRevision == s.headRevision ==>
              MapOf(Next(policy, s, op).shared) == MapOf(s.shared)
  {
    if s.materialized && Callback(policy, s, op).Some? {
      StepCounts(policy, s, g, op);
    }
    hide Callback, MapOf, ValidState;
    if !s.materialized {
      assert s.headRevision == 0;
    }
  }

  lemma LaterOnlyAdds(head: nat, g: Generations, s: State)
    requires Covers(g, head) && s.materialized && head <= s.headRevision
    requires s.headRevision == head ==> MapOf(s.shared) == g[head]
    ensures Extends(g, Recording(g, s))
  {
    hide MapOf;
  }

  lemma RecordingOnlyAdds(policy: Policy, s: State, g: Generations, op: Op)
    requires Inv(s, g)
    ensures Extends(g, Recording(g, Next(policy, s, op)))
  {
    var s' := Next(policy, s, op);
    MaterializedHead(policy, s, g, op);
    if s.materialized {
      InvCovers(s, g);
      hide *;
      LaterOnlyAdds(s.headRevision, g, s');
    } else if s'.materialized {
      CallbackKeeps(policy, s, g, op);
      assert 0 < s'.headRevision;
    }
  }

  /**
   * The history records the past faithfully: at every moment of a run the generation then
   * shared is the one the final history lists under the revision then current.
   */
  lemma {:induction false} HistoryIsThePast(policy: Policy, ops: seq<Op>, k: nat)
    requires k <= |ops|
    ensures Extends(RunHistory(policy, ops[..k]), RunHistory(policy, ops))
    ensures var past := Run(policy, ops[..k]);
            past.materialized ==> past.headRevision in RunHistory(policy, ops) &&
                                  RunHistory(policy, ops)[past.headRevision] == MapOf(past.shared)
    decreases |ops| - k
  {
    RunKeeps(policy, ops[..k]);
    if k == |ops| {
      assert ops[..k] == ops;
    } else {
      assert ops[..k + 1][..k] == ops[..k];
      RecordingOnlyAdds(policy, Run(policy, ops[..k]), RunHistory(policy, ops[..k]), ops[k]);
      HistoryIsThePast(policy, ops, k + 1);
    }
  }

  // ---------------------------------------------------------------- main invariants, read off

  /**
   * In every reachable state a shell that has applied a revision holds, as its applied
   * baseline, exactly the generation shared at that revision.
   */
  lemma AppliedBaselineIsItsGeneration(policy: Policy, ops: seq<Op>, id: string)
    requires id in Run(policy, ops).shells && Run(policy, ops).shells[id].appliedRevision != 0
    ensures var shell := Run(policy, ops).shells[id];
            && shell.appliedRevision in RunHistory(policy, ops)
            && MapOf(shell.appliedBaseline) == RunHistory(policy, ops)[shell.appliedRevision]
  {
    RunKeeps(policy, ops);
    MaterializedShells(Run(policy, ops), RunHistory(policy, ops), id);
  }

  lemma MaterializedShells(s: State, g: Generations, id: string)
    requires Inv(s, g) && id in s.shells
    ensures s.materialized && Covers(g, s.headRevision) && ShellCausal(s.shells[id], s.headRevision, g)
    ensures ValidShell(id, s.shells[id], s.headRevision)
  {
  }

  /**
   * Applying a pending transition to the capture it was prepared against yields the generation
   * of its revision, and its fingerprint is that generation's, whatever happened since.
   */
  lemma PendingLeadsToItsGeneration(policy: Policy, ops: seq<Op>, id: string)
    requires id in Run(policy, ops).shells && !Run(policy, ops).shells[id].pending.NoPending?
    ensures var shell := Run(policy, ops).shells[id];
            && shell.pending.revision in RunHistory(policy, ops)
            && ApplyEdits(MapOf(shell.captureBaseline), EditsOf(shell.pending.changes)) ==
               RunHistory(policy, ops)[shell.pending.revision]
            && Identifies(shell.pending.fingerprint, RunHistory(policy, ops)[shell.pending.revision])
  {
    RunKeeps(policy, ops);
    MaterializedShells(Run(policy, ops), RunHistory(policy, ops), id);
  }

  /** A conflict and an unpublished delta exist together, and never beside a pending pull. */
  lemma ConflictsCarryTheirDelta(policy: Policy, ops: seq<Op>, id: string)
    requires id in Run(policy, ops).shells
    ensures var shell := Run(policy, ops).shells[id];
            && (shell.conflict.Some? <==> shell.unpublishedDelta != [])
            && (shell.conflict.Some? ==>
                  shell.conflict.value.identity in Keys(ChangeIdentity, shell.unpublishedDelta) && !shell.pending.Pull?)
            && (shell.pending.Resolution? ==>
                  shell.conflict.Some? && shell.conflict.value.identity == shell.pending.conflict &&
                  shell.conflict.value.token == shell.pending.token)
  {
    RunKeeps(policy, ops);
    MaterializedShells(Run(policy, ops), RunHistory(policy, ops), id);
  }

  /**
   * The shared generation is the compaction baseline with the retained events folded over it,
   * and the events run without a gap from the floor to the head.
   */
  lemma SharedIsFoldedHistory(policy: Policy, ops: seq<Op>)
    requires Run(policy, ops).materialized
    ensures var s := Run(policy, ops);
            && MapOf(FoldEvents(s.compactionBaseline, s.events)) == MapOf(s.shared)
            && ValidEventSequence(s.compactionFloor, s.headRevision, s.events)
            && |s.events| <= MAX_STATE_EVENTS
            && s.compactionFloor in RunHistory(policy, ops)
            && MapOf(s.compactionBaseline) == RunHistory(policy, ops)[s.compactionFloor]
  {
    RunKeeps(policy, ops);
  }
}
