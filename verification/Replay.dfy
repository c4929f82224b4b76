/**
 * Receipts over runs: every shell keeps an exact window of its newest operations, so a
 * repeated operation is answered from its receipt; and a conflict ends in one way only.
 */
module Replay {
  import opened Wrappers
  import opened Live
  import opened Diff
  import opened Fingerprint
  import opened State
  import opened Registry
  import opened Steps
  import opened Protocol
  import opened Preservation
  import opened Keeps
  import opened Workflow
  import opened Runs

  // ---------------------------------------------------------------- what one operation does to a shell

  /** The shell an operation is asked by, if it is a shell's own operation. */
  function Caller(op: Op): Option<string> {
    match op
    case DoAttach(r) => Some(r.credential.shellId)
    case DoPublish(r) => Some(r.credential.shellId)
    case DoPrepare(r) => Some(r.credential.shellId)
    case DoResolve(r) => Some(r.credential.shellId)
    case DoAcknowledge(r) => Some(r.credential.shellId)
    case _ => None
  }

  /** What every operation leaves of a shell that is not its caller. */
  ghost predicate Untouched(shell: Shell, shell': Shell) {
    && shell'.verifier == shell.verifier && shell'.conflict == shell.conflict
    && shell'.unpublishedDelta == shell.unpublishedDelta && shell'.pending == shell.pending
    && shell'.appliedRevision == shell.appliedRevision && shell'.appliedBaseline == shell.appliedBaseline
    && shell'.captureBaseline == shell.captureBaseline && shell'.transition == shell.transition
  }

  /** What a shell keeps for good from its attach on. */
  predicate SameOrigin(shell: Shell, shell': Shell) {
    && shell'.verifier == shell.verifier && shell'.attachedRevision == shell.attachedRevision
    && shell'.presentAtAttach == shell.presentAtAttach && shell'.exclusions == shell.exclusions
  }

  /** The receipts gain at most one entry, for the caller, under an unused operation ID. */
  ghost predicate Adds(s: State, s': State, caller: Option<string>) {
    || s'.receipts == s.receipts
    || exists r: Receipt ::
         && caller == Some(r.shellId) && s'.receipts == WithReceipt(s.receipts, r)
         && ReceiptFor(s.receipts, r.shellId, r.operationId).None?
  }

  ghost predicate Local(s: State, s': State, caller: Option<string>) {
    && Adds(s, s', caller)
    && (forall id | id in s.shells :: id in s'.shells && SameOrigin(s.shells[id], s'.shells[id]))
    && (forall id | id in s.shells && caller != Some(id) :: Untouched(s.shells[id], s'.shells[id]))
    && (forall id | id in s'.shells :: id in s.shells || caller == Some(id))
  }

  lemma RecordedLocal(s: State, base: State, credential: Credential, operationId: string,
                      digest: RequestDigest, shell: Shell, reply: Reply)
    requires base.shells == s.shells && base.receipts == s.receipts
    requires ReceiptFor(s.receipts, credential.shellId, operationId).None?
    requires credential.shellId in s.shells ==> SameOrigin(s.shells[credential.shellId], shell)
    ensures Local(s, Recorded(base, credential, operationId, digest, shell, reply).state, Some(credential.shellId))
  {
    var r := Receipt(credential.shellId, operationId, digest, reply);
    var s' := Recorded(base, credential, operationId, digest, shell, reply).state;
    hide WithReceipt, ReceiptFor;
    assert s'.receipts == WithReceipt(s.receipts, r);
  }

  lemma SameShellsLocal(s: State, s': State, caller: Option<string>)
    requires s'.shells == s.shells && s'.receipts == s.receipts
    ensures Local(s, s', caller)
  {
  }

  lemma MergeLocal(s: State, admitted: seq<Identity>, request: PublishRequest, observed: seq<LiveState>,
                   semantic: seq<LiveChange>)
    requires request.credential.shellId in s.shells
    requires ReceiptFor(s.receipts, request.credential.shellId, request.operationId).None?
    requires Merge(s.(admitted := admitted), request, s.shells[request.credential.shellId], observed, semantic).Ok?
    ensures Local(s, Merge(s.(admitted := admitted), request, s.shells[request.credential.shellId], observed,
                           semantic).value.state, Some(request.credential.shellId))
  {
    var s0 := s.(admitted := admitted);
    var shell := s.shells[request.credential.shellId];
    var s1 := Generation(s0, request, semantic);
    GenerationShells(s0, request, semantic);
    MergeIs(s0, request, shell, observed, semantic);
    hide Merge, Generation, Local, Accepted, Losing, Recorded;
    var acknowledged := request.acknowledgedRevision;
    var losing := Losing(s0, acknowledged, semantic);
    var digest := PublishDigest(acknowledged, request.delta);
    var kind := if acknowledged < s0.compactionFloor then HistoryGap else Overlap;
    var conflicts := ConflictsOf(losing, kind, acknowledged, s1.headRevision,
                                 ConflictToken(request.operationId, digest, s1.headRevision));
    var published := PublishedShell(shell, s1.headRevision, observed, losing, conflicts);
    RecordedLocal(s, s1, request.credential, request.operationId, digest, published,
                  Published(s1.headRevision, ChangeIds(Accepted(s0, acknowledged, semantic)), conflicts));
  }

  lemma GenerationShells(s: State, request: PublishRequest, semantic: seq<LiveChange>)
    ensures Generation(s, request, semantic).shells == s.shells
    ensures Generation(s, request, semantic).receipts == s.receipts
  {
    hide Accepted, Compact, ApplyChanges;
  }

  lemma PublishLocal(policy: Policy, s: State, request: PublishRequest)
    requires PublishStep(policy, s, request).Ok?
    ensures Local(s, PublishStep(policy, s, request).value.state, Some(request.credential.shellId))
  {
    PublishIs(policy, s, request);
    var id := request.credential.shellId;
    if ReceiptFor(s.receipts, id, request.operationId).Some? {
      SameShellsLocal(s, s, Some(id));
    } else {
      var shell := s.shells[id];
      var filtered := FilterChanges(policy, s, shell, request.delta).value;
      var observed := ApplyChanges(shell.captureBaseline, filtered.kept);
      hide *;
      MergeLocal(s, filtered.admitted, request, observed, DiffMaps(MapOf(shell.captureBaseline), MapOf(observed)));
    }
  }

  lemma ReplyLocal(policy: Policy, s: State, op: Op)
    requires Callback(policy, s, op).Some? && Caller(op).Some?
    requires ValidReceipts(s.receipts, s.shells)
    ensures Local(s, Callback(policy, s, op).value, Caller(op))
  {
    hide AttachStep, PublishStep, PrepareStep, ResolveStep, AcknowledgeStep, Recorded, Local, NewShell, DiffMaps,
         FilterSnapshot, FilterChanges, MapOf, ReceiptFor, Merge, ValidReceipts;
    var s' := Callback(policy, s, op).value;
    match op
    case DoAttach(r) =>
      AttachIs(policy, s, r);
      if r.credential.shellId in s.shells {
        SameShellsLocal(s, s', Caller(op));
      } else {
        var shell := NewShell(policy, s, r);
        NoReceiptBeforeAttach(s, r.credential.shellId, r.operationId);
        RecordedLocal(s, s, r.credential, r.operationId, AttachDigest(r.initial.byteSize, r.initial.states),
                      shell,
                      Attached(s.headRevision, shell.attachState == CleanReconcile, shell.exclusions));
      }
    case DoPublish(r) => PublishLocal(policy, s, r);
    case DoPrepare(r) => PrepareLocal(s, r);
    case DoResolve(r) => ResolveLocal(policy, s, r);
    case DoAcknowledge(r) => AcknowledgeLocal(policy, s, r);
  }

  lemma PrepareLocal(s: State, r: PrepareRequest)
    requires PrepareStep(s, r).Ok?
    ensures Local(s, PrepareStep(s, r).value.state, Some(r.credential.shellId))
  {
    PrepareIs(s, r);
    hide PrepareStep, Recorded, Local, DiffMaps, MapOf, ReceiptFor;
    var id := r.credential.shellId;
    if ReceiptFor(s.receipts, id, r.operationId).Some? {
      SameShellsLocal(s, s, Some(id));
    } else {
      var digest := PrepareDigest(r.appliedRevision);
      var shell := Reported(s.shells[id], r.appliedRevision);
      var changes := DiffMaps(MapOf(s.shells[id].captureBaseline), MapOf(s.shared));
      var token := PullToken(r.operationId, digest, s.headRevision);
      RecordedLocal(s, s, r.credential, r.operationId, digest, shell.(lastActiveRevision := s.headRevision),
                    Prepared(0, NoToken, []));
      RecordedLocal(s, s, r.credential, r.operationId, digest, Pulled(shell, s, token, changes),
                    Prepared(s.headRevision, token, changes));
    }
  }

  lemma ResolveLocal(policy: Policy, s: State, r: ResolveRequest)
    requires ResolveStep(policy, s, r).Ok?
    ensures Local(s, ResolveStep(policy, s, r).value.state, Some(r.credential.shellId))
  {
    ResolveIs(policy, s, r);
    hide ResolveStep, Recorded, Local, DiffMaps, MapOf, ReceiptFor, FilterSnapshot;
    var id := r.credential.shellId;
    var shell := s.shells[id];
    var filtered := FilterSnapshot(policy, s, shell, r.snapshot.states).value;
    var s0 := s.(admitted := filtered.admitted);
    if ReceiptFor(s.receipts, id, r.operationId).Some? {
      SameShellsLocal(s, s0, Some(id));
    } else {
      var changes := DiffMaps(MapOf(filtered.kept), MapOf(s.shared));
      RecordedLocal(s, s0, r.credential, r.operationId,
                    ResolveDigest(r.conflict, r.token, filtered.kept),
                    ResolvingShell(shell, s, r.token, r.conflict, changes), Resolved(s.headRevision, r.token, changes));
    }
  }

  lemma AcknowledgeLocal(policy: Policy, s: State, r: AcknowledgeRequest)
    requires AcknowledgeStep(policy, s, r).Ok?
    ensures Local(s, AcknowledgeStep(policy, s, r).value.state, Some(r.credential.shellId))
  {
    AcknowledgeIs(policy, s, r);
    hide AcknowledgeStep, Recorded, Local, MapOf, ReceiptFor, FilterSnapshot;
    var id := r.credential.shellId;
    var shell := s.shells[id];
    var filtered := FilterSnapshot(policy, s, shell, r.snapshot.states).value;
    var s0 := s.(admitted := filtered.admitted);
    if ReceiptFor(s.receipts, id, r.operationId).Some? {
      SameShellsLocal(s, s0, Some(id));
    } else {
      RecordedLocal(s, s0, r.credential, r.operationId,
                    AcknowledgeDigest(r.revision, r.token, filtered.kept),
                    AcknowledgedShell(shell, s.headRevision, filtered.kept),
                    Reply.Acknowledged(shell.pending.revision));
    }
  }

  lemma AdvancedShells(s: State, origin: Origin, changes: seq<LiveChange>, shared: seq<LiveState>)
    ensures Advanced(s, origin, changes, shared).shells == s.shells
    ensures Advanced(s, origin, changes, shared).receipts == s.receipts
  {
    hide Compact;
  }

  lemma RefreshLocal(s: State, s1: State)
    requires s1.shells == s.shells && s1.receipts == s.receipts
    ensures Local(s, RefreshAll(s1), None)
  {
    hide SameStates;
  }

  lemma ReplaceLocal(policy: Policy, s: State, branch: string, oid: string, document: Committed, operation: string)
    requires ReplaceStep(policy, s, branch, oid, document, operation).Ok?
    ensures Local(s, ReplaceStep(policy, s, branch, oid, document, operation).value, None)
  {
    var target := document.projection.states;
    var changes := DiffMaps(MapOf(s.shared), MapOf(target));
    var s1 := s.(branch := branch, baseOid := oid, committed := document, shared := target);
    hide RegistryReady, DiffMaps, MapOf, InBounds, AllValid, RefreshAll, Local, Advanced;
    AdvancedShells(s1, WorkflowOrigin(operation), changes, target);
    RefreshLocal(s, s1);
    RefreshLocal(s, Advanced(s1, WorkflowOrigin(operation), changes, target));
  }

  lemma LocalSameShells(s: State, s1: State, s': State, caller: Option<string>)
    requires Local(s1, s', caller) && s1.shells == s.shells && s1.receipts == s.receipts
    ensures Local(s, s', caller)
  {
  }

  lemma CheckoutLocal(policy: Policy, s: State, g: Generations, branch: string, create: bool, current: RefReply,
                      created: bool, target: RefReply)
    requires Inv(s, g) && CheckoutStep(policy, s, branch, create, current, created, target).Ok?
    ensures Local(s, CheckoutStep(policy, s, branch, create, current, created, target).value, None)
  {
    RepairKeeps(policy, s, g, current);
    hide Inv, Sustains, ReplaceStep, RepairStep, DirtyChanges;
    var s1 := RepairStep(policy, s, current).value;
    ReplaceLocal(policy, s1, branch, target.observed.value, target.exact.value, "checkout");
    LocalSameShells(s, s1, CheckoutStep(policy, s, branch, create, current, created, target).value, None);
  }

  lemma WorkflowLocal(policy: Policy, s: State, g: Generations, op: Op)
    requires Inv(s, g) && s.materialized && Callback(policy, s, op).Some? && Caller(op).None?
    ensures Local(s, Callback(policy, s, op).value, None)
  {
    hide Inv, MaterializeStep, CheckoutStep, ResetStep, ReplaceStep, RepairStep, CommitStep, Local, Recording;
    var s' := Callback(policy, s, op).value;
    match op
    case DoMaterialize(branch, oid, committed) =>
      MaterializeAgain(policy, s, branch, oid, committed);
      SameShellsLocal(s, s', None);
    case DoRepair(current) =>
      RepairKeeps(policy, s, g, current);
      SameShellsLocal(s, s', None);
    case DoCheckout(branch, create, current, created, document) =>
      CheckoutLocal(policy, s, g, branch, create, current, created, document);
    case DoReset(original) =>
      ResetIs(policy, s, original);
      ReplaceLocal(policy, s, s.branch, s.baseOid, original.value, "reset");
    case DoCommit(message, reply) =>
      CommitSafe(policy, s, g, message, reply);
      SameShellsLocal(s, s', None);
    case DoSetAutoApply(_) => SameShellsLocal(s, s', None);
  }

  lemma MaterializeAgain(policy: Policy, s: State, branch: string, oid: string, committed: Committed)
    requires s.materialized && MaterializeStep(policy, s, branch, oid, committed).Ok?
    ensures MaterializeStep(policy, s, branch, oid, committed).value == s
  {
    hide Candidate, ValidState, AllValid, InBounds, RegistryReady;
  }

  lemma ResetIs(policy: Policy, s: State, target: Option<Committed>)
    requires ResetStep(policy, s, target).Ok?
    ensures target.Some?
    ensures ResetStep(policy, s, target) == ReplaceStep(policy, s, s.branch, s.baseOid, target.value, "reset")
  {
    hide ReplaceStep, ValidCommitted;
  }

  /** Every operation touches at most its caller and at most one receipt. */
  lemma EveryOperationIsLocal(policy: Policy, s: State, g: Generations, op: Op)
    requires Inv(s, g) && s.materialized && Callback(policy, s, op).Some?
    ensures Local(s, Callback(policy, s, op).value, Caller(op))
  {
    assert ValidReceipts(s.receipts, s.shells);
    hide Inv, Callback, Local, ValidReceipts;
    if Caller(op).Some? {
      ReplyLocal(policy, s, op);
    } else {
      WorkflowLocal(policy, s, g, op);
    }
  }

  // ---------------------------------------------------------------- how a conflict ends

  /** The acknowledgement that settles a conflict: same identity, same token, the target generation. */
  ghost predicate Settles(shell: Shell, shell': Shell, request: AcknowledgeRequest, g: Generations) {
    && shell.pending.Resolution? && shell.conflict.Some?
    && shell.pending.conflict == shell.conflict.value.identity
    && shell.pending.token == shell.conflict.value.token == request.token
    && shell.pending.revision == request.revision == shell'.appliedRevision
    && shell'.conflict.None? && shell'.unpublishedDelta == [] && shell'.pending == NoPending
    && request.revision in g && MapOf(shell'.appliedBaseline) == g[request.revision]
    && shell'.captureBaseline == shell'.appliedBaseline
  }

  ghost predicate KeepsConflict(shell: Shell, shell': Shell) {
    shell'.conflict == shell.conflict && shell'.unpublishedDelta == shell.unpublishedDelta
  }

  lemma AcknowledgeSettles(policy: Policy, s: State, g: Generations, request: AcknowledgeRequest)
    requires Inv(s, g) && AcknowledgeStep(policy, s, request).Ok?
    ensures var id, s' := request.credential.shellId, AcknowledgeStep(policy, s, request).value.state;
            id in s.shells && id in s'.shells &&
            (s.shells[id].conflict.Some? ==>
               KeepsConflict(s.shells[id], s'.shells[id]) || Settles(s.shells[id], s'.shells[id], request, g))
  {
    AcknowledgeIs(policy, s, request);
    var id := request.credential.shellId;
    var shell := s.shells[id];
    InvShell(s, g, id);
    assert CanonicalAdmitted(s.admitted);
    FilteredSnapshotSound(policy, s, shell, request.snapshot.states);
    var filtered := FilterSnapshot(policy, s, shell, request.snapshot.states).value;
    FingerprintIdentifies(filtered.kept);
    hide Inv, AcknowledgeStep, FilterSnapshot, FingerprintOf, MapOf, ValidShell, WithReceipt, ReceiptFor, Distinct,
         AllValid, AllPresent, Structural;
  }

  /**
   * Once a shell has a conflict, every operation of every shell keeps it together with its
   * delta, until that shell acknowledges the pending resolution of that very conflict with a
   * snapshot of the generation it was resolved to.
   */
  lemma ConflictEndsOnlyBySettling(policy: Policy, s: State, g: Generations, op: Op, id: string)
    requires Inv(s, g) && s.materialized && Callback(policy, s, op).Some?
    requires id in s.shells && s.shells[id].conflict.Some?
    ensures var s' := Callback(policy, s, op).value;
            id in s'.shells &&
            (KeepsConflict(s.shells[id], s'.shells[id]) ||
             (op.DoAcknowledge? && op.acknowledge.credential.shellId == id &&
              Settles(s.shells[id], s'.shells[id], op.acknowledge, g)))
  {
    hide Inv, Callback, Adds, Settles;
    EveryOperationIsLocal(policy, s, g, op);
    if Caller(op) == Some(id) {
      OwnConflict(policy, s, g, op, id);
    }
  }

  /** A shell's own publish and prepare are refused while it has a conflict; its resolve keeps it. */
  lemma OwnConflict(policy: Policy, s: State, g: Generations, op: Op, id: string)
    requires Inv(s, g) && Callback(policy, s, op).Some? && Caller(op) == Some(id)
    requires id in s.shells && s.shells[id].conflict.Some?
    ensures var s' := Callback(policy, s, op).value;
            id in s'.shells &&
            (KeepsConflict(s.shells[id], s'.shells[id]) ||
             (op.DoAcknowledge? && Settles(s.shells[id], s'.shells[id], op.acknowledge, g)))
  {
    hide Inv, Settles, AttachStep, PublishStep, PrepareStep, ResolveStep, AcknowledgeStep;
    match op
    case DoAttach(r) => AttachIs(policy, s, r);
    case DoPublish(r) => PublishRefused(policy, s, r);
    case DoPrepare(r) => PrepareRefused(s, r);
    case DoResolve(r) => ResolveKeepsConflict(policy, s, r);
    case DoAcknowledge(r) => AcknowledgeSettles(policy, s, g, r);
  }

  lemma PublishRefused(policy: Policy, s: State, request: PublishRequest)
    requires PublishStep(policy, s, request).Ok? && request.credential.shellId in s.shells
    requires s.shells[request.credential.shellId].conflict.Some?
    ensures PublishStep(policy, s, request).value.state == s
  {
    PublishIs(policy, s, request);
    hide *;
  }

  lemma PrepareRefused(s: State, request: PrepareRequest)
    requires PrepareStep(s, request).Ok? && request.credential.shellId in s.shells
    requires s.shells[request.credential.shellId].conflict.Some?
    ensures PrepareStep(s, request).value.state == s
  {
    PrepareIs(s, request);
    hide *;
  }

  lemma ResolveKeepsConflict(policy: Policy, s: State, request: ResolveRequest)
    requires ResolveStep(policy, s, request).Ok? && request.credential.shellId in s.shells
    ensures var id, s' := request.credential.shellId, ResolveStep(policy, s, request).value.state;
            id in s'.shells && KeepsConflict(s.shells[id], s'.shells[id])
  {
    ResolveIs(policy, s, request);
    hide ResolveStep, FilterSnapshot, FingerprintOf, DiffMaps, MapOf, WithReceipt, ReceiptFor;
  }

  // ---------------------------------------------------------------- replay

  ghost function RunFrom(policy: Policy, s: State, ops: seq<Op>): State {
    if ops == [] then s else Next(policy, RunFrom(policy, s, ops[..|ops| - 1]), ops[|ops| - 1])
  }

  ghost function HistoryFrom(policy: Policy, s: State, g: Generations, ops: seq<Op>): Generations {
    if ops == [] then g
    else Recording(HistoryFrom(policy, s, g, ops[..|ops| - 1]), RunFrom(policy, s, ops))
  }

  /** How many of the operations added a receipt of one shell. */
  ghost function Receipted(policy: Policy, s: State, ops: seq<Op>, id: string): nat {
    if ops == [] then 0
    else
      var before := RunFrom(policy, s, ops[..|ops| - 1]);
      Receipted(policy, s, ops[..|ops| - 1], id) +
      if OfShell(Next(policy, before, ops[|ops| - 1]).receipts, id) == OfShell(before.receipts, id) then 0 else 1
  }

  lemma NextKeeps(policy: Policy, s: State, g: Generations, op: Op)
    requires Inv(s, g)
    ensures Inv(Next(policy, s, op), Recording(g, Next(policy, s, op)))
  {
    SameHeadSameHistory(s, g);
    if Callback(policy, s, op).Some? {
      CallbackKeeps(policy, s, g, op);
    }
    hide Inv, Callback, Recording, ValidState;
  }

  lemma WindowBounded(s: State, g: Generations, id: string)
    requires Inv(s, g) && s.materialized
    ensures |OfShell(s.receipts, id)| <= MAX_RECEIPTS_PER_SHELL && ReceiptsUnique(s.receipts)
  {
    if id !in s.shells {
      OfShellAbsent(s.receipts, id);
    }
  }

  /** One operation leaves a shell's window alone or slides it by one new receipt. */
  lemma NextSlides(policy: Policy, s: State, g: Generations, op: Op, id: string)
    returns (added: Receipt)
    requires Inv(s, g) && s.materialized && id in s.shells
    ensures var s' := Next(policy, s, op);
            && s'.materialized && id in s'.shells && s'.shells[id].verifier == s.shells[id].verifier
            && var w, w' := OfShell(s.receipts, id), OfShell(s'.receipts, id);
               (w' == w || w' == Window(w + [added]))
  {
    added := Receipt("", "", PrepareDigest(0), Reply.Acknowledged(0));
    WindowBounded(s, g, id);
    MaterializedHead(policy, s, g, op);
    hide Inv, Callback, OfShell, Window, WithReceipt, Untouched, ValidState;
    if Callback(policy, s, op).Some? {
      EveryOperationIsLocal(policy, s, g, op);
      var s' := Callback(policy, s, op).value;
      if s'.receipts != s.receipts {
        var r: Receipt :| Caller(op) == Some(r.shellId) && s'.receipts == WithReceipt(s.receipts, r) &&
                          ReceiptFor(s.receipts, r.shellId, r.operationId).None?;
        added := r;
        WindowBounded(s, g, r.shellId);
        ReceiptWindow(s.receipts, r, id);
      }
    }
  }

  ghost predicate Holds(receipts: seq<Receipt>, id: string, age: nat, r: Receipt) {
    var w := OfShell(receipts, id);
    age < |w| && w[|w| - 1 - age] == r
  }

  lemma SlideHolds(w: seq<Receipt>, added: Receipt, age: nat)
    requires |w| <= MAX_RECEIPTS_PER_SHELL && age < |w| && age + 1 < MAX_RECEIPTS_PER_SHELL
    ensures var w' := Window(w + [added]);
            age + 1 < |w'| && w'[|w'| - 1 - (age + 1)] == w[|w| - 1 - age]
  {
  }

  /** The shell is as it was, and the receipt is the one of its window that is `age` receipts old. */
  ghost predicate Aged(s: State, id: string, verifier: Verifier, age: nat, r: Receipt) {
    s.materialized && id in s.shells && s.shells[id].verifier == verifier && Holds(s.receipts, id, age, r)
  }

  lemma AgesOnce(policy: Policy, s: State, g: Generations, op: Op, id: string, verifier: Verifier, age: nat, r: Receipt)
    requires Inv(s, g) && Aged(s, id, verifier, age, r) && age < MAX_RECEIPTS_PER_SHELL
    requires OfShell(Next(policy, s, op).receipts, id) != OfShell(s.receipts, id) ==> age + 1 < MAX_RECEIPTS_PER_SHELL
    ensures Inv(Next(policy, s, op), Recording(g, Next(policy, s, op)))
    ensures Aged(Next(policy, s, op), id, verifier,
                 age + if OfShell(Next(policy, s, op).receipts, id) == OfShell(s.receipts, id) then 0 else 1, r)
  {
    hide Inv, Next, OfShell, Window, Recording, ReceiptsUnique;
    NextKeeps(policy, s, g, op);
    var added := NextSlides(policy, s, g, op, id);
    WindowBounded(s, g, id);
    if OfShell(Next(policy, s, op).receipts, id) != OfShell(s.receipts, id) {
      SlideHolds(OfShell(s.receipts, id), added, age);
    }
  }

  lemma {:induction false} ReceiptAges(policy: Policy, s: State, g: Generations, ops: seq<Op>, id: string,
                                       verifier: Verifier, r: Receipt)
    requires Inv(s, g) && Aged(s, id, verifier, 0, r)
    requires Receipted(policy, s, ops, id) < MAX_RECEIPTS_PER_SHELL
    ensures Inv(RunFrom(policy, s, ops), HistoryFrom(policy, s, g, ops))
    ensures Aged(RunFrom(policy, s, ops), id, verifier, Receipted(policy, s, ops, id), r)
  {
    hide Inv, Next, OfShell, Aged;
    if ops != [] {
      var before, op := ops[..|ops| - 1], ops[|ops| - 1];
      ReceiptAges(policy, s, g, before, id, verifier, r);
      AgesOnce(policy, RunFrom(policy, s, before), HistoryFrom(policy, s, g, before), op, id, verifier,
               Receipted(policy, s, before, id), r);
    }
  }

  lemma {:induction false} OfShellMembers(receipts: seq<Receipt>, id: string)
    ensures forall r | r in OfShell(receipts, id) :: r in receipts && r.shellId == id
  {
    if receipts != [] {
      OfShellMembers(receipts[..|receipts| - 1], id);
    }
  }

  lemma {:induction false} ReceiptForUnique(receipts: seq<Receipt>, r: Receipt)
    requires ReceiptsUnique(receipts) && r in receipts
    ensures ReceiptFor(receipts, r.shellId, r.operationId) == Some(r)
  {
    var n := |receipts| - 1;
    var i :| 0 <= i < |receipts| && receipts[i] == r;
    if i < n {
      assert receipts[i].shellId != receipts[n].shellId || receipts[i].operationId != receipts[n].operationId;
      assert receipts[..n][i] == r;
      ReceiptForUnique(receipts[..n], r);
    }
  }

  /** A receipt answers for its operation as long as fewer than 64 newer ones of its shell exist. */
  lemma ReceiptStillAnswers(policy: Policy, s: State, g: Generations, s1: State, g1: Generations, r: Receipt,
                            ops: seq<Op>)
    requires Inv(s, g) && s.materialized && Inv(s1, g1) && s1.materialized
    requires s1.receipts == WithReceipt(s.receipts, r) && r.shellId in s1.shells
    requires Receipted(policy, s1, ops, r.shellId) < MAX_RECEIPTS_PER_SHELL
    ensures var s2 := RunFrom(policy, s1, ops);
            && s2.materialized && r.shellId in s2.shells
            && s2.shells[r.shellId].verifier == s1.shells[r.shellId].verifier
            && ReceiptFor(s2.receipts, r.shellId, r.operationId) == Some(r)
  {
    hide Inv, RunFrom, HistoryFrom, Receipted, WithReceipt, ReceiptFor, OfShell, Window, ReceiptsUnique;
    WindowBounded(s, g, r.shellId);
    ReceiptWindow(s.receipts, r, r.shellId);
    NewestInWindow(OfShell(s.receipts, r.shellId), r);
    ReceiptAges(policy, s1, g1, ops, r.shellId, s1.shells[r.shellId].verifier, r);
    var s2 := RunFrom(policy, s1, ops);
    WindowBounded(s2, HistoryFrom(policy, s1, g1, ops), r.shellId);
    OfShellMembers(s2.receipts, r.shellId);
    assert r in OfShell(s2.receipts, r.shellId);
    ReceiptForUnique(s2.receipts, r);
  }

  lemma NewestInWindow(w: seq<Receipt>, r: Receipt)
    ensures Window(w + [r]) != [] && Window(w + [r])[|Window(w + [r])| - 1] == r
  {
  }

  /** Repeating an attach within the next 63 receipts of its shell answers the same and changes nothing. */
  lemma AttachReplays(policy: Policy, s: State, g: Generations, request: AttachRequest, ops: seq<Op>)
    requires Inv(s, g) && AttachStep(policy, s, request).Ok? && request.credential.shellId !in s.shells
    requires Receipted(policy, AttachStep(policy, s, request).value.state, ops, request.credential.shellId)
             < MAX_RECEIPTS_PER_SHELL
    ensures var step := AttachStep(policy, s, request).value;
            var s2 := RunFrom(policy, step.state, ops);
            AttachStep(policy, s2, request) == Ok(Step(s2, step.reply))
  {
    var step := AttachStep(policy, s, request).value;
    AttachKeeps(policy, s, g, request);
    AttachReceipt(policy, s, request);
    var r := Receipt(request.credential.shellId, request.operationId,
                     AttachDigest(request.initial.byteSize, request.initial.states), step.reply);
    hide *;
    ReceiptStillAnswers(policy, s, g, step.state, Recording(g, step.state), r, ops);
    AttachAnswered(policy, request, RunFrom(policy, step.state, ops), r);
  }

  lemma AttachReceipt(policy: Policy, s: State, request: AttachRequest)
    requires AttachStep(policy, s, request).Ok? && request.credential.shellId !in s.shells
    ensures var step := AttachStep(policy, s, request).value;
            && step.reply.Attached? && s.materialized && step.state.materialized
            && request.credential.shellId in step.state.shells
            && CheckPrivate(request.operationId, request.credential).None? && ValidSnapshot(request.initial)
            && Verifies(step.state.shells[request.credential.shellId].verifier, request.credential.capability)
            && step.state.receipts ==
               WithReceipt(s.receipts, Receipt(request.credential.shellId, request.operationId,
                                               AttachDigest(request.initial.byteSize, request.initial.states),
                                                 step.reply))
  {
    hide WithReceipt, ReceiptFor, RegistryReady, ValidSnapshot, Normal, Distinct;
  }

  lemma AttachAnswered(policy: Policy, request: AttachRequest, s2: State, r: Receipt)
    requires CheckPrivate(request.operationId, request.credential).None? && ValidSnapshot(request.initial)
    requires s2.materialized && request.credential.shellId in s2.shells
    requires Verifies(s2.shells[request.credential.shellId].verifier, request.credential.capability)
    requires ReceiptFor(s2.receipts, request.credential.shellId, request.operationId) == Some(r)
    requires r.digest == AttachDigest(request.initial.byteSize, request.initial.states) && r.reply.Attached?
    ensures AttachStep(policy, s2, request) == Ok(Step(s2, r.reply))
  {
    hide CheckPrivate, ReceiptFor, RegistryReady, ValidSnapshot, Verifies;
  }

  /** Repeating a publish within the next 63 receipts of its shell answers the same and changes nothing. */
  lemma PublishReplays(policy: Policy, s: State, g: Generations, request: PublishRequest, ops: seq<Op>)
    requires Inv(s, g) && PublishStep(policy, s, request).Ok?
    requires ReceiptFor(s.receipts, request.credential.shellId, request.operationId).None?
    requires Receipted(policy, PublishStep(policy, s, request).value.state, ops, request.credential.shellId)
             < MAX_RECEIPTS_PER_SHELL
    ensures var step := PublishStep(policy, s, request).value;
            var s2 := RunFrom(policy, step.state, ops);
            PublishStep(policy, s2, request) == Ok(Step(s2, step.reply))
  {
    var step := PublishStep(policy, s, request).value;
    PublishKeeps(policy, s, g, request);
    PublishReceipt(policy, s, request);
    var r := Receipt(request.credential.shellId, request.operationId,
                     PublishDigest(request.acknowledgedRevision, request.delta), step.reply);
    hide *;
    ReceiptStillAnswers(policy, s, g, step.state, Recording(g, step.state), r, ops);
    PublishAnswered(policy, request, RunFrom(policy, step.state, ops), r);
  }

  lemma PublishAnswered(policy: Policy, request: PublishRequest, s2: State, r: Receipt)
    requires CheckPrivate(request.operationId, request.credential).None? && ValidChanges(request.delta)
    requires s2.materialized && request.credential.shellId in s2.shells
    requires Verifies(s2.shells[request.credential.shellId].verifier, request.credential.capability)
    requires ReceiptFor(s2.receipts, request.credential.shellId, request.operationId) == Some(r)
    requires r.digest == PublishDigest(request.acknowledgedRevision, request.delta) && r.reply.Published?
    ensures PublishStep(policy, s2, request) == Ok(Step(s2, r.reply))
  {
    hide CheckPrivate, ReceiptFor, RegistryReady, ValidChanges, Verifies, FilterChanges, Merge;
  }

  lemma PublishReceipt(policy: Policy, s: State, request: PublishRequest)
    requires PublishStep(policy, s, request).Ok?
    requires ReceiptFor(s.receipts, request.credential.shellId, request.operationId).None?
    ensures var step := PublishStep(policy, s, request).value;
            && step.reply.Published? && step.state.materialized && request.credential.shellId in step.state.shells
            && s.materialized && request.credential.shellId in s.shells
            && CheckPrivate(request.operationId, request.credential).None? && ValidChanges(request.delta)
            && Verifies(step.state.shells[request.credential.shellId].verifier, request.credential.capability)
            && step.state.shells[request.credential.shellId].verifier == s.shells[request.credential.shellId].verifier
            && step.state.receipts ==
               WithReceipt(s.receipts, Receipt(request.credential.shellId, request.operationId,
                                               PublishDigest(request.acknowledgedRevision, request.delta), step.reply))
  {
    hide WithReceipt, Compact, FilterChanges, ApplyChanges, DiffMaps, Accepted, Losing, RegistryReady, ReceiptFor,
         ConflictsOf, ValidChanges, MapOf, InBounds;
  }

  /** Repeating a prepare within the next 63 receipts of its shell answers the same and changes nothing. */
  lemma PrepareReplays(policy: Policy, s: State, g: Generations, request: PrepareRequest, ops: seq<Op>)
    requires Inv(s, g) && PrepareStep(s, request).Ok?
    requires ReceiptFor(s.receipts, request.credential.shellId, request.operationId).None?
    requires Receipted(policy, PrepareStep(s, request).value.state, ops, request.credential.shellId)
             < MAX_RECEIPTS_PER_SHELL
    ensures var step := PrepareStep(s, request).value;
            var s2 := RunFrom(policy, step.state, ops);
            PrepareStep(s2, request) == Ok(Step(s2, step.reply))
  {
    var step := PrepareStep(s, request).value;
    PrepareKeeps(s, g, request);
    PrepareReceipt(s, request);
    var r := Receipt(request.credential.shellId, request.operationId, PrepareDigest(request.appliedRevision),
                     step.reply);
    ReceiptStillAnswers(policy, s, g, step.state, Recording(g, step.state), r, ops);
    hide *;
    PrepareAnswered(request, RunFrom(policy, step.state, ops), r);
  }

  lemma PrepareReceipt(s: State, request: PrepareRequest)
    requires PrepareStep(s, request).Ok?
    requires ReceiptFor(s.receipts, request.credential.shellId, request.operationId).None?
    ensures var step := PrepareStep(s, request).value;
            && step.reply.Prepared? && s.materialized && step.state.materialized &&
               request.credential.shellId in step.state.shells
            && CheckPrivate(request.operationId, request.credential).None?
            && step.state.shells[request.credential.shellId].verifier == s.shells[request.credential.shellId].verifier
            && Verifies(step.state.shells[request.credential.shellId].verifier, request.credential.capability)
            && step.state.receipts ==
               WithReceipt(s.receipts, Receipt(request.credential.shellId, request.operationId,
                                               PrepareDigest(request.appliedRevision), step.reply))
  {
    hide WithReceipt, DiffMaps, ReceiptFor, MapOf, InBounds, FingerprintOf;
  }

  /** A receipt of the same request answers it without any change. */
  lemma PrepareAnswered(request: PrepareRequest, s2: State, r: Receipt)
    requires CheckPrivate(request.operationId, request.credential).None?
    requires s2.materialized && request.credential.shellId in s2.shells
    requires Verifies(s2.shells[request.credential.shellId].verifier, request.credential.capability)
    requires ReceiptFor(s2.receipts, request.credential.shellId, request.operationId) == Some(r)
    requires r.digest == PrepareDigest(request.appliedRevision) && r.reply.Prepared?
    ensures PrepareStep(s2, request) == Ok(Step(s2, r.reply))
  {
    hide CheckPrivate, ReceiptFor, DiffMaps, MapOf, FingerprintOf, InBounds, Verifies;
  }
}
