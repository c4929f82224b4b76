/**
 * The transaction callbacks of the shared-worktree service (core/worktree/service.go) as
 * functions from one canonical state to the next. `Service` implements them step by step;
 * `Protocol` proves what every run of them keeps.
 */
module Steps {
  import opened Wrappers
  import opened LastOccurrence
  import opened Live
  import opened Diff
  import opened Projection
  import opened Fingerprint
  import opened State
  import opened Registry

  datatype Error =
    | InvalidRequest | Unmaterialized | RecoveryRequired | Unauthorized | OperationReplay
    | AlreadyAttached | NeedsReconcile | ConflictRequiresResolution | AcknowledgeMismatch
    | Dirty | LimitExceeded | RepositoryFailure | Rejected

  datatype Step = Step(state: State, reply: Reply)

  datatype AttachRequest = AttachRequest(operationId: string, credential: Credential, initial: LiveSnapshot)

  datatype PublishRequest = PublishRequest(operationId: string, credential: Credential,
                                           acknowledgedRevision: nat, delta: seq<LiveChange>)

  datatype PrepareRequest = PrepareRequest(operationId: string, credential: Credential, appliedRevision: nat)

  datatype ResolveRequest = ResolveRequest(operationId: string, credential: Credential, conflict: Identity,
                                           token: Token, snapshot: LiveSnapshot)

  datatype AcknowledgeRequest = AcknowledgeRequest(operationId: string, credential: Credential, revision: nat,
                                                   token: Token, snapshot: LiveSnapshot)

  // ---------------------------------------------------------------- shared pieces

  function CheckPrivate(operationId: string, credential: Credential): Option<Error> {
    if !ValidToken(operationId) then Some(InvalidRequest)
    else if !ValidCredential(credential) then Some(Unauthorized)
    else None
  }

  predicate Authorized(s: State, credential: Credential) {
    s.materialized && credential.shellId in s.shells &&
    Verifies(s.shells[credential.shellId].verifier, credential.capability)
  }

  /** The map form of equalLiveStates. */
  predicate SameStates(a: seq<LiveState>, b: seq<LiveState>) {
    Comparable(a) && Comparable(b) && MapOf(a) == MapOf(b)
  }

  function Recorded(s: State, credential: Credential, operationId: string, digest: RequestDigest,
                    shell: Shell, reply: Reply): Step
  {
    Step(s.(shells := s.shells[credential.shellId := shell],
            receipts := WithReceipt(s.receipts, Receipt(credential.shellId, operationId, digest, reply))),
         reply)
  }

  /** The next generation: one more revision, its event, and a compacted history. */
  function Advanced(s: State, origin: Origin, changes: seq<LiveChange>, shared: seq<LiveState>): State {
    var next := s.headRevision + 1;
    var h := Compact(History(s.compactionBaseline, s.compactionFloor, s.events + [Event(next, origin, changes)]));
    s.(headRevision := next, shared := shared, compactionBaseline := h.baseline, compactionFloor := h.floor,
       events := h.events)
  }

  // ---------------------------------------------------------------- attach

  function AttachBaseline(policy: Policy, registry: Registry, states: seq<LiveState>): seq<LiveState> {
    if states == [] then []
    else
      var last := states[|states| - 1];
      AttachBaseline(policy, registry, states[..|states| - 1]) +
      (if !last.value.Removed? && AllowsLiveValue(policy, registry, last.identity) then [last] else [])
  }

  function AttachExclusions(policy: Policy, registry: Registry, states: seq<LiveState>): seq<Exclusion> {
    if states == [] then []
    else
      var last := states[|states| - 1];
      var reason := ExclusionReason(policy, registry, last.identity);
      AttachExclusions(policy, registry, states[..|states| - 1]) +
      (if last.value.Removed? then []
       else if reason.Some? then [Exclusion(last.identity, reason.value)]
       else if AllowsLiveValue(policy, registry, last.identity) then []
       else [Exclusion(last.identity, PresentAtAttach)])
  }

  function NewShell(policy: Policy, s: State, request: AttachRequest): Shell {
    var states := Normal(request.initial.states);
    var baseline := AttachBaseline(policy, RegistryOf(s), states);
    var current := SameStates(baseline, s.shared);
    Shell(VerifierOf(request.credential.capability),
          if current then AtHead else CleanReconcile,
          s.headRevision,
          if current then s.headRevision else 0,
          if current then s.shared else [],
          baseline,
          [],
          StateIds(PresentOnly(states)),
          AttachExclusions(policy, RegistryOf(s), states),
          Attaching,
          NoPending,
          !current,
          None,
          s.headRevision)
  }

  function AttachStep(policy: Policy, s: State, request: AttachRequest): Result<Step, Error> {
    var id := request.credential.shellId;
    var digest := AttachDigest(request.initial.byteSize, request.initial.states);
    if CheckPrivate(request.operationId, request.credential).Some? then
      Err(CheckPrivate(request.operationId, request.credential).value)
    else if !ValidSnapshot(request.initial) then Err(InvalidRequest)
    else if !s.materialized then Err(Unmaterialized)
    else if id in s.shells then
      if !Verifies(s.shells[id].verifier, request.credential.capability) then Err(Unauthorized)
      else
        match ReceiptFor(s.receipts, id, request.operationId)
        case None => Err(AlreadyAttached)
        case Some(receipt) =>
          if receipt.reply.Attached? && receipt.digest == digest then Ok(Step(s, receipt.reply))
          else Err(OperationReplay)
    else if |s.shells| >= MAX_SHELL_RECORDS then Err(LimitExceeded)
    else if !RegistryReady(policy, s) then Err(RecoveryRequired)
    else
      var shell := NewShell(policy, s, request);
      Ok(Recorded(s, request.credential, request.operationId, digest, shell,
                  Attached(s.headRevision, shell.attachState == CleanReconcile, shell.exclusions)))
  }

  // ---------------------------------------------------------------- publish

  /** Whether a change already agrees with the first state of its identity. */
  predicate ChangeMatches(change: LiveChange, states: seq<LiveState>) {
    if states == [] then change.kind == Remove
    else if states[0].identity == change.identity then
      change.kind != Remove && EqualValue(change.identity.kind, change.value, states[0].value)
    else ChangeMatches(change, states[1..])
  }

  function ChangedAfter(events: seq<Event>, revision: nat): set<Identity> {
    if events == [] then {}
    else
      var last := events[|events| - 1];
      ChangedAfter(events[..|events| - 1], revision) +
      (if last.revision <= revision then {} else Keys(ChangeIdentity, last.changes))
  }

  /** A change that differs from the shared value loses on a history gap or to any later event. */
  predicate Loses(s: State, acknowledged: nat, change: LiveChange) {
    !ChangeMatches(change, s.shared) &&
    (acknowledged < s.compactionFloor || change.identity in ChangedAfter(s.events, acknowledged))
  }

  predicate Wins(s: State, acknowledged: nat, change: LiveChange) {
    !ChangeMatches(change, s.shared) && !Loses(s, acknowledged, change)
  }

  function Accepted(s: State, acknowledged: nat, changes: seq<LiveChange>): seq<LiveChange> {
    if changes == [] then []
    else
      var last := changes[|changes| - 1];
      Accepted(s, acknowledged, changes[..|changes| - 1]) + (if Wins(s, acknowledged, last) then [last] else [])
  }

  function Losing(s: State, acknowledged: nat, changes: seq<LiveChange>): seq<LiveChange> {
    if changes == [] then []
    else
      var last := changes[|changes| - 1];
      Losing(s, acknowledged, changes[..|changes| - 1]) + (if Loses(s, acknowledged, last) then [last] else [])
  }

  function ConflictsOf(losing: seq<LiveChange>, kind: ConflictKind, base: nat, shared: nat,
                       token: Token): (r: seq<Conflict>)
    ensures |r| == |losing|
    ensures forall i | 0 <= i < |r| :: r[i] == Conflict(kind, losing[i].identity, base, shared, token)
  {
    seq(|losing|, i requires 0 <= i < |losing| => Conflict(kind, losing[i].identity, base, shared, token))
  }

  /** The publishing shell after its delta was split into `losing` and the rest. */
  function PublishedShell(shell: Shell, head: nat, observed: seq<LiveState>, losing: seq<LiveChange>,
                          conflicts: seq<Conflict>): Shell
    requires |conflicts| == |losing|
  {
    if losing != [] then
      shell.(conflict := Some(conflicts[0]), unpublishedDelta := losing, transition := Unpublished,
             captureBaseline := observed, behind := true, lastActiveRevision := head)
    else
      shell.(transition := Publishing, captureBaseline := observed, behind := shell.appliedRevision < head,
             lastActiveRevision := head)
  }

  /** The state and reply once the semantic delta of a publish is known. */
  function Merge(s: State, request: PublishRequest, shell: Shell, observed: seq<LiveState>,
                 semantic: seq<LiveChange>): Result<Step, Error>
  {
    var acknowledged := request.acknowledgedRevision;
    var digest := PublishDigest(acknowledged, request.delta);
    var accepted, losing := Accepted(s, acknowledged, semantic), Losing(s, acknowledged, semantic);
    if accepted != [] && s.headRevision >= MAX_REVISION then Err(LimitExceeded)
    else
      var s1 := if accepted == [] then s
                else Advanced(s, ShellOrigin(request.operationId, request.credential.shellId), accepted,
                              ApplyChanges(s.shared, accepted));
      var kind := if acknowledged < s.compactionFloor then HistoryGap else Overlap;
      var token := ConflictToken(request.operationId, digest, s1.headRevision);
      var conflicts := ConflictsOf(losing, kind, acknowledged, s1.headRevision, token);
      Ok(Recorded(s1, request.credential, request.operationId, digest,
                  PublishedShell(shell, s1.headRevision, observed, losing, conflicts),
                  Published(s1.headRevision, ChangeIds(accepted), conflicts)))
  }

  ghost function PublishStep(policy: Policy, s: State, request: PublishRequest): Result<Step, Error> {
    var id := request.credential.shellId;
    var digest := PublishDigest(request.acknowledgedRevision, request.delta);
    if CheckPrivate(request.operationId, request.credential).Some? then
      Err(CheckPrivate(request.operationId, request.credential).value)
    else if !ValidChanges(request.delta) then Err(InvalidRequest)
    else if !Authorized(s, request.credential) then Err(Unauthorized)
    else
      var shell := s.shells[id];
      match ReceiptFor(s.receipts, id, request.operationId)
      case Some(receipt) =>
        if receipt.reply.Published? && receipt.digest == digest then Ok(Step(s, receipt.reply))
        else Err(OperationReplay)
      case None =>
        if shell.pending != NoPending || request.acknowledgedRevision != shell.appliedRevision ||
           shell.appliedRevision == 0 then Err(NeedsReconcile)
        else if shell.conflict.Some? || shell.unpublishedDelta != [] then Err(ConflictRequiresResolution)
        else if !RegistryReady(policy, s) then Err(RecoveryRequired)
        else
          match FilterChanges(policy, s, shell, request.delta)
          case None => Err(LimitExceeded)
          case Some(filtered) =>
            var observed := ApplyChanges(shell.captureBaseline, filtered.kept);
            if !InBounds(shell.captureBaseline) || !InBounds(observed) then Err(LimitExceeded)
            else
              Merge(s.(admitted := filtered.admitted), request, shell, observed,
                    DiffMaps(MapOf(shell.captureBaseline), MapOf(observed)))
  }

  // ---------------------------------------------------------------- prepare

  /** The shell after a client reports a revision other than the recorded one. */
  function Reported(shell: Shell, applied: nat): Shell {
    if applied == shell.appliedRevision then shell
    else shell.(attachState := CleanReconcile, appliedRevision := 0, appliedBaseline := [])
  }

  ghost function PrepareStep(s: State, request: PrepareRequest): Result<Step, Error> {
    var id := request.credential.shellId;
    var digest := PrepareDigest(request.appliedRevision);
    if CheckPrivate(request.operationId, request.credential).Some? then
      Err(CheckPrivate(request.operationId, request.credential).value)
    else if !Authorized(s, request.credential) then Err(Unauthorized)
    else
      match ReceiptFor(s.receipts, id, request.operationId)
      case Some(receipt) =>
        if receipt.reply.Prepared? && receipt.digest == digest then Ok(Step(s, receipt.reply))
        else Err(OperationReplay)
      case None =>
        var prior := s.shells[id];
        if prior.conflict.Some? || prior.unpublishedDelta != [] then Err(ConflictRequiresResolution)
        else if prior.pending != NoPending then Err(NeedsReconcile)
        else if !InBounds(prior.captureBaseline) || !InBounds(s.shared) then Err(LimitExceeded)
        else
          var shell := Reported(prior, request.appliedRevision);
          var changes := DiffMaps(MapOf(prior.captureBaseline), MapOf(s.shared));
          if changes == [] && request.appliedRevision == s.headRevision && shell.appliedRevision == s.headRevision then
            Ok(Recorded(s, request.credential, request.operationId, digest,
                        shell.(lastActiveRevision := s.headRevision), Prepared(0, NoToken, [])))
          else
            var token := PullToken(request.operationId, digest, s.headRevision);
            Ok(Recorded(s, request.credential, request.operationId, digest,
                        shell.(pending := Pull(s.headRevision, FingerprintOf(s.shared), token, changes),
                               transition := Preparing, behind := true, lastActiveRevision := s.headRevision),
                        Prepared(s.headRevision, token, changes)))
  }

  // ---------------------------------------------------------------- resolve

  predicate Resolvable(shell: Shell, request: ResolveRequest) {
    && shell.conflict.Some? && shell.conflict.value.identity == request.conflict
    && shell.conflict.value.token == request.token
    && request.conflict in Keys(ChangeIdentity, shell.unpublishedDelta)
    && shell.pending == NoPending
  }

  ghost function ResolveStep(policy: Policy, s: State, request: ResolveRequest): Result<Step, Error> {
    var id := request.credential.shellId;
    if CheckPrivate(request.operationId, request.credential).Some? then
      Err(CheckPrivate(request.operationId, request.credential).value)
    else if !ValidIdentity(request.conflict) || !UsableToken(request.token) || !ValidSnapshot(request.snapshot) then
      Err(ConflictRequiresResolution)
    else if !Authorized(s, request.credential) then Err(Unauthorized)
    else if !RegistryReady(policy, s) then Err(RecoveryRequired)
    else
      var shell := s.shells[id];
      match FilterSnapshot(policy, s, shell, request.snapshot.states)
      case None => Err(LimitExceeded)
      case Some(filtered) =>
        var observed := filtered.kept;
        var s0 := s.(admitted := filtered.admitted);
        var digest := ResolveDigest(request.conflict, request.token, observed);
        match ReceiptFor(s.receipts, id, request.operationId)
        case Some(receipt) =>
          if receipt.reply.Resolved? && receipt.digest == digest then Ok(Step(s0, receipt.reply))
          else Err(OperationReplay)
        case None =>
          if !Resolvable(shell, request) then Err(ConflictRequiresResolution)
          else if !InBounds(observed) || !InBounds(shell.captureBaseline) ||
                  FingerprintOf(observed) != FingerprintOf(shell.captureBaseline) then Err(ConflictRequiresResolution)
          else if !InBounds(s.shared) then Err(LimitExceeded)
          else
            var changes := DiffMaps(MapOf(observed), MapOf(s.shared));
            Ok(Recorded(s0, request.credential, request.operationId, digest,
                        shell.(pending := Resolution(s.headRevision, FingerprintOf(s.shared), request.token, changes,
                                                     request.conflict),
                               transition := Resolving, behind := true, lastActiveRevision := s.headRevision),
                        Resolved(s.headRevision, request.token, changes)))
  }

  // ---------------------------------------------------------------- acknowledge

  predicate Pends(pending: Pending, revision: nat, token: Token) {
    match pending
    case NoPending => false
    case Pull(r, _, t, _) => r == revision && t == token
    case Resolution(r, _, t, _, _) => r == revision && t == token
  }

  predicate Backed(shell: Shell) {
    shell.pending.Resolution? ==>
      shell.conflict.Some? && shell.pending.conflict == shell.conflict.value.identity &&
      shell.pending.token == shell.conflict.value.token
  }

  function AcknowledgedShell(shell: Shell, head: nat, observed: seq<LiveState>): Shell
    requires !shell.pending.NoPending?
  {
    var settled := shell.pending.Resolution?;
    var conflict := if settled then None else shell.conflict;
    shell.(attachState := AtHead, appliedRevision := shell.pending.revision, appliedBaseline := observed,
           captureBaseline := observed, conflict := conflict,
           unpublishedDelta := if settled then [] else shell.unpublishedDelta,
           pending := NoPending, transition := Transition.Acknowledging,
           behind := shell.pending.revision < head || conflict.Some?, lastActiveRevision := head)
  }

  function AcknowledgeStep(policy: Policy, s: State, request: AcknowledgeRequest): Result<Step, Error> {
    var id := request.credential.shellId;
    if CheckPrivate(request.operationId, request.credential).Some? then
      Err(CheckPrivate(request.operationId, request.credential).value)
    else if request.revision == 0 || !UsableToken(request.token) || !ValidSnapshot(request.snapshot) then
      Err(AcknowledgeMismatch)
    else if !Authorized(s, request.credential) then Err(Unauthorized)
    else if !RegistryReady(policy, s) then Err(RecoveryRequired)
    else
      var shell := s.shells[id];
      match FilterSnapshot(policy, s, shell, request.snapshot.states)
      case None => Err(LimitExceeded)
      case Some(filtered) =>
        var observed := filtered.kept;
        var s0 := s.(admitted := filtered.admitted);
        var digest := AcknowledgeDigest(request.revision, request.token, observed);
        match ReceiptFor(s.receipts, id, request.operationId)
        case Some(receipt) =>
          if receipt.reply.Acknowledged? && receipt.digest == digest then Ok(Step(s0, receipt.reply))
          else Err(OperationReplay)
        case None =>
          if !Pends(shell.pending, request.revision, request.token) || !Backed(shell) then Err(AcknowledgeMismatch)
          else if !InBounds(observed) || FingerprintOf(observed) != shell.pending.fingerprint then
            Err(AcknowledgeMismatch)
          else
            Ok(Recorded(s0, request.credential, request.operationId, digest,
                        AcknowledgedShell(shell, s.headRevision, observed),
                        Reply.Acknowledged(shell.pending.revision)))
  }

  // ---------------------------------------------------------------- generations

  ghost function Candidate(branch: string, oid: string, committed: Committed): State {
    var changes := DiffMaps(map[], MapOf(committed.projection.states));
    State(true, branch, oid, committed, 1, true, [], ApplyChanges([], changes), 0, [],
          [Event(1, MaterializeOrigin, changes)], map[], [])
  }

  ghost function MaterializeStep(policy: Policy, s: State, branch: string, oid: string, committed: Committed)
    : Result<State, Error>
  {
    if !AllValid(committed.projection.states) || !InBounds(committed.projection.states) then Err(RecoveryRequired)
    else if !ValidState(Candidate(branch, oid, committed)) then Err(RecoveryRequired)
    else if s.materialized then
      if s.branch != branch || s.baseOid != oid || s.committed != committed || !RegistryReady(policy, s) then
        Err(RecoveryRequired)
      else Ok(s)
    else if !RegistryReady(policy, Candidate(branch, oid, committed)) then Err(RecoveryRequired)
    else Ok(Candidate(branch, oid, committed))
  }

  function Refreshed(shell: Shell, s: State): Shell {
    shell.(behind := shell.appliedRevision < s.headRevision || !SameStates(shell.appliedBaseline, s.shared) ||
                     shell.conflict.Some?,
           lastActiveRevision := s.headRevision)
  }

  function RefreshAll(s: State): State {
    s.(shells := map id | id in s.shells :: Refreshed(s.shells[id], s))
  }

  ghost function ReplaceStep(policy: Policy, s: State, branch: string, oid: string, document: Committed,
                             operation: string): Result<State, Error>
  {
    var target := document.projection.states;
    if !InBounds(s.shared) || !InBounds(target) || !AllValid(target) then Err(LimitExceeded)
    else
      var changes := DiffMaps(MapOf(s.shared), MapOf(target));
      var s1 := s.(branch := branch, baseOid := oid, committed := document, shared := target);
      if !RegistryReady(policy, s1) then Err(RecoveryRequired)
      else if changes == [] then Ok(RefreshAll(s1))
      else if s.headRevision >= MAX_REVISION then Err(LimitExceeded)
      else Ok(RefreshAll(Advanced(s1, WorkflowOrigin(operation), changes, target)))
  }

  /** What the repository answers to one question, if it answers. */
  datatype RefReply = RefReply(observed: Option<string>, exact: Option<Committed>)

  function RepairStep(policy: Policy, s: State, reply: RefReply): Result<State, Error> {
    if reply.observed.None? then Err(RepositoryFailure)
    else if reply.observed.value == s.baseOid then Ok(s)
    else if !ValidOid(reply.observed.value) then Err(RecoveryRequired)
    else if reply.exact.None? || !ValidCommitted(reply.exact.value) ||
            !SameStates(reply.exact.value.projection.states, s.shared) then Err(RecoveryRequired)
    else
      var s1 := s.(baseOid := reply.observed.value, committed := reply.exact.value);
      if !RegistryReady(policy, s1) then Err(RecoveryRequired) else Ok(s1)
  }

  predicate Settled(shell: Shell) {
    shell.conflict.None? && shell.unpublishedDelta == [] && shell.pending == NoPending
  }

  /** The number of dirty identities is zero exactly when this is empty. */
  ghost function DirtyChanges(s: State): seq<LiveChange> {
    DiffMaps(MapOf(s.committed.projection.states), MapOf(s.shared))
  }

  predicate DirtyDecidable(s: State) {
    InBounds(s.committed.projection.states) && InBounds(s.shared)
  }

  ghost function CheckoutStep(policy: Policy, s: State, branch: string, create: bool, current: RefReply,
                              created: bool, target: RefReply): Result<State, Error>
  {
    if !ValidBranch(branch) then Err(InvalidRequest)
    else if !s.materialized then Err(Unmaterialized)
    else if !DirtyDecidable(s) then Err(LimitExceeded)
    else if DirtyChanges(s) != [] then Err(Dirty)
    else if exists id | id in s.shells :: !Settled(s.shells[id]) then Err(ConflictRequiresResolution)
    else
      match RepairStep(policy, s, current)
      case Err(e) => Err(e)
      case Ok(s1) =>
        if create && !created then Err(RepositoryFailure)
        else if target.observed.None? then Err(RepositoryFailure)
        else if !ValidOid(target.observed.value) then Err(RecoveryRequired)
        else if target.exact.None? || !ValidCommitted(target.exact.value) then Err(RecoveryRequired)
        else ReplaceStep(policy, s1, branch, target.observed.value, target.exact.value, "checkout")
  }

  ghost function ResetStep(policy: Policy, s: State, target: Option<Committed>): Result<State, Error> {
    if !s.materialized then Err(Unmaterialized)
    else if target.None? || !ValidCommitted(target.value) then Err(RecoveryRequired)
    else ReplaceStep(policy, s, s.branch, s.baseOid, target.value, "reset")
  }

  // ---------------------------------------------------------------- commit

  datatype CommitResult = CommitResult(committed: bool, oid: string, conflict: bool, recoveryRequired: bool)

  /** The repository's commit response, whether it also failed, and the object it then reads back. */
  datatype CommitReply = CommitReply(result: CommitResult, failed: bool, exact: Option<Committed>)

  datatype CommitOutcome = CommitOutcome(state: State, result: CommitResult, error: Option<Error>)

  const NOTHING_COMMITTED: CommitResult := CommitResult(false, "", false, false)

  /** The final states BuildEffective derives from the committed source and an overlay. */
  function EffectiveStates(source: Source, changes: seq<LiveChange>): seq<LiveState> {
    Overlay(PresentOnly(Normal(source.base)), EditsOf(changes))
  }

  ghost function CommitStep(policy: Policy, s: State, message: string, reply: CommitReply): CommitOutcome {
    if message == "" || NUL in message then CommitOutcome(s, NOTHING_COMMITTED, Some(InvalidRequest))
    else if !s.materialized then CommitOutcome(s, NOTHING_COMMITTED, Some(Unmaterialized))
    else if !DirtyDecidable(s) then CommitOutcome(s, NOTHING_COMMITTED, Some(LimitExceeded))
    else
      var changes := DirtyChanges(s);
      if changes == [] then CommitOutcome(s, NOTHING_COMMITTED, None)
      else if !AllValid(s.committed.source.base) then CommitOutcome(s, NOTHING_COMMITTED, Some(InvalidRequest))
      else if !SameStates(EffectiveStates(s.committed.source, changes), s.shared) then
        CommitOutcome(s, NOTHING_COMMITTED, Some(RecoveryRequired))
      else if !reply.result.committed then
        CommitOutcome(s, reply.result, if reply.failed then Some(RepositoryFailure) else None)
      else
        var s1 := if reply.exact.Some? then s.(baseOid := reply.result.oid, committed := reply.exact.value) else s;
        if !ValidOid(reply.result.oid) || reply.exact.None? || !ValidCommitted(reply.exact.value) ||
           !SameStates(reply.exact.value.projection.states, s.shared) || !RegistryReady(policy, s1) then
          CommitOutcome(s, reply.result.(recoveryRequired := true), Some(RecoveryRequired))
        else
          CommitOutcome(s1, reply.result,
                        if reply.result.recoveryRequired then Some(RecoveryRequired)
                        else if reply.failed then Some(RepositoryFailure) else None)
  }
}
