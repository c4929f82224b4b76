/**
 * The transaction callbacks of the service (core/worktree/service.go), step by step as the
 * source runs them, each proved to compute its function in `Steps`. A callback works on its
 * own copy of the canonical state.
 */
module Callbacks {
  import opened Wrappers
  import opened LastOccurrence
  import opened Live
  import opened Diff
  import opened Projection
  import opened Fingerprint
  import opened State
  import opened Registry
  import opened Steps
  import opened Preservation
  import opened Keeps

  // ---------------------------------------------------------------- validation

  method ValidateShells(shells: map<string, Shell>, head: nat) returns (structural: bool, recordable: bool)
    ensures structural <==> forall id | id in shells :: ValidShell(id, shells[id], head)
    ensures recordable <==> forall id | id in shells ::
              Recordable(shells[id].appliedBaseline) && Recordable(shells[id].captureBaseline)
  {
    hide ValidShell;
    structural, recordable := true, true;
    var remaining := shells.Keys;
    while remaining != {}
      invariant remaining <= shells.Keys
      invariant structural <==> forall id | id in shells && id !in remaining :: ValidShell(id, shells[id], head)
      invariant recordable <==> forall id | id in shells && id !in remaining ::
                  Recordable(shells[id].appliedBaseline) && Recordable(shells[id].captureBaseline)
      decreases |remaining|
    {
      var id :| id in remaining;
      structural := structural && ValidShell(id, shells[id], head);
      recordable := recordable && Recordable(shells[id].appliedBaseline) && Recordable(shells[id].captureBaseline);
      remaining := remaining - {id};
    }
  }

  /** ValidateState: every check in the order of the source, composed from the validators. */
  method ValidateState(s: State) returns (ok: bool)
    ensures ok <==> ValidState(s)
  {
    hide ValidShell, ValidReceipts, ValidCommitted, FoldEvents, MapOf, InBounds, ValidBranch, ValidOid,
         AdmittedWithinLimits;
    if !s.materialized {
      return Blank(s);
    }
    if !ValidBranch(s.branch) || !ValidOid(s.baseOid) {
      return false;
    }
    if s.headRevision == 0 || s.headRevision >= MAX_REVISION || s.compactionFloor > s.headRevision {
      return false;
    }
    if !ValidCommitted(s.committed) || !CanonicalAdmitted(s.admitted) || !AdmittedWithinLimits(s.admitted) {
      return false;
    }
    if !WellFormed(s.shared) || !WellFormed(s.compactionBaseline) || !Recordable(s.compactionBaseline) {
      return false;
    }
    if |s.events| > MAX_STATE_EVENTS {
      return false;
    }
    var contiguous := ValidateEventSequence(s.compactionFloor, s.headRevision, s.events);
    if !contiguous {
      return false;
    }
    assert forall e | e in s.events :: ValidChanges(e.changes);
    var folded := ValidateSharedGeneration(s.compactionBaseline, s.events, s.shared);
    if !folded || |s.shells| > MAX_SHELL_RECORDS {
      return false;
    }
    var structural, recordable := ValidateShells(s.shells, s.headRevision);
    if !structural || !recordable {
      return false;
    }
    ok := ValidateReceipts(s.receipts, s.shells);
  }

  // ---------------------------------------------------------------- attach

  method AttachRegistry(policy: Policy, registry: Registry, states: seq<LiveState>)
    returns (baseline: seq<LiveState>, exclusions: seq<Exclusion>)
    ensures PresentOnly(baseline) == AttachBaseline(policy, registry, states)
    ensures exclusions == AttachExclusions(policy, registry, states)
  {
    hide AllowsLiveValue, ExclusionReason;
    baseline, exclusions := [], [];
    for i := 0 to |states|
      invariant PresentOnly(baseline) == AttachBaseline(policy, registry, states[..i])
      invariant exclusions == AttachExclusions(policy, registry, states[..i])
    {
      assert states[..i + 1][..i] == states[..i];
      assert (baseline + [states[i]])[..|baseline|] == baseline;
      var allowed := AllowsLiveValue(policy, registry, states[i].identity);
      var reason := ExclusionReason(policy, registry, states[i].identity);
      if states[i].value.Removed? {
        if allowed {
          baseline := baseline + [states[i]];
        }
      } else if reason.Some? {
        exclusions := exclusions + [Exclusion(states[i].identity, reason.value)];
        ExcludedIsNotAllowed(policy, registry, states[i].identity);
      } else if !allowed {
        exclusions := exclusions + [Exclusion(states[i].identity, PresentAtAttach)];
      } else {
        baseline := baseline + [states[i]];
      }
    }
    assert states[..|states|] == states;
  }

  lemma ExcludedIsNotAllowed(policy: Policy, registry: Registry, id: Identity)
    requires ExclusionReason(policy, registry, id).Some?
    ensures !AllowsLiveValue(policy, registry, id)
  {
  }

  method PresentStates(states: seq<LiveState>) returns (out: seq<LiveState>)
    ensures out == PresentOnly(states)
  {
    out := [];
    for i := 0 to |states|
      invariant out == PresentOnly(states[..i])
    {
      assert states[..i + 1][..i] == states[..i];
      if !states[i].value.Removed? {
        out := out + [states[i]];
      }
    }
    assert states[..|states|] == states;
  }

  method AttachShell(policy: Policy, s: State, request: AttachRequest) returns (shell: Shell)
    requires AllValid(request.initial.states)
    ensures shell == NewShell(policy, s, request)
  {
    var states := NormalizeLiveStates(request.initial.states);
    var baseline, exclusions := AttachRegistry(policy, RegistryOf(s), states.value);
    baseline := PresentStates(baseline);
    var present := PresentStates(states.value);
    hide PresentOnly, AttachBaseline, AttachExclusions, MapOf;
    shell := Shell(VerifierOf(request.credential.capability), CleanReconcile, s.headRevision, 0, [], baseline, [],
                   StateIds(present), exclusions, Attaching, NoPending, false, None, s.headRevision);
    var current := EqualLiveStates(baseline, s.shared);
    if current {
      shell := shell.(attachState := AtHead, appliedRevision := s.headRevision, appliedBaseline := s.shared);
    } else {
      shell := shell.(attachState := CleanReconcile, behind := true);
    }
  }

  method Record(s: State, credential: Credential, operationId: string, digest: RequestDigest, shell: Shell,
                reply: Reply)
    returns (step: Step)
    ensures step == Recorded(s, credential, operationId, digest, shell, reply)
  {
    var state := s.(shells := s.shells[credential.shellId := shell]);
    var receipts := AppendReceipt(state.receipts, Receipt(credential.shellId, operationId, digest, reply));
    state := state.(receipts := receipts);
    step := Step(state, reply);
  }

  method AttachCallback(policy: Policy, s: State, request: AttachRequest) returns (r: Result<Step, Error>)
    ensures r == AttachStep(policy, s, request)
  {
    hide NewShell, Recorded, RegistryReady, ReceiptFor, ValidSnapshot, CheckPrivate;
    var refused := CheckPrivate(request.operationId, request.credential);
    if refused.Some? {
      return Err(refused.value);
    }
    if !ValidSnapshot(request.initial) {
      return Err(InvalidRequest);
    }
    var digest := AttachDigest(request.initial.byteSize, request.initial.states);
    if !s.materialized {
      return Err(Unmaterialized);
    }
    var id := request.credential.shellId;
    if id in s.shells {
      if !Verifies(s.shells[id].verifier, request.credential.capability) {
        return Err(Unauthorized);
      }
      var receipt := FindReceipt(s.receipts, id, request.operationId);
      if receipt.None? {
        return Err(AlreadyAttached);
      }
      if !receipt.value.reply.Attached? || receipt.value.digest != digest {
        return Err(OperationReplay);
      }
      return Ok(Step(s, receipt.value.reply));
    }
    if |s.shells| >= MAX_SHELL_RECORDS {
      return Err(LimitExceeded);
    }
    if !RegistryReady(policy, s) {
      return Err(RecoveryRequired);
    }
    SnapshotStates(request.initial);
    var shell := AttachShell(policy, s, request);
    var reply := Attached(s.headRevision, shell.attachState == CleanReconcile, shell.exclusions);
    var step := Record(s, request.credential, request.operationId, digest, shell, reply);
    r := Ok(step);
  }

  lemma SnapshotStates(snapshot: LiveSnapshot)
    requires ValidSnapshot(snapshot)
    ensures AllValid(snapshot.states)
  {
  }

  // ---------------------------------------------------------------- publish

  method ChangedIdentitiesAfter(events: seq<Event>, revision: nat) returns (out: set<Identity>)
    ensures out == ChangedAfter(events, revision)
  {
    hide Keys;
    out := {};
    for i := 0 to |events|
      invariant out == ChangedAfter(events[..i], revision)
    {
      assert events[..i + 1][..i] == events[..i];
      if events[i].revision > revision {
        var changed := ChangedIn(events[i].changes);
        out := out + changed;
      }
    }
    assert events[..|events|] == events;
  }

  method ChangedIn(changes: seq<LiveChange>) returns (out: set<Identity>)
    ensures out == Keys(ChangeIdentity, changes)
  {
    out := {};
    for i := 0 to |changes|
      invariant out == Keys(ChangeIdentity, changes[..i])
    {
      assert changes[..i + 1] == changes[..i] + [changes[i]];
      KeysSnoc(ChangeIdentity, changes[..i], changes[i]);
      out := out + {changes[i].identity};
    }
    assert changes[..|changes|] == changes;
  }

  method ChangeMatchesStates(change: LiveChange, states: seq<LiveState>) returns (matches: bool)
    ensures matches == ChangeMatches(change, states)
  {
    hide EqualValue;
    assert states[0..] == states;
    for i := 0 to |states|
      invariant ChangeMatches(change, states) == ChangeMatches(change, states[i..])
    {
      assert states[i..][1..] == states[i + 1..];
      if states[i].identity == change.identity {
        if change.kind == Remove {
          return false;
        }
        return EqualValue(change.identity.kind, change.value, states[i].value);
      }
    }
    matches := change.kind == Remove;
  }

  method SplitDelta(s: State, acknowledged: nat, semantic: seq<LiveChange>)
    returns (accepted: seq<LiveChange>, losing: seq<LiveChange>)
    ensures accepted == Accepted(s, acknowledged, semantic) && losing == Losing(s, acknowledged, semantic)
  {
    hide ChangeMatches, ChangedAfter;
    var gap := acknowledged < s.compactionFloor;
    var remote := ChangedIdentitiesAfter(s.events, acknowledged);
    accepted, losing := [], [];
    for i := 0 to |semantic|
      invariant accepted == Accepted(s, acknowledged, semantic[..i])
      invariant losing == Losing(s, acknowledged, semantic[..i])
    {
      assert semantic[..i + 1][..i] == semantic[..i];
      var change := semantic[i];
      var matches := ChangeMatchesStates(change, s.shared);
      if !matches {
        if gap || change.identity in remote {
          losing := losing + [change];
        } else {
          accepted := accepted + [change];
        }
      }
    }
    assert semantic[..|semantic|] == semantic;
  }

  method CollectConflicts(losing: seq<LiveChange>, kind: ConflictKind, base: nat, shared: nat, token: Token)
    returns (conflicts: seq<Conflict>)
    ensures conflicts == ConflictsOf(losing, kind, base, shared, token)
  {
    conflicts := [];
    for i := 0 to |losing|
      invariant conflicts == ConflictsOf(losing, kind, base, shared, token)[..i]
    {
      conflicts := conflicts + [Conflict(kind, losing[i].identity, base, shared, token)];
    }
  }

  method CollectIds(changes: seq<LiveChange>) returns (ids: seq<Identity>)
    ensures ids == ChangeIds(changes)
  {
    ids := [];
    for i := 0 to |changes|
      invariant ids == ChangeIds(changes)[..i]
    {
      ids := ids + [changes[i].identity];
    }
  }

  /** What a transaction may rely on about the history of a stored state. */
  ghost predicate Advancing(s: State) {
    AllValid(s.shared) && AllValid(s.compactionBaseline) &&
    ValidEventSequence(s.compactionFloor, s.headRevision, s.events)
  }

  lemma StoredAdvances(s: State)
    requires Structural(s) && s.materialized
    ensures Advancing(s) && WellFormed(s.shared) && CanonicalAdmitted(s.admitted)
    ensures ValidBranch(s.branch) && ValidOid(s.baseOid)
    ensures AllValid(s.committed.projection.states)
  {
  }

  lemma StoredShell(s: State, id: string)
    requires Structural(s) && id in s.shells
    ensures WellFormed(s.shells[id].captureBaseline) && WellFormed(s.shells[id].appliedBaseline)
  {
    hide ValidReceipts, FoldEvents, MapOf, ValidCommitted;
  }

  lemma NextEventValid(s: State, origin: Origin, changes: seq<LiveChange>)
    requires Advancing(s) && ValidOrigin(origin) && ValidChanges(changes)
    ensures ValidEventSequence(s.compactionFloor, s.headRevision + 1,
                               s.events + [Event(s.headRevision + 1, origin, changes)])
  {
    hide ValidChanges;
    var events := s.events + [Event(s.headRevision + 1, origin, changes)];
    forall i | 0 <= i < |events|
      ensures events[i].revision == s.compactionFloor + 1 + i && ValidEvent(events[i])
    {
      if i < |s.events| {
        assert events[i] == s.events[i];
      }
    }
  }

  /** Moves the head, appends the event of the new generation and compacts. */
  method Advance(s: State, origin: Origin, changes: seq<LiveChange>, shared: seq<LiveState>) returns (state: State)
    requires Advancing(s) && ValidOrigin(origin) && ValidChanges(changes)
    ensures state == Advanced(s, origin, changes, shared)
  {
    NextEventValid(s, origin, changes);
    hide ValidEventSequence, Compact, ValidChanges;
    state := s.(shared := shared, headRevision := s.headRevision + 1);
    state := state.(events := state.events + [Event(state.headRevision, origin, changes)]);
    var compacted := CompactStateHistory(state.headRevision,
                                         History(state.compactionBaseline, state.compactionFloor, state.events));
    state := state.(compactionBaseline := compacted.value.baseline, compactionFloor := compacted.value.floor,
                    events := compacted.value.events);
  }

  method MergeDelta(s: State, request: PublishRequest, shell: Shell, observed: seq<LiveState>,
                    semantic: seq<LiveChange>)
    returns (r: Result<Step, Error>)
    requires Advancing(s) && ValidChanges(semantic)
    requires ValidToken(request.operationId) && ValidToken(request.credential.shellId)
    requires shell.conflict.None?
    ensures r == Merge(s, request, shell, observed, semantic)
  {
    SplitValid(s, request.acknowledgedRevision, semantic);
    hide Accepted, Losing, Advancing, ValidChanges, WithReceipt, Compact, ApplyChanges, ConflictsOf, ValidToken;
    var digest := PublishDigest(request.acknowledgedRevision, request.delta);
    var accepted, losing := SplitDelta(s, request.acknowledgedRevision, semantic);
    var state := s;
    if accepted != [] {
      if state.headRevision >= MAX_REVISION {
        return Err(LimitExceeded);
      }
      var shared := ApplyAccepted(state, accepted);
      state := Advance(state, ShellOrigin(request.operationId, request.credential.shellId), accepted, shared);
    }
    var ids := CollectIds(accepted);
    var kind := if request.acknowledgedRevision < s.compactionFloor then HistoryGap else Overlap;
    var token := ConflictToken(request.operationId, digest, state.headRevision);
    var conflicts := CollectConflicts(losing, kind, request.acknowledgedRevision, state.headRevision, token);
    var publisher := shell;
    if losing != [] {
      publisher := publisher.(conflict := Some(conflicts[0]), unpublishedDelta := losing, transition := Unpublished);
    } else {
      publisher := publisher.(transition := Publishing);
    }
    publisher := publisher.(captureBaseline := observed,
                            behind := publisher.appliedRevision < state.headRevision || publisher.conflict.Some?,
                            lastActiveRevision := state.headRevision);
    var step := Record(state, request.credential, request.operationId, digest, publisher,
                       Published(state.headRevision, ids, conflicts));
    r := Ok(step);
  }

  method ApplyAccepted(s: State, accepted: seq<LiveChange>) returns (shared: seq<LiveState>)
    requires Advancing(s) && ValidChanges(accepted)
    ensures shared == ApplyChanges(s.shared, accepted)
  {
    var applied := ApplyStateChanges(s.shared, accepted);
    shared := applied.value;
  }

  method PublishCallback(policy: Policy, s: State, request: PublishRequest) returns (r: Result<Step, Error>)
    requires ValidState(s)
    ensures r == PublishStep(policy, s, request)
  {
    hide CheckPrivate, ValidChanges, RegistryReady, ReceiptFor, FilterChanges, Merge, InBounds;
    var refused := CheckPrivate(request.operationId, request.credential);
    if refused.Some? {
      return Err(refused.value);
    }
    var valid := ValidateChanges(request.delta);
    if !valid {
      return Err(InvalidRequest);
    }
    if !Authorized(s, request.credential) {
      return Err(Unauthorized);
    }
    var id := request.credential.shellId;
    var shell := s.shells[id];
    var digest := PublishDigest(request.acknowledgedRevision, request.delta);
    var receipt := FindReceipt(s.receipts, id, request.operationId);
    if receipt.Some? {
      if !receipt.value.reply.Published? || receipt.value.digest != digest {
        return Err(OperationReplay);
      }
      return Ok(Step(s, receipt.value.reply));
    }
    if shell.pending != NoPending || request.acknowledgedRevision != shell.appliedRevision ||
      shell.appliedRevision == 0 {
      return Err(NeedsReconcile);
    }
    if shell.conflict.Some? || shell.unpublishedDelta != [] {
      return Err(ConflictRequiresResolution);
    }
    if !RegistryReady(policy, s) {
      return Err(RecoveryRequired);
    }
    r := PublishAdmitted(policy, s, request);
  }

  /** The part of a publish after its admission checks. */
  method PublishAdmitted(policy: Policy, s: State, request: PublishRequest) returns (r: Result<Step, Error>)
    requires ValidState(s) && s.materialized && request.credential.shellId in s.shells
    requires CheckPrivate(request.operationId, request.credential).None? && ValidChanges(request.delta)
    requires s.shells[request.credential.shellId].conflict.None?
    ensures var shell := s.shells[request.credential.shellId];
            r == match FilterChanges(policy, s, shell, request.delta)
                 case None => Err(LimitExceeded)
                 case Some(filtered) =>
                   var observed := ApplyChanges(shell.captureBaseline, filtered.kept);
                   if !InBounds(shell.captureBaseline) || !InBounds(observed) then Err(LimitExceeded)
                   else
                     Merge(s.(admitted := filtered.admitted), request, shell, observed,
                           DiffMaps(MapOf(shell.captureBaseline), MapOf(observed)))
  {
    var shell := s.shells[request.credential.shellId];
    StoredAdvances(s);
    StoredShell(s, request.credential.shellId);
    hide ValidState, Structural, WithinLimits, Merge, FilterChanges, DiffMaps, MapOf, ApplyChanges, StateBytes, Unique;
    var filtered := AdmittedChanges(policy, s, shell, request.delta);
    if filtered.None? {
      return Err(LimitExceeded);
    }
    FilteredChangesSound(policy, s, shell, request.delta);
    var observed := ApplyStateChanges(shell.captureBaseline, filtered.value.kept);
    ObservedSound(shell.captureBaseline, filtered.value.kept);
    var semantic := DiffSnapshot(LiveSnapshot(0, shell.captureBaseline), LiveSnapshot(0, observed.value));
    if semantic.Err? {
      return Err(LimitExceeded);
    }
    r := MergeDelta(s.(admitted := filtered.value.admitted), request, shell, observed.value, semantic.value);
  }

  // ---------------------------------------------------------------- prepare

  method DiffLists(before: seq<LiveState>, after: seq<LiveState>) returns (r: Result<seq<LiveChange>, ()>)
    requires AllValid(before) && AllValid(after)
    ensures r.Ok? <==> InBounds(before) && InBounds(after)
    ensures r.Ok? ==> r.value == DiffMaps(MapOf(before), MapOf(after))
  {
    hide DiffMaps, MapOf, StateBytes;
    r := DiffSnapshot(LiveSnapshot(0, before), LiveSnapshot(0, after));
  }

  method FingerprintList(states: seq<LiveState>) returns (r: Result<Fingerprint, ()>)
    requires AllValid(states)
    ensures r.Ok? <==> InBounds(states)
    ensures r.Ok? ==> r.value == FingerprintOf(states)
  {
    hide FingerprintOf, StateBytes;
    r := FingerprintSnapshot(LiveSnapshot(0, states));
  }

  method PrepareCallback(s: State, request: PrepareRequest) returns (r: Result<Step, Error>)
    requires ValidState(s)
    ensures r == PrepareStep(s, request)
  {
    if s.materialized {
      StoredAdvances(s);
    }
    hide CheckPrivate, ReceiptFor, InBounds, DiffMaps, MapOf, FingerprintOf, Recorded, ValidState, Advancing;
    var refused := CheckPrivate(request.operationId, request.credential);
    if refused.Some? {
      return Err(refused.value);
    }
    if !Authorized(s, request.credential) {
      return Err(Unauthorized);
    }
    var id := request.credential.shellId;
    StoredShell(s, id);
    var shell := s.shells[id];
    var digest := PrepareDigest(request.appliedRevision);
    var receipt := FindReceipt(s.receipts, id, request.operationId);
    if receipt.Some? {
      if !receipt.value.reply.Prepared? || receipt.value.digest != digest {
        return Err(OperationReplay);
      }
      return Ok(Step(s, receipt.value.reply));
    }
    if shell.conflict.Some? || shell.unpublishedDelta != [] {
      return Err(ConflictRequiresResolution);
    }
    if shell.pending != NoPending {
      return Err(NeedsReconcile);
    }
    var base := shell.captureBaseline;
    if request.appliedRevision != shell.appliedRevision {
      shell := shell.(attachState := CleanReconcile, appliedRevision := 0, appliedBaseline := []);
    }
    var changes := DiffLists(base, s.shared);
    if changes.Err? {
      return Err(LimitExceeded);
    }
    var reply := Prepared(0, NoToken, []);
    if !(changes.value == [] && request.appliedRevision == s.headRevision && shell.appliedRevision == s.headRevision) {
      var fingerprint := FingerprintList(s.shared);
      var token := PullToken(request.operationId, digest, s.headRevision);
      reply := Prepared(s.headRevision, token, changes.value);
      shell := shell.(pending := Pull(s.headRevision, fingerprint.value, token, changes.value), transition := Preparing,
                      behind := true);
    }
    shell := shell.(lastActiveRevision := s.headRevision);
    var step := Record(s, request.credential, request.operationId, digest, shell, reply);
    r := Ok(step);
  }

  // ---------------------------------------------------------------- resolve

  /** The checks and admissions that resolve and acknowledge share. */
  method Observe(policy: Policy, s: State, credential: Credential, snapshot: LiveSnapshot)
    returns (r: Result<Filtered<LiveState>, Error>)
    requires ValidState(s) && AllValid(snapshot.states)
    ensures r == if !Authorized(s, credential) then Err(Unauthorized)
                 else if !RegistryReady(policy, s) then Err(RecoveryRequired)
                 else match FilterSnapshot(policy, s, s.shells[credential.shellId], snapshot.states)
                      case None => Err(LimitExceeded)
                      case Some(filtered) => Ok(filtered)
    ensures r.Ok? ==> WellFormed(r.value.kept)
  {
    if s.materialized {
      StoredAdvances(s);
    }
    hide ValidState, Structural, RegistryReady, FilterSnapshot, Unique, Advancing;
    if !Authorized(s, credential) {
      return Err(Unauthorized);
    }
    if !RegistryReady(policy, s) {
      return Err(RecoveryRequired);
    }
    var filtered := AdmittedSnapshot(policy, s, s.shells[credential.shellId], snapshot.states);
    if filtered.None? {
      return Err(LimitExceeded);
    }
    FilteredSnapshotSound(policy, s, s.shells[credential.shellId], snapshot.states);
    r := Ok(filtered.value);
  }

  method ContainsIdentity(changes: seq<LiveChange>, id: Identity) returns (found: bool)
    ensures found <==> id in Keys(ChangeIdentity, changes)
  {
    for i := 0 to |changes|
      invariant forall k | 0 <= k < i :: changes[k].identity != id
    {
      if changes[i].identity == id {
        assert ChangeIdentity(changes[i]) == id;
        return true;
      }
    }
    found := false;
  }

  method ResolveCallback(policy: Policy, s: State, request: ResolveRequest) returns (r: Result<Step, Error>)
    requires ValidState(s)
    ensures r == ResolveStep(policy, s, request)
  {
    if ValidSnapshot(request.snapshot) {
      SnapshotStates(request.snapshot);
    }
    hide CheckPrivate, ValidSnapshot, ReceiptFor, RegistryReady, FilterSnapshot, InBounds, DiffMaps, MapOf,
         FingerprintOf, Recorded, ValidState, Resolvable, Keys, ValidIdentity, WellFormed;
    var refused := CheckPrivate(request.operationId, request.credential);
    if refused.Some? {
      return Err(refused.value);
    }
    if !ValidIdentity(request.conflict) || !UsableToken(request.token) || !ValidSnapshot(request.snapshot) {
      return Err(ConflictRequiresResolution);
    }
    var filtered := Observe(policy, s, request.credential, request.snapshot);
    if filtered.Err? {
      return Err(filtered.error);
    }
    r := ResolveObserved(s, request, filtered.value);
  }

  /** The part of a resolution after its observation was admitted. */
  method ResolveObserved(s: State, request: ResolveRequest, filtered: Filtered<LiveState>)
    returns (r: Result<Step, Error>)
    requires ValidState(s) && s.materialized && request.credential.shellId in s.shells && WellFormed(filtered.kept)
    ensures var shell, s0 := s.shells[request.credential.shellId], s.(admitted := filtered.admitted);
            var digest := ResolveDigest(request.conflict, request.token, filtered.kept);
            var changes := DiffMaps(MapOf(filtered.kept), MapOf(s.shared));
            r == match ReceiptFor(s.receipts, request.credential.shellId, request.operationId)
                 case Some(receipt) =>
                   if receipt.reply.Resolved? && receipt.digest == digest then Ok(Step(s0, receipt.reply))
                   else Err(OperationReplay)
                 case None =>
                   if !Resolvable(shell, request) then Err(ConflictRequiresResolution)
                   else if !InBounds(filtered.kept) || !InBounds(shell.captureBaseline) ||
                           FingerprintOf(filtered.kept) != FingerprintOf(shell.captureBaseline) then
                     Err(ConflictRequiresResolution)
                   else if !InBounds(s.shared) then Err(LimitExceeded)
                   else
                     Ok(Recorded(s0, request.credential, request.operationId, digest,
                                 ResolvingShell(shell, s, request.token, request.conflict, changes),
                                 Resolved(s.headRevision, request.token, changes)))
  {
    StoredAdvances(s);
    StoredShell(s, request.credential.shellId);
    hide ReceiptFor, InBounds, DiffMaps, MapOf, FingerprintOf, Recorded, ValidState, Keys, Advancing,
         CanonicalAdmitted, Unique, ValidBranch, ValidOid;
    var observed := filtered.kept;
    var state := s.(admitted := filtered.admitted);
    var shell := s.shells[request.credential.shellId];
    var digest := ResolveDigest(request.conflict, request.token, observed);
    var receipt := FindReceipt(s.receipts, request.credential.shellId, request.operationId);
    if receipt.Some? {
      if !receipt.value.reply.Resolved? || receipt.value.digest != digest {
        return Err(OperationReplay);
      }
      return Ok(Step(state, receipt.value.reply));
    }
    var held := ContainsIdentity(shell.unpublishedDelta, request.conflict);
    if shell.conflict.None? || shell.conflict.value.identity != request.conflict ||
       shell.conflict.value.token != request.token || !held || shell.pending != NoPending {
      return Err(ConflictRequiresResolution);
    }
    var observedFingerprint := FingerprintList(observed);
    var baselineFingerprint := FingerprintList(shell.captureBaseline);
    if observedFingerprint.Err? || baselineFingerprint.Err? || observedFingerprint.value != baselineFingerprint.value {
      return Err(ConflictRequiresResolution);
    }
    var changes := DiffLists(observed, s.shared);
    if changes.Err? {
      return Err(LimitExceeded);
    }
    var target := FingerprintList(s.shared);
    shell := shell.(pending := Resolution(s.headRevision, target.value, request.token, changes.value, request.conflict),
                    transition := Resolving, behind := true, lastActiveRevision := s.headRevision);
    var step := Record(state, request.credential, request.operationId, digest, shell,
                       Resolved(s.headRevision, request.token, changes.value));
    r := Ok(step);
  }

  // ---------------------------------------------------------------- acknowledge

  method AcknowledgeCallback(policy: Policy, s: State, request: AcknowledgeRequest) returns (r: Result<Step, Error>)
    requires ValidState(s)
    ensures r == AcknowledgeStep(policy, s, request)
  {
    if ValidSnapshot(request.snapshot) {
      SnapshotStates(request.snapshot);
    }
    hide CheckPrivate, ValidSnapshot, ReceiptFor, RegistryReady, FilterSnapshot, InBounds, FingerprintOf, Recorded,
         ValidState, WellFormed, Pends, Backed;
    var refused := CheckPrivate(request.operationId, request.credential);
    if refused.Some? {
      return Err(refused.value);
    }
    if request.revision == 0 || !UsableToken(request.token) || !ValidSnapshot(request.snapshot) {
      return Err(AcknowledgeMismatch);
    }
    var filtered := Observe(policy, s, request.credential, request.snapshot);
    if filtered.Err? {
      return Err(filtered.error);
    }
    r := AcknowledgeObserved(s, request, filtered.value);
  }

  /** The part of an acknowledgement after its observation was admitted. */
  method AcknowledgeObserved(s: State, request: AcknowledgeRequest, filtered: Filtered<LiveState>)
    returns (r: Result<Step, Error>)
    requires s.materialized && request.credential.shellId in s.shells && AllValid(filtered.kept)
    ensures var shell, s0 := s.shells[request.credential.shellId], s.(admitted := filtered.admitted);
            var digest := AcknowledgeDigest(request.revision, request.token, filtered.kept);
            r == match ReceiptFor(s.receipts, request.credential.shellId, request.operationId)
                 case Some(receipt) =>
                   if receipt.reply.Acknowledged? && receipt.digest == digest then Ok(Step(s0, receipt.reply))
                   else Err(OperationReplay)
                 case None =>
                   if !Pends(shell.pending, request.revision, request.token) || !Backed(shell) then
                     Err(AcknowledgeMismatch)
                   else if !InBounds(filtered.kept) || FingerprintOf(filtered.kept) != shell.pending.fingerprint then
                     Err(AcknowledgeMismatch)
                   else
                     Ok(Recorded(s0, request.credential, request.operationId, digest,
                                 AcknowledgedShell(shell, s.headRevision, filtered.kept),
                                 Reply.Acknowledged(shell.pending.revision)))
  {
    hide ReceiptFor, InBounds, FingerprintOf, Recorded;
    var observed := filtered.kept;
    var state := s.(admitted := filtered.admitted);
    var shell := s.shells[request.credential.shellId];
    var digest := AcknowledgeDigest(request.revision, request.token, observed);
    var receipt := FindReceipt(s.receipts, request.credential.shellId, request.operationId);
    if receipt.Some? {
      if !receipt.value.reply.Acknowledged? || receipt.value.digest != digest {
        return Err(OperationReplay);
      }
      return Ok(Step(state, receipt.value.reply));
    }
    var pending := shell.pending;
    if pending.NoPending? || pending.revision != request.revision || pending.token != request.token {
      return Err(AcknowledgeMismatch);
    }
    if pending.Resolution? && (shell.conflict.None? || pending.conflict != shell.conflict.value.identity ||
                               pending.token != shell.conflict.value.token) {
      return Err(AcknowledgeMismatch);
    }
    var fingerprint := FingerprintList(observed);
    if fingerprint.Err? || fingerprint.value != pending.fingerprint {
      return Err(AcknowledgeMismatch);
    }
    shell := shell.(attachState := AtHead, appliedRevision := pending.revision, appliedBaseline := observed,
                    captureBaseline := observed);
    if pending.Resolution? {
      shell := shell.(conflict := None, unpublishedDelta := []);
    }
    shell := shell.(pending := NoPending, transition := Transition.Acknowledging,
                    behind := shell.appliedRevision < s.headRevision || shell.conflict.Some?,
                    lastActiveRevision := s.headRevision);
    var step := Record(state, request.credential, request.operationId, digest, shell,
                       Reply.Acknowledged(pending.revision));
    r := Ok(step);
  }

  // ---------------------------------------------------------------- materialize

  method BuildCandidate(branch: string, oid: string, committed: Committed) returns (r: Option<State>)
    ensures r == if AllValid(committed.projection.states) && InBounds(committed.projection.states)
                 then Some(Candidate(branch, oid, committed)) else None
  {
    var changes := DiffSnapshot(LiveSnapshot(0, []), LiveSnapshot(0, committed.projection.states));
    if changes.Err? {
      return None;
    }
    assert MapOf([]) == map[];
    ApplyValid(map[], committed.projection.states);
    DiffMinimal(map[], MapOf(committed.projection.states));
    hide DiffMaps, MapOf, StateBytes, ApplyChanges, ValidChanges;
    var shared := ApplyStateChanges([], changes.value);
    r := Some(State(true, branch, oid, committed, 1, true, [], shared.value, 0, [],
                    [Event(1, MaterializeOrigin, changes.value)], map[], []));
  }

  method MaterializeCallback(policy: Policy, s: State, branch: string, oid: string, committed: Committed)
    returns (r: Result<State, Error>)
    ensures r == MaterializeStep(policy, s, branch, oid, committed)
  {
    hide Candidate, ValidState, RegistryReady, InBounds;
    var candidate := BuildCandidate(branch, oid, committed);
    if candidate.None? {
      return Err(RecoveryRequired);
    }
    var valid := ValidateState(candidate.value);
    if !valid {
      return Err(RecoveryRequired);
    }
    if s.materialized {
      if s.branch != branch || s.baseOid != oid || s.committed != committed || !RegistryReady(policy, s) {
        return Err(RecoveryRequired);
      }
      return Ok(s);
    }
    if !RegistryReady(policy, candidate.value) {
      return Err(RecoveryRequired);
    }
    r := Ok(candidate.value);
  }

  // ---------------------------------------------------------------- replacement

  method RefreshShell(shell: Shell, s: State) returns (refreshed: Shell)
    ensures refreshed == Refreshed(shell, s)
  {
    hide MapOf, Comparable;
    var same := EqualLiveStates(shell.appliedBaseline, s.shared);
    refreshed := shell.(behind := shell.appliedRevision < s.headRevision || !same || shell.conflict.Some?,
                        lastActiveRevision := s.headRevision);
  }

  /** Every shell outside `remaining` has been refreshed. */
  ghost predicate Refreshing(s: State, shells: map<string, Shell>, remaining: set<string>) {
    && shells.Keys == s.shells.Keys && remaining <= shells.Keys
    && forall id | id in shells :: shells[id] == if id in remaining then s.shells[id] else Refreshed(s.shells[id], s)
  }

  lemma RefreshNext(s: State, shells: map<string, Shell>, remaining: set<string>, id: string)
    requires Refreshing(s, shells, remaining) && id in remaining
    ensures id in shells && shells[id] == s.shells[id]
    ensures Refreshing(s, shells[id := Refreshed(shells[id], s)], remaining - {id})
  {
    hide Refreshed;
  }

  lemma RefreshDone(s: State, shells: map<string, Shell>)
    requires Refreshing(s, shells, {})
    ensures s.(shells := shells) == RefreshAll(s)
  {
    hide Refreshed;
  }

  method RefreshShells(s: State) returns (state: State)
    ensures state == RefreshAll(s)
  {
    var shells := s.shells;
    var remaining := shells.Keys;
    assert Refreshing(s, shells, remaining);
    hide Refreshed, Refreshing;
    while remaining != {}
      invariant Refreshing(s, shells, remaining)
      decreases |remaining|
    {
      var id :| id in remaining;
      RefreshNext(s, shells, remaining, id);
      var shell := RefreshShell(shells[id], s);
      shells := shells[id := shell];
      remaining := remaining - {id};
    }
    RefreshDone(s, shells);
    state := s.(shells := shells);
  }

  method ReplaceWorkflowGeneration(policy: Policy, s: State, branch: string, oid: string, document: Committed,
                                   operation: string)
    returns (r: Result<State, Error>)
    requires Advancing(s) && AllValid(document.projection.states)
    ensures r == ReplaceStep(policy, s, branch, oid, document, operation)
  {
    var target := document.projection.states;
    var changes := DiffLists(s.shared, target);
    if changes.Err? {
      return Err(LimitExceeded);
    }
    ApplyValid(map[], s.shared);
    ApplyValid(map[], target);
    DiffMinimal(MapOf(s.shared), MapOf(target));
    hide DiffMaps, MapOf, InBounds, RegistryReady, Compact, ValidEventSequence, ValidChanges, Refreshed;
    var state := s.(branch := branch, baseOid := oid, committed := document, shared := target);
    if !RegistryReady(policy, state) {
      return Err(RecoveryRequired);
    }
    if changes.value != [] {
      if state.headRevision >= MAX_REVISION {
        return Err(LimitExceeded);
      }
      state := Advance(state, WorkflowOrigin(operation), changes.value, target);
    }
    state := RefreshShells(state);
    r := Ok(state);
  }

  // ---------------------------------------------------------------- workflow operations

  method RepairCallback(policy: Policy, s: State, reply: RefReply) returns (r: Result<State, Error>)
    ensures r == RepairStep(policy, s, reply)
  {
    hide ValidCommitted, RegistryReady, MapOf, Comparable, ValidOid;
    if reply.observed.None? {
      return Err(RepositoryFailure);
    }
    if reply.observed.value == s.baseOid {
      return Ok(s);
    }
    if !ValidOid(reply.observed.value) {
      return Err(RecoveryRequired);
    }
    if reply.exact.None? || !ValidCommitted(reply.exact.value) {
      return Err(RecoveryRequired);
    }
    var same := EqualLiveStates(reply.exact.value.projection.states, s.shared);
    if !same {
      return Err(RecoveryRequired);
    }
    var state := s.(baseOid := reply.observed.value, committed := reply.exact.value);
    if !RegistryReady(policy, state) {
      return Err(RecoveryRequired);
    }
    r := Ok(state);
  }

  method AllSettled(shells: map<string, Shell>) returns (settled: bool)
    ensures settled <==> forall id | id in shells :: Settled(shells[id])
  {
    var remaining := shells.Keys;
    while remaining != {}
      invariant remaining <= shells.Keys
      invariant forall id | id in shells && id !in remaining :: Settled(shells[id])
      decreases |remaining|
    {
      var id :| id in remaining;
      if shells[id].conflict.Some? || shells[id].unpublishedDelta != [] || shells[id].pending != NoPending {
        return false;
      }
      remaining := remaining - {id};
    }
    settled := true;
  }

  method WorkflowChanges(s: State) returns (r: Result<seq<LiveChange>, ()>)
    requires AllValid(s.committed.projection.states) && AllValid(s.shared)
    ensures r.Ok? <==> DirtyDecidable(s)
    ensures r.Ok? ==> r.value == DirtyChanges(s)
  {
    hide InBounds, MapOf, DiffMaps;
    r := DiffLists(s.committed.projection.states, s.shared);
  }

  lemma RepairedAdvances(policy: Policy, s: State, reply: RefReply)
    requires Advancing(s) && RepairStep(policy, s, reply).Ok?
    ensures Advancing(RepairStep(policy, s, reply).value)
  {
    hide ValidEventSequence, ValidCommitted, RegistryReady, SameStates;
  }

  /** The guards of a checkout, and what it comes to behind them. */
  lemma CheckoutCases(policy: Policy, s: State, branch: string, create: bool, current: RefReply, created: bool,
                      target: RefReply)
    ensures CheckoutStep(policy, s, branch, create, current, created, target) ==
            if !ValidBranch(branch) then Err(InvalidRequest)
            else if !s.materialized then Err(Unmaterialized)
            else if !DirtyDecidable(s) then Err(LimitExceeded)
            else if DirtyChanges(s) != [] then Err(Dirty)
            else if exists id | id in s.shells :: !Settled(s.shells[id]) then Err(ConflictRequiresResolution)
            else if RepairStep(policy, s, current).Err? then Err(RepairStep(policy, s, current).error)
            else Replacing(policy, RepairStep(policy, s, current).value, branch, create, created, target)
  {
  }

  method CheckoutCallback(policy: Policy, s: State, branch: string, create: bool, current: RefReply, created: bool,
                          target: RefReply)
    returns (r: Result<State, Error>)
    requires ValidState(s)
    ensures r == CheckoutStep(policy, s, branch, create, current, created, target)
  {
    if s.materialized {
      StoredAdvances(s);
      SharedValid(s);
    }
    CheckoutCases(policy, s, branch, create, current, created, target);
    hide *;
    if !ValidBranch(branch) {
      return Err(InvalidRequest);
    }
    if !s.materialized {
      return Err(Unmaterialized);
    }
    var changes := WorkflowChanges(s);
    if changes.Err? {
      return Err(LimitExceeded);
    }
    if changes.value != [] {
      return Err(Dirty);
    }
    var settled := AllSettled(s.shells);
    if !settled {
      return Err(ConflictRequiresResolution);
    }
    var repaired := RepairCallback(policy, s, current);
    if repaired.Err? {
      return Err(repaired.error);
    }
    RepairedAdvances(policy, s, current);
    r := ReplaceTarget(policy, repaired.value, branch, create, created, target);
  }

  /** The part of a checkout after the published reference was repaired. */
  /** What a checkout comes to once the current branch is repaired. */
  ghost function Replacing(policy: Policy, s: State, branch: string, create: bool, created: bool, target: RefReply)
    : Result<State, Error>
  {
    if create && !created then Err(RepositoryFailure)
    else if target.observed.None? then Err(RepositoryFailure)
    else if !ValidOid(target.observed.value) then Err(RecoveryRequired)
    else if target.exact.None? || !ValidCommitted(target.exact.value) then Err(RecoveryRequired)
    else ReplaceStep(policy, s, branch, target.observed.value, target.exact.value, "checkout")
  }

  method ReplaceTarget(policy: Policy, s: State, branch: string, create: bool, created: bool, target: RefReply)
    returns (r: Result<State, Error>)
    requires Advancing(s)
    ensures r == Replacing(policy, s, branch, create, created, target)
  {
    hide ReplaceStep, ValidOid, ValidCommitted, Advancing;
    if create && !created {
      return Err(RepositoryFailure);
    }
    if target.observed.None? {
      return Err(RepositoryFailure);
    }
    if !ValidOid(target.observed.value) || target.exact.None? || !ValidCommitted(target.exact.value) {
      return Err(RecoveryRequired);
    }
    CommittedValid(target.exact.value);
    r := ReplaceWorkflowGeneration(policy, s, branch, target.observed.value, target.exact.value, "checkout");
  }

  lemma SharedValid(s: State)
    requires Advancing(s)
    ensures AllValid(s.shared)
  {
  }

  lemma CommittedValid(committed: Committed)
    requires ValidCommitted(committed)
    ensures AllValid(committed.projection.states)
  {
  }

  method ResetCallback(policy: Policy, s: State, target: Option<Committed>) returns (r: Result<State, Error>)
    requires ValidState(s)
    ensures r == ResetStep(policy, s, target)
  {
    hide ReplaceStep, ValidCommitted;
    if !s.materialized {
      return Err(Unmaterialized);
    }
    StoredAdvances(s);
    if target.None? || !ValidCommitted(target.value) {
      return Err(RecoveryRequired);
    }
    CommittedValid(target.value);
    r := ReplaceWorkflowGeneration(policy, s, s.branch, s.baseOid, target.value, "reset");
  }

  // ---------------------------------------------------------------- commit

  method WorkflowOverlay(changes: seq<LiveChange>) returns (overlay: seq<OverlayEntry>)
    requires ValidChanges(changes)
    ensures EntryEdits(overlay) == EditsOf(changes) && ValidOverlay(overlay)
  {
    overlay := [];
    for i := 0 to |changes|
      invariant |overlay| == i
      invariant forall k | 0 <= k < i ::
                  overlay[k] == OverlayEntry(changes[k].identity, changes[k].value, changes[k].kind == Remove)
    {
      assert changes[i] in changes;
      overlay := overlay + [if changes[i].kind == Remove then OverlayEntry(changes[i].identity, Removed, true)
                            else OverlayEntry(changes[i].identity, changes[i].value, false)];
    }
    forall e | e in overlay
      ensures ValidEntry(e)
    {
      var k :| 0 <= k < |overlay| && overlay[k] == e;
      assert changes[k] in changes;
    }
  }

  method BuildEffectiveStates(source: Source, changes: seq<LiveChange>) returns (states: seq<LiveState>)
    requires AllValid(source.base) && ValidChanges(changes)
    ensures states == EffectiveStates(source, changes)
  {
    NormalMap(source.base);
    EditsOfValid(changes);
    var base := NormalizeLiveStates(source.base);
    var overlay := WorkflowOverlay(changes);
    hide PresentOnly, Overlay, Normal;
    var projection := EffectiveProjection(base.value, overlay);
    states := projection.states;
  }

  method CommitCallback(policy: Policy, s: State, message: string, reply: CommitReply) returns (o: CommitOutcome)
    requires ValidState(s)
    ensures o == CommitStep(policy, s, message, reply)
  {
    if s.materialized {
      StoredAdvances(s);
    }
    hide ValidState, ValidOid, ValidCommitted, RegistryReady, EffectiveStates, DirtyChanges, MapOf, Comparable,
         DirtyDecidable, Advancing, CanonicalAdmitted, ValidBranch, WellFormed, AllValid, ValidChanges;
    if message == "" || NUL in message {
      return CommitOutcome(s, NOTHING_COMMITTED, Some(InvalidRequest));
    }
    if !s.materialized {
      return CommitOutcome(s, NOTHING_COMMITTED, Some(Unmaterialized));
    }
    SharedValid(s);
    var changes := WorkflowChanges(s);
    if changes.Err? {
      return CommitOutcome(s, NOTHING_COMMITTED, Some(LimitExceeded));
    }
    if changes.value == [] {
      return CommitOutcome(s, NOTHING_COMMITTED, None);
    }
    if !AllValid(s.committed.source.base) {
      return CommitOutcome(s, NOTHING_COMMITTED, Some(InvalidRequest));
    }
    DirtyChangesValid(s);
    var states := BuildEffectiveStates(s.committed.source, changes.value);
    var same := EqualLiveStates(states, s.shared);
    if !same {
      return CommitOutcome(s, NOTHING_COMMITTED, Some(RecoveryRequired));
    }
    o := StoreCommit(policy, s, reply);
  }

  lemma DirtyChangesValid(s: State)
    requires AllValid(s.committed.projection.states) && AllValid(s.shared)
    ensures ValidChanges(DirtyChanges(s))
  {
    ApplyValid(map[], s.committed.projection.states);
    ApplyValid(map[], s.shared);
    DiffMinimal(MapOf(s.committed.projection.states), MapOf(s.shared));
  }

  /** The part of a commit after the repository answered. */
  method StoreCommit(policy: Policy, s: State, reply: CommitReply) returns (o: CommitOutcome)
    ensures o == if !reply.result.committed then
                   CommitOutcome(s, reply.result, if reply.failed then Some(RepositoryFailure) else None)
                 else
                   var s1 := if reply.exact.Some? then s.(baseOid := reply.result.oid, committed := reply.exact.value)
                             else s;
                   if !ValidOid(reply.result.oid) || reply.exact.None? || !ValidCommitted(reply.exact.value) ||
                      !SameStates(reply.exact.value.projection.states, s.shared) || !RegistryReady(policy, s1) then
                     CommitOutcome(s, reply.result.(recoveryRequired := true), Some(RecoveryRequired))
                   else
                     CommitOutcome(s1, reply.result,
                                   if reply.result.recoveryRequired then Some(RecoveryRequired)
                                   else if reply.failed then Some(RepositoryFailure) else None)
  {
    hide ValidOid, ValidCommitted, RegistryReady, MapOf, Comparable;
    var result := reply.result;
    if !result.committed {
      return CommitOutcome(s, result, if reply.failed then Some(RepositoryFailure) else None);
    }
    var state := s;
    var readable := false;
    if ValidOid(result.oid) && reply.exact.Some? && ValidCommitted(reply.exact.value) {
      readable := EqualLiveStates(reply.exact.value.projection.states, s.shared);
    }
    if readable {
      state := state.(baseOid := result.oid, committed := reply.exact.value);
      readable := RegistryReady(policy, state);
    }
    if !readable {
      return CommitOutcome(s, result.(recoveryRequired := true), Some(RecoveryRequired));
    }
    o := CommitOutcome(state, result,
                       if result.recoveryRequired then Some(RecoveryRequired)
                       else if reply.failed then Some(RepositoryFailure) else None);
  }
}
