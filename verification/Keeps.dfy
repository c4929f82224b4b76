/** Every transaction callback of the service keeps the protocol invariant. */
module Keeps {
  import opened Wrappers
  import opened Live
  import opened Diff
  import opened Projection
  import opened Fingerprint
  import opened State
  import opened Registry
  import opened Steps
  import opened Protocol
  import opened Preservation

  /** The step kept the invariant, recording the generation it shares. */
  ghost predicate Sustains(g: Generations, s: State) { Inv(s, Recording(g, s)) }

  lemma Unchanged(s: State, g: Generations)
    requires Inv(s, g)
    ensures Sustains(g, s)
  {
    SameHeadSameHistory(s, g);
  }

  // ---------------------------------------------------------------- publish

  lemma ObservedSound(capture: seq<LiveState>, changes: seq<LiveChange>)
    requires WellFormed(capture) && ValidChanges(changes)
    ensures WellFormed(ApplyChanges(capture, changes))
    ensures ValidChanges(DiffMaps(MapOf(capture), MapOf(ApplyChanges(capture, changes))))
  {
    var observed := ApplyChanges(capture, changes);
    ApplyChangesMap(capture, changes);
    ApplyValid(map[], capture);
    ApplyValid(map[], observed);
    DiffMinimal(MapOf(capture), MapOf(observed));
  }

  lemma FilteredChangesSound(policy: Policy, s: State, shell: Shell, delta: seq<LiveChange>)
    requires ValidChanges(delta) && CanonicalAdmitted(s.admitted)
    requires FilterChanges(policy, s, shell, delta).Some?
    ensures var filtered := FilterChanges(policy, s, shell, delta).value;
            ValidChanges(filtered.kept) && CanonicalAdmitted(filtered.admitted)
  {
    var kept := KeptChanges(policy, RegistryOf(s), shell.presentAtAttach, delta);
    KeptChangesUnique(policy, RegistryOf(s), shell.presentAtAttach, delta);
    KeptChangesMembers(policy, RegistryOf(s), shell.presentAtAttach, delta);
    forall id | id in ChangeIds(kept)
      ensures ValidIdentity(id)
    {
      var i :| 0 <= i < |kept| && ChangeIds(kept)[i] == id;
      assert kept[i] in delta;
    }
    AdmitAllCanonical(RegistryOf(s), s.admitted, ChangeIds(kept));
  }

  lemma PublishIs(policy: Policy, s: State, request: PublishRequest)
    requires PublishStep(policy, s, request).Ok?
    ensures var id := request.credential.shellId;
            && ValidToken(request.operationId) && ValidToken(id) && s.materialized && id in s.shells
            && ValidChanges(request.delta)
            && if ReceiptFor(s.receipts, id, request.operationId).Some? then
                 PublishStep(policy, s, request).value.state == s
               else
                 var shell := s.shells[id];
                 && FilterChanges(policy, s, shell, request.delta).Some?
                 && shell.pending == NoPending && shell.conflict.None? && shell.unpublishedDelta == []
                 && request.acknowledgedRevision == shell.appliedRevision != 0
                 && var filtered := FilterChanges(policy, s, shell, request.delta).value;
                    var observed := ApplyChanges(shell.captureBaseline, filtered.kept);
                    PublishStep(policy, s, request) ==
                    Merge(s.(admitted := filtered.admitted), request, shell, observed,
                          DiffMaps(MapOf(shell.captureBaseline), MapOf(observed)))
  {
  }

  lemma PublishKeeps(policy: Policy, s: State, g: Generations, request: PublishRequest)
    requires Inv(s, g) && PublishStep(policy, s, request).Ok?
    ensures Sustains(g, PublishStep(policy, s, request).value.state)
  {
    Unchanged(s, g);
    PublishIs(policy, s, request);
    var id := request.credential.shellId;
    var shell := s.shells[id];
    if ReceiptFor(s.receipts, id, request.operationId).None? {
      InvShell(s, g, id);
      assert CanonicalAdmitted(s.admitted);
      hide *;
      FilteredChangesSound(policy, s, shell, request.delta);
      var filtered := FilterChanges(policy, s, shell, request.delta).value;
      ObservedSound(shell.captureBaseline, filtered.kept);
      AdmittedKeeps(s, g, filtered.admitted);
      var observed := ApplyChanges(shell.captureBaseline, filtered.kept);
      MergeKeeps(s.(admitted := filtered.admitted), g, request, observed,
                 DiffMaps(MapOf(shell.captureBaseline), MapOf(observed)));
    }
  }

  // ---------------------------------------------------------------- prepare

  lemma PulledShellSound(id: string, shell: Shell, s: State, g: Generations, token: Token)
    requires Inv(s, g) && s.materialized && UsableToken(token)
    requires ValidShell(id, shell, s.headRevision) && ShellCausal(shell, s.headRevision, g)
    requires shell.pending == NoPending && shell.conflict.None?
    ensures var pulled := Pulled(shell, s, token, DiffMaps(MapOf(shell.captureBaseline), MapOf(s.shared)));
            ValidShell(id, pulled, s.headRevision) && ShellCausal(pulled, s.headRevision, g)
  {
    ApplyValid(map[], shell.captureBaseline);
    ApplyValid(map[], s.shared);
    DiffMinimal(MapOf(shell.captureBaseline), MapOf(s.shared));
    DiffApplies(MapOf(shell.captureBaseline), MapOf(s.shared));
    FingerprintIdentifies(s.shared);
  }

  lemma ReportedSound(id: string, shell: Shell, head: nat, g: Generations, applied: nat)
    requires Covers(g, head) && ValidShell(id, shell, head) && ShellCausal(shell, head, g)
    ensures ValidShell(id, Reported(shell, applied), head) && ShellCausal(Reported(shell, applied), head, g)
  {
  }

  function Pulled(shell: Shell, s: State, token: Token, changes: seq<LiveChange>): Shell {
    shell.(pending := Pull(s.headRevision, FingerprintOf(s.shared), token, changes),
           transition := Preparing, behind := true, lastActiveRevision := s.headRevision)
  }

  lemma IdleShellSound(id: string, shell: Shell, head: nat, g: Generations)
    requires Covers(g, head) && ValidShell(id, shell, head) && ShellCausal(shell, head, g)
    ensures ValidShell(id, shell.(lastActiveRevision := head), head)
    ensures ShellCausal(shell.(lastActiveRevision := head), head, g)
  {
  }

  lemma PrepareIs(s: State, request: PrepareRequest)
    requires PrepareStep(s, request).Ok?
    ensures var id := request.credential.shellId;
            && ValidToken(request.operationId) && s.materialized && id in s.shells
            && if ReceiptFor(s.receipts, id, request.operationId).Some? then
                 PrepareStep(s, request).value.state == s
               else
                 var prior := s.shells[id];
                 var digest := PrepareDigest(request.appliedRevision);
                 var shell := Reported(prior, request.appliedRevision);
                 var changes := DiffMaps(MapOf(prior.captureBaseline), MapOf(s.shared));
                 var token := PullToken(request.operationId, digest, s.headRevision);
                 && prior.pending == NoPending && prior.conflict.None?
                 && (PrepareStep(s, request).value ==
                     Recorded(s, request.credential, request.operationId, digest,
                              shell.(lastActiveRevision := s.headRevision), Prepared(0, NoToken, []))
                     || PrepareStep(s, request).value ==
                        Recorded(s, request.credential, request.operationId, digest,
                                 Pulled(shell, s, token, changes), Prepared(s.headRevision, token, changes)))
  {
  }

  lemma PrepareKeeps(s: State, g: Generations, request: PrepareRequest)
    requires Inv(s, g) && PrepareStep(s, request).Ok?
    ensures Sustains(g, PrepareStep(s, request).value.state)
  {
    Unchanged(s, g);
    PrepareIs(s, request);
    var id := request.credential.shellId;
    if ReceiptFor(s.receipts, id, request.operationId).None? {
      InvShell(s, g, id);
      hide PrepareStep, Recorded, DiffMaps, MapOf, ValidShell, ShellCausal, ReceiptFor, Inv, ApplyEdits;
      var digest := PrepareDigest(request.appliedRevision);
      var token := PullToken(request.operationId, digest, s.headRevision);
      var shell := Reported(s.shells[id], request.appliedRevision);
      var changes := DiffMaps(MapOf(shell.captureBaseline), MapOf(s.shared));
      ReportedSound(id, s.shells[id], s.headRevision, g, request.appliedRevision);
      IdleShellSound(id, shell, s.headRevision, g);
      PulledShellSound(id, shell, s, g, token);
      RecordedKeeps(s, g, request.credential, request.operationId, digest, Pulled(shell, s, token, changes),
                    Prepared(s.headRevision, token, changes));
      RecordedKeeps(s, g, request.credential, request.operationId, digest,
                    shell.(lastActiveRevision := s.headRevision), Prepared(0, NoToken, []));
      RecordedHistory(s, g, request.credential, request.operationId, digest, Pulled(shell, s, token, changes),
                      Prepared(s.headRevision, token, changes));
      RecordedHistory(s, g, request.credential, request.operationId, digest,
                      shell.(lastActiveRevision := s.headRevision), Prepared(0, NoToken, []));
    }
  }

  lemma RecordedHistory(s: State, g: Generations, credential: Credential, operationId: string,
                        digest: RequestDigest, shell: Shell, reply: Reply)
    requires Inv(s, g) && s.materialized
    ensures Recording(g, Recorded(s, credential, operationId, digest, shell, reply).state) == g
  {
    SameHeadSameHistory(s, g);
  }

  // ---------------------------------------------------------------- observed snapshots

  lemma FilteredSnapshotSound(policy: Policy, s: State, shell: Shell, states: seq<LiveState>)
    requires AllValid(states) && CanonicalAdmitted(s.admitted)
    requires FilterSnapshot(policy, s, shell, states).Some?
    ensures var filtered := FilterSnapshot(policy, s, shell, states).value;
            WellFormed(filtered.kept) && CanonicalAdmitted(filtered.admitted)
  {
    var normal := Normal(states);
    NormalMap(states);
    var kept := KeptStates(policy, RegistryOf(s), shell.presentAtAttach, normal);
    KeptStatesDistinct(policy, RegistryOf(s), shell.presentAtAttach, normal);
    KeptStatesMembers(policy, RegistryOf(s), shell.presentAtAttach, normal);
    forall id | id in StateIds(kept)
      ensures ValidIdentity(id)
    {
      var i :| 0 <= i < |kept| && StateIds(kept)[i] == id;
      assert kept[i] in normal;
    }
    AdmitAllCanonical(RegistryOf(s), s.admitted, StateIds(kept));
  }

  // ---------------------------------------------------------------- resolve

  function ResolvingShell(shell: Shell, s: State, token: Token, conflict: Identity, changes: seq<LiveChange>): Shell {
    shell.(pending := Resolution(s.headRevision, FingerprintOf(s.shared), token, changes, conflict),
           transition := Resolving, behind := true, lastActiveRevision := s.headRevision)
  }

  lemma ResolvingShellSound(id: string, shell: Shell, s: State, g: Generations, observed: seq<LiveState>,
                            token: Token, conflict: Identity)
    requires Inv(s, g) && s.materialized && UsableToken(token) && WellFormed(observed)
    requires ValidShell(id, shell, s.headRevision) && ShellCausal(shell, s.headRevision, g)
    requires shell.pending == NoPending && shell.conflict.Some?
    requires shell.conflict.value.identity == conflict && shell.conflict.value.token == token
    requires FingerprintOf(observed) == FingerprintOf(shell.captureBaseline)
    ensures var resolving := ResolvingShell(shell, s, token, conflict, DiffMaps(MapOf(observed), MapOf(s.shared)));
            ValidShell(id, resolving, s.headRevision) && ShellCausal(resolving, s.headRevision, g)
  {
    FingerprintsDecideMaps(observed, shell.captureBaseline);
    ApplyValid(map[], observed);
    ApplyValid(map[], s.shared);
    DiffMinimal(MapOf(observed), MapOf(s.shared));
    DiffApplies(MapOf(observed), MapOf(s.shared));
    FingerprintIdentifies(s.shared);
  }

  lemma ResolveIs(policy: Policy, s: State, request: ResolveRequest)
    requires ResolveStep(policy, s, request).Ok?
    ensures ValidToken(request.operationId) && UsableToken(request.token) && AllValid(request.snapshot.states)
    ensures s.materialized && request.credential.shellId in s.shells
    ensures FilterSnapshot(policy, s, s.shells[request.credential.shellId], request.snapshot.states).Some?
    ensures var id := request.credential.shellId;
            var shell := s.shells[id];
            var filtered := FilterSnapshot(policy, s, shell, request.snapshot.states).value;
            var s0 := s.(admitted := filtered.admitted);
            if ReceiptFor(s.receipts, id, request.operationId).Some? then
                 ResolveStep(policy, s, request).value.state == s0
               else
                 && Resolvable(shell, request)
                 && FingerprintOf(filtered.kept) == FingerprintOf(shell.captureBaseline)
                 && var changes := DiffMaps(MapOf(filtered.kept), MapOf(s.shared));
                    ResolveStep(policy, s, request).value ==
                    Recorded(s0, request.credential, request.operationId,
                             ResolveDigest(request.conflict, request.token, filtered.kept),
                             ResolvingShell(shell, s, request.token, request.conflict, changes),
                             Resolved(s.headRevision, request.token, changes))
  {
  }

  lemma ResolveKeeps(policy: Policy, s: State, g: Generations, request: ResolveRequest)
    requires Inv(s, g) && ResolveStep(policy, s, request).Ok?
    ensures Sustains(g, ResolveStep(policy, s, request).value.state)
  {
    ResolveIs(policy, s, request);
    var id := request.credential.shellId;
    var shell := s.shells[id];
    InvShell(s, g, id);
    hide ResolveStep, Recorded, DiffMaps, MapOf, ValidShell, ShellCausal, ReceiptFor, FingerprintOf, ApplyEdits,
         FilterSnapshot;
    FilteredSnapshotSound(policy, s, shell, request.snapshot.states);
    var filtered := FilterSnapshot(policy, s, shell, request.snapshot.states).value;
    var s0 := s.(admitted := filtered.admitted);
    AdmittedKeeps(s, g, filtered.admitted);
    Unchanged(s0, g);
    if ReceiptFor(s.receipts, id, request.operationId).None? {
      hide Inv, WellFormed;
      var changes := DiffMaps(MapOf(filtered.kept), MapOf(s.shared));
      ResolvingShellSound(id, shell, s0, g, filtered.kept, request.token, request.conflict);
      var resolving := ResolvingShell(shell, s, request.token, request.conflict, changes);
      var digest := ResolveDigest(request.conflict, request.token, filtered.kept);
      RecordedKeeps(s0, g, request.credential, request.operationId, digest, resolving,
                    Resolved(s.headRevision, request.token, changes));
      RecordedHistory(s0, g, request.credential, request.operationId, digest, resolving,
                      Resolved(s.headRevision, request.token, changes));
    }
  }

  // ---------------------------------------------------------------- acknowledge

  /** What a shell observed under the pending fingerprint is the pending generation. */
  lemma AcknowledgedShellSound(id: string, shell: Shell, head: nat, g: Generations, observed: seq<LiveState>)
    requires Covers(g, head) && WellFormed(observed) && !shell.pending.NoPending?
    requires ValidShell(id, shell, head) && ShellCausal(shell, head, g)
    requires FingerprintOf(observed) == shell.pending.fingerprint
    ensures ValidShell(id, AcknowledgedShell(shell, head, observed), head)
    ensures ShellCausal(AcknowledgedShell(shell, head, observed), head, g)
  {
    FingerprintIdentifies(observed);
  }

  lemma AcknowledgeIs(policy: Policy, s: State, request: AcknowledgeRequest)
    requires AcknowledgeStep(policy, s, request).Ok?
    ensures ValidToken(request.operationId) && AllValid(request.snapshot.states)
    ensures s.materialized && request.credential.shellId in s.shells
    ensures FilterSnapshot(policy, s, s.shells[request.credential.shellId], request.snapshot.states).Some?
    ensures var id := request.credential.shellId;
            var shell := s.shells[id];
            var filtered := FilterSnapshot(policy, s, shell, request.snapshot.states).value;
            var s0 := s.(admitted := filtered.admitted);
            if ReceiptFor(s.receipts, id, request.operationId).Some? then
                 AcknowledgeStep(policy, s, request).value.state == s0
               else
                 && !shell.pending.NoPending? && Pends(shell.pending, request.revision, request.token)
                 && FingerprintOf(filtered.kept) == shell.pending.fingerprint
                 && AcknowledgeStep(policy, s, request).value ==
                    Recorded(s0, request.credential, request.operationId,
                             AcknowledgeDigest(request.revision, request.token, filtered.kept),
                             AcknowledgedShell(shell, s.headRevision, filtered.kept),
                             Reply.Acknowledged(shell.pending.revision))
  {
  }

  lemma AcknowledgeKeeps(policy: Policy, s: State, g: Generations, request: AcknowledgeRequest)
    requires Inv(s, g) && AcknowledgeStep(policy, s, request).Ok?
    ensures Sustains(g, AcknowledgeStep(policy, s, request).value.state)
  {
    AcknowledgeIs(policy, s, request);
    var id := request.credential.shellId;
    var shell := s.shells[id];
    InvShell(s, g, id);
    hide AcknowledgeStep, Recorded, MapOf, ValidShell, ShellCausal, ReceiptFor, FingerprintOf, ApplyEdits,
         FilterSnapshot;
    FilteredSnapshotSound(policy, s, shell, request.snapshot.states);
    var filtered := FilterSnapshot(policy, s, shell, request.snapshot.states).value;
    var s0 := s.(admitted := filtered.admitted);
    AdmittedKeeps(s, g, filtered.admitted);
    Unchanged(s0, g);
    if ReceiptFor(s.receipts, id, request.operationId).None? {
      hide Inv, WellFormed;
      AcknowledgedShellSound(id, shell, s.headRevision, g, filtered.kept);
      var acknowledged := AcknowledgedShell(shell, s.headRevision, filtered.kept);
      var digest := AcknowledgeDigest(request.revision, request.token, filtered.kept);
      RecordedKeeps(s0, g, request.credential, request.operationId, digest, acknowledged,
                    Reply.Acknowledged(shell.pending.revision));
      RecordedHistory(s0, g, request.credential, request.operationId, digest, acknowledged,
                      Reply.Acknowledged(shell.pending.revision));
    }
  }

  // ---------------------------------------------------------------- attach

  lemma {:induction false} AttachBaselineSound(policy: Policy, registry: Registry, states: seq<LiveState>)
    requires AllValid(states) && Distinct(states)
    ensures WellFormed(AttachBaseline(policy, registry, states))
    ensures forall x | x in AttachBaseline(policy, registry, states) :: x in states
  {
    if states != [] {
      var n := |states| - 1;
      assert states == states[..n] + [states[n]];
      DistinctPrefix(states);
      AttachBaselineSound(policy, registry, states[..n]);
      var head := AttachBaseline(policy, registry, states[..n]);
      forall i | 0 <= i < |head|
        ensures IdentityOf(head[i]) != states[n].identity
      {
        assert head[i] in states[..n];
        var k :| 0 <= k < n && states[..n][k] == head[i];
        assert IdentityOf(states[k]) != IdentityOf(states[n]);
      }
      DistinctSnoc(head, states[n]);
    }
  }

  lemma {:induction false} AttachExclusionsSound(policy: Policy, registry: Registry, states: seq<LiveState>)
    requires AllValid(states)
    ensures forall e | e in AttachExclusions(policy, registry, states) :: ValidIdentity(e.identity)
  {
    if states != [] {
      var n := |states| - 1;
      assert states == states[..n] + [states[n]];
      AttachExclusionsSound(policy, registry, states[..n]);
      assert ValidLiveState(states[n]);
    }
  }

  lemma PresentIdentityList(states: seq<LiveState>)
    requires AllValid(states) && Distinct(states)
    ensures ValidIdentityList(StateIds(PresentOnly(states)))
  {
    var present := PresentOnly(states);
    PresentMembers(states);
    PresentDistinct(states);
    forall i, j | 0 <= i < j < |present|
      ensures present[i].identity != present[j].identity
    {
      assert IdentityOf(present[i]) != IdentityOf(present[j]);
    }
    forall id | id in StateIds(present)
      ensures ValidIdentity(id)
    {
      var i :| 0 <= i < |present| && StateIds(present)[i] == id;
      assert present[i] in states;
    }
  }

  /** A shell that has just attached accounts for the head generation or for none. */
  lemma FreshShellSound(id: string, shell: Shell, head: nat, shared: seq<LiveState>, g: Generations)
    requires Covers(g, head) && 0 < head && WellFormed(shared) && g[head] == MapOf(shared)
    requires ValidToken(id) && shell.verifier.VerifierOf? && shell.attachedRevision == head
    requires shell.lastActiveRevision == head && WellFormed(shell.captureBaseline)
    requires shell.pending == NoPending && shell.conflict.None? && shell.unpublishedDelta == []
    requires shell.transition == Attaching && ValidIdentityList(shell.presentAtAttach)
    requires forall e | e in shell.exclusions :: ValidIdentity(e.identity)
    requires if shell.attachState == AtHead then shell.appliedRevision == head && shell.appliedBaseline == shared
             else shell.appliedRevision == 0 && shell.appliedBaseline == []
    ensures ValidShell(id, shell, head) && ShellCausal(shell, head, g)
  {
    assert WellFormed([]);
  }

  lemma NewShellSound(policy: Policy, s: State, g: Generations, request: AttachRequest)
    requires Inv(s, g) && s.materialized
    requires ValidToken(request.credential.shellId) && AllValid(request.initial.states)
    ensures ValidShell(request.credential.shellId, NewShell(policy, s, request), s.headRevision)
    ensures Covers(g, s.headRevision) && ShellCausal(NewShell(policy, s, request), s.headRevision, g)
  {
    InvCovers(s, g);
    assert 0 < s.headRevision && WellFormed(s.shared);
    hide Inv, AllValid, MapOf, Distinct, WellFormed, ValidToken, ValidIdentityList, ValidShell, ShellCausal, Covers,
         SameStates;
    var states := Normal(request.initial.states);
    NormalMap(request.initial.states);
    AttachBaselineSound(policy, RegistryOf(s), states);
    AttachExclusionsSound(policy, RegistryOf(s), states);
    PresentIdentityList(states);
    hide AttachBaseline, AttachExclusions, Normal;
    FreshShellSound(request.credential.shellId, NewShell(policy, s, request), s.headRevision, s.shared, g);
  }

  lemma AttachIs(policy: Policy, s: State, request: AttachRequest)
    requires AttachStep(policy, s, request).Ok?
    ensures var id := request.credential.shellId;
            && ValidToken(request.operationId) && ValidToken(id) && s.materialized
            && AllValid(request.initial.states)
            && if id in s.shells then AttachStep(policy, s, request).value.state == s
               else
                 var shell := NewShell(policy, s, request);
                 && |s.shells| < MAX_SHELL_RECORDS
                 && AttachStep(policy, s, request).value ==
                    Recorded(s, request.credential, request.operationId,
                             AttachDigest(request.initial.byteSize, request.initial.states), shell,
                             Attached(s.headRevision, shell.attachState == CleanReconcile, shell.exclusions))
  {
  }

  lemma NoReceiptBeforeAttach(s: State, id: string, operationId: string)
    requires ValidReceipts(s.receipts, s.shells) && id !in s.shells
    ensures ReceiptFor(s.receipts, id, operationId).None?
  {
    ReceiptForNone(s.receipts, id, operationId);
  }

  lemma AttachKeeps(policy: Policy, s: State, g: Generations, request: AttachRequest)
    requires Inv(s, g) && AttachStep(policy, s, request).Ok?
    ensures Sustains(g, AttachStep(policy, s, request).value.state)
  {
    Unchanged(s, g);
    AttachIs(policy, s, request);
    if request.credential.shellId !in s.shells {
      hide AttachStep, Recorded, NewShell, ValidShell, ShellCausal, ReceiptFor, MapOf;
      NewShellSound(policy, s, g, request);
      NoReceiptBeforeAttach(s, request.credential.shellId, request.operationId);
      var shell := NewShell(policy, s, request);
      var digest := AttachDigest(request.initial.byteSize, request.initial.states);
      var reply := Attached(s.headRevision, shell.attachState == CleanReconcile, shell.exclusions);
      RecordedKeeps(s, g, request.credential, request.operationId, digest, shell, reply);
      RecordedHistory(s, g, request.credential, request.operationId, digest, shell, reply);
    }
  }
}
