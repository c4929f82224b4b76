/**
 * What pulls, resolutions and their acknowledgements promise: when there is nothing to pull, what
 * is handed out otherwise, and that acknowledging it brings the shell to exactly that generation.
 */
module Pulls {
  import opened Wrappers
  import opened LastOccurrence
  import opened Live
  import opened Diff
  import opened Fingerprint
  import opened State
  import opened Registry
  import opened Steps
  import opened Protocol
  import opened Preservation
  import opened Keeps
  import opened Runs
  import opened Transitions
  import opened Attaches
  import opened Publishes

  // ---------------------------------------------------------------- pulls

  /** The shell has everything: it reports, and is recorded at, the head, and captures the shared generation. */
  ghost predicate UpToDate(s: State, shell: Shell, applied: nat) {
    MapOf(shell.captureBaseline) == MapOf(s.shared) && applied == s.headRevision == shell.appliedRevision
  }

  /** What a fresh pull leaves in its shell and answers. */
  ghost predicate Answers(s: State, before: Shell, applied: nat, after: Shell, reply: Reply) {
    && after.captureBaseline == before.captureBaseline && after.conflict.None?
    && after.appliedRevision == (if applied == before.appliedRevision then applied else 0)
    && MapOf(after.appliedBaseline) ==
       (if applied == before.appliedRevision then MapOf(before.appliedBaseline) else map[])
    && (if UpToDate(s, before, applied) then
          after.pending.NoPending? && reply == Prepared(0, NoToken, []) && after.behind == before.behind
        else
          && after.pending.Pull? && after.behind && UsableToken(after.pending.token)
          && reply == Prepared(s.headRevision, after.pending.token, after.pending.changes)
          && after.pending.revision == s.headRevision && Identifies(after.pending.fingerprint, MapOf(s.shared))
          && ApplyEdits(MapOf(before.captureBaseline), EditsOf(reply.changes)) == MapOf(s.shared))
  }

  lemma PrepareCases(s: State, r: PrepareRequest)
    requires PrepareStep(s, r).Ok?
    requires ReceiptFor(s.receipts, r.credential.shellId, r.operationId).None?
    ensures r.credential.shellId in s.shells
    ensures var prior := s.shells[r.credential.shellId];
            var shell := Reported(prior, r.appliedRevision);
            var changes := DiffMaps(MapOf(prior.captureBaseline), MapOf(s.shared));
            var token := PullToken(r.operationId, PrepareDigest(r.appliedRevision), s.headRevision);
            && prior.pending == NoPending && prior.conflict.None?
            && PrepareStep(s, r).value ==
               if changes == [] && r.appliedRevision == s.headRevision && shell.appliedRevision == s.headRevision then
                 Recorded(s, r.credential, r.operationId, PrepareDigest(r.appliedRevision),
                          shell.(lastActiveRevision := s.headRevision), Prepared(0, NoToken, []))
               else
                 Recorded(s, r.credential, r.operationId, PrepareDigest(r.appliedRevision),
                          Pulled(shell, s, token, changes),
                          Prepared(s.headRevision, token, changes))
  {
    hide CheckPrivate, Authorized, ReceiptFor, InBounds, DiffMaps, MapOf, FingerprintOf, Recorded;
    assert Authorized(s, r.credential);
    AuthorizedShell(s, r.credential);
  }

  lemma AuthorizedShell(s: State, credential: Credential)
    requires Authorized(s, credential)
    ensures s.materialized && credential.shellId in s.shells
  {
  }

  lemma PulledAnswers(s: State, before: Shell, applied: nat, token: Token)
    requires WellFormed(s.shared) && WellFormed(before.captureBaseline) && UsableToken(token)
    requires before.conflict.None? && s.headRevision > 0 && !UpToDate(s, before, applied)
    ensures var changes := DiffMaps(MapOf(before.captureBaseline), MapOf(s.shared));
            Answers(s, before, applied, Pulled(Reported(before, applied), s, token, changes),
                    Prepared(s.headRevision, token, changes))
  {
    LeadsTo(before.captureBaseline, s.shared);
    FingerprintIdentifies(s.shared);
    assert MapOf([]) == map[];
    hide DiffMaps, MapOf, FingerprintOf, Identifies, ApplyEdits, UpToDate, WellFormed, UsableToken;
  }

  lemma LeadsTo(before: seq<LiveState>, after: seq<LiveState>)
    requires WellFormed(before) && WellFormed(after)
    ensures ApplyEdits(MapOf(before), EditsOf(DiffMaps(MapOf(before), MapOf(after)))) == MapOf(after)
  {
    ApplyValid(map[], before);
    ApplyValid(map[], after);
    hide DiffMaps, MapOf, ApplyEdits;
    DiffApplies(MapOf(before), MapOf(after));
  }

  lemma CurrentAnswers(s: State, before: Shell, applied: nat)
    requires before.conflict.None? && before.pending == NoPending && UpToDate(s, before, applied)
    ensures Answers(s, before, applied, Reported(before, applied).(lastActiveRevision := s.headRevision),
                    Prepared(0, NoToken, []))
  {
    hide MapOf;
  }

  /** A recorded answer, with nothing else changed. */
  ghost predicate Answered(s: State, id: string, applied: nat, step: Step) {
    && id in s.shells && id in step.state.shells
    && step.state == s.(shells := step.state.shells, receipts := step.state.receipts)
    && Answers(s, s.shells[id], applied, step.state.shells[id], step.reply)
  }

  lemma RecordedAnswers(s: State, credential: Credential, operationId: string, digest: RequestDigest, applied: nat,
                        shell: Shell, reply: Reply)
    requires credential.shellId in s.shells && Answers(s, s.shells[credential.shellId], applied, shell, reply)
    ensures Answered(s, credential.shellId, applied, Recorded(s, credential, operationId, digest, shell, reply))
  {
    hide Answers, WithReceipt;
  }

  /**
   * A fresh pull is answered "nothing to do" exactly if the shell has everything; otherwise it
   * hands out the head, with changes that lead from what the shell captures to what is shared.
   */
  lemma PullAnswers(s: State, g: Generations, r: PrepareRequest)
    requires Inv(s, g) && PrepareStep(s, r).Ok?
    requires ReceiptFor(s.receipts, r.credential.shellId, r.operationId).None?
    ensures Answered(s, r.credential.shellId, r.appliedRevision, PrepareStep(s, r).value)
  {
    PrepareCases(s, r);
    var prior := s.shells[r.credential.shellId];
    PullState(s, g, r.credential.shellId);
    var changes := DiffMaps(MapOf(prior.captureBaseline), MapOf(s.shared));
    var digest := PrepareDigest(r.appliedRevision);
    var token := PullToken(r.operationId, digest, s.headRevision);
    var shell := Reported(prior, r.appliedRevision);
    NothingToPull(s, prior, r.appliedRevision);
    hide *;
    if UpToDate(s, prior, r.appliedRevision) {
      CurrentAnswers(s, prior, r.appliedRevision);
      RecordedAnswers(s, r.credential, r.operationId, digest, r.appliedRevision,
                      shell.(lastActiveRevision := s.headRevision), Prepared(0, NoToken, []));
    } else {
      PullTokenUsable(r.operationId, digest, s.headRevision);
      PulledAnswers(s, prior, r.appliedRevision, token);
      RecordedAnswers(s, r.credential, r.operationId, digest, r.appliedRevision, Pulled(shell, s, token, changes),
                      Prepared(s.headRevision, token, changes));
    }
  }

  lemma PullTokenUsable(operationId: string, digest: RequestDigest, revision: nat)
    ensures UsableToken(PullToken(operationId, digest, revision))
  {
  }

  lemma PullState(s: State, g: Generations, id: string)
    requires Inv(s, g) && id in s.shells
    ensures s.headRevision > 0 && WellFormed(s.shared) && WellFormed(s.shells[id].captureBaseline)
  {
    MaterializedShells(s, g, id);
  }

  /** The condition in the code is the one on maps. */
  lemma NothingToPull(s: State, prior: Shell, applied: nat)
    requires WellFormed(s.shared) && WellFormed(prior.captureBaseline) && s.headRevision > 0
    ensures (&& DiffMaps(MapOf(prior.captureBaseline), MapOf(s.shared)) == [] && applied == s.headRevision
             && Reported(prior, applied).appliedRevision == s.headRevision) <==>
            UpToDate(s, prior, applied)
  {
    ApplyValid(map[], prior.captureBaseline);
    ApplyValid(map[], s.shared);
    hide DiffMaps, MapOf;
    DiffEmpty(MapOf(prior.captureBaseline), MapOf(s.shared));
  }

  /** A fresh pull is refused only on one of these grounds. */
  lemma PullSucceeds(s: State, g: Generations, r: PrepareRequest)
    requires Inv(s, g) && Authorized(s, r.credential)
    requires ReceiptFor(s.receipts, r.credential.shellId, r.operationId).None?
    ensures var shell := s.shells[r.credential.shellId];
            PrepareStep(s, r).Ok? <==>
              && CheckPrivate(r.operationId, r.credential).None? && shell.conflict.None? && shell.pending == NoPending
              && InBounds(shell.captureBaseline) && InBounds(s.shared)
  {
    ShellDelta(s, g, r.credential.shellId);
    hide Inv, CheckPrivate, InBounds, DiffMaps, MapOf, FingerprintOf, Recorded, Reported, ReceiptFor;
  }

  // ---------------------------------------------------------------- observations

  /** What remains of an observation: the present values that the shell may publish. */
  ghost predicate Observes(policy: Policy, s: State, shell: Shell, snapshot: LiveMap, kept: LiveMap) {
    forall id :: Lookup(kept, id) == if MayPublish(policy, s, shell, id) then Lookup(snapshot, id) else Removed
  }

  lemma FilteredObserves(policy: Policy, s: State, shell: Shell, states: seq<LiveState>)
    requires AllValid(states) && CanonicalAdmitted(s.admitted) && FilterSnapshot(policy, s, shell, states).Some?
    ensures Observes(policy, s, shell, MapOf(states), MapOf(FilterSnapshot(policy, s, shell, states).value.kept))
  {
    var normal, kept := Normal(states), FilterSnapshot(policy, s, shell, states).value.kept;
    FilteredSnapshotSound(policy, s, shell, states);
    NormalMap(states);
    KeptStatesMembers(policy, RegistryOf(s), shell.presentAtAttach, normal);
    assert Distinct(kept);
    hide FilterSnapshot, RegistryOf, MapOf, Normal, Distinct, Admits, KeptStates, MayPublish, Lookup;
    forall id
      ensures Lookup(MapOf(kept), id) == if MayPublish(policy, s, shell, id) then Lookup(MapOf(states), id) else Removed
    {
      MayMeans(policy, s, shell, id);
      SelectionLookup(normal, kept, id, MayPublish(policy, s, shell, id));
    }
  }

  lemma MayMeans(policy: Policy, s: State, shell: Shell, id: Identity)
    ensures Admits(policy, RegistryOf(s), shell.presentAtAttach, id) <==> MayPublish(policy, s, shell, id)
  {
    RegistryMeans(policy, s, id);
  }

  // ---------------------------------------------------------------- acknowledgements

  /** What a fresh acknowledgement leaves in its shell and answers. */
  ghost predicate Settled(s: State, g: Generations, before: Shell, r: AcknowledgeRequest, after: Shell, reply: Reply) {
    && before.pending != NoPending && before.pending.revision == r.revision && before.pending.token == r.token
    && r.revision in g && after.appliedRevision == r.revision
    && MapOf(after.appliedBaseline) == g[r.revision] == MapOf(after.captureBaseline)
    && after.attachState == AtHead && after.pending == NoPending && after.conflict.None? && after.unpublishedDelta == []
    && after.behind == (r.revision < s.headRevision) && reply == Reply.Acknowledged(r.revision)
  }

  lemma AcknowledgedSettled(s: State, g: Generations, before: Shell, r: AcknowledgeRequest, kept: seq<LiveState>)
    requires Covers(g, s.headRevision) && ShellCausal(before, s.headRevision, g) && WellFormed(kept)
    requires before.conflict.Some? <==> before.unpublishedDelta != []
    requires before.pending != NoPending && Pends(before.pending, r.revision, r.token)
    requires FingerprintOf(kept) == before.pending.fingerprint
    ensures Settled(s, g, before, r, AcknowledgedShell(before, s.headRevision, kept), Reply.Acknowledged(r.revision))
  {
    FingerprintIdentifies(kept);
    IdentifiesOne(before.pending.fingerprint, MapOf(kept), g[before.pending.revision]);
    hide FingerprintOf, Identifies, MapOf, ApplyEdits, WellFormed, Covers;
  }

  lemma IdentifiesOne(f: Fingerprint, a: LiveMap, b: LiveMap)
    requires Identifies(f, a) && Identifies(f, b)
    ensures a == b
  {
  }

  /** An acknowledgement brings its shell to exactly the generation that was pending. */
  lemma AcknowledgeAnswers(policy: Policy, s: State, g: Generations, r: AcknowledgeRequest)
    requires Inv(s, g) && AcknowledgeStep(policy, s, r).Ok?
    requires ReceiptFor(s.receipts, r.credential.shellId, r.operationId).None?
    ensures var step, id := AcknowledgeStep(policy, s, r).value, r.credential.shellId;
            && id in s.shells && id in step.state.shells
            && Settled(s, g, s.shells[id], r, step.state.shells[id], step.reply)
            && Observes(policy, s, s.shells[id], MapOf(r.snapshot.states), MapOf(step.state.shells[id].captureBaseline))
  {
    AcknowledgeIs(policy, s, r);
    var id := r.credential.shellId;
    var shell := s.shells[id];
    InvAdmitted(s, g);
    ShellDelta(s, g, id);
    MaterializedShells(s, g, id);
    FilteredSnapshotSound(policy, s, shell, r.snapshot.states);
    FilteredObserves(policy, s, shell, r.snapshot.states);
    var kept := FilterSnapshot(policy, s, shell, r.snapshot.states).value.kept;
    var s0 := s.(admitted := FilterSnapshot(policy, s, shell, r.snapshot.states).value.admitted);
    PendsAt(shell.pending, r.revision, r.token);
    AcknowledgedIs(shell, s.headRevision, kept);
    hide Inv, AcknowledgeStep, Recorded, AcknowledgedShell, FilterSnapshot, ReceiptFor, Settled, Observes, MapOf,
         WellFormed, ShellCausal, Covers, ValidShell, Pends, FingerprintOf;
    RecordedReply(s0, r.credential, r.operationId, AcknowledgeDigest(r.revision, r.token, kept),
                  AcknowledgedShell(shell, s.headRevision, kept), Reply.Acknowledged(shell.pending.revision));
    AcknowledgedSettled(s, g, shell, r, kept);
  }

  lemma PendsAt(pending: Pending, revision: nat, token: Token)
    ensures Pends(pending, revision, token) <==>
              pending != NoPending && pending.revision == revision && pending.token == token
  {
  }

  lemma AcknowledgedIs(shell: Shell, head: nat, kept: seq<LiveState>)
    requires !shell.pending.NoPending?
    ensures AcknowledgedShell(shell, head, kept).captureBaseline == kept
  {
  }

  /** Everything that a fresh acknowledgement of a shell needs. */
  ghost predicate Acknowledgeable(policy: Policy, s: State, g: Generations, r: AcknowledgeRequest, shell: Shell) {
    && CheckPrivate(r.operationId, r.credential).None? && r.revision != 0 && UsableToken(r.token)
    && ValidSnapshot(r.snapshot) && RegistryReady(policy, s)
    && FilterSnapshot(policy, s, shell, r.snapshot.states).Some?
    && shell.pending != NoPending && shell.pending.revision == r.revision && shell.pending.token == r.token
    && var kept := FilterSnapshot(policy, s, shell, r.snapshot.states).value.kept;
       InBounds(kept) && r.revision in g && MapOf(kept) == g[r.revision]
  }

  lemma ObservedIsPending(shell: Shell, head: nat, g: Generations, kept: seq<LiveState>)
    requires Covers(g, head) && ShellCausal(shell, head, g) && WellFormed(kept) && shell.pending != NoPending
    ensures Backed(shell) && shell.pending.revision in g
    ensures FingerprintOf(kept) == shell.pending.fingerprint <==> MapOf(kept) == g[shell.pending.revision]
  {
    FingerprintIdentifies(kept);
    if MapOf(kept) == g[shell.pending.revision] {
      FingerprintDetermined(FingerprintOf(kept), shell.pending.fingerprint, MapOf(kept));
    } else if FingerprintOf(kept) == shell.pending.fingerprint {
      IdentifiesOne(shell.pending.fingerprint, MapOf(kept), g[shell.pending.revision]);
    }
    hide FingerprintOf, Identifies, MapOf, ApplyEdits, WellFormed;
  }

  lemma AcknowledgeOk(policy: Policy, s: State, g: Generations, r: AcknowledgeRequest, shell: Shell)
    requires Authorized(s, r.credential) && s.shells[r.credential.shellId] == shell
    requires ReceiptFor(s.receipts, r.credential.shellId, r.operationId).None?
    requires Covers(g, s.headRevision) && ShellCausal(shell, s.headRevision, g) && CanonicalAdmitted(s.admitted)
    ensures AcknowledgeStep(policy, s, r).Ok? <==> Acknowledgeable(policy, s, g, r, shell)
  {
    PendsAt(shell.pending, r.revision, r.token);
    if ValidSnapshot(r.snapshot) && FilterSnapshot(policy, s, shell, r.snapshot.states).Some? {
      FilteredSnapshotSound(policy, s, shell, r.snapshot.states);
      if shell.pending != NoPending {
        ObservedIsPending(shell, s.headRevision, g, FilterSnapshot(policy, s, shell, r.snapshot.states).value.kept);
      }
    }
    hide CheckPrivate, UsableToken, ValidSnapshot, RegistryReady, FilterSnapshot, InBounds, MapOf, FingerprintOf,
         Pends, Backed, Recorded, AcknowledgedShell, ReceiptFor, ShellCausal, Covers, WellFormed, Authorized,
         CanonicalAdmitted;
    AuthorizedShell(s, r.credential);
  }

  /** A fresh acknowledgement succeeds exactly if what it observes, as far as it counts, is the pending generation. */
  lemma AcknowledgeSucceeds(policy: Policy, s: State, g: Generations, r: AcknowledgeRequest)
    requires Inv(s, g) && Authorized(s, r.credential)
    requires ReceiptFor(s.receipts, r.credential.shellId, r.operationId).None?
    ensures AcknowledgeStep(policy, s, r).Ok? <==>
              Acknowledgeable(policy, s, g, r, s.shells[r.credential.shellId])
  {
    AuthorizedShell(s, r.credential);
    InvAdmitted(s, g);
    MaterializedShells(s, g, r.credential.shellId);
    hide *;
    AcknowledgeOk(policy, s, g, r, s.shells[r.credential.shellId]);
  }

  /** Pulling and acknowledging what was handed out ends at the head, with the shared generation applied. */
  lemma PullReachesHead(policy: Policy, s: State, g: Generations, pull: PrepareRequest, r: AcknowledgeRequest)
    requires Inv(s, g) && PrepareStep(s, pull).Ok?
    requires ReceiptFor(s.receipts, pull.credential.shellId, pull.operationId).None?
    requires PrepareStep(s, pull).value.reply != Prepared(0, NoToken, [])
    requires var step := PrepareStep(s, pull).value;
             && r.credential.shellId == pull.credential.shellId
             && ReceiptFor(step.state.receipts, r.credential.shellId, r.operationId).None?
             && AcknowledgeStep(policy, step.state, r).Ok?
    ensures var s2 := AcknowledgeStep(policy, PrepareStep(s, pull).value.state, r).value.state;
            && r.credential.shellId in s2.shells
            && var shell := s2.shells[r.credential.shellId];
               && r.revision == shell.appliedRevision == s2.headRevision == s.headRevision
               && MapOf(shell.appliedBaseline) == MapOf(s2.shared) == MapOf(s.shared) && !shell.behind
  {
    var s1 := PrepareStep(s, pull).value.state;
    PullAnswers(s, g, pull);
    PrepareKeeps(s, g, pull);
    SustainedInv(g, s1);
    AcknowledgeAnswers(policy, s1, Recording(g, s1), r);
    AcknowledgeIs(policy, s1, r);
    SharedIsHead(s1, Recording(g, s1));
    var s2 := AcknowledgeStep(policy, s1, r).value.state;
    AcknowledgedElsewhere(policy, s1, r);
    hide Inv, PrepareStep, AcknowledgeStep, MapOf, Observes, FilterSnapshot, ApplyEdits, ReceiptFor, Identifies,
         UpToDate;
  }

  lemma SharedIsHead(s: State, g: Generations)
    requires Inv(s, g) && s.materialized
    ensures s.headRevision in g && g[s.headRevision] == MapOf(s.shared)
  {
  }

  lemma SustainedInv(g: Generations, s: State)
    requires Sustains(g, s)
    ensures Inv(s, Recording(g, s))
  {
  }

  lemma AcknowledgedElsewhere(policy: Policy, s: State, r: AcknowledgeRequest)
    requires AcknowledgeStep(policy, s, r).Ok?
    ensures AcknowledgeStep(policy, s, r).value.state.headRevision == s.headRevision
    ensures AcknowledgeStep(policy, s, r).value.state.shared == s.shared
  {
    AcknowledgeIs(policy, s, r);
    hide AcknowledgeStep, FilterSnapshot, WithReceipt, ReceiptFor;
  }

  // ---------------------------------------------------------------- resolutions

  /** What a fresh resolution leaves in its shell and answers: the head is pending beside the conflict. */
  ghost predicate Offers(s: State, before: Shell, r: ResolveRequest, after: Shell, reply: Reply) {
    && before.pending == NoPending && before.conflict.Some? && before.conflict.value.identity == r.conflict
    && before.conflict.value.token == r.token
    && after.pending.Resolution? && after.pending.revision == s.headRevision && after.pending.token == r.token
    && after.pending.conflict == r.conflict && Identifies(after.pending.fingerprint, MapOf(s.shared))
    && after == before.(pending := after.pending, transition := Resolving, behind := true,
                        lastActiveRevision := s.headRevision)
    && reply == Resolved(s.headRevision, r.token, after.pending.changes)
    && ApplyEdits(MapOf(before.captureBaseline), EditsOf(after.pending.changes)) == MapOf(s.shared)
  }

  lemma RecordedOnly(s: State, credential: Credential, operationId: string, digest: RequestDigest, shell: Shell,
                     reply: Reply)
    ensures var s' := Recorded(s, credential, operationId, digest, shell, reply).state;
            s' == s.(shells := s'.shells, receipts := s'.receipts)
  {
    hide WithReceipt;
  }

  lemma ResolvingOffers(s: State, before: Shell, r: ResolveRequest, kept: seq<LiveState>)
    requires WellFormed(s.shared) && WellFormed(before.captureBaseline) && WellFormed(kept) && Resolvable(before, r)
    requires MapOf(kept) == MapOf(before.captureBaseline)
    ensures var changes := DiffMaps(MapOf(kept), MapOf(s.shared));
            Offers(s, before, r, ResolvingShell(before, s, r.token, r.conflict, changes),
                   Resolved(s.headRevision, r.token, changes))
  {
    LeadsTo(kept, s.shared);
    FingerprintIdentifies(s.shared);
    hide DiffMaps, MapOf, FingerprintOf, Identifies, ApplyEdits, WellFormed, Keys;
  }

  /** A resolution offers the shared generation for the conflict it names, over what the shell observes. */
  lemma ResolveAnswers(policy: Policy, s: State, g: Generations, r: ResolveRequest)
    requires Inv(s, g) && ResolveStep(policy, s, r).Ok?
    requires ReceiptFor(s.receipts, r.credential.shellId, r.operationId).None?
    ensures var step, id := ResolveStep(policy, s, r).value, r.credential.shellId;
            && id in s.shells && id in step.state.shells
            && step.state.shared == s.shared && step.state.headRevision == s.headRevision
            && Offers(s, s.shells[id], r, step.state.shells[id], step.reply)
            && Observes(policy, s, s.shells[id], MapOf(r.snapshot.states), MapOf(s.shells[id].captureBaseline))
  {
    ResolveIs(policy, s, r);
    var id := r.credential.shellId;
    var shell := s.shells[id];
    InvAdmitted(s, g);
    PullState(s, g, id);
    FilteredSnapshotSound(policy, s, shell, r.snapshot.states);
    FilteredObserves(policy, s, shell, r.snapshot.states);
    var kept := FilterSnapshot(policy, s, shell, r.snapshot.states).value.kept;
    FingerprintsDecideMaps(kept, shell.captureBaseline);
    var s0 := s.(admitted := FilterSnapshot(policy, s, shell, r.snapshot.states).value.admitted);
    var changes := DiffMaps(MapOf(kept), MapOf(s.shared));
    RecordedReply(s0, r.credential, r.operationId, ResolveDigest(r.conflict, r.token, kept),
                  ResolvingShell(shell, s, r.token, r.conflict, changes), Resolved(s.headRevision, r.token, changes));
    RecordedOnly(s0, r.credential, r.operationId, ResolveDigest(r.conflict, r.token, kept),
                 ResolvingShell(shell, s, r.token, r.conflict, changes), Resolved(s.headRevision, r.token, changes));
    hide Inv, ResolveStep, Recorded, ResolvingShell, FilterSnapshot, ReceiptFor, Offers, Observes, MapOf, WellFormed,
         FingerprintOf, DiffMaps, Resolvable;
    ResolvingOffers(s, shell, r, kept);
  }

  /** Everything that a fresh resolution of a shell needs. */
  ghost predicate CanResolve(policy: Policy, s: State, r: ResolveRequest, shell: Shell) {
    && CheckPrivate(r.operationId, r.credential).None? && ValidIdentity(r.conflict) && UsableToken(r.token)
    && ValidSnapshot(r.snapshot) && RegistryReady(policy, s)
    && FilterSnapshot(policy, s, shell, r.snapshot.states).Some?
    && shell.pending == NoPending && shell.conflict.Some? && shell.conflict.value.identity == r.conflict
    && shell.conflict.value.token == r.token
    && var kept := FilterSnapshot(policy, s, shell, r.snapshot.states).value.kept;
       InBounds(kept) && InBounds(shell.captureBaseline) && InBounds(s.shared) &&
       MapOf(kept) == MapOf(shell.captureBaseline)
  }

  lemma ResolveOk(policy: Policy, s: State, r: ResolveRequest, shell: Shell)
    requires Authorized(s, r.credential) && s.shells[r.credential.shellId] == shell
    requires ReceiptFor(s.receipts, r.credential.shellId, r.operationId).None?
    requires CanonicalAdmitted(s.admitted) && WellFormed(shell.captureBaseline)
    requires shell.conflict.Some? ==> shell.conflict.value.identity in Keys(ChangeIdentity, shell.unpublishedDelta)
    ensures ResolveStep(policy, s, r).Ok? <==> CanResolve(policy, s, r, shell)
  {
    ResolvableMeans(shell, r);
    if ValidSnapshot(r.snapshot) && FilterSnapshot(policy, s, shell, r.snapshot.states).Some? {
      FilteredSnapshotSound(policy, s, shell, r.snapshot.states);
      FingerprintsDecideMaps(FilterSnapshot(policy, s, shell, r.snapshot.states).value.kept, shell.captureBaseline);
    }
    hide CheckPrivate, ValidIdentity, UsableToken, ValidSnapshot, RegistryReady, FilterSnapshot, InBounds, MapOf,
         FingerprintOf, Recorded, ReceiptFor, WellFormed, Authorized, CanonicalAdmitted, DiffMaps, Keys, Resolvable;
    AuthorizedShell(s, r.credential);
  }

  lemma ResolvableMeans(shell: Shell, r: ResolveRequest)
    requires shell.conflict.Some? ==> shell.conflict.value.identity in Keys(ChangeIdentity, shell.unpublishedDelta)
    ensures Resolvable(shell, r) <==>
              && shell.pending == NoPending && shell.conflict.Some? && shell.conflict.value.identity == r.conflict
              && shell.conflict.value.token == r.token
  {
    hide Keys;
  }

  /** A fresh resolution succeeds exactly if it names the shell's conflict and observes what the shell captures. */
  lemma ResolveSucceeds(policy: Policy, s: State, g: Generations, r: ResolveRequest)
    requires Inv(s, g) && Authorized(s, r.credential)
    requires ReceiptFor(s.receipts, r.credential.shellId, r.operationId).None?
    ensures ResolveStep(policy, s, r).Ok? <==> CanResolve(policy, s, r, s.shells[r.credential.shellId])
  {
    AuthorizedShell(s, r.credential);
    InvAdmitted(s, g);
    PullState(s, g, r.credential.shellId);
    ConflictInDelta(s, g, r.credential.shellId);
    hide *;
    ResolveOk(policy, s, r, s.shells[r.credential.shellId]);
  }

  lemma ConflictInDelta(s: State, g: Generations, id: string)
    requires Inv(s, g) && id in s.shells
    ensures var shell := s.shells[id];
            shell.conflict.Some? ==> shell.conflict.value.identity in Keys(ChangeIdentity, shell.unpublishedDelta)
  {
    MaterializedShells(s, g, id);
    hide Inv, ValidShell, Covers, Keys;
  }
}
