/**
 * What a publish promises: when it succeeds, what of a delta it takes in, what it reports, and
 * that it never shares what the shell may not.
 */
module Publishes {
  import opened Wrappers
  import opened LastOccurrence
  import opened Live
  import opened Order
  import opened Diff
  import opened State
  import opened Registry
  import opened Steps
  import opened Protocol
  import opened Preservation
  import opened Keeps
  import opened Runs
  import opened Replay
  import opened Consequences
  import opened Attaches

  // ---------------------------------------------------------------- what a shell may publish

  /** The identity is permitted, and owned or absent when the shell attached. */
  predicate MayPublish(policy: Policy, s: State, shell: Shell, id: Identity) {
    Permitted(policy, s, id) && (Owned(s, id) || id !in shell.presentAtAttach)
  }

  lemma {:induction false} AdmitAllExactly(registry: Registry, admitted: seq<Identity>, ids: seq<Identity>,
                                           id: Identity)
    requires AdmitAll(registry, admitted, ids).Some?
    ensures id in AdmitAll(registry, admitted, ids).value <==> id in admitted || (id in ids && id !in registry.owned)
  {
    if ids != [] {
      var n := |ids| - 1;
      AdmitAllExactly(registry, admitted, ids[..n], id);
      var before := AdmitAll(registry, admitted, ids[..n]).value;
      assert ids == ids[..n] + [ids[n]];
      AdmitOneExactly(registry, before, ids[n], id);
      hide AdmitOne;
    }
  }

  lemma AdmitOneExactly(registry: Registry, admitted: seq<Identity>, last: Identity, id: Identity)
    requires AdmitOne(registry, admitted, last).Some?
    ensures id in AdmitOne(registry, admitted, last).value <==> id in admitted || (id == last && id !in registry.owned)
  {
    if last !in registry.owned && last !in admitted {
      SameElements(Sort(AdmittedLess, admitted + [last]), admitted + [last]);
    }
  }

  /** One admitted part of a delta, per identity. */
  lemma FilteredDelta(policy: Policy, s: State, shell: Shell, delta: seq<LiveChange>, id: Identity)
    requires ValidChanges(delta) && CanonicalAdmitted(s.admitted) && FilterChanges(policy, s, shell, delta).Some?
    ensures var filtered := FilterChanges(policy, s, shell, delta).value;
            && (forall c | c in delta && c.identity == id ::
                  Find(EditsOf(filtered.kept), id) == if MayPublish(policy, s, shell, id) then Some(c.value) else None)
            && ((forall c | c in delta :: c.identity != id) ==> Find(EditsOf(filtered.kept), id) == None)
            && (id in filtered.admitted <==>
                  id in s.admitted ||
                  (!Owned(s, id) && MayPublish(policy, s, shell, id) && exists c :: c in delta && c.identity == id))
  {
    var filtered := FilterChanges(policy, s, shell, delta).value;
    FilteredChangesSound(policy, s, shell, delta);
    KeptChangesMembers(policy, RegistryOf(s), shell.presentAtAttach, delta);
    RegistryMeans(policy, s, id);
    AdmitAllExactly(RegistryOf(s), s.admitted, ChangeIds(filtered.kept), id);
    OwnedByRegistry(s, id);
    hide FilterChanges, RegistryOf, Admits, ValidChanges, Owned, Permitted, AdmitAll, KeptChanges, CanonicalAdmitted;
    InChangeIds(filtered.kept, id);
    InKeys(filtered.kept, id);
    if c :| c in filtered.kept && c.identity == id {
      ChangeFind(filtered.kept, c);
      OneChangeOf(delta, c);
    } else {
      ChangeAbsent(filtered.kept, id);
    }
  }

  lemma OneChangeOf(delta: seq<LiveChange>, c: LiveChange)
    requires ValidChanges(delta) && c in delta
    ensures forall x | x in delta && x.identity == c.identity :: x == c
  {
    var i :| 0 <= i < |delta| && delta[i] == c;
    forall x | x in delta && x.identity == c.identity
      ensures x == c
    {
      var j :| 0 <= j < |delta| && delta[j] == x;
      assert i < j ==> ChangeIdentity(delta[i]) != ChangeIdentity(delta[j]);
      assert j < i ==> ChangeIdentity(delta[j]) != ChangeIdentity(delta[i]);
    }
  }

  lemma OwnedByRegistry(s: State, id: Identity)
    ensures id in RegistryOf(s).owned <==> Owned(s, id)
  {
  }

  // ---------------------------------------------------------------- one publish

  /** The admitted part of a delta enters the capture of the shell, and the rest leaves no trace. */
  ghost predicate TakesIn(policy: Policy, s: State, shell: Shell, delta: seq<LiveChange>, captured: LiveMap,
                          admitted: seq<Identity>, id: Identity)
  {
    && (forall c | c in delta && c.identity == id ::
          Lookup(captured, id) ==
          if MayPublish(policy, s, shell, id) then c.value else Lookup(MapOf(shell.captureBaseline), id))
    && ((forall c | c in delta :: c.identity != id) ==>
         Lookup(captured, id) == Lookup(MapOf(shell.captureBaseline), id))
    && (id in admitted <==>
          id in s.admitted ||
          (!Owned(s, id) && MayPublish(policy, s, shell, id) && exists c :: c in delta && c.identity == id))
  }

  lemma FilteredTakesIn(policy: Policy, s: State, shell: Shell, delta: seq<LiveChange>, id: Identity)
    requires ValidChanges(delta) && CanonicalAdmitted(s.admitted) && FilterChanges(policy, s, shell, delta).Some?
    requires WellFormed(shell.captureBaseline)
    ensures var filtered := FilterChanges(policy, s, shell, delta).value;
            TakesIn(policy, s, shell, delta, MapOf(ApplyChanges(shell.captureBaseline, filtered.kept)),
                    filtered.admitted, id)
  {
    var filtered := FilterChanges(policy, s, shell, delta).value;
    FilteredChangesSound(policy, s, shell, delta);
    FilteredDelta(policy, s, shell, delta, id);
    ApplyChangesMap(shell.captureBaseline, filtered.kept);
    ApplyPresent(shell.captureBaseline);
    ApplyLookup(MapOf(shell.captureBaseline), EditsOf(filtered.kept), id);
    hide FilterChanges, ApplyChanges, ApplyEdits, ValidChanges, MayPublish, Owned, MapOf, Lookup, CanonicalAdmitted,
         EditsOf;
  }

  lemma GenerationAdmitted(s: State, request: PublishRequest, semantic: seq<LiveChange>)
    ensures Generation(s, request, semantic).admitted == s.admitted
  {
    hide Accepted, Compact, ApplyChanges;
  }

  lemma MergeAdmitted(s: State, request: PublishRequest, shell: Shell, observed: seq<LiveState>,
                      semantic: seq<LiveChange>)
    requires Merge(s, request, shell, observed, semantic).Ok?
    ensures Merge(s, request, shell, observed, semantic).value.state.admitted == s.admitted
    ensures request.credential.shellId in Merge(s, request, shell, observed, semantic).value.state.shells
    ensures Merge(s, request, shell, observed,
                  semantic).value.state.shells[request.credential.shellId].captureBaseline ==
            observed
  {
    MergeIs(s, request, shell, observed, semantic);
    GenerationAdmitted(s, request, semantic);
    hide Merge, Generation, Accepted, Losing, WithReceipt, ConflictsOf;
  }

  /**
   * After a fresh publish the shell captures its old capture with exactly the publishable part of
   * the delta, and exactly the unowned identities of that part are admitted.
   */
  lemma PublishTakesIn(policy: Policy, s: State, g: Generations, request: PublishRequest, id: Identity)
    requires Inv(s, g) && PublishStep(policy, s, request).Ok?
    requires ReceiptFor(s.receipts, request.credential.shellId, request.operationId).None?
    ensures var s' := PublishStep(policy, s, request).value.state;
            && request.credential.shellId in s.shells && request.credential.shellId in s'.shells
            && TakesIn(policy, s, s.shells[request.credential.shellId], request.delta,
                       MapOf(s'.shells[request.credential.shellId].captureBaseline), s'.admitted, id)
  {
    PublishIs(policy, s, request);
    var sid := request.credential.shellId;
    var shell := s.shells[sid];
    InvShell(s, g, sid);
    InvAdmitted(s, g);
    assert WellFormed(shell.captureBaseline);
    hide Inv, ValidShell, ShellCausal, FilterChanges, ApplyChanges, DiffMaps, PublishStep, Merge, TakesIn, MapOf;
    FilteredTakesIn(policy, s, shell, request.delta, id);
    var filtered := FilterChanges(policy, s, shell, request.delta).value;
    var observed := ApplyChanges(shell.captureBaseline, filtered.kept);
    MergeAdmitted(s.(admitted := filtered.admitted), request, shell, observed,
                  DiffMaps(MapOf(shell.captureBaseline), MapOf(observed)));
  }

  lemma InvAdmitted(s: State, g: Generations)
    requires Inv(s, g) && s.materialized
    ensures CanonicalAdmitted(s.admitted)
  {
  }

  /** A publish changes the shared value of an identity only if its shell may publish it. */
  lemma PublishesOnlyPermitted(policy: Policy, s: State, g: Generations, request: PublishRequest, id: Identity)
    requires Inv(s, g) && PublishStep(policy, s, request).Ok?
    requires Differs(MapOf(s.shared), MapOf(PublishStep(policy, s, request).value.state.shared), id)
    ensures request.credential.shellId in s.shells
    ensures MayPublish(policy, s, s.shells[request.credential.shellId], id)
    ensures exists c :: c in request.delta && c.identity == id &&
                        Lookup(MapOf(PublishStep(policy, s, request).value.state.shared), id) == c.value
  {
    PublishIs(policy, s, request);
    PublishFate(policy, s, g, request, id);
    PublishTakesIn(policy, s, g, request, id);
    var sid, step := request.credential.shellId, PublishStep(policy, s, request).value;
    hide *;
    FateTakesIn(policy, s, s.shells[sid], request, MapOf(step.state.shells[sid].captureBaseline), step.reply.accepted,
                step.state.shells[sid].unpublishedDelta, MapOf(step.state.shared), step.state.admitted, id);
  }

  lemma FateTakesIn(policy: Policy, s: State, shell: Shell, request: PublishRequest, observed: LiveMap,
                    accepted: seq<Identity>, losing: seq<LiveChange>, shared': LiveMap, admitted: seq<Identity>,
                    id: Identity)
    requires Fate(s, request.acknowledgedRevision, MapOf(shell.captureBaseline), observed, accepted, losing, shared',
                  id)
    requires TakesIn(policy, s, shell, request.delta, observed, admitted, id) && Differs(MapOf(s.shared), shared', id)
    ensures MayPublish(policy, s, shell, id)
    ensures exists c :: c in request.delta && c.identity == id && Lookup(shared', id) == c.value
  {
    hide MapOf, MayPublish, Lookup, ChangedAfter, Owned, Keys;
  }

  /**
   * Over every run: what was present when a shell attached enters the shared generation through
   * that shell only if the profile owned it or it had been admitted before.
   */
  lemma PrivateStaysPrivate(policy: Policy, ops: seq<Op>, k: nat, attach: AttachRequest, publish: PublishRequest,
                            id: Identity)
    requires k < |ops| && ops[k] == DoAttach(attach)
    requires attach.credential.shellId !in Run(policy, ops[..k]).shells
    requires attach.credential.shellId in Run(policy, ops[..k + 1]).shells
    requires id in MapOf(attach.initial.states) && publish.credential.shellId == attach.credential.shellId
    requires PublishStep(policy, Run(policy, ops), publish).Ok?
    requires Differs(MapOf(Run(policy, ops).shared),
                     MapOf(PublishStep(policy, Run(policy, ops), publish).value.state.shared), id)
    ensures Owned(Run(policy, ops), id) && Permitted(policy, Run(policy, ops), id)
  {
    RunKeeps(policy, ops);
    RunStep(policy, ops, k);
    AttachedPresent(policy, Run(policy, ops[..k]), attach, id);
    OriginForGood(policy, ops, k + 1, attach.credential.shellId);
    PublishesOnlyPermitted(policy, Run(policy, ops), RunHistory(policy, ops), publish, id);
    hide Run, Inv, MapOf, PublishStep, Next, Owned, Permitted;
  }

  lemma AttachedPresent(policy: Policy, s: State, attach: AttachRequest, id: Identity)
    requires attach.credential.shellId !in s.shells && id in MapOf(attach.initial.states)
    requires attach.credential.shellId in Next(policy, s, DoAttach(attach)).shells
    ensures id in Next(policy, s, DoAttach(attach)).shells[attach.credential.shellId].presentAtAttach
  {
    AttachRecords(policy, s, attach);
    hide AttachStep, ValidState, MapOf, RegistryReady, Captures, SameStates;
  }

  // ---------------------------------------------------------------- success and report

  lemma MergeOk(s: State, request: PublishRequest, shell: Shell, observed: seq<LiveState>, semantic: seq<LiveChange>)
    ensures Merge(s, request, shell, observed, semantic).Ok? <==>
              Accepted(s, request.acknowledgedRevision, semantic) == [] || s.headRevision < MAX_REVISION
  {
    hide Accepted, Losing, Compact, ApplyChanges, WithReceipt, ConflictsOf;
  }

  /** Everything that a fresh publish of a shell needs. */
  ghost predicate Publishable(policy: Policy, s: State, request: PublishRequest, shell: Shell) {
    && CheckPrivate(request.operationId, request.credential).None? && ValidChanges(request.delta)
    && shell.pending == NoPending && shell.conflict.None?
    && request.acknowledgedRevision == shell.appliedRevision && shell.appliedRevision != 0
    && RegistryReady(policy, s) && FilterChanges(policy, s, shell, request.delta).Some?
    && InBounds(shell.captureBaseline)
    && var filtered := FilterChanges(policy, s, shell, request.delta).value;
       var observed := ApplyChanges(shell.captureBaseline, filtered.kept);
       && InBounds(observed)
       && (s.headRevision < MAX_REVISION ||
           Accepted(s.(admitted := filtered.admitted), request.acknowledgedRevision,
                    DiffMaps(MapOf(shell.captureBaseline), MapOf(observed))) == [])
  }

  lemma PublishOk(policy: Policy, s: State, request: PublishRequest, shell: Shell)
    requires Authorized(s, request.credential) && s.shells[request.credential.shellId] == shell
    requires shell.conflict.Some? <==> shell.unpublishedDelta != []
    requires ReceiptFor(s.receipts, request.credential.shellId, request.operationId).None?
    ensures PublishStep(policy, s, request).Ok? <==> Publishable(policy, s, request, shell)
  {
    hide CheckPrivate, ValidChanges, RegistryReady, FilterChanges, InBounds, ApplyChanges, DiffMaps, MapOf, Accepted,
         Merge, ReceiptFor, Authorized;
    if FilterChanges(policy, s, shell, request.delta).Some? {
      var filtered := FilterChanges(policy, s, shell, request.delta).value;
      var observed := ApplyChanges(shell.captureBaseline, filtered.kept);
      MergeOk(s.(admitted := filtered.admitted), request, shell, observed,
              DiffMaps(MapOf(shell.captureBaseline), MapOf(observed)));
    }
  }

  /** A fresh publish is refused only on one of those grounds. */
  lemma PublishSucceeds(policy: Policy, s: State, g: Generations, request: PublishRequest)
    requires Inv(s, g) && Authorized(s, request.credential)
    requires ReceiptFor(s.receipts, request.credential.shellId, request.operationId).None?
    ensures PublishStep(policy, s, request).Ok? <==>
              Publishable(policy, s, request, s.shells[request.credential.shellId])
  {
    ShellDelta(s, g, request.credential.shellId);
    hide *;
    PublishOk(policy, s, request, s.shells[request.credential.shellId]);
  }

  lemma ShellDelta(s: State, g: Generations, id: string)
    requires Inv(s, g) && id in s.shells
    ensures s.shells[id].conflict.Some? <==> s.shells[id].unpublishedDelta != []
  {
    MaterializedShells(s, g, id);
    hide Inv, ShellCausal, Covers, WellFormed, ValidChanges, ValidPending, ValidIdentityList;
  }

  /**
   * What a fresh publish reports: the new head; one conflict for every losing change, in order,
   * across a history gap exactly if the shell acknowledged less than the compaction floor; and the
   * shell keeps the first conflict and is behind exactly if it has one or did not acknowledge the head.
   */
  ghost predicate Reports(floor: nat, request: PublishRequest, before: Shell, step: Step) {
    && step.reply.Published? && request.credential.shellId in step.state.shells
    && var after := step.state.shells[request.credential.shellId];
       var conflicts := step.reply.conflicts;
       && step.reply.sharedRevision == step.state.headRevision
       && |conflicts| == |after.unpublishedDelta|
       && (forall i | 0 <= i < |conflicts| ::
             && conflicts[i].identity == after.unpublishedDelta[i].identity
             && (conflicts[i].kind == HistoryGap <==> request.acknowledgedRevision < floor)
             && conflicts[i].baseRevision == request.acknowledgedRevision
             && conflicts[i].sharedRevision == step.state.headRevision)
       && after.conflict == (if conflicts == [] then None else Some(conflicts[0]))
       && after.behind == (conflicts != [] || after.appliedRevision < step.state.headRevision)
       && after.appliedRevision == before.appliedRevision && after.appliedBaseline == before.appliedBaseline
       && after.pending == before.pending
  }

  lemma MergeReports(s: State, request: PublishRequest, shell: Shell, observed: seq<LiveState>,
                     semantic: seq<LiveChange>)
    requires Merge(s, request, shell, observed, semantic).Ok? && shell.conflict.None? && shell.unpublishedDelta == []
    ensures Reports(s.compactionFloor, request, shell, Merge(s, request, shell, observed, semantic).value)
  {
    MergeIs(s, request, shell, observed, semantic);
    GenerationHead(s, request, semantic);
    hide Merge, Generation, Accepted, Losing, WithReceipt;
  }

  lemma GenerationHead(s: State, request: PublishRequest, semantic: seq<LiveChange>)
    ensures Generation(s, request, semantic).headRevision >= s.headRevision
  {
    hide Accepted, Compact, ApplyChanges;
  }

  lemma PublishReports(policy: Policy, s: State, g: Generations, request: PublishRequest)
    requires Inv(s, g) && PublishStep(policy, s, request).Ok?
    requires ReceiptFor(s.receipts, request.credential.shellId, request.operationId).None?
    ensures request.credential.shellId in s.shells
    ensures Reports(s.compactionFloor, request, s.shells[request.credential.shellId],
                    PublishStep(policy, s, request).value)
  {
    PublishIs(policy, s, request);
    var shell := s.shells[request.credential.shellId];
    hide Inv, FilterChanges, ApplyChanges, DiffMaps, PublishStep, Merge, MapOf, ReceiptFor, Reports;
    var filtered := FilterChanges(policy, s, shell, request.delta).value;
    var observed := ApplyChanges(shell.captureBaseline, filtered.kept);
    MergeReports(s.(admitted := filtered.admitted), request, shell, observed,
                 DiffMaps(MapOf(shell.captureBaseline), MapOf(observed)));
  }
}
