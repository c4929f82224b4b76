/**
 * What single operations guarantee in a state the protocol reaches: a publish loses no
 * update, a conflict ends only by acknowledging its resolution, and a repeated operation
 * is answered from its receipt.
 */
module Consequences {
  import opened LastOccurrence
  import opened Live
  import opened Diff
  import opened State
  import opened Registry
  import opened Steps
  import opened Protocol
  import opened Preservation
  import opened Keeps

  // ---------------------------------------------------------------- publish

  /** The exact fate of every identity in one merged publish. */
  ghost predicate Fate(s: State, acknowledged: nat, capture: LiveMap, observed: LiveMap,
                       accepted: seq<Identity>, losing: seq<LiveChange>, shared': LiveMap, id: Identity)
  {
    var shared := MapOf(s.shared);
    var touched := acknowledged < s.compactionFloor || id in ChangedAfter(s.events, acknowledged);
    var proposes := Differs(capture, observed, id) && Differs(shared, observed, id);
    && (id in accepted <==> proposes && !touched)
    && (id in Keys(ChangeIdentity, losing) <==> proposes && touched)
    && Lookup(shared', id) == Lookup(if id in accepted then observed else shared, id)
  }

  lemma InChangeIds(changes: seq<LiveChange>, id: Identity)
    ensures id in ChangeIds(changes) <==> id in Keys(ChangeIdentity, changes)
  {
    if id in ChangeIds(changes) {
      var i :| 0 <= i < |changes| && ChangeIds(changes)[i] == id;
      assert ChangeIdentity(changes[i]) == id;
    }
    if id in Keys(ChangeIdentity, changes) {
      var i :| 0 <= i < |changes| && ChangeIdentity(changes[i]) == id;
      assert ChangeIds(changes)[i] == id;
    }
  }

  lemma InKeys(changes: seq<LiveChange>, id: Identity)
    ensures id in Keys(ChangeIdentity, changes) <==> exists c :: c in changes && c.identity == id
  {
    if id in Keys(ChangeIdentity, changes) {
      var i :| 0 <= i < |changes| && ChangeIdentity(changes[i]) == id;
      assert changes[i] in changes;
    }
    if c :| c in changes && c.identity == id {
      var i :| 0 <= i < |changes| && changes[i] == c;
      assert ChangeIdentity(changes[i]) == id;
    }
  }

  /** Which of the accepted and losing lists one identity of the semantic delta joins. */
  lemma SplitFate(s: State, acknowledged: nat, capture: LiveMap, observed: LiveMap, id: Identity)
    requires WellFormed(s.shared) && ValidMap(capture) && ValidMap(observed)
    ensures var semantic := DiffMaps(capture, observed);
            var touched := acknowledged < s.compactionFloor || id in ChangedAfter(s.events, acknowledged);
            var proposes := Differs(capture, observed, id) && Differs(MapOf(s.shared), observed, id);
            && (id in Keys(ChangeIdentity, Accepted(s, acknowledged, semantic)) <==> proposes && !touched)
            && (id in Keys(ChangeIdentity, Losing(s, acknowledged, semantic)) <==> proposes && touched)
  {
    var semantic := DiffMaps(capture, observed);
    DiffMinimal(capture, observed);
    AcceptedMembers(s, acknowledged, semantic);
    LosingMembers(s, acknowledged, semantic);
    InKeys(semantic, id);
    InKeys(Accepted(s, acknowledged, semantic), id);
    InKeys(Losing(s, acknowledged, semantic), id);
    forall c | c in semantic && c.identity == id
      ensures ChangeMatches(c, s.shared) <==> !Differs(MapOf(s.shared), observed, id)
    {
      MatchesMeaning(c, s.shared);
    }
    hide DiffMaps, ChangeMatches, MapOf, ChangedAfter, Accepted, Losing, Keys, Lookup;
  }

  lemma AcceptedValue(s: State, acknowledged: nat, capture: LiveMap, observed: LiveMap, id: Identity)
    requires WellFormed(s.shared) && ValidMap(capture) && ValidMap(observed)
    ensures var accepted := Accepted(s, acknowledged, DiffMaps(capture, observed));
            Lookup(ApplyEdits(MapOf(s.shared), EditsOf(accepted)), id) ==
            Lookup(if id in Keys(ChangeIdentity, accepted) then observed else MapOf(s.shared), id)
  {
    var semantic := DiffMaps(capture, observed);
    var accepted := Accepted(s, acknowledged, semantic);
    DiffMinimal(capture, observed);
    SplitValid(s, acknowledged, semantic);
    AcceptedMembers(s, acknowledged, semantic);
    ApplyPresent(s.shared);
    ApplyLookup(MapOf(s.shared), EditsOf(accepted), id);
    InKeys(accepted, id);
    if id in Keys(ChangeIdentity, accepted) {
      var c :| c in accepted && c.identity == id;
      ChangeFind(accepted, c);
    } else {
      ChangeAbsent(accepted, id);
    }
  }

  /**
   * One fresh publish: what the shell now captures is its old capture with the admitted part of
   * its delta; a proposal that no later event touches is accepted, any other real proposal is
   * kept as the shell's unpublished delta, and nothing else of the shared generation changes.
   */
  lemma PublishFate(policy: Policy, s: State, g: Generations, request: PublishRequest, id: Identity)
    requires Inv(s, g) && PublishStep(policy, s, request).Ok?
    requires ReceiptFor(s.receipts, request.credential.shellId, request.operationId).None?
    ensures request.credential.shellId in s.shells
    ensures PublishStep(policy, s, request).value.reply.Published?
    ensures request.credential.shellId in PublishStep(policy, s, request).value.state.shells
    ensures var step := PublishStep(policy, s, request).value;
            var before, after := s.shells[request.credential.shellId], step.state.shells[request.credential.shellId];
            && before.appliedRevision == request.acknowledgedRevision == after.appliedRevision != 0
            && (after.conflict.Some? <==> after.unpublishedDelta != [])
            && Fate(s, request.acknowledgedRevision, MapOf(before.captureBaseline), MapOf(after.captureBaseline),
                    step.reply.accepted, after.unpublishedDelta, MapOf(step.state.shared), id)
  {
    PublishIs(policy, s, request);
    var sid := request.credential.shellId;
    var shell := s.shells[sid];
    InvShell(s, g, sid);
    assert CanonicalAdmitted(s.admitted);
    FilteredChangesSound(policy, s, shell, request.delta);
    var filtered := FilterChanges(policy, s, shell, request.delta).value;
    ObservedSound(shell.captureBaseline, filtered.kept);
    var observed := ApplyChanges(shell.captureBaseline, filtered.kept);
    ApplyValid(map[], shell.captureBaseline);
    ApplyValid(map[], observed);
    hide Inv, ValidShell, ShellCausal, FilterChanges, ApplyChanges, Accepted, Losing, DiffMaps;
    MergeFate(s.(admitted := filtered.admitted), request, shell, observed, id);
    FateAdmitted(s, filtered.admitted, request.acknowledgedRevision, MapOf(shell.captureBaseline), MapOf(observed),
                 PublishStep(policy, s, request).value.reply.accepted,
                 PublishStep(policy, s, request).value.state.shells[sid].unpublishedDelta,
                 MapOf(PublishStep(policy, s, request).value.state.shared), id);
  }

  lemma FateAdmitted(s: State, admitted: seq<Identity>, acknowledged: nat, capture: LiveMap, observed: LiveMap,
                     accepted: seq<Identity>, losing: seq<LiveChange>, shared': LiveMap, id: Identity)
    requires Fate(s.(admitted := admitted), acknowledged, capture, observed, accepted, losing, shared', id)
    ensures Fate(s, acknowledged, capture, observed, accepted, losing, shared', id)
  {
  }

  lemma GenerationMap(s: State, request: PublishRequest, semantic: seq<LiveChange>)
    requires WellFormed(s.shared) && ValidChanges(semantic)
    ensures MapOf(Generation(s, request, semantic).shared) ==
            ApplyEdits(MapOf(s.shared), EditsOf(Accepted(s, request.acknowledgedRevision, semantic)))
  {
    var accepted := Accepted(s, request.acknowledgedRevision, semantic);
    SplitValid(s, request.acknowledgedRevision, semantic);
    ApplyChangesMap(s.shared, accepted);
    assert ApplyEdits(MapOf(s.shared), EditsOf([])) == MapOf(s.shared);
    hide Accepted, ApplyChanges, MapOf, ApplyEdits, Compact, WellFormed, ValidChanges;
  }

  /** What a merge leaves in the shell and reports, in terms of the split delta. */
  lemma MergeFrame(s: State, request: PublishRequest, shell: Shell, observed: seq<LiveState>, semantic: seq<LiveChange>)
    requires Merge(s, request, shell, observed, semantic).Ok?
    requires shell.conflict.None? && shell.unpublishedDelta == []
    ensures var step := Merge(s, request, shell, observed, semantic).value;
            && step.reply.Published? && request.credential.shellId in step.state.shells
            && step.reply.accepted == ChangeIds(Accepted(s, request.acknowledgedRevision, semantic))
            && step.state.shared == Generation(s, request, semantic).shared
    ensures var after := Merge(s, request, shell, observed, semantic).value.state.shells[request.credential.shellId];
            && after.captureBaseline == observed && after.appliedRevision == shell.appliedRevision
            && after.unpublishedDelta == Losing(s, request.acknowledgedRevision, semantic)
            && (after.conflict.Some? <==> after.unpublishedDelta != [])
  {
    MergeIs(s, request, shell, observed, semantic);
    hide Merge, Generation, Accepted, Losing, WithReceipt, ConflictsOf;
  }

  lemma MergeFate(s: State, request: PublishRequest, shell: Shell, observed: seq<LiveState>, id: Identity)
    requires WellFormed(s.shared) && ValidMap(MapOf(shell.captureBaseline)) && ValidMap(MapOf(observed))
    requires shell.conflict.None? && shell.unpublishedDelta == []
    requires Merge(s, request, shell, observed, DiffMaps(MapOf(shell.captureBaseline), MapOf(observed))).Ok?
    ensures var step := Merge(s, request, shell, observed,
                              DiffMaps(MapOf(shell.captureBaseline), MapOf(observed))).value;
            step.reply.Published? && request.credential.shellId in step.state.shells
    ensures var step := Merge(s, request, shell, observed,
                              DiffMaps(MapOf(shell.captureBaseline), MapOf(observed))).value;
            var after := step.state.shells[request.credential.shellId];
            && after.captureBaseline == observed && after.appliedRevision == shell.appliedRevision
            && (after.conflict.Some? <==> after.unpublishedDelta != [])
            && Fate(s, request.acknowledgedRevision, MapOf(shell.captureBaseline), MapOf(observed),
                    step.reply.accepted, after.unpublishedDelta, MapOf(step.state.shared), id)
  {
    var acknowledged := request.acknowledgedRevision;
    var capture := MapOf(shell.captureBaseline);
    var semantic := DiffMaps(capture, MapOf(observed));
    SplitFate(s, acknowledged, capture, MapOf(observed), id);
    AcceptedValue(s, acknowledged, capture, MapOf(observed), id);
    DiffMinimal(capture, MapOf(observed));
    InChangeIds(Accepted(s, acknowledged, semantic), id);
    GenerationMap(s, request, semantic);
    MergeFrame(s, request, shell, observed, semantic);
    hide Merge, Generation, Accepted, Losing, MapOf, WellFormed, ValidChanges, DiffMaps, ApplyEdits, ChangedAfter,
         Keys, Lookup, ValidMap, EditsOf, ChangeIds;
  }

  /**
   * No lost update: a publish overwrites an identity only when the value it replaces is still
   * the one in the baseline the shell last acknowledged, and never across a history gap.
   */
  lemma NoLostUpdate(policy: Policy, s: State, g: Generations, request: PublishRequest, id: Identity)
    requires Inv(s, g) && PublishStep(policy, s, request).Ok?
    requires Differs(MapOf(s.shared), MapOf(PublishStep(policy, s, request).value.state.shared), id)
    ensures request.credential.shellId in s.shells
    ensures s.compactionFloor <= request.acknowledgedRevision
    ensures Lookup(MapOf(s.shared), id) ==
            Lookup(MapOf(s.shells[request.credential.shellId].appliedBaseline), id)
  {
    PublishIs(policy, s, request);
    PublishFate(policy, s, g, request, id);
    var revision := request.acknowledgedRevision;
    assert id !in ChangedAfter(s.events, revision);
    ChangedAfterMeaning(s.events, revision, id);
    UntouchedInHistory(s, g, revision, id);
    InvShell(s, g, request.credential.shellId);
  }

  lemma InvHistory(s: State, g: Generations)
    requires Inv(s, g) && s.materialized
    ensures EventsConnect(HistoryOf(s), s.headRevision, g)
    ensures HistoryOf(s).floor == s.compactionFloor && HistoryOf(s).events == s.events
    ensures s.compactionFloor + |s.events| == s.headRevision
    ensures (forall r: nat | r <= s.headRevision :: r in g) && g[s.headRevision] == MapOf(s.shared)
  {
  }

  lemma UntouchedInHistory(s: State, g: Generations, revision: nat, id: Identity)
    requires Inv(s, g) && s.materialized && s.compactionFloor <= revision <= s.headRevision
    requires forall i | 0 <= i < |s.events| && s.events[i].revision > revision ::
               id !in Keys(ChangeIdentity, s.events[i].changes)
    ensures revision in g && Lookup(MapOf(s.shared), id) == Lookup(g[revision], id)
  {
    hide *;
    InvHistory(s, g);
    UntouchedSince(HistoryOf(s), s.headRevision, g, revision, id, |HistoryOf(s).events|);
  }

  lemma {:induction false} CompactKeepsLast(h: History)
    requires h.events != []
    ensures Compact(h).events != [] && Compact(h).events[|Compact(h).events| - 1] == h.events[|h.events| - 1]
    decreases |h.events|
  {
    if |h.events| > MAX_STATE_EVENTS {
      CompactKeepsLast(History(ApplyChanges(h.baseline, h.events[0].changes), h.events[0].revision, h.events[1..]));
    }
  }

  ghost predicate NewestIs(s: State, revision: nat, ids: seq<Identity>) {
    && s.events != [] && s.events[|s.events| - 1].revision == revision
    && ChangeIds(s.events[|s.events| - 1].changes) == ids
  }

  lemma AdvancedIsNewest(s: State, origin: Origin, changes: seq<LiveChange>, shared: seq<LiveState>)
    ensures NewestIs(Advanced(s, origin, changes, shared), s.headRevision + 1, ChangeIds(changes))
  {
    var event := Event(s.headRevision + 1, origin, changes);
    var h := History(s.compactionBaseline, s.compactionFloor, s.events + [event]);
    CompactKeepsLast(h);
    hide Compact, ChangeIds;
  }

  lemma RecordedIsNewest(s: State, revision: nat, ids: seq<Identity>, credential: Credential, operationId: string,
                         digest: RequestDigest, shell: Shell, reply: Reply)
    requires NewestIs(s, revision, ids)
    ensures NewestIs(Recorded(s, credential, operationId, digest, shell, reply).state, revision, ids)
  {
  }

  lemma MergedIsNewest(s: State, request: PublishRequest, shell: Shell, observed: seq<LiveState>,
                       semantic: seq<LiveChange>)
    requires Merge(s, request, shell, observed, semantic).Ok?
    requires Accepted(s, request.acknowledgedRevision, semantic) != []
    ensures NewestIs(Merge(s, request, shell, observed, semantic).value.state, s.headRevision + 1,
                     ChangeIds(Accepted(s, request.acknowledgedRevision, semantic)))
  {
    hide *;
    var acknowledged := request.acknowledgedRevision;
    var accepted := Accepted(s, acknowledged, semantic);
    var s1 := Generation(s, request, semantic);
    GenerationIs(s, request, semantic);
    AdvancedIsNewest(s, ShellOrigin(request.operationId, request.credential.shellId), accepted,
                     ApplyChanges(s.shared, accepted));
    MergeIs(s, request, shell, observed, semantic);
    var losing := Losing(s, acknowledged, semantic);
    var digest := PublishDigest(acknowledged, request.delta);
    var kind := if acknowledged < s.compactionFloor then HistoryGap else Overlap;
    var conflicts := ConflictsOf(losing, kind, acknowledged, s1.headRevision,
                                 ConflictToken(request.operationId, digest, s1.headRevision));
    RecordedIsNewest(s1, s.headRevision + 1, ChangeIds(accepted), request.credential, request.operationId, digest,
                     PublishedShell(shell, s1.headRevision, observed, losing, conflicts),
                     Published(s1.headRevision, ChangeIds(accepted), conflicts));
  }

  /** A publish that changes the generation leaves its own event as the newest one. */
  lemma PublishedIsNewest(policy: Policy, s: State, request: PublishRequest)
    requires PublishStep(policy, s, request).Ok?
    requires ReceiptFor(s.receipts, request.credential.shellId, request.operationId).None?
    requires PublishStep(policy, s, request).value.reply.Published?
    requires PublishStep(policy, s, request).value.reply.accepted != []
    ensures NewestIs(PublishStep(policy, s, request).value.state, s.headRevision + 1,
                     PublishStep(policy, s, request).value.reply.accepted)
  {
    PublishIs(policy, s, request);
    hide *;
    var shell := s.shells[request.credential.shellId];
    var filtered := FilterChanges(policy, s, shell, request.delta).value;
    var observed := ApplyChanges(shell.captureBaseline, filtered.kept);
    var semantic := DiffMaps(MapOf(shell.captureBaseline), MapOf(observed));
    var s0 := s.(admitted := filtered.admitted);
    MergeFrame(s0, request, shell, observed, semantic);
    MergedIsNewest(s0, request, shell, observed, semantic);
  }

  /**
   * Conflict detection counts the shell's own unacknowledged events: after a publish that was
   * accepted for an identity, a second publish on the same acknowledged revision that proposes
   * yet another value for it loses, even when no other shell exists.
   */
  lemma LoneShellConflictsWithItself(policy: Policy, s: State, g: Generations, first: PublishRequest,
                                     second: PublishRequest, id: Identity)
    requires Inv(s, g) && PublishStep(policy, s, first).Ok?
    requires ReceiptFor(s.receipts, first.credential.shellId, first.operationId).None?
    requires PublishStep(policy, s, first).value.reply.Published?
    requires id in PublishStep(policy, s, first).value.reply.accepted
    requires second.credential.shellId == first.credential.shellId
    requires var s1 := PublishStep(policy, s, first).value.state;
             && PublishStep(policy, s1, second).Ok?
             && ReceiptFor(s1.receipts, second.credential.shellId, second.operationId).None?
    ensures second.credential.shellId in PublishStep(policy, s, first).value.state.shells
    ensures var s1 := PublishStep(policy, s, first).value.state;
            var s2 := PublishStep(policy, s1, second).value.state;
            && second.credential.shellId in s2.shells
            && var sid := second.credential.shellId;
               (Differs(MapOf(s1.shells[sid].captureBaseline), MapOf(s2.shells[sid].captureBaseline), id) &&
                Differs(MapOf(s1.shared), MapOf(s2.shells[sid].captureBaseline), id)) ==>
                 s2.shells[sid].conflict.Some? && id in Keys(ChangeIdentity, s2.shells[sid].unpublishedDelta)
  {
    var s1 := PublishStep(policy, s, first).value.state;
    PublishKeeps(policy, s, g, first);
    PublishFate(policy, s, g, first, id);
    PublishedIsNewest(policy, s, first);
    PublishFate(policy, s1, Recording(g, s1), second, id);
    InvShell(s, g, first.credential.shellId);
    AppliedWithinHead(s, g, first.credential.shellId);
    hide PublishStep, Inv, ValidShell, ShellCausal, MapOf;
    OwnEventTouches(s1, s.headRevision, second.acknowledgedRevision,
                    PublishStep(policy, s, first).value.reply.accepted, id);
  }

  lemma AppliedWithinHead(s: State, g: Generations, sid: string)
    requires Inv(s, g) && s.materialized && sid in s.shells
    ensures s.shells[sid].appliedRevision <= s.headRevision
  {
  }

  lemma OwnEventTouches(s: State, head: nat, acknowledged: nat, ids: seq<Identity>, id: Identity)
    requires NewestIs(s, head + 1, ids) && id in ids && acknowledged <= head
    ensures id in ChangedAfter(s.events, acknowledged)
  {
    InChangeIds(s.events[|s.events| - 1].changes, id);
    ChangedAfterMeaning(s.events, acknowledged, id);
  }
}
