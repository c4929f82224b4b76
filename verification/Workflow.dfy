/**
 * Materialization, checkout, reset, commit and reference repair keep the protocol
 * invariant; the last two never touch the shared generation.
 */
module Workflow {
  import opened Wrappers
  import opened LastOccurrence
  import opened Live
  import opened Diff
  import opened Projection
  import opened Fingerprint
  import opened State
  import opened Registry
  import opened Steps
  import opened Protocol
  import opened Preservation
  import opened Keeps

  // ---------------------------------------------------------------- materialization

  lemma FirstEventConnects(changes: seq<LiveChange>, m: LiveMap)
    requires ValidChanges(changes) && ValidMap(m) && ApplyEdits(map[], EditsOf(changes)) == m
    ensures EventsConnect(History([], 0, [Event(1, MaterializeOrigin, changes)]), 1, map[0 := map[], 1 := m])
  {
    hide ValidChanges, EditsOf;
    var h := History([], 0, [Event(1, MaterializeOrigin, changes)]);
    assert h.events[0] == Event(1, MaterializeOrigin, changes);
    assert MapOf([]) == map[];
  }

  lemma CandidateConnects(branch: string, oid: string, committed: Committed)
    requires AllValid(committed.projection.states)
    ensures var s := Candidate(branch, oid, committed);
            var g := Recording(BEFORE_MATERIALIZATION, s);
            && EventsConnect(HistoryOf(s), 1, g) && MapOf(s.shared) == g[1]
            && MapOf(s.shared) == MapOf(committed.projection.states)
  {
    var m := MapOf(committed.projection.states);
    var changes := DiffMaps(map[], m);
    ApplyValid(map[], committed.projection.states);
    DiffMinimal(map[], m);
    DiffApplies(map[], m);
    ApplyChangesMap([], changes);
    assert MapOf([]) == map[];
    hide DiffMaps, ApplyChanges, ApplyEdits, ValidChanges, EventsConnect;
    FirstEventConnects(changes, m);
    assert BEFORE_MATERIALIZATION[1 := m] == map[0 := map[], 1 := m];
  }

  lemma MaterializeKeeps(policy: Policy, s: State, g: Generations, branch: string, oid: string, committed: Committed)
    requires Inv(s, g) && MaterializeStep(policy, s, branch, oid, committed).Ok?
    ensures Sustains(g, MaterializeStep(policy, s, branch, oid, committed).value)
  {
    Unchanged(s, g);
    if !s.materialized {
      CandidateConnects(branch, oid, committed);
      assert Structural(Candidate(branch, oid, committed));
      hide Structural, EventsConnect, MapOf, DiffMaps, ApplyChanges;
    }
  }

  // ---------------------------------------------------------------- replacement

  lemma RefreshedSound(id: string, shell: Shell, s: State, g: Generations)
    requires Covers(g, s.headRevision) && ValidShell(id, shell, s.headRevision) && ShellCausal(shell, s.headRevision, g)
    ensures ValidShell(id, Refreshed(shell, s), s.headRevision) && ShellCausal(Refreshed(shell, s), s.headRevision, g)
  {
  }

  lemma SameKeysSameReceipts(receipts: seq<Receipt>, shells: map<string, Shell>, shells': map<string, Shell>)
    requires ValidReceipts(receipts, shells) && shells'.Keys == shells.Keys
    ensures ValidReceipts(receipts, shells')
  {
    hide OfShell, ReceiptsUnique;
    forall id | id in shells'
      ensures |OfShell(receipts, id)| <= MAX_RECEIPTS_PER_SHELL
    {
      assert id in shells.Keys;
    }
    forall r | r in receipts
      ensures r.shellId in shells'
    {
      assert r.shellId in shells.Keys;
    }
  }

  lemma SameKeysSameSize(a: map<string, Shell>, b: map<string, Shell>)
    requires a.Keys == b.Keys
    ensures |a| == |b|
  {
    assert |a| == |a.Keys| && |b| == |b.Keys|;
  }

  lemma ShellsKeep(s: State, g: Generations, shells': map<string, Shell>)
    requires Inv(s, g) && s.materialized && shells'.Keys == s.shells.Keys
    requires Covers(g, s.headRevision)
    requires forall id | id in shells' ::
               ValidShell(id, shells'[id], s.headRevision) && ShellCausal(shells'[id], s.headRevision, g)
    ensures Inv(s.(shells := shells'), g)
  {
    hide ValidShell, ShellCausal, EventsConnect, FoldEvents, MapOf, ValidCommitted, CanonicalAdmitted, WellFormed,
         ValidEventSequence, ValidBranch, ValidOid, AllValid, Distinct, ValidReceipts, Covers, Blank;
    SameKeysSameReceipts(s.receipts, s.shells, shells');
    SameKeysSameSize(s.shells, shells');
  }

  lemma RefreshKeeps(s: State, g: Generations)
    requires Inv(s, g) && s.materialized
    ensures Inv(RefreshAll(s), g)
  {
    InvCovers(s, g);
    var shells' := RefreshAll(s).shells;
    hide Structural, EventsConnect, ValidShell, ShellCausal, Refreshed, Covers;
    forall id | id in shells'
      ensures ValidShell(id, shells'[id], s.headRevision) && ShellCausal(shells'[id], s.headRevision, g)
    {
      InvShell(s, g, id);
      RefreshedSound(id, s.shells[id], s, g);
    }
    assert shells'.Keys == s.shells.Keys;
    ShellsKeep(s, g, shells');
  }

  /** Re-pointing the worktree at another valid commit leaves the causal state alone. */
  lemma RepointKeeps(s: State, g: Generations, branch: string, oid: string, document: Committed)
    requires Inv(s, g) && s.materialized && ValidBranch(branch) && ValidOid(oid) && ValidCommitted(document)
    ensures Inv(s.(branch := branch, baseOid := oid, committed := document), g)
  {
    hide ValidShell, ShellCausal, EventsConnect, FoldEvents, MapOf, ValidCommitted, CanonicalAdmitted, WellFormed,
         ValidEventSequence, ValidBranch, ValidOid, AllValid, Distinct, ValidReceipts;
  }

  lemma ReorderKeeps(s: State, g: Generations, shared: seq<LiveState>)
    requires Inv(s, g) && s.materialized && WellFormed(shared) && MapOf(shared) == MapOf(s.shared)
    ensures Inv(s.(shared := shared), g)
  {
    hide ValidShell, ShellCausal, EventsConnect, FoldEvents, MapOf, ValidCommitted, CanonicalAdmitted, WellFormed,
         ValidEventSequence, ValidBranch, ValidOid, AllValid, Distinct, ValidReceipts;
  }

  lemma DiffFacts(before: seq<LiveState>, after: seq<LiveState>)
    requires AllValid(before) && AllValid(after)
    ensures var changes := DiffMaps(MapOf(before), MapOf(after));
            && ValidChanges(changes) && ApplyEdits(MapOf(before), EditsOf(changes)) == MapOf(after)
            && (changes == [] <==> MapOf(before) == MapOf(after))
  {
    ApplyValid(map[], before);
    ApplyValid(map[], after);
    hide DiffMaps, ApplyEdits, ValidMap;
    DiffMinimal(MapOf(before), MapOf(after));
    DiffApplies(MapOf(before), MapOf(after));
    DiffEmpty(MapOf(before), MapOf(after));
  }

  lemma ReplaceKeeps(policy: Policy, s: State, g: Generations, branch: string, oid: string, document: Committed,
                     operation: string)
    requires Inv(s, g) && s.materialized && ValidBranch(branch) && ValidOid(oid) && ValidCommitted(document)
    requires ReplaceStep(policy, s, branch, oid, document, operation).Ok?
    ensures var s' := ReplaceStep(policy, s, branch, oid, document, operation).value;
            && Sustains(g, s') && MapOf(s'.shared) == MapOf(document.projection.states)
            && s'.headRevision == s.headRevision + if MapOf(s'.shared) == MapOf(s.shared) then 0 else 1
  {
    var target := document.projection.states;
    var changes := DiffMaps(MapOf(s.shared), MapOf(target));
    var pointed := s.(branch := branch, baseOid := oid, committed := document);
    assert WellFormed(s.shared) && WellFormed(target);
    RepointKeeps(s, g, branch, oid, document);
    InvCovers(s, g);
    DiffFacts(s.shared, target);
    hide Inv, DiffMaps, MapOf, ApplyEdits, RegistryReady, Advanced, RefreshAll, InBounds, AllValid, WellFormed,
         ValidChanges, ValidCommitted, ValidBranch, ValidOid, Covers;
    if changes == [] {
      var s1 := pointed.(shared := target);
      ReorderKeeps(pointed, g, target);
      RefreshKeeps(s1, g);
      SameHeadSameHistory(s1, g);
    } else {
      AdvancedKeeps(pointed, g, WorkflowOrigin(operation), changes, target);
      var s1 := Advanced(pointed, WorkflowOrigin(operation), changes, target);
      AdvancedFrame(pointed, target, WorkflowOrigin(operation), changes);
      RefreshKeeps(s1, g[s.headRevision + 1 := MapOf(target)]);
    }
  }

  lemma AdvancedFrame(s: State, shared: seq<LiveState>, origin: Origin, changes: seq<LiveChange>)
    ensures Advanced(s.(shared := shared), origin, changes, shared) == Advanced(s, origin, changes, shared)
    ensures Advanced(s, origin, changes, shared).headRevision == s.headRevision + 1
    ensures Advanced(s, origin, changes, shared).shared == shared
    ensures Advanced(s, origin, changes, shared).materialized == s.materialized
  {
  }

  // ---------------------------------------------------------------- workflow operations

  lemma RepairKeeps(policy: Policy, s: State, g: Generations, reply: RefReply)
    requires Inv(s, g) && s.materialized && RepairStep(policy, s, reply).Ok?
    ensures Sustains(g, RepairStep(policy, s, reply).value) && Inv(RepairStep(policy, s, reply).value, g)
    ensures var s' := RepairStep(policy, s, reply).value;
            s' == s.(baseOid := s'.baseOid, committed := s'.committed)
  {
    if reply.observed.value != s.baseOid {
      assert ValidBranch(s.branch);
      RepointKeeps(s, g, s.branch, reply.observed.value, reply.exact.value);
    }
    Unchanged(RepairStep(policy, s, reply).value, g);
  }

  lemma CheckoutKeeps(policy: Policy, s: State, g: Generations, branch: string, create: bool, current: RefReply,
                      created: bool, target: RefReply)
    requires Inv(s, g) && CheckoutStep(policy, s, branch, create, current, created, target).Ok?
    ensures Sustains(g, CheckoutStep(policy, s, branch, create, current, created, target).value)
  {
    RepairKeeps(policy, s, g, current);
    var s1 := RepairStep(policy, s, current).value;
    ReplaceKeeps(policy, s1, g, branch, target.observed.value, target.exact.value, "checkout");
  }

  lemma ResetKeeps(policy: Policy, s: State, g: Generations, target: Option<Committed>)
    requires Inv(s, g) && ResetStep(policy, s, target).Ok?
    ensures Sustains(g, ResetStep(policy, s, target).value)
  {
    assert ValidBranch(s.branch) && ValidOid(s.baseOid);
    ReplaceKeeps(policy, s, g, s.branch, s.baseOid, target.value, "reset");
  }

  lemma CommitIs(policy: Policy, s: State, message: string, reply: CommitReply)
    ensures var o := CommitStep(policy, s, message, reply);
            && (o.error.None? && o.result.committed ==> !o.result.recoveryRequired)
            && (o.state == s ||
                (&& s.materialized && reply.result.committed && reply.exact.Some?
                 && o.state == s.(baseOid := reply.result.oid, committed := reply.exact.value)
                 && ValidOid(reply.result.oid) && ValidCommitted(reply.exact.value)
                 && MapOf(reply.exact.value.projection.states) == MapOf(s.shared)))
  {
    hide ValidOid, ValidCommitted, RegistryReady, EffectiveStates, DiffMaps, MapOf, AllValid, Comparable,
         DirtyDecidable;
  }

  /**
   * A commit never changes the shared generation, its history or any shell; when it moves the
   * base, the new committed projection is exactly the shared generation, so nothing is dirty.
   */
  lemma CommitSafe(policy: Policy, s: State, g: Generations, message: string, reply: CommitReply)
    requires Inv(s, g)
    ensures var o := CommitStep(policy, s, message, reply);
            && Inv(o.state, g) && Sustains(g, o.state)
            && o.state == s.(baseOid := o.state.baseOid, committed := o.state.committed)
            && (o.state != s ==> reply.result.committed && o.state.baseOid == reply.result.oid &&
                                 DirtyChanges(o.state) == [])
            && (o.error.None? && o.result.committed ==> !o.result.recoveryRequired)
  {
    CommitIs(policy, s, message, reply);
    var o := CommitStep(policy, s, message, reply);
    Unchanged(s, g);
    if o.state != s {
      assert ValidBranch(s.branch) && WellFormed(s.shared);
      hide CommitStep, Inv;
      RepointKeeps(s, g, s.branch, o.state.baseOid, o.state.committed);
      Unchanged(o.state, g);
      ApplyValid(map[], s.shared);
      DiffEmpty(MapOf(s.shared), MapOf(s.shared));
    }
  }
}
