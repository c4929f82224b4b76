/**
 * What materialization, checkout, reset, repair and commit promise: which branch, commit and
 * document the worktree is on afterwards, and on what grounds they refuse.
 */
module Branches {
  import opened Wrappers
  import opened Live
  import opened Diff
  import opened Fingerprint
  import opened State
  import opened Registry
  import opened Steps
  import opened Protocol
  import opened Preservation
  import opened Keeps
  import opened Workflow
  import opened Runs
  import opened Compiled

  // ---------------------------------------------------------------- clean and dirty

  /** The shared generation is what is committed. */
  ghost predicate Clean(s: State) { MapOf(s.committed.projection.states) == MapOf(s.shared) }

  lemma CleanMeans(s: State)
    requires s.materialized && Structural(s)
    ensures DirtyChanges(s) == [] <==> Clean(s)
  {
    SharedMaps(s);
    hide Structural, DiffMaps, MapOf;
    DiffEmpty(MapOf(s.committed.projection.states), MapOf(s.shared));
  }

  // ---------------------------------------------------------------- replacement

  /** The worktree is on the given branch, commit and document, and shares exactly its projection. */
  ghost predicate IsOn(s: State, branch: string, oid: string, document: Committed) {
    && s.branch == branch && s.baseOid == oid && s.committed == document && Clean(s)
    && MapOf(s.shared) == MapOf(document.projection.states)
  }

  /** Every shell is as it was, but for what it is told about being behind. */
  ghost predicate ShellsTold(s: State, s': State) {
    && s'.shells.Keys == s.shells.Keys
    && forall id | id in s'.shells ::
         && s'.shells[id] == s.shells[id].(behind := s'.shells[id].behind, lastActiveRevision := s'.headRevision)
         && s'.shells[id].behind ==
            (s.shells[id].appliedRevision < s'.headRevision || s.shells[id].conflict.Some? ||
             !SameStates(s.shells[id].appliedBaseline, s'.shared))
  }

  /** A replacement keeps the settings, admissions and receipts. */
  ghost predicate Replaced(s: State, s': State, branch: string, oid: string, document: Committed) {
    && s'.materialized == s.materialized && IsOn(s', branch, oid, document) && ShellsTold(s, s')
    && s'.admitted == s.admitted && s'.autoApplyDefault == s.autoApplyDefault && s'.receipts == s.receipts
  }

  lemma RefreshedReplaced(s: State, s1: State, branch: string, oid: string, document: Committed)
    requires s1.shells == s.shells && s1.receipts == s.receipts && s1.admitted == s.admitted
    requires s1.materialized == s.materialized && s1.autoApplyDefault == s.autoApplyDefault
    requires s1.branch == branch && s1.baseOid == oid && s1.committed == document
    requires s1.shared == document.projection.states
    ensures Replaced(s, RefreshAll(s1), branch, oid, document)
  {
    hide MapOf, SameStates;
  }

  lemma AdvancedOnly(s: State, origin: Origin, changes: seq<LiveChange>, shared: seq<LiveState>)
    ensures var s' := Advanced(s, origin, changes, shared);
            && s'.shells == s.shells && s'.receipts == s.receipts && s'.admitted == s.admitted
            && s'.materialized == s.materialized && s'.autoApplyDefault == s.autoApplyDefault
            && s'.branch == s.branch && s'.baseOid == s.baseOid && s'.committed == s.committed && s'.shared == shared
  {
    hide Compact;
  }

  /** A replacement takes over the branch, the commit and the document, even where nothing shared changes. */
  lemma ReplacementTakesOver(policy: Policy, s: State, branch: string, oid: string, document: Committed,
                             operation: string)
    requires ReplaceStep(policy, s, branch, oid, document, operation).Ok?
    ensures Replaced(s, ReplaceStep(policy, s, branch, oid, document, operation).value, branch, oid, document)
  {
    var target := document.projection.states;
    var changes := DiffMaps(MapOf(s.shared), MapOf(target));
    var s1 := s.(branch := branch, baseOid := oid, committed := document, shared := target);
    hide RegistryReady, DiffMaps, MapOf, InBounds, AllValid, RefreshAll, Advanced, Replaced;
    AdvancedOnly(s1, WorkflowOrigin(operation), changes, target);
    RefreshedReplaced(s, s1, branch, oid, document);
    RefreshedReplaced(s, Advanced(s1, WorkflowOrigin(operation), changes, target), branch, oid, document);
  }

  /** What a replacement needs. */
  ghost predicate Replaceable(policy: Policy, s: State, branch: string, oid: string, document: Committed) {
    && InBounds(s.shared) && InBounds(document.projection.states) && AllValid(document.projection.states)
    && RegistryReady(policy, s.(branch := branch, baseOid := oid, committed := document,
                                shared := document.projection.states))
    && (s.headRevision < MAX_REVISION || MapOf(s.shared) == MapOf(document.projection.states))
  }

  lemma ReplaceOk(policy: Policy, s: State, branch: string, oid: string, document: Committed, operation: string)
    requires s.materialized && Structural(s)
    ensures ReplaceStep(policy, s, branch, oid, document, operation).Ok? <==>
              Replaceable(policy, s, branch, oid, document)
  {
    if AllValid(document.projection.states) {
      DiffFacts(s.shared, document.projection.states);
    }
    hide RegistryReady, DiffMaps, MapOf, InBounds, AllValid, RefreshAll, Advanced, ApplyEdits, ValidChanges, Structural;
  }

  // ---------------------------------------------------------------- repair

  /** A repair moves the base to the commit the reference is at, if its document is what is shared. */
  lemma RepairMoves(policy: Policy, s: State, g: Generations, reply: RefReply)
    requires Inv(s, g) && s.materialized && RepairStep(policy, s, reply).Ok?
    ensures reply.observed.Some?
    ensures var s' := RepairStep(policy, s, reply).value;
            && s'.baseOid == reply.observed.value && s' == s.(baseOid := s'.baseOid, committed := s'.committed)
            && (if reply.observed.value == s.baseOid then s' == s
                else reply.exact == Some(s'.committed) && ValidCommitted(s'.committed) && Clean(s'))
  {
    RepairKeeps(policy, s, g, reply);
    hide Inv, ValidOid, ValidCommitted, RegistryReady, MapOf, AllValid, InBounds;
  }

  // ---------------------------------------------------------------- checkout and reset

  /** Nothing is dirty and every shell is settled: no conflict, no unpublished delta, nothing pending. */
  ghost predicate MayLeave(s: State) {
    && s.materialized && Clean(s)
    && forall id | id in s.shells ::
         s.shells[id].conflict.None? && s.shells[id].unpublishedDelta == [] && s.shells[id].pending == NoPending
  }

  /**
   * A checkout leaves only a clean, settled worktree, and ends on exactly the branch, the commit
   * and the document it was asked for, with nothing dirty.
   */
  lemma CheckoutMoves(policy: Policy, s: State, g: Generations, branch: string, create: bool, current: RefReply,
                      created: bool, target: RefReply)
    requires Inv(s, g) && CheckoutStep(policy, s, branch, create, current, created, target).Ok?
    ensures MayLeave(s) && ValidBranch(branch) && (create ==> created)
    ensures target.observed.Some? && target.exact.Some? && ValidOid(target.observed.value)
    ensures Replaced(s, CheckoutStep(policy, s, branch, create, current, created, target).value, branch,
                     target.observed.value, target.exact.value)
  {
    CheckoutParts(policy, s, branch, create, current, created, target);
    InvStructural(s, g);
    CleanMeans(s);
    RepairMoves(policy, s, g, current);
    var s1 := RepairStep(policy, s, current).value;
    ReplacementTakesOver(policy, s1, branch, target.observed.value, target.exact.value, "checkout");
    var s' := ReplaceStep(policy, s1, branch, target.observed.value, target.exact.value, "checkout").value;
    SettledMeans(s);
    hide *;
    ReplacedFrom(s, s1, s', branch, target.observed.value, target.exact.value);
  }

  lemma SettledMeans(s: State)
    requires s.materialized && Clean(s)
    ensures MayLeave(s) <==> forall id | id in s.shells :: Settled(s.shells[id])
  {
    hide Clean;
  }

  lemma ReplacedFrom(s: State, s1: State, s': State, branch: string, oid: string, document: Committed)
    requires s1 == s.(baseOid := s1.baseOid, committed := s1.committed) && Replaced(s1, s', branch, oid, document)
    ensures Replaced(s, s', branch, oid, document)
  {
    hide IsOn, SameStates;
  }

  lemma InvStructural(s: State, g: Generations)
    requires Inv(s, g)
    ensures Structural(s)
  {
    hide Structural, EventsConnect, ShellCausal;
  }

  lemma CheckoutParts(policy: Policy, s: State, branch: string, create: bool, current: RefReply, created: bool,
                      target: RefReply)
    requires CheckoutStep(policy, s, branch, create, current, created, target).Ok?
    ensures ValidBranch(branch) && s.materialized && DirtyDecidable(s) && DirtyChanges(s) == [] && (create ==> created)
    ensures forall id | id in s.shells :: Settled(s.shells[id])
    ensures RepairStep(policy, s, current).Ok? && target.observed.Some? && ValidOid(target.observed.value)
    ensures target.exact.Some? && ValidCommitted(target.exact.value)
    ensures var s1 := RepairStep(policy, s, current).value;
            && ReplaceStep(policy, s1, branch, target.observed.value, target.exact.value, "checkout").Ok?
            && CheckoutStep(policy, s, branch, create, current, created, target) ==
               ReplaceStep(policy, s1, branch, target.observed.value, target.exact.value, "checkout")
  {
    hide ValidBranch, ValidOid, ValidCommitted, DirtyDecidable, DirtyChanges, RepairStep, ReplaceStep, Settled;
  }

  /** A dirty worktree is not left, whatever the repository answers. */
  lemma DirtyIsRefused(policy: Policy, s: State, g: Generations, branch: string, create: bool, current: RefReply,
                       created: bool, target: RefReply)
    requires Inv(s, g) && s.materialized && ValidBranch(branch) && DirtyDecidable(s)
    ensures !Clean(s) ==> CheckoutStep(policy, s, branch, create, current, created, target) == Err(Dirty)
    ensures Clean(s) && !MayLeave(s) ==>
              CheckoutStep(policy, s, branch, create, current, created, target) == Err(ConflictRequiresResolution)
  {
    InvStructural(s, g);
    CleanMeans(s);
    hide Inv, Structural, Clean, ValidBranch, DirtyDecidable, DirtyChanges, RepairStep, ReplaceStep;
  }

  /** A clean, settled worktree can be left whenever the repository answers well and the limits allow it. */
  lemma CheckoutSucceeds(policy: Policy, s: State, g: Generations, branch: string, create: bool, current: RefReply,
                         created: bool, oid: string, document: Committed)
    requires Inv(s, g) && MayLeave(s) && ValidBranch(branch) && DirtyDecidable(s) && (create ==> created)
    requires RepairStep(policy, s, current).Ok? && ValidOid(oid) && ValidCommitted(document)
    requires Replaceable(policy, RepairStep(policy, s, current).value, branch, oid, document)
    ensures CheckoutStep(policy, s, branch, create, current, created, RefReply(Some(oid), Some(document))).Ok?
  {
    MayLeaveMeans(s);
    InvStructural(s, g);
    CleanMeans(s);
    RepairKeeps(policy, s, g, current);
    RepairedStays(policy, s, current);
    InvStructural(RepairStep(policy, s, current).value, g);
    ReplaceOk(policy, RepairStep(policy, s, current).value, branch, oid, document, "checkout");
    SettledMeans(s);
    hide *;
    CheckoutOk(policy, s, branch, create, current, created, oid, document);
  }

  lemma MayLeaveMeans(s: State)
    requires MayLeave(s)
    ensures s.materialized && Clean(s)
  {
  }

  lemma RepairedStays(policy: Policy, s: State, reply: RefReply)
    requires s.materialized && RepairStep(policy, s, reply).Ok?
    ensures RepairStep(policy, s, reply).value.materialized
  {
    hide ValidOid, ValidCommitted, RegistryReady, SameStates;
  }

  lemma CheckoutOk(policy: Policy, s: State, branch: string, create: bool, current: RefReply, created: bool,
                   oid: string,
                   document: Committed)
    requires ValidBranch(branch) && s.materialized && DirtyDecidable(s) && DirtyChanges(s) == [] && (create ==> created)
    requires forall id | id in s.shells :: Settled(s.shells[id])
    requires RepairStep(policy, s, current).Ok? && ValidOid(oid) && ValidCommitted(document)
    requires ReplaceStep(policy, RepairStep(policy, s, current).value, branch, oid, document, "checkout").Ok?
    ensures CheckoutStep(policy, s, branch, create, current, created, RefReply(Some(oid), Some(document))).Ok?
  {
    hide ValidBranch, ValidOid, ValidCommitted, DirtyDecidable, DirtyChanges, RepairStep, ReplaceStep, Settled;
  }

  /** A reset keeps the branch and the commit and takes exactly the document, shared and committed. */
  lemma ResetTakes(policy: Policy, s: State, g: Generations, target: Option<Committed>)
    requires Inv(s, g)
    ensures ResetStep(policy, s, target).Ok? <==>
              && s.materialized && target.Some? && ValidCommitted(target.value)
              && Replaceable(policy, s, s.branch, s.baseOid, target.value)
    ensures ResetStep(policy, s, target).Ok? ==>
              Replaced(s, ResetStep(policy, s, target).value, s.branch, s.baseOid, target.value)
  {
    InvStructural(s, g);
    if s.materialized && target.Some? {
      ReplaceOk(policy, s, s.branch, s.baseOid, target.value, "reset");
      if ReplaceStep(policy, s, s.branch, s.baseOid, target.value, "reset").Ok? {
        ReplacementTakesOver(policy, s, s.branch, s.baseOid, target.value, "reset");
      }
    }
    hide Inv, Structural, ReplaceStep, ValidCommitted, Replaceable, Replaced;
  }

  // ---------------------------------------------------------------- materialization

  /**
   * The first materialization starts revision 1 on exactly the branch, commit and document it is
   * given, with no shell and no receipt; a later one changes nothing and must name the same.
   */
  lemma MaterializesOn(policy: Policy, s: State, branch: string, oid: string, committed: Committed)
    requires MaterializeStep(policy, s, branch, oid, committed).Ok?
    ensures var s' := MaterializeStep(policy, s, branch, oid, committed).value;
            if s.materialized then s' == s && s.branch == branch && s.baseOid == oid && s.committed == committed
            else
              && s'.materialized && s'.headRevision == 1 && IsOn(s', branch, oid, committed)
              && s'.shells == map[] && s'.receipts == [] && s'.admitted == [] && s'.autoApplyDefault
  {
    MaterializeParts(policy, s, branch, oid, committed);
    CandidateConnects(branch, oid, committed);
    hide MaterializeStep, EventsConnect, MapOf, DiffMaps, ApplyChanges;
  }

  lemma MaterializeParts(policy: Policy, s: State, branch: string, oid: string, committed: Committed)
    requires MaterializeStep(policy, s, branch, oid, committed).Ok?
    ensures AllValid(committed.projection.states)
    ensures MaterializeStep(policy, s, branch, oid, committed).value ==
            if s.materialized then s else Candidate(branch, oid, committed)
    ensures s.materialized ==> s.branch == branch && s.baseOid == oid && s.committed == committed
  {
    hide AllValid, InBounds, ValidState, Candidate, RegistryReady;
  }

  // ---------------------------------------------------------------- commit

  /** A commit gets as far as the repository: there is something to commit and the source still rebuilds it. */
  ghost predicate Committable(s: State, message: string) {
    && message != "" && NUL !in message && s.materialized && DirtyDecidable(s) && !Clean(s)
    && AllValid(s.committed.source.base) && InBounds(EffectiveStates(s.committed.source, DirtyChanges(s)))
    && AgreeOnClean(MapOf(s.committed.source.base), MapOf(s.committed.projection.states), MapOf(s.shared))
  }

  /** The repository committed, and what it reads back is the shared generation under a valid commit. */
  ghost predicate Confirmed(policy: Policy, s: State, reply: CommitReply) {
    && reply.result.committed && ValidOid(reply.result.oid) && reply.exact.Some? && ValidCommitted(reply.exact.value)
    && SameStates(reply.exact.value.projection.states, s.shared)
    && RegistryReady(policy, s.(baseOid := reply.result.oid, committed := reply.exact.value))
  }

  /** What a commit does with the answer of the repository. */
  ghost predicate Concludes(policy: Policy, s: State, reply: CommitReply, o: CommitOutcome) {
    if !reply.result.committed then
      o == CommitOutcome(s, reply.result, if reply.failed then Some(RepositoryFailure) else None)
    else if !Confirmed(policy, s, reply) then
      o == CommitOutcome(s, reply.result.(recoveryRequired := true), Some(RecoveryRequired))
    else
      && o.state == s.(baseOid := reply.result.oid, committed := reply.exact.value) && o.result == reply.result
      && Clean(o.state)
      && o.error == (if reply.result.recoveryRequired then Some(RecoveryRequired)
                     else if reply.failed then Some(RepositoryFailure) else None)
  }

  lemma ConfirmedClean(policy: Policy, s: State, reply: CommitReply)
    requires Confirmed(policy, s, reply)
    ensures Clean(s.(baseOid := reply.result.oid, committed := reply.exact.value))
  {
    hide MapOf, ValidOid, ValidCommitted, RegistryReady, AllValid, InBounds;
  }

  lemma CommitCases(policy: Policy, s: State, message: string, reply: CommitReply)
    requires s.materialized ==> (DirtyChanges(s) == [] <==> Clean(s))
    requires s.materialized && DirtyDecidable(s) && AllValid(s.committed.source.base) ==>
               (SameStates(EffectiveStates(s.committed.source, DirtyChanges(s)), s.shared) <==>
                  && InBounds(EffectiveStates(s.committed.source, DirtyChanges(s)))
                  && AgreeOnClean(MapOf(s.committed.source.base), MapOf(s.committed.projection.states),
                                  MapOf(s.shared)))
    ensures Committable(s, message) ==> Concludes(policy, s, reply, CommitStep(policy, s, message, reply))
    ensures !Committable(s, message) ==>
              CommitStep(policy, s, message, reply).state == s &&
                !CommitStep(policy, s, message, reply).result.committed
    ensures message != "" && NUL !in message && s.materialized && DirtyDecidable(s) && Clean(s) ==>
              CommitStep(policy, s, message, reply) == CommitOutcome(s, NOTHING_COMMITTED, None)
  {
    if Confirmed(policy, s, reply) {
      ConfirmedClean(policy, s, reply);
    }
    hide MapOf, ValidOid, ValidCommitted, RegistryReady, AllValid, InBounds, SameStates, EffectiveStates,
         DirtyChanges, AgreeOnClean, Clean, DirtyDecidable;
  }

  /**
   * A commit stores exactly what the repository confirmed, and nothing else ever changes the state:
   * it asks the repository only when there is something to commit that the source still rebuilds.
   */
  lemma CommitConcludes(policy: Policy, s: State, g: Generations, message: string, reply: CommitReply)
    requires Inv(s, g)
    ensures Committable(s, message) ==> Concludes(policy, s, reply, CommitStep(policy, s, message, reply))
    ensures !Committable(s, message) ==>
              CommitStep(policy, s, message, reply).state == s &&
                !CommitStep(policy, s, message, reply).result.committed
    ensures message != "" && NUL !in message && s.materialized && DirtyDecidable(s) && Clean(s) ==>
              CommitStep(policy, s, message, reply) == CommitOutcome(s, NOTHING_COMMITTED, None)
  {
    InvStructural(s, g);
    if s.materialized {
      CleanMeans(s);
      DecidableMeans(s);
      if AllValid(s.committed.source.base) {
        RebuildMatches(s);
      }
    }
    hide *;
    CommitCases(policy, s, message, reply);
  }

  lemma DecidableMeans(s: State)
    ensures DirtyDecidable(s) ==> InBounds(s.shared)
  {
    hide InBounds;
  }

  /** A repair succeeds exactly if the reference did not move, or moved to a commit of what is shared. */
  lemma RepairSucceeds(policy: Policy, s: State, reply: RefReply)
    ensures RepairStep(policy, s, reply).Ok? <==>
              && reply.observed.Some?
              && (reply.observed.value == s.baseOid ||
                  (&& ValidOid(reply.observed.value) && reply.exact.Some? && ValidCommitted(reply.exact.value)
                   && SameStates(reply.exact.value.projection.states, s.shared)
                   && RegistryReady(policy, s.(baseOid := reply.observed.value, committed := reply.exact.value))))
  {
    hide ValidOid, ValidCommitted, RegistryReady, SameStates;
  }
}
