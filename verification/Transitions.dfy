/**
 * The table of legal shell transitions (core/worktree/state.go) against the transitions that the
 * service makes. The service never consults the table.
 */
module Transitions {
  import opened Wrappers
  import opened Live
  import opened Diff
  import opened Fingerprint
  import opened State
  import opened Registry
  import opened Steps
  import opened Protocol
  import opened Preservation
  import opened Keeps
  import opened Runs
  import opened Replay

  /** IsLegalShellTransition; a shell that is not attached yet has no transition. */
  predicate Legal(from: Option<Transition>, to: Transition) {
    match from
    case None => to == Attaching
    case Some(Attaching) => to == Capturing || to == Preparing
    case Some(Capturing) => to == Publishing || to == Unpublished || to == Preparing
    case Some(Unpublished) => to == Publishing || to == Resolving
    case Some(Publishing) => to == Capturing || to == Preparing
    case Some(Preparing) => to == Applying
    case Some(Resolving) => to == Applying
    case Some(Applying) => to == FreshCapture
    case Some(FreshCapture) => to == Transition.Acknowledging
    case Some(Acknowledging) => to == Capturing || to == Preparing
  }

  function Standing(s: State, id: string): Option<Transition> {
    if id in s.shells then Some(s.shells[id].transition) else None
  }

  /** The transition of a shell tells its conflict and its pending work, and is one that the service sets. */
  predicate Tells(shell: Shell) {
    && (shell.transition == Unpublished <==> shell.conflict.Some? && shell.pending.NoPending?)
    && (shell.transition == Preparing <==> shell.pending.Pull?)
    && (shell.transition == Resolving <==> shell.pending.Resolution?)
    && (shell.pending.Pull? ==> shell.conflict.None?)
    && shell.transition != Capturing && shell.transition != Applying && shell.transition != FreshCapture
  }

  ghost predicate AllTell(s: State) { forall id | id in s.shells :: Tells(s.shells[id]) }

  /** A successful operation sets the transition of its caller: it is not a replay, nor an empty pull. */
  ghost predicate Moves(policy: Policy, s: State, op: Op)
    requires Callback(policy, s, op).Some?
  {
    match op
    case DoAttach(r) => r.credential.shellId !in s.shells
    case DoPublish(r) => ReceiptFor(s.receipts, r.credential.shellId, r.operationId).None?
    case DoPrepare(r) =>
      ReceiptFor(s.receipts, r.credential.shellId, r.operationId).None? &&
      PrepareStep(s, r).value.reply != Prepared(0, NoToken, [])
    case DoResolve(r) => ReceiptFor(s.receipts, r.credential.shellId, r.operationId).None?
    case DoAcknowledge(r) => ReceiptFor(s.receipts, r.credential.shellId, r.operationId).None?
    case _ => false
  }

  // ---------------------------------------------------------------- the caller's own shell

  /** What an operation does to its caller: it sets the transition, along a legal edge or not, or leaves it alone. */
  ghost predicate Goes(s: State, s': State, id: string, sets: bool, legal: bool) {
    && id in s'.shells && Tells(s'.shells[id])
    && (if sets then Legal(Standing(s, id), s'.shells[id].transition) <==> legal
        else id in s.shells && s'.shells[id].transition == s.shells[id].transition)
  }

  lemma GoesTo(s: State, s': State, id: string, shell: Shell, legal: bool)
    requires id in s'.shells && s'.shells[id] == shell && Tells(shell)
    requires Legal(Standing(s, id), shell.transition) <==> legal
    ensures Goes(s, s', id, true, legal)
  {
  }

  lemma Stays(s: State, s': State, id: string, legal: bool)
    requires AllTell(s) && id in s.shells && s'.shells == s.shells
    ensures Goes(s, s', id, false, legal)
  {
  }

  lemma RecordedReply(s: State, credential: Credential, operationId: string, digest: RequestDigest, shell: Shell,
                      reply: Reply)
    ensures var step := Recorded(s, credential, operationId, digest, shell, reply);
            && credential.shellId in step.state.shells && step.state.shells[credential.shellId] == shell
            && step.reply == reply
  {
  }

  lemma AttachGoes(policy: Policy, s: State, r: AttachRequest)
    requires AttachStep(policy, s, r).Ok? && AllTell(s)
    ensures Goes(s, AttachStep(policy, s, r).value.state, r.credential.shellId, r.credential.shellId !in s.shells, true)
  {
    AttachIs(policy, s, r);
    var id, s' := r.credential.shellId, AttachStep(policy, s, r).value.state;
    if id in s.shells {
      Stays(s, s', id, true);
    } else {
      var shell := NewShell(policy, s, r);
      NewShellTells(policy, s, r);
      hide NewShell, AttachStep, Recorded, Tells, Goes, AllTell;
      RecordedReply(s, r.credential, r.operationId, AttachDigest(r.initial.byteSize, r.initial.states), shell,
                    Attached(s.headRevision, shell.attachState == CleanReconcile, shell.exclusions));
      GoesTo(s, s', id, shell, true);
    }
  }

  lemma NewShellTells(policy: Policy, s: State, r: AttachRequest)
    ensures Tells(NewShell(policy, s, r)) && NewShell(policy, s, r).transition == Attaching
  {
    hide AttachBaseline, AttachExclusions, SameStates, RegistryOf;
  }

  /** The publishing shell after the split tells its conflict, if any. */
  lemma PublishedTells(shell: Shell, head: nat, observed: seq<LiveState>, losing: seq<LiveChange>,
                       conflicts: seq<Conflict>)
    requires |conflicts| == |losing| && shell.conflict.None? && shell.pending.NoPending?
    ensures var published := PublishedShell(shell, head, observed, losing, conflicts);
            Tells(published) && (published.transition == Unpublished || published.transition == Publishing)
  {
  }

  lemma MergeMoves(s: State, request: PublishRequest, shell: Shell, observed: seq<LiveState>, semantic: seq<LiveChange>)
    requires Merge(s, request, shell, observed, semantic).Ok? && shell.conflict.None? && shell.pending.NoPending?
    ensures var s' := Merge(s, request, shell, observed, semantic).value.state;
            var id := request.credential.shellId;
            && id in s'.shells && Tells(s'.shells[id])
            && (s'.shells[id].transition == Unpublished || s'.shells[id].transition == Publishing)
  {
    MergeIs(s, request, shell, observed, semantic);
    var s1 := Generation(s, request, semantic);
    var losing := Losing(s, request.acknowledgedRevision, semantic);
    var kind := if request.acknowledgedRevision < s.compactionFloor then HistoryGap else Overlap;
    var digest := PublishDigest(request.acknowledgedRevision, request.delta);
    var conflicts := ConflictsOf(losing, kind, request.acknowledgedRevision, s1.headRevision,
                                 ConflictToken(request.operationId, digest, s1.headRevision));
    hide Merge, Generation, Losing, Accepted, WithReceipt, Tells, PublishedShell, ConflictsOf;
    PublishedTells(shell, s1.headRevision, observed, losing, conflicts);
  }

  lemma PublishGoes(policy: Policy, s: State, r: PublishRequest)
    requires PublishStep(policy, s, r).Ok? && AllTell(s)
    ensures Goes(s, PublishStep(policy, s, r).value.state, r.credential.shellId,
                 ReceiptFor(s.receipts, r.credential.shellId, r.operationId).None?, false)
  {
    PublishIs(policy, s, r);
    var id, s' := r.credential.shellId, PublishStep(policy, s, r).value.state;
    var shell := s.shells[id];
    assert Tells(shell);
    hide PublishStep, Merge, ApplyChanges, DiffMaps, FilterChanges, MapOf, ReceiptFor, Goes, AllTell;
    if ReceiptFor(s.receipts, id, r.operationId).Some? {
      Stays(s, s', id, false);
    } else {
      var filtered := FilterChanges(policy, s, shell, r.delta).value;
      var observed := ApplyChanges(shell.captureBaseline, filtered.kept);
      MergeMoves(s.(admitted := filtered.admitted), r, shell, observed,
                 DiffMaps(MapOf(shell.captureBaseline), MapOf(observed)));
      GoesTo(s, s', id, s'.shells[id], false);
    }
  }

  lemma PulledTells(shell: Shell, s: State, applied: nat, token: Token, changes: seq<LiveChange>)
    requires Tells(shell) && shell.pending.NoPending? && shell.conflict.None?
    ensures Tells(Reported(shell, applied).(lastActiveRevision := s.headRevision))
    ensures Reported(shell, applied).transition == shell.transition && Legal(Some(shell.transition), Preparing)
    ensures var pulled := Pulled(Reported(shell, applied), s, token, changes);
            Tells(pulled) && pulled.transition == Preparing
  {
    hide FingerprintOf;
  }

  lemma PrepareGoes(s: State, r: PrepareRequest)
    requires PrepareStep(s, r).Ok? && AllTell(s) && s.headRevision > 0
    ensures Goes(s, PrepareStep(s, r).value.state, r.credential.shellId,
                 ReceiptFor(s.receipts, r.credential.shellId, r.operationId).None? &&
                 PrepareStep(s, r).value.reply != Prepared(0, NoToken, []), true)
  {
    PrepareIs(s, r);
    var id, s' := r.credential.shellId, PrepareStep(s, r).value.state;
    var prior := s.shells[id];
    assert Tells(prior);
    hide PrepareStep, DiffMaps, MapOf, ReceiptFor, Goes, AllTell, Tells, Pulled, Reported, Recorded, Legal;
    if ReceiptFor(s.receipts, id, r.operationId).Some? {
      Stays(s, s', id, true);
    } else {
      var changes := DiffMaps(MapOf(prior.captureBaseline), MapOf(s.shared));
      var digest := PrepareDigest(r.appliedRevision);
      var token := PullToken(r.operationId, digest, s.headRevision);
      var shell := Reported(prior, r.appliedRevision);
      PulledTells(prior, s, r.appliedRevision, token, changes);
      if PrepareStep(s, r).value == Recorded(s, r.credential, r.operationId, digest,
                                             shell.(lastActiveRevision := s.headRevision), Prepared(0, NoToken, [])) {
        RecordedReply(s, r.credential, r.operationId, digest, shell.(lastActiveRevision := s.headRevision),
                      Prepared(0, NoToken, []));
        GoesNowhere(s, s', id, shell.(lastActiveRevision := s.headRevision));
      } else {
        RecordedReply(s, r.credential, r.operationId, digest, Pulled(shell, s, token, changes),
                      Prepared(s.headRevision, token, changes));
        GoesTo(s, s', id, Pulled(shell, s, token, changes), true);
      }
    }
  }

  lemma GoesNowhere(s: State, s': State, id: string, shell: Shell)
    requires id in s.shells && id in s'.shells && s'.shells[id] == shell && Tells(shell)
    requires shell.transition == s.shells[id].transition
    ensures Goes(s, s', id, false, true)
  {
  }

  lemma ResolvingTells(shell: Shell, s: State, request: ResolveRequest, changes: seq<LiveChange>)
    requires Resolvable(shell, request) && Tells(shell)
    ensures shell.transition == Unpublished
    ensures var resolving := ResolvingShell(shell, s, request.token, request.conflict, changes);
            Tells(resolving) && resolving.transition == Resolving
  {
    hide FingerprintOf;
  }

  lemma ResolveGoes(policy: Policy, s: State, r: ResolveRequest)
    requires ResolveStep(policy, s, r).Ok? && AllTell(s)
    ensures Goes(s, ResolveStep(policy, s, r).value.state, r.credential.shellId,
                 ReceiptFor(s.receipts, r.credential.shellId, r.operationId).None?, true)
  {
    ResolveIs(policy, s, r);
    var id, s' := r.credential.shellId, ResolveStep(policy, s, r).value.state;
    var shell := s.shells[id];
    assert Tells(shell);
    var filtered := FilterSnapshot(policy, s, shell, r.snapshot.states).value;
    var changes := DiffMaps(MapOf(filtered.kept), MapOf(s.shared));
    hide ResolveStep, DiffMaps, MapOf, ReceiptFor, FilterSnapshot, FingerprintOf, Recorded, ResolvingShell,
         Resolvable, Tells, Goes, AllTell;
    if ReceiptFor(s.receipts, id, r.operationId).Some? {
      Stays(s, s', id, true);
    } else {
      ResolvingTells(shell, s, r, changes);
      RecordedReply(s.(admitted := filtered.admitted), r.credential, r.operationId,
                    ResolveDigest(r.conflict, r.token, filtered.kept),
                    ResolvingShell(shell, s, r.token, r.conflict, changes), Resolved(s.headRevision, r.token, changes));
      GoesTo(s, s', id, ResolvingShell(shell, s, r.token, r.conflict, changes), true);
    }
  }

  lemma AcknowledgedTells(shell: Shell, head: nat, observed: seq<LiveState>)
    requires !shell.pending.NoPending? && Tells(shell)
    ensures shell.transition == Preparing || shell.transition == Resolving
    ensures var acknowledged := AcknowledgedShell(shell, head, observed);
            Tells(acknowledged) && acknowledged.transition == Transition.Acknowledging
  {
  }

  lemma AcknowledgeGoes(policy: Policy, s: State, r: AcknowledgeRequest)
    requires AcknowledgeStep(policy, s, r).Ok? && AllTell(s)
    ensures Goes(s, AcknowledgeStep(policy, s, r).value.state, r.credential.shellId,
                 ReceiptFor(s.receipts, r.credential.shellId, r.operationId).None?, false)
  {
    AcknowledgeIs(policy, s, r);
    var id, s' := r.credential.shellId, AcknowledgeStep(policy, s, r).value.state;
    var shell := s.shells[id];
    assert Tells(shell);
    var filtered := FilterSnapshot(policy, s, shell, r.snapshot.states).value;
    hide AcknowledgeStep, ReceiptFor, FingerprintOf, FilterSnapshot, Recorded, AcknowledgedShell, Tells, Pends, Goes,
         AllTell;
    if ReceiptFor(s.receipts, id, r.operationId).Some? {
      Stays(s, s', id, false);
    } else {
      AcknowledgedTells(shell, s.headRevision, filtered.kept);
      RecordedReply(s.(admitted := filtered.admitted), r.credential, r.operationId,
                    AcknowledgeDigest(r.revision, r.token, filtered.kept),
                    AcknowledgedShell(shell, s.headRevision, filtered.kept),
                    Reply.Acknowledged(shell.pending.revision));
      GoesTo(s, s', id, AcknowledgedShell(shell, s.headRevision, filtered.kept), false);
    }
  }

  /** The operations whose edges the table has. */
  predicate Tabled(op: Op) { op.DoAttach? || op.DoPrepare? || op.DoResolve? }

  lemma CallerGoes(policy: Policy, s: State, op: Op)
    requires s.materialized && s.headRevision > 0 && AllTell(s) && Callback(policy, s, op).Some? && Caller(op).Some?
    ensures Goes(s, Callback(policy, s, op).value, Caller(op).value, Moves(policy, s, op), Tabled(op))
  {
    hide Goes, AllTell, AttachStep, PublishStep, PrepareStep, ResolveStep, AcknowledgeStep, ReceiptFor;
    match op
    case DoAttach(r) => AttachGoes(policy, s, r);
    case DoPublish(r) => PublishGoes(policy, s, r);
    case DoPrepare(r) => PrepareGoes(s, r);
    case DoResolve(r) => ResolveGoes(policy, s, r);
    case DoAcknowledge(r) => AcknowledgeGoes(policy, s, r);
  }

  lemma HeadPositive(s: State, g: Generations)
    requires Inv(s, g) && s.materialized
    ensures s.headRevision > 0
  {
  }

  // ---------------------------------------------------------------- every step and every run

  /** Every operation changes the transition of no shell but its caller, and of that one only when it moves it. */
  lemma OthersStay(policy: Policy, s: State, g: Generations, op: Op, id: string)
    requires Inv(s, g) && s.materialized && AllTell(s) && Callback(policy, s, op).Some?
    requires id in s.shells && (Caller(op) != Some(id) || !Moves(policy, s, op))
    ensures var s' := Callback(policy, s, op).value;
            id in s'.shells && s'.shells[id].transition == s.shells[id].transition
  {
    HeadPositive(s, g);
    if Caller(op) == Some(id) {
      CallerGoes(policy, s, op);
      hide *;
      GoneNowhere(s, Callback(policy, s, op).value, id, Tabled(op));
    } else {
      EveryOperationIsLocal(policy, s, g, op);
      hide *;
      LocalStays(s, Callback(policy, s, op).value, Caller(op), id);
    }
  }

  lemma GoneNowhere(s: State, s': State, id: string, legal: bool)
    requires Goes(s, s', id, false, legal)
    ensures id in s.shells && id in s'.shells && s'.shells[id].transition == s.shells[id].transition
  {
    hide Tells;
  }

  lemma LocalStays(s: State, s': State, caller: Option<string>, id: string)
    requires Local(s, s', caller) && id in s.shells && caller != Some(id)
    ensures id in s'.shells && s'.shells[id].transition == s.shells[id].transition
  {
    hide Adds;
  }

  lemma StepTells(policy: Policy, s: State, g: Generations, op: Op)
    requires Inv(s, g) && AllTell(s) && Callback(policy, s, op).Some?
    ensures AllTell(Callback(policy, s, op).value)
  {
    var s' := Callback(policy, s, op).value;
    if s.materialized {
      HeadPositive(s, g);
      EveryOperationIsLocal(policy, s, g, op);
      if Caller(op).Some? {
        CallerGoes(policy, s, op);
      }
      hide Inv, Callback, Adds, Moves, Tells;
      forall id | id in s'.shells
        ensures Tells(s'.shells[id])
      {
        if Caller(op) != Some(id) {
          UntouchedTells(s.shells[id], s'.shells[id]);
        }
      }
    } else {
      NothingToTell(policy, s, op);
    }
  }

  lemma UntouchedTells(shell: Shell, shell': Shell)
    requires Untouched(shell, shell') && Tells(shell)
    ensures Tells(shell')
  {
  }

  lemma NothingToTell(policy: Policy, s: State, op: Op)
    requires !s.materialized && s.shells == map[] && Callback(policy, s, op).Some?
    ensures Callback(policy, s, op).value.shells == map[]
  {
    hide ValidState, RegistryReady, DiffMaps, AllValid, InBounds;
  }

  /** In every reachable state the transition of a shell is exactly what its conflict and pending work say. */
  lemma {:induction false} TransitionsTell(policy: Policy, ops: seq<Op>)
    ensures AllTell(Run(policy, ops))
  {
    if ops != [] {
      var before, op := ops[..|ops| - 1], ops[|ops| - 1];
      var s := Run(policy, before);
      TransitionsTell(policy, before);
      RunKeeps(policy, before);
      hide Inv, Callback, AllTell, ValidState;
      if Callback(policy, s, op).Some? {
        StepTells(policy, s, RunHistory(policy, before), op);
      }
    }
  }

  /**
   * The table is kept by attaches, pulls and resolutions and broken by everything else: in every
   * run an operation that moves its shell follows a legal edge if and only if it is one of these.
   * Every publish and every acknowledgement breaks the table.
   */
  lemma LegalExactly(policy: Policy, ops: seq<Op>, op: Op)
    requires Callback(policy, Run(policy, ops), op).Some? && ValidState(Callback(policy, Run(policy, ops), op).value)
    requires Moves(policy, Run(policy, ops), op)
    ensures Caller(op).Some? && Standing(Run(policy, ops + [op]), Caller(op).value).Some?
    ensures Legal(Standing(Run(policy, ops), Caller(op).value),
                  Standing(Run(policy, ops + [op]), Caller(op).value).value) <==>
              op.DoAttach? || op.DoPrepare? || op.DoResolve?
  {
    var s := Run(policy, ops);
    MovesMaterialized(policy, s, op);
    TransitionsTell(policy, ops);
    RunKeeps(policy, ops);
    RunStored(policy, ops, op);
    HeadPositive(s, RunHistory(policy, ops));
    CallerGoes(policy, s, op);
    hide *;
    GoneTo(s, Callback(policy, s, op).value, Caller(op).value, op);
  }

  lemma GoneTo(s: State, s': State, id: string, op: Op)
    requires Goes(s, s', id, true, Tabled(op))
    ensures Standing(s', id).Some?
    ensures Legal(Standing(s, id), Standing(s', id).value) <==> op.DoAttach? || op.DoPrepare? || op.DoResolve?
  {
    hide Legal, Tells;
  }

  lemma RunStored(policy: Policy, ops: seq<Op>, op: Op)
    requires Callback(policy, Run(policy, ops), op).Some? && ValidState(Callback(policy, Run(policy, ops), op).value)
    ensures Run(policy, ops + [op]) == Callback(policy, Run(policy, ops), op).value
  {
    hide Callback, ValidState;
    assert (ops + [op])[..|ops|] == ops;
  }

  lemma MovesMaterialized(policy: Policy, s: State, op: Op)
    requires Callback(policy, s, op).Some? && Moves(policy, s, op)
    ensures s.materialized && Caller(op).Some?
  {
    hide AttachStep, PublishStep, PrepareStep, ResolveStep, AcknowledgeStep, ReceiptFor;
    match op
    case DoAttach(r) => AttachIs(policy, s, r);
    case DoPublish(r) => PublishIs(policy, s, r);
    case DoPrepare(r) => PrepareIs(s, r);
    case DoResolve(r) => ResolveIs(policy, s, r);
    case DoAcknowledge(r) => AcknowledgeIs(policy, s, r);
    case _ =>
  }
}
