/**
 * Whom the service answers, and what a used operation ID answers: a shell only under the
 * capability it attached with, and a recorded operation only to a repetition of its own request.
 */
module Requests {
  import opened Wrappers
  import opened Live
  import opened Diff
  import opened Fingerprint
  import opened State
  import opened Registry
  import opened Steps
  import opened Protocol
  import opened Runs
  import opened Replay
  import opened Attaches
  import opened Pulls

  function CredentialOf(op: Op): Option<Credential> {
    match op
    case DoAttach(r) => Some(r.credential)
    case DoPublish(r) => Some(r.credential)
    case DoPrepare(r) => Some(r.credential)
    case DoResolve(r) => Some(r.credential)
    case DoAcknowledge(r) => Some(r.credential)
    case _ => None
  }

  function OperationOf(op: Op): string {
    match op
    case DoAttach(r) => r.operationId
    case DoPublish(r) => r.operationId
    case DoPrepare(r) => r.operationId
    case DoResolve(r) => r.operationId
    case DoAcknowledge(r) => r.operationId
    case _ => ""
  }

  // ---------------------------------------------------------------- capabilities

  lemma CapabilityChecked(policy: Policy, s: State, op: Op)
    requires CredentialOf(op).Some? && CredentialOf(op).value.shellId in s.shells && Callback(policy, s, op).Some?
    ensures var c := CredentialOf(op).value; s.shells[c.shellId].verifier == VerifierOf(c.capability)
  {
    hide CheckPrivate, ValidSnapshot, ValidChanges, ReceiptFor, RegistryReady, FilterChanges, FilterSnapshot, Merge,
         Recorded, NewShell, ValidIdentity, UsableToken, Resolvable, Pends, Backed, FingerprintOf, InBounds, MapOf,
         DiffMaps, AcknowledgedShell, Reported;
  }

  /**
   * Over every run a request for an attached shell succeeds only under the capability that the
   * shell attached with, whatever any request between them carried.
   */
  lemma OnlyItsOwnCapability(policy: Policy, ops: seq<Op>, k: nat, attach: AttachRequest, op: Op)
    requires k < |ops| && ops[k] == DoAttach(attach)
    requires attach.credential.shellId !in Run(policy, ops[..k]).shells
    requires attach.credential.shellId in Run(policy, ops[..k + 1]).shells
    requires CredentialOf(op).Some? && CredentialOf(op).value.shellId == attach.credential.shellId
    requires Callback(policy, Run(policy, ops), op).Some?
    ensures CredentialOf(op) == Some(attach.credential)
  {
    RunStep(policy, ops, k);
    AttachVerifier(policy, Run(policy, ops[..k]), attach);
    OriginForGood(policy, ops, k + 1, attach.credential.shellId);
    CapabilityChecked(policy, Run(policy, ops), op);
    hide Run, Callback, Next;
  }

  lemma AttachVerifier(policy: Policy, s: State, attach: AttachRequest)
    requires attach.credential.shellId !in s.shells
    requires attach.credential.shellId in Next(policy, s, DoAttach(attach)).shells
    ensures Next(policy, s, DoAttach(attach)).shells[attach.credential.shellId].verifier ==
            VerifierOf(attach.credential.capability)
  {
    AttachRecords(policy, s, attach);
    hide AttachStep, Records, ValidState;
  }

  // ---------------------------------------------------------------- used operation IDs

  /** The operation is a repetition of the request a receipt was given for. */
  ghost predicate Repeats(policy: Policy, s: State, op: Op, receipt: Receipt) {
    match op
    case DoAttach(r) => receipt.digest == AttachDigest(r.initial.byteSize, r.initial.states) && receipt.reply.Attached?
    case DoPublish(r) => receipt.digest == PublishDigest(r.acknowledgedRevision, r.delta) && receipt.reply.Published?
    case DoPrepare(r) => receipt.digest == PrepareDigest(r.appliedRevision) && receipt.reply.Prepared?
    case DoResolve(r) =>
      && receipt.digest.ResolveDigest? && receipt.digest.conflict == r.conflict && receipt.digest.token == r.token
      && receipt.reply.Resolved? && Kept(policy, s, r.credential.shellId, r.snapshot, receipt.digest.observed)
    case DoAcknowledge(r) =>
      && receipt.digest.AcknowledgeDigest? && receipt.digest.revision == r.revision && receipt.digest.token == r.token
      && receipt.reply.Acknowledged? && Kept(policy, s, r.credential.shellId, r.snapshot, receipt.digest.observed)
    case _ => false
  }

  /** What counted of the observation is what counts of this snapshot. */
  ghost predicate Kept(policy: Policy, s: State, shellId: string, snapshot: LiveSnapshot, observed: seq<LiveState>) {
    shellId in s.shells && Observes(policy, s, s.shells[shellId], MapOf(snapshot.states), MapOf(observed))
  }

  /** A used operation ID answers nothing but a repetition, with the recorded reply, and shares nothing. */
  lemma UsedIdAnswersOnlyItself(policy: Policy, s: State, g: Generations, op: Op, receipt: Receipt)
    requires Inv(s, g) && CredentialOf(op).Some? && CredentialOf(op).value.shellId in s.shells
    requires ReceiptFor(s.receipts, CredentialOf(op).value.shellId, OperationOf(op)) == Some(receipt)
    requires Callback(policy, s, op).Some?
    ensures Repeats(policy, s, op, receipt)
    ensures Callback(policy, s, op).value == s.(admitted := Callback(policy, s, op).value.admitted)
    ensures op.DoAttach? || op.DoPublish? || op.DoPrepare? ==> Callback(policy, s, op).value == s
  {
    match op {
      case DoAttach(r) => AttachGuarded(policy, s, r, receipt);
      case DoPublish(r) => PublishGuarded(policy, s, r, receipt);
      case DoPrepare(r) => PrepareGuarded(s, r, receipt);
      case DoResolve(r) => ResolveGuarded(policy, s, g, r, receipt);
      case DoAcknowledge(r) => AcknowledgeGuarded(policy, s, g, r, receipt);
    }
    hide Inv, Kept, AttachStep, PublishStep, PrepareStep, ResolveStep, AcknowledgeStep, ReceiptFor;
  }

  lemma AttachGuarded(policy: Policy, s: State, r: AttachRequest, receipt: Receipt)
    requires r.credential.shellId in s.shells && AttachStep(policy, s, r).Ok?
    requires ReceiptFor(s.receipts, r.credential.shellId, r.operationId) == Some(receipt)
    ensures AttachStep(policy, s, r) == Ok(Step(s, receipt.reply)) && Repeats(policy, s, DoAttach(r), receipt)
  {
    hide CheckPrivate, ReceiptFor, RegistryReady, ValidSnapshot, NewShell;
  }

  lemma PublishGuarded(policy: Policy, s: State, r: PublishRequest, receipt: Receipt)
    requires PublishStep(policy, s, r).Ok?
    requires ReceiptFor(s.receipts, r.credential.shellId, r.operationId) == Some(receipt)
    ensures PublishStep(policy, s, r) == Ok(Step(s, receipt.reply)) && Repeats(policy, s, DoPublish(r), receipt)
  {
    hide CheckPrivate, ReceiptFor, RegistryReady, ValidChanges, FilterChanges, Merge;
  }

  lemma PrepareGuarded(s: State, r: PrepareRequest, receipt: Receipt)
    requires PrepareStep(s, r).Ok?
    requires ReceiptFor(s.receipts, r.credential.shellId, r.operationId) == Some(receipt)
    ensures PrepareStep(s, r) == Ok(Step(s, receipt.reply))
    ensures receipt.digest == PrepareDigest(r.appliedRevision) && receipt.reply.Prepared?
  {
    hide CheckPrivate, ReceiptFor, Recorded, Reported, InBounds;
  }

  lemma ResolveGuarded(policy: Policy, s: State, g: Generations, r: ResolveRequest, receipt: Receipt)
    requires Inv(s, g) && ResolveStep(policy, s, r).Ok?
    requires ReceiptFor(s.receipts, r.credential.shellId, r.operationId) == Some(receipt)
    ensures var step := ResolveStep(policy, s, r).value;
            && step == Step(s.(admitted := step.state.admitted), receipt.reply)
            && Repeats(policy, s, DoResolve(r), receipt)
  {
    hide Inv, Kept, CheckPrivate, ReceiptFor, RegistryReady, ValidSnapshot, ValidIdentity, UsableToken,
         FilterSnapshot, Recorded, Resolvable, InBounds, FingerprintOf;
    if r.credential.shellId in s.shells {
      ObservationKept(policy, s, g, r.credential, r.snapshot);
    }
  }

  lemma AcknowledgeGuarded(policy: Policy, s: State, g: Generations, r: AcknowledgeRequest, receipt: Receipt)
    requires Inv(s, g) && AcknowledgeStep(policy, s, r).Ok?
    requires ReceiptFor(s.receipts, r.credential.shellId, r.operationId) == Some(receipt)
    ensures var step := AcknowledgeStep(policy, s, r).value;
            && step == Step(s.(admitted := step.state.admitted), receipt.reply)
            && Repeats(policy, s, DoAcknowledge(r), receipt)
  {
    hide Inv, Kept, CheckPrivate, ReceiptFor, RegistryReady, ValidSnapshot, UsableToken, FilterSnapshot, Recorded,
         Pends, Backed, InBounds, FingerprintOf, AcknowledgedShell;
    if r.credential.shellId in s.shells {
      ObservationKept(policy, s, g, r.credential, r.snapshot);
    }
  }

  lemma ObservationKept(policy: Policy, s: State, g: Generations, c: Credential, snapshot: LiveSnapshot)
    requires Inv(s, g) && c.shellId in s.shells
    ensures ValidSnapshot(snapshot) && s.materialized &&
            FilterSnapshot(policy, s, s.shells[c.shellId], snapshot.states).Some? ==>
              Kept(policy, s, c.shellId, snapshot,
                   FilterSnapshot(policy, s, s.shells[c.shellId], snapshot.states).value.kept)
  {
    if ValidSnapshot(snapshot) && s.materialized &&
       FilterSnapshot(policy, s, s.shells[c.shellId], snapshot.states).Some? {
      InvAdmits(s, g);
      SnapshotValid(snapshot);
      hide Inv;
      FilteredObserves(policy, s, s.shells[c.shellId], snapshot.states);
    }
  }

  lemma InvAdmits(s: State, g: Generations)
    requires Inv(s, g) && s.materialized
    ensures CanonicalAdmitted(s.admitted)
  {
  }

  lemma SnapshotValid(snapshot: LiveSnapshot)
    requires ValidSnapshot(snapshot)
    ensures AllValid(snapshot.states)
  {
  }

  /**
   * Once a receipt is recorded, then through any run in which its shell adds fewer than 64 more,
   * its operation ID answers nothing but a repetition of the recorded request.
   */
  lemma UsedIdStaysUsed(policy: Policy, s: State, g: Generations, s1: State, g1: Generations, r: Receipt,
                        ops: seq<Op>, op: Op)
    requires Inv(s, g) && s.materialized && Inv(s1, g1) && s1.materialized
    requires s1.receipts == WithReceipt(s.receipts, r) && r.shellId in s1.shells
    requires Receipted(policy, s1, ops, r.shellId) < MAX_RECEIPTS_PER_SHELL
    requires CredentialOf(op).Some? && CredentialOf(op).value.shellId == r.shellId && OperationOf(op) == r.operationId
    requires Callback(policy, RunFrom(policy, s1, ops), op).Some?
    ensures Repeats(policy, RunFrom(policy, s1, ops), op, r)
  {
    ReceiptStillAnswers(policy, s, g, s1, g1, r, ops);
    StaysSound(policy, s1, g1, ops);
    hide *;
    UsedIdAnswersOnlyItself(policy, RunFrom(policy, s1, ops), HistoryFrom(policy, s1, g1, ops), op, r);
  }

  lemma {:induction false} StaysSound(policy: Policy, s: State, g: Generations, ops: seq<Op>)
    requires Inv(s, g)
    ensures Inv(RunFrom(policy, s, ops), HistoryFrom(policy, s, g, ops))
  {
    hide Inv, Next;
    if ops != [] {
      var before := ops[..|ops| - 1];
      StaysSound(policy, s, g, before);
      NextKeeps(policy, RunFrom(policy, s, before), HistoryFrom(policy, s, g, before), ops[|ops| - 1]);
    }
  }
}
