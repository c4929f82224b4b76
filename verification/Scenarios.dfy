/**
 * Two runs of the service in which the obvious claim fails: a replayed acknowledgement that
 * admits an identity again, and a shell that conflicts with itself.
 */
module Scenarios {
  import opened Wrappers
  import opened LastOccurrence
  import opened Live
  import opened Order
  import opened Diff
  import opened Fingerprint
  import opened Projection
  import opened State
  import opened Registry
  import opened Steps
  import opened Protocol
  import opened Runs
  import opened Transitions

  const A: Identity := Identity(Env, "A")
  const B: Identity := Identity(Env, "B")
  const OWNER: Credential := Credential("s", Capability("c"))
  const OID: string := seq(40, _ => '0')

  /** The first identity at a value. */
  function At(text: string): seq<LiveState> { [LiveState(A, Scalar(text))] }

  /** A committed profile that owns two identities and sets the first to "v". */
  const OWNING: Committed := Committed(Source({A, B}, {}, At("v")), Projection(At("v"), []))

  function Becomes(kind: ChangeKind, value: LiveValue): seq<LiveChange> { [LiveChange(kind, A, value)] }

  // ---------------------------------------------------------------- one identity

  predicate Short(text: string) { |text| == 1 && text[0] != NUL }

  lemma AtSize(text: string)
    requires Short(text)
    ensures InBounds(At(text)) && InBounds([]) && Recordable(At(text))
  {
    var s := At(text);
    assert s[1..] == [];
    assert StateBytes(s) == |KindText(Env)| + |"A"| + |text| + StateBytes(s[1..]);
  }

  lemma AtValid(text: string)
    requires Short(text)
    ensures ValidIdentity(A) && AllValid(At(text)) && WellFormed(At(text)) && StateIds(At(text)) == [A]
    ensures AllValid([])
  {
  }

  lemma AtMap(text: string)
    requires Short(text)
    ensures MapOf(At(text)) == map[A := Scalar(text)] && MapOf([]) == map[]
  {
    assert At(text)[..0] == [];
    assert ApplyEdits(map[], At(text)[..0]) == map[];
  }

  lemma AtNormal(text: string)
    requires Short(text)
    ensures Normal(At(text)) == At(text) && PresentOnly(At(text)) == At(text)
  {
    var s := At(text);
    UniqueIsNormal(IdentityOf, s);
    hide LastBy;
    assert PresentOnly(s[..0]) == [];
    assert s == [] + [s[0]];
  }

  lemma AtFacts(text: string)
    requires Short(text)
    ensures MapOf(At(text)) == map[A := Scalar(text)] && MapOf([]) == map[]
    ensures ValidIdentity(A) && AllValid(At(text)) && WellFormed(At(text))
    ensures Normal(At(text)) == At(text) && PresentOnly(At(text)) == At(text) && InBounds(At(text)) && InBounds([])
    ensures ValidSnapshot(LiveSnapshot(0, At(text))) && ValidSnapshot(LiveSnapshot(0, []))
    ensures Recordable(At(text)) && StateIds(At(text)) == [A]
  {
    AtMap(text);
    AtNormal(text);
    AtSize(text);
    AtValid(text);
    hide MapOf, Normal, PresentOnly, InBounds, ValidIdentity, AllValid, WellFormed, StateIds, Recordable, At, Short;
  }

  /** The only list of present states over the map. */
  lemma OnlyAt(states: seq<LiveState>, text: string)
    requires Short(text) && Distinct(states) && AllPresent(states) && MapOf(states) == map[A := Scalar(text)]
    ensures states == At(text)
  {
    assert |states| > 1 ==> IdentityOf(states[0]) != IdentityOf(states[1]);
    MapOfLookup(states, A);
    forall i | 0 <= i < |states|
      ensures states[i] == LiveState(A, Scalar(text))
    {
      FindAt(states, i);
      MapOfLookup(states, states[i].identity);
      assert states[i] in states;
    }
  }

  lemma OnlyNothing(states: seq<LiveState>)
    requires Distinct(states) && AllPresent(states) && MapOf(states) == map[]
    ensures states == []
  {
    if states != [] {
      assert states[0] in states;
      FindAt(states, 0);
      MapOfLookup(states, states[0].identity);
    }
  }

  /** What one change list says: the value before and after, if any. */
  function Present(value: LiveValue): LiveMap { if value.Removed? then map[] else map[A := value] }

  predicate Value(value: LiveValue) { value.Removed? || (value.Scalar? && Short(value.text)) }

  function KindOf(before: LiveValue, after: LiveValue): ChangeKind {
    if before.Removed? then Add else if after.Removed? then Remove else Update
  }

  lemma PresentValid(value: LiveValue)
    requires Value(value)
    ensures ValidMap(Present(value)) && Lookup(Present(value), A) == value
    ensures forall id | id != A :: Lookup(Present(value), id) == Removed
    ensures A in Present(value) <==> !value.Removed?
  {
    if value.Scalar? {
      AtFacts(value.text);
    }
  }

  lemma OneDifference(before: LiveValue, after: LiveValue)
    requires Value(before) && Value(after) && before != after
    ensures DiffMaps(Present(before), Present(after)) == Becomes(KindOf(before, after), after)
    ensures ValidChanges(Becomes(KindOf(before, after), after))
  {
    var cs := DiffMaps(Present(before), Present(after));
    PresentValid(before);
    PresentValid(after);
    hide DiffMaps, Present, ValidMap, Lookup, Value, Sorted;
    DiffMinimal(Present(before), Present(after));
    assert Differs(Present(before), Present(after), A);
    assert cs == Becomes(KindOf(before, after), after) by {
      OneKey(cs, A);
      assert cs[0] in cs;
      assert ValidChange(cs[0]);
    }
  }

  lemma OneKey(cs: seq<LiveChange>, only: Identity)
    requires Unique(ChangeIdentity, cs) && forall id :: id in Keys(ChangeIdentity, cs) <==> id == only
    ensures |cs| == 1 && cs[0].identity == only && cs == [cs[0]]
  {
    assert |cs| > 1 ==> ChangeIdentity(cs[0]) != ChangeIdentity(cs[1]);
    assert only in Keys(ChangeIdentity, cs);
    forall i | 0 <= i < |cs|
      ensures cs[i].identity == only
    {
      assert ChangeIdentity(cs[i]) in Keys(ChangeIdentity, cs);
    }
  }

  function States(value: LiveValue): seq<LiveState> { if value.Removed? then [] else [LiveState(A, value)] }

  lemma StatesFacts(value: LiveValue)
    requires Value(value)
    ensures MapOf(States(value)) == Present(value) && WellFormed(States(value))
  {
    if value.Scalar? {
      AtFacts(value.text);
    }
    assert MapOf([]) == map[];
  }

  lemma OnlyStates(states: seq<LiveState>, value: LiveValue)
    requires Value(value) && Distinct(states) && AllPresent(states) && MapOf(states) == Present(value)
    ensures states == States(value)
  {
    if value.Removed? {
      OnlyNothing(states);
    } else {
      OnlyAt(states, value.text);
    }
  }

  /** Applying the change to the states before gives the states after. */
  lemma OneChange(before: LiveValue, after: LiveValue)
    requires Value(before) && Value(after) && before != after
    ensures ApplyChanges(States(before), Becomes(KindOf(before, after), after)) == States(after)
  {
    var changes := Becomes(KindOf(before, after), after);
    OneDifference(before, after);
    PresentValid(before);
    PresentValid(after);
    StatesFacts(before);
    StatesFacts(after);
    DiffApplies(Present(before), Present(after));
    hide ApplyChanges, DiffMaps, Present, States, Value, ValidMap, MapOf, ApplyEdits, Becomes;
    ApplyChangesMap(States(before), changes);
    OnlyStates(ApplyChanges(States(before), changes), after);
  }

  // ---------------------------------------------------------------- the first generation

  const FIRST: Event := Event(1, MaterializeOrigin, Becomes(Add, Scalar("v")))

  const MATERIALIZED: State :=
    State(true, "main", OID, OWNING, 1, true, [], At("v"), 0, [], [FIRST], map[], [])

  lemma FoldOne(event: Event)
    ensures FoldEvents([], [event]) == ApplyChanges([], event.changes)
  {
    assert [event][..0] == [];
    assert FoldEvents([], []) == [];
  }

  lemma FoldTwo(a: Event, b: Event)
    ensures FoldEvents([], [a, b]) == ApplyChanges(ApplyChanges([], a.changes), b.changes)
  {
    FoldOne(a);
    hide ApplyChanges;
    assert [a, b][..1] == [a];
  }

  lemma FirstFold()
    ensures ApplyChanges([], FIRST.changes) == At("v") && FoldEvents([], [FIRST]) == At("v")
    ensures ValidChanges(FIRST.changes) && DiffMaps(map[], MapOf(At("v"))) == FIRST.changes
  {
    OneChange(Removed, Scalar("v"));
    OneDifference(Removed, Scalar("v"));
    AtFacts("v");
    hide ApplyChanges, DiffMaps, MapOf;
    FoldOne(FIRST);
  }

  lemma NamesAreValid()
    ensures ValidBranch("main") && ValidBranch("other") && ValidOid(OID) && ValidToken("s")
    ensures ValidToken("a") && ValidToken("p") && ValidToken("q") && ValidCredential(OWNER)
  {
  }

  lemma FirstEventValid()
    requires ValidChanges(FIRST.changes)
    ensures ValidEventSequence(0, 1, [FIRST])
  {
    hide ValidChanges;
  }

  lemma OwningValid()
    ensures ValidCommitted(OWNING)
  {
    AtFacts("v");
    hide At, WellFormed;
  }

  lemma NoShellsValid(s: State, fold: seq<LiveState>)
    requires s.materialized && ValidBranch(s.branch) && ValidOid(s.baseOid) && ValidCommitted(s.committed)
    requires s.headRevision == 1 && s.compactionFloor == 0 && |s.events| == 1
    requires s.admitted == [] && s.compactionBaseline == [] && s.shells == map[] && s.receipts == []
    requires FoldEvents(s.compactionBaseline, s.events) == fold == s.shared && WellFormed(fold) && InBounds(fold)
    requires ValidEventSequence(0, 1, s.events)
    ensures ValidState(s)
  {
    assert CanonicalAdmitted([]) && ValidReceipts([], map[]) && WellFormed([]);
    assert AdmittedBytes([]) == 0 && Recordable([]);
    assert Distinct(fold) && AllValid(fold);
    hide ValidBranch, ValidOid, ValidCommitted, FoldEvents, WellFormed, InBounds, ValidEventSequence,
         CanonicalAdmitted, ValidReceipts, AdmittedBytes, Recordable, MapOf, Distinct, AllValid, ValidShell;
  }

  lemma MaterializedValid()
    ensures ValidState(MATERIALIZED)
  {
    AtFacts("v");
    FirstFold();
    FirstEventValid();
    OwningValid();
    NamesAreValid();
    hide ValidBranch, ValidOid, ValidCommitted, FoldEvents, WellFormed, InBounds, ValidEventSequence, ValidState, At,
         DiffMaps, ApplyChanges, MapOf, OID, OWNING;
    NoShellsValid(MATERIALIZED, At("v"));
  }

  lemma Materializing(policy: Policy)
    ensures Run(policy, [DoMaterialize("main", OID, OWNING)]) == MATERIALIZED
  {
    AtFacts("v");
    FirstFold();
    MaterializedValid();
    CandidateIs();
    LeavingReady(policy, MATERIALIZED);
    hide ApplyChanges, DiffMaps, MapOf, FoldEvents, ValidState, At, AllValid, InBounds, Candidate, RegistryReady,
         OID, OWNING, MATERIALIZED;
    var ops := [DoMaterialize("main", OID, OWNING)];
    assert ops[..0] == [] && Run(policy, []) == INITIAL;
    assert Callback(policy, INITIAL, ops[0]) == Some(MATERIALIZED);
  }

  lemma CandidateIs()
    ensures Candidate("main", OID, OWNING) == MATERIALIZED && OWNING.projection.states == At("v")
  {
    FirstFold();
    hide ApplyChanges, DiffMaps, MapOf, At;
  }

  /** One more operation: its result is stored when it is within the limits. */
  lemma RunsOn(policy: Policy, ops: seq<Op>, op: Op, next: State)
    requires Callback(policy, Run(policy, ops), op) == Some(next) && WithinLimits(next)
    ensures Run(policy, ops + [op]) == next
  {
    RunKeeps(policy, ops);
    ValidationOnlyLimits(policy, Run(policy, ops), RunHistory(policy, ops), op);
    hide Callback, Inv, WithinLimits, ValidState;
    assert (ops + [op])[..|ops|] == ops;
  }

  lemma RunsAttach(policy: Policy, ops: seq<Op>, request: AttachRequest, s: State, step: Step)
    requires Run(policy, ops) == s && AttachStep(policy, s, request) == Ok(step) && WithinLimits(step.state)
    ensures Run(policy, ops + [DoAttach(request)]) == step.state
  {
    hide Run, AttachStep, WithinLimits;
    RunsOn(policy, ops, DoAttach(request), step.state);
  }

  lemma RunsPublish(policy: Policy, ops: seq<Op>, request: PublishRequest, s: State, step: Step)
    requires Run(policy, ops) == s && PublishStep(policy, s, request) == Ok(step) && WithinLimits(step.state)
    ensures Run(policy, ops + [DoPublish(request)]) == step.state
  {
    hide Run, PublishStep, WithinLimits;
    RunsOn(policy, ops, DoPublish(request), step.state);
  }

  lemma RunsPrepare(policy: Policy, ops: seq<Op>, request: PrepareRequest, s: State, step: Step)
    requires Run(policy, ops) == s && PrepareStep(s, request) == Ok(step) && WithinLimits(step.state)
    ensures Run(policy, ops + [DoPrepare(request)]) == step.state
  {
    hide Run, PrepareStep, WithinLimits;
    RunsOn(policy, ops, DoPrepare(request), step.state);
  }

  lemma RunsAcknowledge(policy: Policy, ops: seq<Op>, request: AcknowledgeRequest, s: State, step: Step)
    requires Run(policy, ops) == s && AcknowledgeStep(policy, s, request) == Ok(step) && WithinLimits(step.state)
    ensures Run(policy, ops + [DoAcknowledge(request)]) == step.state
  {
    hide Run, AcknowledgeStep, WithinLimits;
    RunsOn(policy, ops, DoAcknowledge(request), step.state);
  }

  // ---------------------------------------------------------------- admission of the identity

  lemma Admissible(policy: Policy, registry: Registry, present: seq<Identity>)
    requires policy(A).None? && A !in registry.pinned
    ensures ExclusionReason(policy, registry, A).None?
    ensures A in registry.owned ==> AllowsLiveValue(policy, registry, A)
    ensures Admits(policy, registry, present, A) <==> A in registry.owned || A !in present
  {
    AtFacts("v");
  }

  lemma KeepsState(policy: Policy, registry: Registry, present: seq<Identity>, text: string)
    requires Admits(policy, registry, present, A)
    ensures KeptStates(policy, registry, present, At(text)) == At(text)
  {
    assert At(text)[..0] == [];
    assert At(text) == [] + [At(text)[0]];
  }

  lemma KeepsChange(policy: Policy, registry: Registry, present: seq<Identity>, change: LiveChange)
    requires Admits(policy, registry, present, change.identity)
    ensures KeptChanges(policy, registry, present, [change]) == [change]
  {
    hide Admits;
    assert [change][..0] == [];
    assert KeptChanges(policy, registry, present, []) == [];
    assert [] + [change] == [change];
  }

  lemma AdmitsKnown(registry: Registry, admitted: seq<Identity>)
    requires A in registry.owned
    ensures AdmitAll(registry, admitted, [A]) == Some(admitted)
  {
    assert [A][..0] == [];
    assert AdmitAll(registry, admitted, []) == Some(admitted);
  }

  lemma FitsAlone()
    ensures Sort(AdmittedLess, [] + [A]) == [A] && AdmittedWithinLimits([A])
  {
    assert [] + [A] == [A] && [A][1..] == [];
    assert Sort(AdmittedLess, []) == [];
    assert AdmittedBytes([]) == 0;
    assert AdmittedBytes([A]) == |KindText(Env)| + |"A"| + 2;
  }

  lemma AdmitsUnknown()
    ensures AdmitAll(Registry({}, {}), [], [A]) == Some([A])
  {
    FitsAlone();
    hide Sort, AdmittedWithinLimits;
    assert AdmitOne(Registry({}, {}), [], A) == Some([A]);
    hide AdmitOne;
    assert [A][..0] == [];
    assert AdmitAll(Registry({}, {}), [], []) == Some([]);
  }

  /** An owned identity is kept and admits nothing. */
  lemma FiltersOwned(policy: Policy, s: State, shell: Shell, text: string)
    requires Short(text) && policy(A).None? && A in RegistryOf(s).owned && A !in RegistryOf(s).pinned
    ensures FilterSnapshot(policy, s, shell, At(text)) == Some(Filtered(At(text), s.admitted))
  {
    AtFacts(text);
    Admissible(policy, RegistryOf(s), shell.presentAtAttach);
    hide Normal, RegistryOf, AdmitAll, At, KeptStates, Admits;
    KeepsState(policy, RegistryOf(s), shell.presentAtAttach, text);
    AdmitsKnown(RegistryOf(s), s.admitted);
  }

  // ---------------------------------------------------------------- a replay that admits again

  const JOINING: AttachRequest := AttachRequest("a", OWNER, LiveSnapshot(0, []))

  const JOINED: Shell := Shell(VerifierOf(Capability("c")), CleanReconcile, 1, 0, [], [], [], [], [], Attaching,
                               NoPending, true, None, 1)

  const JOIN_RECEIPT: Receipt := Receipt("s", "a", AttachDigest(0, []), Attached(1, true, []))

  const ATTACHED: State := MATERIALIZED.(shells := map["s" := JOINED], receipts := [JOIN_RECEIPT])

  const PULLING: PrepareRequest := PrepareRequest("p", OWNER, 0)

  const PULL: Token := PullToken("p", PrepareDigest(0), 1)

  const PULLER: Shell :=
    JOINED.(pending := Pull(1, FingerprintOf(At("v")), PULL, FIRST.changes), transition := Preparing)

  const PULL_RECEIPT: Receipt := Receipt("s", "p", PrepareDigest(0), Prepared(1, PULL, FIRST.changes))

  const PREPARED: State := ATTACHED.(shells := map["s" := PULLER], receipts := [JOIN_RECEIPT, PULL_RECEIPT])

  const ACKNOWLEDGING: AcknowledgeRequest := AcknowledgeRequest("q", OWNER, 1, PULL, LiveSnapshot(0, At("v")))

  const ACKNOWLEDGER: Shell := AcknowledgedShell(PULLER, 1, At("v"))

  const ACKNOWLEDGE_RECEIPT: Receipt :=
    Receipt("s", "q", AcknowledgeDigest(1, PULL, At("v")), Reply.Acknowledged(1))

  const ACKNOWLEDGED: State :=
    PREPARED.(shells := map["s" := ACKNOWLEDGER], receipts := [JOIN_RECEIPT, PULL_RECEIPT, ACKNOWLEDGE_RECEIPT])

  /** A branch that does not own the identity. */
  const DISOWNING: Committed := Committed(Source({}, {}, []), Projection([], []))

  const LEFT: State :=
    ACKNOWLEDGED.(branch := "other", committed := DISOWNING, headRevision := 2, shared := [],
                  events := [FIRST, Event(2, WorkflowOrigin("checkout"), Becomes(Remove, Removed))],
                  shells := map["s" := ACKNOWLEDGER.(behind := true, lastActiveRevision := 2)])

  lemma FewReceipts(receipts: seq<Receipt>, receipt: Receipt)
    requires |receipts| < MAX_RECEIPTS_PER_SHELL
    ensures WithReceipt(receipts, receipt) == receipts + [receipt]
  {
    OfShellSize(receipts, receipt.shellId);
  }

  lemma {:induction false} OfShellSize(receipts: seq<Receipt>, id: string)
    ensures |OfShell(receipts, id)| <= |receipts|
  {
    if receipts != [] {
      OfShellSize(receipts[..|receipts| - 1], id);
    }
  }

  lemma {:induction false} NoReceipt(receipts: seq<Receipt>, id: string, operation: string)
    requires forall r | r in receipts :: r.operationId != operation
    ensures ReceiptFor(receipts, id, operation) == None
  {
    if receipts != [] {
      NoReceipt(receipts[..|receipts| - 1], id, operation);
      assert receipts[|receipts| - 1] in receipts;
    }
  }

  lemma Joins(policy: Policy)
    requires policy(A).None?
    ensures AttachStep(policy, MATERIALIZED, JOINING) == Ok(Step(ATTACHED, JOIN_RECEIPT.reply))
  {
    AtFacts("v");
    NamesAreValid();
    FewReceipts([], JOIN_RECEIPT);
    assert RegistryReady(policy, MATERIALIZED);
    assert A in MapOf(At("v"));
    assert !SameStates([], At("v"));
    hide ValidToken, ValidCredential, ValidSnapshot, RegistryReady, MapOf, WithReceipt, At, AllValid, Distinct,
         SameStates;
    assert Normal([]) == [] && PresentOnly([]) == [];
    assert NewShell(policy, MATERIALIZED, JOINING) == JOINED;
    assert map[]["s" := JOINED] == map["s" := JOINED];
    assert [] + [JOIN_RECEIPT] == [JOIN_RECEIPT];
  }

  /** A pull that has changes to deliver. */
  lemma PrepareIs(s: State, request: PrepareRequest, shell: Shell, changes: seq<LiveChange>)
    requires CheckPrivate(request.operationId, request.credential).None? && Authorized(s, request.credential)
    requires s.shells[request.credential.shellId] == shell && request.appliedRevision == shell.appliedRevision
    requires ReceiptFor(s.receipts, request.credential.shellId, request.operationId).None?
    requires shell.conflict.None? && shell.unpublishedDelta == [] && shell.pending == NoPending
    requires InBounds(shell.captureBaseline) && InBounds(s.shared)
    requires DiffMaps(MapOf(shell.captureBaseline), MapOf(s.shared)) == changes != []
    ensures var digest := PrepareDigest(request.appliedRevision);
            var token := PullToken(request.operationId, digest, s.headRevision);
            PrepareStep(s, request) ==
            Ok(Recorded(s, request.credential, request.operationId, digest,
                        shell.(pending := Pull(s.headRevision, FingerprintOf(s.shared), token, changes),
                               transition := Preparing, behind := true, lastActiveRevision := s.headRevision),
                        Prepared(s.headRevision, token, changes)))
  {
    hide CheckPrivate, Authorized, ReceiptFor, InBounds, DiffMaps, MapOf, FingerprintOf, Recorded;
  }

  lemma PreparingCaller(s: State)
    requires s == ATTACHED
    ensures CheckPrivate("p", OWNER).None? && Authorized(s, OWNER) && s.shells["s"] == JOINED
    ensures ReceiptFor(s.receipts, "s", "p").None?
  {
    NamesAreValid();
    hide ValidToken, ValidCredential, ReceiptFor, OWNING, At, OID;
    NoReceipt([JOIN_RECEIPT], "s", "p");
  }

  lemma PreparingFacts(s: State)
    requires s == ATTACHED
    ensures CheckPrivate("p", OWNER).None? && Authorized(s, OWNER) && s.shells["s"] == JOINED
    ensures ReceiptFor(s.receipts, "s", "p").None? && InBounds([]) && InBounds(s.shared)
    ensures DiffMaps(MapOf([]), MapOf(s.shared)) == FIRST.changes != []
  {
    AtFacts("v");
    FirstFold();
    PreparingCaller(s);
    hide CheckPrivate, Authorized, MapOf, At, InBounds, DiffMaps, ReceiptFor, OWNING, OID, JOINED;
  }

  lemma PreparedIs()
    ensures Recorded(ATTACHED, OWNER, "p", PrepareDigest(0), PULLER, PULL_RECEIPT.reply) ==
            Step(PREPARED, PULL_RECEIPT.reply)
  {
    FewReceipts([JOIN_RECEIPT], PULL_RECEIPT);
    hide WithReceipt, FingerprintOf, At;
    assert ATTACHED.shells["s" := PULLER] == map["s" := PULLER];
    assert [JOIN_RECEIPT] + [PULL_RECEIPT] == [JOIN_RECEIPT, PULL_RECEIPT];
  }

  lemma Prepares()
    ensures PrepareStep(ATTACHED, PULLING) == Ok(Step(PREPARED, PULL_RECEIPT.reply))
  {
    PreparingFacts(ATTACHED);
    PreparedIs();
    hide PrepareStep, CheckPrivate, Authorized, ReceiptFor, InBounds, DiffMaps, MapOf, Recorded, FingerprintOf, At;
    PrepareIs(ATTACHED, PULLING, JOINED, FIRST.changes);
  }

  /** An acknowledgement of what is pending, observed as it should be. */
  lemma AcknowledgeSucceeds(policy: Policy, s: State, request: AcknowledgeRequest, shell: Shell,
                            observed: seq<LiveState>)
    requires CheckPrivate(request.operationId, request.credential).None? && Authorized(s, request.credential)
    requires request.revision != 0 && UsableToken(request.token) && ValidSnapshot(request.snapshot)
    requires RegistryReady(policy, s) && s.shells[request.credential.shellId] == shell
    requires FilterSnapshot(policy, s, shell, request.snapshot.states) == Some(Filtered(observed, s.admitted))
    requires ReceiptFor(s.receipts, request.credential.shellId, request.operationId).None?
    requires Pends(shell.pending, request.revision, request.token) && Backed(shell)
    requires InBounds(observed) && FingerprintOf(observed) == shell.pending.fingerprint
    ensures AcknowledgeStep(policy, s, request) ==
            Ok(Recorded(s, request.credential, request.operationId,
                        AcknowledgeDigest(request.revision, request.token, observed),
                        AcknowledgedShell(shell, s.headRevision, observed), Reply.Acknowledged(shell.pending.revision)))
  {
    hide CheckPrivate, Authorized, ReceiptFor, InBounds, FingerprintOf, Recorded, FilterSnapshot, RegistryReady,
         ValidSnapshot, UsableToken, Backed, AcknowledgedShell;
    assert s.(admitted := s.admitted) == s;
  }

  lemma PreparedReady(policy: Policy, s: State)
    requires s == PREPARED
    ensures RegistryReady(policy, s) && Authorized(s, OWNER) && ReceiptFor(s.receipts, "s", "q").None?
    ensures A in RegistryOf(s).owned && A !in RegistryOf(s).pinned
  {
    hide At, FingerprintOf;
    assert AdmittedBytes([]) == 0;
    NoReceipt(s.receipts, "s", "q");
  }

  lemma AcknowledgingFacts(policy: Policy, s: State)
    requires s == PREPARED && policy(A).None?
    ensures CheckPrivate("q", OWNER).None? && Authorized(s, OWNER) && s.shells["s"] == PULLER
    ensures UsableToken(PULL) && ValidSnapshot(LiveSnapshot(0, At("v"))) && RegistryReady(policy, s)
    ensures FilterSnapshot(policy, s, PULLER, At("v")) == Some(Filtered(At("v"), s.admitted))
    ensures ReceiptFor(s.receipts, "s", "q").None? && InBounds(At("v"))
  {
    AtFacts("v");
    NamesAreValid();
    PreparedReady(policy, s);
    hide ValidToken, ValidCredential, ValidSnapshot, RegistryReady, At, InBounds, ReceiptFor, FilterSnapshot,
         FingerprintOf, Authorized, RegistryOf;
    FiltersOwned(policy, s, PULLER, "v");
  }

  lemma AcknowledgedIs()
    ensures Recorded(PREPARED, OWNER, "q", AcknowledgeDigest(1, PULL, At("v")), ACKNOWLEDGER,
                     ACKNOWLEDGE_RECEIPT.reply) ==
            Step(ACKNOWLEDGED, ACKNOWLEDGE_RECEIPT.reply)
  {
    FewReceipts(PREPARED.receipts, ACKNOWLEDGE_RECEIPT);
    hide WithReceipt, FingerprintOf, At;
    assert PREPARED.shells["s" := ACKNOWLEDGER] == map["s" := ACKNOWLEDGER];
    assert PREPARED.receipts + [ACKNOWLEDGE_RECEIPT] == ACKNOWLEDGED.receipts;
  }

  lemma Acknowledges(policy: Policy)
    requires policy(A).None?
    ensures AcknowledgeStep(policy, PREPARED, ACKNOWLEDGING) == Ok(Step(ACKNOWLEDGED, ACKNOWLEDGE_RECEIPT.reply))
  {
    AcknowledgingFacts(policy, PREPARED);
    AcknowledgedIs();
    hide AcknowledgeStep, CheckPrivate, Authorized, ReceiptFor, InBounds, Recorded, FingerprintOf, At,
         FilterSnapshot, RegistryReady, ValidSnapshot, UsableToken;
    AcknowledgeSucceeds(policy, PREPARED, ACKNOWLEDGING, PULLER, At("v"));
  }

  lemma Leaves(policy: Policy)
    ensures Callback(policy, ACKNOWLEDGED, LEAVING) == Some(LEFT)
  {
    LeavingChecks();
    SettledForCheckout();
    Replaces(policy);
    hide *;
    CheckoutIs(policy, ACKNOWLEDGED, "other", OID, DISOWNING);
    LeavingIs(policy, ACKNOWLEDGED);
    SucceededIs(LEFT);
  }

  lemma LeavingChecks()
    ensures ACKNOWLEDGED.materialized && ACKNOWLEDGED.baseOid == OID
    ensures ValidBranch("other") && ValidOid(OID) && ValidCommitted(DISOWNING)
  {
    NamesAreValid();
    hide ValidBranch, ValidOid;
  }

  lemma SucceededIs(s: State)
    ensures Succeeded(Ok(s)) == Some(s)
  {
  }

  lemma LeavingIs(policy: Policy, s: State)
    ensures Callback(policy, s, LEAVING) ==
            Succeeded(CheckoutStep(policy, s, "other", false, RefReply(Some(OID), None), true,
                                   RefReply(Some(OID), Some(DISOWNING))))
  {
    hide CheckoutStep;
  }

  /** A checkout whose reference did not move replaces the generation. */
  lemma CheckoutIs(policy: Policy, s: State, branch: string, oid: string, document: Committed)
    requires s.materialized && s.baseOid == oid && ValidBranch(branch) && ValidOid(oid) && ValidCommitted(document)
    requires DirtyDecidable(s) && DirtyChanges(s) == [] && forall id | id in s.shells :: Settled(s.shells[id])
    ensures CheckoutStep(policy, s, branch, false, RefReply(Some(oid), None), true,
                         RefReply(Some(oid), Some(document))) ==
            ReplaceStep(policy, s, branch, oid, document, "checkout")
  {
    hide ValidBranch, ValidOid, ValidCommitted, DirtyDecidable, DirtyChanges, ReplaceStep, Settled;
  }

  lemma ReplaceIs(policy: Policy, s: State, branch: string, oid: string, document: Committed, changes: seq<LiveChange>)
    requires InBounds(s.shared) && InBounds(document.projection.states) && AllValid(document.projection.states)
    requires RegistryReady(policy, s.(branch := branch, baseOid := oid, committed := document,
                                      shared := document.projection.states))
    requires DiffMaps(MapOf(s.shared), MapOf(document.projection.states)) == changes != [] &&
             s.headRevision < MAX_REVISION
    ensures ReplaceStep(policy, s, branch, oid, document, "checkout") ==
            Ok(RefreshAll(Advanced(s.(branch := branch, baseOid := oid, committed := document,
                                      shared := document.projection.states),
                                   WorkflowOrigin("checkout"), changes, document.projection.states)))
  {
    hide InBounds, AllValid, RegistryReady, DiffMaps, MapOf, RefreshAll, Advanced;
  }

  lemma LeavingReady(policy: Policy, s: State)
    requires s.admitted == []
    ensures RegistryReady(policy, s)
  {
    assert AdmittedBytes([]) == 0;
  }

  lemma LeavingFacts(policy: Policy, s: State)
    requires s.shared == At("v") && s.admitted == [] && s.headRevision == 1
    ensures var target := DISOWNING.projection.states;
            && InBounds(s.shared) && InBounds(target) && AllValid(target)
            && RegistryReady(policy, s.(branch := "other", baseOid := OID, committed := DISOWNING, shared := target))
            && DiffMaps(MapOf(s.shared), MapOf(target)) == Becomes(Remove, Removed) != []
            && s.headRevision < MAX_REVISION
  {
    AtFacts("v");
    OneDifference(Scalar("v"), Removed);
    LeavingReady(policy, s.(branch := "other", baseOid := OID, committed := DISOWNING, shared := []));
    hide DiffMaps, InBounds, MapOf, At, RegistryReady;
  }

  lemma Replaces(policy: Policy)
    ensures ReplaceStep(policy, ACKNOWLEDGED, "other", OID, DISOWNING, "checkout") == Ok(LEFT)
  {
    LeavingAdvances();
    LeavingFacts(policy, ACKNOWLEDGED);
    hide *;
    ReplaceIs(policy, ACKNOWLEDGED, "other", OID, DISOWNING, Becomes(Remove, Removed));
  }

  lemma SettledForCheckout()
    ensures DirtyDecidable(ACKNOWLEDGED) && DirtyChanges(ACKNOWLEDGED) == []
    ensures forall id | id in ACKNOWLEDGED.shells :: Settled(ACKNOWLEDGED.shells[id])
  {
    AtFacts("v");
    DiffEmpty(MapOf(At("v")), MapOf(At("v")));
    hide DiffMaps, At;
  }

  lemma LeavingAdvances()
    ensures var target := DISOWNING.projection.states;
            RefreshAll(Advanced(ACKNOWLEDGED.(branch := "other", baseOid := OID, committed := DISOWNING,
                                              shared := target),
                                WorkflowOrigin("checkout"), Becomes(Remove, Removed), target)) == LEFT
  {
    AtFacts("v");
    var s := Advanced(ACKNOWLEDGED.(branch := "other", baseOid := OID, committed := DISOWNING, shared := []),
                      WorkflowOrigin("checkout"), Becomes(Remove, Removed), []);
    assert [FIRST] + [Event(2, WorkflowOrigin("checkout"), Becomes(Remove, Removed))] == LEFT.events;
    assert s.shells == map["s" := ACKNOWLEDGER] && s.headRevision == 2;
    assert Refreshed(ACKNOWLEDGER, s) == ACKNOWLEDGER.(behind := true, lastActiveRevision := 2);
  }

  const LEAVING: Op := DoCheckout("other", false, RefReply(Some(OID), None), true, RefReply(Some(OID), Some(DISOWNING)))

  /** The receipt answers the request, and yet the identity is admitted again. */
  lemma Replays(policy: Policy)
    requires policy(A).None?
    ensures ReceiptFor(LEFT.receipts, "s", "q") == Some(ACKNOWLEDGE_RECEIPT)
    ensures AcknowledgeStep(policy, LEFT, ACKNOWLEDGING) ==
            Ok(Step(LEFT.(admitted := [A]), ACKNOWLEDGE_RECEIPT.reply))
  {
    ReplayingFacts(policy, LEFT);
    ReadmitsUnowned(policy, LEFT, LEFT.shells["s"]);
    hide AcknowledgeStep, CheckPrivate, Authorized, ReceiptFor, At, FilterSnapshot, RegistryReady, ValidSnapshot,
         UsableToken, FingerprintOf;
    ReplayIs(policy, LEFT, ACKNOWLEDGING, At("v"), [A], ACKNOWLEDGE_RECEIPT);
  }

  /** A request that its receipt answers, after its observation was admitted. */
  lemma ReplayIs(policy: Policy, s: State, request: AcknowledgeRequest, observed: seq<LiveState>,
                 admitted: seq<Identity>, receipt: Receipt)
    requires CheckPrivate(request.operationId, request.credential).None? && Authorized(s, request.credential)
    requires request.revision != 0 && UsableToken(request.token) && ValidSnapshot(request.snapshot)
    requires RegistryReady(policy, s) && request.credential.shellId in s.shells
    requires FilterSnapshot(policy, s, s.shells[request.credential.shellId], request.snapshot.states) ==
             Some(Filtered(observed, admitted))
    requires ReceiptFor(s.receipts, request.credential.shellId, request.operationId) == Some(receipt)
    requires receipt.reply.Acknowledged? &&
             receipt.digest == AcknowledgeDigest(request.revision, request.token, observed)
    ensures AcknowledgeStep(policy, s, request) == Ok(Step(s.(admitted := admitted), receipt.reply))
  {
    hide CheckPrivate, Authorized, ReceiptFor, FilterSnapshot, RegistryReady, ValidSnapshot, UsableToken, Recorded,
         Backed, Pends, InBounds, FingerprintOf, AcknowledgedShell;
  }

  lemma ReadmitsUnowned(policy: Policy, s: State, shell: Shell)
    requires policy(A).None? && RegistryOf(s) == Registry({}, {}) && shell.presentAtAttach == [] && s.admitted == []
    ensures FilterSnapshot(policy, s, shell, At("v")) == Some(Filtered(At("v"), [A]))
  {
    AtFacts("v");
    Admissible(policy, RegistryOf(s), []);
    KeepsState(policy, RegistryOf(s), [], "v");
    AdmitsUnknown();
    hide Normal, KeptStates, AdmitAll, At, StateIds, RegistryOf;
  }

  lemma LeftReceipt(receipts: seq<Receipt>)
    requires receipts == LEFT.receipts
    ensures ReceiptFor(receipts, "s", "q") == Some(ACKNOWLEDGE_RECEIPT)
  {
    hide At, FingerprintOf;
  }

  lemma LeftRegistry(s: State)
    requires s == LEFT
    ensures Authorized(s, OWNER) && RegistryOf(s) == Registry({}, {})
  {
    hide At, FingerprintOf;
  }

  lemma ReplayingFacts(policy: Policy, s: State)
    requires s == LEFT
    ensures CheckPrivate("q", OWNER).None? && Authorized(s, OWNER) && RegistryOf(s) == Registry({}, {})
    ensures UsableToken(PULL) && ValidSnapshot(LiveSnapshot(0, At("v"))) && RegistryReady(policy, s)
    ensures ReceiptFor(s.receipts, "s", "q") == Some(ACKNOWLEDGE_RECEIPT)
  {
    AtFacts("v");
    NamesAreValid();
    LeftReceipt(s.receipts);
    LeavingReady(policy, s);
    LeftRegistry(s);
    hide ValidToken, ValidCredential, ValidSnapshot, RegistryReady, At, FingerprintOf, ReceiptFor, RegistryOf,
         Authorized, LEFT;
  }

  lemma LimitsKept(s: State, shell: Shell)
    requires s.headRevision <= 3 && s.shells == map["s" := shell] && s.admitted == [] && s.compactionBaseline == []
    requires InBounds(s.shared) && FoldEvents(s.compactionBaseline, s.events) == s.shared
    requires Recordable(shell.appliedBaseline) && Recordable(shell.captureBaseline)
    ensures WithinLimits(s)
  {
    assert AdmittedBytes([]) == 0 && Recordable([]);
    hide InBounds, FoldEvents, Recordable, AdmittedBytes;
  }

  lemma OneShellLimits(s: State, text: string, shell: Shell)
    requires Short(text) && s.headRevision <= 2 && s.shells == map["s" := shell] && s.admitted == []
    requires s.compactionBaseline == [] && (s.shared == [] || s.shared == At(text))
    requires FoldEvents(s.compactionBaseline, s.events) == s.shared
    requires Recordable(shell.appliedBaseline) && Recordable(shell.captureBaseline)
    ensures WithinLimits(s)
  {
    AtFacts(text);
    hide InBounds, At, FoldEvents, Recordable;
    LimitsKept(s, shell);
  }

  const READMITTING: seq<Op> :=
    [DoMaterialize("main", OID, OWNING)] + [DoAttach(JOINING)] + [DoPrepare(PULLING)] +
    [DoAcknowledge(ACKNOWLEDGING)] + [LEAVING]

  lemma RunJoins(policy: Policy, ops: seq<Op>)
    requires policy(A).None? && Run(policy, ops) == MATERIALIZED
    ensures Run(policy, ops + [DoAttach(JOINING)]) == ATTACHED
  {
    FirstFold();
    OneShellLimits(ATTACHED, "v", JOINED);
    Joins(policy);
    hide *;
    RunsAttach(policy, ops, JOINING, MATERIALIZED, Step(ATTACHED, JOIN_RECEIPT.reply));
  }

  lemma RunPrepares(policy: Policy, ops: seq<Op>)
    requires Run(policy, ops) == ATTACHED
    ensures Run(policy, ops + [DoPrepare(PULLING)]) == PREPARED
  {
    FirstFold();
    OneShellLimits(PREPARED, "v", PULLER);
    Prepares();
    hide *;
    RunsPrepare(policy, ops, PULLING, ATTACHED, Step(PREPARED, PULL_RECEIPT.reply));
  }

  lemma RunAcknowledges(policy: Policy, ops: seq<Op>)
    requires policy(A).None? && Run(policy, ops) == PREPARED
    ensures Run(policy, ops + [DoAcknowledge(ACKNOWLEDGING)]) == ACKNOWLEDGED
  {
    FirstFold();
    AcknowledgedLimits();
    Acknowledges(policy);
    hide *;
    RunsAcknowledge(policy, ops, ACKNOWLEDGING, PREPARED, Step(ACKNOWLEDGED, ACKNOWLEDGE_RECEIPT.reply));
  }

  lemma AcknowledgedLimits()
    ensures WithinLimits(ACKNOWLEDGED) && WithinLimits(LEFT)
  {
    FirstFold();
    LeftFold();
    AtFacts("v");
    hide WithinLimits, FoldEvents, At, FingerprintOf, Recordable;
    OneShellLimits(ACKNOWLEDGED, "v", ACKNOWLEDGER);
    OneShellLimits(LEFT, "v", LEFT.shells["s"]);
  }

  lemma RunLeaves(policy: Policy, ops: seq<Op>)
    requires Run(policy, ops) == ACKNOWLEDGED
    ensures Run(policy, ops + [LEAVING]) == LEFT
  {
    AcknowledgedLimits();
    Leaves(policy);
    hide *;
    RunsOn(policy, ops, LEAVING, LEFT);
  }

  lemma RunReplays(policy: Policy, ops: seq<Op>)
    requires policy(A).None? && Run(policy, ops) == LEFT
    ensures Run(policy, ops + [DoAcknowledge(ACKNOWLEDGING)]) == LEFT.(admitted := [A])
  {
    LimitsAdmitting();
    Replays(policy);
    hide *;
    RunsAcknowledge(policy, ops, ACKNOWLEDGING, LEFT, Step(LEFT.(admitted := [A]), ACKNOWLEDGE_RECEIPT.reply));
  }

  lemma ReadmittingRuns(policy: Policy)
    requires policy(A).None?
    ensures Run(policy, READMITTING) == LEFT
  {
    Materializing(policy);
    assert READMITTING ==
           [DoMaterialize("main", OID, OWNING)] + [DoAttach(JOINING)] + [DoPrepare(PULLING)] +
           [DoAcknowledge(ACKNOWLEDGING)] + [LEAVING];
    hide *;
    RunJoins(policy, [DoMaterialize("main", OID, OWNING)]);
    RunPrepares(policy, [DoMaterialize("main", OID, OWNING)] + [DoAttach(JOINING)]);
    RunAcknowledges(policy, [DoMaterialize("main", OID, OWNING)] + [DoAttach(JOINING)] + [DoPrepare(PULLING)]);
    RunLeaves(policy, [DoMaterialize("main", OID, OWNING)] + [DoAttach(JOINING)] + [DoPrepare(PULLING)] +
                      [DoAcknowledge(ACKNOWLEDGING)]);
  }

  lemma LeftFold()
    ensures FoldEvents([], LEFT.events) == []
  {
    FirstFold();
    OneChange(Scalar("v"), Removed);
    hide ApplyChanges;
    FoldTwo(FIRST, Event(2, WorkflowOrigin("checkout"), Becomes(Remove, Removed)));
  }

  /**
   * A replayed acknowledgement can change the state: a shell that attached without `A` pulls and
   * acknowledges it while the profile owns it; after a checkout of a branch that does not, the
   * same request is answered from its receipt and admits `A` all the same.
   */
  lemma AcknowledgeReplayMayAdmit(policy: Policy)
    requires policy(A).None?
    ensures ReceiptFor(Run(policy, READMITTING).receipts, "s", "q").Some?
    ensures AcknowledgeStep(policy, Run(policy, READMITTING), ACKNOWLEDGING).Ok?
    ensures A !in Run(policy, READMITTING).admitted
    ensures Run(policy, READMITTING + [DoAcknowledge(ACKNOWLEDGING)]) == Run(policy, READMITTING).(admitted := [A])
  {
    ReadmittingRuns(policy);
    Replays(policy);
    RunReplays(policy, READMITTING);
    hide Run, AcknowledgeStep, ReceiptFor;
  }

  lemma LimitsAdmitting()
    ensures WithinLimits(LEFT.(admitted := [A]))
  {
    LeftFold();
    AtFacts("v");
    FitsAlone();
    OneShellLimits(LEFT, "v", LEFT.shells["s"]);
    hide InBounds, At, FoldEvents, Recordable, AdmittedWithinLimits;
  }

  // ---------------------------------------------------------------- a shell in conflict with itself

  const ENTERING: AttachRequest := AttachRequest("a", OWNER, LiveSnapshot(0, At("v")))

  const ENTERED: Shell := Shell(VerifierOf(Capability("c")), AtHead, 1, 1, At("v"), At("v"), [], [A], [], Attaching,
                                NoPending, false, None, 1)

  const ENTRY_RECEIPT: Receipt := Receipt("s", "a", AttachDigest(0, At("v")), Attached(1, false, []))

  const ALONE: State := MATERIALIZED.(shells := map["s" := ENTERED], receipts := [ENTRY_RECEIPT])

  /** Two publishes over the same acknowledged revision. */
  function Publishing(operation: string, text: string): PublishRequest {
    PublishRequest(operation, OWNER, 1, Becomes(Update, Scalar(text)))
  }

  const SECOND: Event := Event(2, ShellOrigin("p", "s"), Becomes(Update, Scalar("w")))

  const FIRST_RECEIPT: Receipt :=
    Receipt("s", "p", PublishDigest(1, Becomes(Update, Scalar("w"))), Published(2, [A], []))

  const PUBLISHED: State :=
    ALONE.(headRevision := 2, shared := At("w"), events := [FIRST, SECOND],
           shells := map["s" := ENTERED.(transition := Transition.Publishing, captureBaseline := At("w"),
                                         behind := true,
                                         lastActiveRevision := 2)],
           receipts := [ENTRY_RECEIPT, FIRST_RECEIPT])

  const CONFLICT: Conflict :=
    Conflict(Overlap, A, 1, 2, ConflictToken("q", PublishDigest(1, Becomes(Update, Scalar("x"))), 2))

  const SELF_RECEIPT: Receipt :=
    Receipt("s", "q", PublishDigest(1, Becomes(Update, Scalar("x"))), Published(2, [], [CONFLICT]))

  const CONFLICTED: State :=
    PUBLISHED.(shells := map["s" := PUBLISHED.shells["s"].(conflict := Some(CONFLICT), captureBaseline := At("x"),
                                                           unpublishedDelta := Becomes(Update, Scalar("x")),
                                                           transition := Unpublished)],
               receipts := [ENTRY_RECEIPT, FIRST_RECEIPT, SELF_RECEIPT])

  lemma EnteringShell(policy: Policy, s: State)
    requires s == MATERIALIZED && policy(A).None?
    ensures NewShell(policy, s, ENTERING) == ENTERED
  {
    AtFacts("v");
    Admissible(policy, RegistryOf(s), []);
    var states := At("v");
    assert states[..0] == [] && states == [] + [states[0]];
    assert AttachBaseline(policy, RegistryOf(s), states[..0]) == [];
    assert AttachExclusions(policy, RegistryOf(s), states[..0]) == [];
    hide Normal, PresentOnly, MapOf, AllowsLiveValue, ExclusionReason, AllValid, Distinct;
    assert AttachBaseline(policy, RegistryOf(s), states) == states;
    assert AttachExclusions(policy, RegistryOf(s), states) == [];
    assert SameStates(states, s.shared);
  }

  lemma Enters(policy: Policy)
    requires policy(A).None?
    ensures AttachStep(policy, MATERIALIZED, ENTERING) == Ok(Step(ALONE, ENTRY_RECEIPT.reply))
  {
    AtFacts("v");
    NamesAreValid();
    FewReceipts([], ENTRY_RECEIPT);
    EnteringShell(policy, MATERIALIZED);
    LeavingReady(policy, MATERIALIZED);
    hide ValidToken, ValidCredential, ValidSnapshot, RegistryReady, WithReceipt, At, NewShell;
    assert map[]["s" := ENTERED] == map["s" := ENTERED];
    assert [] + [ENTRY_RECEIPT] == [ENTRY_RECEIPT];
  }

  /** A publish that gets as far as the merge. */
  lemma PublishMerges(policy: Policy, s: State, request: PublishRequest, shell: Shell, observed: seq<LiveState>,
                      semantic: seq<LiveChange>)
    requires CheckPrivate(request.operationId, request.credential).None? && Authorized(s, request.credential)
    requires ValidChanges(request.delta) && s.shells[request.credential.shellId] == shell && RegistryReady(policy, s)
    requires ReceiptFor(s.receipts, request.credential.shellId, request.operationId).None?
    requires shell.pending == NoPending && request.acknowledgedRevision == shell.appliedRevision != 0
    requires shell.conflict.None? && shell.unpublishedDelta == []
    requires FilterChanges(policy, s, shell, request.delta) == Some(Filtered(request.delta, s.admitted))
    requires ApplyChanges(shell.captureBaseline, request.delta) == observed
    requires InBounds(shell.captureBaseline) && InBounds(observed)
    requires DiffMaps(MapOf(shell.captureBaseline), MapOf(observed)) == semantic
    ensures PublishStep(policy, s, request) == Merge(s, request, shell, observed, semantic)
  {
    hide CheckPrivate, Authorized, ReceiptFor, ValidChanges, RegistryReady, FilterChanges, ApplyChanges, InBounds,
         DiffMaps, MapOf, Merge;
    assert s.(admitted := s.admitted) == s;
  }

  lemma FiltersOwnedChange(policy: Policy, s: State, shell: Shell, change: LiveChange)
    requires policy(A).None? && A in RegistryOf(s).owned && A !in RegistryOf(s).pinned && change.identity == A
    ensures FilterChanges(policy, s, shell, [change]) == Some(Filtered([change], s.admitted))
  {
    Admissible(policy, RegistryOf(s), shell.presentAtAttach);
    hide RegistryOf, AdmitAll, KeptChanges, Admits;
    KeepsChange(policy, RegistryOf(s), shell.presentAtAttach, change);
    AdmitsKnown(RegistryOf(s), s.admitted);
    assert ChangeIds([change]) == [A];
  }

  lemma Updates(before: string, after: string)
    requires Short(before) && Short(after) && before != after
    ensures ApplyChanges(At(before), Becomes(Update, Scalar(after))) == At(after)
    ensures DiffMaps(MapOf(At(before)), MapOf(At(after))) == Becomes(Update, Scalar(after))
    ensures ValidChanges(Becomes(Update, Scalar(after)))
    ensures !ChangeMatches(Becomes(Update, Scalar(after))[0], At(before))
  {
    AtFacts(before);
    AtFacts(after);
    OneChange(Scalar(before), Scalar(after));
    OneDifference(Scalar(before), Scalar(after));
    hide ApplyChanges, DiffMaps, MapOf, ValidChanges;
  }

  lemma ChangedSince()
    ensures ChangedAfter([FIRST], 1) == {} && A in ChangedAfter([FIRST, SECOND], 1)
  {
    var rs := [FIRST, SECOND];
    assert [FIRST][..0] == [] && rs[..1] == [FIRST];
    assert ChangedAfter([], 1) == {};
    assert ChangeIdentity(SECOND.changes[0]) in Keys(ChangeIdentity, SECOND.changes);
  }

  lemma MergeOne(s: State, acknowledged: nat, change: LiveChange)
    ensures Accepted(s, acknowledged, [change]) == if Wins(s, acknowledged, change) then [change] else []
    ensures Losing(s, acknowledged, [change]) == if Loses(s, acknowledged, change) then [change] else []
  {
    hide Wins, Loses;
    assert [change][..0] == [];
    assert Accepted(s, acknowledged, []) == [] && Losing(s, acknowledged, []) == [];
  }

  lemma FirstWins(s: State)
    requires s == ALONE
    ensures var cs := Becomes(Update, Scalar("w")); Accepted(s, 1, cs) == cs && Losing(s, 1, cs) == []
  {
    Updates("v", "w");
    ChangedSince();
    MergeOne(s, 1, Becomes(Update, Scalar("w"))[0]);
    hide ChangeMatches, At, ChangedAfter, Accepted, Losing;
  }

  lemma SecondLoses(s: State)
    requires s == PUBLISHED
    ensures var cs := Becomes(Update, Scalar("x")); Accepted(s, 1, cs) == [] && Losing(s, 1, cs) == cs
  {
    Updates("w", "x");
    ChangedSince();
    MergeOne(s, 1, Becomes(Update, Scalar("x"))[0]);
    hide ChangeMatches, At, ChangedAfter, Accepted, Losing;
  }

  /** A publish whose whole delta is accepted. */
  lemma MergesAll(s: State, request: PublishRequest, shell: Shell, observed: seq<LiveState>, semantic: seq<LiveChange>)
    requires Accepted(s, request.acknowledgedRevision, semantic) == semantic != []
    requires Losing(s, request.acknowledgedRevision, semantic) == [] && s.headRevision < MAX_REVISION
    ensures var s1 := Advanced(s, ShellOrigin(request.operationId, request.credential.shellId), semantic,
                               ApplyChanges(s.shared, semantic));
            Merge(s, request, shell, observed, semantic) ==
            Ok(Recorded(s1, request.credential, request.operationId,
                        PublishDigest(request.acknowledgedRevision, request.delta),
                        PublishedShell(shell, s1.headRevision, observed, [], []),
                        Published(s1.headRevision, ChangeIds(semantic), [])))
  {
    hide Accepted, Losing, Advanced, ApplyChanges, Recorded, PublishedShell, ChangeIds;
  }

  lemma FirstAdvances(s: State)
    requires s == ALONE
    ensures Advanced(s, ShellOrigin("p", "s"), SECOND.changes, At("w")) ==
            PUBLISHED.(shells := ALONE.shells, receipts := ALONE.receipts)
  {
    assert [FIRST] + [SECOND] == [FIRST, SECOND];
    hide At;
  }

  lemma FirstRecorded()
    ensures Recorded(PUBLISHED.(shells := ALONE.shells, receipts := ALONE.receipts), OWNER, "p", FIRST_RECEIPT.digest,
                     PUBLISHED.shells["s"], FIRST_RECEIPT.reply) == Step(PUBLISHED, FIRST_RECEIPT.reply)
  {
    FewReceipts([ENTRY_RECEIPT], FIRST_RECEIPT);
    assert [ENTRY_RECEIPT] + [FIRST_RECEIPT] == [ENTRY_RECEIPT, FIRST_RECEIPT];
    hide WithReceipt, At;
    assert ALONE.shells["s" := PUBLISHED.shells["s"]] == PUBLISHED.shells;
  }

  lemma FirstShell()
    ensures PublishedShell(ENTERED, 2, At("w"), [], []) == PUBLISHED.shells["s"]
    ensures ChangeIds(SECOND.changes) == [A] && SECOND.changes != []
  {
    hide At;
  }

  lemma FirstMerges()
    ensures Merge(ALONE, Publishing("p", "w"), ENTERED, At("w"), Becomes(Update, Scalar("w"))) ==
            Ok(Step(PUBLISHED, FIRST_RECEIPT.reply))
  {
    Updates("v", "w");
    FirstWins(ALONE);
    FirstAdvances(ALONE);
    FirstRecorded();
    FirstShell();
    hide Accepted, Losing, At, ApplyChanges, ChangeIds, DiffMaps, MapOf, Merge, Recorded, Advanced, PublishedShell,
         Becomes;
    MergesAll(ALONE, Publishing("p", "w"), ENTERED, At("w"), Becomes(Update, Scalar("w")));
  }

  lemma SecondMerges()
    ensures Merge(PUBLISHED, Publishing("q", "x"), PUBLISHED.shells["s"], At("x"), Becomes(Update, Scalar("x"))) ==
            Ok(Step(CONFLICTED, SELF_RECEIPT.reply))
  {
    SecondLoses(PUBLISHED);
    FewReceipts([ENTRY_RECEIPT, FIRST_RECEIPT], SELF_RECEIPT);
    assert [ENTRY_RECEIPT, FIRST_RECEIPT] + [SELF_RECEIPT] == [ENTRY_RECEIPT, FIRST_RECEIPT, SELF_RECEIPT];
    hide Accepted, Losing, At, WithReceipt;
    assert ChangeIds([]) == [];
    assert ConflictsOf(Becomes(Update, Scalar("x")), Overlap, 1, 2, CONFLICT.token) == [CONFLICT];
    assert PUBLISHED.shells["s" := CONFLICTED.shells["s"]] == CONFLICTED.shells;
  }

  lemma PublishingReady(policy: Policy, s: State)
    requires s == ALONE || s == PUBLISHED
    ensures Authorized(s, OWNER) && RegistryReady(policy, s) && "s" in s.shells
    ensures A in RegistryOf(s).owned && A !in RegistryOf(s).pinned
  {
    LeavingReady(policy, s);
    hide RegistryReady, At;
  }

  lemma PublishesUpdate(policy: Policy, s: State, operation: string, shell: Shell, before: string, after: string,
                        step: Step)
    requires policy(A).None? && Short(before) && Short(after) && before != after && CheckPrivate(operation, OWNER).None?
    requires Authorized(s, OWNER) && RegistryReady(policy, s) && A in RegistryOf(s).owned && A !in RegistryOf(s).pinned
    requires ReceiptFor(s.receipts, "s", operation).None? && s.shells["s"] == shell
    requires shell.pending == NoPending && shell.appliedRevision == 1 && shell.conflict.None?
    requires shell.unpublishedDelta == [] && shell.captureBaseline == At(before)
    requires Merge(s, Publishing(operation, after), shell, At(after), Becomes(Update, Scalar(after))) == Ok(step)
    ensures PublishStep(policy, s, Publishing(operation, after)) == Ok(step)
  {
    AtFacts(before);
    AtFacts(after);
    Updates(before, after);
    FiltersOwnedChange(policy, s, shell, Becomes(Update, Scalar(after))[0]);
    hide PublishStep, Authorized, ReceiptFor, ValidChanges, RegistryReady, FilterChanges, ApplyChanges, InBounds,
         DiffMaps, MapOf, Merge, At, CheckPrivate, RegistryOf, Short;
    PublishMerges(policy, s, Publishing(operation, after), shell, At(after), Becomes(Update, Scalar(after)));
  }

  lemma PublishingNames()
    ensures CheckPrivate("p", OWNER).None? && CheckPrivate("q", OWNER).None?
    ensures ReceiptFor(ALONE.receipts, "s", "p").None? && ReceiptFor(PUBLISHED.receipts, "s", "q").None?
  {
    NamesAreValid();
    hide ValidToken, ValidCredential, At, ReceiptFor;
    NoReceipt(ALONE.receipts, "s", "p");
    NoReceipt(PUBLISHED.receipts, "s", "q");
  }

  lemma Publishes(policy: Policy)
    requires policy(A).None?
    ensures PublishStep(policy, ALONE, Publishing("p", "w")) == Ok(Step(PUBLISHED, FIRST_RECEIPT.reply))
  {
    FirstMerges();
    PublishingReady(policy, ALONE);
    PublishingNames();
    hide PublishStep, Authorized, ReceiptFor, RegistryReady, Merge, At, CheckPrivate, RegistryOf, Publishing,
         Becomes, PUBLISHED;
    PublishesUpdate(policy, ALONE, "p", ENTERED, "v", "w", Step(PUBLISHED, FIRST_RECEIPT.reply));
  }

  lemma PublishesAgain(policy: Policy)
    requires policy(A).None?
    ensures PublishStep(policy, PUBLISHED, Publishing("q", "x")) == Ok(Step(CONFLICTED, SELF_RECEIPT.reply))
  {
    SecondMerges();
    PublishingReady(policy, PUBLISHED);
    PublishingNames();
    hide PublishStep, Authorized, ReceiptFor, RegistryReady, Merge, At, CheckPrivate, RegistryOf, Publishing,
         Becomes, CONFLICTED;
    PublishesUpdate(policy, PUBLISHED, "q", PUBLISHED.shells["s"], "w", "x", Step(CONFLICTED, SELF_RECEIPT.reply));
  }

  lemma AloneLimits()
    ensures WithinLimits(ALONE) && WithinLimits(PUBLISHED) && WithinLimits(CONFLICTED)
  {
    FirstFold();
    Updates("v", "w");
    AtFacts("v");
    AtFacts("w");
    AtFacts("x");
    hide WithinLimits, FoldEvents, At, Recordable, ApplyChanges;
    FoldTwo(FIRST, SECOND);
    OneShellLimits(ALONE, "v", ENTERED);
    OneShellLimits(PUBLISHED, "w", PUBLISHED.shells["s"]);
    OneShellLimits(CONFLICTED, "w", CONFLICTED.shells["s"]);
  }

  const LONELY: seq<Op> :=
    [DoMaterialize("main", OID, OWNING)] + [DoAttach(ENTERING)] + [DoPublish(Publishing("p", "w"))] +
    [DoPublish(Publishing("q", "x"))]

  /**
   * A shell conflicts with itself: the only shell there ever was attaches at the head and
   * publishes twice without pulling in between, and its second publish loses to its own first.
   */
  lemma LoneShellRunConflicts(policy: Policy)
    requires policy(A).None?
    ensures var s := Run(policy, LONELY);
            && s.shells.Keys == {"s"} && s.shells["s"].conflict == Some(CONFLICT)
            && s.shells["s"].unpublishedDelta == Becomes(Update, Scalar("x"))
            && MapOf(s.shared) == map[A := Scalar("w")]
            && forall e | e in s.events && e.origin.ShellOrigin? :: e.origin.shellId == "s"
  {
    LonelyRuns(policy);
    AtFacts("w");
    hide Run, MapOf, At;
  }

  /** The first publish goes from the attach straight to publishing, an edge the table does not have. */
  lemma PublishAfterAttach(policy: Policy)
    requires policy(A).None?
    ensures Standing(Run(policy, LONELY[..2]), "s") == Some(Attaching)
    ensures Standing(Run(policy, LONELY[..3]), "s") == Some(Transition.Publishing)
    ensures !Legal(Some(Attaching), Transition.Publishing)
  {
    LonelyPrefix(policy);
    hide Run, At;
  }

  lemma LonelyPrefix(policy: Policy)
    requires policy(A).None?
    ensures Run(policy, LONELY[..2]) == ALONE && Run(policy, LONELY[..3]) == PUBLISHED
  {
    var o1 := [DoMaterialize("main", OID, OWNING)];
    var o2 := o1 + [DoAttach(ENTERING)];
    assert LONELY[..2] == o2 && LONELY[..3] == o2 + [DoPublish(Publishing("p", "w"))];
    Materializing(policy);
    Enters(policy);
    Publishes(policy);
    AloneLimits();
    hide *;
    RunsAttach(policy, o1, ENTERING, MATERIALIZED, Step(ALONE, ENTRY_RECEIPT.reply));
    RunsPublish(policy, o2, Publishing("p", "w"), ALONE, Step(PUBLISHED, FIRST_RECEIPT.reply));
  }

  lemma LonelyRuns(policy: Policy)
    requires policy(A).None?
    ensures Run(policy, LONELY) == CONFLICTED
  {
    assert LONELY == LONELY[..3] + [DoPublish(Publishing("q", "x"))];
    LonelyPrefix(policy);
    PublishesAgain(policy);
    AloneLimits();
    hide *;
    RunsPublish(policy, LONELY[..3], Publishing("q", "x"), PUBLISHED, Step(CONFLICTED, SELF_RECEIPT.reply));
  }
}
