/**
 * The canonical shared state and its validation (core/worktree/state.go).
 */
module State {
  import opened Wrappers
  import opened Live
  import opened Order
  import opened Diff
  import opened Projection
  import opened Fingerprint

  const MAX_STATE_EVENTS: nat := 128
  const MAX_SHELL_RECORDS: nat := 128
  const MAX_RECEIPTS_PER_SHELL: nat := 64
  const MAX_TOKEN_BYTES: nat := 128
  const MAX_BRANCH_BYTES: nat := 255
  const MAX_REVISION: nat := 0xFFFF_FFFF_FFFF_FFFF

  // ---------------------------------------------------------------- tokens and names

  predicate TokenStart(c: char) { Letter(c) || Digit(c) }

  predicate ValidToken(value: string) {
    0 < |value| <= MAX_TOKEN_BYTES && TokenStart(value[0]) &&
    forall c | c in value :: TokenStart(c) || c in "._:-"
  }

  predicate ValidBranch(value: string) {
    0 < |value| <= MAX_BRANCH_BYTES && TokenStart(value[0]) &&
    (forall c | c in value :: TokenStart(c) || c in "._/-") &&
    (forall i | 0 <= i < |value| - 1 :: !(value[i] == '.' && value[i + 1] == '.')) &&
    value[|value| - 1] != '/'
  }

  predicate ValidOid(value: string) {
    (|value| == 40 || |value| == 64) && forall c | c in value :: Digit(c) || 'a' <= c <= 'f'
  }

  // ---------------------------------------------------------------- data model

  datatype AdmissionReason =
    | UnsupportedKind | UnsafeName | Bookkeeping | Volatile | LiveSecret
    | PinnedSecret | PresentAtAttach | PolicyMissing

  datatype Exclusion = Exclusion(identity: Identity, reason: AdmissionReason)

  /**
   * What the registry and the activation builder derive from a committed source profile:
   * the owned identities, those pinned to a secret, and the normalized final states.
   */
  datatype Source = Source(owned: set<Identity>, pinned: set<Identity>, base: seq<LiveState>)

  datatype Committed = Committed(source: Source, projection: Projection)

  /** A request digest stands for the complete request it is computed from. */
  datatype RequestDigest =
    | AttachDigest(byteSize: nat, states: seq<LiveState>)
    | PublishDigest(revision: nat, delta: seq<LiveChange>)
    | PrepareDigest(revision: nat)
    | ResolveDigest(conflict: Identity, token: Token, observed: seq<LiveState>)
    | AcknowledgeDigest(revision: nat, token: Token, observed: seq<LiveState>)

  /** Tokens the service derives, and any other text a client may present. */
  datatype Token =
    | NoToken
    | PullToken(operationId: string, digest: RequestDigest, revision: nat)
    | ConflictToken(operationId: string, digest: RequestDigest, revision: nat)
    | ForeignToken(text: string)

  predicate UsableToken(token: Token) {
    match token
    case NoToken => false
    case ForeignToken(text) => ValidToken(text)
    case _ => true
  }

  datatype ConflictKind = Overlap | HistoryGap

  datatype Conflict = Conflict(kind: ConflictKind, identity: Identity, baseRevision: nat,
                               sharedRevision: nat, token: Token)

  datatype Origin =
    | MaterializeOrigin | WorkflowOrigin(operation: string) | ShellOrigin(operationId: string, shellId: string)

  datatype Event = Event(revision: nat, origin: Origin, changes: seq<LiveChange>)

  datatype AttachState = AtHead | CleanReconcile

  datatype Transition =
    | Attaching | Capturing | Unpublished | Publishing | Preparing | Resolving | Applying | FreshCapture | Acknowledging

  datatype Pending =
    | NoPending
    | Pull(revision: nat, fingerprint: Fingerprint, token: Token, changes: seq<LiveChange>)
    | Resolution(revision: nat, fingerprint: Fingerprint, token: Token, changes: seq<LiveChange>, conflict: Identity)

  datatype Capability = NoCapability | Capability(secret: string)

  datatype Credential = Credential(shellId: string, capability: Capability)

  /** A verifier admits exactly the capability it was derived from. */
  datatype Verifier = NoVerifier | VerifierOf(capability: Capability)

  predicate Verifies(verifier: Verifier, capability: Capability) {
    capability.Capability? && verifier == VerifierOf(capability)
  }

  predicate ValidCredential(credential: Credential) {
    ValidToken(credential.shellId) && credential.capability.Capability?
  }

  datatype Shell = Shell(
    verifier: Verifier,
    attachState: AttachState,
    attachedRevision: nat,
    appliedRevision: nat,
    appliedBaseline: seq<LiveState>,
    captureBaseline: seq<LiveState>,
    unpublishedDelta: seq<LiveChange>,
    presentAtAttach: seq<Identity>,
    exclusions: seq<Exclusion>,
    transition: Transition,
    pending: Pending,
    behind: bool,
    conflict: Option<Conflict>,
    lastActiveRevision: nat)

  datatype Reply =
    | Attached(revision: nat, reconcileRequired: bool, exclusions: seq<Exclusion>)
    | Published(sharedRevision: nat, accepted: seq<Identity>, conflicts: seq<Conflict>)
    | Prepared(pendingRevision: nat, token: Token, changes: seq<LiveChange>)
    | Resolved(pendingRevision: nat, token: Token, changes: seq<LiveChange>)
    | Acknowledged(appliedRevision: nat)

  datatype Receipt = Receipt(shellId: string, operationId: string, digest: RequestDigest, reply: Reply)

  datatype State = State(
    materialized: bool,
    branch: string,
    baseOid: string,
    committed: Committed,
    headRevision: nat,
    autoApplyDefault: bool,
    admitted: seq<Identity>,
    shared: seq<LiveState>,
    compactionFloor: nat,
    compactionBaseline: seq<LiveState>,
    events: seq<Event>,
    shells: map<string, Shell>,
    receipts: seq<Receipt>)

  // ---------------------------------------------------------------- validation

  /** validatePresentStates without its record limit. */
  predicate WellFormed(states: seq<LiveState>) {
    AllValid(states) && Distinct(states) && AllPresent(states)
  }

  predicate Recordable(states: seq<LiveState>) { |states| <= MAX_SNAPSHOT_RECORDS }

  predicate ValidCommitted(committed: Committed) {
    && WellFormed(committed.projection.states) && Recordable(committed.projection.states)
    && (forall id | id in committed.projection.tombstones :: ValidIdentity(id))
    && DistinctIdentities(committed.projection.tombstones)
  }

  predicate DistinctIdentities(ids: seq<Identity>) {
    forall i, j :: 0 <= i < j < |ids| ==> ids[i] != ids[j]
  }

  predicate ValidIdentityList(ids: seq<Identity>) {
    DistinctIdentities(ids) && forall id | id in ids :: ValidIdentity(id)
  }

  function AdmittedBytes(ids: seq<Identity>): nat {
    if ids == [] then 0
    else |KindText(ids[0].kind)| + |ids[0].name| + 2 + AdmittedBytes(ids[1..])
  }

  predicate AdmittedWithinLimits(ids: seq<Identity>) {
    |ids| <= MAX_SNAPSHOT_RECORDS && AdmittedBytes(ids) <= MAX_SNAPSHOT_BYTES
  }

  predicate CanonicalAdmitted(ids: seq<Identity>) {
    (forall id | id in ids :: ValidIdentity(id)) && Sorted(AdmittedLess, ids)
  }

  predicate ValidOrigin(origin: Origin) {
    origin.ShellOrigin? ==> ValidToken(origin.operationId) && ValidToken(origin.shellId)
  }

  predicate ValidEvent(event: Event) { ValidOrigin(event.origin) && ValidChanges(event.changes) }

  /** Revisions run without a gap from the one after `floor` to `head`. */
  predicate ValidEventSequence(floor: nat, head: nat, events: seq<Event>) {
    && floor + |events| == head
    && forall i | 0 <= i < |events| :: events[i].revision == floor + 1 + i && ValidEvent(events[i])
  }

  function FoldEvents(baseline: seq<LiveState>, events: seq<Event>): seq<LiveState> {
    if events == [] then baseline
    else ApplyChanges(FoldEvents(baseline, events[..|events| - 1]), events[|events| - 1].changes)
  }

  predicate ValidConflict(conflict: Conflict, head: nat) {
    && ValidIdentity(conflict.identity) && 0 < conflict.sharedRevision <= head
    && conflict.baseRevision <= conflict.sharedRevision && UsableToken(conflict.token)
  }

  predicate ValidPending(shell: Shell, head: nat) {
    match shell.pending
    case NoPending => true
    case Pull(revision, fingerprint, token, changes) =>
      && 0 < revision <= head && shell.appliedRevision <= revision && fingerprint.Fingerprint?
      && UsableToken(token) && ValidChanges(changes)
    case Resolution(revision, fingerprint, token, changes, _) =>
      && 0 < revision <= head && shell.appliedRevision <= revision && fingerprint.Fingerprint?
      && UsableToken(token) && ValidChanges(changes)
      && shell.conflict.Some? && shell.unpublishedDelta != []
  }

  predicate ValidShell(shellId: string, shell: Shell, head: nat) {
    && ValidToken(shellId) && shell.verifier.VerifierOf?
    && shell.attachedRevision <= head && shell.appliedRevision <= head && shell.lastActiveRevision <= head
    && (shell.attachState == AtHead ==> shell.attachedRevision != 0)
    && (shell.attachState == CleanReconcile ==> shell.appliedRevision == 0 && shell.appliedBaseline == [])
    && WellFormed(shell.appliedBaseline) && WellFormed(shell.captureBaseline)
    && ValidChanges(shell.unpublishedDelta) && ValidIdentityList(shell.presentAtAttach)
    && (forall e | e in shell.exclusions :: ValidIdentity(e.identity))
    && ValidPending(shell, head)
    && (shell.conflict.Some? ==> ValidConflict(shell.conflict.value, head))
    && (shell.conflict.Some? <==> shell.unpublishedDelta != [])
    && (shell.transition == Unpublished ==> shell.conflict.Some?)
    && (shell.transition == Preparing ==> shell.pending.Pull?)
    && (shell.transition == Resolving ==> shell.pending.Resolution?)
  }

  function OfShell(receipts: seq<Receipt>, shellId: string): seq<Receipt> {
    if receipts == [] then []
    else
      var last := receipts[|receipts| - 1];
      OfShell(receipts[..|receipts| - 1], shellId) + (if last.shellId == shellId then [last] else [])
  }

  predicate ReceiptsUnique(receipts: seq<Receipt>) {
    forall i, j :: 0 <= i < j < |receipts| ==>
      receipts[i].shellId != receipts[j].shellId || receipts[i].operationId != receipts[j].operationId
  }

  predicate ValidReceipts(receipts: seq<Receipt>, shells: map<string, Shell>) {
    && (forall r | r in receipts :: r.shellId in shells && ValidToken(r.operationId))
    && ReceiptsUnique(receipts)
    && (forall id | id in shells :: |OfShell(receipts, id)| <= MAX_RECEIPTS_PER_SHELL)
  }

  predicate Blank(s: State) {
    && s.branch == "" && s.baseOid == "" && s.headRevision == 0 && s.admitted == [] && s.shared == []
    && s.events == [] && s.shells == map[] && s.receipts == []
  }

  /** Every check of ValidateState except its size limits and the maximum revision. */
  predicate Structural(s: State) {
    if !s.materialized then Blank(s)
    else
      && ValidBranch(s.branch) && ValidOid(s.baseOid)
      && 0 < s.headRevision && s.compactionFloor <= s.headRevision
      && ValidCommitted(s.committed) && CanonicalAdmitted(s.admitted)
      && WellFormed(s.shared) && WellFormed(s.compactionBaseline)
      && |s.events| <= MAX_STATE_EVENTS
      && ValidEventSequence(s.compactionFloor, s.headRevision, s.events)
      && MapOf(FoldEvents(s.compactionBaseline, s.events)) == MapOf(s.shared)
      && Distinct(FoldEvents(s.compactionBaseline, s.events))
      && AllValid(FoldEvents(s.compactionBaseline, s.events))
      && |s.shells| <= MAX_SHELL_RECORDS
      && (forall id | id in s.shells :: ValidShell(id, s.shells[id], s.headRevision))
      && ValidReceipts(s.receipts, s.shells)
  }

  /** The size limits and the revision cap of ValidateState. */
  predicate WithinLimits(s: State) {
    s.materialized ==>
      && s.headRevision < MAX_REVISION
      && AdmittedWithinLimits(s.admitted)
      && Recordable(s.compactionBaseline)
      && InBounds(s.shared) && InBounds(FoldEvents(s.compactionBaseline, s.events))
      && forall id | id in s.shells ::
           Recordable(s.shells[id].appliedBaseline) && Recordable(s.shells[id].captureBaseline)
  }

  predicate ValidState(s: State) { Structural(s) && WithinLimits(s) }

  // ---------------------------------------------------------------- validators

  method ValidateEventSequence(floor: nat, head: nat, events: seq<Event>) returns (ok: bool)
    ensures ok <==> ValidEventSequence(floor, head, events)
  {
    if |events| == 0 {
      return floor == head;
    }
    var expected := floor + 1;
    for i := 0 to |events|
      invariant expected == floor + 1 + i
      invariant forall k | 0 <= k < i :: events[k].revision == floor + 1 + k && ValidEvent(events[k])
    {
      if events[i].revision != expected || !ValidOrigin(events[i].origin) {
        return false;
      }
      var changesOk := ValidateChanges(events[i].changes);
      if !changesOk {
        return false;
      }
      expected := expected + 1;
    }
    ok := events[|events| - 1].revision == head;
  }

  method ValidateSharedGeneration(baseline: seq<LiveState>, events: seq<Event>, shared: seq<LiveState>)
    returns (ok: bool)
    requires AllValid(baseline) && Distinct(baseline)
    requires forall e | e in events :: ValidChanges(e.changes)
    ensures ok <==> Comparable(FoldEvents(baseline, events)) && Comparable(shared) &&
                    MapOf(FoldEvents(baseline, events)) == MapOf(shared)
  {
    var current := baseline;
    for i := 0 to |events|
      invariant current == FoldEvents(baseline, events[..i]) && AllValid(current)
    {
      assert events[..i + 1][..i] == events[..i];
      assert ValidChanges(events[i].changes) by { assert events[i] in events; }
      var applied := ApplyStateChanges(current, events[i].changes);
      ApplyChangesMap(current, events[i].changes);
      current := applied.value;
    }
    assert events[..|events|] == events;
    ok := EqualLiveStates(current, shared);
  }

  lemma {:induction false} OfShellSnoc(receipts: seq<Receipt>, i: nat, shellId: string)
    requires i < |receipts|
    ensures OfShell(receipts[..i + 1], shellId) ==
            OfShell(receipts[..i], shellId) + (if receipts[i].shellId == shellId then [receipts[i]] else [])
  {
    assert receipts[..i + 1][..i] == receipts[..i];
  }

  lemma {:induction false} OfShellPrefix(receipts: seq<Receipt>, i: nat, shellId: string)
    requires i <= |receipts|
    ensures |OfShell(receipts[..i], shellId)| <= |OfShell(receipts, shellId)|
    decreases |receipts| - i
  {
    if i < |receipts| {
      OfShellPrefix(receipts, i + 1, shellId);
      OfShellSnoc(receipts, i, shellId);
    } else {
      assert receipts[..i] == receipts;
    }
  }

  lemma {:induction false} OfShellAbsent(receipts: seq<Receipt>, shellId: string)
    requires forall r | r in receipts :: r.shellId != shellId
    ensures OfShell(receipts, shellId) == []
  {
    if receipts != [] {
      OfShellAbsent(receipts[..|receipts| - 1], shellId);
    }
  }

  /** `counts` and `seen` summarize the first `n` receipts, all of them acceptable. */
  ghost predicate Tallied(receipts: seq<Receipt>, n: nat, shells: map<string, Shell>,
                          seen: set<(string, string)>, counts: map<string, int>)
    requires n <= |receipts|
  {
    && (forall k | 0 <= k < n :: receipts[k].shellId in shells && ValidToken(receipts[k].operationId))
    && (forall k | 0 <= k < n :: (receipts[k].shellId, receipts[k].operationId) in seen)
    && (forall p | p in seen :: exists k | 0 <= k < n :: (receipts[k].shellId, receipts[k].operationId) == p)
    && ReceiptsUnique(receipts[..n])
    && (forall id | id in counts :: 0 <= counts[id] <= MAX_RECEIPTS_PER_SHELL)
    && (forall id :: |OfShell(receipts[..n], id)| == Count(counts, id))
  }

  function Count(counts: map<string, int>, id: string): int { if id in counts then counts[id] else 0 }

  lemma TallyOne(receipts: seq<Receipt>, n: nat, shells: map<string, Shell>,
                 seen: set<(string, string)>, counts: map<string, int>)
    requires n < |receipts| && Tallied(receipts, n, shells, seen, counts)
    requires receipts[n].shellId in shells && ValidToken(receipts[n].operationId)
    requires (receipts[n].shellId, receipts[n].operationId) !in seen
    requires Count(counts, receipts[n].shellId) < MAX_RECEIPTS_PER_SHELL
    ensures Tallied(receipts, n + 1, shells, seen + {(receipts[n].shellId, receipts[n].operationId)},
                    counts[receipts[n].shellId := Count(counts, receipts[n].shellId) + 1])
  {
    var counts' := counts[receipts[n].shellId := Count(counts, receipts[n].shellId) + 1];
    forall id
      ensures |OfShell(receipts[..n + 1], id)| == Count(counts', id)
    {
      OfShellSnoc(receipts, n, id);
      assert |OfShell(receipts[..n], id)| == Count(counts, id);
    }
    forall k | 0 <= k < n
      ensures receipts[k].shellId != receipts[n].shellId || receipts[k].operationId != receipts[n].operationId
    {
      assert (receipts[k].shellId, receipts[k].operationId) in seen;
    }
    assert receipts[..n + 1] == receipts[..n] + [receipts[n]];
  }

  method ValidateReceipts(receipts: seq<Receipt>, shells: map<string, Shell>) returns (ok: bool)
    ensures ok <==> ValidReceipts(receipts, shells)
  {
    hide Tallied;
    TallyNone(receipts, shells);
    var counts: map<string, int> := map[];
    var seen: set<(string, string)> := {};
    for i := 0 to |receipts|
      invariant Tallied(receipts, i, shells, seen, counts)
    {
      var receipt := receipts[i];
      if receipt.shellId !in shells || !ValidToken(receipt.operationId) {
        assert receipt in receipts;
        return false;
      }
      TallyMeaning(receipts, i, shells, seen, counts);
      if (receipt.shellId, receipt.operationId) in seen {
        return false;
      }
      if Count(counts, receipt.shellId) + 1 > MAX_RECEIPTS_PER_SHELL {
        return false;
      }
      TallyOne(receipts, i, shells, seen, counts);
      seen := seen + {(receipt.shellId, receipt.operationId)};
      counts := counts[receipt.shellId := Count(counts, receipt.shellId) + 1];
    }
    TallyAll(receipts, shells, seen, counts);
    ok := true;
  }

  lemma TallyNone(receipts: seq<Receipt>, shells: map<string, Shell>)
    ensures Tallied(receipts, 0, shells, {}, map[])
  {
  }

  lemma TallyMeaning(receipts: seq<Receipt>, n: nat, shells: map<string, Shell>,
                     seen: set<(string, string)>, counts: map<string, int>)
    requires n < |receipts| && Tallied(receipts, n, shells, seen, counts)
    ensures (receipts[n].shellId, receipts[n].operationId) in seen ==> !ReceiptsUnique(receipts)
    ensures Count(counts, receipts[n].shellId) + 1 <= |OfShell(receipts, receipts[n].shellId)|
  {
    OfShellSnoc(receipts, n, receipts[n].shellId);
    OfShellPrefix(receipts, n + 1, receipts[n].shellId);
    assert |OfShell(receipts[..n], receipts[n].shellId)| == Count(counts, receipts[n].shellId);
  }

  lemma TallyAll(receipts: seq<Receipt>, shells: map<string, Shell>,
                 seen: set<(string, string)>, counts: map<string, int>)
    requires Tallied(receipts, |receipts|, shells, seen, counts)
    ensures ValidReceipts(receipts, shells)
  {
    assert receipts[..|receipts|] == receipts;
    forall id | id in shells
      ensures |OfShell(receipts, id)| <= MAX_RECEIPTS_PER_SHELL
    {
      assert |OfShell(receipts[..|receipts|], id)| == Count(counts, id);
    }
  }

  // ---------------------------------------------------------------- compaction

  datatype History = History(baseline: seq<LiveState>, floor: nat, events: seq<Event>)

  function Compact(h: History): History
    decreases |h.events|
  {
    if |h.events| <= MAX_STATE_EVENTS then h
    else Compact(History(ApplyChanges(h.baseline, h.events[0].changes), h.events[0].revision, h.events[1..]))
  }

  /** Drops the oldest events into the baseline until the window fits. */
  method CompactStateHistory(head: nat, h: History) returns (r: Result<History, ()>)
    requires AllValid(h.baseline)
    ensures r.Ok? <==> h.floor <= head && ValidEventSequence(h.floor, head, h.events)
    ensures r.Ok? ==> r.value == Compact(h)
  {
    if h.floor > head {
      return Err(());
    }
    var valid := ValidateEventSequence(h.floor, head, h.events);
    if !valid {
      return Err(());
    }
    var current := h;
    while |current.events| > MAX_STATE_EVENTS
      invariant AllValid(current.baseline)
      invariant forall e | e in current.events :: ValidChanges(e.changes)
      invariant Compact(current) == Compact(h)
      decreases |current.events|
    {
      var dropped := current.events[0];
      var baseline := ApplyStateChanges(current.baseline, dropped.changes);
      ApplyChangesMap(current.baseline, dropped.changes);
      current := History(baseline.value, dropped.revision, current.events[1..]);
    }
    r := Ok(current);
  }

  lemma {:induction false} FoldSplit(baseline: seq<LiveState>, events: seq<Event>)
    requires events != []
    ensures FoldEvents(baseline, events) == FoldEvents(ApplyChanges(baseline, events[0].changes), events[1..])
  {
    hide ApplyChanges;
    var n := |events| - 1;
    if n == 0 {
      assert events[..0] == [];
    } else {
      FoldSplit(baseline, events[..n]);
      assert events[..n][1..] == events[1..][..n - 1];
    }
  }

  /** Compaction keeps the fold and the head, bounds the window, and stays contiguous. */
  lemma {:induction false} CompactKeepsHistory(h: History, head: nat)
    requires WellFormed(h.baseline) && ValidEventSequence(h.floor, head, h.events)
    ensures var c := Compact(h);
            && FoldEvents(c.baseline, c.events) == FoldEvents(h.baseline, h.events)
            && ValidEventSequence(c.floor, head, c.events)
            && |c.events| <= MAX_STATE_EVENTS && h.floor <= c.floor
            && WellFormed(c.baseline)
    decreases |h.events|
  {
    if |h.events| > MAX_STATE_EVENTS {
      FoldSplit(h.baseline, h.events);
      ApplyChangesMap(h.baseline, h.events[0].changes);
      var tail := h.events[1..];
      forall i | 0 <= i < |tail|
        ensures tail[i].revision == h.events[0].revision + 1 + i && ValidEvent(tail[i])
      {
        assert tail[i] == h.events[i + 1];
      }
      CompactKeepsHistory(History(ApplyChanges(h.baseline, h.events[0].changes), h.events[0].revision, tail), head);
    }
  }

  // ---------------------------------------------------------------- receipts

  function ReceiptFor(receipts: seq<Receipt>, shellId: string, operationId: string): Option<Receipt> {
    if receipts == [] then None
    else
      var last := receipts[|receipts| - 1];
      if last.shellId == shellId && last.operationId == operationId then Some(last)
      else ReceiptFor(receipts[..|receipts| - 1], shellId, operationId)
  }

  method FindReceipt(receipts: seq<Receipt>, shellId: string, operationId: string) returns (r: Option<Receipt>)
    ensures r == ReceiptFor(receipts, shellId, operationId)
  {
    var index := |receipts|;
    assert receipts[..|receipts|] == receipts;
    while index > 0
      invariant 0 <= index <= |receipts|
      invariant ReceiptFor(receipts, shellId, operationId) == ReceiptFor(receipts[..index], shellId, operationId)
    {
      assert receipts[..index][..index - 1] == receipts[..index - 1];
      index := index - 1;
      if receipts[index].shellId == shellId && receipts[index].operationId == operationId {
        return Some(receipts[index]);
      }
    }
    assert receipts[..0] == [];
    r := None;
  }

  /** Removes the oldest receipt of one shell. */
  function DropOldest(receipts: seq<Receipt>, shellId: string): seq<Receipt> {
    if receipts == [] then []
    else if receipts[0].shellId == shellId then receipts[1..]
    else [receipts[0]] + DropOldest(receipts[1..], shellId)
  }

  function WithReceipt(receipts: seq<Receipt>, receipt: Receipt): seq<Receipt> {
    (if |OfShell(receipts, receipt.shellId)| >= MAX_RECEIPTS_PER_SHELL
     then DropOldest(receipts, receipt.shellId) else receipts) + [receipt]
  }

  lemma {:induction false} OfShellConcat(a: seq<Receipt>, b: seq<Receipt>, shellId: string)
    ensures OfShell(a + b, shellId) == OfShell(a, shellId) + OfShell(b, shellId)
  {
    if b == [] {
      assert a + b == a;
    } else {
      assert (a + b)[..|a + b| - 1] == a + b[..|b| - 1];
      OfShellConcat(a, b[..|b| - 1], shellId);
    }
  }

  lemma OfShellOne(r: Receipt, shellId: string)
    ensures OfShell([r], shellId) == if r.shellId == shellId then [r] else []
  {
    assert [r][..0] == [];
  }

  lemma {:induction false} DropOldestWindow(receipts: seq<Receipt>, shellId: string, other: string)
    ensures other != shellId ==> OfShell(DropOldest(receipts, shellId), other) == OfShell(receipts, other)
    ensures OfShell(receipts, shellId) != [] ==>
              OfShell(DropOldest(receipts, shellId), shellId) == OfShell(receipts, shellId)[1..]
    ensures forall r | r in DropOldest(receipts, shellId) :: r in receipts
  {
    if receipts != [] {
      var head, tail := receipts[0], receipts[1..];
      assert receipts == [head] + tail;
      OfShellConcat([head], tail, shellId);
      OfShellConcat([head], tail, other);
      OfShellOne(head, shellId);
      OfShellOne(head, other);
      if head.shellId != shellId {
        DropOldestWindow(tail, shellId, other);
        OfShellConcat([head], DropOldest(tail, shellId), shellId);
        OfShellConcat([head], DropOldest(tail, shellId), other);
      }
    }
  }

  lemma {:induction false} DropOldestUnique(receipts: seq<Receipt>, shellId: string)
    requires ReceiptsUnique(receipts)
    ensures ReceiptsUnique(DropOldest(receipts, shellId))
  {
    if receipts != [] {
      var tail := receipts[1..];
      forall i, j | 0 <= i < j < |tail|
        ensures tail[i].shellId != tail[j].shellId || tail[i].operationId != tail[j].operationId
      {
        assert tail[i] == receipts[i + 1] && tail[j] == receipts[j + 1];
      }
      if receipts[0].shellId != shellId {
        DropOldestUnique(tail, shellId);
        DropOldestWindow(tail, shellId, shellId);
        var rest := DropOldest(tail, shellId);
        forall j | 0 <= j < |rest|
          ensures receipts[0].shellId != rest[j].shellId || receipts[0].operationId != rest[j].operationId
        {
          assert rest[j] in tail;
          var k :| 0 <= k < |tail| && tail[k] == rest[j];
          assert receipts[k + 1] == rest[j];
        }
      }
    }
  }

  /** The newest receipts of a window, at most the per-shell maximum. */
  function Window(receipts: seq<Receipt>): seq<Receipt> {
    if |receipts| <= MAX_RECEIPTS_PER_SHELL then receipts
    else receipts[|receipts| - MAX_RECEIPTS_PER_SHELL..]
  }

  lemma OfShellAppend(receipts: seq<Receipt>, receipt: Receipt, shellId: string)
    ensures OfShell(receipts + [receipt], shellId) ==
            OfShell(receipts, shellId) + if receipt.shellId == shellId then [receipt] else []
  {
    OfShellConcat(receipts, [receipt], shellId);
    OfShellOne(receipt, shellId);
  }

  /** One append slides exactly the appending shell's window and no other. */
  lemma ReceiptWindow(receipts: seq<Receipt>, receipt: Receipt, other: string)
    requires |OfShell(receipts, receipt.shellId)| <= MAX_RECEIPTS_PER_SHELL
    ensures OfShell(WithReceipt(receipts, receipt), receipt.shellId) ==
            Window(OfShell(receipts, receipt.shellId) + [receipt])
    ensures other != receipt.shellId ==>
              OfShell(WithReceipt(receipts, receipt), other) == OfShell(receipts, other)
  {
    hide OfShell, DropOldest;
    var shellId, window := receipt.shellId, OfShell(receipts, receipt.shellId);
    if |window| >= MAX_RECEIPTS_PER_SHELL {
      DropOldestWindow(receipts, shellId, other);
      OfShellAppend(DropOldest(receipts, shellId), receipt, shellId);
      OfShellAppend(DropOldest(receipts, shellId), receipt, other);
      assert (window + [receipt])[1..] == window[1..] + [receipt];
    } else {
      OfShellAppend(receipts, receipt, shellId);
      OfShellAppend(receipts, receipt, other);
    }
  }

  /** The splice of appendReceipt: count, remember the first, cut it out when full. */
  method AppendReceipt(receipts: seq<Receipt>, receipt: Receipt) returns (r: seq<Receipt>)
    ensures r == WithReceipt(receipts, receipt)
  {
    var count, remove := 0, -1;
    for index := 0 to |receipts|
      invariant count == |OfShell(receipts[..index], receipt.shellId)|
      invariant -1 <= remove < index
      invariant remove < 0 ==> count == 0 && forall k | 0 <= k < index :: receipts[k].shellId != receipt.shellId
      invariant remove >= 0 ==> receipts[remove].shellId == receipt.shellId &&
                                forall k | 0 <= k < remove :: receipts[k].shellId != receipt.shellId
    {
      OfShellSnoc(receipts, index, receipt.shellId);
      if receipts[index].shellId == receipt.shellId {
        count := count + 1;
        if remove < 0 {
          remove := index;
        }
      }
    }
    assert receipts[..|receipts|] == receipts;
    r := receipts;
    if count >= MAX_RECEIPTS_PER_SHELL && remove >= 0 {
      DropAt(receipts, receipt.shellId, remove);
      r := receipts[..remove] + receipts[remove + 1..];
    }
    r := r + [receipt];
  }

  lemma {:induction false} DropAt(receipts: seq<Receipt>, shellId: string, at: nat)
    requires at < |receipts| && receipts[at].shellId == shellId
    requires forall k | 0 <= k < at :: receipts[k].shellId != shellId
    ensures DropOldest(receipts, shellId) == receipts[..at] + receipts[at + 1..]
  {
    if at > 0 {
      DropAt(receipts[1..], shellId, at - 1);
      assert receipts[..at] == [receipts[0]] + receipts[1..][..at - 1];
      assert receipts[1..][at..] == receipts[at + 1..];
    }
  }
}
