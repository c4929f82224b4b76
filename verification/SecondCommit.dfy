/**
 * A run in which a second commit requires recovery: its changes are taken against the committed
 * projection, but it rebuilds from the source, which the first commit left as it was.
 */
module SecondCommit {
  import opened Wrappers
  import opened LastOccurrence
  import opened Live
  import opened Order
  import opened Diff
  import opened Projection
  import opened State
  import opened Registry
  import opened Steps
  import opened Protocol
  import opened Runs
  import opened Compiled
  import opened Scenarios

  // ---------------------------------------------------------------- the first commit

  /** What the repository holds after the first commit: the same source, the new projection. */
  const RECOMMITTED: Committed := Committed(OWNING.source, Projection(At("w"), []))

  const COMMITTING: Op := DoCommit("m", CommitReply(CommitResult(true, OID, false, false), false, Some(RECOMMITTED)))

  /** After the first identity was published as "w" and committed. */
  const COMMITTED: State := PUBLISHED.(committed := RECOMMITTED)

  lemma Rebuilds(source: Source)
    requires source.base == At("v")
    ensures EffectiveStates(source, Becomes(Update, Scalar("w"))) == At("w")
  {
    AtFacts("v");
    Updates("v", "w");
    hide At, Becomes, Overlay, Normal, PresentOnly;
  }

  /** A commit that the repository confirms with the document it rebuilt. */
  lemma CommitSucceeds(policy: Policy, s: State, message: string, changes: seq<LiveChange>, oid: string,
                       exact: Committed)
    requires message != "" && NUL !in message && s.materialized && DirtyDecidable(s)
    requires DirtyChanges(s) == changes != [] && AllValid(s.committed.source.base)
    requires SameStates(EffectiveStates(s.committed.source, changes), s.shared)
    requires ValidOid(oid) && ValidCommitted(exact) && SameStates(exact.projection.states, s.shared)
    requires RegistryReady(policy, s.(baseOid := oid, committed := exact))
    ensures CommitStep(policy, s, message, CommitReply(CommitResult(true, oid, false, false), false, Some(exact))) ==
            CommitOutcome(s.(baseOid := oid, committed := exact), CommitResult(true, oid, false, false), None)
  {
    hide DirtyDecidable, DirtyChanges, AllValid, SameStates, EffectiveStates, ValidOid, ValidCommitted, RegistryReady;
  }

  lemma RecommittedValid()
    ensures ValidCommitted(RECOMMITTED)
  {
    AtFacts("w");
    hide At, WellFormed;
  }

  lemma CommittingFacts(policy: Policy, s: State)
    requires s == PUBLISHED
    ensures s.materialized && DirtyDecidable(s) && DirtyChanges(s) == Becomes(Update, Scalar("w")) != []
    ensures s.committed.source.base == At("v") && AllValid(s.committed.source.base) && SameStates(At("w"), s.shared)
    ensures RegistryReady(policy, s.(baseOid := OID, committed := RECOMMITTED))
  {
    AtFacts("v");
    AtFacts("w");
    Updates("v", "w");
    LeavingReady(policy, s.(baseOid := OID, committed := RECOMMITTED));
    hide At, DiffMaps, MapOf, InBounds, AllValid, Distinct, RegistryReady, OID;
  }

  lemma CallbackCommits(policy: Policy, s: State, message: string, reply: CommitReply)
    ensures Callback(policy, s, DoCommit(message, reply)) == Some(CommitStep(policy, s, message, reply).state)
  {
    hide CommitStep;
  }

  lemma CommittingIs()
    ensures PUBLISHED.(baseOid := OID, committed := RECOMMITTED) == COMMITTED
    ensures COMMITTING == DoCommit("m", CommitReply(CommitResult(true, OID, false, false), false, Some(RECOMMITTED)))
    ensures RECOMMITTED.projection.states == At("w") && "m" != "" && NUL !in "m"
  {
    hide At, OID;
  }

  lemma Commits(policy: Policy)
    ensures Callback(policy, PUBLISHED, COMMITTING) == Some(COMMITTED)
  {
    NamesAreValid();
    RecommittedValid();
    CommittingFacts(policy, PUBLISHED);
    Rebuilds(PUBLISHED.committed.source);
    CommittingIs();
    hide *;
    CommitSucceeds(policy, PUBLISHED, "m", Becomes(Update, Scalar("w")), OID, RECOMMITTED);
    CallbackCommits(policy, PUBLISHED, "m",
                    CommitReply(CommitResult(true, OID, false, false), false, Some(RECOMMITTED)));
  }

  // ---------------------------------------------------------------- another identity

  /** The second identity appears. */
  const APPEARS: seq<LiveChange> := [LiveChange(Add, B, Scalar("x"))]

  const BOTH: seq<LiveState> := [LiveState(A, Scalar("w")), LiveState(B, Scalar("x"))]

  lemma BothFacts()
    ensures MapOf(BOTH) == map[A := Scalar("w"), B := Scalar("x")] && WellFormed(BOTH) && InBounds(BOTH)
    ensures Recordable(BOTH)
  {
    BothMap();
    BothSize();
    hide MapOf, InBounds;
  }

  lemma BothMap()
    ensures MapOf(BOTH) == map[A := Scalar("w"), B := Scalar("x")]
  {
    AtFacts("w");
    assert BOTH[..1] == At("w");
    hide At;
  }

  lemma BothSize()
    ensures InBounds(BOTH)
  {
    var s := BOTH;
    assert s[1..][1..] == [] && s[1..][0] == s[1];
    assert StateBytes(s[1..][1..]) == 0;
    assert StateBytes(s[1..]) == |KindText(Env)| + |"B"| + |"x"|;
    assert StateBytes(s) == |KindText(Env)| + |"A"| + |"w"| + StateBytes(s[1..]);
  }

  /** An edit of an identity outside the states follows them. */
  lemma NewIsAppended(base: seq<LiveState>, edit: LiveState)
    requires Normal(base) == base && edit.identity !in Identities(base) && !edit.value.Removed? && AllPresent(base)
    ensures Overlay(Normal(base), [edit]) == base + [edit]
  {
    RewrittenAlone(base, edit);
    assert [edit][..0] == [];
    assert Diff.Appended([], Identities(base)) == [];
    hide Rewritten, Normal, Identities;
    assert Diff.Appended([edit], Identities(base)) == [] + [edit];
  }

  lemma {:induction false} RewrittenAlone(base: seq<LiveState>, edit: LiveState)
    requires edit.identity !in Identities(base) && AllPresent(base)
    ensures Rewritten(base, [edit]) == base
  {
    if base != [] {
      var n := |base| - 1;
      assert base == base[..n] + [base[n]] && base[n] in base;
      KeysSnoc(IdentityOf, base[..n], base[n]);
      RewrittenAlone(base[..n], edit);
      assert [edit][..0] == [];
      assert Find([], base[n].identity) == None;
    }
  }

  lemma AppearsFacts()
    ensures ApplyChanges(At("w"), APPEARS) == BOTH && ValidChanges(APPEARS)
  {
    AtFacts("w");
    assert EditsOf(APPEARS) == [LiveState(B, Scalar("x"))];
    assert B !in Identities(At("w"));
    assert At("w") + [LiveState(B, Scalar("x"))] == BOTH;
    hide Overlay, Normal;
    NewIsAppended(At("w"), LiveState(B, Scalar("x")));
  }

  /** The difference between maps that differ by one new identity. */
  lemma OneAddition(before: LiveMap, after: LiveMap, id: Identity)
    requires ValidMap(before) && ValidMap(after) && id !in before && id in after
    requires forall x :: Differs(before, after, x) <==> x == id
    ensures DiffMaps(before, after) == [LiveChange(Add, id, after[id])]
  {
    hide DiffMaps, ValidMap, Differs, Sorted;
    DiffMinimal(before, after);
    var cs := DiffMaps(before, after);
    OneKey(cs, id);
    assert cs[0] in cs;
  }

  lemma AppearsIsDifference()
    ensures DiffMaps(MapOf(At("w")), MapOf(BOTH)) == APPEARS
  {
    AtFacts("w");
    BothFacts();
    hide MapOf, At, DiffMaps;
    OneAddition(map[A := Scalar("w")], map[A := Scalar("w"), B := Scalar("x")], B);
  }

  const SECOND_PUBLISH: PublishRequest := PublishRequest("q", OWNER, 1, APPEARS)

  const THIRD: Event := Event(3, ShellOrigin("q", "s"), APPEARS)

  const SECOND_RECEIPT: Receipt := Receipt("s", "q", PublishDigest(1, APPEARS), Published(3, [B], []))

  /** After the second identity was published as well. */
  const DIRTY: State :=
    COMMITTED.(headRevision := 3, shared := BOTH, events := [FIRST, SECOND, THIRD],
               shells := map["s" := COMMITTED.shells["s"].(captureBaseline := BOTH, lastActiveRevision := 3)],
               receipts := [ENTRY_RECEIPT, FIRST_RECEIPT, SECOND_RECEIPT])

  lemma KeepsAppearing(policy: Policy, s: State, shell: Shell)
    requires policy(B).None? && B in RegistryOf(s).owned && B !in RegistryOf(s).pinned
    ensures FilterChanges(policy, s, shell, APPEARS) == Some(Filtered(APPEARS, s.admitted))
  {
    assert ValidIdentity(B);
    assert Admits(policy, RegistryOf(s), shell.presentAtAttach, B);
    assert [B][..0] == [] && AdmitAll(RegistryOf(s), s.admitted, []) == Some(s.admitted);
    assert AdmitAll(RegistryOf(s), s.admitted, [B]) == Some(s.admitted);
    assert ChangeIds(APPEARS) == [B];
    hide RegistryOf, AdmitAll, Admits, KeptChanges, ChangeIds;
    KeepsChange(policy, RegistryOf(s), shell.presentAtAttach, APPEARS[0]);
  }

  lemma SecondWins(s: State)
    requires s == COMMITTED
    ensures Accepted(s, 1, APPEARS) == APPEARS && Losing(s, 1, APPEARS) == []
  {
    MergeOne(s, 1, APPEARS[0]);
    assert !ChangeMatches(APPEARS[0], At("w")) by {
      assert At("w")[1..] == [];
    }
    assert B !in ChangedAfter([FIRST, SECOND], 1) by {
      ChangedSince();
      assert [FIRST, SECOND][..1] == [FIRST];
    }
    hide ChangeMatches, At, ChangedAfter, Accepted, Losing;
  }

  lemma SecondAdvances(s: State)
    requires s == COMMITTED
    ensures Advanced(s, ShellOrigin("q", "s"), APPEARS, BOTH) ==
            DIRTY.(shells := COMMITTED.shells, receipts := COMMITTED.receipts)
  {
    assert [FIRST, SECOND] + [THIRD] == [FIRST, SECOND, THIRD];
    hide At, BOTH;
  }

  lemma SecondRecorded()
    ensures Recorded(DIRTY.(shells := COMMITTED.shells, receipts := COMMITTED.receipts), OWNER, "q",
                     SECOND_RECEIPT.digest, DIRTY.shells["s"], SECOND_RECEIPT.reply) ==
            Step(DIRTY, SECOND_RECEIPT.reply)
  {
    FewReceipts([ENTRY_RECEIPT, FIRST_RECEIPT], SECOND_RECEIPT);
    assert [ENTRY_RECEIPT, FIRST_RECEIPT] + [SECOND_RECEIPT] == [ENTRY_RECEIPT, FIRST_RECEIPT, SECOND_RECEIPT];
    hide WithReceipt, At, BOTH;
    assert COMMITTED.shells["s" := DIRTY.shells["s"]] == DIRTY.shells;
  }

  lemma SecondShell()
    ensures PublishedShell(COMMITTED.shells["s"], 3, BOTH, [], []) == DIRTY.shells["s"]
    ensures ChangeIds(APPEARS) == [B] && APPEARS != []
  {
    hide At, BOTH;
  }

  lemma SecondMergesAll()
    ensures Merge(COMMITTED, SECOND_PUBLISH, COMMITTED.shells["s"], BOTH, APPEARS) ==
            Ok(Step(DIRTY, SECOND_RECEIPT.reply))
  {
    AppearsFacts();
    SecondWins(COMMITTED);
    SecondAdvances(COMMITTED);
    SecondRecorded();
    SecondShell();
    hide Accepted, Losing, At, ApplyChanges, ChangeIds, Merge, Recorded, Advanced, PublishedShell, APPEARS, BOTH;
    MergesAll(COMMITTED, SECOND_PUBLISH, COMMITTED.shells["s"], BOTH, APPEARS);
  }

  lemma SecondPublishFacts(policy: Policy, s: State, shell: Shell)
    requires policy(B).None? && s == COMMITTED && shell == COMMITTED.shells["s"]
    ensures CheckPrivate("q", OWNER).None? && Authorized(s, OWNER) && RegistryReady(policy, s)
    ensures ReceiptFor(s.receipts, "s", "q").None?
    ensures FilterChanges(policy, s, shell, APPEARS) == Some(Filtered(APPEARS, s.admitted))
    ensures shell.pending == NoPending && shell.appliedRevision == 1 && shell.conflict.None?
    ensures shell.unpublishedDelta == [] && shell.captureBaseline == At("w")
  {
    PublishingNames();
    LeavingReady(policy, s);
    hide CheckPrivate, RegistryReady, ReceiptFor, At, FilterChanges;
    KeepsAppearing(policy, s, shell);
  }

  lemma PublishesSecond(policy: Policy)
    requires policy(B).None?
    ensures PublishStep(policy, COMMITTED, SECOND_PUBLISH) == Ok(Step(DIRTY, SECOND_RECEIPT.reply))
  {
    AtFacts("w");
    BothFacts();
    AppearsFacts();
    AppearsIsDifference();
    SecondPublishFacts(policy, COMMITTED, COMMITTED.shells["s"]);
    SecondMergesAll();
    hide PublishStep, CheckPrivate, Authorized, ReceiptFor, ValidChanges, RegistryReady, FilterChanges, ApplyChanges,
         InBounds, DiffMaps, MapOf, Merge, At, APPEARS, BOTH, DIRTY;
    PublishMerges(policy, COMMITTED, SECOND_PUBLISH, COMMITTED.shells["s"], BOTH, APPEARS);
  }

  // ---------------------------------------------------------------- the second commit

  lemma FoldSnoc(baseline: seq<LiveState>, events: seq<Event>, event: Event)
    ensures FoldEvents(baseline, events + [event]) == ApplyChanges(FoldEvents(baseline, events), event.changes)
  {
    hide ApplyChanges;
    assert (events + [event])[..|events|] == events;
  }

  lemma FoldThree()
    ensures FoldEvents([], [FIRST, SECOND, THIRD]) == BOTH
  {
    FirstFold();
    Updates("v", "w");
    AppearsFacts();
    FoldTwo(FIRST, SECOND);
    FoldSnoc([], [FIRST, SECOND], THIRD);
    hide ApplyChanges, FoldEvents, At, BOTH, APPEARS;
    assert [FIRST, SECOND] + [THIRD] == [FIRST, SECOND, THIRD];
  }

  lemma CommittedLimits()
    ensures WithinLimits(COMMITTED) && WithinLimits(DIRTY)
  {
    FirstFold();
    Updates("v", "w");
    AtFacts("v");
    AtFacts("w");
    BothFacts();
    FoldThree();
    hide WithinLimits, FoldEvents, At, Recordable, ApplyChanges, InBounds;
    FoldTwo(FIRST, SECOND);
    LimitsKept(COMMITTED, COMMITTED.shells["s"]);
    LimitsKept(DIRTY, DIRTY.shells["s"]);
  }

  const TWICE: seq<Op> :=
    [DoMaterialize("main", OID, OWNING)] + [DoAttach(ENTERING)] + [DoPublish(Scenarios.Publishing("p", "w"))] +
    [COMMITTING] + [DoPublish(SECOND_PUBLISH)]

  lemma TwiceRuns(policy: Policy)
    requires policy(A).None? && policy(B).None?
    ensures Run(policy, TWICE) == DIRTY
  {
    LonelyPrefix(policy);
    Commits(policy);
    PublishesSecond(policy);
    CommittedLimits();
    assert TWICE == LONELY[..3] + [COMMITTING] + [DoPublish(SECOND_PUBLISH)];
    hide *;
    RunsOn(policy, LONELY[..3], COMMITTING, COMMITTED);
    RunsPublish(policy, LONELY[..3] + [COMMITTING], SECOND_PUBLISH, COMMITTED, Step(DIRTY, SECOND_RECEIPT.reply));
  }

  lemma MapsDisagree()
    ensures !AgreeOnClean(map[A := Scalar("v")], map[A := Scalar("w")], map[A := Scalar("w"), B := Scalar("x")])
  {
    assert !Differs(map[A := Scalar("w")], map[A := Scalar("w"), B := Scalar("x")], A);
    assert Lookup(map[A := Scalar("v")], A) != Lookup(map[A := Scalar("w")], A);
  }

  lemma DirtyStates(s: State)
    requires s == DIRTY
    ensures s.committed.source.base == At("v") && s.committed.projection.states == At("w") && s.shared == BOTH
  {
    hide At, BOTH;
  }

  /** The first identity is not dirty any more, but the source still gives its old value. */
  lemma SourceDisagrees(s: State)
    requires s == DIRTY
    ensures !AgreeOnClean(MapOf(s.committed.source.base), MapOf(s.committed.projection.states), MapOf(s.shared))
    ensures AllValid(s.committed.source.base) && DirtyDecidable(s) && DirtyChanges(s) == APPEARS != []
  {
    AtFacts("v");
    AtFacts("w");
    BothFacts();
    AppearsIsDifference();
    MapsDisagree();
    DirtyStates(s);
    hide MapOf, At, DiffMaps, InBounds, AllValid, BOTH, AgreeOnClean, DIRTY;
  }

  lemma CommitRefused(policy: Policy, s: State, message: string, reply: CommitReply)
    requires message != "" && NUL !in message && s.materialized && DirtyDecidable(s) && DirtyChanges(s) != []
    requires AllValid(s.committed.source.base)
    requires !SameStates(EffectiveStates(s.committed.source, DirtyChanges(s)), s.shared)
    ensures CommitStep(policy, s, message, reply) == CommitOutcome(s, NOTHING_COMMITTED, Some(RecoveryRequired))
  {
    hide DirtyDecidable, DirtyChanges, AllValid, SameStates, EffectiveStates;
  }

  /**
   * After one shell's change was published and committed and another of its changes published,
   * no commit succeeds, whatever the repository would answer: each requires recovery and changes
   * nothing.
   */
  lemma SecondCommitNeedsRecovery(policy: Policy, message: string, reply: CommitReply)
    requires policy(A).None? && policy(B).None? && message != "" && NUL !in message
    ensures Run(policy, TWICE[..4]).committed == RECOMMITTED
    ensures var s := Run(policy, TWICE);
            CommitStep(policy, s, message, reply) == CommitOutcome(s, NOTHING_COMMITTED, Some(RecoveryRequired))
  {
    FirstCommitted(policy);
    TwiceRuns(policy);
    RunKeeps(policy, TWICE);
    DirtyStructural(policy, DIRTY);
    SourceDisagrees(DIRTY);
    assert DIRTY.materialized;
    hide *;
    RebuildMatches(DIRTY);
    CommitRefused(policy, DIRTY, message, reply);
  }

  lemma DirtyStructural(policy: Policy, s: State)
    requires Run(policy, TWICE) == s
    ensures Structural(s)
  {
    RunKeeps(policy, TWICE);
    hide Run, RunHistory, Structural, EventsConnect, ShellCausal;
  }

  lemma FirstCommitted(policy: Policy)
    requires policy(A).None?
    ensures Run(policy, TWICE[..4]).committed == RECOMMITTED
  {
    LonelyPrefix(policy);
    Commits(policy);
    CommittedLimits();
    assert TWICE[..4] == LONELY[..3] + [COMMITTING];
    assert COMMITTED.committed == RECOMMITTED;
    hide *;
    RunsOn(policy, LONELY[..3], COMMITTING, COMMITTED);
  }
}
