/**
 * What an attach promises: what the shell already had is recorded, reported and never shared by
 * this shell, unless it is owned by the profile or admitted by another shell.
 */
module Attaches {
  import opened Wrappers
  import opened Live
  import opened Diff
  import opened Projection
  import opened Fingerprint
  import opened State
  import opened Registry
  import opened Steps
  import opened Protocol
  import opened Preservation
  import opened Keeps
  import opened Workflow
  import opened Runs
  import opened Replay

  // ---------------------------------------------------------------- selections as maps

  /** A selection of present states, decided per identity, as a map. */
  lemma SelectionLookup(states: seq<LiveState>, kept: seq<LiveState>, id: Identity, allowed: bool)
    requires Distinct(states) && Distinct(kept)
    requires forall x: LiveState | x.identity == id :: x in kept <==> x in states && !x.value.Removed? && allowed
    ensures Lookup(MapOf(kept), id) == if allowed then Lookup(MapOf(states), id) else Removed
  {
    MapOfLookup(states, id);
    MapOfLookup(kept, id);
    FindSome(states, id);
    FindSome(kept, id);
    hide MapOf, Distinct;
    if Find(states, id).Some? {
      DistinctFind(kept, LiveState(id, Find(states, id).value));
      DistinctFind(states, LiveState(id, Find(states, id).value));
    }
    if Find(kept, id).Some? {
      DistinctFind(states, LiveState(id, Find(kept, id).value));
    }
  }

  lemma {:induction false} BaselineMembers(policy: Policy, registry: Registry, states: seq<LiveState>)
    ensures forall x :: x in AttachBaseline(policy, registry, states) <==>
                        x in states && !x.value.Removed? && AllowsLiveValue(policy, registry, x.identity)
  {
    if states != [] {
      var n := |states| - 1;
      assert states == states[..n] + [states[n]];
      BaselineMembers(policy, registry, states[..n]);
    }
  }

  lemma {:induction false} BaselineDistinct(policy: Policy, registry: Registry, states: seq<LiveState>)
    requires Distinct(states)
    ensures Distinct(AttachBaseline(policy, registry, states))
  {
    if states != [] {
      var n := |states| - 1;
      var before := AttachBaseline(policy, registry, states[..n]);
      DistinctPrefix(states);
      BaselineDistinct(policy, registry, states[..n]);
      BaselineMembers(policy, registry, states[..n]);
      forall i | 0 <= i < |before|
        ensures IdentityOf(before[i]) != IdentityOf(states[n])
      {
        assert before[i] in before;
        var j :| 0 <= j < n && states[..n][j] == before[i];
        assert IdentityOf(states[j]) != IdentityOf(states[n]);
      }
      DistinctSnocAll(before, states[n]);
    }
  }

  lemma DistinctSnocAll(states: seq<LiveState>, x: LiveState)
    requires Distinct(states) && forall i | 0 <= i < |states| :: IdentityOf(states[i]) != IdentityOf(x)
    ensures Distinct(states + [x])
  {
  }

  /** The reason an identity present at attach is not shared, or none when its value is. */
  function Refusal(policy: Policy, registry: Registry, id: Identity): Option<AdmissionReason> {
    if AllowsLiveValue(policy, registry, id) then None
    else if ExclusionReason(policy, registry, id).Some? then ExclusionReason(policy, registry, id)
    else Some(PresentAtAttach)
  }

  lemma ExclusionsSnoc(policy: Policy, registry: Registry, states: seq<LiveState>)
    requires states != []
    ensures var n := |states| - 1;
            var refusal := Refusal(policy, registry, states[n].identity);
            AttachExclusions(policy, registry, states) ==
            AttachExclusions(policy, registry, states[..n]) +
            if states[n].value.Removed? || refusal.None? then [] else [Exclusion(states[n].identity, refusal.value)]
  {
    hide ExclusionReason;
  }

  lemma {:induction false} ExclusionMembers(policy: Policy, registry: Registry, states: seq<LiveState>, e: Exclusion)
    ensures e in AttachExclusions(policy, registry, states) <==>
              && Refusal(policy, registry, e.identity) == Some(e.reason)
              && exists x :: x in states && !x.value.Removed? && x.identity == e.identity
  {
    if states != [] {
      var n := |states| - 1;
      ExclusionsSnoc(policy, registry, states);
      ExclusionMembers(policy, registry, states[..n], e);
      hide AttachExclusions, Refusal;
      assert states[n] in states;
      if x :| x in states && !x.value.Removed? && x.identity == e.identity {
        assert x in states[..n] || x == states[n];
      }
    }
  }

  /** The identities of a list of distinct states that are present are those of its map. */
  lemma PresentIds(states: seq<LiveState>, id: Identity)
    requires Distinct(states)
    ensures id in StateIds(PresentOnly(states)) <==> id in MapOf(states)
    ensures id in MapOf(states) <==> exists x :: x in states && !x.value.Removed? && x.identity == id
  {
    MapOfLookup(states, id);
    PresentMembers(states);
    FindSome(states, id);
    hide MapOf, PresentOnly, Distinct;
    var present := PresentOnly(states);
    if id in StateIds(present) {
      var i :| 0 <= i < |present| && StateIds(present)[i] == id;
      assert present[i] in present;
      DistinctFind(states, present[i]);
    }
    if id in MapOf(states) {
      var x := LiveState(id, Find(states, id).value);
      assert x in present;
      var i :| 0 <= i < |present| && present[i] == x;
      assert StateIds(present)[i] == id;
    }
    if x :| x in states && !x.value.Removed? && x.identity == id {
      DistinctFind(states, x);
    }
  }

  // ---------------------------------------------------------------- the attach

  /** The profile owns it, or some shell had it admitted. */
  predicate Owned(s: State, id: Identity) { id in s.committed.source.owned || id in s.admitted }

  /** Nothing forbids sharing it: neither its name, nor a pinned secret, nor the policy. */
  predicate Permitted(policy: Policy, s: State, id: Identity) {
    ValidIdentity(id) && id !in s.committed.source.pinned && policy(id).None?
  }

  /** Why a shell keeps an identity that was present at its attach to itself, if it does. */
  function Reason(policy: Policy, s: State, id: Identity): Option<AdmissionReason> {
    if id.kind.Unsupported? then Some(UnsupportedKind)
    else if !ValidIdentity(id) then Some(UnsafeName)
    else if id in s.committed.source.pinned then Some(PinnedSecret)
    else if policy(id).Some? then policy(id)
    else if Owned(s, id) then None
    else Some(PresentAtAttach)
  }

  lemma RegistryMeans(policy: Policy, s: State, id: Identity)
    ensures AllowsLiveValue(policy, RegistryOf(s), id) <==> Owned(s, id) && Permitted(policy, s, id)
    ensures Refusal(policy, RegistryOf(s), id) == Reason(policy, s, id)
    ensures forall present :: Admits(policy, RegistryOf(s), present, id) <==>
                              Permitted(policy, s, id) && (Owned(s, id) || id !in present)
  {
  }

  /** It remembers every identity that was present, and why it keeps any of them to itself. */
  ghost predicate Remembers(policy: Policy, s: State, initial: LiveMap, shell: Shell) {
    && (forall id :: id in shell.presentAtAttach <==> id in initial)
    && (forall e :: e in shell.exclusions <==> e.identity in initial && Reason(policy, s, e.identity) == Some(e.reason))
  }

  /** It captures the present values that it may share. */
  ghost predicate Captures(policy: Policy, s: State, initial: LiveMap, captured: LiveMap) {
    forall id :: Lookup(captured, id) == if Owned(s, id) && Permitted(policy, s, id) then Lookup(initial, id)
                                         else Removed
  }

  /** What a new shell is, said of maps: it is current exactly if what it captures is the shared generation. */
  ghost predicate Records(policy: Policy, s: State, initial: LiveMap, shell: Shell) {
    && Remembers(policy, s, initial, shell) && Captures(policy, s, initial, MapOf(shell.captureBaseline))
    && shell.attachedRevision == s.headRevision && shell.pending.NoPending? && shell.conflict.None?
    && shell.unpublishedDelta == []
    && var current := SameStates(shell.captureBaseline, s.shared);
       && shell.appliedRevision == (if current then s.headRevision else 0)
       && MapOf(shell.appliedBaseline) == (if current then MapOf(s.shared) else map[])
       && shell.attachState == (if current then AtHead else CleanReconcile) && shell.behind == !current
  }

  lemma NewShellAt(policy: Policy, s: State, request: AttachRequest, id: Identity)
    ensures var shell, initial := NewShell(policy, s, request), MapOf(request.initial.states);
            && (id in shell.presentAtAttach <==> id in initial)
            && Lookup(MapOf(shell.captureBaseline), id) ==
               if AllowsLiveValue(policy, RegistryOf(s), id) then Lookup(initial, id) else Removed
  {
    var states := Normal(request.initial.states);
    var registry := RegistryOf(s);
    NewShellParts(policy, s, request);
    NormalMap(request.initial.states);
    hide NewShell, MapOf, Normal, RegistryOf, Distinct, AllowsLiveValue, AttachBaseline, AttachExclusions,
         SameStates, StateIds, PresentOnly;
    PresentIds(states, id);
    BaselineMembers(policy, registry, states);
    BaselineDistinct(policy, registry, states);
    SelectionLookup(states, AttachBaseline(policy, registry, states), id, AllowsLiveValue(policy, registry, id));
  }

  lemma NewShellReason(policy: Policy, s: State, request: AttachRequest, e: Exclusion)
    ensures e in NewShell(policy, s, request).exclusions <==>
              e.identity in MapOf(request.initial.states) &&
                Refusal(policy, RegistryOf(s), e.identity) == Some(e.reason)
  {
    var states := Normal(request.initial.states);
    NewShellParts(policy, s, request);
    NormalMap(request.initial.states);
    hide NewShell, MapOf, Normal, RegistryOf, Distinct, AllowsLiveValue, AttachBaseline, AttachExclusions,
         SameStates, StateIds, PresentOnly, Refusal;
    ExclusionMembers(policy, RegistryOf(s), states, e);
    PresentIds(states, e.identity);
  }

  lemma NewShellRemembers(policy: Policy, s: State, request: AttachRequest)
    ensures Remembers(policy, s, MapOf(request.initial.states), NewShell(policy, s, request))
  {
    hide NewShell, MapOf, RegistryOf, AllowsLiveValue, Refusal, Owned, Permitted, Reason;
    var shell, initial := NewShell(policy, s, request), MapOf(request.initial.states);
    forall id
      ensures id in shell.presentAtAttach <==> id in initial
    {
      NewShellAt(policy, s, request, id);
    }
    forall e
      ensures e in shell.exclusions <==> e.identity in initial && Reason(policy, s, e.identity) == Some(e.reason)
    {
      NewShellReason(policy, s, request, e);
      RegistryMeans(policy, s, e.identity);
    }
  }

  lemma NewShellCaptures(policy: Policy, s: State, request: AttachRequest)
    ensures Captures(policy, s, MapOf(request.initial.states), MapOf(NewShell(policy, s, request).captureBaseline))
  {
    hide NewShell, MapOf, RegistryOf, AllowsLiveValue, Refusal, Owned, Permitted, Reason, Lookup;
    forall id
      ensures Lookup(MapOf(NewShell(policy, s, request).captureBaseline), id) ==
              if Owned(s, id) && Permitted(policy, s, id) then Lookup(MapOf(request.initial.states), id) else Removed
    {
      NewShellAt(policy, s, request, id);
      RegistryMeans(policy, s, id);
    }
  }

  lemma NewShellRecords(policy: Policy, s: State, request: AttachRequest)
    ensures Records(policy, s, MapOf(request.initial.states), NewShell(policy, s, request))
  {
    NewShellParts(policy, s, request);
    NewShellRemembers(policy, s, request);
    NewShellCaptures(policy, s, request);
    assert MapOf([]) == map[];
    hide NewShell, MapOf, Remembers, Captures, SameStates;
  }

  lemma NewShellParts(policy: Policy, s: State, request: AttachRequest)
    ensures var shell, states := NewShell(policy, s, request), Normal(request.initial.states);
            var current := SameStates(shell.captureBaseline, s.shared);
            && shell.captureBaseline == AttachBaseline(policy, RegistryOf(s), states)
            && shell.presentAtAttach == StateIds(PresentOnly(states))
            && shell.exclusions == AttachExclusions(policy, RegistryOf(s), states)
            && shell.attachedRevision == s.headRevision && shell.pending.NoPending? && shell.conflict.None?
            && shell.unpublishedDelta == [] && shell.behind == !current
            && shell.appliedRevision == (if current then s.headRevision else 0)
            && shell.appliedBaseline == (if current then s.shared else [])
            && shell.attachState == (if current then AtHead else CleanReconcile)
  {
    hide AttachBaseline, AttachExclusions, SameStates, StateIds, PresentOnly, Normal, RegistryOf;
  }

  /**
   * An attach of a new shell succeeds exactly within the limits and in a ready registry; it
   * records the shell as above, says so in its reply, and changes nothing else but the receipts.
   */
  lemma AttachRecords(policy: Policy, s: State, request: AttachRequest)
    requires request.credential.shellId !in s.shells
    ensures AttachStep(policy, s, request).Ok? <==>
              && CheckPrivate(request.operationId, request.credential).None? && ValidSnapshot(request.initial)
              && s.materialized && |s.shells| < MAX_SHELL_RECORDS && RegistryReady(policy, s)
    ensures AttachStep(policy, s, request).Ok? ==>
              var step := AttachStep(policy, s, request).value;
              && request.credential.shellId in step.state.shells
              && step.state == s.(shells := step.state.shells, receipts := step.state.receipts)
              && var shell := step.state.shells[request.credential.shellId];
                 && Records(policy, s, MapOf(request.initial.states), shell)
                 && shell.verifier == VerifierOf(request.credential.capability)
                 && step.reply == Attached(s.headRevision, shell.attachState == CleanReconcile, shell.exclusions)
  {
    NewShellRecords(policy, s, request);
    NewShellParts(policy, s, request);
    hide Records, RegistryReady, ValidSnapshot, CheckPrivate, AttachBaseline, AttachExclusions, SameStates, StateIds,
         PresentOnly, Normal, RegistryOf, WithReceipt;
  }

  // ---------------------------------------------------------------- for good

  lemma LocalOrigin(s: State, s': State, caller: Option<string>, id: string)
    requires Local(s, s', caller) && id in s.shells
    ensures id in s'.shells && SameOrigin(s.shells[id], s'.shells[id])
  {
    hide Adds, Untouched, SameOrigin;
  }

  lemma NextIs(policy: Policy, s: State, op: Op)
    ensures Next(policy, s, op) == s ||
            (Callback(policy, s, op).Some? && Next(policy, s, op) == Callback(policy, s, op).value)
  {
    hide Callback, ValidState;
  }

  /** Where a shell attached, what was present then and what it excludes never change. */
  lemma OriginKept(policy: Policy, s: State, g: Generations, op: Op, id: string)
    requires Inv(s, g) && id in s.shells
    ensures id in Next(policy, s, op).shells && SameOrigin(s.shells[id], Next(policy, s, op).shells[id])
  {
    MaterializedShells(s, g, id);
    NextIs(policy, s, op);
    if Next(policy, s, op) != s {
      EveryOperationIsLocal(policy, s, g, op);
      hide *;
      LocalOrigin(s, Callback(policy, s, op).value, Caller(op), id);
    }
  }

  lemma SameOriginThrough(a: Shell, b: Shell, c: Shell)
    requires SameOrigin(a, b) && SameOrigin(b, c)
    ensures SameOrigin(a, c)
  {
  }

  lemma RunStep(policy: Policy, ops: seq<Op>, k: nat)
    requires k < |ops|
    ensures Run(policy, ops[..k + 1]) == Next(policy, Run(policy, ops[..k]), ops[k])
  {
    hide Next;
    assert ops[..k + 1][..k] == ops[..k];
  }

  lemma {:induction false} OriginForGood(policy: Policy, ops: seq<Op>, k: nat, id: string)
    requires k <= |ops| && id in Run(policy, ops[..k]).shells
    ensures id in Run(policy, ops).shells
    ensures SameOrigin(Run(policy, ops[..k]).shells[id], Run(policy, ops).shells[id])
    decreases |ops| - k
  {
    if k == |ops| {
      assert ops[..k] == ops;
    } else {
      RunStep(policy, ops, k);
      RunKeeps(policy, ops[..k]);
      hide *;
      OriginKept(policy, Run(policy, ops[..k]), RunHistory(policy, ops[..k]), ops[k], id);
      OriginForGood(policy, ops, k + 1, id);
      SameOriginThrough(Run(policy, ops[..k]).shells[id], Run(policy, ops[..k + 1]).shells[id],
                        Run(policy, ops).shells[id]);
    }
  }
}
