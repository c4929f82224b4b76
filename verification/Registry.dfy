/**
 * Admission of observed identities (core/worktree/registry.go and the admitted* helpers
 * of core/worktree/service.go). The registry is a function of the canonical state: it is
 * reseeded from the committed source and the admitted identities in every transaction.
 */
module Registry {
  import opened Wrappers
  import opened LastOccurrence
  import opened Live
  import opened Order
  import opened Diff
  import opened State

  /** The classifier of bookkeeping, volatile and secret names: any total decision. */
  type Policy = Identity -> Option<AdmissionReason>

  datatype Registry = Registry(owned: set<Identity>, pinned: set<Identity>)

  function IdentitySet(ids: seq<Identity>): set<Identity> { set id | id in ids }

  function ExclusionReason(policy: Policy, registry: Registry, id: Identity): Option<AdmissionReason> {
    if id.kind.Unsupported? then Some(UnsupportedKind)
    else if !ValidIdentity(id) then Some(UnsafeName)
    else if id in registry.pinned then Some(PinnedSecret)
    else policy(id)
  }

  predicate AllowsLiveValue(policy: Policy, registry: Registry, id: Identity) {
    id in registry.owned && ExclusionReason(policy, registry, id).None?
  }

  /** Owned and safe, or safe and absent when the shell attached. */
  predicate Admits(policy: Policy, registry: Registry, present: seq<Identity>, id: Identity) {
    ExclusionReason(policy, registry, id).None? && (id in registry.owned || id !in present)
  }

  function RegistryOf(s: State): Registry {
    Registry(s.committed.source.owned + IdentitySet(s.admitted), s.committed.source.pinned)
  }

  /** seedRegistryFromState succeeds: no durable admission has become unsafe. */
  predicate RegistryReady(policy: Policy, s: State) {
    && CanonicalAdmitted(s.admitted) && AdmittedWithinLimits(s.admitted)
    && forall id | id in s.admitted :: ExclusionReason(policy, RegistryOf(s), id).None?
  }

  // ---------------------------------------------------------------- filtered input

  function KeptChanges(policy: Policy, registry: Registry, present: seq<Identity>, changes: seq<LiveChange>)
    : seq<LiveChange>
  {
    if changes == [] then []
    else
      var last := changes[|changes| - 1];
      KeptChanges(policy, registry, present, changes[..|changes| - 1]) +
      (if Admits(policy, registry, present, last.identity) then [last] else [])
  }

  function KeptStates(policy: Policy, registry: Registry, present: seq<Identity>, states: seq<LiveState>)
    : seq<LiveState>
  {
    if states == [] then []
    else
      var last := states[|states| - 1];
      KeptStates(policy, registry, present, states[..|states| - 1]) +
      (if !last.value.Removed? && Admits(policy, registry, present, last.identity) then [last] else [])
  }

  /** The admitted identities after a list of observations, unless a limit is exceeded. */
  function AdmitOne(registry: Registry, admitted: seq<Identity>, id: Identity): Option<seq<Identity>> {
    if id in registry.owned || id in admitted then Some(admitted)
    else
      var candidate := Sort(AdmittedLess, admitted + [id]);
      if AdmittedWithinLimits(candidate) then Some(candidate) else None
  }

  function AdmitAll(registry: Registry, admitted: seq<Identity>, ids: seq<Identity>): Option<seq<Identity>> {
    if ids == [] then Some(admitted)
    else
      match AdmitAll(registry, admitted, ids[..|ids| - 1])
      case None => None
      case Some(before) => AdmitOne(registry, before, ids[|ids| - 1])
  }

  function ChangeIds(changes: seq<LiveChange>): (r: seq<Identity>)
    ensures |r| == |changes| && forall i | 0 <= i < |r| :: r[i] == changes[i].identity
  {
    seq(|changes|, i requires 0 <= i < |changes| => changes[i].identity)
  }

  function StateIds(states: seq<LiveState>): (r: seq<Identity>)
    ensures |r| == |states| && forall i | 0 <= i < |r| :: r[i] == states[i].identity
  {
    seq(|states|, i requires 0 <= i < |states| => states[i].identity)
  }

  function AppendAdmittedIdentity(admitted: seq<Identity>, id: Identity): Option<seq<Identity>> {
    if id in admitted then Some(admitted)
    else
      var candidate := Sort(AdmittedLess, admitted + [id]);
      if AdmittedWithinLimits(candidate) then Some(candidate) else None
  }

  /** The registry part of the loop state: it owns what it owned, plus identities already seen. */
  ghost predicate Grown(initial: Registry, registry: Registry, seen: set<Identity>) {
    registry.pinned == initial.pinned && initial.owned <= registry.owned <= initial.owned + seen
  }

  /** One admission decision of the loops below; admitting an identity also makes it owned. */
  method Admit(policy: Policy, ghost initial: Registry, ghost seen: set<Identity>, registry: Registry,
               present: seq<Identity>, admitted: seq<Identity>, id: Identity)
    returns (keep: bool, registry': Registry, admitted': Option<seq<Identity>>)
    requires Grown(initial, registry, seen) && id !in seen
    ensures keep == Admits(policy, initial, present, id)
    ensures Grown(initial, registry', seen + {id})
    ensures admitted' == if keep then AdmitOne(initial, admitted, id) else Some(admitted)
  {
    if !AllowsLiveValue(policy, registry, id) {
      if ExclusionReason(policy, registry, id).Some? || id in present {
        return false, registry, Some(admitted);
      }
      registry' := registry.(owned := registry.owned + {id});
      return true, registry', AppendAdmittedIdentity(admitted, id);
    }
    return true, registry, Some(admitted);
  }

  datatype Filtered<T> = Filtered(kept: seq<T>, admitted: seq<Identity>)

  /** admittedChanges: what remains of a delta and the admissions it caused. */
  function FilterChanges(policy: Policy, s: State, shell: Shell,
                         changes: seq<LiveChange>): Option<Filtered<LiveChange>> {
    var kept := KeptChanges(policy, RegistryOf(s), shell.presentAtAttach, changes);
    match AdmitAll(RegistryOf(s), s.admitted, ChangeIds(kept))
    case None => None
    case Some(admitted) => Some(Filtered(kept, admitted))
  }

  /** admittedSnapshot: what remains of an observation and the admissions it caused. */
  function FilterSnapshot(policy: Policy, s: State, shell: Shell, states: seq<LiveState>): Option<Filtered<LiveState>> {
    var kept := KeptStates(policy, RegistryOf(s), shell.presentAtAttach, Normal(states));
    match AdmitAll(RegistryOf(s), s.admitted, StateIds(kept))
    case None => None
    case Some(admitted) => Some(Filtered(kept, admitted))
  }

  lemma {:induction false} AdmitAllPrefix(registry: Registry, admitted: seq<Identity>, ids: seq<Identity>, k: nat)
    requires k <= |ids| && AdmitAll(registry, admitted, ids[..k]).None?
    ensures AdmitAll(registry, admitted, ids).None?
    decreases |ids| - k
  {
    if k < |ids| {
      assert ids[..k + 1][..k] == ids[..k];
      AdmitAllPrefix(registry, admitted, ids, k + 1);
    } else {
      assert ids[..k] == ids;
    }
  }

  lemma {:induction false} KeptChangesPrefix(policy: Policy, registry: Registry, present: seq<Identity>,
                                             changes: seq<LiveChange>, k: nat)
    requires k <= |changes|
    ensures KeptChanges(policy, registry, present, changes[..k]) <= KeptChanges(policy, registry, present, changes)
    decreases |changes| - k
  {
    if k < |changes| {
      assert changes[..k + 1][..k] == changes[..k];
      KeptChangesPrefix(policy, registry, present, changes, k + 1);
    } else {
      assert changes[..k] == changes;
    }
  }

  lemma {:induction false} KeptStatesPrefix(policy: Policy, registry: Registry, present: seq<Identity>,
                                            states: seq<LiveState>, k: nat)
    requires k <= |states|
    ensures KeptStates(policy, registry, present, states[..k]) <= KeptStates(policy, registry, present, states)
    decreases |states| - k
  {
    if k < |states| {
      assert states[..k + 1][..k] == states[..k];
      KeptStatesPrefix(policy, registry, present, states, k + 1);
    } else {
      assert states[..k] == states;
    }
  }

  lemma {:induction false} KeptChangesMembers(policy: Policy, registry: Registry, present: seq<Identity>,
                                              changes: seq<LiveChange>)
    ensures forall c :: c in KeptChanges(policy, registry, present, changes) <==>
                        c in changes && Admits(policy, registry, present, c.identity)
  {
    if changes != [] {
      var n := |changes| - 1;
      assert changes == changes[..n] + [changes[n]];
      KeptChangesMembers(policy, registry, present, changes[..n]);
    }
  }

  lemma {:induction false} KeptStatesMembers(policy: Policy, registry: Registry, present: seq<Identity>,
                                             states: seq<LiveState>)
    ensures forall x :: x in KeptStates(policy, registry, present, states) <==>
                        x in states && !x.value.Removed? && Admits(policy, registry, present, x.identity)
  {
    if states != [] {
      var n := |states| - 1;
      assert states == states[..n] + [states[n]];
      KeptStatesMembers(policy, registry, present, states[..n]);
    }
  }

  lemma {:induction false} KeptChangesUnique(policy: Policy, registry: Registry, present: seq<Identity>,
                                             changes: seq<LiveChange>)
    requires Unique(ChangeIdentity, changes)
    ensures Unique(ChangeIdentity, KeptChanges(policy, registry, present, changes))
  {
    if changes != [] {
      var n := |changes| - 1;
      var head := KeptChanges(policy, registry, present, changes[..n]);
      assert Unique(ChangeIdentity, changes[..n]) by {
        forall i, j | 0 <= i < j < n
          ensures ChangeIdentity(changes[..n][i]) != ChangeIdentity(changes[..n][j])
        {
          assert ChangeIdentity(changes[i]) != ChangeIdentity(changes[j]);
        }
      }
      KeptChangesUnique(policy, registry, present, changes[..n]);
      KeptChangesMembers(policy, registry, present, changes[..n]);
      forall i | 0 <= i < |head|
        ensures ChangeIdentity(head[i]) != ChangeIdentity(changes[n])
      {
        assert head[i] in changes[..n];
        var k :| 0 <= k < n && changes[..n][k] == head[i];
        assert ChangeIdentity(changes[k]) != ChangeIdentity(changes[n]);
      }
    }
  }

  lemma {:induction false} KeptStatesDistinct(policy: Policy, registry: Registry, present: seq<Identity>,
                                              states: seq<LiveState>)
    requires Distinct(states)
    ensures Distinct(KeptStates(policy, registry, present, states))
  {
    if states != [] {
      var n := |states| - 1;
      var head := KeptStates(policy, registry, present, states[..n]);
      DistinctPrefix(states);
      KeptStatesDistinct(policy, registry, present, states[..n]);
      KeptStatesMembers(policy, registry, present, states[..n]);
      forall i | 0 <= i < |head|
        ensures IdentityOf(head[i]) != states[n].identity
      {
        assert head[i] in states[..n];
        var k :| 0 <= k < n && states[..n][k] == head[i];
        assert IdentityOf(states[k]) != IdentityOf(states[n]);
      }
      DistinctSnoc(head, states[n]);
    }
  }

  /** The loop state of the filters after some of the input, given what was kept. */
  ghost predicate Filtering(initial: Registry, registry: Registry, seen: set<Identity>,
                            start: seq<Identity>, keptIds: seq<Identity>, admitted: seq<Identity>)
  {
    Grown(initial, registry, seen) && AdmitAll(initial, start, keptIds) == Some(admitted)
  }

  lemma AdmitAllSnoc(initial: Registry, start: seq<Identity>, ids: seq<Identity>, id: Identity, admitted: seq<Identity>)
    requires AdmitAll(initial, start, ids) == Some(admitted)
    ensures AdmitAll(initial, start, ids + [id]) == AdmitOne(initial, admitted, id)
  {
    assert (ids + [id])[..|ids|] == ids;
  }

  lemma NextChange(policy: Policy, registry: Registry, present: seq<Identity>, changes: seq<LiveChange>, i: nat)
    requires i < |changes| && Unique(ChangeIdentity, changes)
    ensures KeptChanges(policy, registry, present, changes[..i + 1]) ==
            KeptChanges(policy, registry, present, changes[..i]) +
            (if Admits(policy, registry, present, changes[i].identity) then [changes[i]] else [])
    ensures KeptChanges(policy, registry, present, changes[..i + 1]) <= KeptChanges(policy, registry, present, changes)
    ensures changes[i].identity !in IdentitySet(ChangeIds(changes[..i]))
    ensures IdentitySet(ChangeIds(changes[..i + 1])) == IdentitySet(ChangeIds(changes[..i])) + {changes[i].identity}
  {
    assert changes[..i + 1][..i] == changes[..i];
    KeptChangesPrefix(policy, registry, present, changes, i + 1);
    forall k | 0 <= k < i
      ensures changes[k].identity != changes[i].identity
    {
      assert ChangeIdentity(changes[k]) != ChangeIdentity(changes[i]);
    }
    assert ChangeIds(changes[..i + 1]) == ChangeIds(changes[..i]) + [changes[i].identity];
  }

  method AdmittedChanges(policy: Policy, s: State, shell: Shell, changes: seq<LiveChange>)
    returns (r: Option<Filtered<LiveChange>>)
    requires Unique(ChangeIdentity, changes)
    ensures r == FilterChanges(policy, s, shell, changes)
  {
    hide AdmitAll, AdmitOne, Unique;
    var registry, admitted := RegistryOf(s), s.admitted;
    ghost var initial, present := RegistryOf(s), shell.presentAtAttach;
    ghost var total := KeptChanges(policy, initial, present, changes);
    var out: seq<LiveChange> := [];
    AdmitNone(initial, s.admitted);
    for i := 0 to |changes|
      invariant out == KeptChanges(policy, initial, present, changes[..i])
      invariant Filtering(initial, registry, IdentitySet(ChangeIds(changes[..i])), s.admitted, ChangeIds(out), admitted)
    {
      NextChange(policy, initial, present, changes, i);
      var keep, registry', admitted' :=
        Admit(policy, initial, IdentitySet(ChangeIds(changes[..i])), registry, shell.presentAtAttach, admitted,
              changes[i].identity);
      registry := registry';
      if keep {
        AdmitAllSnoc(initial, s.admitted, ChangeIds(out), changes[i].identity, admitted);
        assert ChangeIds(out + [changes[i]]) == ChangeIds(out) + [changes[i].identity];
        out := out + [changes[i]];
        if admitted'.None? {
          assert ChangeIds(total)[..|out|] == ChangeIds(out);
          AdmitAllPrefix(initial, s.admitted, ChangeIds(total), |out|);
          return None;
        }
        admitted := admitted'.value;
      }
    }
    assert changes[..|changes|] == changes;
    r := Some(Filtered(out, admitted));
  }

  lemma AdmitNone(initial: Registry, start: seq<Identity>)
    ensures AdmitAll(initial, start, ChangeIds([])) == Some(start)
    ensures AdmitAll(initial, start, StateIds([])) == Some(start)
  {
  }

  lemma NextState(policy: Policy, registry: Registry, present: seq<Identity>, states: seq<LiveState>, i: nat)
    requires i < |states| && Distinct(states)
    ensures KeptStates(policy, registry, present, states[..i + 1]) ==
            KeptStates(policy, registry, present, states[..i]) +
            (if !states[i].value.Removed? && Admits(policy, registry, present, states[i].identity)
             then [states[i]] else [])
    ensures KeptStates(policy, registry, present, states[..i + 1]) <= KeptStates(policy, registry, present, states)
    ensures states[i].identity !in IdentitySet(StateIds(states[..i]))
    ensures IdentitySet(StateIds(states[..i + 1])) == IdentitySet(StateIds(states[..i])) + {states[i].identity}
  {
    assert states[..i + 1][..i] == states[..i];
    KeptStatesPrefix(policy, registry, present, states, i + 1);
    forall k | 0 <= k < i
      ensures states[k].identity != states[i].identity
    {
      assert IdentityOf(states[k]) != IdentityOf(states[i]);
    }
    assert StateIds(states[..i + 1]) == StateIds(states[..i]) + [states[i].identity];
  }

  lemma GrownMonotone(initial: Registry, registry: Registry, seen: set<Identity>, id: Identity)
    requires Grown(initial, registry, seen)
    ensures Grown(initial, registry, seen + {id})
  {
  }

  method AdmittedSnapshot(policy: Policy, s: State, shell: Shell, snapshot: seq<LiveState>)
    returns (r: Option<Filtered<LiveState>>)
    requires AllValid(snapshot)
    ensures r == FilterSnapshot(policy, s, shell, snapshot)
  {
    var normalized := NormalizeLiveStates(snapshot);
    NormalMap(snapshot);
    r := FilterStates(policy, RegistryOf(s), shell.presentAtAttach, s.admitted, normalized.value);
  }

  method FilterStates(policy: Policy, initial: Registry, present: seq<Identity>, start: seq<Identity>,
                      states: seq<LiveState>)
    returns (r: Option<Filtered<LiveState>>)
    requires Distinct(states)
    ensures var kept := KeptStates(policy, initial, present, states);
            var admitted := AdmitAll(initial, start, StateIds(kept));
            r == if admitted.Some? then Some(Filtered(kept, admitted.value)) else None
  {
    hide AdmitAll, AdmitOne, Unique, KeptStates, Admits;
    var registry, admitted := initial, start;
    var out: seq<LiveState> := [];
    AdmitNone(initial, start);
    KeptNone(policy, initial, present, states);
    for i := 0 to |states|
      invariant out == KeptStates(policy, initial, present, states[..i])
      invariant Filtering(initial, registry, IdentitySet(StateIds(states[..i])), start, StateIds(out), admitted)
    {
      NextState(policy, initial, present, states, i);
      if states[i].value.Removed? {
        GrownMonotone(initial, registry, IdentitySet(StateIds(states[..i])), states[i].identity);
        continue;
      }
      var keep, registry', admitted' :=
        Admit(policy, initial, IdentitySet(StateIds(states[..i])), registry, present, admitted, states[i].identity);
      registry := registry';
      if keep {
        AdmitAllSnoc(initial, start, StateIds(out), states[i].identity, admitted);
        assert StateIds(out + [states[i]]) == StateIds(out) + [states[i].identity];
        out := out + [states[i]];
        if admitted'.None? {
          KeptFails(policy, initial, present, start, states, out);
          return None;
        }
        admitted := admitted'.value;
      }
    }
    assert states[..|states|] == states;
    r := Some(Filtered(out, admitted));
  }

  lemma KeptNone(policy: Policy, registry: Registry, present: seq<Identity>, states: seq<LiveState>)
    ensures KeptStates(policy, registry, present, states[..0]) == []
  {
  }

  lemma KeptFails(policy: Policy, registry: Registry, present: seq<Identity>, start: seq<Identity>,
                  states: seq<LiveState>, out: seq<LiveState>)
    requires out <= KeptStates(policy, registry, present, states)
    requires AdmitAll(registry, start, StateIds(out)).None?
    ensures AdmitAll(registry, start, StateIds(KeptStates(policy, registry, present, states))).None?
  {
    var total := KeptStates(policy, registry, present, states);
    assert StateIds(total)[..|out|] == StateIds(out);
    AdmitAllPrefix(registry, start, StateIds(total), |out|);
  }

  // ---------------------------------------------------------------- admitted list

  lemma {:induction false} AdmitAllCanonical(registry: Registry, admitted: seq<Identity>, ids: seq<Identity>)
    requires CanonicalAdmitted(admitted) && forall id | id in ids :: ValidIdentity(id)
    requires AdmitAll(registry, admitted, ids).Some?
    ensures CanonicalAdmitted(AdmitAll(registry, admitted, ids).value)
  {
    if ids != [] {
      var n := |ids| - 1;
      AdmitAllCanonical(registry, admitted, ids[..n]);
      var before := AdmitAll(registry, admitted, ids[..n]).value;
      var id := ids[n];
      if !(id in registry.owned || id in before) {
        var all := before + [id];
        var domain := set x | x in all;
        AdmittedLessOrders(domain);
        forall i, j | 0 <= i < j < |all|
          ensures all[i] != all[j]
        {
          if j < |before| {
            assert AdmittedLess(before[i], before[j]);
            assert before[i] in domain && before[j] in domain;
          }
        }
        SortSorted(AdmittedLess, all, domain);
        SameElements(Sort(AdmittedLess, all), all);
      }
    }
  }
}
