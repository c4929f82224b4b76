/**
 * Live patches (core/activate/diff.go): a forward plan and the reverse that replaces it, as
 * operations on live identities.
 */
module Patch {
  import opened Wrappers
  import opened LastOccurrence
  import opened Live
  import opened Order
  import opened Diff

  datatype Op =
    | SetLiveScalar(identity: Identity, text: string)
    | RemoveLiveScalar(identity: Identity)
    | TransitionLiveList(identity: Identity, before: Option<seq<string>>, after: Option<seq<string>>)
    | SetLiveOption(identity: Identity, enabled: bool)
    | RemoveLiveOption(identity: Identity)

  datatype LivePatch = LivePatch(forward: seq<Op>, replacementReverse: seq<Op>)

  // ---------------------------------------------------------------- what operations do

  /** The effect of one operation on the present values of a shell. */
  function Perform(m: LiveMap, op: Op): LiveMap {
    match op
    case SetLiveScalar(id, text) => m[id := Scalar(text)]
    case RemoveLiveScalar(id) => m - {id}
    case TransitionLiveList(id, _, after) => if after.Some? then m[id := List(after.value)] else m - {id}
    case SetLiveOption(id, enabled) => m[id := Flag(enabled)]
    case RemoveLiveOption(id) => m - {id}
  }

  function PerformAll(m: LiveMap, ops: seq<Op>): LiveMap {
    if ops == [] then m else Perform(PerformAll(m, ops[..|ops| - 1]), ops[|ops| - 1])
  }

  function ListIn(m: LiveMap, id: Identity): Option<seq<string>> {
    if id in m && m[id].List? then Some(m[id].items) else None
  }

  /** The operation of one change, when its kind and payload have one. */
  function OpOf(change: LiveChange, before: LiveMap, after: LiveMap): Option<Op> {
    var id := change.identity;
    match id.kind
    case Path => Some(TransitionLiveList(id, ListIn(before, id), ListIn(after, id)))
    case FPath => Some(TransitionLiveList(id, ListIn(before, id), ListIn(after, id)))
    case Switch =>
      if change.kind == Remove then Some(RemoveLiveOption(id))
      else if change.value.Flag? then Some(SetLiveOption(id, change.value.on)) else None
    case Unsupported(_) => None
    case _ =>
      if change.kind == Remove then Some(RemoveLiveScalar(id))
      else if change.value.Scalar? then Some(SetLiveScalar(id, change.value.text)) else None
  }

  /** A change taken from the difference of two valid maps. */
  ghost predicate Taken(c: LiveChange, before: LiveMap, after: LiveMap) {
    && ValidChange(c) && c.value == Lookup(after, c.identity) && (c.kind == Remove <==> c.identity !in after)
  }

  lemma OpOfTaken(c: LiveChange, before: LiveMap, after: LiveMap, m: LiveMap)
    requires ValidMap(before) && ValidMap(after) && Taken(c, before, after)
    ensures OpOf(c, before, after).Some?
    ensures Perform(m, OpOf(c, before, after).value) == Put(m, EditOf(c))
    ensures OpOf(c, before, after).value.identity == c.identity
  {
  }

  // ---------------------------------------------------------------- plans

  /** The operations of a change list, one per change in the same order. */
  ghost predicate Plans(ops: seq<Op>, changes: seq<LiveChange>, before: LiveMap, after: LiveMap) {
    |ops| == |changes| && forall i | 0 <= i < |ops| :: OpOf(changes[i], before, after) == Some(ops[i])
  }

  method LiveChangesToOps(changes: seq<LiveChange>, before: LiveMap, after: LiveMap) returns (r: Option<seq<Op>>)
    ensures r.Some? ==> Plans(r.value, changes, before, after)
    ensures r.None? <==> exists i | 0 <= i < |changes| :: OpOf(changes[i], before, after).None?
  {
    var operations: seq<Op> := [];
    for i := 0 to |changes|
      invariant Plans(operations, changes[..i], before, after)
    {
      var change := changes[i];
      var op: Option<Op> := None;
      match change.identity.kind {
        case Env => op := ScalarOp(change);
        case Alias => op := ScalarOp(change);
        case Function => op := ScalarOp(change);
        case Path => op := Some(TransitionLiveList(change.identity, ListIn(before, change.identity),
                                                   ListIn(after, change.identity)));
        case FPath => op := Some(TransitionLiveList(change.identity, ListIn(before, change.identity),
                                                    ListIn(after, change.identity)));
        case Switch =>
          if change.kind == Remove {
            op := Some(RemoveLiveOption(change.identity));
          } else if change.value.Flag? {
            op := Some(SetLiveOption(change.identity, change.value.on));
          }
        case Unsupported(_) =>
      }
      assert op == OpOf(changes[i], before, after);
      if op.None? {
        return None;
      }
      operations := operations + [op.value];
    }
    assert changes[..|changes|] == changes;
    r := Some(operations);
  }

  function ScalarOp(change: LiveChange): Option<Op> {
    if change.kind == Remove then Some(RemoveLiveScalar(change.identity))
    else if change.value.Scalar? then Some(SetLiveScalar(change.identity, change.value.text)) else None
  }

  /** Performing a plan is applying its changes. */
  lemma {:induction false} PlanApplies(m: LiveMap, ops: seq<Op>, changes: seq<LiveChange>, before: LiveMap,
                                       after: LiveMap)
    requires ValidMap(before) && ValidMap(after) && Plans(ops, changes, before, after)
    requires forall c | c in changes :: Taken(c, before, after)
    ensures PerformAll(m, ops) == ApplyEdits(m, EditsOf(changes))
  {
    if ops != [] {
      var n := |ops| - 1;
      PlanApplies(m, ops[..n], changes[..n], before, after);
      assert changes[n] in changes;
      hide OpOf, Perform, Put, Taken;
      OpOfTaken(changes[n], before, after, PerformAll(m, ops[..n]));
      assert EditsOf(changes)[..n] == EditsOf(changes[..n]);
    }
  }

  /** diffLiveStates: the traversal of the activation package, without size limits. */
  method DiffLiveStates(before: seq<LiveState>, after: seq<LiveState>) returns (changes: seq<LiveChange>)
    requires AllValid(before) && AllValid(after) && Distinct(before) && Distinct(after)
    ensures changes == DiffMaps(MapOf(before), MapOf(after))
  {
    ApplyValid(map[], before);
    ApplyValid(map[], after);
    var beforeValues := PresentStateMap(before);
    var afterValues := PresentStateMap(after);
    var identities := CollectIdentities(beforeValues, afterValues);
    OrderedOf(identities, beforeValues.Keys + afterValues.Keys);
    changes := DescribeChanges(Sort(IdentityLess, identities), beforeValues, afterValues);
  }

  /**
   * On snapshots within the size limits the activation package computes the very change list
   * of the worktree package.
   */
  method DiffsAgree(before: LiveSnapshot, after: LiveSnapshot)
    returns (worktree: seq<LiveChange>, activation: seq<LiveChange>)
    requires ValidSnapshot(before) && ValidSnapshot(after)
    ensures worktree == activation == DiffMaps(MapOf(before.states), MapOf(after.states))
  {
    NormalMap(before.states);
    NormalMap(after.states);
    var diff := DiffSnapshot(before, after);
    var b := NormalizeLiveStates(before.states);
    var a := NormalizeLiveStates(after.states);
    worktree := diff.value;
    activation := DiffLiveStates(b.value, a.value);
  }

  lemma DifferenceIsTaken(before: LiveMap, after: LiveMap)
    requires ValidMap(before) && ValidMap(after)
    ensures forall c | c in DiffMaps(before, after) :: Taken(c, before, after)
  {
    DiffMinimal(before, after);
  }

  lemma EveryChangeHasAnOp(before: LiveMap, after: LiveMap)
    requires ValidMap(before) && ValidMap(after)
    ensures forall i | 0 <= i < |DiffMaps(before, after)| :: OpOf(DiffMaps(before, after)[i], before, after).Some?
  {
    DifferenceIsTaken(before, after);
    hide DiffMaps;
    forall i | 0 <= i < |DiffMaps(before, after)|
      ensures OpOf(DiffMaps(before, after)[i], before, after).Some?
    {
      assert DiffMaps(before, after)[i] in DiffMaps(before, after);
      OpOfTaken(DiffMaps(before, after)[i], before, after, before);
    }
  }

  method PlanBetween(before: seq<LiveState>, after: seq<LiveState>) returns (ops: Option<seq<Op>>)
    requires AllValid(before) && AllValid(after) && Distinct(before) && Distinct(after)
    ensures ops.Some? && Plans(ops.value, DiffMaps(MapOf(before), MapOf(after)), MapOf(before), MapOf(after))
    ensures PerformAll(MapOf(before), ops.value) == MapOf(after)
  {
    var changes := DiffLiveStates(before, after);
    var beforeValues := PresentStateMap(before);
    var afterValues := PresentStateMap(after);
    ApplyValid(map[], before);
    ApplyValid(map[], after);
    EveryChangeHasAnOp(beforeValues, afterValues);
    DifferenceIsTaken(beforeValues, afterValues);
    DiffApplies(beforeValues, afterValues);
    hide DiffMaps, MapOf, OpOf;
    ops := LiveChangesToOps(changes, beforeValues, afterValues);
    PlanApplies(beforeValues, ops.value, changes, beforeValues, afterValues);
  }

  /**
   * The two plans of a patch are inverse to each other: the forward plan turns the values
   * before into the values after, its replacement reverse turns them back, and a patch is
   * refused only when a state is invalid.
   */
  method BuildLivePatch(before: seq<LiveState>, after: seq<LiveState>) returns (r: Option<LivePatch>)
    ensures r.Some? <==> AllValid(before) && AllValid(after)
    ensures r.Some? ==> PerformAll(MapOf(before), r.value.forward) == MapOf(after)
    ensures r.Some? ==> PerformAll(MapOf(after), r.value.replacementReverse) == MapOf(before)
    ensures r.Some? ==> Plans(r.value.forward, DiffMaps(MapOf(before), MapOf(after)), MapOf(before), MapOf(after))
    ensures r.Some? ==>
              Plans(r.value.replacementReverse, DiffMaps(MapOf(after), MapOf(before)), MapOf(after), MapOf(before))
  {
    NormalMap(before);
    NormalMap(after);
    hide DiffMaps, MapOf, Plans, PerformAll, Normal;
    var beforeNormalized := NormalizeLiveStates(before);
    if beforeNormalized.Err? {
      return None;
    }
    var afterNormalized := NormalizeLiveStates(after);
    if afterNormalized.Err? {
      return None;
    }
    var forward := PlanBetween(beforeNormalized.value, afterNormalized.value);
    var reverse := PlanBetween(afterNormalized.value, beforeNormalized.value);
    if forward.None? || reverse.None? {
      return None;
    }
    r := Some(LivePatch(forward.value, reverse.value));
  }

  /** A patch touches nothing exactly when nothing differs, and undoing after doing changes nothing. */
  lemma PatchRoundTrip(before: LiveMap, after: LiveMap, forward: seq<Op>, reverse: seq<Op>)
    requires ValidMap(before) && ValidMap(after)
    requires Plans(forward, DiffMaps(before, after), before, after) &&
             Plans(reverse, DiffMaps(after, before), after, before)
    ensures PerformAll(PerformAll(before, forward), reverse) == before
    ensures PerformAll(PerformAll(after, reverse), forward) == after
    ensures forward == [] <==> before == after
    ensures |forward| == |reverse|
  {
    DifferenceIsTaken(before, after);
    DifferenceIsTaken(after, before);
    PlanApplies(before, forward, DiffMaps(before, after), before, after);
    PlanApplies(after, reverse, DiffMaps(after, before), after, before);
    DiffApplies(before, after);
    DiffApplies(after, before);
    DiffEmpty(before, after);
    SameSize(before, after);
  }

  lemma SameSize(before: LiveMap, after: LiveMap)
    requires ValidMap(before) && ValidMap(after)
    ensures |DiffMaps(before, after)| == |DiffMaps(after, before)|
  {
    DifferingKeys(before, after);
    DifferingKeys(after, before);
    hide *;
    ChangeCount(DiffMaps(before, after));
    ChangeCount(DiffMaps(after, before));
    forall id
      ensures id in Keys(ChangeIdentity, DiffMaps(before, after)) <==>
                id in Keys(ChangeIdentity, DiffMaps(after, before))
    {
      DifferingBothWays(before, after, id);
    }
    assert Keys(ChangeIdentity, DiffMaps(before, after)) == Keys(ChangeIdentity, DiffMaps(after, before));
  }

  lemma DifferingBothWays(before: LiveMap, after: LiveMap, id: Identity)
    ensures Differs(before, after, id) <==> Differs(after, before, id)
  {
  }

  lemma DifferingKeys(before: LiveMap, after: LiveMap)
    requires ValidMap(before) && ValidMap(after)
    ensures Unique(ChangeIdentity, DiffMaps(before, after))
    ensures forall id :: id in Keys(ChangeIdentity, DiffMaps(before, after)) <==> Differs(before, after, id)
  {
    hide DiffMaps, Differs;
    DiffMinimal(before, after);
  }

  lemma {:induction false} ChangeCount(changes: seq<LiveChange>)
    requires Unique(ChangeIdentity, changes)
    ensures |Keys(ChangeIdentity, changes)| == |changes|
  {
    if changes != [] {
      var n := |changes| - 1;
      assert changes == changes[..n] + [changes[n]];
      KeysSnoc(ChangeIdentity, changes[..n], changes[n]);
      forall i, j | 0 <= i < j < n
        ensures ChangeIdentity(changes[..n][i]) != ChangeIdentity(changes[..n][j])
      {
        assert ChangeIdentity(changes[i]) != ChangeIdentity(changes[j]);
      }
      ChangeCount(changes[..n]);
      forall i | 0 <= i < n
        ensures ChangeIdentity(changes[..n][i]) != ChangeIdentity(changes[n])
      {
        assert ChangeIdentity(changes[i]) != ChangeIdentity(changes[n]);
      }
    }
  }
}
