/**
 * Overlay application and committed projections: applyNormalizedOverlay and
 * BuildProjection (core/worktree/diff.go), effectiveProjection and BuildEffective
 * (core/activate/builder.go).
 */
module Projection {
  import opened Wrappers
  import opened LastOccurrence
  import opened Live
  import opened Diff

  datatype Projection = Projection(states: seq<LiveState>, tombstones: seq<Identity>)

  function NormalOverlay(entries: seq<OverlayEntry>): seq<OverlayEntry> { LastBy(EntryIdentity, entries) }

  predicate ValidOverlay(entries: seq<OverlayEntry>) {
    forall e | e in entries :: ValidEntry(e)
  }

  function Tombstones(entries: seq<OverlayEntry>): seq<Identity> {
    if entries == [] then []
    else
      var last := entries[|entries| - 1];
      Tombstones(entries[..|entries| - 1]) + (if last.tombstone then [last.identity] else [])
  }

  lemma NormalOverlayEdits(entries: seq<OverlayEntry>)
    requires ValidOverlay(entries)
    ensures Distinct(EntryEdits(NormalOverlay(entries))) && AllValid(EntryEdits(NormalOverlay(entries)))
    ensures forall e | e in NormalOverlay(entries) :: ValidEntry(e)
  {
    LastByUnique(EntryIdentity, entries);
    LastByMembers(EntryIdentity, entries);
    var normal := NormalOverlay(entries);
    var edits := EntryEdits(normal);
    forall i, j | 0 <= i < j < |edits|
      ensures IdentityOf(edits[i]) != IdentityOf(edits[j])
    {
      assert EntryIdentity(normal[i]) != EntryIdentity(normal[j]);
    }
    forall s | s in edits
      ensures ValidLiveState(s)
    {
      var i :| 0 <= i < |edits| && edits[i] == s;
      assert normal[i] in normal;
    }
  }

  method NormalizeOverlay(entries: seq<OverlayEntry>) returns (r: Result<seq<OverlayEntry>, ()>)
    ensures r.Ok? <==> ValidOverlay(entries)
    ensures r.Ok? ==> r.value == NormalOverlay(entries)
  {
    var last: map<Identity, int> := map[];
    for index := 0 to |entries|
      invariant forall i | 0 <= i < index :: ValidEntry(entries[i])
      invariant RecordsLast(EntryIdentity, entries, index, last)
    {
      if !ValidEntry(entries[index]) {
        return Err(());
      }
      RecordStep(EntryIdentity, entries, index, last);
      last := last[entries[index].identity := index];
    }
    var out := KeepLast(EntryIdentity, entries, last);
    r := Ok(out);
  }

  // ---------------------------------------------------------------- worktree overlay

  datatype OverlaySlot = OverlaySlot(state: LiveState, active: bool)

  ghost function SlotStates(slots: seq<OverlaySlot>): (r: seq<LiveState>)
    ensures |r| == |slots| && forall i | 0 <= i < |r| :: r[i] == slots[i].state
  {
    seq(|slots|, i requires 0 <= i < |slots| => slots[i].state)
  }

  ghost function SlotActive(slots: seq<OverlaySlot>): (r: seq<bool>)
    ensures |r| == |slots| && forall i | 0 <= i < |r| :: r[i] == slots[i].active
  {
    seq(|slots|, i requires 0 <= i < |slots| => slots[i].active)
  }

  ghost predicate OverlaySlotsHold(base: seq<LiveState>, edits: seq<LiveState>,
                                   slots: seq<OverlaySlot>, index: map<Identity, int>)
  {
    SlotsHold(base, edits, SlotStates(slots), SlotActive(slots), index)
  }

  lemma {:induction false} PresentDistinct(states: seq<LiveState>)
    requires Distinct(states)
    ensures Distinct(PresentOnly(states)) && Identities(PresentOnly(states)) <= Identities(states)
    decreases |states|
  {
    if states != [] {
      var n := |states| - 1;
      assert states == states[..n] + [states[n]];
      DistinctPrefix(states);
      PresentDistinct(states[..n]);
      KeysSnoc(IdentityOf, states[..n], states[n]);
      if !states[n].value.Removed? {
        KeysSnoc(IdentityOf, PresentOnly(states[..n]), states[n]);
        DistinctSnoc(PresentOnly(states[..n]), states[n]);
      }
    }
  }

  lemma {:induction false} PresentFind(states: seq<LiveState>, id: Identity)
    requires Distinct(states)
    ensures Find(PresentOnly(states), id) ==
            if Over(Find(states, id), Removed).Removed? then None else Find(states, id)
    decreases |states|
  {
    if states != [] {
      var n := |states| - 1;
      DistinctPrefix(states);
      PresentFind(states[..n], id);
      FindSome(states[..n], id);
      var last := if states[n].value.Removed? then [] else [states[n]];
      FindConcat(PresentOnly(states[..n]), last, id);
      if last != [] {
        assert last[..0] == [];
        assert Find(last[..0], id) == None;
      }
    }
  }

  lemma PresentMapOf(states: seq<LiveState>)
    requires Distinct(states)
    ensures MapOf(PresentOnly(states)) == MapOf(states)
  {
    forall id
      ensures Lookup(MapOf(PresentOnly(states)), id) == Lookup(MapOf(states), id)
    {
      MapOfLookup(PresentOnly(states), id);
      MapOfLookup(states, id);
      PresentFind(states, id);
    }
    ApplyPresent(states);
    ApplyPresent(PresentOnly(states));
    MapsAgree(MapOf(PresentOnly(states)), MapOf(states));
  }

  /** The next base state either is skipped or adds a slot for a new identity. */
  lemma PresentStep(base: seq<LiveState>, i: nat)
    requires Distinct(base) && i < |base|
    ensures PresentOnly(base[..i + 1]) ==
            PresentOnly(base[..i]) + (if base[i].value.Removed? then [] else [base[i]])
    ensures base[i].identity !in Identities(PresentOnly(base[..i]))
  {
    assert base[..i + 1][..i] == base[..i];
    DistinctTake(base, i + 1);
    DistinctPrefix(base[..i + 1]);
    PresentDistinct(base[..i]);
  }

  lemma IndexSlot(states: seq<LiveState>, index: map<Identity, int>, state: LiveState)
    requires Indexed(states, index) && state.identity !in Identities(states)
    ensures Indexed(states + [state], index[state.identity := |states|])
  {
    forall k | 0 <= k < |states|
      ensures states[k].identity != state.identity
    {
      assert IdentityOf(states[k]) in Identities(states);
    }
  }

  lemma BaseLists(base: seq<LiveState>)
    ensures PresentOnly(base[..0]) == [] && Indexed([], map[])
  {
  }

  lemma PresentInitial(base: seq<LiveState>, states: seq<LiveState>, active: seq<bool>, index: map<Identity, int>)
    requires states == PresentOnly(base[..|base|]) && Indexed(states, index)
    requires |active| == |states| && forall k | 0 <= k < |active| :: active[k]
    ensures SlotsHold(PresentOnly(base), [], states, active, index)
  {
    assert base[..|base|] == base;
    PresentMembers(base);
    hide PresentOnly;
    forall i | 0 <= i < |states|
      ensures active[i] == !states[i].value.Removed?
    {
      assert states[i] in states;
    }
    InitialSlots(states, active, index);
  }

  /** The base slots of an overlay: the present states, all active and indexed by identity. */
  method PresentSlots(base: seq<LiveState>) returns (slots: seq<OverlaySlot>, index: map<Identity, int>)
    requires Distinct(base)
    ensures OverlaySlotsHold(PresentOnly(base), [], slots, index)
  {
    hide Indexed, PresentOnly;
    slots, index := [], map[];
    BaseLists(base);
    for i := 0 to |base|
      invariant SlotStates(slots) == PresentOnly(base[..i])
      invariant forall k | 0 <= k < |slots| :: slots[k].active
      invariant Indexed(SlotStates(slots), index)
    {
      PresentStep(base, i);
      if !base[i].value.Removed? {
        IndexSlot(SlotStates(slots), index, base[i]);
        index := index[base[i].identity := |slots|];
        AddSlot(slots, base[i]);
        slots := slots + [OverlaySlot(base[i], true)];
      }
    }
    PresentInitial(base, SlotStates(slots), SlotActive(slots), index);
  }

  lemma AddSlot(slots: seq<OverlaySlot>, state: LiveState)
    ensures SlotStates(slots + [OverlaySlot(state, true)]) == SlotStates(slots) + [state]
    ensures SlotActive(slots + [OverlaySlot(state, true)]) == SlotActive(slots) + [true]
  {
  }

  lemma ReplaceSlot(slots: seq<OverlaySlot>, at: nat, state: LiveState)
    requires at < |slots|
    ensures SlotStates(slots[at := slots[at].(active := false)]) == SlotStates(slots)
    ensures SlotActive(slots[at := slots[at].(active := false)]) == SlotActive(slots)[at := false]
    ensures SlotStates(slots[at := OverlaySlot(state, true)]) == SlotStates(slots)[at := state]
    ensures SlotActive(slots[at := OverlaySlot(state, true)]) == SlotActive(slots)[at := true]
  {
  }

  lemma NextEntry(overlay: seq<OverlayEntry>, k: nat) returns (edits: seq<LiveState>, edit: LiveState)
    requires k < |overlay| && ValidOverlay(overlay) && Distinct(EntryEdits(overlay))
    ensures edits == EntryEdits(overlay)[..k] && edit == LiveState(overlay[k].identity, overlay[k].value)
    ensures EntryEdits(overlay)[..k + 1] == edits + [edit]
    ensures Distinct(edits + [edit]) && ValidEntry(overlay[k])
  {
    edits, edit := EntryEdits(overlay)[..k], EntryEdits(overlay)[k];
    DistinctTake(EntryEdits(overlay), k + 1);
    assert overlay[k] in overlay;
  }

  method OverlayEntrySlot(ghost base: seq<LiveState>, overlay: seq<OverlayEntry>, k: nat,
                          slots: seq<OverlaySlot>, index: map<Identity, int>)
    returns (slots': seq<OverlaySlot>, index': map<Identity, int>)
    requires k < |overlay| && ValidOverlay(overlay) && Distinct(EntryEdits(overlay)) && Distinct(base)
    requires OverlaySlotsHold(base, EntryEdits(overlay)[..k], slots, index)
    ensures OverlaySlotsHold(base, EntryEdits(overlay)[..k + 1], slots', index')
  {
    slots', index' := slots, index;
    var entry := overlay[k];
    ghost var edits, edit := NextEntry(overlay, k);
    IndexedBase(base, edits, edit, SlotStates(slots), SlotActive(slots), index);
    if entry.identity in index {
      var at := index[entry.identity];
      EditBaseSlot(base, edits, edit, SlotStates(slots), SlotActive(slots), index);
      ReplaceSlot(slots, at, edit);
      if entry.tombstone {
        slots' := slots[at := slots[at].(active := false)];
        return;
      }
      slots' := slots[at := OverlaySlot(LiveState(entry.identity, entry.value), true)];
    } else {
      EditNewSlot(base, edits, edit, SlotStates(slots), SlotActive(slots), index);
      if entry.tombstone {
        return;
      }
      index' := index[entry.identity := |slots|];
      slots' := slots + [OverlaySlot(LiveState(entry.identity, entry.value), true)];
      AddSlot(slots, edit);
    }
  }

  method ApplyNormalizedOverlay(base: seq<LiveState>, overlay: seq<OverlayEntry>) returns (out: seq<LiveState>)
    requires Distinct(base) && ValidOverlay(overlay) && Distinct(EntryEdits(overlay))
    ensures out == Overlay(PresentOnly(base), EntryEdits(overlay))
  {
    PresentDistinct(base);
    hide PresentOnly, SlotsHold;
    var slots, index := PresentSlots(base);
    for k := 0 to |overlay|
      invariant OverlaySlotsHold(PresentOnly(base), EntryEdits(overlay)[..k], slots, index)
    {
      slots, index := OverlayEntrySlot(PresentOnly(base), overlay, k, slots, index);
    }
    ghost var edits := EntryEdits(overlay);
    assert edits[..|edits|] == edits;
    ShownIsOverlay(PresentOnly(base), edits, SlotStates(slots), SlotActive(slots), index);
    out := ActiveStates(slots);
  }

  method ActiveStates(slots: seq<OverlaySlot>) returns (out: seq<LiveState>)
    ensures out == Shown(SlotStates(slots), SlotActive(slots))
  {
    out := [];
    ghost var states, active := SlotStates(slots), SlotActive(slots);
    for i := 0 to |slots|
      invariant out == Shown(states[..i], active[..i])
    {
      assert states[..i + 1][..i] == states[..i] && active[..i + 1][..i] == active[..i];
      if slots[i].active {
        out := out + [slots[i].state];
      }
    }
    assert states[..|slots|] == states && active[..|slots|] == active;
  }

  method BuildProjection(base: seq<LiveState>, overlay: seq<OverlayEntry>) returns (r: Result<Projection, ()>)
    ensures r.Ok? <==> AllValid(base) && ValidOverlay(overlay)
    ensures r.Ok? ==> r.value.states == Overlay(PresentOnly(Normal(base)), EntryEdits(NormalOverlay(overlay)))
    ensures r.Ok? ==> r.value.tombstones == Tombstones(NormalOverlay(overlay))
  {
    var normalizedBase := NormalizeLiveStates(base);
    if normalizedBase.Err? {
      return Err(());
    }
    var normalizedOverlay := NormalizeOverlay(overlay);
    if normalizedOverlay.Err? {
      return Err(());
    }
    NormalMap(base);
    NormalOverlayEdits(overlay);
    var states := ApplyNormalizedOverlay(normalizedBase.value, normalizedOverlay.value);
    var tombstones := CollectTombstones(normalizedOverlay.value);
    r := Ok(Projection(states, tombstones));
  }

  method CollectTombstones(entries: seq<OverlayEntry>) returns (tombstones: seq<Identity>)
    ensures tombstones == Tombstones(entries)
  {
    tombstones := [];
    for k := 0 to |entries|
      invariant tombstones == Tombstones(entries[..k])
    {
      assert entries[..k + 1][..k] == entries[..k];
      if entries[k].tombstone {
        tombstones := tombstones + [entries[k].identity];
      }
    }
    assert entries[..|entries|] == entries;
  }

  // ---------------------------------------------------------------- activation projection

  /** The activation package's own traversal, with separate state and activity lists. */
  method EffectiveProjection(base: seq<LiveState>, overlay: seq<OverlayEntry>) returns (out: Projection)
    requires Distinct(base) && ValidOverlay(overlay) && Distinct(EntryEdits(overlay))
    ensures out.states == Overlay(PresentOnly(base), EntryEdits(overlay))
    ensures out.tombstones == Tombstones(overlay)
  {
    PresentDistinct(base);
    hide PresentOnly, SlotsHold;
    var states, active, positions := PresentLists(base);
    var tombstones: seq<Identity> := [];
    for k := 0 to |overlay|
      invariant SlotsHold(PresentOnly(base), EntryEdits(overlay)[..k], states, active, positions)
      invariant tombstones == Tombstones(overlay[..k])
    {
      assert overlay[..k + 1][..k] == overlay[..k];
      if overlay[k].tombstone {
        tombstones := tombstones + [overlay[k].identity];
      }
      states, active, positions := ProjectEntry(PresentOnly(base), overlay, k, states, active, positions);
    }
    ghost var edits := EntryEdits(overlay);
    assert edits[..|edits|] == edits && overlay[..|overlay|] == overlay;
    ShownIsOverlay(PresentOnly(base), edits, states, active, positions);
    var projected := CollectActive(states, active);
    out := Projection(projected, tombstones);
  }

  method PresentLists(base: seq<LiveState>)
    returns (states: seq<LiveState>, active: seq<bool>, positions: map<Identity, int>)
    requires Distinct(base)
    ensures SlotsHold(PresentOnly(base), [], states, active, positions)
  {
    hide Indexed, PresentOnly;
    states, active, positions := [], [], map[];
    BaseLists(base);
    for i := 0 to |base|
      invariant states == PresentOnly(base[..i])
      invariant |active| == |states| && forall k | 0 <= k < |active| :: active[k]
      invariant Indexed(states, positions)
    {
      PresentStep(base, i);
      if !base[i].value.Removed? {
        IndexSlot(states, positions, base[i]);
        positions := positions[base[i].identity := |states|];
        states := states + [base[i]];
        active := active + [true];
      }
    }
    PresentInitial(base, states, active, positions);
  }

  method ProjectEntry(ghost base: seq<LiveState>, overlay: seq<OverlayEntry>, k: nat,
                      states: seq<LiveState>, active: seq<bool>, positions: map<Identity, int>)
    returns (states': seq<LiveState>, active': seq<bool>, positions': map<Identity, int>)
    requires k < |overlay| && ValidOverlay(overlay) && Distinct(EntryEdits(overlay)) && Distinct(base)
    requires SlotsHold(base, EntryEdits(overlay)[..k], states, active, positions)
    ensures SlotsHold(base, EntryEdits(overlay)[..k + 1], states', active', positions')
  {
    states', active', positions' := states, active, positions;
    var entry := overlay[k];
    ghost var edits, edit := NextEntry(overlay, k);
    IndexedBase(base, edits, edit, states, active, positions);
    if entry.identity in positions {
      EditBaseSlot(base, edits, edit, states, active, positions);
      if entry.tombstone {
        active' := active[positions[entry.identity] := false];
        return;
      }
      states' := states[positions[entry.identity] := LiveState(entry.identity, entry.value)];
      active' := active[positions[entry.identity] := true];
    } else {
      EditNewSlot(base, edits, edit, states, active, positions);
      if entry.tombstone {
        return;
      }
      positions' := positions[entry.identity := |states|];
      states' := states + [LiveState(entry.identity, entry.value)];
      active' := active + [true];
    }
  }

  // ---------------------------------------------------------------- agreement

  /**
   * The three editing loops produce one and the same sequence on present-only bases:
   * `ApplyChanges` is the value of ApplyStateChanges, the right-hand side is the value
   * of both overlay loops.
   */
  lemma EditorsAgree(base: seq<LiveState>, changes: seq<LiveChange>, overlay: seq<OverlayEntry>)
    requires Distinct(base) && AllPresent(base)
    requires EditsOf(changes) == EntryEdits(overlay)
    ensures ApplyChanges(base, changes) == Overlay(PresentOnly(base), EntryEdits(overlay))
  {
    UniqueIsNormal(IdentityOf, base);
    PresentMembers(base);
  }

  /** Longer than the name of every state. */
  function FreshLength(states: seq<LiveState>): (n: nat)
    ensures n > 0 && forall s | s in states :: |s.identity.name| < n
  {
    if states == [] then 1
    else
      var n := FreshLength(states[1..]);
      if |states[0].identity.name| < n then n else |states[0].identity.name| + 1
  }

  /** A valid value that no state names yet. */
  function Fresh(states: seq<LiveState>): (novel: LiveState)
    ensures ValidLiveState(novel) && !novel.value.Removed? && novel.identity !in Identities(states)
  {
    var name := seq(FreshLength(states), _ => 'A');
    assert forall i | 0 <= i < |states| :: states[i] in states && |states[i].identity.name| < |name|;
    LiveState(Identity(Env, name), Scalar(""))
  }

  function SomeValue(kind: LiveKind): (v: LiveValue)
    ensures !kind.Unsupported? ==> ValidValue(kind, v) && !v.Removed?
  {
    match kind
    case Path => List([])
    case FPath => List([])
    case Switch => Flag(true)
    case _ => Scalar("")
  }

  function Adding(a: LiveState, b: LiveState): seq<LiveChange> {
    [LiveChange(Add, a.identity, a.value), LiveChange(Add, b.identity, b.value)]
  }

  lemma AppendedPair(a: LiveState, b: LiveState, known: set<Identity>)
    requires !a.value.Removed? && !b.value.Removed? && a.identity !in known
    ensures Appended([a, b], known) == [a] + if b.identity in known then [] else [b]
  {
    assert [a, b][..1] == [a] && [a][..0] == [];
    assert Appended([], known) == [];
    assert Appended([a], known) == [a];
  }

  /** With an absent value in the base, a new identity followed by that one come out in different orders. */
  lemma AbsentSeparates(base: seq<LiveState>, i: nat)
    requires Distinct(base) && AllValid(base) && i < |base| && base[i].value.Removed?
    ensures var changes := Adding(Fresh(base), LiveState(base[i].identity, SomeValue(base[i].identity.kind)));
            ValidChanges(changes) && ApplyChanges(base, changes) != Overlay(PresentOnly(base), EditsOf(changes))
  {
    var novel, back := Fresh(base), LiveState(base[i].identity, SomeValue(base[i].identity.kind));
    assert base[i] in base && IdentityOf(base[i]) in Identities(base);
    AbsentIsDropped(base, i);
    UniqueIsNormal(IdentityOf, base);
    AddingEdits(novel, back);
    hide Fresh, SomeValue, ValidChanges, Adding, Overlay, PresentOnly, Identities;
    LastEdits(base, PresentOnly(base), novel, back);
  }

  lemma AddingEdits(a: LiveState, b: LiveState)
    requires ValidLiveState(a) && ValidLiveState(b) && !a.value.Removed? && !b.value.Removed? &&
             a.identity != b.identity
    ensures ValidChanges(Adding(a, b)) && EditsOf(Adding(a, b)) == [a, b]
  {
  }

  /** Over states that name `b` its edit keeps a place, over states that do not it comes last. */
  lemma LastEdits(naming: seq<LiveState>, other: seq<LiveState>, a: LiveState, b: LiveState)
    requires !a.value.Removed? && !b.value.Removed? && a != b
    requires a.identity !in Identities(naming) && a.identity !in Identities(other)
    requires b.identity in Identities(naming) && b.identity !in Identities(other)
    ensures Overlay(naming, [a, b]) != Overlay(other, [a, b])
  {
    AppendedPair(a, b, Identities(naming));
    AppendedPair(a, b, Identities(other));
    hide Rewritten, Appended, Identities;
    var kept, dropped := Overlay(naming, [a, b]), Overlay(other, [a, b]);
    assert kept == Rewritten(naming, [a, b]) + [a];
    assert dropped == Rewritten(other, [a, b]) + [a, b];
    assert kept[|kept| - 1] == a && dropped[|dropped| - 1] == b;
  }

  lemma AbsentIsDropped(base: seq<LiveState>, i: nat)
    requires Distinct(base) && i < |base| && base[i].value.Removed?
    ensures base[i].identity !in Identities(PresentOnly(base))
    ensures Identities(PresentOnly(base)) <= Identities(base)
  {
    PresentDistinct(base);
    PresentFind(base, base[i].identity);
    FindAt(base, i);
    FindSome(PresentOnly(base), base[i].identity);
  }

  /** The editors agree on a base, for every list of changes, exactly if all its values are present. */
  lemma EditorsAgreeExactly(base: seq<LiveState>)
    requires Distinct(base) && AllValid(base)
    ensures AllPresent(base) <==>
              forall changes | ValidChanges(changes) ::
                ApplyChanges(base, changes) == Overlay(PresentOnly(base), EditsOf(changes))
  {
    if AllPresent(base) {
      forall changes | ValidChanges(changes)
        ensures ApplyChanges(base, changes) == Overlay(PresentOnly(base), EditsOf(changes))
      {
        var overlay := AsOverlay(changes);
        EditorsAgree(base, changes, overlay);
      }
    } else {
      var absent :| absent in base && absent.value.Removed?;
      var i :| 0 <= i < |base| && base[i] == absent;
      AbsentSeparates(base, i);
    }
  }

  /** The overlay entries with the same edits. */
  function AsOverlay(changes: seq<LiveChange>): (overlay: seq<OverlayEntry>)
    ensures EntryEdits(overlay) == EditsOf(changes)
  {
    seq(|changes|, i requires 0 <= i < |changes| =>
      OverlayEntry(changes[i].identity, changes[i].value, changes[i].value.Removed?))
  }

  /** Bases with absent values agree as maps, whatever the order of the result. */
  lemma EditorsAgreeAsMaps(base: seq<LiveState>, changes: seq<LiveChange>, overlay: seq<OverlayEntry>)
    requires Distinct(base) && ValidChanges(changes)
    requires EditsOf(changes) == EntryEdits(overlay)
    ensures MapOf(ApplyChanges(base, changes)) == MapOf(Overlay(PresentOnly(base), EntryEdits(overlay)))
  {
    UniqueIsNormal(IdentityOf, base);
    EditsOfValid(changes);
    PresentDistinct(base);
    PresentMapOf(base);
    OverlayMap(base, EditsOf(changes));
    OverlayMap(PresentOnly(base), EditsOf(changes));
  }

  lemma OverlayOfOne(slot: LiveState, edit: LiveState)
    ensures Kept(slot, [edit]) ==
            if slot.identity == edit.identity then (if edit.value.Removed? then [] else [edit])
            else if slot.value.Removed? then [] else [slot]
    ensures forall known: set<Identity> ::
              Appended([edit], known) == if edit.identity in known || edit.value.Removed? then [] else [edit]
  {
    assert [edit][..0] == [];
    assert Find([edit][..0], slot.identity) == None;
    assert forall known: set<Identity> :: Appended([edit][..0], known) == [];
  }

  /** An absent base value keeps its slot in one editor and loses it in the others. */
  lemma AbsentBaseReorders(absent: LiveState, present: LiveState, edit: LiveState)
    requires absent.value.Removed? && !present.value.Removed? && !edit.value.Removed?
    requires edit.identity == absent.identity != present.identity
    ensures Overlay([absent, present], [edit]) == [edit, present]
    ensures Overlay(PresentOnly([absent, present]), [edit]) == [present, edit]
  {
    var base := [absent, present];
    OverlayOfOne(absent, edit);
    OverlayOfOne(present, edit);
    assert base[..1] == [absent] && [absent][..0] == [] && [present][..0] == [];
    assert Rewritten([absent], [edit]) == Rewritten([absent][..0], [edit]) + [edit] == [edit];
    assert Rewritten([present], [edit]) == Rewritten([present][..0], [edit]) + [present] == [present];
    assert PresentOnly([absent]) == PresentOnly([absent][..0]) == [];
    assert PresentOnly(base) == PresentOnly(base[..1]) + [present] == [present];
    assert IdentityOf(base[0]) in Identities(base);
    assert edit.identity !in Identities([present]);
  }
}
