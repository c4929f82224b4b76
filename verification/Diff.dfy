/**
 * Semantic differences and overlays (core/worktree/diff.go, and applyStateChanges,
 * equalLiveStates and FingerprintSnapshot of core/worktree/state.go).
 */
module Diff {
  import opened Wrappers
  import opened LastOccurrence
  import opened Live
  import opened Order

  datatype ChangeKind = Add | Update | Remove | UnknownChange(tag: string)

  datatype LiveChange = LiveChange(kind: ChangeKind, identity: Identity, value: LiveValue)

  datatype OverlayEntry = OverlayEntry(identity: Identity, value: LiveValue, tombstone: bool)

  function ChangeIdentity(change: LiveChange): Identity { change.identity }

  function EntryIdentity(entry: OverlayEntry): Identity { entry.identity }

  predicate ValidChange(change: LiveChange) {
    ValidIdentity(change.identity) && ValidValue(change.identity.kind, change.value) &&
    match change.kind
    case Add => !change.value.Removed?
    case Update => !change.value.Removed?
    case Remove => change.value.Removed?
    case UnknownChange(_) => false
  }

  predicate ValidChanges(changes: seq<LiveChange>) {
    Unique(ChangeIdentity, changes) && forall c | c in changes :: ValidChange(c)
  }

  predicate ValidEntry(entry: OverlayEntry) {
    ValidIdentity(entry.identity) && ValidValue(entry.identity.kind, entry.value) &&
    entry.tombstone == entry.value.Removed?
  }

  // ---------------------------------------------------------------- changes as edits

  function EditOf(change: LiveChange): LiveState { LiveState(change.identity, change.value) }

  function EditsOf(changes: seq<LiveChange>): (r: seq<LiveState>)
    ensures |r| == |changes| && forall i | 0 <= i < |r| :: r[i] == EditOf(changes[i])
  {
    seq(|changes|, i requires 0 <= i < |changes| => EditOf(changes[i]))
  }

  function EntryEdits(entries: seq<OverlayEntry>): (r: seq<LiveState>)
    ensures |r| == |entries|
    ensures forall i | 0 <= i < |r| :: r[i] == LiveState(entries[i].identity, entries[i].value)
  {
    seq(|entries|, i requires 0 <= i < |entries| => LiveState(entries[i].identity, entries[i].value))
  }

  lemma EditsOfValid(changes: seq<LiveChange>)
    requires ValidChanges(changes)
    ensures Distinct(EditsOf(changes)) && AllValid(EditsOf(changes))
  {
    var edits := EditsOf(changes);
    forall i, j | 0 <= i < j < |edits|
      ensures IdentityOf(edits[i]) != IdentityOf(edits[j])
    {
      assert ChangeIdentity(changes[i]) != ChangeIdentity(changes[j]);
    }
    forall s | s in edits
      ensures ValidLiveState(s)
    {
      var i :| 0 <= i < |edits| && edits[i] == s;
      assert changes[i] in changes;
    }
  }

  // ---------------------------------------------------------------- semantic difference

  function ChangeFor(id: Identity, before: LiveMap, after: LiveMap): seq<LiveChange> {
    if id !in before && id in after then [LiveChange(Add, id, after[id])]
    else if id in before && id !in after then [LiveChange(Remove, id, Removed)]
    else if id in before && id in after && !EqualValue(id.kind, before[id], after[id]) then
      [LiveChange(Update, id, after[id])]
    else []
  }

  function ChangesFor(ids: seq<Identity>, before: LiveMap, after: LiveMap): seq<LiveChange> {
    if ids == [] then []
    else ChangesFor(ids[..|ids| - 1], before, after) + ChangeFor(ids[|ids| - 1], before, after)
  }

  /** The canonical change list between two maps; `DiffApplies` and `DiffMinimal` say what it means. */
  ghost function DiffMaps(before: LiveMap, after: LiveMap): seq<LiveChange> {
    ChangesFor(Ordered(before.Keys + after.Keys), before, after)
  }

  ghost predicate Differs(before: LiveMap, after: LiveMap, id: Identity) {
    Lookup(before, id) != Lookup(after, id)
  }

  lemma EditsConcat(a: seq<LiveChange>, b: seq<LiveChange>)
    ensures EditsOf(a + b) == EditsOf(a) + EditsOf(b)
  {
  }

  lemma ChangeForFind(at: Identity, before: LiveMap, after: LiveMap, id: Identity)
    requires ValidMap(before) && ValidMap(after)
    ensures Find(EditsOf(ChangeFor(at, before, after)), id) ==
            if id == at && Differs(before, after, id) then Some(Lookup(after, id)) else None
  {
    var edits := EditsOf(ChangeFor(at, before, after));
    if edits != [] {
      assert edits[..0] == [];
      assert Find(edits[..0], id) == None;
    }
  }

  lemma {:induction false} ChangesForFind(ids: seq<Identity>, before: LiveMap, after: LiveMap, id: Identity)
    requires ValidMap(before) && ValidMap(after)
    ensures Find(EditsOf(ChangesFor(ids, before, after)), id) ==
            if id in ids && Differs(before, after, id) then Some(Lookup(after, id)) else None
  {
    if ids != [] {
      var n := |ids| - 1;
      var head, last := ChangesFor(ids[..n], before, after), ChangeFor(ids[n], before, after);
      ChangesForFind(ids[..n], before, after, id);
      ChangeForFind(ids[n], before, after, id);
      hide ValidMap, Differs, Find, ChangeFor;
      EditsConcat(head, last);
      FindConcat(EditsOf(head), EditsOf(last), id);
      assert ids == ids[..n] + [ids[n]];
    }
  }

  /** Every change names a differing identity of `ids` and carries its new value. */
  ghost predicate Names(c: LiveChange, ids: seq<Identity>, before: LiveMap, after: LiveMap) {
    && ValidChange(c) && c.identity in ids && Differs(before, after, c.identity)
    && c.value == Lookup(after, c.identity)
    && (c.kind == Add <==> c.identity !in before) && (c.kind == Remove <==> c.identity !in after)
  }

  lemma {:induction false} ChangesForNames(ids: seq<Identity>, before: LiveMap, after: LiveMap)
    requires ValidMap(before) && ValidMap(after)
    requires forall id | id in ids :: ValidIdentity(id)
    ensures forall c | c in ChangesFor(ids, before, after) :: Names(c, ids, before, after)
  {
    if ids != [] {
      var n := |ids| - 1;
      assert ids == ids[..n] + [ids[n]];
      ChangesForNames(ids[..n], before, after);
      forall c | c in ChangesFor(ids, before, after)
        ensures Names(c, ids, before, after)
      {
        if c in ChangesFor(ids[..n], before, after) {
          assert Names(c, ids[..n], before, after);
        } else {
          assert c in ChangeFor(ids[n], before, after);
        }
      }
    }
  }

  lemma {:induction false} ChangesForSorted(ids: seq<Identity>, before: LiveMap, after: LiveMap)
    requires ValidMap(before) && ValidMap(after) && Sorted(IdentityLess, ids)
    requires forall id | id in ids :: ValidIdentity(id)
    ensures Sorted(ChangeLess, ChangesFor(ids, before, after))
  {
    if ids != [] {
      var n := |ids| - 1;
      assert ids == ids[..n] + [ids[n]];
      assert Sorted(IdentityLess, ids[..n]);
      ChangesForSorted(ids[..n], before, after);
      ChangesForNames(ids[..n], before, after);
      var cs := ChangesFor(ids[..n], before, after);
      forall i | 0 <= i < |cs|
        ensures IdentityLess(cs[i].identity, ids[n])
      {
        assert Names(cs[i], ids[..n], before, after);
        var k :| 0 <= k < n && ids[..n][k] == cs[i].identity;
        assert IdentityLess(ids[k], ids[n]);
      }
    }
  }

  predicate ChangeLess(left: LiveChange, right: LiveChange) {
    IdentityLess(left.identity, right.identity)
  }

  lemma DiffFind(before: LiveMap, after: LiveMap, id: Identity)
    requires ValidMap(before) && ValidMap(after)
    ensures Find(EditsOf(DiffMaps(before, after)), id) ==
            if Differs(before, after, id) then Some(Lookup(after, id)) else None
  {
    OrderedSorted(before.Keys + after.Keys);
    ChangesForFind(Ordered(before.Keys + after.Keys), before, after, id);
  }

  /** Change lists are valid, strictly ordered by identity, and touch exactly what differs. */
  lemma DiffMinimal(before: LiveMap, after: LiveMap)
    requires ValidMap(before) && ValidMap(after)
    ensures ValidChanges(DiffMaps(before, after))
    ensures Sorted(ChangeLess, DiffMaps(before, after))
    ensures forall id :: id in Keys(ChangeIdentity, DiffMaps(before, after)) <==> Differs(before, after, id)
    ensures forall c | c in DiffMaps(before, after) :: c.value == Lookup(after, c.identity) &&
              (c.kind == Add <==> c.identity !in before) && (c.kind == Remove <==> c.identity !in after)
  {
    var ids := Ordered(before.Keys + after.Keys);
    OrderedSorted(before.Keys + after.Keys);
    ChangesForNames(ids, before, after);
    ChangesForSorted(ids, before, after);
    var cs := DiffMaps(before, after);
    SortedChangesUnique(cs);
    forall c | c in cs
      ensures ValidChange(c) && Differs(before, after, c.identity) && c.value == Lookup(after, c.identity)
      ensures (c.kind == Add <==> c.identity !in before) && (c.kind == Remove <==> c.identity !in after)
    {
      assert Names(c, ids, before, after);
    }
    forall id
      ensures id in Keys(ChangeIdentity, cs) <==> Differs(before, after, id)
    {
      DiffFind(before, after, id);
      FindSome(EditsOf(cs), id);
      ChangeKeys(cs);
    }
  }

  lemma SortedChangesUnique(cs: seq<LiveChange>)
    requires Sorted(ChangeLess, cs)
    ensures Unique(ChangeIdentity, cs)
  {
    forall i, j | 0 <= i < j < |cs|
      ensures ChangeIdentity(cs[i]) != ChangeIdentity(cs[j])
    {
      assert ChangeLess(cs[i], cs[j]);
      StringTrichotomy(cs[i].identity.name, cs[i].identity.name);
    }
  }

  lemma ChangeKeys(cs: seq<LiveChange>)
    ensures Keys(ChangeIdentity, cs) == Identities(EditsOf(cs))
  {
    forall id | id in Keys(ChangeIdentity, cs)
      ensures id in Identities(EditsOf(cs))
    {
      var i :| 0 <= i < |cs| && ChangeIdentity(cs[i]) == id;
      assert IdentityOf(EditsOf(cs)[i]) == id;
    }
    forall id | id in Identities(EditsOf(cs))
      ensures id in Keys(ChangeIdentity, cs)
    {
      var i :| 0 <= i < |cs| && IdentityOf(EditsOf(cs)[i]) == id;
      assert ChangeIdentity(cs[i]) == id;
    }
  }

  /** Applying the difference of two maps to the first yields the second. */
  lemma DiffApplies(before: LiveMap, after: LiveMap)
    requires ValidMap(before) && ValidMap(after)
    ensures ApplyEdits(before, EditsOf(DiffMaps(before, after))) == after
  {
    var edits := EditsOf(DiffMaps(before, after));
    forall id
      ensures Lookup(ApplyEdits(before, edits), id) == Lookup(after, id)
    {
      ApplyLookup(before, edits, id);
      DiffFind(before, after, id);
    }
    ApplyLookup(before, edits, Identity(Env, ""));
    MapsAgree(ApplyEdits(before, edits), after);
  }

  /** The difference is empty exactly between equal maps. */
  lemma DiffEmpty(before: LiveMap, after: LiveMap)
    requires ValidMap(before) && ValidMap(after)
    ensures DiffMaps(before, after) == [] <==> before == after
  {
    DiffApplies(before, after);
    DiffMinimal(before, after);
    var cs := DiffMaps(before, after);
    assert cs != [] ==> ChangeIdentity(cs[0]) in Keys(ChangeIdentity, cs);
    assert cs != [] ==> Differs(before, after, ChangeIdentity(cs[0]));
  }

  method PresentStateMap(states: seq<LiveState>) returns (m: LiveMap)
    requires Distinct(states)
    ensures m == MapOf(states)
  {
    m := map[];
    for i := 0 to |states|
      invariant m == MapOf(states[..i])
      invariant forall id | id in m :: exists k | 0 <= k < i :: states[k].identity == id
    {
      assert states[..i + 1][..i] == states[..i];
      if !states[i].value.Removed? {
        m := m[states[i].identity := states[i].value];
      } else {
        assert states[i].identity !in m by {
          forall k | 0 <= k < i
            ensures states[k].identity != states[i].identity
          {
            assert IdentityOf(states[k]) != IdentityOf(states[i]);
          }
        }
        assert m - {states[i].identity} == m;
      }
    }
    assert states[..|states|] == states;
  }

  /** Every identity of the two maps once, in no particular order. */
  method CollectIdentities(before: LiveMap, after: LiveMap) returns (identities: seq<Identity>)
    ensures forall id :: id in identities <==> id in before.Keys + after.Keys
    ensures forall i, j :: 0 <= i < j < |identities| ==> identities[i] != identities[j]
  {
    identities := [];
    var seen: set<Identity> := {};
    var rest := before.Keys;
    while rest != {}
      invariant rest <= before.Keys && seen == before.Keys - rest
      invariant forall id :: id in identities <==> id in seen
      invariant forall i, j :: 0 <= i < j < |identities| ==> identities[i] != identities[j]
      decreases rest
    {
      var id :| id in rest;
      rest := rest - {id};
      seen := seen + {id};
      identities := identities + [id];
    }
    rest := after.Keys;
    while rest != {}
      invariant rest <= after.Keys && seen == before.Keys
      invariant forall id :: id in identities <==> id in seen || id in after.Keys - rest
      invariant forall i, j :: 0 <= i < j < |identities| ==> identities[i] != identities[j]
      decreases rest
    {
      var id :| id in rest;
      rest := rest - {id};
      if id !in seen {
        identities := identities + [id];
      }
    }
  }

  method DiffSnapshot(before: LiveSnapshot, after: LiveSnapshot) returns (r: Result<seq<LiveChange>, ()>)
    ensures r.Ok? <==> ValidSnapshot(before) && ValidSnapshot(after)
    ensures r.Ok? ==> r.value == DiffMaps(MapOf(before.states), MapOf(after.states))
  {
    if !ValidSnapshot(before) || !ValidSnapshot(after) {
      return Err(());
    }
    var beforeStates := NormalizeLiveStates(before.states);
    var afterStates := NormalizeLiveStates(after.states);
    NormalMap(before.states);
    NormalMap(after.states);
    ApplyValid(map[], before.states);
    ApplyValid(map[], after.states);
    var beforeByIdentity := PresentStateMap(beforeStates.value);
    var afterByIdentity := PresentStateMap(afterStates.value);
    var changes := DiffPresent(beforeByIdentity, afterByIdentity);
    r := Ok(changes);
  }

  method DiffPresent(before: LiveMap, after: LiveMap) returns (changes: seq<LiveChange>)
    requires ValidMap(before) && ValidMap(after)
    ensures changes == DiffMaps(before, after)
  {
    var identities := CollectIdentities(before, after);
    OrderedOf(identities, before.Keys + after.Keys);
    changes := DescribeChanges(Sort(IdentityLess, identities), before, after);
  }

  method DescribeChanges(identities: seq<Identity>, before: LiveMap, after: LiveMap)
    returns (changes: seq<LiveChange>)
    ensures changes == ChangesFor(identities, before, after)
  {
    changes := [];
    for i := 0 to |identities|
      invariant changes == ChangesFor(identities[..i], before, after)
    {
      var id := identities[i];
      assert identities[..i + 1][..i] == identities[..i];
      if id !in before && id in after {
        changes := changes + [LiveChange(Add, id, after[id])];
      } else if id in before && id !in after {
        changes := changes + [LiveChange(Remove, id, Removed)];
      } else if id in before && id in after && !EqualValue(id.kind, before[id], after[id]) {
        changes := changes + [LiveChange(Update, id, after[id])];
      }
    }
    assert identities[..|identities|] == identities;
  }

  // ---------------------------------------------------------------- overlays

  function PresentOnly(states: seq<LiveState>): seq<LiveState> {
    if states == [] then []
    else
      var n := |states| - 1;
      PresentOnly(states[..n]) + (if states[n].value.Removed? then [] else [states[n]])
  }

  lemma {:induction false} PresentMembers(states: seq<LiveState>)
    ensures forall s :: s in PresentOnly(states) <==> s in states && !s.value.Removed?
    ensures AllPresent(states) ==> PresentOnly(states) == states
    ensures |PresentOnly(states)| <= |states|
  {
    if states != [] {
      var n := |states| - 1;
      assert states == states[..n] + [states[n]];
      PresentMembers(states[..n]);
    }
  }

  /** What an overlay leaves of one base slot. */
  function Kept(slot: LiveState, edits: seq<LiveState>): seq<LiveState> {
    match Find(edits, slot.identity)
    case None => if slot.value.Removed? then [] else [slot]
    case Some(value) => if value.Removed? then [] else [LiveState(slot.identity, value)]
  }

  function Rewritten(base: seq<LiveState>, edits: seq<LiveState>): seq<LiveState> {
    if base == [] then []
    else Rewritten(base[..|base| - 1], edits) + Kept(base[|base| - 1], edits)
  }

  /** The edits that introduce identities outside `known`, in edit order. */
  function Appended(edits: seq<LiveState>, known: set<Identity>): seq<LiveState> {
    if edits == [] then []
    else
      var last := edits[|edits| - 1];
      Appended(edits[..|edits| - 1], known) +
      (if last.identity in known || last.value.Removed? then [] else [last])
  }

  /** Existing identities keep their place, new ones follow in edit order, tombstones remove. */
  function Overlay(base: seq<LiveState>, edits: seq<LiveState>): seq<LiveState> {
    Rewritten(base, edits) + Appended(edits, Identities(base))
  }

  lemma KeptFind(slot: LiveState, edits: seq<LiveState>, id: Identity)
    ensures Find(Kept(slot, edits), id) ==
            if id != slot.identity || Over(Find(edits, id), slot.value).Removed? then None
            else Some(Over(Find(edits, id), slot.value))
  {
    var kept := Kept(slot, edits);
    if kept != [] {
      assert kept[..0] == [];
      assert Find(kept[..0], id) == None;
    }
  }

  lemma {:induction false} RewrittenFind(base: seq<LiveState>, edits: seq<LiveState>, id: Identity)
    requires Distinct(base)
    ensures Find(Rewritten(base, edits), id) ==
            if id !in Identities(base) then None
            else if Over(Find(edits, id), Over(Find(base, id), Removed)).Removed? then None
            else Some(Over(Find(edits, id), Over(Find(base, id), Removed)))
  {
    hide Unique, Keys;
    if base != [] {
      var n := |base| - 1;
      DistinctPrefix(base);
      RewrittenFind(base[..n], edits, id);
      KeptFind(base[n], edits, id);
      FindConcat(Rewritten(base[..n], edits), Kept(base[n], edits), id);
      assert base == base[..n] + [base[n]];
      KeysSnoc(IdentityOf, base[..n], base[n]);
    }
  }

  lemma {:induction false} AppendedFind(edits: seq<LiveState>, known: set<Identity>, id: Identity)
    requires Distinct(edits)
    ensures Find(Appended(edits, known), id) ==
            if id in known || Over(Find(edits, id), Removed).Removed? then None else Find(edits, id)
  {
    hide Unique, Keys;
    if edits != [] {
      var n := |edits| - 1;
      DistinctPrefix(edits);
      FindSome(edits[..n], edits[n].identity);
      AppendedFind(edits[..n], known, id);
      FindSome(edits[..n], id);
      var last := if edits[n].identity in known || edits[n].value.Removed? then [] else [edits[n]];
      FindConcat(Appended(edits[..n], known), last, id);
      if last != [] {
        assert last[..0] == [];
        assert Find(last[..0], id) == None;
      }
    }
  }

  /** An overlay denotes the base map with the edits applied. */
  lemma OverlayMap(base: seq<LiveState>, edits: seq<LiveState>)
    requires Distinct(base) && Distinct(edits)
    ensures MapOf(Overlay(base, edits)) == ApplyEdits(MapOf(base), edits)
  {
    ApplyPresent(base);
    ApplyPresent(Overlay(base, edits));
    forall id
      ensures Lookup(MapOf(Overlay(base, edits)), id) == Lookup(ApplyEdits(MapOf(base), edits), id)
    {
      MapOfLookup(Overlay(base, edits), id);
      MapOfLookup(base, id);
      ApplyLookup(MapOf(base), edits, id);
      FindConcat(Rewritten(base, edits), Appended(edits, Identities(base)), id);
      RewrittenFind(base, edits, id);
      AppendedFind(edits, Identities(base), id);
      FindSome(base, id);
    }
    ApplyLookup(MapOf(base), edits, Identity(Env, ""));
    MapsAgree(MapOf(Overlay(base, edits)), ApplyEdits(MapOf(base), edits));
  }

  lemma {:induction false} RewrittenIds(base: seq<LiveState>, edits: seq<LiveState>)
    requires Distinct(base)
    ensures Distinct(Rewritten(base, edits))
    ensures Identities(Rewritten(base, edits)) <= Identities(base)
    ensures |Rewritten(base, edits)| <= |base|
  {
    if base != [] {
      hide Unique, Keys;
      var n := |base| - 1;
      assert base == base[..n] + [base[n]];
      DistinctPrefix(base);
      RewrittenIds(base[..n], edits);
      KeysSnoc(IdentityOf, base[..n], base[n]);
      var kept := Kept(base[n], edits);
      if kept != [] {
        KeysSnoc(IdentityOf, Rewritten(base[..n], edits), kept[0]);
        DistinctSnoc(Rewritten(base[..n], edits), kept[0]);
      }
    }
  }

  lemma {:induction false} RewrittenValues(base: seq<LiveState>, edits: seq<LiveState>)
    ensures AllPresent(Rewritten(base, edits))
    ensures AllValid(base) && AllValid(edits) ==> AllValid(Rewritten(base, edits))
  {
    if base != [] {
      var n := |base| - 1;
      RewrittenValues(base[..n], edits);
      assert base[n] in base;
      FindSome(edits, base[n].identity);
    }
  }

  lemma DistinctPrefix(s: seq<LiveState>)
    requires s != [] && Distinct(s)
    ensures Distinct(s[..|s| - 1]) && s[|s| - 1].identity !in Identities(s[..|s| - 1])
  {
    var n := |s| - 1;
    forall i, j | 0 <= i < j < n
      ensures IdentityOf(s[..n][i]) != IdentityOf(s[..n][j])
    {
      assert IdentityOf(s[i]) != IdentityOf(s[j]);
    }
    forall i | 0 <= i < n
      ensures IdentityOf(s[..n][i]) != s[n].identity
    {
      assert IdentityOf(s[i]) != IdentityOf(s[n]);
    }
  }

  lemma DistinctSnoc(s: seq<LiveState>, x: LiveState)
    requires Distinct(s) && x.identity !in Identities(s)
    ensures Distinct(s + [x])
  {
    forall i, j | 0 <= i < j < |s + [x]|
      ensures IdentityOf((s + [x])[i]) != IdentityOf((s + [x])[j])
    {
      assert IdentityOf(s[i]) in Identities(s);
      if j < |s| {
        assert IdentityOf(s[i]) != IdentityOf(s[j]);
      }
    }
  }

  lemma {:induction false} AppendedIds(edits: seq<LiveState>, known: set<Identity>)
    requires Distinct(edits)
    ensures Distinct(Appended(edits, known)) && AllPresent(Appended(edits, known))
    ensures Identities(Appended(edits, known)) <= Identities(edits) - known
    ensures forall s | s in Appended(edits, known) :: s in edits
    ensures |Appended(edits, known)| <= |edits|
  {
    if edits != [] {
      hide Unique, Keys;
      var n := |edits| - 1;
      assert edits == edits[..n] + [edits[n]];
      DistinctPrefix(edits);
      AppendedIds(edits[..n], known);
      KeysSnoc(IdentityOf, edits[..n], edits[n]);
      var head := Appended(edits[..n], known);
      if !(edits[n].identity in known || edits[n].value.Removed?) {
        KeysSnoc(IdentityOf, head, edits[n]);
        DistinctSnoc(head, edits[n]);
      }
    }
  }

  lemma OverlayShape(base: seq<LiveState>, edits: seq<LiveState>)
    requires Distinct(base) && Distinct(edits)
    ensures Distinct(Overlay(base, edits)) && AllPresent(Overlay(base, edits))
    ensures AllValid(base) && AllValid(edits) ==> AllValid(Overlay(base, edits))
    ensures |Overlay(base, edits)| <= |base| + |edits|
  {
    RewrittenIds(base, edits);
    RewrittenValues(base, edits);
    AppendedIds(edits, Identities(base));
    var a, b := Rewritten(base, edits), Appended(edits, Identities(base));
    forall i, j | 0 <= i < j < |a + b|
      ensures IdentityOf((a + b)[i]) != IdentityOf((a + b)[j])
    {
      if j < |a| {
        assert IdentityOf(a[i]) != IdentityOf(a[j]);
      } else if i >= |a| {
        assert IdentityOf(b[i - |a|]) != IdentityOf(b[j - |a|]);
      } else {
        assert IdentityOf(a[i]) in Identities(a) && IdentityOf(b[j - |a|]) in Identities(b);
      }
    }
  }

  /** What one slot of the editing loops shows. */
  function Visible(state: LiveState, active: bool): seq<LiveState> {
    if active then [state] else []
  }

  function Shown(current: seq<LiveState>, active: seq<bool>): seq<LiveState>
    requires |current| == |active|
  {
    if current == [] then []
    else
      var n := |current| - 1;
      Shown(current[..n], active[..n]) + Visible(current[n], active[n])
  }

  /** The base slots show what the edits so far leave of them. */
  ghost predicate BaseSlots(base: seq<LiveState>, edits: seq<LiveState>, current: seq<LiveState>, active: seq<bool>) {
    && |current| == |active| && |base| <= |current|
    && (forall i | 0 <= i < |base| :: current[i].identity == base[i].identity)
    && (forall i | 0 <= i < |base| :: Visible(current[i], active[i]) == Kept(base[i], edits))
  }

  /** The slots after the base are the appended edits, all active. */
  ghost predicate TailSlots(base: seq<LiveState>, edits: seq<LiveState>, current: seq<LiveState>, active: seq<bool>) {
    && |current| == |active| && |base| <= |current|
    && current[|base|..] == Appended(edits, Identities(base))
    && (forall i | |base| <= i < |current| :: active[i])
  }

  ghost predicate Indexed(current: seq<LiveState>, index: map<Identity, int>) {
    && (forall i | 0 <= i < |current| :: current[i].identity in index && index[current[i].identity] == i)
    && (forall id | id in index :: 0 <= index[id] < |current| && current[index[id]].identity == id)
  }

  /** The invariant of the slot loops after `edits`: base slots first, then the appended ones. */
  ghost predicate SlotsHold(base: seq<LiveState>, edits: seq<LiveState>,
                            current: seq<LiveState>, active: seq<bool>, index: map<Identity, int>)
  {
    BaseSlots(base, edits, current, active) && TailSlots(base, edits, current, active) && Indexed(current, index)
  }

  lemma IndexedBase(base: seq<LiveState>, edits: seq<LiveState>, edit: LiveState,
                    current: seq<LiveState>, active: seq<bool>, index: map<Identity, int>)
    requires SlotsHold(base, edits, current, active, index)
    requires Distinct(edits + [edit])
    ensures edit.identity in index <==> edit.identity in Identities(base)
    ensures edit.identity in index ==> 0 <= index[edit.identity] < |base|
  {
    var all := edits + [edit];
    assert all[..|all| - 1] == edits;
    DistinctPrefix(all);
    AppendedIds(edits, Identities(base));
    forall i | |base| <= i < |current|
      ensures current[i].identity != edit.identity
    {
      var tail := Appended(edits, Identities(base));
      assert current[i] == current[|base|..][i - |base|];
      assert IdentityOf(tail[i - |base|]) in Identities(tail);
    }
    if edit.identity in index {
      assert IdentityOf(base[index[edit.identity]]) in Identities(base);
    }
    if edit.identity in Identities(base) {
      var i :| 0 <= i < |base| && IdentityOf(base[i]) == edit.identity;
      assert current[i].identity in index;
    }
  }

  lemma KeptSnoc(slot: LiveState, edits: seq<LiveState>, edit: LiveState)
    ensures edit.identity != slot.identity ==> Kept(slot, edits + [edit]) == Kept(slot, edits)
    ensures edit.identity == slot.identity ==>
              Kept(slot, edits + [edit]) == if edit.value.Removed? then [] else [edit]
  {
    assert (edits + [edit])[..|edits|] == edits;
  }

  lemma RewriteSlot(base: seq<LiveState>, edits: seq<LiveState>, edit: LiveState,
                    current: seq<LiveState>, active: seq<bool>, at: nat)
    requires BaseSlots(base, edits, current, active) && Distinct(base)
    requires at < |base| && base[at].identity == edit.identity
    ensures edit.value.Removed? ==> BaseSlots(base, edits + [edit], current, active[at := false])
    ensures !edit.value.Removed? ==> BaseSlots(base, edits + [edit], current[at := edit], active[at := true])
  {
    var current' := if edit.value.Removed? then current else current[at := edit];
    var active' := active[at := !edit.value.Removed?];
    forall i | 0 <= i < |base|
      ensures Visible(current'[i], active'[i]) == Kept(base[i], edits + [edit])
    {
      KeptSnoc(base[i], edits, edit);
      if i < at {
        assert IdentityOf(base[i]) != IdentityOf(base[at]);
      } else if at < i {
        assert IdentityOf(base[at]) != IdentityOf(base[i]);
      }
    }
  }

  lemma KeepTail(base: seq<LiveState>, edits: seq<LiveState>, edit: LiveState,
                 current: seq<LiveState>, active: seq<bool>, at: nat, on: bool)
    requires TailSlots(base, edits, current, active)
    requires at < |base| && edit.identity in Identities(base)
    ensures TailSlots(base, edits + [edit], current, active[at := on])
    ensures TailSlots(base, edits + [edit], current[at := edit], active[at := on])
  {
    assert (edits + [edit])[..|edits|] == edits;
    assert current[at := edit][|base|..] == current[|base|..];
  }

  lemma EditBaseSlot(base: seq<LiveState>, edits: seq<LiveState>, edit: LiveState,
                     current: seq<LiveState>, active: seq<bool>, index: map<Identity, int>)
    requires SlotsHold(base, edits, current, active, index)
    requires Distinct(base) && edit.identity in index && 0 <= index[edit.identity] < |base|
    requires edit.identity in Identities(base)
    ensures edit.value.Removed? ==>
              SlotsHold(base, edits + [edit], current, active[index[edit.identity] := false], index)
    ensures !edit.value.Removed? ==>
              SlotsHold(base, edits + [edit], current[index[edit.identity] := edit],
                        active[index[edit.identity] := true], index)
  {
    var at := index[edit.identity];
    assert base[at].identity == current[at].identity == edit.identity;
    RewriteSlot(base, edits, edit, current, active, at);
    KeepTail(base, edits, edit, current, active, at, !edit.value.Removed?);
    assert Indexed(current[at := edit], index);
  }

  lemma EditNewSlot(base: seq<LiveState>, edits: seq<LiveState>, edit: LiveState,
                    current: seq<LiveState>, active: seq<bool>, index: map<Identity, int>)
    requires SlotsHold(base, edits, current, active, index)
    requires edit.identity !in index && edit.identity !in Identities(base)
    ensures edit.value.Removed? ==> SlotsHold(base, edits + [edit], current, active, index)
    ensures !edit.value.Removed? ==>
              SlotsHold(base, edits + [edit], current + [edit], active + [true],
                        index[edit.identity := |current|])
  {
    assert (edits + [edit])[..|edits|] == edits;
    forall i | 0 <= i < |base|
      ensures Kept(base[i], edits + [edit]) == Kept(base[i], edits)
    {
      KeptSnoc(base[i], edits, edit);
      assert IdentityOf(base[i]) in Identities(base);
    }
    assert (current + [edit])[|base|..] == current[|base|..] + [edit];
  }

  lemma {:induction false} ShownPrefix(base: seq<LiveState>, edits: seq<LiveState>,
                                       current: seq<LiveState>, active: seq<bool>, k: nat)
    requires |current| == |active| && k <= |base| <= |current|
    requires forall i | 0 <= i < |base| :: Visible(current[i], active[i]) == Kept(base[i], edits)
    ensures Shown(current[..k], active[..k]) == Rewritten(base[..k], edits)
  {
    if k > 0 {
      ShownPrefix(base, edits, current, active, k - 1);
      assert current[..k][..k - 1] == current[..k - 1];
      assert active[..k][..k - 1] == active[..k - 1];
      assert base[..k][..k - 1] == base[..k - 1];
    }
  }

  lemma {:induction false} ShownActive(current: seq<LiveState>, active: seq<bool>, from: nat, k: nat)
    requires |current| == |active| && from <= k <= |current|
    requires forall i | from <= i < k :: active[i]
    ensures Shown(current[..k], active[..k]) == Shown(current[..from], active[..from]) + current[from..k]
  {
    if from < k {
      ShownActive(current, active, from, k - 1);
      assert current[..k][..k - 1] == current[..k - 1];
      assert active[..k][..k - 1] == active[..k - 1];
      SliceSnoc(current, from, k);
    }
  }

  lemma SliceSnoc<T>(s: seq<T>, from: nat, k: nat)
    requires from < k <= |s|
    ensures s[from..k] == s[from..k - 1] + [s[k - 1]]
  {
  }

  lemma ShownIsOverlay(base: seq<LiveState>, edits: seq<LiveState>,
                       current: seq<LiveState>, active: seq<bool>, index: map<Identity, int>)
    requires SlotsHold(base, edits, current, active, index)
    ensures Shown(current, active) == Overlay(base, edits)
  {
    ShownPrefix(base, edits, current, active, |base|);
    ShownActive(current, active, |base|, |current|);
    assert current[..|current|] == current && active[..|active|] == active && base[..|base|] == base;
  }

  method SlotIndex(base: seq<LiveState>) returns (index: map<Identity, int>)
    requires Distinct(base)
    ensures forall i | 0 <= i < |base| :: base[i].identity in index && index[base[i].identity] == i
    ensures forall id | id in index :: 0 <= index[id] < |base| && base[index[id]].identity == id
  {
    index := map[];
    for i := 0 to |base|
      invariant forall k | 0 <= k < i :: base[k].identity in index && index[base[k].identity] == k
      invariant forall id | id in index :: 0 <= index[id] < i && base[index[id]].identity == id
    {
      forall k | 0 <= k < i
        ensures base[k].identity != base[i].identity
      {
        assert IdentityOf(base[k]) != IdentityOf(base[i]);
      }
      index := index[base[i].identity := i];
    }
  }

  method ActiveFlags(current: seq<LiveState>) returns (active: seq<bool>)
    ensures |active| == |current| && forall i | 0 <= i < |active| :: active[i] == !current[i].value.Removed?
  {
    active := [];
    for i := 0 to |current|
      invariant |active| == i && forall k | 0 <= k < i :: active[k] == !current[k].value.Removed?
    {
      active := active + [!current[i].value.Removed?];
    }
  }

  method CollectActive(current: seq<LiveState>, active: seq<bool>) returns (out: seq<LiveState>)
    requires |current| == |active|
    ensures out == Shown(current, active)
  {
    out := [];
    for i := 0 to |current|
      invariant out == Shown(current[..i], active[..i])
    {
      assert current[..i + 1][..i] == current[..i] && active[..i + 1][..i] == active[..i];
      if active[i] {
        out := out + [current[i]];
      }
    }
    assert current[..|current|] == current && active[..|active|] == active;
  }

  lemma InitialSlots(base: seq<LiveState>, active: seq<bool>, index: map<Identity, int>)
    requires |active| == |base| && forall i | 0 <= i < |base| :: active[i] == !base[i].value.Removed?
    requires forall i | 0 <= i < |base| :: base[i].identity in index && index[base[i].identity] == i
    requires forall id | id in index :: 0 <= index[id] < |base| && base[index[id]].identity == id
    ensures SlotsHold(base, [], base, active, index)
  {
  }

  method ValidateChanges(changes: seq<LiveChange>) returns (ok: bool)
    ensures ok <==> ValidChanges(changes)
  {
    var seen: set<Identity> := {};
    for i := 0 to |changes|
      invariant seen == set k | 0 <= k < i :: changes[k].identity
      invariant forall k | 0 <= k < i :: ValidChange(changes[k])
      invariant forall j, k :: 0 <= j < k < i ==> ChangeIdentity(changes[j]) != ChangeIdentity(changes[k])
    {
      if changes[i].identity in seen {
        ghost var k :| 0 <= k < i && changes[k].identity == changes[i].identity;
        assert ChangeIdentity(changes[k]) == ChangeIdentity(changes[i]);
        return false;
      }
      seen := seen + {changes[i].identity};
      if !ValidChange(changes[i]) {
        assert changes[i] in changes;
        return false;
      }
    }
    ok := true;
  }

  /** The state list that `ApplyStateChanges` returns on valid input. */
  function ApplyChanges(states: seq<LiveState>, changes: seq<LiveChange>): seq<LiveState> {
    Overlay(Normal(states), EditsOf(changes))
  }

  method ApplyStateChanges(states: seq<LiveState>, changes: seq<LiveChange>) returns (r: Result<seq<LiveState>, ()>)
    ensures r.Ok? <==> ValidChanges(changes) && AllValid(states)
    ensures r.Ok? ==> r.value == ApplyChanges(states, changes)
  {
    var valid := ValidateChanges(changes);
    if !valid {
      return Err(());
    }
    var normalized := NormalizeLiveStates(states);
    if normalized.Err? {
      return Err(());
    }
    NormalMap(states);
    var out := EditSlots(normalized.value, changes);
    r := Ok(out);
  }

  method EditSlots(base: seq<LiveState>, changes: seq<LiveChange>) returns (out: seq<LiveState>)
    requires Distinct(base) && ValidChanges(changes)
    ensures out == Overlay(base, EditsOf(changes))
  {
    EditsOfValid(changes);
    ghost var edits := EditsOf(changes);
    var current := base;
    var index: map<Identity, int> := SlotIndex(current);
    var active := ActiveFlags(current);
    InitialSlots(base, active, index);
    for k := 0 to |changes|
      invariant SlotsHold(base, edits[..k], current, active, index)
    {
      current, active, index := EditSlot(base, changes, k, current, active, index);
    }
    assert edits[..|edits|] == edits;
    ShownIsOverlay(base, edits, current, active, index);
    out := CollectActive(current, active);
  }

  method EditSlot(ghost base: seq<LiveState>, changes: seq<LiveChange>, k: nat,
                  current: seq<LiveState>, active: seq<bool>, index: map<Identity, int>)
    returns (current': seq<LiveState>, active': seq<bool>, index': map<Identity, int>)
    requires k < |changes| && ValidChanges(changes) && Distinct(base)
    requires SlotsHold(base, EditsOf(changes)[..k], current, active, index)
    ensures SlotsHold(base, EditsOf(changes)[..k + 1], current', active', index')
  {
    current', active', index' := current, active, index;
    var change := changes[k];
    ghost var edits := NextEdit(changes, k);
    IndexedBase(base, edits, EditOf(change), current, active, index);
    if change.identity in index {
      EditBaseSlot(base, edits, EditOf(change), current, active, index);
      if change.kind == Remove {
        active' := active[index[change.identity] := false];
        return;
      }
      current' := current[index[change.identity] := LiveState(change.identity, change.value)];
      active' := active[index[change.identity] := true];
    } else {
      EditNewSlot(base, edits, EditOf(change), current, active, index);
      if change.kind == Remove {
        return;
      }
      index' := index[change.identity := |current|];
      current' := current + [LiveState(change.identity, change.value)];
      active' := active + [true];
    }
  }

  lemma NextEdit(changes: seq<LiveChange>, k: nat) returns (edits: seq<LiveState>)
    requires k < |changes| && ValidChanges(changes)
    ensures edits == EditsOf(changes)[..k]
    ensures EditsOf(changes)[..k + 1] == edits + [EditOf(changes[k])]
    ensures Distinct(edits + [EditOf(changes[k])]) && ValidChange(changes[k])
  {
    EditsOfValid(changes);
    edits := EditsOf(changes)[..k];
    DistinctTake(EditsOf(changes), k + 1);
    assert changes[k] in changes;
  }

  lemma DistinctTake(s: seq<LiveState>, k: nat)
    requires Distinct(s) && k <= |s|
    ensures Distinct(s[..k])
  {
    forall i, j | 0 <= i < j < k
      ensures IdentityOf(s[..k][i]) != IdentityOf(s[..k][j])
    {
      assert IdentityOf(s[i]) != IdentityOf(s[j]);
    }
  }

  /** Applying valid changes to a list denotes applying their edits to its map. */
  lemma ApplyChangesMap(states: seq<LiveState>, changes: seq<LiveChange>)
    requires AllValid(states) && ValidChanges(changes)
    ensures MapOf(ApplyChanges(states, changes)) == ApplyEdits(MapOf(states), EditsOf(changes))
    ensures AllValid(ApplyChanges(states, changes)) && AllPresent(ApplyChanges(states, changes))
    ensures Distinct(ApplyChanges(states, changes))
  {
    NormalMap(states);
    EditsOfValid(changes);
    OverlayMap(Normal(states), EditsOf(changes));
    OverlayShape(Normal(states), EditsOf(changes));
  }
}
