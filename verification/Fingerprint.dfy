/**
 * Snapshot fingerprints (FingerprintSnapshot and equalLiveStates, core/worktree/state.go).
 * A digest is modelled as the canonical sequence it is computed from, so equal
 * fingerprints are equal canonical sequences.
 */
module Fingerprint {
  import opened Wrappers
  import opened LastOccurrence
  import opened Live
  import opened Order
  import opened Diff

  datatype Fingerprint = NoFingerprint | Fingerprint(states: seq<LiveState>)

  function FingerprintOf(states: seq<LiveState>): Fingerprint {
    Fingerprint(Sort(StateLess, Normal(states)))
  }

  /** `f` is the fingerprint of the generation `m`; `FingerprintDetermined` shows it is the only one. */
  ghost predicate Identifies(f: Fingerprint, m: LiveMap) {
    && f.Fingerprint? && Distinct(f.states) && AllValid(f.states) && AllPresent(f.states)
    && Sorted(StateLess, f.states) && MapOf(f.states) == m
  }

  method FingerprintSnapshot(snapshot: LiveSnapshot) returns (r: Result<Fingerprint, ()>)
    ensures r.Ok? <==> ValidSnapshot(snapshot)
    ensures r.Ok? ==> r.value == FingerprintOf(snapshot.states)
    ensures r.Ok? && AllPresent(snapshot.states) ==> Identifies(r.value, MapOf(snapshot.states))
  {
    if !ValidSnapshot(snapshot) {
      return Err(());
    }
    var states := NormalizeLiveStates(snapshot.states);
    r := Ok(Fingerprint(Sort(StateLess, states.value)));
    if AllPresent(snapshot.states) {
      FingerprintIdentifies(snapshot.states);
    }
  }

  lemma DistinctMembers(s: seq<LiveState>)
    requires Distinct(s)
    ensures forall i, j :: 0 <= i < j < |s| ==> s[i] != s[j]
  {
    forall i, j | 0 <= i < j < |s|
      ensures s[i] != s[j]
    {
      assert IdentityOf(s[i]) != IdentityOf(s[j]);
    }
  }

  lemma DistinctFind(s: seq<LiveState>, x: LiveState)
    requires Distinct(s)
    ensures x in s <==> Find(s, x.identity) == Some(x.value)
  {
    FindSome(s, x.identity);
    if x in s {
      var i :| 0 <= i < |s| && s[i] == x;
      FindAt(s, i);
    }
  }

  lemma {:induction false} SortedDistinct(s: seq<LiveState>)
    requires Sorted(StateLess, s)
    ensures Distinct(s)
  {
    forall i, j | 0 <= i < j < |s|
      ensures IdentityOf(s[i]) != IdentityOf(s[j])
    {
      assert StateLess(s[i], s[j]);
      StringTrichotomy(s[i].identity.name, s[i].identity.name);
    }
  }

  /** Two distinct-identity lists with the same members denote the same map. */
  lemma SameMembersSameMap(a: seq<LiveState>, b: seq<LiveState>)
    requires Distinct(a) && Distinct(b)
    requires forall x :: x in a <==> x in b
    ensures MapOf(a) == MapOf(b)
  {
    forall id
      ensures Lookup(MapOf(a), id) == Lookup(MapOf(b), id)
    {
      MapOfLookup(a, id);
      MapOfLookup(b, id);
      FindSome(a, id);
      FindSome(b, id);
      if Find(a, id).Some? {
        DistinctFind(b, LiveState(id, Find(a, id).value));
      } else if Find(b, id).Some? {
        DistinctFind(a, LiveState(id, Find(b, id).value));
      }
    }
    ApplyPresent(a);
    ApplyPresent(b);
    MapsAgree(MapOf(a), MapOf(b));
  }

  /** Present lists with distinct identities and equal maps have the same members. */
  lemma SameMapSameMembers(a: seq<LiveState>, b: seq<LiveState>, x: LiveState)
    requires Distinct(a) && Distinct(b) && AllPresent(a) && AllPresent(b) && MapOf(a) == MapOf(b)
    ensures x in a ==> x in b
  {
    if x in a {
      DistinctFind(a, x);
      MapOfLookup(a, x.identity);
      MapOfLookup(b, x.identity);
      DistinctFind(b, x);
    }
  }

  lemma FingerprintIdentifies(states: seq<LiveState>)
    requires AllValid(states) && AllPresent(states)
    ensures Identifies(FingerprintOf(states), MapOf(states))
  {
    var normal := Normal(states);
    NormalMap(states);
    LastByMembers(IdentityOf, states);
    StateLessOrders(normal);
    DistinctMembers(normal);
    SortSorted(StateLess, normal, set s | s in normal);
    SameElements(Sort(StateLess, normal), normal);
    SortedDistinct(Sort(StateLess, normal));
    SameMembersSameMap(Sort(StateLess, normal), normal);
  }

  /** A generation has one fingerprint, whatever order its states were listed in. */
  lemma FingerprintDetermined(f: Fingerprint, g: Fingerprint, m: LiveMap)
    requires Identifies(f, m) && Identifies(g, m)
    ensures f == g
  {
    forall x
      ensures x in f.states <==> x in g.states
    {
      SameMapSameMembers(f.states, g.states, x);
      SameMapSameMembers(g.states, f.states, x);
    }
    StateLessOrders(f.states);
    SortedIsCanonical(StateLess, f.states, g.states, set s | s in f.states);
  }

  /** Fingerprints of present snapshots agree exactly when the snapshots agree as maps. */
  lemma FingerprintsDecideMaps(a: seq<LiveState>, b: seq<LiveState>)
    requires AllValid(a) && AllPresent(a) && AllValid(b) && AllPresent(b)
    ensures FingerprintOf(a) == FingerprintOf(b) <==> MapOf(a) == MapOf(b)
  {
    FingerprintIdentifies(a);
    FingerprintIdentifies(b);
    if MapOf(a) == MapOf(b) {
      FingerprintDetermined(FingerprintOf(a), FingerprintOf(b), MapOf(a));
    }
  }

  /** Valid, bounded and free of duplicate identities: what equalLiveStates demands of a side. */
  predicate Comparable(states: seq<LiveState>) {
    AllValid(states) && InBounds(states) && Distinct(states)
  }

  method EqualLiveStates(left: seq<LiveState>, right: seq<LiveState>) returns (equal: bool)
    ensures equal <==> Comparable(left) && Comparable(right) && MapOf(left) == MapOf(right)
  {
    UniqueIsNormal(IdentityOf, left);
    UniqueIsNormal(IdentityOf, right);
    var normalizedLeft := NormalizeLiveStates(left);
    if normalizedLeft.Err? || |normalizedLeft.value| != |left| {
      return false;
    }
    var normalizedRight := NormalizeLiveStates(right);
    if normalizedRight.Err? || |normalizedRight.value| != |right| {
      return false;
    }
    var changes := DiffSnapshot(LiveSnapshot(0, normalizedLeft.value), LiveSnapshot(0, normalizedRight.value));
    if changes.Ok? {
      ApplyValid(map[], left);
      ApplyValid(map[], right);
      DiffEmpty(MapOf(left), MapOf(right));
    }
    equal := changes.Ok? && changes.value == [];
  }
}
