/**
 * Shell-neutral live values (core/model/worktree.go): identities, values, the
 * validation every boundary applies, and "edits", the common reading of states,
 * changes and overlay entries as final values per identity.
 */
module Live {
  import opened Wrappers
  import opened LastOccurrence

  const MAX_SNAPSHOT_BYTES: nat := 2 * 1024 * 1024
  const MAX_SNAPSHOT_RECORDS: nat := 10_000
  const NUL: char := '\0'

  datatype LiveKind = Env | Alias | Function | Path | FPath | Switch | Unsupported(tag: string)

  datatype Identity = Identity(kind: LiveKind, name: string)

  /** `Malformed` stands for every combination of payload fields no kind accepts. */
  datatype LiveValue = Removed | Scalar(text: string) | List(items: seq<string>) | Flag(on: bool) | Malformed

  /** One observed final value; as an edit, `Removed` is a tombstone. */
  datatype LiveState = LiveState(identity: Identity, value: LiveValue)

  datatype LiveSnapshot = LiveSnapshot(byteSize: nat, states: seq<LiveState>)

  type LiveMap = map<Identity, LiveValue>

  function IdentityOf(state: LiveState): Identity { state.identity }

  function KindText(kind: LiveKind): string {
    match kind
    case Env => "env"
    case Alias => "alias"
    case Function => "function"
    case Path => "path"
    case FPath => "fpath"
    case Switch => "option"
    case Unsupported(tag) => tag
  }

  predicate Letter(c: char) { 'A' <= c <= 'Z' || 'a' <= c <= 'z' }

  predicate Digit(c: char) { '0' <= c <= '9' }

  predicate EnvName(name: string) {
    name != "" && (Letter(name[0]) || name[0] == '_') &&
    forall c | c in name :: Letter(c) || Digit(c) || c == '_'
  }

  predicate SymbolName(name: string) {
    name != "" && (Letter(name[0]) || Digit(name[0]) || name[0] == '_') &&
    forall c | c in name :: Letter(c) || Digit(c) || c in "_.-"
  }

  predicate ValidIdentity(identity: Identity) {
    match identity.kind
    case Env => EnvName(identity.name)
    case Alias => SymbolName(identity.name)
    case Function => SymbolName(identity.name)
    case Path => identity.name == "PATH"
    case FPath => identity.name == "FPATH"
    case Switch => EnvName(identity.name)
    case Unsupported(_) => false
  }

  predicate ValidValue(kind: LiveKind, value: LiveValue) {
    match value
    case Removed => true
    case Scalar(text) => (kind.Env? || kind.Alias? || kind.Function?) && NUL !in text
    case List(items) => (kind.Path? || kind.FPath?) && forall item | item in items :: NUL !in item
    case Flag(_) => kind.Switch?
    case Malformed => false
  }

  predicate ValidLiveState(state: LiveState) {
    ValidIdentity(state.identity) && ValidValue(state.identity.kind, state.value)
  }

  predicate AllValid(states: seq<LiveState>) {
    forall state | state in states :: ValidLiveState(state)
  }

  predicate AllPresent(states: seq<LiveState>) {
    forall state | state in states :: !state.value.Removed?
  }

  function ItemsBytes(items: seq<string>): nat {
    if items == [] then 0 else |items[0]| + 1 + ItemsBytes(items[1..])
  }

  function ValueBytes(value: LiveValue): nat {
    match value
    case Removed => 0
    case Scalar(text) => |text|
    case Flag(_) => 1
    case List(items) => ItemsBytes(items)
    case Malformed => 0
  }

  function StateBytes(states: seq<LiveState>): nat {
    if states == [] then 0
    else
      |KindText(states[0].identity.kind)| + |states[0].identity.name| + ValueBytes(states[0].value) +
      StateBytes(states[1..])
  }

  /** The size limits of one snapshot; validity of its records is separate. */
  predicate InBounds(states: seq<LiveState>) {
    |states| <= MAX_SNAPSHOT_RECORDS && StateBytes(states) <= MAX_SNAPSHOT_BYTES
  }

  predicate ValidSnapshot(snapshot: LiveSnapshot) {
    snapshot.byteSize <= MAX_SNAPSHOT_BYTES && AllValid(snapshot.states) && InBounds(snapshot.states)
  }

  predicate EqualValue(kind: LiveKind, left: LiveValue, right: LiveValue) {
    ValidValue(kind, left) && ValidValue(kind, right) && left == right
  }

  /** Final occurrences only, in the order of those occurrences. */
  function Normal(states: seq<LiveState>): seq<LiveState> { LastBy(IdentityOf, states) }

  predicate Distinct(states: seq<LiveState>) { Unique(IdentityOf, states) }

  function Identities(states: seq<LiveState>): set<Identity> { Keys(IdentityOf, states) }

  /**
   * Keeps one final occurrence per identity. The first pass records the last index
   * of every identity, the second keeps exactly the recorded ones.
   */
  method NormalizeLiveStates(states: seq<LiveState>) returns (r: Result<seq<LiveState>, ()>)
    ensures r.Ok? <==> AllValid(states)
    ensures r.Ok? ==> r.value == Normal(states)
  {
    var last: map<Identity, int> := map[];
    for index := 0 to |states|
      invariant forall i | 0 <= i < index :: ValidLiveState(states[i])
      invariant RecordsLast(IdentityOf, states, index, last)
    {
      if !ValidLiveState(states[index]) {
        return Err(());
      }
      RecordStep(IdentityOf, states, index, last);
      last := last[states[index].identity := index];
    }
    var out := KeepLast(IdentityOf, states, last);
    r := Ok(out);
  }

  // ---------------------------------------------------------------- edits

  /** The present value of an identity, `Removed` when it has none. */
  function Lookup(m: LiveMap, identity: Identity): LiveValue {
    if identity in m then m[identity] else Removed
  }

  ghost predicate PresentMap(m: LiveMap) {
    forall id | id in m :: !m[id].Removed?
  }

  ghost predicate ValidMap(m: LiveMap) {
    forall id | id in m :: !m[id].Removed? && ValidIdentity(id) && ValidValue(id.kind, m[id])
  }

  function Put(m: LiveMap, edit: LiveState): LiveMap {
    if edit.value.Removed? then m - {edit.identity} else m[edit.identity := edit.value]
  }

  function ApplyEdits(m: LiveMap, edits: seq<LiveState>): LiveMap {
    if edits == [] then m
    else Put(ApplyEdits(m, edits[..|edits| - 1]), edits[|edits| - 1])
  }

  /** The map of present values a state list denotes. */
  function MapOf(states: seq<LiveState>): LiveMap { ApplyEdits(map[], states) }

  /** The final edit of an identity, if there is one. */
  function Find(edits: seq<LiveState>, identity: Identity): Option<LiveValue> {
    if edits == [] then None
    else if edits[|edits| - 1].identity == identity then Some(edits[|edits| - 1].value)
    else Find(edits[..|edits| - 1], identity)
  }

  function Over(found: Option<LiveValue>, fallback: LiveValue): LiveValue {
    if found.Some? then found.value else fallback
  }

  lemma {:induction false} ApplyLookup(m: LiveMap, edits: seq<LiveState>, id: Identity)
    requires PresentMap(m)
    ensures PresentMap(ApplyEdits(m, edits))
    ensures Lookup(ApplyEdits(m, edits), id) == Over(Find(edits, id), Lookup(m, id))
  {
    if edits != [] {
      ApplyLookup(m, edits[..|edits| - 1], id);
    }
  }

  lemma MapsAgree(a: LiveMap, b: LiveMap)
    requires PresentMap(a) && PresentMap(b)
    requires forall id :: Lookup(a, id) == Lookup(b, id)
    ensures a == b
  {
    forall id
      ensures id in a <==> id in b
      ensures id in a && id in b ==> a[id] == b[id]
    {
      assert Lookup(a, id) == Lookup(b, id);
    }
  }

  lemma {:induction false} FindConcat(a: seq<LiveState>, b: seq<LiveState>, id: Identity)
    ensures Find(a + b, id) == if Find(b, id).Some? then Find(b, id) else Find(a, id)
  {
    if b == [] {
      assert a + b == a;
    } else {
      assert (a + b)[..|a + b| - 1] == a + b[..|b| - 1];
      FindConcat(a, b[..|b| - 1], id);
    }
  }

  lemma {:induction false} FindSome(edits: seq<LiveState>, id: Identity)
    ensures Find(edits, id).Some? <==> id in Identities(edits)
    ensures Find(edits, id).Some? ==> LiveState(id, Find(edits, id).value) in edits
  {
    if edits != [] {
      var n := |edits| - 1;
      FindSome(edits[..n], id);
      assert edits == edits[..n] + [edits[n]];
      KeysConcat(IdentityOf, edits[..n], [edits[n]]);
      assert Keys(IdentityOf, [edits[n]]) == {edits[n].identity} by {
        assert IdentityOf([edits[n]][0]) in Keys(IdentityOf, [edits[n]]);
      }
    }
  }

  lemma {:induction false} FindAt(edits: seq<LiveState>, at: nat)
    requires Distinct(edits) && at < |edits|
    ensures Find(edits, edits[at].identity) == Some(edits[at].value)
  {
    var n := |edits| - 1;
    if at < n {
      assert IdentityOf(edits[at]) != IdentityOf(edits[n]);
      assert Distinct(edits[..n]) by {
        forall i, j | 0 <= i < j < |edits[..n]|
          ensures IdentityOf(edits[..n][i]) != IdentityOf(edits[..n][j])
        {
          assert IdentityOf(edits[i]) != IdentityOf(edits[j]);
        }
      }
      FindAt(edits[..n], at);
    }
  }

  lemma MapOfLookup(states: seq<LiveState>, id: Identity)
    ensures PresentMap(MapOf(states))
    ensures Lookup(MapOf(states), id) == Over(Find(states, id), Removed)
  {
    ApplyLookup(map[], states, id);
  }

  lemma {:induction false} NormalFind(states: seq<LiveState>, id: Identity)
    ensures Find(Normal(states), id) == Find(states, id)
  {
    if states != [] {
      var tail := states[1..];
      NormalFind(tail, id);
      assert states == [states[0]] + tail;
      FindConcat([states[0]], tail, id);
      FindConcat([states[0]], Normal(tail), id);
      FindSome(tail, id);
    }
  }

  /** Dropping shadowed occurrences does not change the map a state list denotes. */
  lemma NormalMap(states: seq<LiveState>)
    ensures MapOf(Normal(states)) == MapOf(states)
    ensures Distinct(Normal(states))
    ensures Identities(Normal(states)) == Identities(states)
    ensures AllValid(states) ==> AllValid(Normal(states))
  {
    LastByMembers(IdentityOf, states);
    LastByUnique(IdentityOf, states);
    LastByKeys(IdentityOf, states);
    forall id
      ensures Lookup(MapOf(Normal(states)), id) == Lookup(MapOf(states), id)
    {
      MapOfLookup(Normal(states), id);
      MapOfLookup(states, id);
      NormalFind(states, id);
    }
    ApplyPresent(states);
    ApplyPresent(Normal(states));
    MapsAgree(MapOf(Normal(states)), MapOf(states));
  }

  lemma ApplyPresent(states: seq<LiveState>)
    ensures PresentMap(MapOf(states))
  {
    MapOfLookup(states, Identity(Env, ""));
  }

  lemma {:induction false} ApplyValid(m: LiveMap, edits: seq<LiveState>)
    requires ValidMap(m) && AllValid(edits)
    ensures ValidMap(ApplyEdits(m, edits))
  {
    if edits != [] {
      ApplyValid(m, edits[..|edits| - 1]);
      assert edits[|edits| - 1] in edits;
    }
  }
}
