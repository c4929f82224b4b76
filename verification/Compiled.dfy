/**
 * From a built manifest to live states (liveStatesFromManifest and BuildEffective of
 * core/activate/builder.go): the committed base that a worktree commit compares with.
 */
module Compiled {
  import opened Wrappers
  import opened LastOccurrence
  import opened Live
  import opened Diff
  import opened Projection
  import opened State
  import Build
  import Lists
  import Steps

  function Named(id: Identity): Identity { id }

  // ---------------------------------------------------------------- the values of a manifest

  function EnvValues(env: seq<Build.Scalar>): LiveMap {
    if env == [] then map[]
    else
      var n := |env| - 1;
      EnvValues(env[..n])[Identity(Env, env[n].name) := Scalar(env[n].applied)]
  }

  function AliasValues(aliases: map<string, (string, bool)>): LiveMap {
    map name | name in aliases :: Identity(Alias, name) := Scalar(aliases[name].0)
  }

  function FunctionValues(names: seq<string>, bodies: map<string, string>): LiveMap {
    if names == [] then map[]
    else
      var n := |names| - 1;
      var before := FunctionValues(names[..n], bodies);
      if names[n] in bodies then before[Identity(Function, names[n]) := Scalar(bodies[names[n]])] else before
  }

  function ListIdentity(name: string): Identity { Identity(if name == "FPATH" then FPath else Path, name) }

  function ListValues(lists: seq<Build.ListDelta>): LiveMap {
    if lists == [] then map[]
    else
      var n := |lists| - 1;
      ListValues(lists[..n])[ListIdentity(lists[n].name) := List(lists[n].additions)]
  }

  function OptionValues(options: seq<Build.OptionSet>): LiveMap {
    if options == [] then map[]
    else
      var n := |options| - 1;
      OptionValues(options[..n])[Identity(Switch, options[n].name) := Flag(options[n].enabled)]
  }

  function Values(m: Build.Manifest): LiveMap {
    EnvValues(m.env) + AliasValues(m.aliases) + FunctionValues(m.functions, m.bodies) + ListValues(m.lists) +
    OptionValues(m.options)
  }

  // ---------------------------------------------------------------- the order of a manifest

  function NamedIdentities(kind: LiveKind, names: seq<string>): (ids: seq<Identity>)
    ensures |ids| == |names| && forall i | 0 <= i < |ids| :: ids[i] == Identity(kind, names[i])
  {
    seq(|names|, i requires 0 <= i < |names| => Identity(kind, names[i]))
  }

  function EntryIdentities(e: Build.Entry): seq<Identity> {
    if !Build.Active(e) || e.secret then []
    else
      match e.kind
      case AssignmentEntry =>
        if |e.names| != 1 then []
        else if e.category == Build.PathCategory then
          var name := Lists.CanonicalList(e.names[0]);
          if name == "PATH" then [Identity(Path, name)] else if name == "FPATH" then [Identity(FPath, name)] else []
        else if e.category == Build.EnvironmentCategory || e.category == Build.SecretsCategory then
          [Identity(Env, e.names[0])]
        else []
      case AliasEntry => if |e.names| == 1 then [Identity(Alias, e.names[0])] else []
      case FunctionEntry => NamedIdentities(Function, e.names)
      case CommandEntry =>
        if e.category == Build.OptionsCategory && (e.command == "setopt" || e.command == "unsetopt") then
          NamedIdentities(Switch, e.names)
        else []
      case OtherEntry => []
  }

  function Valued(values: LiveMap, ids: seq<Identity>): seq<Identity> {
    if ids == [] then []
    else
      var n := |ids| - 1;
      Valued(values, ids[..n]) + if ids[n] in values then [ids[n]] else []
  }

  /** The identities with a value that the entries mention, every time they do. */
  function Mentioned(values: LiveMap, entries: seq<Build.Entry>): seq<Identity> {
    if entries == [] then []
    else
      var n := |entries| - 1;
      Mentioned(values, entries[..n]) + Valued(values, EntryIdentities(entries[n]))
  }

  /** Appends the identities that have a value and are not there yet. */
  function Appended(values: LiveMap, ids: seq<Identity>): seq<Identity> {
    if ids == [] then []
    else
      var n := |ids| - 1;
      var before := Appended(values, ids[..n]);
      if ids[n] in values && ids[n] !in before then before + [ids[n]] else before
  }

  function EnvNames(env: seq<Build.Scalar>): (names: seq<string>)
    ensures |names| == |env| && forall i | 0 <= i < |names| :: names[i] == env[i].name
  {
    seq(|env|, i requires 0 <= i < |env| => env[i].name)
  }

  function ListIdentities(lists: seq<Build.ListDelta>): (ids: seq<Identity>)
    ensures |ids| == |lists| && forall i | 0 <= i < |ids| :: ids[i] == ListIdentity(lists[i].name)
  {
    seq(|lists|, i requires 0 <= i < |lists| => ListIdentity(lists[i].name))
  }

  function OptionNames(options: seq<Build.OptionSet>): (names: seq<string>)
    ensures |names| == |options| && forall i | 0 <= i < |names| :: names[i] == options[i].name
  {
    seq(|options|, i requires 0 <= i < |options| => options[i].name)
  }

  /** The identities of a manifest apart from its aliases. */
  function Rest(m: Build.Manifest): seq<Identity> {
    NamedIdentities(Env, EnvNames(m.env)) + ListIdentities(m.lists) + NamedIdentities(Function, m.functions) +
    NamedIdentities(Switch, OptionNames(m.options))
  }

  function Listed(m: Build.Manifest, entries: seq<Build.Entry>): seq<Identity> {
    Appended(Values(m), LastBy(Named, Mentioned(Values(m), entries)) + Rest(m))
  }

  function StatesOf(values: LiveMap, ids: seq<Identity>): (states: seq<LiveState>)
    requires forall id | id in ids :: id in values
    ensures |states| == |ids| && forall i | 0 <= i < |states| :: states[i] == LiveState(ids[i], values[ids[i]])
  {
    seq(|ids|, i requires 0 <= i < |ids| => LiveState(ids[i], values[ids[i]]))
  }

  function LiveStates(m: Build.Manifest, entries: seq<Build.Entry>): seq<LiveState> {
    AppendedFacts(Values(m), LastBy(Named, Mentioned(Values(m), entries)) + Rest(m));
    StatesOf(Values(m), Listed(m, entries))
  }

  lemma {:induction false} AppendedFacts(values: LiveMap, ids: seq<Identity>)
    ensures forall id :: id in Appended(values, ids) <==> id in ids && id in values
    ensures forall i, j :: 0 <= i < j < |Appended(values, ids)| ==> Appended(values, ids)[i] != Appended(values, ids)[j]
  {
    if ids != [] {
      AppendedFacts(values, ids[..|ids| - 1]);
    }
  }

  // ---------------------------------------------------------------- the loops

  lemma PutOver(a: LiveMap, b: LiveMap, id: Identity, value: LiveValue)
    ensures (a + b)[id := value] == a + b[id := value]
  {
  }

  method ManifestValues(m: Build.Manifest) returns (values: LiveMap)
    ensures values == Values(m)
  {
    hide EnvValues, AliasValues, FunctionValues, ListValues, OptionValues;
    values := EnvironmentValues(m.env);
    values := AddAliases(values, m.aliases);
    values := AddFunctions(values, m.functions, m.bodies);
    values := AddListsAndOptions(values, m);
  }

  method AddFunctions(before: LiveMap, names: seq<string>, bodies: map<string, string>) returns (values: LiveMap)
    ensures values == before + FunctionValues(names, bodies)
  {
    values := before;
    assert before + FunctionValues(names[..0], bodies) == before;
    for i := 0 to |names|
      invariant values == before + FunctionValues(names[..i], bodies)
    {
      assert names[..i + 1][..i] == names[..i];
      if names[i] in bodies {
        PutOver(before, FunctionValues(names[..i], bodies), Identity(Function, names[i]), Scalar(bodies[names[i]]));
        values := values[Identity(Function, names[i]) := Scalar(bodies[names[i]])];
      }
    }
    assert names[..|names|] == names;
  }

  method EnvironmentValues(env: seq<Build.Scalar>) returns (values: LiveMap)
    ensures values == EnvValues(env)
  {
    values := map[];
    for i := 0 to |env|
      invariant values == EnvValues(env[..i])
    {
      assert env[..i + 1][..i] == env[..i];
      values := values[Identity(Env, env[i].name) := Scalar(env[i].applied)];
    }
    assert env[..|env|] == env;
  }

  /** The values of some of the aliases. */
  ghost function SomeAliases(aliases: map<string, (string, bool)>, names: set<string>): LiveMap {
    map name | name in aliases && name in names :: Identity(Alias, name) := Scalar(aliases[name].0)
  }

  lemma OneMoreAlias(aliases: map<string, (string, bool)>, names: set<string>, name: string)
    requires name in aliases
    ensures SomeAliases(aliases, names + {name}) ==
            SomeAliases(aliases, names)[Identity(Alias, name) := Scalar(aliases[name].0)]
  {
    var more := SomeAliases(aliases, names + {name});
    var put := SomeAliases(aliases, names)[Identity(Alias, name) := Scalar(aliases[name].0)];
    forall id
      ensures id in more <==> id in put
    {
    }
  }

  lemma AllAliases(aliases: map<string, (string, bool)>)
    ensures SomeAliases(aliases, aliases.Keys) == AliasValues(aliases) && SomeAliases(aliases, {}) == map[]
  {
  }

  method AddAliases(before: LiveMap, aliases: map<string, (string, bool)>) returns (values: LiveMap)
    ensures values == before + AliasValues(aliases)
  {
    AllAliases(aliases);
    hide SomeAliases, AliasValues;
    values := before;
    var remaining := aliases.Keys;
    ghost var done: set<string> := {};
    assert before + map[] == before;
    while remaining != {}
      invariant remaining + done == aliases.Keys
      invariant values == before + SomeAliases(aliases, done)
      decreases |remaining|
    {
      var name :| name in remaining;
      OneMoreAlias(aliases, done, name);
      PutOver(before, SomeAliases(aliases, done), Identity(Alias, name), Scalar(aliases[name].0));
      values := values[Identity(Alias, name) := Scalar(aliases[name].0)];
      remaining, done := remaining - {name}, done + {name};
    }
    assert done == aliases.Keys;
  }

  method AddListsAndOptions(before: LiveMap, m: Build.Manifest) returns (values: LiveMap)
    ensures values == before + ListValues(m.lists) + OptionValues(m.options)
  {
    values := before;
    assert before + ListValues(m.lists[..0]) == before;
    for i := 0 to |m.lists|
      invariant values == before + ListValues(m.lists[..i])
    {
      assert m.lists[..i + 1][..i] == m.lists[..i];
      PutOver(before, ListValues(m.lists[..i]), ListIdentity(m.lists[i].name), List(m.lists[i].additions));
      values := values[ListIdentity(m.lists[i].name) := List(m.lists[i].additions)];
    }
    assert m.lists[..|m.lists|] == m.lists;
    ghost var lists := values;
    assert lists + OptionValues(m.options[..0]) == lists;
    for i := 0 to |m.options|
      invariant values == lists + OptionValues(m.options[..i])
    {
      assert m.options[..i + 1][..i] == m.options[..i];
      PutOver(lists, OptionValues(m.options[..i]), Identity(Switch, m.options[i].name), Flag(m.options[i].enabled));
      values := values[Identity(Switch, m.options[i].name) := Flag(m.options[i].enabled)];
    }
    assert m.options[..|m.options|] == m.options;
  }

  lemma NothingLast()
    ensures LastBy(Named, []) == []
  {
  }

  method SourceOrder(values: LiveMap, entries: seq<Build.Entry>) returns (order: seq<Identity>)
    ensures order == LastBy(Named, Mentioned(values, entries))
  {
    hide LastBy, EntryIdentities, Valued;
    var index: map<Identity, int> := map[];
    order := [];
    NothingLast();
    for i := 0 to |entries|
      invariant order == LastBy(Named, Mentioned(values, entries[..i])) && Build.Positions(Named, order, index)
    {
      assert entries[..i + 1][..i] == entries[..i];
      order, index := MoveIdentities(values, Mentioned(values, entries[..i]), EntryIdentities(entries[i]), order,
                                     index);
    }
    assert entries[..|entries|] == entries;
  }

  method MoveIdentities(values: LiveMap, ghost before: seq<Identity>, ids: seq<Identity>, order: seq<Identity>,
                        index: map<Identity, int>)
    returns (order': seq<Identity>, index': map<Identity, int>)
    requires order == LastBy(Named, before) && Build.Positions(Named, order, index)
    ensures order' == LastBy(Named, before + Valued(values, ids)) && Build.Positions(Named, order', index')
  {
    hide LastBy, Build.Positions, Without;
    order', index' := order, index;
    assert before + Valued(values, ids[..0]) == before;
    for i := 0 to |ids|
      invariant order' == LastBy(Named, before + Valued(values, ids[..i])) && Build.Positions(Named, order', index')
    {
      assert ids[..i + 1][..i] == ids[..i];
      if ids[i] in values {
        Assoc(before, Valued(values, ids[..i]), [ids[i]]);
        LastBySnoc(Named, before + Valued(values, ids[..i]), ids[i]);
        order', index' := Build.MoveToEnd(Named, order', index', ids[i]);
      } else {
        assert Valued(values, ids[..i]) + [] == Valued(values, ids[..i]);
      }
    }
    assert ids[..|ids|] == ids;
  }

  method LiveStatesFromManifest(m: Build.Manifest, entries: seq<Build.Entry>) returns (states: seq<LiveState>)
    ensures states == LiveStates(m, entries)
  {
    var values := ManifestValues(m);
    var order := SourceOrder(values, entries);
    var ids := order + Rest(m);
    hide Rest, LastBy, Mentioned, Values;
    states := [];
    var seen: set<Identity> := {};
    ghost var appended: seq<Identity> := [];
    for i := 0 to |ids|
      invariant appended == Appended(values, ids[..i]) && forall id | id in appended :: id in values
      invariant states == StatesOf(values, appended) && forall id :: id in seen <==> id in appended
    {
      assert ids[..i + 1][..i] == ids[..i];
      if ids[i] in values && ids[i] !in seen {
        appended := appended + [ids[i]];
        states := states + [LiveState(ids[i], values[ids[i]])];
        seen := seen + {ids[i]};
      }
    }
    assert ids[..|ids|] == ids;
  }

  // ---------------------------------------------------------------- what the states are

  lemma {:induction false} EnvListed(env: seq<Build.Scalar>, id: Identity)
    requires id in EnvValues(env)
    ensures !EnvValues(env)[id].Removed? && id in NamedIdentities(Env, EnvNames(env))
  {
    var n := |env| - 1;
    if id == Identity(Env, env[n].name) {
      assert NamedIdentities(Env, EnvNames(env))[n] == id;
    } else {
      EnvListed(env[..n], id);
      var i :| 0 <= i < n && NamedIdentities(Env, EnvNames(env[..n]))[i] == id;
      assert NamedIdentities(Env, EnvNames(env))[i] == id;
    }
  }

  lemma {:induction false} FunctionListed(names: seq<string>, bodies: map<string, string>, id: Identity)
    requires id in FunctionValues(names, bodies)
    ensures !FunctionValues(names, bodies)[id].Removed? && id in NamedIdentities(Function, names)
  {
    var n := |names| - 1;
    if id == Identity(Function, names[n]) {
      assert NamedIdentities(Function, names)[n] == id;
      if names[n] !in bodies {
        FunctionListed(names[..n], bodies, id);
      }
    } else {
      FunctionListed(names[..n], bodies, id);
      var i :| 0 <= i < n && NamedIdentities(Function, names[..n])[i] == id;
      assert NamedIdentities(Function, names)[i] == id;
    }
  }

  lemma {:induction false} ListListed(lists: seq<Build.ListDelta>, id: Identity)
    requires id in ListValues(lists)
    ensures !ListValues(lists)[id].Removed? && id in ListIdentities(lists)
  {
    var n := |lists| - 1;
    if id == ListIdentity(lists[n].name) {
      assert ListIdentities(lists)[n] == id;
    } else {
      ListListed(lists[..n], id);
      var i :| 0 <= i < n && ListIdentities(lists[..n])[i] == id;
      assert ListIdentities(lists)[i] == id;
    }
  }

  lemma {:induction false} OptionListed(options: seq<Build.OptionSet>, id: Identity)
    requires id in OptionValues(options)
    ensures !OptionValues(options)[id].Removed? && id in NamedIdentities(Switch, OptionNames(options))
  {
    var n := |options| - 1;
    if id == Identity(Switch, options[n].name) {
      assert NamedIdentities(Switch, OptionNames(options))[n] == id;
    } else {
      OptionListed(options[..n], id);
      var i :| 0 <= i < n && NamedIdentities(Switch, OptionNames(options[..n]))[i] == id;
      assert NamedIdentities(Switch, OptionNames(options))[i] == id;
    }
  }

  /** Every value belongs to an alias or to one of the identities that are listed in any case. */
  lemma ValueListed(m: Build.Manifest, id: Identity)
    requires id in Values(m)
    ensures !Values(m)[id].Removed? && (id in Rest(m) || (id.kind == Alias && id.name in m.aliases))
  {
    if id in EnvValues(m.env) {
      EnvListed(m.env, id);
    }
    if id in FunctionValues(m.functions, m.bodies) {
      FunctionListed(m.functions, m.bodies, id);
    }
    if id in ListValues(m.lists) {
      ListListed(m.lists, id);
    }
    if id in OptionValues(m.options) {
      OptionListed(m.options, id);
    }
    hide EnvValues, FunctionValues, ListValues, OptionValues, NamedIdentities, ListIdentities;
  }

  lemma {:induction false} ValuedFinds(values: LiveMap, ids: seq<Identity>, id: Identity)
    ensures id in Valued(values, ids) <==> id in ids && id in values
  {
    if ids != [] {
      ValuedFinds(values, ids[..|ids| - 1], id);
    }
  }

  /** Every alias of the manifest comes from some entry that does not hold a secret reference. */
  predicate AliasesMentioned(m: Build.Manifest, entries: seq<Build.Entry>) {
    forall name | name in m.aliases :: exists e | e in entries :: Identity(Alias, name) in EntryIdentities(e)
  }

  lemma {:induction false} MentionedFinds(values: LiveMap, entries: seq<Build.Entry>, id: Identity)
    ensures id in Mentioned(values, entries) <==>
              id in values && exists e | e in entries :: id in EntryIdentities(e)
  {
    if entries != [] {
      var n := |entries| - 1;
      MentionedFinds(values, entries[..n], id);
      ValuedFinds(values, EntryIdentities(entries[n]), id);
      assert entries == entries[..n] + [entries[n]];
      hide EntryIdentities;
    }
  }

  lemma LastByKeeps(ids: seq<Identity>, id: Identity)
    requires id in ids
    ensures id in LastBy(Named, ids)
  {
    LastByKeys(Named, ids);
    var i :| 0 <= i < |ids| && ids[i] == id;
    assert Named(ids[i]) in Keys(Named, ids);
    var j :| 0 <= j < |LastBy(Named, ids)| && Named(LastBy(Named, ids)[j]) == id;
  }

  lemma RestHasNoAliases(m: Build.Manifest, name: string)
    ensures Identity(Alias, name) !in Rest(m)
  {
  }

  /** What has a value is listed, an alias only if some entry mentions it. */
  lemma ListedIs(m: Build.Manifest, entries: seq<Build.Entry>, id: Identity)
    ensures id in Listed(m, entries) <==>
              id in Values(m) && (id.kind == Alias ==> exists e | e in entries :: id in EntryIdentities(e))
  {
    var mentioned := Mentioned(Values(m), entries);
    AppendedFacts(Values(m), LastBy(Named, mentioned) + Rest(m));
    MentionedFinds(Values(m), entries, id);
    LastByMembers(Named, mentioned);
    if id in mentioned {
      LastByKeeps(mentioned, id);
    }
    if id in Values(m) {
      ValueListed(m, id);
    }
    RestHasNoAliases(m, id.name);
    hide Values, Rest, Mentioned, LastBy, Appended, EntryIdentities;
  }

  /** The live states of any manifest are distinct and present, so only invalid values are refused. */
  lemma LiveStatesFacts(m: Build.Manifest, entries: seq<Build.Entry>)
    ensures Distinct(LiveStates(m, entries)) && AllPresent(LiveStates(m, entries))
    ensures WellFormed(LiveStates(m, entries)) <==> AllValid(LiveStates(m, entries))
    ensures Normal(LiveStates(m, entries)) == LiveStates(m, entries)
    ensures PresentOnly(LiveStates(m, entries)) == LiveStates(m, entries)
  {
    var values, ids := Values(m), Listed(m, entries);
    AppendedFacts(values, LastBy(Named, Mentioned(values, entries)) + Rest(m));
    var states := LiveStates(m, entries);
    forall s | s in states
      ensures !s.value.Removed?
    {
      ValueListed(m, s.identity);
    }
    hide Values, Listed;
    forall i, j | 0 <= i < j < |states|
      ensures IdentityOf(states[i]) != IdentityOf(states[j])
    {
      assert ids[i] != ids[j];
    }
    UniqueIsNormal(IdentityOf, states);
    PresentKeepsAll(states);
  }

  lemma {:induction false} PresentKeepsAll(states: seq<LiveState>)
    requires AllPresent(states)
    ensures PresentOnly(states) == states
  {
    if states != [] {
      var n := |states| - 1;
      PresentKeepsAll(states[..n]);
      assert states == states[..n] + [states[n]];
    }
  }

  lemma StatesLookup(values: LiveMap, ids: seq<Identity>, id: Identity)
    requires forall x | x in ids :: x in values
    requires Distinct(StatesOf(values, ids))
    ensures Lookup(MapOf(StatesOf(values, ids)), id) == if id in ids then values[id] else Removed
  {
    var states := StatesOf(values, ids);
    MapOfLookup(states, id);
    FindSome(states, id);
    hide Distinct, MapOf;
    if Find(states, id).Some? {
      var i :| 0 <= i < |states| && states[i] == LiveState(id, Find(states, id).value);
      assert ids[i] in ids;
    }
    if id in ids {
      var i :| 0 <= i < |ids| && ids[i] == id;
      FindAt(states, i);
    }
  }

  lemma LiveStatesIs(m: Build.Manifest, entries: seq<Build.Entry>)
    ensures forall x | x in Listed(m, entries) :: x in Values(m)
    ensures LiveStates(m, entries) == StatesOf(Values(m), Listed(m, entries))
  {
    AppendedFacts(Values(m), LastBy(Named, Mentioned(Values(m), entries)) + Rest(m));
    hide Values, Rest, LastBy, Mentioned;
  }

  lemma ListedValue(m: Build.Manifest, entries: seq<Build.Entry>, id: Identity)
    ensures forall x | x in Listed(m, entries) :: x in Values(m)
    ensures Lookup(MapOf(LiveStates(m, entries)), id) == if id in Listed(m, entries) then Values(m)[id] else Removed
  {
    LiveStatesIs(m, entries);
    LiveStatesFacts(m, entries);
    hide *;
    StatesLookup(Values(m), Listed(m, entries), id);
  }

  lemma ValuesPresent(m: Build.Manifest)
    ensures PresentMap(Values(m))
  {
    forall id | id in Values(m)
      ensures !Values(m)[id].Removed?
    {
      ValueListed(m, id);
    }
  }

  /**
   * As a map, the live states of a manifest are its values exactly if every alias comes from some
   * entry without a secret reference; otherwise that alias is missing.
   */
  lemma LiveStatesMean(m: Build.Manifest, entries: seq<Build.Entry>)
    ensures MapOf(LiveStates(m, entries)) == Values(m) <==> AliasesMentioned(m, entries)
  {
    hide LiveStates, Values, Listed, MapOf, EntryIdentities;
    if AliasesMentioned(m, entries) {
      forall id
        ensures Lookup(MapOf(LiveStates(m, entries)), id) == Lookup(Values(m), id)
      {
        ListedIs(m, entries, id);
        ListedValue(m, entries, id);
        if id in Values(m) {
          ValueListed(m, id);
          RestHasNoAliases(m, id.name);
        }
      }
      ValuesPresent(m);
      MapOfLookup(LiveStates(m, entries), Identity(Env, ""));
      MapsAgree(MapOf(LiveStates(m, entries)), Values(m));
    } else {
      var name :| name in m.aliases && !exists e | e in entries :: Identity(Alias, name) in EntryIdentities(e);
      AliasMissing(m, entries, name);
    }
  }

  lemma AliasMissing(m: Build.Manifest, entries: seq<Build.Entry>, name: string)
    requires name in m.aliases && !exists e | e in entries :: Identity(Alias, name) in EntryIdentities(e)
    ensures MapOf(LiveStates(m, entries)) != Values(m)
  {
    var id := Identity(Alias, name);
    assert id in Values(m);
    ValuesPresent(m);
    hide LiveStates, Values, Listed, MapOf, EntryIdentities;
    ListedIs(m, entries, id);
    ListedValue(m, entries, id);
  }

  predicate NoSecretAliases(entries: seq<Build.Entry>) {
    forall e | e in entries && e.kind == Build.AliasEntry :: !e.secret
  }

  lemma {:induction false} AliasHasEntry(entries: seq<Build.Entry>, name: string)
    requires name in Build.Aliases(entries) && NoSecretAliases(entries)
    ensures exists e | e in entries :: Identity(Alias, name) in EntryIdentities(e)
  {
    var n := |entries| - 1;
    assert entries[n] in entries;
    if name in Build.AliasOf(entries[n]) {
      assert EntryIdentities(entries[n]) == [Identity(Alias, name)];
    } else {
      AliasHasEntry(entries[..n], name);
    }
  }

  /** In what the store and the registry admit, no alias holds a secret reference, so none is missing. */
  lemma SecretFreeAliases(grammar: Lists.Grammar, entries: seq<Build.Entry>, m: Build.Manifest)
    requires Build.Built(grammar, entries, m) && NoSecretAliases(entries)
    ensures AliasesMentioned(m, entries)
  {
    hide EntryIdentities, Build.Aliases, NoSecretAliases;
    forall name | name in m.aliases
      ensures exists e | e in entries :: Identity(Alias, name) in EntryIdentities(e)
    {
      AliasHasEntry(entries, name);
    }
  }

  /** An alias `l` whose only entry holds a secret reference. */
  const SECRET_ALIAS: Build.Entry :=
    Build.Entry(Build.AliasEntry, Build.OtherCategory, "", ["l"], "ls", false, false, true, true, true,
                Build.LegacyMode, None, None, None)

  const SECRET_MANIFEST: Build.Manifest := Build.Manifest([], [], map["l" := ("ls", false)], [], map[], [])

  /** The builder accepts it and yet no live state comes of it. */
  lemma SecretAliasIsMissing(grammar: Lists.Grammar)
    ensures Build.Built(grammar, [SECRET_ALIAS], SECRET_MANIFEST)
    ensures Values(SECRET_MANIFEST) == map[Identity(Alias, "l") := Scalar("ls")]
    ensures LiveStates(SECRET_MANIFEST, [SECRET_ALIAS]) == []
  {
    SecretAliasBuilt(grammar);
    SecretAliasValues();
    hide Build.Built, Values;
    var entries := [SECRET_ALIAS];
    assert entries[..0] == [];
    assert Mentioned(Values(SECRET_MANIFEST), []) == [];
    assert Mentioned(Values(SECRET_MANIFEST), entries) == [];
  }

  lemma SecretAliasBuilt(grammar: Lists.Grammar)
    ensures Build.Built(grammar, [SECRET_ALIAS], SECRET_MANIFEST)
  {
    assert [SECRET_ALIAS][..0] == [];
    assert Build.Scalars([]) == [] && Build.Assignments([]) == [] && Build.Aliases([]) == map[];
    assert Build.FunctionNames([]) == [] && Build.Bodies([]) == map[] && Build.OptionSets([]) == [];
    assert Build.AliasOf(SECRET_ALIAS) == map["l" := ("ls", false)];
    assert Build.BodiesOf(SECRET_ALIAS, []) == map[];
  }

  lemma SecretAliasValues()
    ensures Values(SECRET_MANIFEST) == map[Identity(Alias, "l") := Scalar("ls")]
  {
    NothingValued();
    OneAlias("l", "ls", false);
    hide EnvValues, FunctionValues, ListValues, OptionValues, AliasValues;
    assert SECRET_MANIFEST.aliases == map["l" := ("ls", false)];
  }

  lemma NothingValued()
    ensures EnvValues([]) == FunctionValues([], map[]) == ListValues([]) == OptionValues([]) == map[]
  {
  }

  lemma OneAlias(name: string, text: string, dynamic: bool)
    ensures AliasValues(map[name := (text, dynamic)]) == map[Identity(Alias, name) := Scalar(text)]
  {
    var aliases := map[name := (text, dynamic)];
    AllAliases(aliases);
    OneMoreAlias(aliases, {}, name);
    hide SomeAliases, AliasValues;
    assert aliases.Keys == {} + {name};
  }

  // ---------------------------------------------------------------- effective worktrees

  /** Builds the profile, reads its live states and projects a normalized overlay on them. */
  method BuildEffective(grammar: Lists.Grammar, entries: seq<Build.Entry>, overlay: seq<OverlayEntry>)
    returns (r: Result<Projection, ()>, ghost m: Build.Manifest)
    ensures Build.Built(grammar, entries, m)
    ensures r.Ok? <==> AllValid(LiveStates(m, entries)) && ValidOverlay(overlay)
    ensures r.Ok? ==> r.value.states == Overlay(LiveStates(m, entries), EntryEdits(NormalOverlay(overlay)))
    ensures r.Ok? ==> r.value.tombstones == Tombstones(NormalOverlay(overlay))
    ensures r.Ok? && NoSecretAliases(entries) ==>
              MapOf(r.value.states) == ApplyEdits(Values(m), EntryEdits(NormalOverlay(overlay)))
  {
    var manifest := Build.Build(grammar, entries);
    m := manifest;
    var live := LiveStatesFromManifest(manifest, entries);
    LiveStatesFacts(m, entries);
    hide Build.Built, LiveStates, Values, Tombstones, NoSecretAliases, AliasesMentioned;
    var states := NormalizeLiveStates(live);
    if states.Err? {
      return Err(()), m;
    }
    var normalized := NormalizeOverlay(overlay);
    if normalized.Err? {
      return Err(()), m;
    }
    NormalOverlayEdits(overlay);
    var projection := EffectiveProjection(states.value, normalized.value);
    OverlayMap(live, EntryEdits(NormalOverlay(overlay)));
    LiveStatesMean(m, entries);
    if NoSecretAliases(entries) {
      SecretFreeAliases(grammar, entries, m);
    }
    r := Ok(projection);
  }

  /** The final states a commit rebuilds from its source are the base of the source with the changes applied. */
  lemma RebuiltMeans(source: Source, changes: seq<LiveChange>)
    requires AllValid(source.base) && ValidChanges(changes)
    ensures Distinct(Steps.EffectiveStates(source, changes)) && AllValid(Steps.EffectiveStates(source, changes))
    ensures MapOf(Steps.EffectiveStates(source, changes)) == ApplyEdits(MapOf(source.base), EditsOf(changes))
  {
    var base := PresentOnly(Normal(source.base));
    NormalMap(source.base);
    PresentDistinct(Normal(source.base));
    PresentMapOf(Normal(source.base));
    PresentMembers(Normal(source.base));
    EditsOfValid(changes);
    assert AllValid(base);
    hide Normal, PresentOnly, ValidChanges, Overlay;
    OverlayMap(base, EditsOf(changes));
    OverlayShape(base, EditsOf(changes));
  }

  /** For a compiled source these are its values with the changes applied. */
  lemma EffectiveStatesMean(grammar: Lists.Grammar, entries: seq<Build.Entry>, m: Build.Manifest, source: Source,
                            changes: seq<LiveChange>)
    requires Build.Built(grammar, entries, m) && NoSecretAliases(entries)
    requires source.base == LiveStates(m, entries) && AllValid(source.base) && ValidChanges(changes)
    ensures MapOf(Steps.EffectiveStates(source, changes)) == ApplyEdits(Values(m), EditsOf(changes))
  {
    RebuiltMeans(source, changes);
    LiveStatesMean(m, entries);
    SecretFreeAliases(grammar, entries, m);
  }

  /** Outside the dirty identities the two maps agree. */
  ghost predicate AgreeOnClean(source: LiveMap, committed: LiveMap, shared: LiveMap) {
    forall id | !Differs(committed, shared, id) :: Lookup(source, id) == Lookup(committed, id)
  }

  lemma AppliesToShared(source: LiveMap, committed: LiveMap, shared: LiveMap)
    requires PresentMap(source) && ValidMap(committed) && ValidMap(shared)
    ensures ApplyEdits(source, EditsOf(DiffMaps(committed, shared))) == shared <==>
              AgreeOnClean(source, committed, shared)
  {
    var applied := ApplyEdits(source, EditsOf(DiffMaps(committed, shared)));
    ApplyLookup(source, EditsOf(DiffMaps(committed, shared)), Identity(Env, ""));
    forall id
      ensures Lookup(applied, id) == if Differs(committed, shared, id) then Lookup(shared, id) else Lookup(source, id)
    {
      ApplyLookup(source, EditsOf(DiffMaps(committed, shared)), id);
      DiffFind(committed, shared, id);
    }
    hide DiffMaps, ApplyEdits;
    if AgreeOnClean(source, committed, shared) {
      forall id
        ensures Lookup(applied, id) == Lookup(shared, id)
      {
      }
      MapsAgree(applied, shared);
    }
  }

  /**
   * The check that can make a commit require recovery: what it rebuilds from its source is the
   * shared generation. It holds exactly if, within the snapshot limits, the source still gives the
   * committed value of every identity that is not dirty.
   */
  lemma RebuildMatches(s: State)
    requires s.materialized && Structural(s) && AllValid(s.committed.source.base)
    ensures var rebuilt := Steps.EffectiveStates(s.committed.source, Steps.DirtyChanges(s));
            Steps.SameStates(rebuilt, s.shared) <==>
              && InBounds(rebuilt) && InBounds(s.shared)
              && AgreeOnClean(MapOf(s.committed.source.base), MapOf(s.committed.projection.states), MapOf(s.shared))
  {
    DirtyFacts(s);
    SharedMaps(s);
    ApplyPresent(s.committed.source.base);
    hide *;
    RebuiltMeans(s.committed.source, Steps.DirtyChanges(s));
    AppliesToShared(MapOf(s.committed.source.base), MapOf(s.committed.projection.states), MapOf(s.shared));
    Same(Steps.EffectiveStates(s.committed.source, Steps.DirtyChanges(s)), s.shared);
  }

  /** For a compiled source: its values agree with the committed projection on every identity that is not dirty. */
  lemma CommitMatches(grammar: Lists.Grammar, entries: seq<Build.Entry>, m: Build.Manifest, s: State)
    requires Build.Built(grammar, entries, m) && NoSecretAliases(entries)
    requires s.materialized && Structural(s)
    requires s.committed.source.base == LiveStates(m, entries) && AllValid(s.committed.source.base)
    ensures var rebuilt := Steps.EffectiveStates(s.committed.source, Steps.DirtyChanges(s));
            Steps.SameStates(rebuilt, s.shared) <==>
              && InBounds(rebuilt) && InBounds(s.shared)
              && AgreeOnClean(Values(m), MapOf(s.committed.projection.states), MapOf(s.shared))
  {
    hide *;
    RebuildMatches(s);
    LiveStatesMean(m, entries);
    SecretFreeAliases(grammar, entries, m);
  }

  lemma Same(a: seq<LiveState>, b: seq<LiveState>)
    requires Distinct(a) && AllValid(a) && Distinct(b) && AllValid(b)
    ensures Steps.SameStates(a, b) <==> InBounds(a) && InBounds(b) && MapOf(a) == MapOf(b)
  {
    hide Distinct, AllValid, InBounds, MapOf;
  }

  lemma SharedMaps(s: State)
    requires s.materialized && Structural(s)
    ensures ValidMap(MapOf(s.committed.projection.states)) && ValidMap(MapOf(s.shared))
    ensures Steps.DirtyChanges(s) == DiffMaps(MapOf(s.committed.projection.states), MapOf(s.shared))
  {
    assert AllValid(s.committed.projection.states) && AllValid(s.shared);
    hide Structural, DiffMaps;
    ApplyValid(map[], s.committed.projection.states);
    ApplyValid(map[], s.shared);
  }

  lemma DirtyFacts(s: State)
    requires s.materialized && Structural(s)
    ensures ValidChanges(Steps.DirtyChanges(s)) && Distinct(s.shared) && AllValid(s.shared)
  {
    var committed, shared := MapOf(s.committed.projection.states), MapOf(s.shared);
    assert AllValid(s.committed.projection.states) && AllValid(s.shared) && Distinct(s.shared);
    hide Structural, DiffMaps;
    ApplyValid(map[], s.committed.projection.states);
    ApplyValid(map[], s.shared);
    DiffMinimal(committed, shared);
  }
}
