/**
 * The activation compiler (core/activate/builder.go) and the manifest normalizer of
 * core/activate/diff.go: entries in source order are reduced to one manifest that keeps the
 * last accepted occurrence of every name.
 */
module Build {
  import opened Wrappers
  import opened LastOccurrence
  import opened Lists

  // ---------------------------------------------------------------- source entries

  datatype EntryKind = AssignmentEntry | AliasEntry | FunctionEntry | CommandEntry | OtherEntry

  datatype Category = EnvironmentCategory | SecretsCategory | PathCategory | OptionsCategory | OtherCategory

  datatype ValueMode = LegacyMode | LiteralMode | DynamicMode | UnsupportedMode

  datatype Entry = Entry(
    kind: EntryKind,
    category: Category,
    command: string,
    names: seq<string>,
    value: string,
    exported: bool,
    dynamic: bool,
    managed: bool,
    representable: bool,
    secret: bool,
    mode: ValueMode,
    runtimeValue: Option<string>,
    functionBody: Option<string>,
    listValue: Option<seq<Segment>>)

  predicate Letter(c: char) { 'a' <= c <= 'z' || 'A' <= c <= 'Z' }

  predicate Digit(c: char) { '0' <= c <= '9' }

  predicate OptionText(s: string) {
    s != "" && (Letter(s[0]) || s[0] == '_') && forall c | c in s :: Letter(c) || Digit(c) || c == '_'
  }

  predicate SymbolText(s: string) {
    s != "" && (Letter(s[0]) || Digit(s[0]) || s[0] == '_') &&
    forall c | c in s :: Letter(c) || Digit(c) || c == '_' || c == '.' || c == '-'
  }

  predicate Active(e: Entry) { e.managed && e.representable }

  /** activationValue: the text to activate and whether it is late-bound. */
  function ActivationValue(e: Entry): Option<(string, bool)> {
    match e.mode
    case LegacyMode => Some((e.value, e.dynamic))
    case LiteralMode => if e.runtimeValue.None? then None else Some((e.runtimeValue.value, false))
    case DynamicMode => if e.dynamic then Some((e.value, true)) else None
    case UnsupportedMode => None
  }

  // ---------------------------------------------------------------- manifests

  datatype Scalar = Scalar(name: string, applied: string, dynamic: bool, exported: Option<bool>)

  datatype OptionSet = OptionSet(name: string, enabled: bool)

  datatype ListDelta = ListDelta(name: string, additions: seq<string>, baseIndex: Option<int>, dynamic: seq<bool>)

  datatype Manifest = Manifest(
    env: seq<Scalar>,
    lists: seq<ListDelta>,
    aliases: map<string, (string, bool)>,
    functions: seq<string>,
    bodies: map<string, string>,
    options: seq<OptionSet>)

  function ScalarName(s: Scalar): string { s.name }

  function OptionName(o: OptionSet): string { o.name }

  function Self(name: string): string { name }

  // ---------------------------------------------------------------- what entries contribute

  function ScalarsOf(e: Entry): seq<Scalar> {
    if !Active(e) || e.kind != AssignmentEntry || |e.names| != 1 then []
    else if e.category != EnvironmentCategory && e.category != SecretsCategory then []
    else
      var value := ActivationValue(e);
      if value.None? then [] else [Scalar(e.names[0], value.value.0, value.value.1, Some(e.exported))]
  }

  function AssignmentsOf(e: Entry): seq<Assignment> {
    if !Active(e) || e.kind != AssignmentEntry || |e.names| != 1 || e.category != PathCategory then []
    else if e.listValue.Some? then [Semantic(e.names[0], e.listValue.value)]
    else if e.mode == LegacyMode then [Legacy(e.names[0], e.value)]
    else [Opaque(e.names[0])]
  }

  function AliasOf(e: Entry): map<string, (string, bool)> {
    if !Active(e) || e.kind != AliasEntry || |e.names| != 1 || !SymbolText(e.names[0]) ||
      ActivationValue(e).None? then map[]
    else map[e.names[0] := ActivationValue(e).value]
  }

  function FunctionsOf(e: Entry): seq<string> {
    if !Active(e) || e.kind != FunctionEntry || e.functionBody.None? then []
    else if exists name | name in e.names :: !SymbolText(name) then []
    else e.names
  }

  function OptionsOf(names: seq<string>, enabled: bool): seq<OptionSet> {
    if names == [] then []
    else
      var n := |names| - 1;
      OptionsOf(names[..n], enabled) + if OptionText(names[n]) then [OptionSet(names[n], enabled)] else []
  }

  function OptionSetsOf(e: Entry): seq<OptionSet> {
    if !Active(e) || e.kind != CommandEntry || e.category != OptionsCategory then []
    else if e.command != "setopt" && e.command != "unsetopt" then []
    else OptionsOf(e.names, e.command == "setopt")
  }

  function Scalars(entries: seq<Entry>): seq<Scalar> {
    if entries == [] then [] else Scalars(entries[..|entries| - 1]) + ScalarsOf(entries[|entries| - 1])
  }

  function Assignments(entries: seq<Entry>): seq<Assignment> {
    if entries == [] then [] else Assignments(entries[..|entries| - 1]) + AssignmentsOf(entries[|entries| - 1])
  }

  function Aliases(entries: seq<Entry>): map<string, (string, bool)> {
    if entries == [] then map[] else Aliases(entries[..|entries| - 1]) + AliasOf(entries[|entries| - 1])
  }

  function FunctionNames(entries: seq<Entry>): seq<string> {
    if entries == [] then [] else FunctionNames(entries[..|entries| - 1]) + FunctionsOf(entries[|entries| - 1])
  }

  function BodiesOf(e: Entry, names: seq<string>): map<string, string> {
    if e.functionBody.None? then map[] else map name | name in names :: e.functionBody.value
  }

  function Bodies(entries: seq<Entry>): map<string, string> {
    if entries == [] then map[]
    else Bodies(entries[..|entries| - 1]) + BodiesOf(entries[|entries| - 1], FunctionsOf(entries[|entries| - 1]))
  }

  function OptionSets(entries: seq<Entry>): seq<OptionSet> {
    if entries == [] then [] else OptionSets(entries[..|entries| - 1]) + OptionSetsOf(entries[|entries| - 1])
  }

  // ---------------------------------------------------------------- the export attribute

  predicate ExplicitIn(s: seq<Scalar>, name: string) {
    exists i | 0 <= i < |s| :: s[i].name == name && s[i].exported.Some?
  }

  predicate ExportedIn(s: seq<Scalar>, name: string) {
    exists i | 0 <= i < |s| :: s[i].name == name && s[i].exported == Some(true)
  }

  /** A scalar is exported once any of its occurrences was; without any mark it stays unmarked. */
  function Stamp(s: seq<Scalar>, x: Scalar): Scalar {
    if ExplicitIn(s, x.name) then x.(exported := Some(ExportedIn(s, x.name))) else x
  }

  function Stamped(s: seq<Scalar>, items: seq<Scalar>): (r: seq<Scalar>)
    ensures |r| == |items| && forall i | 0 <= i < |r| :: r[i] == Stamp(s, items[i])
  {
    seq(|items|, i requires 0 <= i < |items| => Stamp(s, items[i]))
  }

  /** The last occurrence of every name, exported if any occurrence was. */
  function NormalScalars(s: seq<Scalar>): seq<Scalar> { Stamped(s, LastBy(ScalarName, s)) }

  lemma StampSnoc(s: seq<Scalar>, x: Scalar, y: Scalar)
    ensures y.name != x.name ==> Stamp(s + [x], y) == Stamp(s, y)
    ensures y.name == x.name && x.exported.Some? ==>
              Stamp(s + [x], y) == y.(exported := Some(ExportedIn(s, x.name) || x.exported.value))
  {
    var all := s + [x];
    assert all[|s|] == x;
    assert forall i | 0 <= i < |s| :: all[i] == s[i];
  }

  lemma {:induction false} WithoutStamped(s: seq<Scalar>, items: seq<Scalar>, name: string)
    ensures Without(ScalarName, Stamped(s, items), name) == Stamped(s, Without(ScalarName, items, name))
  {
    if items != [] {
      var rest := items[1..];
      WithoutStamped(s, rest, name);
      assert Stamped(s, items)[1..] == Stamped(s, rest);
      assert Stamped(s, items)[0].name == items[0].name;
      if items[0].name != name {
        assert Stamped(s, [items[0]] + Without(ScalarName, rest, name)) ==
               [Stamp(s, items[0])] + Stamped(s, Without(ScalarName, rest, name));
      }
    }
  }

  /** The effect of one more occurrence: its name moves to the end, keeping an earlier export. */
  lemma NormalSnoc(s: seq<Scalar>, x: Scalar)
    requires x.exported.Some?
    ensures NormalScalars(s + [x]) ==
            Without(ScalarName, NormalScalars(s), x.name) +
            [x.(exported := Some(ExportedIn(s, x.name) || x.exported.value))]
  {
    LastBySnoc(ScalarName, s, x);
    WithoutStamped(s, LastBy(ScalarName, s), x.name);
    var rest := Without(ScalarName, LastBy(ScalarName, s), x.name);
    WithoutMembers(ScalarName, LastBy(ScalarName, s), x.name);
    forall i | 0 <= i < |rest|
      ensures Stamp(s + [x], rest[i]) == Stamp(s, rest[i])
    {
      assert rest[i] in rest;
      StampSnoc(s, x, rest[i]);
    }
    StampSnoc(s, x, x);
    assert Stamped(s + [x], rest + [x]) == Stamped(s, rest) + [Stamp(s + [x], x)];
  }

  lemma {:induction false} LastByHas<T, K>(key: T -> K, s: seq<T>, k: K)
    requires k in Keys(key, s)
    ensures exists i | 0 <= i < |LastBy(key, s)| :: key(LastBy(key, s)[i]) == k
  {
    LastByKeys(key, s);
  }

  /** Scalars with distinct, marked names are normal already. */
  lemma UniqueIsNormalScalars(s: seq<Scalar>)
    requires Unique(ScalarName, s) && forall x | x in s :: x.exported.Some?
    ensures NormalScalars(s) == s
  {
    UniqueIsNormal(ScalarName, s);
    forall i | 0 <= i < |s|
      ensures Stamp(s, s[i]) == s[i]
    {
      StampUnique(s, i);
    }
    hide Stamp, LastBy, Unique;
    assert Stamped(s, s) == s;
  }

  lemma StampUnique(s: seq<Scalar>, i: nat)
    requires i < |s| && Unique(ScalarName, s) && s[i].exported.Some?
    ensures Stamp(s, s[i]) == s[i]
  {
    forall j | 0 <= j < |s| && s[j].name == s[i].name
      ensures j == i
    {
      assert i < j ==> ScalarName(s[i]) != ScalarName(s[j]);
      assert j < i ==> ScalarName(s[j]) != ScalarName(s[i]);
    }
    assert ExplicitIn(s, s[i].name);
    assert ExportedIn(s, s[i].name) == s[i].exported.value;
    assert s[i].exported == Some(s[i].exported.value);
  }

  lemma NormalScalarsUnique(s: seq<Scalar>)
    requires forall x | x in s :: x.exported.Some?
    ensures Unique(ScalarName, NormalScalars(s))
    ensures forall x | x in NormalScalars(s) :: x.exported.Some?
  {
    var last := LastBy(ScalarName, s);
    LastByUnique(ScalarName, s);
    LastByMembers(ScalarName, s);
    forall i, j | 0 <= i < j < |last|
      ensures ScalarName(NormalScalars(s)[i]) != ScalarName(NormalScalars(s)[j])
    {
      assert ScalarName(last[i]) != ScalarName(last[j]);
    }
    forall x | x in NormalScalars(s)
      ensures x.exported.Some?
    {
      var i :| 0 <= i < |last| && NormalScalars(s)[i] == x;
      assert last[i] in last;
    }
  }

  // ---------------------------------------------------------------- delete and shift

  /** `index` tells where every key of `items` is. */
  ghost predicate Positions<T, K>(key: T -> K, items: seq<T>, index: map<K, int>) {
    && (forall i | 0 <= i < |items| :: key(items[i]) in index && index[key(items[i])] == i)
    && (forall k | k in index :: 0 <= index[k] < |items| && key(items[index[k]]) == k)
  }

  lemma PositionsUnique<T, K>(key: T -> K, items: seq<T>, index: map<K, int>)
    requires Positions(key, items, index)
    ensures Unique(key, items)
  {
    forall i, j | 0 <= i < j < |items|
      ensures key(items[i]) != key(items[j])
    {
      assert index[key(items[i])] == i && index[key(items[j])] == j;
    }
  }

  /** Moves every index after a deleted position down by one. */
  method ShiftAfter<K(==)>(index: map<K, int>, previous: int) returns (shifted: map<K, int>)
    ensures shifted.Keys == index.Keys
    ensures forall k | k in index :: shifted[k] == if index[k] > previous then index[k] - 1 else index[k]
  {
    shifted := index;
    var remaining := index.Keys;
    while remaining != {}
      invariant remaining <= index.Keys == shifted.Keys
      invariant forall k | k in index ::
                  shifted[k] == if k !in remaining && index[k] > previous then index[k] - 1 else index[k]
      decreases |remaining|
    {
      var k :| k in remaining;
      if shifted[k] > previous {
        shifted := shifted[k := shifted[k] - 1];
      }
      remaining := remaining - {k};
    }
  }

  lemma Deleted<T, K>(key: T -> K, items: seq<T>, index: map<K, int>, shifted: map<K, int>, k: K, x: T)
    requires Positions(key, items, index) && k in index && k == key(x) && shifted.Keys == index.Keys
    requires forall c | c in index :: shifted[c] == if index[c] > index[k] then index[c] - 1 else index[c]
    ensures var kept := items[..index[k]] + items[index[k] + 1..];
            Positions(key, kept + [x], shifted[k := |kept|])
  {
    var at := index[k];
    var kept := items[..at] + items[at + 1..];
    var items', index' := kept + [x], shifted[k := |kept|];
    forall i | 0 <= i < |kept|
      ensures key(kept[i]) in index' && index'[key(kept[i])] == i
    {
      var source := if i < at then i else i + 1;
      assert kept[i] == items[source];
      assert index[key(items[source])] == source;
    }
    forall c | c in index'
      ensures 0 <= index'[c] < |items'| && key(items'[index'[c]]) == c
    {
      if c != k {
        assert index[c] != at;
        assert kept[index'[c]] == items[index[c]];
      }
    }
  }

  /** Replaces the earlier occurrence of a key, if any, by one at the end. */
  method MoveToEnd<T, K(==)>(key: T -> K, items: seq<T>, index: map<K, int>, x: T)
    returns (items': seq<T>, index': map<K, int>)
    requires Positions(key, items, index)
    ensures Positions(key, items', index') && items' == Without(key, items, key(x)) + [x]
  {
    items', index' := items, index;
    PositionsUnique(key, items, index);
    var k := key(x);
    if k in index {
      var previous := index[k];
      WithoutAt(key, items, previous);
      index' := ShiftAfter(index, previous);
      Deleted(key, items, index, index', k, x);
      items' := items[..previous] + items[previous + 1..];
    } else {
      WithoutAbsent(key, items, k);
    }
    index' := index'[k := |items'|];
    items' := items' + [x];
  }

  // ---------------------------------------------------------------- environment

  /** The environment part of the build after some scalar occurrences. */
  ghost predicate EnvHolds(s: seq<Scalar>, env: seq<Scalar>, index: map<string, int>) {
    env == NormalScalars(s) && Positions(ScalarName, env, index) && forall x | x in s :: x.exported.Some?
  }

  lemma EnvMark(s: seq<Scalar>, env: seq<Scalar>, index: map<string, int>, name: string)
    requires EnvHolds(s, env, index)
    ensures name in index ==> 0 <= index[name] < |env| && env[index[name]].exported == Some(ExportedIn(s, name))
    ensures name !in index ==> !ExportedIn(s, name)
  {
    var last := LastBy(ScalarName, s);
    LastByMembers(ScalarName, s);
    if name in index {
      var at := index[name];
      assert env[at] == Stamp(s, last[at]) && last[at] in last;
      var j :| 0 <= j < |s| && s[j] == last[at];
      assert ScalarName(env[at]) == name;
      assert s[j].name == name && s[j].exported.Some?;
    }
    forall j | 0 <= j < |s| && s[j].name == name
      ensures name in index
    {
      assert ScalarName(s[j]) in Keys(ScalarName, s);
      LastByHas(ScalarName, s, name);
      var i :| 0 <= i < |last| && ScalarName(last[i]) == name;
      assert ScalarName(env[i]) == name;
    }
  }

  method AddScalar(ghost s: seq<Scalar>, env: seq<Scalar>, index: map<string, int>, x: Scalar)
    returns (env': seq<Scalar>, index': map<string, int>)
    requires EnvHolds(s, env, index) && x.exported.Some?
    ensures EnvHolds(s + [x], env', index')
  {
    EnvMark(s, env, index, x.name);
    NormalSnoc(s, x);
    var scalar := x;
    if x.name in index {
      scalar := scalar.(exported := Some(env[index[x.name]].exported.value || x.exported.value));
    }
    hide NormalScalars, ExportedIn, Positions;
    env', index' := MoveToEnd(ScalarName, env, index, scalar);
  }

  // ---------------------------------------------------------------- functions and options

  lemma SnocAt<T>(s: seq<T>, i: nat)
    requires i < |s|
    ensures s[..i + 1] == s[..i] + [s[i]]
  {
  }

  method AddFunctions(ghost before: seq<string>, functions: seq<string>, index: map<string, int>, names: seq<string>)
    returns (functions': seq<string>, index': map<string, int>)
    requires functions == LastBy(Self, before) && Positions(Self, functions, index)
    ensures functions' == LastBy(Self, before + names) && Positions(Self, functions', index')
  {
    hide LastBy, Positions, Without;
    functions', index' := functions, index;
    assert before + names[..0] == before;
    for i := 0 to |names|
      invariant functions' == LastBy(Self, before + names[..i]) && Positions(Self, functions', index')
    {
      SnocAt(names, i);
      Assoc(before, names[..i], [names[i]]);
      LastBySnoc(Self, before + names[..i], names[i]);
      functions', index' := MoveToEnd(Self, functions', index', names[i]);
    }
    assert names[..|names|] == names;
  }

  method AddOptions(ghost before: seq<OptionSet>, options: seq<OptionSet>, index: map<string, int>, names: seq<string>,
                    enabled: bool)
    returns (options': seq<OptionSet>, index': map<string, int>)
    requires options == LastBy(OptionName, before) && Positions(OptionName, options, index)
    ensures options' == LastBy(OptionName, before + OptionsOf(names, enabled)) &&
            Positions(OptionName, options', index')
  {
    hide LastBy, Positions, Without;
    options', index' := options, index;
    assert before + OptionsOf(names[..0], enabled) == before;
    for i := 0 to |names|
      invariant options' == LastBy(OptionName, before + OptionsOf(names[..i], enabled)) &&
                Positions(OptionName, options', index')
    {
      assert names[..i + 1][..i] == names[..i];
      if OptionText(names[i]) {
        var option := OptionSet(names[i], enabled);
        Assoc(before, OptionsOf(names[..i], enabled), [option]);
        LastBySnoc(OptionName, before + OptionsOf(names[..i], enabled), option);
        options', index' := MoveToEnd(OptionName, options', index', option);
      } else {
        assert OptionsOf(names[..i], enabled) + [] == OptionsOf(names[..i], enabled);
      }
    }
    assert names[..|names|] == names;
  }

  method AllSymbols(names: seq<string>) returns (valid: bool)
    ensures valid <==> forall name | name in names :: SymbolText(name)
  {
    for i := 0 to |names|
      invariant forall k | 0 <= k < i :: SymbolText(names[k])
    {
      if !SymbolText(names[i]) {
        return false;
      }
    }
    valid := true;
  }

  // ---------------------------------------------------------------- lists

  /** The list part of the build after some assignments. */
  ghost predicate ListsHold(grammar: Grammar, assignments: seq<Assignment>, lists: Streams, order: seq<string>) {
    && order == LastBy(Self, WrittenNames(grammar, assignments))
    && (forall name :: CurrentOf(lists, name) == StreamOf(grammar, name, assignments))
    && (forall name :: name in lists <==> name in WrittenNames(grammar, assignments))
  }

  method RemoveName(order: seq<string>, name: string) returns (order': seq<string>)
    requires Unique(Self, order)
    ensures order' == Without(Self, order, name)
  {
    for i := 0 to |order|
      invariant forall k | 0 <= k < i :: order[k] != name
    {
      if order[i] == name {
        WithoutAt(Self, order, i);
        return order[..i] + order[i + 1..];
      }
    }
    WithoutAbsent(Self, order, name);
    order' := order;
  }

  lemma ListsUnseen(grammar: Grammar, assignments: seq<Assignment>, lists: Streams, order: seq<string>, name: string)
    requires ListsHold(grammar, assignments, lists, order) && name !in lists
    ensures Without(Self, order, name) == order
  {
    LastByMembers(Self, WrittenNames(grammar, assignments));
    forall i | 0 <= i < |order|
      ensures Self(order[i]) != name
    {
      assert order[i] in order;
    }
    WithoutAbsent(Self, order, name);
  }

  lemma ListsSnoc(grammar: Grammar, assignments: seq<Assignment>, lists: Streams, order: seq<string>, a: Assignment)
    requires ListsHold(grammar, assignments, lists, order)
    ensures match Composed(grammar, a, lists)
            case None => ListsHold(grammar, assignments + [a], lists, order)
            case Some(next) =>
              ListsHold(grammar, assignments + [a], lists[next.0 := next.1], Without(Self, order, next.0) + [next.0])
  {
    hide LastBy, Without, Written, Substitute;
    var all, names := assignments + [a], WrittenNames(grammar, assignments);
    assert all[..|assignments|] == assignments && all[|assignments|] == a;
    if Written(grammar, a).Some? {
      var name := CanonicalList(a.raw);
      LastBySnoc(Self, names, name);
      assert WrittenNames(grammar, all) == names + [name];
      var lists' := lists[name := Composed(grammar, a, lists).value.1];
      forall n
        ensures CurrentOf(lists', n) == StreamOf(grammar, n, all)
      {
        assert CurrentOf(lists, n) == StreamOf(grammar, n, assignments);
      }
    } else {
      assert WrittenNames(grammar, all) == names + [] == names;
      forall n
        ensures StreamOf(grammar, n, all) == StreamOf(grammar, n, assignments)
      {
      }
    }
  }

  method AddAssignment(grammar: Grammar, ghost assignments: seq<Assignment>, lists: Streams, order: seq<string>,
                       a: Assignment)
    returns (lists': Streams, order': seq<string>)
    requires ListsHold(grammar, assignments, lists, order)
    ensures ListsHold(grammar, assignments + [a], lists', order')
  {
    lists', order' := lists, order;
    LastByUnique(Self, WrittenNames(grammar, assignments));
    ListsSnoc(grammar, assignments, lists, order, a);
    hide ListsHold, Without, LastBy, Unique;
    var composed: Option<(string, seq<Token>)> := None;
    match a {
      case Semantic(raw, segments) => composed := ComposeList(grammar, raw, segments, lists);
      case Legacy(raw, value) => composed := ComposeLegacyList(grammar, raw, value, lists);
      case Opaque(_) => OpaqueComposes(grammar, a, lists);
    }
    if composed.Some? {
      var (name, next) := composed.value;
      if name in lists {
        assert Unique(Self, order) by { OrderUnique(grammar, assignments, lists, order); }
        order' := RemoveName(order, name);
      } else {
        ListsUnseen(grammar, assignments, lists, order, name);
      }
      lists' := lists[name := next];
      order' := order' + [name];
    }
  }

  lemma OpaqueComposes(grammar: Grammar, a: Assignment, lists: Streams)
    requires a.Opaque?
    ensures Composed(grammar, a, lists).None?
  {
  }

  lemma OrderUnique(grammar: Grammar, assignments: seq<Assignment>, lists: Streams, order: seq<string>)
    requires ListsHold(grammar, assignments, lists, order)
    ensures Unique(Self, order)
  {
    LastByUnique(Self, WrittenNames(grammar, assignments));
  }

  // ---------------------------------------------------------------- the build

  /** Everything the loop of Build carries from one entry to the next. */
  datatype Working = Working(
    env: seq<Scalar>, envIndex: map<string, int>,
    lists: Streams, order: seq<string>,
    aliases: map<string, (string, bool)>,
    functions: seq<string>, functionIndex: map<string, int>,
    bodies: map<string, string>,
    options: seq<OptionSet>, optionIndex: map<string, int>)

  const NOTHING_BUILT: Working := Working([], map[], map[], [], map[], [], map[], map[], [], map[])

  ghost predicate Holds(grammar: Grammar, entries: seq<Entry>, w: Working) {
    && EnvHolds(Scalars(entries), w.env, w.envIndex)
    && ListsHold(grammar, Assignments(entries), w.lists, w.order)
    && w.aliases == Aliases(entries)
    && w.functions == LastBy(Self, FunctionNames(entries)) && Positions(Self, w.functions, w.functionIndex)
    && w.bodies == Bodies(entries)
    && w.options == LastBy(OptionName, OptionSets(entries)) && Positions(OptionName, w.options, w.optionIndex)
  }

  lemma EntriesSnoc(entries: seq<Entry>, e: Entry)
    ensures var all := entries + [e];
            && Scalars(all) == Scalars(entries) + ScalarsOf(e)
            && Assignments(all) == Assignments(entries) + AssignmentsOf(e)
            && Aliases(all) == Aliases(entries) + AliasOf(e)
            && FunctionNames(all) == FunctionNames(entries) + FunctionsOf(e)
            && Bodies(all) == Bodies(entries) + BodiesOf(e, FunctionsOf(e))
            && OptionSets(all) == OptionSets(entries) + OptionSetsOf(e)
  {
    assert (entries + [e])[..|entries|] == entries;
    hide ScalarsOf, AssignmentsOf, AliasOf, FunctionsOf, BodiesOf, OptionSetsOf;
  }

  /** What one entry adds to the working state. */
  ghost predicate Adds(grammar: Grammar, entries: seq<Entry>, e: Entry, w: Working) {
    && EnvHolds(Scalars(entries) + ScalarsOf(e), w.env, w.envIndex)
    && ListsHold(grammar, Assignments(entries) + AssignmentsOf(e), w.lists, w.order)
    && w.aliases == Aliases(entries) + AliasOf(e)
    && w.functions == LastBy(Self, FunctionNames(entries) + FunctionsOf(e)) &&
       Positions(Self, w.functions, w.functionIndex)
    && w.bodies == Bodies(entries) + BodiesOf(e, FunctionsOf(e))
    && w.options == LastBy(OptionName, OptionSets(entries) + OptionSetsOf(e))
    && Positions(OptionName, w.options, w.optionIndex)
  }

  lemma AddsHolds(grammar: Grammar, entries: seq<Entry>, e: Entry, w: Working)
    requires Adds(grammar, entries, e, w)
    ensures Holds(grammar, entries + [e], w)
  {
    EntriesSnoc(entries, e);
    hide EnvHolds, ListsHold, LastBy, Positions, Scalars, Assignments, Aliases, FunctionNames, Bodies, OptionSets;
  }

  lemma NothingAdded(grammar: Grammar, entries: seq<Entry>, e: Entry, w: Working)
    requires Holds(grammar, entries, w)
    requires ScalarsOf(e) == [] && AssignmentsOf(e) == [] && AliasOf(e) == map[] && FunctionsOf(e) == [] &&
             OptionSetsOf(e) == []
    ensures Adds(grammar, entries, e, w)
  {
    hide EnvHolds, ListsHold, LastBy, Positions, Scalars, Assignments, Aliases, FunctionNames, Bodies, OptionSets;
    assert Scalars(entries) + [] == Scalars(entries) && Assignments(entries) + [] == Assignments(entries);
    assert FunctionNames(entries) + [] == FunctionNames(entries) && OptionSets(entries) + [] == OptionSets(entries);
    assert BodiesOf(e, []) == map[];
    assert Bodies(entries) + map[] == Bodies(entries) && Aliases(entries) + map[] == Aliases(entries);
  }

  /** An entry contributes to the part of the manifest its kind and category name. */
  lemma OnePart(e: Entry)
    ensures !Active(e) || e.kind == OtherEntry ==>
              ScalarsOf(e) == [] && AssignmentsOf(e) == [] && AliasOf(e) == map[] && FunctionsOf(e) == [] &&
                OptionSetsOf(e) == []
    ensures e.kind == AssignmentEntry ==> AliasOf(e) == map[] && FunctionsOf(e) == [] && OptionSetsOf(e) == []
    ensures e.kind == AliasEntry ==>
              ScalarsOf(e) == [] && AssignmentsOf(e) == [] && FunctionsOf(e) == [] && OptionSetsOf(e) == []
    ensures e.kind == FunctionEntry ==>
              ScalarsOf(e) == [] && AssignmentsOf(e) == [] && AliasOf(e) == map[] && OptionSetsOf(e) == []
    ensures e.kind == CommandEntry ==>
              ScalarsOf(e) == [] && AssignmentsOf(e) == [] && AliasOf(e) == map[] && FunctionsOf(e) == []
    ensures ScalarsOf(e) == [] || AssignmentsOf(e) == []
  {
  }

  method AddEntry(grammar: Grammar, ghost entries: seq<Entry>, w: Working, e: Entry) returns (w': Working)
    requires Holds(grammar, entries, w)
    ensures Holds(grammar, entries + [e], w')
  {
    hide Holds, Adds;
    OnePart(e);
    w' := w;
    if !e.managed || !e.representable {
      NothingAdded(grammar, entries, e, w);
    } else {
      match e.kind {
        case AssignmentEntry => w' := AddAssignmentEntry(grammar, entries, w, e);
        case AliasEntry => w' := AddAliasEntry(grammar, entries, w, e);
        case FunctionEntry => w' := AddFunctionEntry(grammar, entries, w, e);
        case CommandEntry => w' := AddCommandEntry(grammar, entries, w, e);
        case OtherEntry => NothingAdded(grammar, entries, e, w);
      }
    }
    AddsHolds(grammar, entries, e, w');
  }

  method AddAssignmentEntry(grammar: Grammar, ghost entries: seq<Entry>, w: Working, e: Entry) returns (w': Working)
    requires Holds(grammar, entries, w) && Active(e) && e.kind == AssignmentEntry
    ensures Adds(grammar, entries, e, w')
  {
    OnePart(e);
    w' := w;
    if |e.names| != 1 {
      NothingAdded(grammar, entries, e, w);
    } else if e.category == EnvironmentCategory || e.category == SecretsCategory {
      var value := ActivationValue(e);
      if value.None? {
        NothingAdded(grammar, entries, e, w);
        return;
      }
      var scalar := Scalar(e.names[0], value.value.0, value.value.1, Some(e.exported));
      EnvAdded(grammar, entries, e, w, scalar);
      hide EnvHolds, ListsHold, LastBy, Positions;
      var env, envIndex := AddScalar(Scalars(entries), w.env, w.envIndex, scalar);
      w' := w.(env := env, envIndex := envIndex);
    } else if e.category == PathCategory {
      var a := if e.listValue.Some? then Semantic(e.names[0], e.listValue.value)
               else if e.mode == LegacyMode then Legacy(e.names[0], e.value)
               else Opaque(e.names[0]);
      ListAdded(grammar, entries, e, w, a);
      hide EnvHolds, ListsHold, LastBy, Positions;
      var lists, order := AddAssignment(grammar, Assignments(entries), w.lists, w.order, a);
      w' := w.(lists := lists, order := order);
    } else {
      NothingAdded(grammar, entries, e, w);
    }
  }

  lemma EnvAdded(grammar: Grammar, entries: seq<Entry>, e: Entry, w: Working, x: Scalar)
    requires Holds(grammar, entries, w) && ScalarsOf(e) == [x]
    ensures EnvHolds(Scalars(entries), w.env, w.envIndex)
    ensures forall env, index :: EnvHolds(Scalars(entries) + [x], env, index) ==>
              Adds(grammar, entries, e, w.(env := env, envIndex := index))
  {
    OnePart(e);
    OtherParts(e);
    hide EnvHolds, ListsHold, LastBy, Positions, Scalars, Assignments, Aliases, FunctionNames, Bodies, OptionSets;
    assert Assignments(entries) + [] == Assignments(entries);
    assert FunctionNames(entries) + [] == FunctionNames(entries) && OptionSets(entries) + [] == OptionSets(entries);
    assert Bodies(entries) + map[] == Bodies(entries) && Aliases(entries) + map[] == Aliases(entries);
  }

  lemma ListAdded(grammar: Grammar, entries: seq<Entry>, e: Entry, w: Working, a: Assignment)
    requires Holds(grammar, entries, w) && AssignmentsOf(e) == [a]
    ensures ListsHold(grammar, Assignments(entries), w.lists, w.order)
    ensures forall lists, order :: ListsHold(grammar, Assignments(entries) + [a], lists, order) ==>
              Adds(grammar, entries, e, w.(lists := lists, order := order))
  {
    OnePart(e);
    OtherParts(e);
    hide EnvHolds, ListsHold, LastBy, Positions, Scalars, Assignments, Aliases, FunctionNames, Bodies, OptionSets;
    assert Scalars(entries) + [] == Scalars(entries);
    assert FunctionNames(entries) + [] == FunctionNames(entries) && OptionSets(entries) + [] == OptionSets(entries);
    assert Bodies(entries) + map[] == Bodies(entries) && Aliases(entries) + map[] == Aliases(entries);
  }

  lemma OtherParts(e: Entry)
    ensures ScalarsOf(e) != [] ==>
              AssignmentsOf(e) == [] && AliasOf(e) == map[] && FunctionsOf(e) == [] && OptionSetsOf(e) == []
    ensures AssignmentsOf(e) != [] ==>
              ScalarsOf(e) == [] && AliasOf(e) == map[] && FunctionsOf(e) == [] && OptionSetsOf(e) == []
    ensures BodiesOf(e, []) == map[]
  {
  }

  method AddAliasEntry(grammar: Grammar, ghost entries: seq<Entry>, w: Working, e: Entry) returns (w': Working)
    requires Holds(grammar, entries, w) && Active(e) && e.kind == AliasEntry
    ensures Adds(grammar, entries, e, w')
  {
    OnePart(e);
    OtherParts(e);
    hide EnvHolds, ListsHold, LastBy, Positions, Scalars, Assignments, Aliases, FunctionNames, Bodies, OptionSets;
    assert Scalars(entries) + [] == Scalars(entries) && Assignments(entries) + [] == Assignments(entries);
    assert FunctionNames(entries) + [] == FunctionNames(entries) && OptionSets(entries) + [] == OptionSets(entries);
    assert Bodies(entries) + map[] == Bodies(entries) && Aliases(entries) + map[] == Aliases(entries);
    w' := w;
    if |e.names| == 1 && SymbolText(e.names[0]) {
      var value := ActivationValue(e);
      if value.Some? {
        assert w.aliases + map[e.names[0] := value.value] == w.aliases[e.names[0] := value.value];
        w' := w.(aliases := w.aliases[e.names[0] := value.value]);
      }
    }
  }

  method AddFunctionEntry(grammar: Grammar, ghost entries: seq<Entry>, w: Working, e: Entry) returns (w': Working)
    requires Holds(grammar, entries, w) && Active(e) && e.kind == FunctionEntry
    ensures Adds(grammar, entries, e, w')
  {
    OnePart(e);
    w' := w;
    if e.functionBody.None? || |e.names| == 0 {
      NothingAdded(grammar, entries, e, w);
      return;
    }
    var valid := AllSymbols(e.names);
    if !valid {
      NothingAdded(grammar, entries, e, w);
      return;
    }
    FunctionsAdded(grammar, entries, e, w);
    hide *;
    var functions, functionIndex := AddFunctions(FunctionNames(entries), w.functions, w.functionIndex, e.names);
    var bodies := AddBodies(w.bodies, e.names, e.functionBody.value);
    w' := w.(functions := functions, functionIndex := functionIndex, bodies := bodies);
  }

  lemma FunctionsAdded(grammar: Grammar, entries: seq<Entry>, e: Entry, w: Working)
    requires Holds(grammar, entries, w) && e.functionBody.Some? && FunctionsOf(e) == e.names != []
    requires e.kind == FunctionEntry
    ensures w.functions == LastBy(Self, FunctionNames(entries)) && Positions(Self, w.functions, w.functionIndex)
    ensures forall functions, index, bodies ::
              functions == LastBy(Self, FunctionNames(entries) + e.names) && Positions(Self, functions, index) &&
              bodies == w.bodies + (map name | name in e.names :: e.functionBody.value) ==>
                Adds(grammar, entries, e, w.(functions := functions, functionIndex := index, bodies := bodies))
  {
    OnePart(e);
    hide EnvHolds, ListsHold, LastBy, Positions, Scalars, Assignments, Aliases, FunctionNames, Bodies, OptionSets;
    assert Scalars(entries) + [] == Scalars(entries) && Assignments(entries) + [] == Assignments(entries);
    assert OptionSets(entries) + [] == OptionSets(entries) && Aliases(entries) + map[] == Aliases(entries);
  }

  method AddBodies(before: map<string, string>, names: seq<string>, body: string) returns (bodies: map<string, string>)
    ensures bodies == before + map name | name in names :: body
  {
    bodies := before;
    for i := 0 to |names|
      invariant bodies == before + map name | name in names[..i] :: body
    {
      assert names[..i + 1] == names[..i] + [names[i]];
      bodies := bodies[names[i] := body];
    }
    assert names[..|names|] == names;
  }

  method AddCommandEntry(grammar: Grammar, ghost entries: seq<Entry>, w: Working, e: Entry) returns (w': Working)
    requires Holds(grammar, entries, w) && Active(e) && e.kind == CommandEntry
    ensures Adds(grammar, entries, e, w')
  {
    OnePart(e);
    w' := w;
    if e.category != OptionsCategory || (e.command != "setopt" && e.command != "unsetopt") {
      NothingAdded(grammar, entries, e, w);
      return;
    }
    CommandAdded(grammar, entries, e, w);
    hide *;
    var options, optionIndex :=
      AddOptions(OptionSets(entries), w.options, w.optionIndex, e.names, e.command == "setopt");
    w' := w.(options := options, optionIndex := optionIndex);
  }

  lemma CommandAdded(grammar: Grammar, entries: seq<Entry>, e: Entry, w: Working)
    requires Holds(grammar, entries, w) && Active(e) && e.kind == CommandEntry && e.category == OptionsCategory
    requires e.command == "setopt" || e.command == "unsetopt"
    ensures w.options == LastBy(OptionName, OptionSets(entries)) && Positions(OptionName, w.options, w.optionIndex)
    ensures forall options, index ::
              options == LastBy(OptionName, OptionSets(entries) + OptionsOf(e.names, e.command == "setopt")) &&
              Positions(OptionName, options, index) ==>
                Adds(grammar, entries, e, w.(options := options, optionIndex := index))
  {
    OnePart(e);
    OtherParts(e);
    hide EnvHolds, ListsHold, LastBy, Positions, Scalars, Assignments, Aliases, FunctionNames, Bodies, OptionSets,
         OptionsOf;
    assert Scalars(entries) + [] == Scalars(entries) && Assignments(entries) + [] == Assignments(entries);
    assert FunctionNames(entries) + [] == FunctionNames(entries);
    assert Bodies(entries) + map[] == Bodies(entries) && Aliases(entries) + map[] == Aliases(entries);
  }

  predicate WellPlaced(l: ListDelta) {
    l.baseIndex.Some? && 0 <= l.baseIndex.value <= |l.additions| && |l.dynamic| == |l.additions|
  }

  function AsDelta(l: ListDelta): (d: Delta)
    requires WellPlaced(l)
    ensures ValidDelta(d)
  {
    Delta(l.name, l.additions, l.baseIndex.value, l.dynamic)
  }

  /** One list per written name, in the order the names were last written, with its stream. */
  ghost predicate ListsBuilt(grammar: Grammar, assignments: seq<Assignment>, lists: seq<ListDelta>,
                             names: seq<string>) {
    |lists| == |names| &&
    forall i | 0 <= i < |lists| ::
      && WellPlaced(lists[i]) && lists[i].name == names[i]
      && DeltaTokens(AsDelta(lists[i])) == StreamOf(grammar, names[i], assignments)
  }

  ghost predicate Built(grammar: Grammar, entries: seq<Entry>, m: Manifest) {
    && m.env == NormalScalars(Scalars(entries))
    && ListsBuilt(grammar, Assignments(entries), m.lists, LastBy(Self, WrittenNames(grammar, Assignments(entries))))
    && m.aliases == Aliases(entries)
    && m.functions == LastBy(Self, FunctionNames(entries)) && m.bodies == Bodies(entries)
    && m.options == LastBy(OptionName, OptionSets(entries))
  }

  method ReduceLists(grammar: Grammar, ghost assignments: seq<Assignment>, lists: Streams, order: seq<string>)
    returns (out: seq<ListDelta>)
    requires ListsHold(grammar, assignments, lists, order)
    ensures ListsBuilt(grammar, assignments, out, order)
  {
    out := [];
    LastByMembers(Self, WrittenNames(grammar, assignments));
    for i := 0 to |order|
      invariant ListsBuilt(grammar, assignments, out, order[..i])
    {
      var name := order[i];
      assert name in order && name in lists;
      assert CurrentOf(lists, name) == StreamOf(grammar, name, assignments);
      StreamExecutes((_, _) => [], grammar, name, assignments, []);
      hide ListsHold, StreamOf, DeltaTokens;
      var d := ReduceStream(name, lists[name]);
      out := out + [ListDelta(name, d.additions, Some(d.baseIndex), d.dynamic)];
      assert AsDelta(out[i]) == d;
    }
    assert order[..|order|] == order;
  }

  lemma NothingHolds(grammar: Grammar)
    ensures Holds(grammar, [], NOTHING_BUILT)
  {
  }

  /** Compiles the managed entries of a profile, in source order, into one manifest. */
  method Build(grammar: Grammar, entries: seq<Entry>) returns (m: Manifest)
    ensures Built(grammar, entries, m)
  {
    var w := NOTHING_BUILT;
    NothingHolds(grammar);
    hide Holds;
    for i := 0 to |entries|
      invariant Holds(grammar, entries[..i], w)
    {
      SnocAt(entries, i);
      w := AddEntry(grammar, entries[..i], w, entries[i]);
    }
    assert entries[..|entries|] == entries;
    HoldsParts(grammar, entries, w);
    hide *;
    var lists := ReduceLists(grammar, Assignments(entries), w.lists, w.order);
    m := Manifest(w.env, lists, w.aliases, w.functions, w.bodies, w.options);
  }

  lemma HoldsParts(grammar: Grammar, entries: seq<Entry>, w: Working)
    requires Holds(grammar, entries, w)
    ensures ListsHold(grammar, Assignments(entries), w.lists, w.order)
    ensures forall lists :: ListsBuilt(grammar, Assignments(entries), lists, w.order) ==>
              Built(grammar, entries, Manifest(w.env, lists, w.aliases, w.functions, w.bodies, w.options))
  {
    hide ListsBuilt, Positions, NormalScalars, LastBy;
  }

  // ---------------------------------------------------------------- what a manifest means

  /**
   * Activating a built list is executing its accepted assignments in source order, whatever
   * list the shell starts from and whatever the late-bound parts stand for.
   */
  lemma ListsKeepTheirMeaning(meaning: Meaning, grammar: Grammar, entries: seq<Entry>, m: Manifest, i: nat,
                              base: seq<string>)
    requires Built(grammar, entries, m) && i < |m.lists|
    ensures WellPlaced(m.lists[i])
    ensures ExpandDelta(meaning, AsDelta(m.lists[i]), base) ==
            Lists.Run(meaning, grammar, m.lists[i].name, Assignments(entries), base)
  {
    DeltaExecutes(meaning, AsDelta(m.lists[i]), base);
    StreamExecutes(meaning, grammar, m.lists[i].name, Assignments(entries), base);
  }

  /** A list no accepted assignment wrote is left alone. */
  lemma {:induction false} UnwrittenLists(meaning: Meaning, grammar: Grammar, name: string,
                                          assignments: seq<Assignment>,
                                          base: seq<string>)
    requires name !in WrittenNames(grammar, assignments)
    ensures Lists.Run(meaning, grammar, name, assignments, base) == base
  {
    if assignments != [] {
      UnwrittenLists(meaning, grammar, name, assignments[..|assignments| - 1], base);
    }
  }

  // ---------------------------------------------------------------- normalization

  /** normalizeManifest: the last occurrence of every ordered identity. */
  function NormalManifest(m: Manifest): Manifest {
    m.(env := NormalScalars(m.env), functions := LastBy(Self, m.functions), options := LastBy(OptionName, m.options))
  }

  lemma ScalarPrefix(s: seq<Scalar>, i: nat, name: string)
    requires i < |s|
    ensures ExplicitIn(s[..i + 1], name) <==> ExplicitIn(s[..i], name) || (s[i].name == name && s[i].exported.Some?)
    ensures ExportedIn(s[..i + 1], name) <==>
              ExportedIn(s[..i], name) || (s[i].name == name && s[i].exported == Some(true))
  {
    assert s[..i + 1][i] == s[i];
    assert forall j | 0 <= j < i :: s[..i + 1][j] == s[..i][j];
  }

  /** The export marks of the first `n` scalars, by name. */
  ghost predicate Marks(s: seq<Scalar>, n: nat, exported: map<string, bool>)
    requires n <= |s|
  {
    && (forall name :: name in exported <==> ExplicitIn(s[..n], name))
    && (forall name | name in exported :: exported[name] == ExportedIn(s[..n], name))
  }

  function Marked(exported: map<string, bool>, x: Scalar): map<string, bool> {
    if x.exported.None? then exported
    else exported[x.name := (x.name in exported && exported[x.name]) || x.exported.value]
  }

  lemma MarkStep(s: seq<Scalar>, n: nat, exported: map<string, bool>)
    requires n < |s| && Marks(s, n, exported)
    ensures Marks(s, n + 1, Marked(exported, s[n]))
  {
    forall name
      ensures ExplicitIn(s[..n + 1], name) <==> ExplicitIn(s[..n], name) || (s[n].name == name && s[n].exported.Some?)
      ensures ExportedIn(s[..n + 1], name) <==>
              ExportedIn(s[..n], name) || (s[n].name == name && s[n].exported == Some(true))
      ensures ExportedIn(s[..n], name) ==> ExplicitIn(s[..n], name)
    {
      ScalarPrefix(s, n, name);
    }
    hide ExplicitIn, ExportedIn;
  }

  lemma MarkNone(s: seq<Scalar>)
    ensures Marks(s, 0, map[])
  {
  }

  method NormalizeScalars(s: seq<Scalar>) returns (out: seq<Scalar>)
    ensures out == NormalScalars(s)
  {
    var last: map<string, int> := map[];
    var exported: map<string, bool> := map[];
    MarkNone(s);
    hide Marks;
    for i := 0 to |s|
      invariant RecordsLast(ScalarName, s, i, last) && Marks(s, i, exported)
    {
      RecordStep(ScalarName, s, i, last);
      MarkStep(s, i, exported);
      hide RecordsLast;
      last := last[s[i].name := i];
      if s[i].exported.Some? {
        exported := exported[s[i].name := (s[i].name in exported && exported[s[i].name]) || s[i].exported.value];
      }
    }
    out := StampLast(s, last, exported);
  }

  /** A scalar with the export mark recorded for its name. */
  function WithMark(exported: map<string, bool>, x: Scalar): Scalar {
    if x.name in exported then x.(exported := Some(exported[x.name])) else x
  }

  lemma MarkedIsStamped(s: seq<Scalar>, exported: map<string, bool>, kept: seq<Scalar>, x: Scalar)
    requires Marks(s, |s|, exported)
    ensures Stamped(s, kept + [x]) == Stamped(s, kept) + [WithMark(exported, x)]
  {
    assert s[..|s|] == s;
    hide ExplicitIn, ExportedIn;
  }

  method StampLast(s: seq<Scalar>, last: map<string, int>, exported: map<string, bool>) returns (out: seq<Scalar>)
    requires RecordsLast(ScalarName, s, |s|, last) && Marks(s, |s|, exported)
    ensures out == NormalScalars(s)
  {
    hide Marks, LastBy, Stamp;
    out := [];
    ghost var kept: seq<Scalar> := [];
    assert s[0..] == s;
    assert kept + LastBy(ScalarName, s) == LastBy(ScalarName, s);
    for i := 0 to |s|
      invariant kept + LastBy(ScalarName, s[i..]) == LastBy(ScalarName, s)
      invariant out == Stamped(s, kept)
    {
      LastStep(ScalarName, s, i, last);
      ghost var before := kept;
      if last[s[i].name] == i {
        MarkedIsStamped(s, exported, kept, s[i]);
        kept := kept + [s[i]];
        out := out + [WithMark(exported, s[i])];
      } else {
        assert kept + [] == kept;
      }
      KeepStep(ScalarName, s, i, last, before, kept);
    }
    LastOfNothing(s);
    assert kept + [] == kept;
  }

  lemma LastOfNothing(s: seq<Scalar>)
    ensures LastBy(ScalarName, s[|s|..]) == []
  {
  }

  method NormalizeBy<T>(key: T -> string, s: seq<T>) returns (out: seq<T>)
    ensures out == LastBy(key, s)
  {
    var last: map<string, int> := map[];
    for i := 0 to |s|
      invariant RecordsLast(key, s, i, last)
    {
      RecordStep(key, s, i, last);
      last := last[key(s[i]) := i];
    }
    out := KeepLast(key, s, last);
  }

  method NormalizeManifest(m: Manifest) returns (n: Manifest)
    ensures n == NormalManifest(m)
  {
    var env := NormalizeScalars(m.env);
    var functions := NormalizeBy(Self, m.functions);
    var options := NormalizeBy(OptionName, m.options);
    n := m.(env := env, functions := functions, options := options);
  }

  lemma {:induction false} ScalarsMarked(entries: seq<Entry>)
    ensures forall x | x in Scalars(entries) :: x.exported.Some?
  {
    if entries != [] {
      ScalarsMarked(entries[..|entries| - 1]);
    }
  }

  /** Normalization is the identity on everything Build produces. */
  lemma BuiltIsNormal(grammar: Grammar, entries: seq<Entry>, m: Manifest)
    requires Built(grammar, entries, m)
    ensures NormalManifest(m) == m
  {
    ScalarsMarked(entries);
    NormalScalarsUnique(Scalars(entries));
    UniqueIsNormalScalars(m.env);
    LastByUnique(Self, FunctionNames(entries));
    UniqueIsNormal(Self, m.functions);
    LastByUnique(OptionName, OptionSets(entries));
    UniqueIsNormal(OptionName, m.options);
    hide NormalScalars, LastBy, Scalars, FunctionNames, OptionSets, ListsBuilt, Unique, Bodies, Aliases;
  }

  // ---------------------------------------------------------------- Diff

  /** validateListDelta. */
  predicate AcceptableList(l: ListDelta) {
    if l.baseIndex.None? then |l.dynamic| == 0
    else 0 <= l.baseIndex.value <= |l.additions| && |l.dynamic| == |l.additions|
  }

  predicate Acceptable(m: Manifest) {
    (forall l | l in m.lists :: AcceptableList(l)) && forall name | name in m.functions :: name in m.bodies
  }

  /** The manifests the deactivation and the activation operations are derived from. */
  datatype Plan = Plan(deactivated: Option<Manifest>, activated: Option<Manifest>)

  function NormalOption(m: Option<Manifest>): Option<Manifest> {
    if m.None? then None else Some(NormalManifest(m.value))
  }

  method Diff(active: Option<Manifest>, target: Option<Manifest>) returns (r: Option<Plan>)
    ensures r == if target.Some? && !Acceptable(NormalManifest(target.value)) then None
                 else Some(Plan(NormalOption(active), NormalOption(target)))
  {
    hide NormalManifest;
    var deactivated: Option<Manifest>, activated: Option<Manifest> := None, None;
    if active.Some? {
      var normalized := NormalizeManifest(active.value);
      deactivated := Some(normalized);
    }
    if target.Some? {
      var normalized := NormalizeManifest(target.value);
      activated := Some(normalized);
      for i := 0 to |normalized.lists|
        invariant forall k | 0 <= k < i :: AcceptableList(normalized.lists[k])
      {
        if !AcceptableList(normalized.lists[i]) {
          assert normalized.lists[i] in normalized.lists;
          return None;
        }
      }
      for i := 0 to |normalized.functions|
        invariant forall k | 0 <= k < i :: normalized.functions[k] in normalized.bodies
      {
        if normalized.functions[i] !in normalized.bodies {
          assert normalized.functions[i] in normalized.functions;
          return None;
        }
      }
    }
    r := Some(Plan(deactivated, activated));
  }

  lemma {:induction false} FunctionsHaveBodies(entries: seq<Entry>, name: string)
    requires name in FunctionNames(entries)
    ensures name in Bodies(entries)
  {
    var n := |entries| - 1;
    if name in FunctionNames(entries[..n]) {
      FunctionsHaveBodies(entries[..n], name);
    }
  }

  /** Diff never rejects what Build produced, and plans exactly the given manifests. */
  lemma BuiltIsAccepted(grammar: Grammar, entries: seq<Entry>, m: Manifest)
    requires Built(grammar, entries, m)
    ensures Acceptable(NormalManifest(m)) && NormalOption(Some(m)) == Some(m)
  {
    BuiltIsNormal(grammar, entries, m);
    LastByMembers(Self, FunctionNames(entries));
    forall name | name in m.functions
      ensures name in m.bodies
    {
      FunctionsHaveBodies(entries, name);
    }
  }
}
