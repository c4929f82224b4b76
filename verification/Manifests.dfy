/**
 * What a built manifest says, told over the profile's entries: every name stands for its last
 * accepted entry, in the order of those entries, and nothing else is in the manifest.
 */
module Manifests {
  import opened Wrappers
  import opened LastOccurrence
  import opened Lists
  import opened Build

  datatype Subject = OfScalar(name: string) | OfList(name: string) | OfAlias(name: string) | OfFunction(name: string)
                   | OfOption(name: string)

  // ---------------------------------------------------------------- accepted entries

  /** The entry has a value activation can use. */
  predicate Usable(e: Entry) {
    e.mode == LegacyMode || (e.mode == LiteralMode && e.runtimeValue.Some?) || (e.mode == DynamicMode && e.dynamic)
  }

  /** Activating the entry sets this text, evaluated late or taken as it is. */
  predicate Carries(e: Entry, text: string, late: bool) {
    match e.mode
    case LegacyMode => text == e.value && late == e.dynamic
    case LiteralMode => Some(text) == e.runtimeValue && !late
    case DynamicMode => e.dynamic && text == e.value && late
    case UnsupportedMode => false
  }

  /** The spellings of a list: zsh ties PATH to path and FPATH to fpath. */
  predicate Spells(raw: string, name: string) {
    (name == "PATH" && raw in {"PATH", "path"}) || (name == "FPATH" && raw in {"FPATH", "fpath"})
  }

  /** Activation accepts what the entry assigns to the list. */
  predicate WritesList(grammar: Grammar, e: Entry, name: string) {
    && e.kind == AssignmentEntry && e.category == PathCategory && |e.names| == 1 && Spells(e.names[0], name)
    && if e.listValue.Some? then ValidList(e.listValue.value)
       else e.mode == LegacyMode && AcceptsLegacy(grammar, name, Split(e.value))
  }

  /** The entry's k-th name makes activation accept the entry for the subject. */
  predicate Mentions(grammar: Grammar, e: Entry, k: int, x: Subject) {
    && e.managed && e.representable && 0 <= k < |e.names|
    && match x {
         case OfScalar(n) =>
           e.kind == AssignmentEntry && e.category in {EnvironmentCategory, SecretsCategory} && e.names == [n] &&
             Usable(e)
         case OfList(n) => WritesList(grammar, e, n)
         case OfAlias(n) => e.kind == AliasEntry && e.names == [n] && SymbolText(n) && Usable(e)
         case OfFunction(n) =>
           e.kind == FunctionEntry && e.functionBody.Some? && e.names[k] == n &&
             forall m | m in e.names :: SymbolText(m)
         case OfOption(n) =>
           e.kind == CommandEntry && e.category == OptionsCategory && e.command in {"setopt", "unsetopt"}
           && e.names[k] == n && OptionText(n)
       }
  }

  ghost predicate Accepts(grammar: Grammar, e: Entry, x: Subject) { exists k :: Mentions(grammar, e, k, x) }

  /** The i-th entry is the last one accepted for the subject. */
  ghost predicate LastAccepted(grammar: Grammar, entries: seq<Entry>, x: Subject, i: int) {
    && 0 <= i < |entries| && Accepts(grammar, entries[i], x)
    && forall j | i < j < |entries| :: !Accepts(grammar, entries[j], x)
  }

  /** The entry mentions y after its last mention of x. */
  ghost predicate MentionsAfter(grammar: Grammar, e: Entry, x: Subject, y: Subject) {
    exists k | Mentions(grammar, e, k, y) :: forall l | k <= l :: !Mentions(grammar, e, l, x)
  }

  /** The last mention of x comes before the last mention of y. */
  ghost predicate Earlier(grammar: Grammar, entries: seq<Entry>, x: Subject, y: Subject) {
    exists i | 0 <= i < |entries| ::
      MentionsAfter(grammar, entries[i], x, y) && forall j | i < j < |entries| :: !Accepts(grammar, entries[j], x)
  }

  // ---------------------------------------------------------------- contributions, flattened

  function Flat<T>(f: Entry -> seq<T>, entries: seq<Entry>): seq<T> {
    if entries == [] then [] else Flat(f, entries[..|entries| - 1]) + f(entries[|entries| - 1])
  }

  ghost predicate LastIn<T(!new), K(!new)>(key: T -> K, s: seq<T>, x: T) {
    exists i | 0 <= i < |s| :: s[i] == x && forall j | i < j < |s| :: key(s[j]) != key(x)
  }

  /** The last element with key `a` comes before the last one with key `b`. */
  ghost predicate Before<T(!new), K(!new)>(key: T -> K, s: seq<T>, a: K, b: K) {
    exists l | 0 <= l < |s| :: key(s[l]) == b && forall k | l <= k < |s| :: key(s[k]) != a
  }

  lemma LastInConcat<T(!new), K(!new)>(key: T -> K, a: seq<T>, b: seq<T>, x: T)
    ensures LastIn(key, a + b, x) <==> LastIn(key, b, x) || (LastIn(key, a, x) && key(x) !in Keys(key, b))
  {
    var s := a + b;
    if LastIn(key, s, x) {
      var i :| 0 <= i < |s| && s[i] == x && forall j | i < j < |s| :: key(s[j]) != key(x);
      forall j | 0 <= j < |b| && i < |a| + j
        ensures key(b[j]) != key(x)
      {
        assert s[|a| + j] == b[j];
      }
      if i < |a| {
        assert a[i] == x && forall j | i < j < |a| :: s[j] == a[j];
      } else {
        assert b[i - |a|] == x;
      }
    }
    if LastIn(key, b, x) {
      var i :| 0 <= i < |b| && b[i] == x && forall j | i < j < |b| :: key(b[j]) != key(x);
      assert s[|a| + i] == x;
    }
    if LastIn(key, a, x) && key(x) !in Keys(key, b) {
      var i :| 0 <= i < |a| && a[i] == x && forall j | i < j < |a| :: key(a[j]) != key(x);
      assert s[i] == x;
    }
  }

  lemma {:induction false} KeptIsLast<T(!new), K(!new)>(key: T -> K, s: seq<T>, x: T)
    ensures x in LastBy(key, s) <==> LastIn(key, s, x)
  {
    if s != [] {
      KeptIsLast(key, s[1..], x);
      LastInConcat(key, [s[0]], s[1..], x);
      assert s == [s[0]] + s[1..];
      assert LastIn(key, [s[0]], x) <==> x == s[0] by {
        assert [s[0]][0] == s[0];
      }
    }
  }

  ghost predicate NotAfter<T(!new), K(!new)>(f: Entry -> seq<T>, key: T -> K, entries: seq<Entry>, k: K, i: int)
    requires 0 <= i < |entries|
  {
    forall j | i < j < |entries| :: k !in Keys(key, f(entries[j]))
  }

  /** The i-th entry contributes the element and nothing of its key comes later. */
  ghost predicate GivesLast<T(!new), K(!new)>(f: Entry -> seq<T>, key: T -> K, entries: seq<Entry>, x: T, i: int) {
    0 <= i < |entries| && LastIn(key, f(entries[i]), x) && NotAfter(f, key, entries, key(x), i)
  }

  lemma NotAfterFront<T(!new), K(!new)>(f: Entry -> seq<T>, key: T -> K, entries: seq<Entry>, k: K, i: nat)
    requires i < |entries| - 1
    ensures entries[..|entries| - 1][i] == entries[i]
    ensures NotAfter(f, key, entries, k, i) <==>
            NotAfter(f, key, entries[..|entries| - 1], k, i) && k !in Keys(key, f(entries[|entries| - 1]))
  {
    var front := entries[..|entries| - 1];
    assert forall j | 0 <= j < |front| :: front[j] == entries[j];
    hide Keys;
  }

  /** An element is kept exactly when the last entry contributing its key contributes it last. */
  lemma {:induction false} FlatKeeps<T(!new), K(!new)>(f: Entry -> seq<T>, key: T -> K, entries: seq<Entry>, x: T)
    ensures LastIn(key, Flat(f, entries), x) <==> exists i :: GivesLast(f, key, entries, x, i)
  {
    if entries != [] {
      var n := |entries| - 1;
      var front := entries[..n];
      FlatKeeps(f, key, front, x);
      LastInConcat(key, Flat(f, front), f(entries[n]), x);
      FlatKeepsSnoc(f, key, entries, x);
    }
  }

  lemma FlatKeepsSnoc<T(!new), K(!new)>(f: Entry -> seq<T>, key: T -> K, entries: seq<Entry>, x: T)
    requires entries != []
    ensures var n := |entries| - 1;
            (exists i :: GivesLast(f, key, entries, x, i)) <==>
            LastIn(key, f(entries[n]), x) ||
            ((exists i :: GivesLast(f, key, entries[..n], x, i)) && key(x) !in Keys(key, f(entries[n])))
  {
    hide LastIn, Keys;
    var n := |entries| - 1;
    forall i | 0 <= i < n
      ensures GivesLast(f, key, entries, x, i) <==>
              GivesLast(f, key, entries[..n], x, i) && key(x) !in Keys(key, f(entries[n]))
    {
      NotAfterFront(f, key, entries, key(x), i);
    }
    assert GivesLast(f, key, entries, x, n) <==> LastIn(key, f(entries[n]), x);
  }

  lemma {:induction false} KeptInOrder<T(!new), K(!new)>(key: T -> K, s: seq<T>, p: nat, q: nat)
    requires p < q < |LastBy(key, s)|
    ensures Before(key, s, key(LastBy(key, s)[p]), key(LastBy(key, s)[q]))
  {
    var rest := s[1..];
    var kept := LastBy(key, rest);
    if key(s[0]) in Keys(key, rest) {
      assert LastBy(key, s) == kept;
      hide Before, Keys, LastBy;
      KeptInOrder(key, rest, p, q);
      Later(key, s, key(kept[p]), key(kept[q]));
    } else {
      assert LastBy(key, s) == [s[0]] + kept;
      assert LastBy(key, s)[q] == kept[q - 1];
      assert LastBy(key, s)[p] == if p == 0 then s[0] else kept[p - 1];
      hide Before, LastBy;
      if p > 0 {
        KeptInOrder(key, rest, p - 1, q - 1);
        Later(key, s, key(kept[p - 1]), key(kept[q - 1]));
      } else {
        FirstIsEarlier(key, s, q - 1);
      }
    }
  }

  lemma FirstIsEarlier<T(!new), K(!new)>(key: T -> K, s: seq<T>, q: nat)
    requires s != [] && key(s[0]) !in Keys(key, s[1..]) && q < |LastBy(key, s[1..])|
    ensures Before(key, s, key(s[0]), key(LastBy(key, s[1..])[q]))
  {
    var rest := s[1..];
    var x := LastBy(key, rest)[q];
    LastByMembers(key, rest);
    assert x in LastBy(key, rest);
    hide LastBy;
    var l :| 0 <= l < |rest| && rest[l] == x;
    assert s[l + 1] == x;
    forall k | l + 1 <= k < |s|
      ensures key(s[k]) != key(s[0])
    {
      assert s[k] == rest[k - 1];
    }
  }

  lemma Later<T(!new), K(!new)>(key: T -> K, s: seq<T>, a: K, b: K)
    requires s != [] && Before(key, s[1..], a, b)
    ensures Before(key, s, a, b)
  {
    var l :| 0 <= l < |s[1..]| && key(s[1..][l]) == b && forall k | l <= k < |s[1..]| :: key(s[1..][k]) != a;
    assert key(s[l + 1]) == b;
    forall k | l + 1 <= k < |s|
      ensures key(s[k]) != a
    {
      assert s[k] == s[1..][k - 1];
    }
  }

  /** The i-th entry has `b` after its last `a`, and no later entry has `a`. */
  ghost predicate GivesBefore<T(!new), K(!new)>(f: Entry -> seq<T>, key: T -> K, entries: seq<Entry>, a: K, b: K,
                                                i: int)
  {
    0 <= i < |entries| && Before(key, f(entries[i]), a, b) && NotAfter(f, key, entries, a, i)
  }

  lemma BeforeConcat<T(!new), K(!new)>(key: T -> K, s: seq<T>, t: seq<T>, a: K, b: K)
    requires Before(key, s + t, a, b)
    ensures Before(key, t, a, b) || (Before(key, s, a, b) && a !in Keys(key, t))
  {
    var u := s + t;
    var l :| 0 <= l < |u| && key(u[l]) == b && forall k | l <= k < |u| :: key(u[k]) != a;
    forall k | 0 <= k < |t| && l <= |s| + k
      ensures key(t[k]) != a
    {
      assert u[|s| + k] == t[k];
    }
    if l < |s| {
      assert key(s[l]) == b && forall k | l <= k < |s| :: u[k] == s[k];
    } else {
      assert t[l - |s|] == u[l];
    }
  }

  lemma {:induction false} FlatBefore<T(!new), K(!new)>(f: Entry -> seq<T>, key: T -> K, entries: seq<Entry>, a: K,
                                                        b: K)
    requires Before(key, Flat(f, entries), a, b)
    ensures exists i :: GivesBefore(f, key, entries, a, b, i)
  {
    var n := |entries| - 1;
    var front := entries[..n];
    BeforeConcat(key, Flat(f, front), f(entries[n]), a, b);
    if Before(key, f(entries[n]), a, b) {
      assert GivesBefore(f, key, entries, a, b, n);
    } else {
      FlatBefore(f, key, front, a, b);
      var i :| GivesBefore(f, key, front, a, b, i);
      NotAfterFront(f, key, entries, a, i);
      assert GivesBefore(f, key, entries, a, b, i);
    }
  }

  lemma {:induction false} FlatHas<T(!new)>(f: Entry -> seq<T>, entries: seq<Entry>, x: T)
    ensures x in Flat(f, entries) <==> exists i | 0 <= i < |entries| :: x in f(entries[i])
  {
    if entries != [] {
      var n := |entries| - 1;
      FlatHas(f, entries[..n], x);
      assert forall i | 0 <= i < n :: entries[..n][i] == entries[i];
    }
  }

  lemma KeyIsLast<T(!new), K(!new)>(key: T -> K, s: seq<T>, k: K)
    requires k in Keys(key, s)
    ensures exists x :: key(x) == k && LastIn(key, s, x)
  {
    LastByKeys(key, s);
    var i :| 0 <= i < |LastBy(key, s)| && key(LastBy(key, s)[i]) == k;
    KeptIsLast(key, s, LastBy(key, s)[i]);
  }

  /** The entry's contribution under a key is there exactly when the entry is accepted for the subject. */
  ghost predicate Tells<T(!new), K(!new)>(f: Entry -> seq<T>, key: T -> K, grammar: Grammar, k: K, x: Subject) {
    forall e :: k in Keys(key, f(e)) <==> Accepts(grammar, e, x)
  }

  /** Where the last contribution comes from, told by the subject it is about. */
  lemma GivesLastTells<T(!new), K(!new)>(f: Entry -> seq<T>, key: T -> K, grammar: Grammar, entries: seq<Entry>, x: T,
                                         subject: Subject)
    requires Tells(f, key, grammar, key(x), subject)
    ensures x in LastBy(key, Flat(f, entries)) <==>
            exists i :: LastAccepted(grammar, entries, subject, i) && LastIn(key, f(entries[i]), x)
  {
    KeptIsLast(key, Flat(f, entries), x);
    FlatKeeps(f, key, entries, x);
    hide LastBy, Flat, Accepts;
    forall i | 0 <= i < |entries|
      ensures LastIn(key, f(entries[i]), x) ==> key(x) in Keys(key, f(entries[i]))
      ensures LastAccepted(grammar, entries, subject, i) <==>
              key(x) in Keys(key, f(entries[i])) && NotAfter(f, key, entries, key(x), i)
    {
    }
    hide Tells, LastIn, Keys, NotAfter, LastAccepted;
    assert forall i :: GivesLast(f, key, entries, x, i) <==>
                       LastAccepted(grammar, entries, subject, i) && LastIn(key, f(entries[i]), x) by {
      forall i
        ensures GivesLast(f, key, entries, x, i) <==>
                LastAccepted(grammar, entries, subject, i) && LastIn(key, f(entries[i]), x)
      {
        LastAcceptedBounds(grammar, entries, subject, i);
      }
    }
  }

  ghost predicate Ordered<T(!new), K(!new)>(f: Entry -> seq<T>, key: T -> K, grammar: Grammar, a: K, b: K, x: Subject,
                                            y: Subject)
  {
    forall e | Before(key, f(e), a, b) :: MentionsAfter(grammar, e, x, y)
  }

  /** The kept elements follow the last mentions of their subjects. */
  lemma KeptEarlier<T(!new), K(!new)>(f: Entry -> seq<T>, key: T -> K, grammar: Grammar, entries: seq<Entry>, p: nat,
                                      q: nat, x: Subject, y: Subject)
    requires p < q < |LastBy(key, Flat(f, entries))|
    requires var a, b := key(LastBy(key, Flat(f, entries))[p]), key(LastBy(key, Flat(f, entries))[q]);
             Tells(f, key, grammar, a, x) && Ordered(f, key, grammar, a, b, x, y)
    ensures Earlier(grammar, entries, x, y)
  {
    var a, b := key(LastBy(key, Flat(f, entries))[p]), key(LastBy(key, Flat(f, entries))[q]);
    KeptInOrder(key, Flat(f, entries), p, q);
    FlatBefore(f, key, entries, a, b);
    var i :| GivesBefore(f, key, entries, a, b, i);
    hide LastBy, Flat, Accepts, Before, MentionsAfter;
    assert MentionsAfter(grammar, entries[i], x, y);
    forall j | i < j < |entries|
      ensures !Accepts(grammar, entries[j], x)
    {
      assert a !in Keys(key, f(entries[j]));
    }
  }

  lemma LastAcceptedBounds(grammar: Grammar, entries: seq<Entry>, x: Subject, i: int)
    ensures LastAccepted(grammar, entries, x, i) ==> 0 <= i < |entries|
  {
  }

  // ---------------------------------------------------------------- options

  lemma {:induction false} OptionsHave(names: seq<string>, enabled: bool, o: OptionSet)
    ensures o in OptionsOf(names, enabled) <==> o.name in names && OptionText(o.name) && o.enabled == enabled
  {
    if names != [] {
      var n := |names| - 1;
      OptionsHave(names[..n], enabled, o);
      assert names == names[..n] + [names[n]];
      hide OptionText;
    }
  }

  lemma {:induction false} OptionsInOrder(names: seq<string>, enabled: bool, a: string, b: string)
    requires Before(OptionName, OptionsOf(names, enabled), a, b)
    ensures exists k | 0 <= k < |names| :: names[k] == b && OptionText(b) &&
                                           forall l | k <= l < |names| :: names[l] != a || !OptionText(a)
  {
    hide OptionText;
    var n := |names| - 1;
    var last := if OptionText(names[n]) then [OptionSet(names[n], enabled)] else [];
    BeforeConcat(OptionName, OptionsOf(names[..n], enabled), last, a, b);
    assert OptionText(names[n]) ==> OptionName(last[0]) == names[n];
    if Before(OptionName, last, a, b) {
      assert names[n] == b;
    } else {
      OptionsInOrder(names[..n], enabled, a, b);
      var k :| 0 <= k < n && names[..n][k] == b && OptionText(b) &&
        forall l | k <= l < n :: names[..n][l] != a || !OptionText(a);
      assert names[k] == b;
      forall l | k <= l < |names|
        ensures names[l] != a || !OptionText(a)
      {
        assert l < n ==> names[..n][l] == names[l];
      }
    }
  }

  lemma OptionTells(grammar: Grammar, n: string)
    ensures Tells(OptionSetsOf, OptionName, grammar, n, OfOption(n))
    ensures forall e, on :: LastIn(OptionName, OptionSetsOf(e), OptionSet(n, on)) <==>
                            Accepts(grammar, e, OfOption(n)) && (on <==> e.command == "setopt")
  {
    forall e: Entry
      ensures n in Keys(OptionName, OptionSetsOf(e)) <==> Accepts(grammar, e, OfOption(n))
      ensures forall on :: LastIn(OptionName, OptionSetsOf(e), OptionSet(n, on)) <==>
                           Accepts(grammar, e, OfOption(n)) && (on <==> e.command == "setopt")
    {
      OptionEntry(grammar, e, n);
    }
  }

  lemma OptionEntry(grammar: Grammar, e: Entry, n: string)
    ensures n in Keys(OptionName, OptionSetsOf(e)) <==> Accepts(grammar, e, OfOption(n))
    ensures forall on :: LastIn(OptionName, OptionSetsOf(e), OptionSet(n, on)) <==>
                         Accepts(grammar, e, OfOption(n)) && (on <==> e.command == "setopt")
  {
    var s := OptionSetsOf(e);
    forall o: OptionSet
      ensures o in s && o.name == n <==>
              Accepts(grammar, e, OfOption(n)) && o == OptionSet(n, e.command == "setopt")
    {
      OptionsHave(e.names, e.command == "setopt", o);
      if Accepts(grammar, e, OfOption(n)) {
        var k :| Mentions(grammar, e, k, OfOption(n));
        assert e.names[k] == n;
      }
      if n in e.names {
        var k :| 0 <= k < |e.names| && e.names[k] == n;
        assert Mentions(grammar, e, k, OfOption(n)) || o !in s || !OptionText(n);
      }
    }
    OneValue(OptionName, s, n, OptionSet(n, e.command == "setopt"), Accepts(grammar, e, OfOption(n)));
  }

  /** A sequence that has one element at most under a key. */
  lemma OneValue<T(!new), K(!new)>(key: T -> K, s: seq<T>, k: K, only: T, has: bool)
    requires key(only) == k && forall x :: x in s && key(x) == k <==> has && x == only
    ensures k in Keys(key, s) <==> has
    ensures forall x | key(x) == k :: LastIn(key, s, x) <==> has && x == only
  {
    if k in Keys(key, s) {
      KeyIsLast(key, s, k);
      var x :| key(x) == k && LastIn(key, s, x);
      assert x in s;
    }
    if has {
      assert only in s;
    }
  }

  lemma {:induction false} FlatOptions(entries: seq<Entry>)
    ensures OptionSets(entries) == Flat(OptionSetsOf, entries)
  {
    if entries != [] {
      FlatOptions(entries[..|entries| - 1]);
    }
  }

  lemma OptionOrder(grammar: Grammar, a: string, b: string)
    ensures Ordered(OptionSetsOf, OptionName, grammar, a, b, OfOption(a), OfOption(b))
  {
    forall e: Entry | Before(OptionName, OptionSetsOf(e), a, b)
      ensures MentionsAfter(grammar, e, OfOption(a), OfOption(b))
    {
      OptionsInOrder(e.names, e.command == "setopt", a, b);
      var k :| 0 <= k < |e.names| && e.names[k] == b && OptionText(b) &&
        forall l | k <= l < |e.names| :: e.names[l] != a || !OptionText(a);
      hide OptionText;
      assert Mentions(grammar, e, k, OfOption(b));
    }
  }

  /**
   * A built manifest holds an option exactly as the last active options command naming it says:
   * on after setopt, off after unsetopt; and the options follow their last mentions.
   */
  lemma OptionsMean(grammar: Grammar, entries: seq<Entry>, m: Manifest)
    requires Built(grammar, entries, m)
    ensures forall n, on :: OptionSet(n, on) in m.options <==>
                            exists i :: LastAccepted(grammar, entries, OfOption(n), i) &&
                                        (on <==> entries[i].command == "setopt")
    ensures forall p, q | 0 <= p < q < |m.options| ::
              Earlier(grammar, entries, OfOption(m.options[p].name), OfOption(m.options[q].name))
  {
    FlatOptions(entries);
    hide OptionSets, Flat, Scalars, Assignments, Aliases, FunctionNames, Bodies, ListsBuilt, LastBy, Accepts, LastIn;
    forall n, on
      ensures OptionSet(n, on) in m.options <==>
              exists i :: LastAccepted(grammar, entries, OfOption(n), i) && (on <==> entries[i].command == "setopt")
    {
      OptionTells(grammar, n);
      GivesLastTells(OptionSetsOf, OptionName, grammar, entries, OptionSet(n, on), OfOption(n));
    }
    forall p, q | 0 <= p < q < |m.options|
      ensures Earlier(grammar, entries, OfOption(m.options[p].name), OfOption(m.options[q].name))
    {
      var a, b := m.options[p].name, m.options[q].name;
      OptionTells(grammar, a);
      OptionOrder(grammar, a, b);
      KeptEarlier(OptionSetsOf, OptionName, grammar, entries, p, q, OfOption(a), OfOption(b));
    }
  }

  // ---------------------------------------------------------------- scalars

  /** Some accepted entry of the name was an export. */
  ghost predicate WasExported(grammar: Grammar, entries: seq<Entry>, n: string) {
    exists j | 0 <= j < |entries| :: Accepts(grammar, entries[j], OfScalar(n)) && entries[j].exported
  }

  lemma ScalarEntry(grammar: Grammar, e: Entry, y: Scalar)
    ensures Accepts(grammar, e, OfScalar(y.name)) <==> Mentions(grammar, e, 0, OfScalar(y.name))
    ensures y in ScalarsOf(e) <==>
            Accepts(grammar, e, OfScalar(y.name)) && Carries(e, y.applied, y.dynamic) && y.exported == Some(e.exported)
    ensures y.name in Keys(ScalarName, ScalarsOf(e)) <==> Accepts(grammar, e, OfScalar(y.name))
    ensures LastIn(ScalarName, ScalarsOf(e), y) <==> y in ScalarsOf(e)
  {
    var s := ScalarsOf(e);
    assert |s| <= 1;
    if Mentions(grammar, e, 0, OfScalar(y.name)) {
      assert ScalarName(s[0]) == y.name;
    }
  }

  lemma ScalarTells(grammar: Grammar, n: string)
    ensures Tells(ScalarsOf, ScalarName, grammar, n, OfScalar(n))
    ensures forall e, y: Scalar | y.name == n ::
              LastIn(ScalarName, ScalarsOf(e), y) <==>
              Accepts(grammar, e, OfScalar(n)) && Carries(e, y.applied, y.dynamic) && y.exported == Some(e.exported)
  {
    forall e, y: Scalar | y.name == n
      ensures n in Keys(ScalarName, ScalarsOf(e)) <==> Accepts(grammar, e, OfScalar(n))
      ensures LastIn(ScalarName, ScalarsOf(e), y) <==>
              Accepts(grammar, e, OfScalar(n)) && Carries(e, y.applied, y.dynamic) && y.exported == Some(e.exported)
    {
      ScalarEntry(grammar, e, y);
    }
    assert Scalar(n, "", false, None).name == n;
  }

  lemma ScalarOrder(grammar: Grammar, a: string, b: string)
    requires a != b
    ensures Ordered(ScalarsOf, ScalarName, grammar, a, b, OfScalar(a), OfScalar(b))
  {
    forall e: Entry | Before(ScalarName, ScalarsOf(e), a, b)
      ensures MentionsAfter(grammar, e, OfScalar(a), OfScalar(b))
    {
      var l :| 0 <= l < |ScalarsOf(e)| && ScalarName(ScalarsOf(e)[l]) == b;
      assert Mentions(grammar, e, 0, OfScalar(b));
    }
  }

  lemma {:induction false} FlatScalars(entries: seq<Entry>)
    ensures Scalars(entries) == Flat(ScalarsOf, entries)
  {
    if entries != [] {
      FlatScalars(entries[..|entries| - 1]);
    }
  }

  lemma ExportsTold(grammar: Grammar, entries: seq<Entry>, n: string)
    ensures ExportedIn(Scalars(entries), n) <==> WasExported(grammar, entries, n)
  {
    var s := Scalars(entries);
    FlatScalars(entries);
    if ExportedIn(s, n) {
      var i :| 0 <= i < |s| && s[i].name == n && s[i].exported == Some(true);
      FlatHas(ScalarsOf, entries, s[i]);
      var j :| 0 <= j < |entries| && s[i] in ScalarsOf(entries[j]);
      ScalarEntry(grammar, entries[j], s[i]);
    }
    if WasExported(grammar, entries, n) {
      var j :| 0 <= j < |entries| && Accepts(grammar, entries[j], OfScalar(n)) && entries[j].exported;
      ScalarEntry(grammar, entries[j], Scalar(n, "", false, None));
      var y := ScalarsOf(entries[j])[0];
      FlatHas(ScalarsOf, entries, y);
      assert y in s;
    }
  }

  lemma EnvHas(entries: seq<Entry>, z: Scalar)
    ensures z in NormalScalars(Scalars(entries)) <==>
            z.exported == Some(ExportedIn(Scalars(entries), z.name)) &&
            exists y | y in LastBy(ScalarName, Scalars(entries)) ::
              y.name == z.name && y.applied == z.applied && y.dynamic == z.dynamic
  {
    var s := Scalars(entries);
    var last := LastBy(ScalarName, s);
    ScalarsMarked(entries);
    LastByMembers(ScalarName, s);
    forall i | 0 <= i < |last|
      ensures Stamped(s, last)[i] == last[i].(exported := Some(ExportedIn(s, last[i].name)))
    {
      assert last[i] in s;
      var j :| 0 <= j < |s| && s[j] == last[i];
      assert ExplicitIn(s, s[j].name);
    }
    hide LastBy, ExportedIn, Scalars, Stamp;
    if z.exported == Some(ExportedIn(s, z.name)) {
      if y :| y in last && y.name == z.name && y.applied == z.applied && y.dynamic == z.dynamic {
        var i :| 0 <= i < |last| && last[i] == y;
        assert Stamped(s, last)[i] == z;
      }
    }
  }

  /**
   * A built manifest holds a variable exactly as its last accepted entry says, exported once
   * any accepted entry exported it; and the variables follow their last entries.
   */
  lemma ScalarsMean(grammar: Grammar, entries: seq<Entry>, m: Manifest)
    requires Built(grammar, entries, m)
    ensures forall z: Scalar :: z in m.env <==>
                                z.exported == Some(WasExported(grammar, entries, z.name)) &&
                                exists i :: LastAccepted(grammar, entries, OfScalar(z.name), i) &&
                                            Carries(entries[i], z.applied, z.dynamic)
    ensures forall p, q | 0 <= p < q < |m.env| ::
              Earlier(grammar, entries, OfScalar(m.env[p].name), OfScalar(m.env[q].name))
  {
    FlatScalars(entries);
    hide OptionSets, Flat, Scalars, Assignments, Aliases, FunctionNames, Bodies, ListsBuilt, LastBy, Accepts, LastIn;
    hide ExportedIn, WasExported, Carries, Stamp;
    forall z: Scalar
      ensures z in m.env <==>
              z.exported == Some(WasExported(grammar, entries, z.name)) &&
              exists i :: LastAccepted(grammar, entries, OfScalar(z.name), i) &&
                          Carries(entries[i], z.applied, z.dynamic)
    {
      EnvHas(entries, z);
      ExportsTold(grammar, entries, z.name);
      ScalarLast(grammar, entries, z.name, z.applied, z.dynamic);
    }
    forall p, q | 0 <= p < q < |m.env|
      ensures Earlier(grammar, entries, OfScalar(m.env[p].name), OfScalar(m.env[q].name))
    {
      EnvOrder(grammar, entries, p, q);
    }
  }

  lemma ScalarLast(grammar: Grammar, entries: seq<Entry>, n: string, text: string, late: bool)
    ensures (exists y | y in LastBy(ScalarName, Scalars(entries)) ::
               (y.name == n && y.applied == text && y.dynamic == late)) <==>
            exists i :: LastAccepted(grammar, entries, OfScalar(n), i) && Carries(entries[i], text, late)
  {
    FlatScalars(entries);
    ScalarTells(grammar, n);
    hide LastBy, Flat, Scalars, Accepts, LastIn, Carries, Tells;
    if y :| y in LastBy(ScalarName, Scalars(entries)) && y.name == n && y.applied == text && y.dynamic == late {
      GivesLastTells(ScalarsOf, ScalarName, grammar, entries, y, OfScalar(n));
    }
    if i :| LastAccepted(grammar, entries, OfScalar(n), i) && Carries(entries[i], text, late) {
      var y := Scalar(n, text, late, Some(entries[i].exported));
      GivesLastTells(ScalarsOf, ScalarName, grammar, entries, y, OfScalar(n));
    }
  }

  lemma EnvOrder(grammar: Grammar, entries: seq<Entry>, p: nat, q: nat)
    requires p < q < |NormalScalars(Scalars(entries))|
    ensures var env := NormalScalars(Scalars(entries));
            Earlier(grammar, entries, OfScalar(env[p].name), OfScalar(env[q].name))
  {
    FlatScalars(entries);
    var last := LastBy(ScalarName, Scalars(entries));
    LastByUnique(ScalarName, Scalars(entries));
    var a, b := last[p].name, last[q].name;
    assert ScalarName(last[p]) != ScalarName(last[q]);
    ScalarTells(grammar, a);
    ScalarOrder(grammar, a, b);
    hide LastBy, Flat, Scalars, Tells, Ordered, Earlier;
    KeptEarlier(ScalarsOf, ScalarName, grammar, entries, p, q, OfScalar(a), OfScalar(b));
  }

  // ---------------------------------------------------------------- aliases and functions

  predicate MapsTo<V(==)>(m: map<string, V>, n: string, v: V) { n in m && m[n] == v }

  lemma LastAcceptedFront(grammar: Grammar, entries: seq<Entry>, x: Subject)
    requires entries != []
    ensures var n := |entries| - 1;
            && (LastAccepted(grammar, entries, x, n) <==> Accepts(grammar, entries[n], x))
            && forall i: nat | i < n :: LastAccepted(grammar, entries, x, i) <==>
                                        LastAccepted(grammar, entries[..n], x, i) && !Accepts(grammar, entries[n], x)
  {
    var n := |entries| - 1;
    var front := entries[..n];
    assert forall i | 0 <= i < n :: front[i] == entries[i];
    hide Accepts;
  }

  lemma {:induction false} AliasesTold(grammar: Grammar, entries: seq<Entry>, n: string, text: string, late: bool)
    ensures MapsTo(Aliases(entries), n, (text, late)) <==>
            exists i :: LastAccepted(grammar, entries, OfAlias(n), i) && Carries(entries[i], text, late)
  {
    if entries != [] {
      var k := |entries| - 1;
      var front, e := entries[..k], entries[k];
      AliasesTold(grammar, front, n, text, late);
      AliasTells(grammar, e, n);
      LastAcceptedFront(grammar, entries, OfAlias(n));
      assert forall i | 0 <= i < k :: front[i] == entries[i];
      hide Accepts, Carries, AliasOf, LastAccepted;
      forall i
        ensures LastAccepted(grammar, entries, OfAlias(n), i) ==> 0 <= i < |entries|
        ensures LastAccepted(grammar, front, OfAlias(n), i) ==> 0 <= i < |front|
      {
        LastAcceptedBounds(grammar, entries, OfAlias(n), i);
        LastAcceptedBounds(grammar, front, OfAlias(n), i);
      }
    }
  }

  lemma AliasTells(grammar: Grammar, e: Entry, n: string)
    ensures n in AliasOf(e) <==> Accepts(grammar, e, OfAlias(n))
    ensures n in AliasOf(e) ==> forall text, late :: AliasOf(e)[n] == (text, late) <==> Carries(e, text, late)
  {
    hide SymbolText;
    if n in AliasOf(e) {
      assert Mentions(grammar, e, 0, OfAlias(n));
    }
  }

  /** A built manifest holds an alias exactly as its last accepted entry says. */
  lemma AliasesMean(grammar: Grammar, entries: seq<Entry>, m: Manifest)
    requires Built(grammar, entries, m)
    ensures forall n, v :: MapsTo(m.aliases, n, v) <==>
                           exists i :: LastAccepted(grammar, entries, OfAlias(n), i) && Carries(entries[i], v.0, v.1)
  {
    hide OptionSets, Scalars, Assignments, Aliases, FunctionNames, Bodies, ListsBuilt, LastBy, Accepts, Carries;
    forall n, v
      ensures MapsTo(m.aliases, n, v) <==>
              exists i :: LastAccepted(grammar, entries, OfAlias(n), i) && Carries(entries[i], v.0, v.1)
    {
      AliasesTold(grammar, entries, n, v.0, v.1);
    }
  }

  lemma FunctionTells(grammar: Grammar, e: Entry, n: string)
    ensures n in FunctionsOf(e) <==> Accepts(grammar, e, OfFunction(n))
    ensures n in BodiesOf(e, FunctionsOf(e)) <==> Accepts(grammar, e, OfFunction(n))
    ensures n in BodiesOf(e, FunctionsOf(e)) ==> Some(BodiesOf(e, FunctionsOf(e))[n]) == e.functionBody
  {
    hide SymbolText;
    if n in FunctionsOf(e) {
      var k :| 0 <= k < |e.names| && e.names[k] == n;
      assert Mentions(grammar, e, k, OfFunction(n));
    }
    if Accepts(grammar, e, OfFunction(n)) {
      var k :| Mentions(grammar, e, k, OfFunction(n));
      assert e.names[k] == n;
    }
  }

  lemma FunctionNameTells(grammar: Grammar, n: string)
    ensures Tells(FunctionsOf, Self, grammar, n, OfFunction(n))
    ensures forall e :: LastIn(Self, FunctionsOf(e), n) <==> Accepts(grammar, e, OfFunction(n))
  {
    forall e: Entry
      ensures n in Keys(Self, FunctionsOf(e)) <==> Accepts(grammar, e, OfFunction(n))
      ensures LastIn(Self, FunctionsOf(e), n) <==> Accepts(grammar, e, OfFunction(n))
    {
      FunctionTells(grammar, e, n);
      hide Accepts;
      OneValue(Self, FunctionsOf(e), n, n, n in FunctionsOf(e));
    }
  }

  lemma FunctionOrder(grammar: Grammar, a: string, b: string)
    ensures Ordered(FunctionsOf, Self, grammar, a, b, OfFunction(a), OfFunction(b))
  {
    forall e: Entry | Before(Self, FunctionsOf(e), a, b)
      ensures MentionsAfter(grammar, e, OfFunction(a), OfFunction(b))
    {
      var s := FunctionsOf(e);
      var k :| 0 <= k < |s| && Self(s[k]) == b && forall l | k <= l < |s| :: Self(s[l]) != a;
      hide SymbolText;
      assert Mentions(grammar, e, k, OfFunction(b));
    }
  }

  lemma {:induction false} FlatFunctions(entries: seq<Entry>)
    ensures FunctionNames(entries) == Flat(FunctionsOf, entries)
  {
    if entries != [] {
      FlatFunctions(entries[..|entries| - 1]);
    }
  }

  lemma {:induction false} BodiesTold(grammar: Grammar, entries: seq<Entry>, n: string, body: string)
    ensures MapsTo(Bodies(entries), n, body) <==>
            exists i :: LastAccepted(grammar, entries, OfFunction(n), i) && entries[i].functionBody == Some(body)
  {
    if entries != [] {
      var k := |entries| - 1;
      var front, e := entries[..k], entries[k];
      BodiesTold(grammar, front, n, body);
      FunctionTells(grammar, e, n);
      LastAcceptedFront(grammar, entries, OfFunction(n));
      assert forall i | 0 <= i < k :: front[i] == entries[i];
      hide Accepts, BodiesOf, FunctionsOf, LastAccepted;
      forall i
        ensures LastAccepted(grammar, entries, OfFunction(n), i) ==> 0 <= i < |entries|
        ensures LastAccepted(grammar, front, OfFunction(n), i) ==> 0 <= i < |front|
      {
        LastAcceptedBounds(grammar, entries, OfFunction(n), i);
        LastAcceptedBounds(grammar, front, OfFunction(n), i);
      }
    }
  }

  /**
   * A built manifest declares exactly the functions some accepted entry declares, each with the
   * body of its last accepted entry; and the names follow their last mentions.
   */
  lemma FunctionsMean(grammar: Grammar, entries: seq<Entry>, m: Manifest)
    requires Built(grammar, entries, m)
    ensures forall n :: n in m.functions <==> exists i :: LastAccepted(grammar, entries, OfFunction(n), i)
    ensures forall n, body :: MapsTo(m.bodies, n, body) <==>
                              exists i :: LastAccepted(grammar, entries, OfFunction(n), i) &&
                                          entries[i].functionBody == Some(body)
    ensures forall p, q | 0 <= p < q < |m.functions| ::
              Earlier(grammar, entries, OfFunction(m.functions[p]), OfFunction(m.functions[q]))
  {
    FlatFunctions(entries);
    hide OptionSets, Flat, Scalars, Assignments, Aliases, FunctionNames, Bodies, ListsBuilt, LastBy, Accepts, LastIn;
    forall n
      ensures n in m.functions <==> exists i :: LastAccepted(grammar, entries, OfFunction(n), i)
    {
      FunctionNameTells(grammar, n);
      GivesLastTells(FunctionsOf, Self, grammar, entries, n, OfFunction(n));
    }
    forall n, body
      ensures MapsTo(m.bodies, n, body) <==>
              exists i :: LastAccepted(grammar, entries, OfFunction(n), i) && entries[i].functionBody == Some(body)
    {
      BodiesTold(grammar, entries, n, body);
    }
    forall p, q | 0 <= p < q < |m.functions|
      ensures Earlier(grammar, entries, OfFunction(m.functions[p]), OfFunction(m.functions[q]))
    {
      var a, b := m.functions[p], m.functions[q];
      FunctionNameTells(grammar, a);
      FunctionOrder(grammar, a, b);
      KeptEarlier(FunctionsOf, Self, grammar, entries, p, q, OfFunction(a), OfFunction(b));
    }
  }

  // ---------------------------------------------------------------- lists

  /** The elements a semantic value stands for in a shell whose list is `current`. */
  function SegmentElements(meaning: Meaning, segments: seq<Segment>, current: seq<string>): seq<string> {
    if segments == [] then []
    else
      var s := segments[0];
      (if s.self then current else if s.dynamic then meaning(s.source, true) else meaning(s.value, false))
      + SegmentElements(meaning, segments[1..], current)
  }

  /** The elements the parts of a historical text stand for. */
  function PartElements(meaning: Meaning, grammar: Grammar, name: string, parts: seq<string>, current: seq<string>)
    : seq<string>
  {
    if parts == [] then []
    else
      (if IsBase(name, parts[0]) then current else meaning(parts[0], grammar(parts[0]) == Some(true)))
      + PartElements(meaning, grammar, name, parts[1..], current)
  }

  /** The list after a shell has run the entry, if activation accepts it. */
  function AfterEntry(meaning: Meaning, grammar: Grammar, name: string, e: Entry, current: seq<string>): seq<string> {
    if !Mentions(grammar, e, 0, OfList(name)) then current
    else if e.listValue.Some? then SegmentElements(meaning, e.listValue.value, current)
    else PartElements(meaning, grammar, name, Split(e.value), current)
  }

  /** The list after a shell has run the accepted entries in source order. */
  function AfterEntries(meaning: Meaning, grammar: Grammar, name: string, entries: seq<Entry>, base: seq<string>)
    : seq<string>
  {
    if entries == [] then base
    else
      var n := |entries| - 1;
      AfterEntry(meaning, grammar, name, entries[n], AfterEntries(meaning, grammar, name, entries[..n], base))
  }

  lemma {:induction false} SegmentsExecute(meaning: Meaning, segments: seq<Segment>, current: seq<string>)
    ensures Execute(meaning, SegmentTokens(segments), current) == SegmentElements(meaning, segments, current)
  {
    if segments != [] {
      SegmentsExecute(meaning, segments[1..], current);
      assert SegmentTokens(segments)[1..] == SegmentTokens(segments[1..]);
    }
  }

  lemma {:induction false} PartsExecute(meaning: Meaning, grammar: Grammar, name: string, parts: seq<string>,
                                        current: seq<string>)
    ensures Execute(meaning, LegacyTokens(grammar, name, parts), current) ==
            PartElements(meaning, grammar, name, parts, current)
  {
    if parts != [] {
      PartsExecute(meaning, grammar, name, parts[1..], current);
      assert LegacyTokens(grammar, name, parts)[1..] == LegacyTokens(grammar, name, parts[1..]);
    }
  }

  lemma SpellsCanonical(raw: string, name: string)
    ensures Spells(raw, name) <==> name != "" && CanonicalList(raw) == name
  {
  }

  lemma RunSnoc(meaning: Meaning, grammar: Grammar, name: string, assignments: seq<Assignment>, more: seq<Assignment>,
                base: seq<string>)
    requires |more| <= 1
    ensures Lists.Run(meaning, grammar, name, assignments + more, base) ==
            Lists.Run(meaning, grammar, name, more, Lists.Run(meaning, grammar, name, assignments, base))
    ensures WrittenNames(grammar, assignments + more) == WrittenNames(grammar, assignments) +
            WrittenNames(grammar, more)
  {
    if more == [] {
      assert assignments + more == assignments;
      assert WrittenNames(grammar, assignments) + [] == WrittenNames(grammar, assignments);
    } else {
      assert (assignments + more)[..|assignments|] == assignments;
      assert more[..0] == [];
      hide Written, Execute;
      assert [] + WrittenNames(grammar, more) == WrittenNames(grammar, more);
    }
  }

  lemma EntryRuns(meaning: Meaning, grammar: Grammar, name: string, e: Entry, current: seq<string>)
    requires name != ""
    ensures Lists.Run(meaning, grammar, name, AssignmentsOf(e), current) ==
            AfterEntry(meaning, grammar, name, e, current)
    ensures WrittenNames(grammar, AssignmentsOf(e)) == [name] <==> Mentions(grammar, e, 0, OfList(name))
  {
    var s := AssignmentsOf(e);
    assert |s| <= 1;
    if s != [] {
      assert s[..0] == [];
      SpellsCanonical(e.names[0], name);
      hide CanonicalList, ValidList, AcceptsLegacy, Split, Execute, SegmentTokens, LegacyTokens;
      if e.listValue.Some? {
        SegmentsExecute(meaning, e.listValue.value, current);
      } else {
        PartsExecute(meaning, grammar, name, Split(e.value), current);
      }
      assert [] + [CanonicalList(e.names[0])] == [CanonicalList(e.names[0])];
    }
  }

  function ListNames(grammar: Grammar): Entry -> seq<string> { (e: Entry) => WrittenNames(grammar, AssignmentsOf(e)) }

  lemma {:induction false} ListsRun(meaning: Meaning, grammar: Grammar, name: string, entries: seq<Entry>,
                                    base: seq<string>)
    requires name != ""
    ensures Lists.Run(meaning, grammar, name, Assignments(entries), base) ==
            AfterEntries(meaning, grammar, name, entries, base)
  {
    if entries != [] {
      var n := |entries| - 1;
      ListsRun(meaning, grammar, name, entries[..n], base);
      RunSnoc(meaning, grammar, name, Assignments(entries[..n]), AssignmentsOf(entries[n]), base);
      EntryRuns(meaning, grammar, name, entries[n], AfterEntries(meaning, grammar, name, entries[..n], base));
    }
  }

  lemma {:induction false} FlatLists(grammar: Grammar, entries: seq<Entry>)
    ensures WrittenNames(grammar, Assignments(entries)) == Flat(ListNames(grammar), entries)
  {
    if entries != [] {
      var n := |entries| - 1;
      FlatLists(grammar, entries[..n]);
      RunSnoc((_, _) => [], grammar, "", Assignments(entries[..n]), AssignmentsOf(entries[n]), []);
    }
  }

  lemma ListNamesOne(grammar: Grammar, e: Entry)
    ensures |ListNames(grammar)(e)| <= 1 && forall n | n in ListNames(grammar)(e) :: n != ""
  {
    var s := AssignmentsOf(e);
    assert |s| <= 1;
    hide AssignmentsOf, CanonicalList, ValidList, AcceptsLegacy, Split;
    if s != [] {
      assert s[..0] == [];
      assert [] + WrittenNames(grammar, s) == WrittenNames(grammar, s);
    }
  }

  lemma ListAccepted(grammar: Grammar, e: Entry, n: string)
    ensures Accepts(grammar, e, OfList(n)) <==> Mentions(grammar, e, 0, OfList(n))
  {
    hide WritesList;
    if Accepts(grammar, e, OfList(n)) {
      var k :| Mentions(grammar, e, k, OfList(n));
    }
  }

  lemma ListTells(grammar: Grammar, n: string)
    requires n != ""
    ensures Tells(ListNames(grammar), Self, grammar, n, OfList(n))
    ensures forall e :: LastIn(Self, ListNames(grammar)(e), n) <==> Accepts(grammar, e, OfList(n))
  {
    forall e: Entry
      ensures n in Keys(Self, ListNames(grammar)(e)) <==> Accepts(grammar, e, OfList(n))
      ensures LastIn(Self, ListNames(grammar)(e), n) <==> Accepts(grammar, e, OfList(n))
    {
      EntryRuns((_, _) => [], grammar, n, e, []);
      var s := ListNames(grammar)(e);
      ListNamesOne(grammar, e);
      ListAccepted(grammar, e, n);
      hide Mentions;
      OneValue(Self, s, n, n, n in s);
    }
  }

  lemma ListOrder(grammar: Grammar, a: string, b: string)
    requires a != b && b != ""
    ensures Ordered(ListNames(grammar), Self, grammar, a, b, OfList(a), OfList(b))
  {
    forall e: Entry | Before(Self, ListNames(grammar)(e), a, b)
      ensures MentionsAfter(grammar, e, OfList(a), OfList(b))
    {
      var s := ListNames(grammar)(e);
      var l :| 0 <= l < |s| && Self(s[l]) == b;
      ListNamesOne(grammar, e);
      assert s == [b];
      EntryRuns((_, _) => [], grammar, b, e, []);
      forall k
        ensures !Mentions(grammar, e, k, OfList(a))
      {
        OneList(grammar, e, k, a, b);
      }
    }
  }

  lemma OneList(grammar: Grammar, e: Entry, k: int, a: string, b: string)
    requires Mentions(grammar, e, 0, OfList(b)) && a != b
    ensures !Mentions(grammar, e, k, OfList(a))
  {
    hide ValidList, AcceptsLegacy, Split;
  }

  lemma {:induction false} NothingWritten(meaning: Meaning, grammar: Grammar, name: string, entries: seq<Entry>,
                                          base: seq<string>)
    requires forall i :: !LastAccepted(grammar, entries, OfList(name), i)
    ensures AfterEntries(meaning, grammar, name, entries, base) == base
  {
    if entries != [] {
      var n := |entries| - 1;
      LastAcceptedFront(grammar, entries, OfList(name));
      ListAccepted(grammar, entries[n], name);
      assert !LastAccepted(grammar, entries, OfList(name), n);
      hide Accepts;
      forall i
        ensures !LastAccepted(grammar, entries[..n], OfList(name), i)
      {
        LastAcceptedBounds(grammar, entries[..n], OfList(name), i);
        assert !LastAccepted(grammar, entries, OfList(name), i);
      }
      NothingWritten(meaning, grammar, name, entries[..n], base);
    }
  }

  predicate HasList(m: Manifest, n: string) { exists l :: l in m.lists && l.name == n }

  /**
   * A built manifest holds exactly the lists some accepted entry writes, in the order they were
   * last written.
   */
  lemma ListsMean(grammar: Grammar, entries: seq<Entry>, m: Manifest)
    requires Built(grammar, entries, m)
    ensures forall n :: HasList(m, n) <==>
                        exists i :: LastAccepted(grammar, entries, OfList(n), i)
    ensures forall p, q | 0 <= p < q < |m.lists| ::
              Earlier(grammar, entries, OfList(m.lists[p].name), OfList(m.lists[q].name))
  {
    BuiltNames(grammar, entries, m);
    hide Built, Earlier, LastBy, Flat, LastAccepted;
    forall n
      ensures HasList(m, n) <==> exists i :: LastAccepted(grammar, entries, OfList(n), i)
    {
      ListPresent(grammar, entries, m, n);
    }
    forall p, q | 0 <= p < q < |m.lists|
      ensures Earlier(grammar, entries, OfList(m.lists[p].name), OfList(m.lists[q].name))
    {
      NamesInOrder(grammar, entries, p, q);
    }
  }

  lemma BuiltNames(grammar: Grammar, entries: seq<Entry>, m: Manifest)
    requires Built(grammar, entries, m)
    ensures var names := LastBy(Self, Flat(ListNames(grammar), entries));
            |m.lists| == |names| && forall i | 0 <= i < |names| :: m.lists[i].name == names[i]
  {
    FlatLists(grammar, entries);
    hide OptionSets, Flat, Scalars, Assignments, Aliases, FunctionNames, Bodies, LastBy;
  }

  lemma ListPresent(grammar: Grammar, entries: seq<Entry>, m: Manifest, n: string)
    requires Built(grammar, entries, m)
    ensures HasList(m, n) <==> exists i :: LastAccepted(grammar, entries, OfList(n), i)
  {
    BuiltNames(grammar, entries, m);
    ListNamed(grammar, entries, n);
    var names := LastBy(Self, Flat(ListNames(grammar), entries));
    hide Flat, LastBy, LastAccepted, Built;
    if n in names {
      var i :| 0 <= i < |names| && names[i] == n;
      assert m.lists[i] in m.lists;
    }
  }

  /**
   * Activating a list is running the accepted entries one after the other in the user's shell,
   * from whatever list it starts and whatever the late-bound parts stand for.
   */
  lemma ListRuns(meaning: Meaning, grammar: Grammar, entries: seq<Entry>, m: Manifest, l: ListDelta, base: seq<string>)
    requires Built(grammar, entries, m) && l in m.lists
    ensures WellPlaced(l) && ExpandDelta(meaning, AsDelta(l), base) ==
                             AfterEntries(meaning, grammar, l.name, entries, base)
  {
    BuiltNames(grammar, entries, m);
    ListNamed(grammar, entries, "");
    var names := LastBy(Self, Flat(ListNames(grammar), entries));
    hide Flat, LastBy, Built, ExpandDelta, AfterEntries;
    var i :| 0 <= i < |m.lists| && m.lists[i] == l;
    ListsKeepTheirMeaning(meaning, grammar, entries, m, i, base);
    assert names[i] == l.name;
    ListsRun(meaning, grammar, l.name, entries, base);
  }

  lemma ListNamed(grammar: Grammar, entries: seq<Entry>, n: string)
    ensures n in LastBy(Self, Flat(ListNames(grammar), entries)) <==>
            exists i :: LastAccepted(grammar, entries, OfList(n), i)
    ensures "" !in LastBy(Self, Flat(ListNames(grammar), entries))
  {
    if "" in LastBy(Self, Flat(ListNames(grammar), entries)) {
      LastByMembers(Self, Flat(ListNames(grammar), entries));
      FlatHas(ListNames(grammar), entries, "");
      var i :| 0 <= i < |entries| && "" in ListNames(grammar)(entries[i]);
      ListNamesOne(grammar, entries[i]);
    }
    if n == "" {
      forall i | 0 <= i < |entries|
        ensures !Accepts(grammar, entries[i], OfList(n))
      {
        hide ValidList, AcceptsLegacy, Split;
      }
    } else {
      ListTells(grammar, n);
      hide Flat, LastBy, Accepts, LastIn, ListNames, Tells;
      GivesLastTells(ListNames(grammar), Self, grammar, entries, n, OfList(n));
    }
  }

  lemma NamesInOrder(grammar: Grammar, entries: seq<Entry>, p: nat, q: nat)
    requires p < q < |LastBy(Self, Flat(ListNames(grammar), entries))|
    ensures var names := LastBy(Self, Flat(ListNames(grammar), entries));
            Earlier(grammar, entries, OfList(names[p]), OfList(names[q]))
  {
    var names := LastBy(Self, Flat(ListNames(grammar), entries));
    var a, b := names[p], names[q];
    ListNamed(grammar, entries, "");
    LastByUnique(Self, Flat(ListNames(grammar), entries));
    assert Self(names[p]) != Self(names[q]);
    assert a in names && b in names;
    ListTells(grammar, a);
    ListOrder(grammar, a, b);
    hide Flat, LastBy, Tells, Ordered, Earlier, ListNames;
    KeptEarlier(ListNames(grammar), Self, grammar, entries, p, q, OfList(a), OfList(b));
  }
}
