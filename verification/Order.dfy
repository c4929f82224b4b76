/**
 * The canonical identity orders (core/worktree/diff.go identityLess and
 * core/worktree/state.go admittedIdentityLess) and sorting by them.
 */
module Order {
  import opened Live

  // ---------------------------------------------------------------- comparisons

  predicate StringLess(a: string, b: string) {
    if b == "" then false
    else if a == "" then true
    else a[0] < b[0] || (a[0] == b[0] && StringLess(a[1..], b[1..]))
  }

  lemma {:induction false} StringTrichotomy(a: string, b: string)
    ensures !(StringLess(a, b) && StringLess(b, a))
    ensures a == b || StringLess(a, b) || StringLess(b, a)
    ensures !StringLess(a, a)
  {
    if a != "" {
      StringTrichotomy(a[1..], a[1..]);
      if b != "" {
        StringTrichotomy(a[1..], b[1..]);
        assert a == [a[0]] + a[1..] && b == [b[0]] + b[1..];
      }
    }
  }

  lemma {:induction false} StringTransitive(a: string, b: string, c: string)
    requires StringLess(a, b) && StringLess(b, c)
    ensures StringLess(a, c)
  {
    if a != "" && a[0] == b[0] == c[0] {
      StringTransitive(a[1..], b[1..], c[1..]);
    }
  }

  function KindRank(kind: LiveKind): nat {
    match kind
    case Env => 0
    case Alias => 1
    case Function => 2
    case Path => 3
    case FPath => 4
    case Switch => 5
    case Unsupported(_) => 6
  }

  predicate IdentityLess(left: Identity, right: Identity) {
    if KindRank(left.kind) != KindRank(right.kind) then KindRank(left.kind) < KindRank(right.kind)
    else StringLess(left.name, right.name)
  }

  predicate AdmittedLess(left: Identity, right: Identity) {
    if left.kind != right.kind then StringLess(KindText(left.kind), KindText(right.kind))
    else StringLess(left.name, right.name)
  }

  predicate StateLess(left: LiveState, right: LiveState) {
    IdentityLess(left.identity, right.identity)
  }

  /** `less` orders the elements of `domain` strictly and totally. */
  ghost predicate Orders<T(!new)>(less: (T, T) -> bool, domain: set<T>) {
    && (forall x, y | x in domain && y in domain :: !(less(x, y) && less(y, x)))
    && (forall x, y | x in domain && y in domain :: x == y || less(x, y) || less(y, x))
    && (forall x, y, z | x in domain && y in domain && z in domain :: less(x, y) && less(y, z) ==> less(x, z))
  }

  lemma IdentityLessOrders(domain: set<Identity>)
    requires forall id | id in domain :: ValidIdentity(id)
    ensures Orders(IdentityLess, domain)
  {
    forall x, y | x in domain && y in domain
      ensures !(IdentityLess(x, y) && IdentityLess(y, x))
      ensures x == y || IdentityLess(x, y) || IdentityLess(y, x)
    {
      StringTrichotomy(x.name, y.name);
    }
    forall x, y, z | x in domain && y in domain && z in domain && IdentityLess(x, y) && IdentityLess(y, z)
      ensures IdentityLess(x, z)
    {
      if KindRank(x.kind) == KindRank(y.kind) == KindRank(z.kind) {
        StringTransitive(x.name, y.name, z.name);
      }
    }
  }

  lemma AdmittedLessOrders(domain: set<Identity>)
    requires forall id | id in domain :: ValidIdentity(id)
    ensures Orders(AdmittedLess, domain)
  {
    forall x, y | x in domain && y in domain
      ensures !(AdmittedLess(x, y) && AdmittedLess(y, x))
      ensures x == y || AdmittedLess(x, y) || AdmittedLess(y, x)
    {
      StringTrichotomy(x.name, y.name);
      StringTrichotomy(KindText(x.kind), KindText(y.kind));
      assert x.kind == y.kind || KindText(x.kind) != KindText(y.kind) by { KindTextInjective(x.kind, y.kind); }
    }
    forall x, y, z | x in domain && y in domain && z in domain && AdmittedLess(x, y) && AdmittedLess(y, z)
      ensures AdmittedLess(x, z)
    {
      if x.kind == y.kind == z.kind {
        StringTransitive(x.name, y.name, z.name);
      } else if x.kind != y.kind && y.kind != z.kind {
        StringTransitive(KindText(x.kind), KindText(y.kind), KindText(z.kind));
        StringTrichotomy(KindText(x.kind), KindText(x.kind));
      }
    }
  }

  lemma KindTextInjective(a: LiveKind, b: LiveKind)
    requires !a.Unsupported? && !b.Unsupported?
    ensures KindText(a) == KindText(b) ==> a == b
  {
    assert |KindText(Env)| == 3 && |KindText(Alias)| == 5 && |KindText(Function)| == 8;
    assert |KindText(Path)| == 4 && |KindText(FPath)| == 5 && |KindText(Switch)| == 6;
    assert KindText(Alias)[0] == 'a' && KindText(FPath)[0] == 'f';
  }

  lemma StateLessOrders(states: seq<LiveState>)
    requires AllValid(states) && Distinct(states)
    ensures Orders(StateLess, set s | s in states)
  {
    var ids := set s | s in states :: s.identity;
    forall id | id in ids
      ensures ValidIdentity(id)
    {
      var s :| s in states && s.identity == id;
    }
    IdentityLessOrders(ids);
    forall x, y | x in states && y in states && x != y
      ensures x.identity != y.identity
    {
      var i :| 0 <= i < |states| && states[i] == x;
      var j :| 0 <= j < |states| && states[j] == y;
      assert IdentityOf(states[i]) != IdentityOf(states[j]);
    }
    forall x, y, z | x in states && y in states && z in states && StateLess(x, y) && StateLess(y, z)
      ensures StateLess(x, z)
    {
      assert x.identity in ids && y.identity in ids && z.identity in ids;
    }
  }

  // ---------------------------------------------------------------- sorting

  predicate Sorted<T>(less: (T, T) -> bool, s: seq<T>) {
    forall i, j :: 0 <= i < j < |s| ==> less(s[i], s[j])
  }

  function Insert<T>(less: (T, T) -> bool, x: T, s: seq<T>): (r: seq<T>)
    ensures multiset(r) == multiset(s) + multiset{x}
  {
    if s == [] then [x]
    else if less(x, s[0]) then [x] + s
    else
      assert s == [s[0]] + s[1..];
      [s[0]] + Insert(less, x, s[1..])
  }

  /** The result of the library sort; `SortIsCanonical` shows it depends on the elements only. */
  function Sort<T>(less: (T, T) -> bool, s: seq<T>): (r: seq<T>)
    ensures multiset(r) == multiset(s)
  {
    if s == [] then []
    else
      assert s == [s[0]] + s[1..];
      Insert(less, s[0], Sort(less, s[1..]))
  }

  lemma SameElements<T>(a: seq<T>, b: seq<T>)
    requires multiset(a) == multiset(b)
    ensures forall x :: x in a <==> x in b
  {
    forall x
      ensures x in a <==> x in b
    {
      assert x in a <==> x in multiset(a);
      assert x in b <==> x in multiset(b);
    }
  }

  lemma {:induction false} InsertSorted<T(!new)>(less: (T, T) -> bool, x: T, s: seq<T>, domain: set<T>)
    requires Orders(less, domain) && Sorted(less, s)
    requires x in domain && x !in s && forall y | y in s :: y in domain
    ensures Sorted(less, Insert(less, x, s))
  {
    if s != [] && !less(x, s[0]) {
      assert Sorted(less, s[1..]) by {
        forall i, j | 0 <= i < j < |s[1..]|
          ensures less(s[1..][i], s[1..][j])
        {
          assert less(s[i + 1], s[j + 1]);
        }
      }
      InsertSorted(less, x, s[1..], domain);
      var rest := Insert(less, x, s[1..]);
      forall y | y in rest
        ensures less(s[0], y)
      {
        assert y in multiset(rest);
        if y != x {
          assert y in multiset(s[1..]);
          var i :| 0 <= i < |s[1..]| && s[1..][i] == y;
          assert less(s[0], s[i + 1]);
        }
      }
    }
  }

  lemma {:induction false} SortSorted<T(!new)>(less: (T, T) -> bool, s: seq<T>, domain: set<T>)
    requires Orders(less, domain)
    requires forall y | y in s :: y in domain
    requires forall i, j :: 0 <= i < j < |s| ==> s[i] != s[j]
    ensures Sorted(less, Sort(less, s))
  {
    if s != [] {
      var tail := s[1..];
      assert forall i, j :: 0 <= i < j < |tail| ==> tail[i] != tail[j];
      SortSorted(less, tail, domain);
      SameElements(Sort(less, tail), tail);
      InsertSorted(less, s[0], Sort(less, tail), domain);
    }
  }

  /** A strictly sorted sequence is determined by its elements. */
  lemma {:induction false} SortedIsCanonical<T(!new)>(less: (T, T) -> bool, a: seq<T>, b: seq<T>, domain: set<T>)
    requires Orders(less, domain) && forall y | y in a :: y in domain
    requires Sorted(less, a) && Sorted(less, b)
    requires forall x :: x in a <==> x in b
    ensures a == b
  {
    assert a != [] ==> a[0] in b;
    assert b != [] ==> b[0] in a;
    if a != [] {
      HeadIsLeast(less, a, b, domain);
      assert a == [a[0]] + a[1..] && b == [b[0]] + b[1..];
      TailElements(less, a, domain);
      TailElements(less, b, domain);
      SortedIsCanonical(less, a[1..], b[1..], domain);
    }
  }

  lemma HeadIsLeast<T(!new)>(less: (T, T) -> bool, a: seq<T>, b: seq<T>, domain: set<T>)
    requires Orders(less, domain) && forall y | y in a :: y in domain
    requires Sorted(less, a) && Sorted(less, b)
    requires a != [] && b != [] && a[0] in b && b[0] in a
    ensures a[0] == b[0]
  {
    HeadBefore(less, b, a[0]);
    HeadBefore(less, a, b[0]);
  }

  lemma HeadBefore<T(!new)>(less: (T, T) -> bool, s: seq<T>, x: T)
    requires Sorted(less, s) && x in s
    ensures x == s[0] || less(s[0], x)
  {
    var i :| 0 <= i < |s| && s[i] == x;
  }

  lemma TailElements<T(!new)>(less: (T, T) -> bool, s: seq<T>, domain: set<T>)
    requires Orders(less, domain) && forall y | y in s :: y in domain
    requires Sorted(less, s) && s != []
    ensures Sorted(less, s[1..])
    ensures forall x :: x in s[1..] <==> x in s && x != s[0]
  {
    var t := s[1..];
    forall i, j | 0 <= i < j < |t|
      ensures less(t[i], t[j])
    {
      assert less(s[i + 1], s[j + 1]);
    }
    forall x
      ensures x in t <==> x in s && x != s[0]
    {
      if x in t {
        var i :| 0 <= i < |t| && t[i] == x;
        assert s[i + 1] == x && less(s[0], s[i + 1]);
      }
      if x in s && x != s[0] {
        var i :| 0 <= i < |s| && s[i] == x;
        assert t[i - 1] == x;
      }
    }
  }

  /** Sorting distinct elements gives one result for every initial order of the same elements. */
  lemma SortIsCanonical<T(!new)>(less: (T, T) -> bool, s: seq<T>, t: seq<T>)
    requires Orders(less, set x | x in s)
    requires forall x :: x in s <==> x in t
    requires forall i, j :: 0 <= i < j < |s| ==> s[i] != s[j]
    requires forall i, j :: 0 <= i < j < |t| ==> t[i] != t[j]
    ensures Sort(less, s) == Sort(less, t)
  {
    var domain := set x | x in s;
    SortSorted(less, s, domain);
    SortSorted(less, t, domain);
    SameElements(Sort(less, s), s);
    SameElements(Sort(less, t), t);
    SortedIsCanonical(less, Sort(less, s), Sort(less, t), domain);
  }

  // ---------------------------------------------------------------- canonical sequences

  /** Some enumeration of a set, for specifications only. */
  ghost function Enumerate<T(!new)>(s: set<T>): (r: seq<T>)
    ensures forall x :: x in r <==> x in s
    ensures forall i, j :: 0 <= i < j < |r| ==> r[i] != r[j]
  {
    if s == {} then []
    else
      var x :| x in s;
      [x] + Enumerate(s - {x})
  }

  /** The identities of a set in canonical order. */
  ghost function Ordered(ids: set<Identity>): seq<Identity> {
    Sort(IdentityLess, Enumerate(ids))
  }

  lemma OrderedSorted(ids: set<Identity>)
    requires forall id | id in ids :: ValidIdentity(id)
    ensures Sorted(IdentityLess, Ordered(ids))
    ensures forall id :: id in Ordered(ids) <==> id in ids
  {
    IdentityLessOrders(ids);
    SortSorted(IdentityLess, Enumerate(ids), ids);
    SameElements(Ordered(ids), Enumerate(ids));
  }

  lemma OrderedOf(s: seq<Identity>, ids: set<Identity>)
    requires forall id | id in ids :: ValidIdentity(id)
    requires forall id :: id in s <==> id in ids
    requires forall i, j :: 0 <= i < j < |s| ==> s[i] != s[j]
    ensures Sort(IdentityLess, s) == Ordered(ids)
  {
    assert ids == set id | id in s;
    IdentityLessOrders(ids);
    SortIsCanonical(IdentityLess, s, Enumerate(ids));
  }
}
