/**
 * "The last occurrence of a key wins and keeps its place": the one normalization
 * rule used for live states, overlays and manifest entries.
 */
module LastOccurrence {

  function Keys<T, K(==)>(key: T -> K, s: seq<T>): (r: set<K>)
    ensures forall i :: 0 <= i < |s| ==> key(s[i]) in r
    ensures forall k :: k in r ==> exists i :: 0 <= i < |s| && key(s[i]) == k
  {
    set i | 0 <= i < |s| :: key(s[i])
  }

  /** The subsequence of final occurrences, in the order of those occurrences. */
  function LastBy<T, K(==)>(key: T -> K, s: seq<T>): (r: seq<T>)
    ensures |r| <= |s|
  {
    if s == [] then []
    else if key(s[0]) in Keys(key, s[1..]) then LastBy(key, s[1..])
    else [s[0]] + LastBy(key, s[1..])
  }

  lemma {:induction false} LastByMembers<T, K>(key: T -> K, s: seq<T>)
    ensures forall x :: x in LastBy(key, s) ==> x in s
  {
    if s != [] {
      LastByMembers(key, s[1..]);
    }
  }

  lemma Assoc<T>(a: seq<T>, b: seq<T>, c: seq<T>)
    ensures a + (b + c) == (a + b) + c
  {
  }

  predicate Unique<T, K(==)>(key: T -> K, s: seq<T>) {
    forall i, j :: 0 <= i < j < |s| ==> key(s[i]) != key(s[j])
  }

  function Without<T, K(==)>(key: T -> K, s: seq<T>, k: K): (r: seq<T>)
    ensures |r| <= |s|
  {
    if s == [] then []
    else if key(s[0]) == k then Without(key, s[1..], k)
    else [s[0]] + Without(key, s[1..], k)
  }

  lemma KeysConcat<T, K>(key: T -> K, a: seq<T>, b: seq<T>)
    ensures Keys(key, a + b) == Keys(key, a) + Keys(key, b)
  {
    forall k | k in Keys(key, a) + Keys(key, b)
      ensures k in Keys(key, a + b)
    {
      if k in Keys(key, a) {
        var i :| 0 <= i < |a| && key(a[i]) == k;
        assert (a + b)[i] == a[i];
      } else {
        var i :| 0 <= i < |b| && key(b[i]) == k;
        assert (a + b)[|a| + i] == b[i];
      }
    }
  }

  lemma KeysSnoc<T, K>(key: T -> K, s: seq<T>, x: T)
    ensures Keys(key, s + [x]) == Keys(key, s) + {key(x)}
  {
    KeysConcat(key, s, [x]);
    assert Keys(key, [x]) == {key(x)} by {
      assert key([x][0]) in Keys(key, [x]);
    }
  }

  lemma {:induction false} LastByKeys<T, K>(key: T -> K, s: seq<T>)
    ensures Keys(key, LastBy(key, s)) == Keys(key, s)
  {
    if s != [] {
      LastByKeys(key, s[1..]);
      assert s == [s[0]] + s[1..];
      KeysConcat(key, [s[0]], s[1..]);
      KeysConcat(key, [s[0]], LastBy(key, s[1..]));
    }
  }

  /** Appending an element removes the earlier occurrence of its key and adds it at the end. */
  lemma {:induction false} LastBySnoc<T, K>(key: T -> K, s: seq<T>, x: T)
    ensures LastBy(key, s + [x]) == Without(key, LastBy(key, s), key(x)) + [x]
  {
    if s == [] {
      assert [x][1..] == [];
      assert s + [x] == [x];
    } else {
      assert (s + [x])[1..] == s[1..] + [x];
      LastBySnoc(key, s[1..], x);
      KeysConcat(key, s[1..], [x]);
      assert Keys(key, [x]) == {key(x)} by {
        assert key([x][0]) in Keys(key, [x]);
      }
      if key(s[0]) in Keys(key, s[1..]) {
      } else if key(s[0]) == key(x) {
        var rest := LastBy(key, s[1..]);
        assert LastBy(key, s) == [s[0]] + rest;
        assert ([s[0]] + rest)[1..] == rest;
      } else {
        var rest := LastBy(key, s[1..]);
        assert LastBy(key, s) == [s[0]] + rest;
        assert ([s[0]] + rest)[1..] == rest;
        assert Without(key, LastBy(key, s), key(x)) == [s[0]] + Without(key, rest, key(x));
      }
    }
  }

  lemma {:induction false} WithoutMembers<T, K>(key: T -> K, s: seq<T>, k: K)
    ensures forall x :: x in Without(key, s, k) ==> x in s && key(x) != k
    ensures forall x :: x in s && key(x) != k ==> x in Without(key, s, k)
  {
    if s != [] {
      WithoutMembers(key, s[1..], k);
    }
  }

  lemma UniqueTail<T, K>(key: T -> K, s: seq<T>)
    requires s != [] && Unique(key, s)
    ensures Unique(key, s[1..]) && key(s[0]) !in Keys(key, s[1..])
  {
    var t := s[1..];
    forall i, j | 0 <= i < j < |t|
      ensures key(t[i]) != key(t[j])
    {
      assert key(s[i + 1]) != key(s[j + 1]);
    }
    forall i | 0 <= i < |t|
      ensures key(t[i]) != key(s[0])
    {
      assert t[i] == s[i + 1];
    }
  }

  lemma UniqueCons<T, K>(key: T -> K, x: T, s: seq<T>)
    requires Unique(key, s) && key(x) !in Keys(key, s)
    ensures Unique(key, [x] + s)
  {
    var t := [x] + s;
    forall i, j | 0 <= i < j < |t|
      ensures key(t[i]) != key(t[j])
    {
      assert t[j] == s[j - 1];
      if i > 0 {
        assert t[i] == s[i - 1];
      }
    }
  }

  lemma {:induction false} LastByUnique<T, K>(key: T -> K, s: seq<T>)
    ensures Unique(key, LastBy(key, s))
  {
    if s != [] {
      LastByUnique(key, s[1..]);
      LastByKeys(key, s[1..]);
      if key(s[0]) !in Keys(key, s[1..]) {
        UniqueCons(key, s[0], LastBy(key, s[1..]));
      }
    }
  }

  lemma {:induction false} UniqueIsNormal<T, K>(key: T -> K, s: seq<T>)
    ensures Unique(key, s) <==> LastBy(key, s) == s
    ensures Unique(key, s) <==> |LastBy(key, s)| == |s|
  {
    LastByUnique(key, s);
    if s != [] {
      UniqueIsNormal(key, s[1..]);
      assert s == [s[0]] + s[1..];
      if Unique(key, s) {
        UniqueTail(key, s);
      }
    }
  }

  /** Removing the key found at a known index is deleting that index. */
  lemma {:induction false} WithoutAt<T, K>(key: T -> K, s: seq<T>, at: nat)
    requires Unique(key, s) && at < |s|
    ensures Without(key, s, key(s[at])) == s[..at] + s[at + 1..]
  {
    UniqueTail(key, s);
    if at == 0 {
      WithoutAbsent(key, s[1..], key(s[0]));
    } else {
      WithoutAt(key, s[1..], at - 1);
      assert s[1..][at - 1] == s[at];
      assert s[..at] == [s[0]] + s[1..][..at - 1];
      assert s[at + 1..] == s[1..][at..];
    }
  }

  lemma {:induction false} WithoutAbsent<T, K>(key: T -> K, s: seq<T>, k: K)
    requires forall i :: 0 <= i < |s| ==> key(s[i]) != k
    ensures Without(key, s, k) == s
  {
    if s != [] {
      WithoutAbsent(key, s[1..], k);
      assert s == [s[0]] + s[1..];
    }
  }

  /** `last` maps every key of the first `n` elements to the index of its final occurrence there. */
  ghost predicate RecordsLast<T, K>(key: T -> K, s: seq<T>, n: nat, last: map<K, int>)
    requires n <= |s|
  {
    && (forall i | 0 <= i < n :: key(s[i]) in last && i <= last[key(s[i])])
    && (forall k | k in last :: 0 <= last[k] < n && key(s[last[k]]) == k)
  }

  /** Keeping exactly the recorded indices, front to back, builds `LastBy`. */
  lemma LastStep<T, K>(key: T -> K, s: seq<T>, index: nat, last: map<K, int>)
    requires RecordsLast(key, s, |s|, last) && index < |s|
    ensures key(s[index]) in last
    ensures LastBy(key, s[index..]) ==
            (if last[key(s[index])] == index then [s[index]] else []) + LastBy(key, s[index + 1..])
  {
    var tail, k := s[index + 1..], key(s[index]);
    assert s[index..][1..] == tail;
    if last[k] == index {
      forall i | 0 <= i < |tail|
        ensures key(tail[i]) != k
      {
        assert tail[i] == s[index + 1 + i];
      }
    } else {
      assert tail[last[k] - index - 1] == s[last[k]];
      assert key(tail[last[k] - index - 1]) in Keys(key, tail);
    }
  }

  lemma RecordStep<T, K>(key: T -> K, s: seq<T>, n: nat, last: map<K, int>)
    requires n < |s| && RecordsLast(key, s, n, last)
    ensures RecordsLast(key, s, n + 1, last[key(s[n]) := n])
  {
  }

  lemma KeepStep<T, K>(key: T -> K, s: seq<T>, index: nat, last: map<K, int>, out: seq<T>, out': seq<T>)
    requires RecordsLast(key, s, |s|, last) && index < |s|
    requires out + LastBy(key, s[index..]) == LastBy(key, s)
    requires out' == out + if last[key(s[index])] == index then [s[index]] else []
    ensures out' + LastBy(key, s[index + 1..]) == LastBy(key, s)
  {
    LastStep(key, s, index, last);
    var kept := if last[key(s[index])] == index then [s[index]] else [];
    var rest := LastBy(key, s[index + 1..]);
    Assoc(out, kept, rest);
  }

  /** The second pass of every normalizer: keep the elements whose index was recorded. */
  method KeepLast<T, K(==)>(key: T -> K, s: seq<T>, last: map<K, int>) returns (out: seq<T>)
    requires RecordsLast(key, s, |s|, last)
    ensures out == LastBy(key, s)
  {
    out := [];
    for index := 0 to |s|
      invariant out + LastBy(key, s[index..]) == LastBy(key, s)
    {
      ghost var before := out;
      if last[key(s[index])] == index {
        out := out + [s[index]];
      }
      KeepStep(key, s, index, last, before, out);
    }
    assert out + [] == out;
  }
}
