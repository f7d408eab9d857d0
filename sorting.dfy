/** Python's `sorted(xs, key=k)` and `xs.sort(key=k)`: a sort by a
    real-valued key (insertion sort, which keeps an element ahead of later
    ones with the same key, as Python's stable sort does), together with the
    `min`/`max` selections the workflow makes over lists. */
module Sorting {

  ghost predicate SortedBy<T>(s: seq<T>, key: T -> real)
  {
    forall i, j :: 0 <= i < j < |s| ==> key(s[i]) <= key(s[j])
  }

  ghost predicate StrictlySortedBy<T>(s: seq<T>, key: T -> real)
  {
    forall i, j :: 0 <= i < j < |s| ==> key(s[i]) < key(s[j])
  }

  ghost predicate DistinctKeys<T>(s: seq<T>, key: T -> real)
  {
    forall i, j :: 0 <= i < j < |s| ==> key(s[i]) != key(s[j])
  }

  /** Inserts `x` in front of the first element whose key is not smaller:
      `x` stays ahead of the elements with the same key. */
  function InsertBy<T>(x: T, s: seq<T>, key: T -> real): (r: seq<T>)
    requires SortedBy(s, key)
    ensures SortedBy(r, key)
    ensures multiset(r) == multiset(s) + multiset{x}
    ensures |r| == |s| + 1
  {
    if s == [] then [x]
    else if key(x) <= key(s[0]) then [x] + s
    else
      var rest := InsertBy(x, s[1..], key);
      HeadBelowInsert(x, s, key, rest);
      assert s == [s[0]] + s[1..];
      [s[0]] + rest
  }

  lemma HeadBelowInsert<T>(x: T, s: seq<T>, key: T -> real, rest: seq<T>)
    requires s != [] && SortedBy(s, key) && key(s[0]) < key(x)
    requires multiset(rest) == multiset(s[1..]) + multiset{x}
    requires SortedBy(rest, key)
    ensures SortedBy([s[0]] + rest, key)
  {
    forall e | e in rest ensures key(s[0]) <= key(e) {
      assert e in multiset(rest);
      if e != x {
        assert e in multiset(s[1..]);
        var k :| 0 <= k < |s[1..]| && s[1..][k] == e;
        assert s[k + 1] == e;
      }
    }
    var r := [s[0]] + rest;
    forall i, j | 0 <= i < j < |r| ensures key(r[i]) <= key(r[j]) {
      if i == 0 {
        assert r[j] == rest[j - 1];
        assert r[j] in rest;
      } else {
        assert r[i] == rest[i - 1] && r[j] == rest[j - 1];
      }
    }
  }

  /** `sorted(s, key=key)`: stable, so elements with equal keys keep their
      relative order (the head is inserted ahead of its equals). */
  function SortBy<T>(s: seq<T>, key: T -> real): (r: seq<T>)
    ensures SortedBy(r, key)
    ensures multiset(r) == multiset(s)
    ensures |r| == |s|
  {
    if s == [] then []
    else
      assert s == [s[0]] + s[1..];
      InsertBy(s[0], SortBy(s[1..], key), key)
  }

  lemma StrictCons<T>(h: T, t: seq<T>, key: T -> real)
    requires StrictlySortedBy(t, key) && forall e :: e in t ==> key(h) < key(e)
    ensures StrictlySortedBy([h] + t, key)
  {
    var r := [h] + t;
    forall i, j | 0 <= i < j < |r| ensures key(r[i]) < key(r[j]) {
      assert r[j] == t[j - 1];
      if i > 0 {
        assert r[i] == t[i - 1];
      }
    }
  }

  lemma StrictTail<T>(s: seq<T>, key: T -> real)
    requires s != [] && StrictlySortedBy(s, key)
    ensures SortedBy(s[1..], key) && StrictlySortedBy(s[1..], key)
  {
    forall i, j | 0 <= i < j < |s[1..]| ensures key(s[1..][i]) < key(s[1..][j]) {
      assert s[1..][i] == s[i + 1] && s[1..][j] == s[j + 1];
    }
  }

  lemma {:induction false} InsertByStrict<T>(x: T, s: seq<T>, key: T -> real)
    requires SortedBy(s, key) && StrictlySortedBy(s, key)
    requires forall e :: e in s ==> key(e) != key(x)
    ensures StrictlySortedBy(InsertBy(x, s, key), key)
  {
    if s == [] {
    } else if key(x) <= key(s[0]) {
      forall e | e in s ensures key(x) < key(e) {
        var k :| 0 <= k < |s| && s[k] == e;
        if k > 0 {
          assert key(s[0]) < key(s[k]);
        }
      }
      StrictCons(x, s, key);
    } else {
      var rest := InsertBy(x, s[1..], key);
      StrictTail(s, key);
      InsertByStrict(x, s[1..], key);
      forall e | e in rest ensures key(s[0]) < key(e) {
        assert e in multiset(rest);
        if e != x {
          assert e in multiset(s[1..]);
          var k :| 0 <= k < |s[1..]| && s[1..][k] == e;
          assert s[k + 1] == e;
        }
      }
      StrictCons(s[0], rest, key);
    }
  }

  /** When no two elements share a key, the sorted result is strictly
      increasing in the key and holds the same elements. */
  lemma {:induction false} SortByStrict<T>(s: seq<T>, key: T -> real)
    requires DistinctKeys(s, key)
    ensures StrictlySortedBy(SortBy(s, key), key)
  {
    if s != [] {
      var tail := SortBy(s[1..], key);
      SortByStrict(s[1..], key);
      forall e | e in tail ensures key(e) != key(s[0]) {
        assert e in multiset(tail);
        assert e in s[1..];
      }
      InsertByStrict(s[0], tail, key);
    }
  }

  /** Sorting an already sorted sequence changes nothing. */
  lemma {:induction false} SortBySorted<T>(s: seq<T>, key: T -> real)
    requires SortedBy(s, key)
    ensures SortBy(s, key) == s
  {
    if s != [] {
      SortBySorted(s[1..], key);
      assert SortBy(s[1..], key) == s[1..];
      if |s| > 1 {
        assert key(s[0]) <= key(s[1]);
      }
      assert s == [s[0]] + s[1..];
    }
  }

  /** The elements of `s` whose key is `c`, in their order in `s`. */
  function WithKey<T>(s: seq<T>, key: T -> real, c: real): (r: seq<T>)
    ensures forall k :: 0 <= k < |r| ==> key(r[k]) == c
  {
    if s == [] then []
    else (if key(s[0]) == c then [s[0]] else []) + WithKey(s[1..], key, c)
  }

  /** The elements with key `c` of a list with a given head. */
  lemma WithKeyCons<T>(a: T, t: seq<T>, key: T -> real, c: real)
    ensures WithKey([a] + t, key, c) == (if key(a) == c then [a] else []) + WithKey(t, key, c)
  {
    assert ([a] + t)[1..] == t;
  }

  /** Stepping past a head whose key is below `x`'s. */
  lemma WithKeyPastHead<T>(x: T, s: seq<T>, rest: seq<T>, key: T -> real, c: real)
    requires s != [] && key(s[0]) < key(x)
    requires WithKey(rest, key, c) == (if key(x) == c then [x] else []) + WithKey(s[1..], key, c)
    ensures WithKey([s[0]] + rest, key, c) == (if key(x) == c then [x] else []) + WithKey(s, key, c)
  {
    WithKeyCons(s[0], rest, key, c);
    var w := WithKey(s[1..], key, c);
    assert WithKey(s, key, c) == (if key(s[0]) == c then [s[0]] else []) + w;
    if key(s[0]) == c {
      assert key(x) != c;
    } else {
      assert [] + ((if key(x) == c then [x] else []) + w) == (if key(x) == c then [x] else []) + w;
    }
  }

  /** Inserting `x` puts it ahead of every element with its key. */
  lemma {:induction false} InsertByWithKey<T>(x: T, s: seq<T>, key: T -> real, c: real)
    requires SortedBy(s, key)
    ensures WithKey(InsertBy(x, s, key), key, c) == (if key(x) == c then [x] else []) + WithKey(s, key, c)
  {
    if s == [] || key(x) <= key(s[0]) {
      assert InsertBy(x, s, key) == [x] + s;
      WithKeyCons(x, s, key, c);
    } else {
      var rest := InsertBy(x, s[1..], key);
      assert InsertBy(x, s, key) == [s[0]] + rest;
      InsertByWithKey(x, s[1..], key, c);
      WithKeyPastHead(x, s, rest, key, c);
    }
  }

  /** `SortBy` is stable: the elements with any one key come out in the
      order they went in. */
  lemma {:induction false} SortByStable<T>(s: seq<T>, key: T -> real, c: real)
    ensures WithKey(SortBy(s, key), key, c) == WithKey(s, key, c)
  {
    if s != [] {
      SortByStable(s[1..], key, c);
      InsertByWithKey(s[0], SortBy(s[1..], key), key, c);
    }
  }

  /** An element of the input is an element of the result. */
  lemma SortByHas<T>(s: seq<T>, key: T -> real, i: nat)
    requires i < |s|
    ensures s[i] in SortBy(s, key)
  {
    assert s[i] in multiset(s);
    assert s[i] in multiset(SortBy(s, key));
  }

  /** An element of the result is an element of the input. */
  lemma SortByFrom<T>(s: seq<T>, key: T -> real, k: nat)
    requires k < |s|
    ensures SortBy(s, key)[k] in s
  {
    var r := SortBy(s, key);
    assert r[k] in multiset(r);
    assert r[k] in multiset(s);
  }

  /** `min(xs, key=k)`, and `np.where(a == a.min())[0][0]`: the index of the
      first element with the least key. */
  function ArgMinBy<T>(s: seq<T>, key: T -> real): (k: nat)
    requires s != []
    ensures k < |s|
    ensures forall j :: 0 <= j < |s| ==> key(s[k]) <= key(s[j])
    ensures forall j :: 0 <= j < k ==> key(s[j]) > key(s[k])
  {
    if |s| == 1 then 0
    else
      var init := s[..|s| - 1];
      var k := ArgMinBy(init, key);
      assert forall j :: 0 <= j < |init| ==> init[j] == s[j];
      if key(s[|s| - 1]) < key(s[k]) then |s| - 1 else k
  }

  /** `max(xs)` of a non-empty list of reals. */
  function MaxOf(s: seq<real>): (m: real)
    requires s != []
    ensures forall k :: 0 <= k < |s| ==> s[k] <= m
    ensures exists k :: 0 <= k < |s| && s[k] == m
  {
    if |s| == 1 then s[0]
    else
      var rest := MaxOf(s[1..]);
      assert forall k :: 1 <= k < |s| ==> s[k] == s[1..][k - 1];
      if s[0] >= rest then s[0] else rest
  }

  /** `min(xs)` of a non-empty list of reals. */
  function MinOf(s: seq<real>): (m: real)
    requires s != []
    ensures forall k :: 0 <= k < |s| ==> m <= s[k]
    ensures exists k :: 0 <= k < |s| && s[k] == m
  {
    if |s| == 1 then s[0]
    else
      var rest := MinOf(s[1..]);
      assert forall k :: 1 <= k < |s| ==> s[k] == s[1..][k - 1];
      if s[0] <= rest then s[0] else rest
  }

  /** An attained upper bound is the maximum. */
  lemma MaxOfIs(s: seq<real>, m: real, i: nat)
    requires i < |s| && s[i] == m && forall k :: 0 <= k < |s| ==> s[k] <= m
    ensures MaxOf(s) == m
  {
    var j :| 0 <= j < |s| && s[j] == MaxOf(s);
  }

  /** An attained lower bound is the minimum. */
  lemma MinOfIs(s: seq<real>, m: real, i: nat)
    requires i < |s| && s[i] == m && forall k :: 0 <= k < |s| ==> m <= s[k]
    ensures MinOf(s) == m
  {
    var j :| 0 <= j < |s| && s[j] == MinOf(s);
  }
}
