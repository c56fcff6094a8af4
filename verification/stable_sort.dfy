/** A stable sort into non-increasing order of a real-valued key.

    JavaScript's `Array.prototype.sort` is stable, so
    `xs.sort((a, b) => key(b) - key(a))` has exactly one possible result: the
    elements in non-increasing key order, elements with equal keys in their
    original order. The feed uses it twice: to rank scored posts and to order the
    post types by how under-represented they are. */
module StableSort {

  /** Keys never increase from left to right. */
  ghost predicate NonIncreasing<T>(s: seq<T>, key: T -> real) {
    forall i, j :: 0 <= i < j < |s| ==> key(s[i]) >= key(s[j])
  }

  /** The elements of `s` whose key is `k`, in their order in `s`. */
  function WithKey<T>(s: seq<T>, key: T -> real, k: real): (r: seq<T>)
    ensures |r| <= |s|
  {
    if |s| == 0 then []
    else (if key(s[0]) == k then [s[0]] else []) + WithKey(s[1..], key, k)
  }

  /** Selecting by key distributes over concatenation. */
  lemma {:induction false} WithKeyAppend<T>(a: seq<T>, b: seq<T>, key: T -> real, k: real)
    ensures WithKey(a + b, key, k) == WithKey(a, key, k) + WithKey(b, key, k)
  {
    if |a| > 0 {
      WithKeyAppend(a[1..], b, key, k);
      assert (a + b)[1..] == a[1..] + b;
    } else {
      assert a + b == b;
    }
  }

  /** Puts `x` in front of the first element whose key is not larger than its own. */
  function Insert<T>(x: T, s: seq<T>, key: T -> real): (r: seq<T>)
    ensures multiset(r) == multiset(s) + multiset{x}
    ensures NonIncreasing(s, key) ==> NonIncreasing(r, key)
    ensures forall k :: WithKey(r, key, k) == WithKey([x], key, k) + WithKey(s, key, k)
  {
    if |s| == 0 || key(s[0]) <= key(x) then
      assert forall k :: WithKey([x] + s, key, k) == WithKey([x], key, k) + WithKey(s, key, k) by {
        forall k { WithKeyAppend([x], s, key, k); }
      }
      [x] + s
    else
      var rest := Insert(x, s[1..], key);
      InsertBehind(x, s, rest, key);
      [s[0]] + rest
  }

  /** The recursive case of Insert: `x` goes behind the head of `s`, whose key
      is larger, into a list `rest` that already holds it with the tail. */
  lemma InsertBehind<T>(x: T, s: seq<T>, rest: seq<T>, key: T -> real)
    requires |s| > 0 && key(s[0]) > key(x)
    requires multiset(rest) == multiset(s[1..]) + multiset{x}
    requires NonIncreasing(s[1..], key) ==> NonIncreasing(rest, key)
    requires forall k :: WithKey(rest, key, k) == WithKey([x], key, k) + WithKey(s[1..], key, k)
    ensures multiset([s[0]] + rest) == multiset(s) + multiset{x}
    ensures NonIncreasing(s, key) ==> NonIncreasing([s[0]] + rest, key)
    ensures forall k :: WithKey([s[0]] + rest, key, k) == WithKey([x], key, k) + WithKey(s, key, k)
  {
    assert s == [s[0]] + s[1..];
    InsertBehindKeys(x, s, rest, key);
    if NonIncreasing(s, key) {
      assert NonIncreasing(s[1..], key);
      HeadAbove(x, s, rest, key);
      ConsSorted(s[0], rest, key);
    }
  }

  /** Stability in the recursive case of Insert. */
  lemma InsertBehindKeys<T>(x: T, s: seq<T>, rest: seq<T>, key: T -> real)
    requires |s| > 0 && key(s[0]) > key(x)
    requires forall k :: WithKey(rest, key, k) == WithKey([x], key, k) + WithKey(s[1..], key, k)
    ensures forall k :: WithKey([s[0]] + rest, key, k) == WithKey([x], key, k) + WithKey(s, key, k)
  {
    assert s == [s[0]] + s[1..];
    forall k
      ensures WithKey([s[0]] + rest, key, k) == WithKey([x], key, k) + WithKey(s, key, k)
    {
      WithKeyAppend([s[0]], rest, key, k);
      WithKeyAppend([s[0]], s[1..], key, k);
      WithKeySingle(s[0], key, k);
      WithKeySingle(x, key, k);
      SwapEmpty(WithKey([s[0]] + rest, key, k), WithKey([s[0]], key, k), WithKey(rest, key, k),
                WithKey([x], key, k), WithKey(s[1..], key, k), WithKey(s, key, k));
    }
  }

  lemma WithKeySingle<T>(x: T, key: T -> real, k: real)
    ensures WithKey([x], key, k) == if key(x) == k then [x] else []
  {
    assert WithKey([x], key, k) == (if key(x) == k then [x] else []) + WithKey([x][1..], key, k);
  }

  /** `h + (a + t) == a + (h + t)` when `h` or `a` is empty. */
  lemma SwapEmpty<T>(r: seq<T>, h: seq<T>, rest: seq<T>, a: seq<T>, t: seq<T>, s: seq<T>)
    requires r == h + rest && rest == a + t && s == h + t
    requires h == [] || a == []
    ensures r == a + s
  {
    if h == [] {
      assert r == rest;
    } else {
      assert r == h + t;
    }
  }

  /** The head of a sorted `s` is at least every element of `rest`. */
  lemma HeadAbove<T>(x: T, s: seq<T>, rest: seq<T>, key: T -> real)
    requires |s| > 0 && key(s[0]) > key(x) && NonIncreasing(s, key)
    requires multiset(rest) == multiset(s[1..]) + multiset{x}
    ensures forall j :: 0 <= j < |rest| ==> key(s[0]) >= key(rest[j])
  {
    forall j | 0 <= j < |rest| ensures key(s[0]) >= key(rest[j]) {
      assert rest[j] in multiset(rest);
      if rest[j] != x {
        assert rest[j] in multiset(s[1..]);
        var m :| 0 <= m < |s[1..]| && s[1..][m] == rest[j];
        assert s[m + 1] == rest[j];
      }
    }
  }

  /** A key at least every key of a sorted list may go in front of it. */
  lemma ConsSorted<T>(h: T, rest: seq<T>, key: T -> real)
    requires NonIncreasing(rest, key)
    requires forall j :: 0 <= j < |rest| ==> key(h) >= key(rest[j])
    ensures NonIncreasing([h] + rest, key)
  {
    var r := [h] + rest;
    forall i, j | 0 <= i < j < |r| ensures key(r[i]) >= key(r[j]) {
      assert r[j] == rest[j - 1];
      if i > 0 { assert r[i] == rest[i - 1]; }
    }
  }

  /** Sorts `s` by `key`, largest first, keeping equal keys in input order. */
  function SortDesc<T>(s: seq<T>, key: T -> real): (r: seq<T>)
    ensures multiset(r) == multiset(s)
    ensures |r| == |s|
    ensures NonIncreasing(r, key)
    ensures forall k :: WithKey(r, key, k) == WithKey(s, key, k)
  {
    if |s| == 0 then []
    else
      var r := Insert(s[0], SortDesc(s[1..], key), key);
      assert s == [s[0]] + s[1..];
      assert forall k :: WithKey(s, key, k) == WithKey([s[0]], key, k) + WithKey(s[1..], key, k) by {
        forall k { WithKeyAppend([s[0]], s[1..], key, k); }
      }
      assert |r| == |multiset(r)|;
      r
  }
}
