/** `Enumerable.OrderBy`: a stable sort by a key under a comparer. The comparer is
    abstract (the runner compares names with the current culture's rules); all the
    sort needs from it is that it is a total preorder. */
module Ordering {

  ghost predicate TotalPreorder<K(!new)>(le: (K, K) -> bool) {
    && (forall a :: le(a, a))
    && (forall a, b, c :: le(a, b) && le(b, c) ==> le(a, c))
    && (forall a, b :: le(a, b) || le(b, a))
  }

  /** The comparer of `OrderByDescending`. */
  function Flip<K>(le: (K, K) -> bool): (K, K) -> bool {
    (a, b) => le(b, a)
  }

  lemma FlipIsTotalPreorder<K(!new)>(le: (K, K) -> bool)
    requires TotalPreorder(le)
    ensures TotalPreorder(Flip(le))
  {
  }

  predicate Equivalent<K>(le: (K, K) -> bool, a: K, b: K) {
    le(a, b) && le(b, a)
  }

  ghost predicate SortedBy<T, K>(s: seq<T>, key: T -> K, le: (K, K) -> bool) {
    forall i, j :: 0 <= i < j < |s| ==> le(key(s[i]), key(s[j]))
  }

  /** The items of `s`, in order, whose key is equivalent to `k`. */
  function SameKey<T, K>(s: seq<T>, key: T -> K, le: (K, K) -> bool, k: K): seq<T> {
    if s == [] then []
    else (if Equivalent(le, key(s[0]), k) then [s[0]] else []) + SameKey(s[1..], key, le, k)
  }

  /** Stability: every class of equivalent keys keeps its relative order. */
  ghost predicate Stable<T, K(!new)>(r: seq<T>, s: seq<T>, key: T -> K, le: (K, K) -> bool) {
    forall k :: SameKey(r, key, le, k) == SameKey(s, key, le, k)
  }

  lemma {:induction false} SameKeyAppend<T, K>(a: seq<T>, b: seq<T>, key: T -> K, le: (K, K) -> bool, k: K)
    ensures SameKey(a + b, key, le, k) == SameKey(a, key, le, k) + SameKey(b, key, le, k)
    decreases |a|
  {
    if a != [] {
      assert (a + b)[1..] == a[1..] + b;
      SameKeyAppend(a[1..], b, key, le, k);
    } else {
      assert a + b == b;
    }
  }

  /** Inserts `x` in front of the first item whose key is not below `x`'s. */
  function Insert<T, K>(x: T, s: seq<T>, key: T -> K, le: (K, K) -> bool): (r: seq<T>)
    ensures multiset(r) == multiset(s) + multiset{x}
    ensures |r| == |s| + 1
  {
    if s == [] then [x]
    else if le(key(x), key(s[0])) then [x] + s
    else
      assert s == [s[0]] + s[1..];
      [s[0]] + Insert(x, s[1..], key, le)
  }

  /** An item no higher than every item of a sorted list can go in front of it. */
  lemma ConsSorted<T, K>(h: T, rest: seq<T>, key: T -> K, le: (K, K) -> bool)
    requires SortedBy(rest, key, le)
    requires forall e :: e in rest ==> le(key(h), key(e))
    ensures SortedBy([h] + rest, key, le)
  {
    var r := [h] + rest;
    forall i, j | 0 <= i < j < |r|
      ensures le(key(r[i]), key(r[j]))
    {
      if i == 0 {
        assert r[j] == rest[j - 1];
        assert rest[j - 1] in rest;
      } else {
        assert r[i] == rest[i - 1] && r[j] == rest[j - 1];
      }
    }
  }

  /** The head of a sorted list is no higher than `x` when `x` sorts above it, so it
      is no higher than anything `x` is inserted among in the tail. */
  lemma HeadBelowInsert<T, K(!new)>(x: T, s: seq<T>, key: T -> K, le: (K, K) -> bool)
    requires TotalPreorder(le)
    requires s != [] && SortedBy(s, key, le) && !le(key(x), key(s[0]))
    ensures forall e :: e in Insert(x, s[1..], key, le) ==> le(key(s[0]), key(e))
  {
    var rest := Insert(x, s[1..], key, le);
    forall e | e in rest
      ensures le(key(s[0]), key(e))
    {
      assert e in multiset(rest);
      if e != x {
        assert e in multiset(s[1..]);
        var j :| 0 <= j < |s[1..]| && s[1..][j] == e;
        assert s[1 + j] == e;
      }
    }
  }

  lemma {:induction false} InsertSorted<T, K(!new)>(x: T, s: seq<T>, key: T -> K, le: (K, K) -> bool)
    requires TotalPreorder(le)
    requires SortedBy(s, key, le)
    ensures SortedBy(Insert(x, s, key, le), key, le)
    decreases |s|
  {
    if s != [] && !le(key(x), key(s[0])) {
      SortedTail(s, key, le);
      InsertSorted(x, s[1..], key, le);
      HeadBelowInsert(x, s, key, le);
      ConsSorted(s[0], Insert(x, s[1..], key, le), key, le);
    }
  }

  lemma {:induction false} InsertStable<T, K(!new)>(x: T, s: seq<T>, key: T -> K, le: (K, K) -> bool, k: K)
    requires TotalPreorder(le)
    ensures SameKey(Insert(x, s, key, le), key, le, k) == SameKey([x] + s, key, le, k)
    decreases |s|
  {
    if s != [] && !le(key(x), key(s[0])) {
      var rest := s[1..];
      InsertStable(x, rest, key, le, k);
      // s[0] sorts strictly above x, so both cannot be equivalent to k.
      assert !(Equivalent(le, key(x), k) && Equivalent(le, key(s[0]), k));
      calc {
        SameKey(Insert(x, s, key, le), key, le, k);
        { SameKeyAppend([s[0]], Insert(x, rest, key, le), key, le, k); }
        SameKey([s[0]], key, le, k) + SameKey([x] + rest, key, le, k);
        { SameKeyAppend([x], rest, key, le, k); }
        SameKey([s[0]], key, le, k) + SameKey([x], key, le, k) + SameKey(rest, key, le, k);
        SameKey([x], key, le, k) + SameKey([s[0]], key, le, k) + SameKey(rest, key, le, k);
        { SameKeyAppend([s[0]], rest, key, le, k); assert [s[0]] + rest == s; }
        SameKey([x], key, le, k) + SameKey(s, key, le, k);
        { SameKeyAppend([x], s, key, le, k); }
        SameKey([x] + s, key, le, k);
      }
    } else if s == [] {
      assert Insert(x, s, key, le) == [x] + s;
    }
  }

  /** `s.OrderBy(key, le)`: insertion sort, a permutation of `s`. */
  function OrderBy<T, K>(s: seq<T>, key: T -> K, le: (K, K) -> bool): (r: seq<T>)
    ensures multiset(r) == multiset(s) && |r| == |s|
  {
    if s == [] then []
    else
      assert s == [s[0]] + s[1..];
      Insert(s[0], OrderBy(s[1..], key, le), key, le)
  }

  /** `OrderBy` sorts by key, and it is stable. */
  lemma {:induction false} OrderBySortsStably<T, K(!new)>(s: seq<T>, key: T -> K, le: (K, K) -> bool)
    requires TotalPreorder(le)
    ensures SortedBy(OrderBy(s, key, le), key, le)
    ensures Stable(OrderBy(s, key, le), s, key, le)
  {
    if s != [] {
      var rest := OrderBy(s[1..], key, le);
      OrderBySortsStably(s[1..], key, le);
      assert s == [s[0]] + s[1..];
      InsertSorted(s[0], rest, key, le);
      forall k ensures SameKey(OrderBy(s, key, le), key, le, k) == SameKey(s, key, le, k) {
        InsertStable(s[0], rest, key, le, k);
        SameKeyAppend([s[0]], rest, key, le, k);
        SameKeyAppend([s[0]], s[1..], key, le, k);
      }
    }
  }

  /** The tail of a sorted list is sorted, and its head sorts no higher than the next item. */
  lemma SortedTail<T, K>(s: seq<T>, key: T -> K, le: (K, K) -> bool)
    requires s != [] && SortedBy(s, key, le)
    ensures SortedBy(s[1..], key, le)
    ensures |s| > 1 ==> le(key(s[0]), key(s[1]))
  {
    var t := s[1..];
    forall i, j | 0 <= i < j < |t|
      ensures le(key(t[i]), key(t[j]))
    {
      assert t[i] == s[i + 1] && t[j] == s[j + 1];
    }
  }

  /** An item that sorts no higher than the head of a list is inserted in front. */
  lemma InsertAtHead<T, K>(x: T, t: seq<T>, key: T -> K, le: (K, K) -> bool)
    requires t == [] || le(key(x), key(t[0]))
    ensures Insert(x, t, key, le) == [x] + t
  {
  }

  /** Sorting a list that is already sorted leaves it as it is. */
  lemma {:induction false} OrderBySortedIsIdentity<T, K(!new)>(s: seq<T>, key: T -> K, le: (K, K) -> bool)
    requires TotalPreorder(le)
    requires SortedBy(s, key, le)
    ensures OrderBy(s, key, le) == s
  {
    if s != [] {
      var t := s[1..];
      SortedTail(s, key, le);
      OrderBySortedIsIdentity(t, key, le);
      InsertAtHead(s[0], t, key, le);
      assert [s[0]] + t == s;
    }
  }

  /** Appending the same item to both sides keeps two lists equally stable. */
  lemma StableAppend<T, K(!new)>(r: seq<T>, s: seq<T>, x: T, key: T -> K, le: (K, K) -> bool)
    requires Stable(r, s, key, le)
    ensures Stable(r + [x], s + [x], key, le)
  {
    forall k ensures SameKey(r + [x], key, le, k) == SameKey(s + [x], key, le, k) {
      SameKeyAppend(r, [x], key, le, k);
      SameKeyAppend(s, [x], key, le, k);
    }
  }

  /** If `x` keeps the order of `h` and `y` keeps the order of `x + [last]`, then `y` keeps the order of `h + [last]`. */
  lemma StableSnoc<T, K(!new)>(x: seq<T>, y: seq<T>, h: seq<T>, last: T, key: T -> K, le: (K, K) -> bool)
    requires Stable(x, h, key, le) && Stable(y, x + [last], key, le)
    ensures Stable(y, h + [last], key, le)
  {
    StableAppend(x, h, last, key, le);
  }
}
