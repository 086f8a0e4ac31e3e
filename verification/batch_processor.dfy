/** `BatchProcessor.Batchify`: an optional stable sort by a name selector, then
    slicing into consecutive batches of `batchSize` items. */
module BatchProcessor {
  import opened Wrappers
  import opened Errors
  import opened Ordering

  function Flatten<T>(batches: seq<seq<T>>): seq<T> {
    if batches == [] then [] else batches[0] + Flatten(batches[1..])
  }

  lemma {:induction false} FlattenAppend<T>(a: seq<seq<T>>, b: seq<seq<T>>)
    ensures Flatten(a + b) == Flatten(a) + Flatten(b)
    decreases |a|
  {
    if a == [] {
      assert a + b == b;
    } else {
      assert (a + b)[1..] == a[1..] + b;
      FlattenAppend(a[1..], b);
    }
  }

  /** A non-empty queue flattens to its first batch followed by the rest. */
  lemma FlattenSplit<T>(queue: seq<seq<T>>)
    requires queue != []
    ensures Flatten(queue) == queue[0] + Flatten(queue[1..])
    ensures forall x :: x in queue[0] ==> x in Flatten(queue)
    ensures forall x :: x in Flatten(queue[1..]) ==> x in Flatten(queue)
    ensures forall i :: |queue[0]| <= i < |Flatten(queue)| ==> Flatten(queue)[i] == Flatten(queue[1..])[i - |queue[0]|]
  {
  }

  /** The consecutive slices of `list`, each of `n` items except a shorter last one. */
  function Chunks<T>(list: seq<T>, n: nat): (r: seq<seq<T>>)
    requires n > 0
    ensures Flatten(r) == list
    ensures (|r| - 1) * n < |list| <= |r| * n
    ensures forall i :: 0 <= i < |r| ==> 0 < |r[i]| <= n
    ensures forall i :: 0 <= i < |r| - 1 ==> |r[i]| == n
    decreases |list|
  {
    if |list| == 0 then []
    else if |list| <= n then
      [list]
    else
      var rest := Chunks(list[n..], n);
      var r := [list[..n]] + rest;
      assert r[1..] == rest;
      assert list[..n] + list[n..] == list;
      assert (|rest| + 1) * n == |rest| * n + n;
      assert |rest| * n == (|rest| - 1) * n + n;
      r
  }

  /** `Batchify(items, batchSize, selector, sortAscending)`; `le` is the name comparer. */
  function Batchify<T>(
    items: seq<T>,
    batchSize: int,
    selector: Option<T -> string>,
    sortAscending: bool,
    le: (string, string) -> bool): (r: Result<seq<seq<T>>, Error>)
    requires TotalPreorder(le)
    ensures r.Failure? <==> batchSize <= 0
    ensures r.Failure? ==> r.error == Argument("batchSize")
    ensures r.Success? ==> multiset(Flatten(r.value)) == multiset(items)
    ensures r.Success? && selector.None? ==> Flatten(r.value) == items
    ensures r.Success? && selector.Some? && sortAscending ==>
              SortedBy(Flatten(r.value), selector.value, le)
              && Stable(Flatten(r.value), items, selector.value, le)
    ensures r.Success? && selector.Some? && !sortAscending ==>
              SortedBy(Flatten(r.value), selector.value, Flip(le))
              && Stable(Flatten(r.value), items, selector.value, Flip(le))
    ensures r.Success? ==> (|r.value| - 1) * batchSize < |items| <= |r.value| * batchSize
    ensures r.Success? ==> forall i :: 0 <= i < |r.value| ==> 0 < |r.value[i]| <= batchSize
    ensures r.Success? ==> forall i :: 0 <= i < |r.value| - 1 ==> |r.value[i]| == batchSize
  {
    if batchSize <= 0 then Failure(Argument("batchSize"))
    else Success(Chunks(Ordered(items, selector, sortAscending, le), batchSize))
  }

  /** The list `Batchify` slices: the items, ordered by the selector when there is one. */
  function Ordered<T>(items: seq<T>, selector: Option<T -> string>, sortAscending: bool, le: (string, string) -> bool): (r: seq<T>)
    requires TotalPreorder(le)
    ensures multiset(r) == multiset(items) && |r| == |items|
    ensures selector.None? ==> r == items
    ensures selector.Some? && sortAscending ==> SortedBy(r, selector.value, le) && Stable(r, items, selector.value, le)
    ensures selector.Some? && !sortAscending ==>
              SortedBy(r, selector.value, Flip(le)) && Stable(r, items, selector.value, Flip(le))
  {
    if selector.None? then items
    else if sortAscending then
      OrderBySortsStably(items, selector.value, le);
      OrderBy(items, selector.value, le)
    else
      FlipIsTotalPreorder(le);
      OrderBySortsStably(items, selector.value, Flip(le));
      OrderBy(items, selector.value, Flip(le))
  }

  lemma MulLeftMono(x: int, y: int, n: nat)
    requires x <= y
    ensures x * n <= y * n
  {
    assert y * n - x * n == (y - x) * n;
  }

  /** The number of batches is the ceiling of `|items| / batchSize`; no input gives no batch. */
  lemma {:induction false} BatchCountIsCeiling(count: int, items: nat, batchSize: nat)
    requires batchSize > 0
    requires (count - 1) * batchSize < items <= count * batchSize
    ensures count == (items + batchSize - 1) / batchSize
    ensures items == 0 <==> count == 0
  {
    var q := (items + batchSize - 1) / batchSize;
    var rem := (items + batchSize - 1) % batchSize;
    assert items + batchSize - 1 == q * batchSize + rem && 0 <= rem < batchSize;
    assert (q + 1) * batchSize == q * batchSize + batchSize;
    assert (count - 1) * batchSize == count * batchSize - batchSize;
    if count > q {
      MulLeftMono(q + 1, count, batchSize);
      assert false;
    }
    if count < q {
      MulLeftMono(count + 1, q, batchSize);
      assert false;
    }
  }
}
