/** Splitting the id-sorted loose objects into size-bounded packs. */
module Packing {
  import opened Bytes
  import opened Sorting

  /** A loose object: its id and the length of its on-disk bytes. */
  datatype Item = Item(id: Id, size: nat)

  function Sum(items: seq<Item>): nat {
    if items == [] then 0 else items[0].size + Sum(items[1..])
  }

  /** A batch is within the target, or a single object; target 0 means no bound. */
  predicate Fits(target: nat, batch: seq<Item>) {
    batch != [] && (target == 0 || |batch| == 1 || Sum(batch) <= target)
  }

  /** An order-preserving split of the items into batches that fit. */
  ghost predicate ValidSplit(target: nat, items: seq<Item>, batches: seq<seq<Item>>) {
    Flatten(batches) == items && forall i :: 0 <= i < |batches| ==> Fits(target, batches[i])
  }

  lemma {:induction false} SumSplit(items: seq<Item>, j: nat)
    requires j <= |items|
    ensures Sum(items) == Sum(items[..j]) + Sum(items[j..])
    decreases j
  {
    if j > 0 {
      SumSplit(items[1..], j - 1);
      assert items[1..][..j - 1] == items[..j][1..] && items[1..][j - 1..] == items[j..];
    } else {
      assert items[0..] == items;
    }
  }

  lemma {:induction false} SumSnoc(items: seq<Item>, x: Item)
    ensures Sum(items + [x]) == Sum(items) + x.size
  {
    SumSplit(items + [x], |items|);
    assert (items + [x])[..|items|] == items && (items + [x])[|items|..] == [x];
    assert [x][1..] == [];
  }

  /** How far the first batch extends, given that it has j items already. */
  function Extend(target: nat, items: seq<Item>, j: nat): (k: nat)
    requires 1 <= j <= |items|
    ensures j <= k <= |items|
    decreases |items| - j
  {
    if j < |items| && (target == 0 || Sum(items[..j + 1]) <= target) then Extend(target, items, j + 1) else j
  }

  /** The greedy split: every batch is as long as it can be. */
  function Greedy(target: nat, items: seq<Item>): (batches: seq<seq<Item>>)
    decreases |items|
  {
    if items == [] then []
    else
      var k := Extend(target, items, 1);
      [items[..k]] + Greedy(target, items[k..])
  }

  lemma {:induction false} ExtendFits(target: nat, items: seq<Item>, j: nat)
    requires 1 <= j <= |items| && Fits(target, items[..j])
    ensures Fits(target, items[..Extend(target, items, j)])
    decreases |items| - j
  {
    if j < |items| && (target == 0 || Sum(items[..j + 1]) <= target) {
      ExtendFits(target, items, j + 1);
    }
  }

  /** A prefix within the target is covered by the first greedy batch. */
  lemma {:induction false} ExtendCovers(target: nat, items: seq<Item>, j: nat, m: nat)
    requires 1 <= j <= |items| && m <= |items| && (target == 0 || m <= j || Sum(items[..m]) <= target)
    ensures m <= Extend(target, items, j)
    decreases |items| - j
  {
    if m > j {
      SumSplit(items[..m], j + 1);
      assert items[..m][..j + 1] == items[..j + 1];
      ExtendCovers(target, items, j + 1, m);
    }
  }

  lemma {:induction false} GreedyValid(target: nat, items: seq<Item>)
    ensures ValidSplit(target, items, Greedy(target, items))
    decreases |items|
  {
    if items != [] {
      var k := Extend(target, items, 1);
      ExtendFits(target, items, 1);
      GreedyValid(target, items[k..]);
      assert items == items[..k] + items[k..];
      assert Greedy(target, items)[1..] == Greedy(target, items[k..]);
    }
  }

  /** A suffix never needs more greedy batches than any valid split of the whole. */
  lemma {:induction false} GreedyAhead(target: nat, items: seq<Item>, other: seq<seq<Item>>, j: nat)
    requires ValidSplit(target, items, other) && j <= |items|
    ensures |Greedy(target, items[j..])| <= |other|
    decreases |other|
  {
    if j < |items| {
      var l := |other[0]|;
      SplitHead(target, items, other);
      if j >= l {
        GreedyAhead(target, items[l..], other[1..], j - l);
        assert items[l..][j - l..] == items[j..];
      } else {
        var k := Extend(target, items[j..], 1);
        RestOfBatch(target, items, other[0], j);
        ExtendCovers(target, items[j..], 1, l - j);
        GreedyAhead(target, items[l..], other[1..], j + k - l);
        assert items[l..][j + k - l..] == items[j..][k..];
      }
    }
  }

  lemma {:induction false} SplitHead(target: nat, items: seq<Item>, other: seq<seq<Item>>)
    requires ValidSplit(target, items, other) && other != []
    ensures |other[0]| <= |items| && items[..|other[0]|] == other[0]
    ensures ValidSplit(target, items[|other[0]|..], other[1..])
  {
    assert items == other[0] + Flatten(other[1..]);
  }

  /** What is left of a batch after dropping a prefix still fits. */
  lemma {:induction false} RestOfBatch(target: nat, items: seq<Item>, batch: seq<Item>, j: nat)
    requires Fits(target, batch) && |batch| <= |items| && items[..|batch|] == batch && j < |batch|
    ensures target == 0 || |batch| - j <= 1 || Sum(items[j..][..|batch| - j]) <= target
  {
    SumSplit(batch, j);
    assert batch[j..] == items[j..][..|batch| - j];
  }

  /** No split that preserves the order and fits the target has fewer batches. */
  lemma {:induction false} GreedyIsMinimal(target: nat, items: seq<Item>, other: seq<seq<Item>>)
    requires ValidSplit(target, items, other)
    ensures |Greedy(target, items)| <= |other|
  {
    GreedyAhead(target, items, other, 0);
    assert items[0..] == items;
  }

  /** A valid split that no valid split beats. */
  ghost predicate MinimalSplit(target: nat, items: seq<Item>, batches: seq<seq<Item>>) {
    ValidSplit(target, items, batches) && forall other :: ValidSplit(target, items, other) ==> |batches| <= |other|
  }

  lemma {:induction false} GreedyBest(target: nat, items: seq<Item>)
    ensures MinimalSplit(target, items, Greedy(target, items))
  {
    GreedyValid(target, items);
    forall other | ValidSplit(target, items, other)
      ensures |Greedy(target, items)| <= |other|
    {
      GreedyIsMinimal(target, items, other);
    }
  }

  /** A closed batch is the first greedy batch of what remains. */
  lemma {:induction false} GreedyCloses(target: nat, current: seq<Item>, rest: seq<Item>)
    requires Fits(target, current) && rest != [] && target > 0 && Sum(current) + rest[0].size > target
    ensures Greedy(target, current + rest) == [current] + Greedy(target, rest)
  {
    var items := current + rest;
    assert items[..|current|] == current && items[|current|..] == rest;
    assert items[..|current| + 1] == current + [rest[0]];
    SumSnoc(current, rest[0]);
    ExtendCovers(target, items, 1, |current|);
    ExtendStops(target, items, 1, |current|);
  }

  lemma {:induction false} ExtendStops(target: nat, items: seq<Item>, j: nat, m: nat)
    requires 1 <= j <= m < |items| && target > 0 && Sum(items[..m + 1]) > target
    ensures Extend(target, items, j) <= m
    decreases |items| - j
  {
    if j < m {
      ExtendStops(target, items, j + 1, m);
    }
  }

  /** The last batch is closed by the end of the input. */
  lemma {:induction false} GreedyLast(target: nat, current: seq<Item>)
    requires Fits(target, current)
    ensures Greedy(target, current) == [current]
  {
    assert current[..|current|] == current;
    ExtendCovers(target, current, 1, |current|);
  }

  /** The closed batches, followed by the greedy split of what is open or unread. */
  ghost predicate OnTrack(target: nat, items: seq<Item>, batches: seq<seq<Item>>, current: seq<Item>, rest: seq<Item>) {
    && (current == [] || Fits(target, current))
    && batches + Greedy(target, current + rest) == Greedy(target, items)
  }

  lemma {:induction false} CloseBatch(target: nat, items: seq<Item>, batches: seq<seq<Item>>,
                                      current: seq<Item>, rest: seq<Item>)
    requires OnTrack(target, items, batches, current, rest)
    requires current != [] && rest != [] && target > 0 && Sum(current) + rest[0].size > target
    ensures OnTrack(target, items, batches + [current], [], rest)
  {
    GreedyCloses(target, current, rest);
    assert [] + rest == rest;
    assert batches + ([current] + Greedy(target, rest)) == batches + [current] + Greedy(target, rest);
  }

  lemma {:induction false} PushItem(target: nat, items: seq<Item>, batches: seq<seq<Item>>,
                                    current: seq<Item>, rest: seq<Item>)
    requires OnTrack(target, items, batches, current, rest) && rest != []
    requires target == 0 || current == [] || Sum(current) + rest[0].size <= target
    ensures OnTrack(target, items, batches, current + [rest[0]], rest[1..])
    ensures Sum(current + [rest[0]]) == Sum(current) + rest[0].size
  {
    SumSnoc(current, rest[0]);
    assert current + rest == current + [rest[0]] + rest[1..];
  }

  /** The end of the loop: the open batch is the last one. */
  lemma {:induction false} CloseLast(target: nat, items: seq<Item>, batches: seq<seq<Item>>, current: seq<Item>)
    requires OnTrack(target, items, batches, current, [])
    ensures MinimalSplit(target, items, if current != [] then batches + [current] else batches)
    ensures Greedy(target, items) == if current != [] then batches + [current] else batches
  {
    assert current + [] == current;
    if current != [] {
      GreedyLast(target, current);
    } else {
      assert batches + [] == batches;
    }
    GreedyBest(target, items);
  }

  /** One iteration: close the open batch if the item does not fit it, then add the item. */
  method AddItem(target: nat, batches0: seq<seq<Item>>, current0: seq<Item>, bytes0: nat, x: Item,
                 ghost items: seq<Item>, ghost rest: seq<Item>)
    returns (batches: seq<seq<Item>>, current: seq<Item>, bytes: nat)
    requires bytes0 == Sum(current0) && rest != [] && rest[0] == x
    requires OnTrack(target, items, batches0, current0, rest)
    ensures bytes == Sum(current) && OnTrack(target, items, batches, current, rest[1..])
  {
    batches, current, bytes := batches0, current0, bytes0;
    if target > 0 && current != [] && bytes + x.size > target {
      CloseBatch(target, items, batches, current, rest);
      batches := batches + [current];
      current, bytes := [], 0;
    }
    PushItem(target, items, batches, current, rest);
    current, bytes := current + [x], bytes + x.size;
  }

  /** The batching loop, and what its result is: the minimal valid split. */
  method Batches(items: seq<Item>, target: nat) returns (batches: seq<seq<Item>>)
    ensures MinimalSplit(target, items, batches)
    ensures batches == Greedy(target, items)
  {
    batches := [];
    var current: seq<Item> := [];
    var bytes := 0;
    StartOnTrack(target, items);
    for i := 0 to |items|
      invariant bytes == Sum(current) && OnTrack(target, items, batches, current, items[i..])
    {
      batches, current, bytes := AddItem(target, batches, current, bytes, items[i], items, items[i..]);
      assert items[i..][1..] == items[i + 1..];
    }
    assert items[|items|..] == [];
    CloseLast(target, items, batches, current);
    if current != [] {
      batches := batches + [current];
    }
  }

  lemma {:induction false} StartOnTrack(target: nat, items: seq<Item>)
    ensures OnTrack(target, items, [], [], items[0..])
  {
    assert [] + items[0..] == items;
    assert [] + Greedy(target, items) == Greedy(target, items);
  }

  predicate IdLe(a: Item, b: Item) { a.id <= b.id }

  ghost predicate DistinctIds(items: seq<Item>) {
    forall i, j :: 0 <= i < j < |items| ==> items[i].id != items[j].id
  }

  lemma {:induction false} SameFirst(a: seq<Item>, b: seq<Item>)
    requires Sorted(IdLe, a) && Sorted(IdLe, b) && DistinctIds(a)
    requires multiset(a) == multiset(b) && a != [] && b != []
    ensures a[0] == b[0]
  {
    assert a[0] in multiset(b) && b[0] in multiset(a);
    var i :| 0 <= i < |b| && b[i] == a[0];
    var j :| 0 <= j < |a| && a[j] == b[0];
    assert i == 0 || IdLe(b[0], b[i]);
    assert j == 0 || IdLe(a[0], a[j]);
  }

  lemma {:induction false} TailItems(a: seq<Item>)
    requires a != []
    ensures multiset(a[1..]) == multiset(a) - multiset{a[0]}
    ensures a == [a[0]] + a[1..]
  {
    assert a == [a[0]] + a[1..];
  }

  /** Objects with distinct ids have one sorted order. */
  lemma {:induction false} SortedUnique(a: seq<Item>, b: seq<Item>)
    requires Sorted(IdLe, a) && Sorted(IdLe, b) && DistinctIds(a)
    requires multiset(a) == multiset(b)
    ensures a == b
  {
    if a == [] {
      assert |multiset(b)| == 0;
    } else {
      assert |multiset(b)| == |a|;
      SameFirst(a, b);
      TailItems(a);
      TailItems(b);
      SortedUnique(a[1..], b[1..]);
    }
  }

  lemma {:induction false} DistinctPermuted(a: seq<Item>, b: seq<Item>)
    requires multiset(a) == multiset(b) && DistinctIds(a)
    ensures DistinctIds(b)
  {
    forall i, j | 0 <= i < j < |b| ensures b[i].id != b[j].id {
      if b[i] == b[j] {
        assert b == b[..i] + [b[i]] + b[i + 1..j] + [b[j]] + b[j + 1..];
        assert multiset(b)[b[i]] >= 2;
        OnceOnly(a, b[i]);
      } else {
        assert b[i] in multiset(a) && b[j] in multiset(a);
      }
    }
  }

  lemma {:induction false} OnceOnly(a: seq<Item>, x: Item)
    requires DistinctIds(a)
    ensures multiset(a)[x] <= 1
  {
    if a != [] {
      OnceOnly(a[1..], x);
      assert a == [a[0]] + a[1..];
      assert multiset(a) == multiset{a[0]} + multiset(a[1..]);
      if x == a[0] {
        assert x !in a[1..];
        assert x !in multiset(a[1..]);
      }
    }
  }

  /** One set of objects is packed the same way, whatever order the directory lists it in. */
  lemma {:induction false} PacksRepeatable(target: nat, found: seq<Item>, again: seq<Item>)
    requires DistinctIds(found) && multiset(found) == multiset(again)
    ensures Greedy(target, Sort(IdLe, found)) == Greedy(target, Sort(IdLe, again))
  {
    SortCorrect(IdLe, found, Item(0, 0));
    SortCorrect(IdLe, again, Item(0, 0));
    DistinctPermuted(found, Sort(IdLe, found));
    SortedUnique(Sort(IdLe, found), Sort(IdLe, again));
  }

  /** Sorting and batching the loose objects found. */
  method PackBatches(found: seq<Item>, target: nat) returns (batches: seq<seq<Item>>)
    ensures batches == Greedy(target, Sort(IdLe, found))
    ensures MinimalSplit(target, Sort(IdLe, found), batches)
    ensures multiset(Flatten(batches)) == multiset(found) && Sorted(IdLe, Flatten(batches))
  {
    SortCorrect(IdLe, found, Item(0, 0));
    batches := Batches(Sort(IdLe, found), target);
  }
}
