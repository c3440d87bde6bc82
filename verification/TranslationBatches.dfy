/** Greedy grouping of pending strings into prompts: `estimateBatchChars` and
    `buildTranslationBatches` of scripts/control-ui-i18n.ts. */
module TranslationBatches {

  /** The parts a cache key is hashed from (the rest are constants); the digest is taken to be
      injective. */
  datatype CacheKey = CacheKey(provider: string, model: string, locale: string, segmentId: string, textHash: string)

  datatype BatchItem = BatchItem(cacheKey: CacheKey, key: string, text: string, textHash: string)

  const MAX_BATCH_ITEMS: nat := 20

  function EstimateBatchChars(items: seq<BatchItem>): nat {
    if items == [] then 2
    else
      var item := items[|items| - 1];
      EstimateBatchChars(items[..|items| - 1]) + |item.key| + |item.text| + 8
  }

  function Concat<T>(batches: seq<seq<T>>): seq<T> {
    if batches == [] then [] else Concat(batches[..|batches| - 1]) + batches[|batches| - 1]
  }

  /** The running count the loop keeps: it charges the overhead of 2 once per item. */
  function RunningChars(items: seq<BatchItem>): nat {
    if items == [] then 2
    else RunningChars(items[..|items| - 1]) + EstimateBatchChars([items[|items| - 1]])
  }

  /** `current` has to be sent before `item` can be added. */
  predicate IsFull(current: seq<BatchItem>, item: BatchItem, budget: nat) {
    || |current| >= MAX_BATCH_ITEMS
    || (current != [] && RunningChars(current) + EstimateBatchChars([item]) > budget)
  }

  /** A batch that never went on past the point where it was full. */
  ghost predicate Fits(batch: seq<BatchItem>, budget: nat) {
    forall j :: 0 < j < |batch| ==> HadRoom(batch, j, budget)
  }

  predicate HadRoom(batch: seq<BatchItem>, j: nat, budget: nat)
    requires j < |batch|
  {
    !IsFull(batch[..j], batch[j], budget)
  }

  /** Non-empty batches, each as long as it can be. */
  ghost predicate IsGreedy(batches: seq<seq<BatchItem>>, budget: nat) {
    && (forall i :: 0 <= i < |batches| ==> batches[i] != [] && Fits(batches[i], budget))
    && (forall i, j :: 0 <= i && j == i + 1 < |batches| ==> IsFull(batches[i], batches[j][0], budget))
  }

  /** The loop of `buildTranslationBatches` after some items were `taken`: the batches sent off
      and the one being filled. */
  ghost predicate Arranged(batches: seq<seq<BatchItem>>, current: seq<BatchItem>, currentChars: nat,
                           taken: seq<BatchItem>, budget: nat)
  {
    && Concat(batches) + current == taken && currentChars == RunningChars(current)
    && IsGreedy(batches, budget) && Fits(current, budget)
    && (batches != [] && current != [] ==> IsFull(batches[|batches| - 1], current[0], budget))
  }

  lemma {:induction false} SendOff(batches: seq<seq<BatchItem>>, current: seq<BatchItem>, currentChars: nat,
                taken: seq<BatchItem>, budget: nat)
    requires Arranged(batches, current, currentChars, taken, budget) && current != []
    ensures Arranged(batches + [current], [], 2, taken, budget)
  {
    assert (batches + [current])[..|batches|] == batches;
    assert Concat(batches + [current]) + [] == taken;
  }

  lemma {:induction false} TakeOne(batches: seq<seq<BatchItem>>, current: seq<BatchItem>, currentChars: nat,
                taken: seq<BatchItem>, item: BatchItem, budget: nat)
    requires Arranged(batches, current, currentChars, taken, budget) && !IsFull(current, item, budget)
    requires batches != [] && current == [] ==> IsFull(batches[|batches| - 1], item, budget)
    ensures Arranged(batches, current + [item], currentChars + EstimateBatchChars([item]), taken + [item], budget)
  {
    FitsOneMore(current, item, budget);
    assert (current + [item])[..|current|] == current;
    assert current != [] ==> (current + [item])[0] == current[0];
    assert Concat(batches) + (current + [item]) == taken + [item];
  }

  /** The `if` of the loop: the current batch is sent off when `item` does not go into it. */
  method MakeRoom(batches: seq<seq<BatchItem>>, current: seq<BatchItem>, currentChars: nat,
                  item: BatchItem, budget: nat, ghost taken: seq<BatchItem>)
    returns (batches': seq<seq<BatchItem>>, current': seq<BatchItem>, currentChars': nat)
    requires Arranged(batches, current, currentChars, taken, budget)
    requires batches != [] ==> current != []
    ensures Arranged(batches', current', currentChars', taken, budget) && !IsFull(current', item, budget)
    ensures batches' != [] && current' == [] ==> IsFull(batches'[|batches'| - 1], item, budget)
  {
    var itemChars := EstimateBatchChars([item]);
    var wouldOverflow := |current| > 0 && currentChars + itemChars > budget;
    var reachedMaxItems := |current| >= MAX_BATCH_ITEMS;
    if wouldOverflow || reachedMaxItems {
      SendOff(batches, current, currentChars, taken, budget);
      return batches + [current], [], 2;
    }
    return batches, current, currentChars;
  }

  method BuildTranslationBatches(items: seq<BatchItem>, budget: nat) returns (batches: seq<seq<BatchItem>>)
    ensures Concat(batches) == items
    ensures IsGreedy(batches, budget)
  {
    batches := [];
    var current: seq<BatchItem> := [];
    var currentChars: nat := 2;
    for index := 0 to |items|
      invariant Arranged(batches, current, currentChars, items[..index], budget)
      invariant batches != [] ==> current != []
    {
      var item := items[index];
      batches, current, currentChars := MakeRoom(batches, current, currentChars, item, budget, items[..index]);
      assert items[..index + 1] == items[..index] + [item];
      TakeOne(batches, current, currentChars, items[..index], item, budget);
      current := current + [item];
      currentChars := currentChars + EstimateBatchChars([item]);
    }
    assert items[..|items|] == items;
    if |current| > 0 {
      SendOff(batches, current, currentChars, items, budget);
      batches := batches + [current];
    }
    assert Concat(batches) + [] == Concat(batches);
  }

  lemma {:induction false} FitsOneMore(current: seq<BatchItem>, item: BatchItem, budget: nat)
    requires Fits(current, budget) && !IsFull(current, item, budget)
    ensures Fits(current + [item], budget)
  {
    forall j | 0 < j < |current + [item]|
      ensures HadRoom(current + [item], j, budget)
    {
      assert j < |current| ==> HadRoom(current, j, budget);
      assert (current + [item])[..j] == current[..j];
      if j == |current| {
        assert current[..j] == current;
      }
    }
  }

  lemma {:induction false} RunningOverestimates(items: seq<BatchItem>)
    ensures RunningChars(items) == EstimateBatchChars(items) + 2 * |items|
  {
    if items != [] {
      RunningOverestimates(items[..|items| - 1]);
      var last := items[|items| - 1];
      assert [last][..0] == [] && EstimateBatchChars([last]) == EstimateBatchChars([]) + |last.key| + |last.text| + 8;
    }
  }

  /** Every item counts with its key, its text and 8 more, once, and the list itself with 2. */
  lemma {:induction false} EstimateAdds(a: seq<BatchItem>, b: seq<BatchItem>)
    ensures EstimateBatchChars(a + b) + 2 == EstimateBatchChars(a) + EstimateBatchChars(b)
    ensures |b| == 1 ==> EstimateBatchChars(b) == 2 + |b[0].key| + |b[0].text| + 8
  {
    if b == [] {
      assert a + b == a;
    } else {
      var n := |b| - 1;
      assert (a + b)[..|a + b| - 1] == a + b[..n];
      EstimateAdds(a, b[..n]);
    }
  }

  /** Of two batches in a row, the first one has 20 items, or the first item of the second one would
      have brought its count over the budget: 2 more per item than the estimate of both. */
  lemma {:induction false} NextDidNotFit(batches: seq<seq<BatchItem>>, i: nat, budget: nat)
    requires IsGreedy(batches, budget) && i + 1 < |batches|
    ensures var batch, item := batches[i], batches[i + 1][0];
            |batch| == 20 || EstimateBatchChars(batch + [item]) + 2 * |batch| + 2 > budget
  {
    var batch, item := batches[i], batches[i + 1][0];
    assert IsFull(batch, item, budget);
    FittingBatchIsSmall(batch, budget);
    RunningOverestimates(batch);
    EstimateAdds(batch, [item]);
  }

  /** Every batch holds at most 20 items, and one with several items is within the budget. */
  lemma {:induction false} FittingBatchIsSmall(batch: seq<BatchItem>, budget: nat)
    requires Fits(batch, budget)
    ensures |batch| <= 20
    ensures |batch| > 1 ==> EstimateBatchChars(batch) <= budget
  {
    var j := |batch| - 1;
    if |batch| > 1 {
      assert HadRoom(batch, j, budget);
      RunningOverestimates(batch);
    }
  }

  lemma {:induction false} ConcatFirst<T>(batches: seq<seq<T>>)
    requires batches != []
    ensures Concat(batches) == batches[0] + Concat(batches[1..])
  {
    if |batches| > 1 {
      ConcatFirst(batches[..|batches| - 1]);
      assert batches[..|batches| - 1][1..] == batches[1..][..|batches| - 2];
    } else {
      assert batches[..0] == [] && batches[1..] == [];
    }
  }

  /** Non-empty batches make up at least one item each. */
  lemma {:induction false} ConcatPrefix<T>(batches: seq<seq<T>>, n: nat)
    requires n <= |batches| && forall i :: 0 <= i < |batches| ==> batches[i] != []
    ensures Concat(batches[..n]) <= Concat(batches)
    ensures |Concat(batches[..n])| + |batches| - n <= |Concat(batches)|
  {
    if n == |batches| {
      assert batches[..n] == batches;
    } else {
      var m := |batches| - 1;
      assert batches[..m][..n] == batches[..n];
      ConcatPrefix(batches[..m], n);
    }
  }

  /** What follows the first batch is the first item of the second. */
  lemma {:induction false} AfterFirstBatch<T>(batches: seq<seq<T>>)
    requires batches != [] && (forall i :: 0 <= i < |batches| ==> batches[i] != [])
    ensures batches[0] <= Concat(batches)
    ensures |Concat(batches)| > |batches[0]| ==>
              |batches| > 1 && Concat(batches)[|batches[0]|] == batches[1][0]
  {
    ConcatFirst(batches);
    if |batches| > 1 {
      ConcatFirst(batches[1..]);
    }
  }

  lemma {:induction false} NotYetFull(shorter: seq<BatchItem>, longer: seq<BatchItem>, budget: nat)
    requires Fits(longer, budget) && shorter != [] && shorter <= longer && |shorter| < |longer|
    ensures !IsFull(shorter, longer[|shorter|], budget)
  {
    assert HadRoom(longer, |shorter|, budget) && longer[..|shorter|] == shorter;
  }

  /** Of two greedy groupings of the same items, neither starts with the shorter batch. */
  lemma {:induction false} FirstBatchIsLongest(a: seq<seq<BatchItem>>, b: seq<seq<BatchItem>>, budget: nat)
    requires a != [] && b != [] && IsGreedy(a, budget) && IsGreedy(b, budget)
    requires Concat(a) == Concat(b)
    ensures |a[0]| >= |b[0]|
  {
    AfterFirstBatch(a);
    AfterFirstBatch(b);
    if |a[0]| < |b[0]| {
      NotYetFull(a[0], b[0], budget);
    }
  }

  /** The grouping is determined: there is one way only to be greedy. */
  lemma {:induction false} GreedyIsUnique(a: seq<seq<BatchItem>>, b: seq<seq<BatchItem>>, budget: nat)
    requires IsGreedy(a, budget) && IsGreedy(b, budget) && Concat(a) == Concat(b)
    ensures a == b
  {
    if a == [] || b == [] {
      if a != [] { ConcatFirst(a); }
      if b != [] { ConcatFirst(b); }
    } else {
      ConcatFirst(a);
      ConcatFirst(b);
      FirstBatchIsLongest(a, b, budget);
      FirstBatchIsLongest(b, a, budget);
      assert a[0] == Concat(a)[..|a[0]|] == Concat(b)[..|a[0]|] == b[0];
      assert Concat(a[1..]) == Concat(a)[|a[0]|..] == Concat(b)[|b[0]|..] == Concat(b[1..]);
      GreedyIsUnique(a[1..], b[1..], budget);
      assert a == [a[0]] + a[1..] && b == [b[0]] + b[1..];
    }
  }
}
