/**
  The split of the answer records into the batches the handler stores one
  after the other: consecutive slices of at most ten records (the store's
  limit per create call).
*/
module Batching {

  /** The most records one create call takes. */
  const BatchSize: nat := 10

  /** The batches flattened back into one list. */
  function Concat<T>(batches: seq<seq<T>>): seq<T> {
    if |batches| == 0 then [] else batches[0] + Concat(batches[1..])
  }

  function Min(a: int, b: int): int {
    if a <= b then a else b
  }

  /**
    `answersToCreate.slice(i, i + 10)` for i = 0, 10, 20, ...: the batches
    give back the list in order, none is empty, all but the last are full,
    and there are ⌈n/10⌉ of them.
  */
  function Batches<T>(xs: seq<T>): (r: seq<seq<T>>)
    ensures Concat(r) == xs
    ensures forall i :: 0 <= i < |r| ==> 0 < |r[i]| <= BatchSize
    ensures forall i :: 0 <= i < |r| - 1 ==> |r[i]| == BatchSize
    ensures |r| == (|xs| + BatchSize - 1) / BatchSize
    decreases |xs|
  {
    if |xs| == 0 then []
    else if |xs| <= BatchSize then
      assert Concat([xs]) == xs + Concat<T>([]);
      [xs]
    else
      var rest := Batches(xs[BatchSize..]);
      var r := [xs[..BatchSize]] + rest;
      assert r[1..] == rest;
      assert xs == xs[..BatchSize] + xs[BatchSize..];
      r
  }

  /** Batch `k` is the slice of the list from 10k up to 10k + 10, cut at the end of the list. */
  lemma {:induction false} BatchIsSlice<T>(xs: seq<T>, k: nat)
    requires k < |Batches(xs)|
    ensures BatchSize * k < |xs|
    ensures Batches(xs)[k] == xs[BatchSize * k .. Min(BatchSize * k + BatchSize, |xs|)]
    decreases |xs|
  {
    if |xs| > BatchSize && k > 0 {
      var tail := xs[BatchSize..];
      assert Batches(xs)[k] == Batches(tail)[k - 1];
      BatchIsSlice(tail, k - 1);
      assert tail[BatchSize * (k - 1) .. Min(BatchSize * (k - 1) + BatchSize, |tail|)]
        == xs[BatchSize * k .. Min(BatchSize * k + BatchSize, |xs|)];
    }
  }

  /** The loop `for (i = 0; i < n; i += 10)` runs once per batch: batch `k` exists exactly when 10k < n. */
  lemma BatchExists<T>(xs: seq<T>, k: nat)
    ensures k < |Batches(xs)| <==> BatchSize * k < |xs|
  {
  }

  /** Twenty-three records go out as batches of 10, 10 and 3. */
  lemma {:induction false} TwentyThreeRecords<T>(xs: seq<T>)
    requires |xs| == 23
    ensures |Batches(xs)| == 3
    ensures |Batches(xs)[0]| == 10 && |Batches(xs)[1]| == 10 && |Batches(xs)[2]| == 3
  {
    BatchIsSlice(xs, 2);
  }
}
