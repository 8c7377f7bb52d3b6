/**
 updateInBatches: records are cut into consecutive batches of at most 500 and
 each batch is inserted on its own; a batch whose insert throws is skipped and
 the loop goes on with the next one.
 */
module BatchWriter {
  import opened Subsequences

  const BatchSize: nat := 500

  function Min(a: int, b: int): int { if a <= b then a else b }

  /** `Math.ceil(n / 500)`: the number of insertMany calls for n records. */
  function BatchCount(n: nat): (c: nat)
    ensures c * BatchSize >= n
    ensures c > 0 ==> (c - 1) * BatchSize < n
    ensures c == 0 <==> n == 0
  {
    (n + BatchSize - 1) / BatchSize
  }

  /** `Array.prototype.slice(start, end)` for non-negative bounds: both are clamped to the length. */
  function Slice<T>(data: seq<T>, start: nat, end: nat): seq<T>
  {
    var lo := Min(start, |data|);
    var hi := Min(end, |data|);
    if lo <= hi then data[lo..hi] else []
  }

  /** `data.slice(i * batchSize, (i + 1) * batchSize)` */
  function Batch<T>(data: seq<T>, i: nat): seq<T>
  {
    Slice(data, i * BatchSize, (i + 1) * BatchSize)
  }

  lemma BatchBounds(n: nat, i: nat)
    requires i < BatchCount(n)
    ensures i * BatchSize < n
    ensures i * BatchSize < (i + 1) * BatchSize
  {
    assert i <= BatchCount(n) - 1;
    assert i * BatchSize <= (BatchCount(n) - 1) * BatchSize;
  }

  /** The batches updateInBatches hands to insertMany, in order. */
  function Batches<T>(data: seq<T>): (r: seq<seq<T>>)
    ensures |r| == BatchCount(|data|)
    ensures forall i :: 0 <= i < |r| ==> 0 < |r[i]| <= BatchSize
    ensures forall i :: 0 <= i < |r| ==> r[i] == data[i * BatchSize .. Min((i + 1) * BatchSize, |data|)]
  {
    var r := seq(BatchCount(|data|), i requires 0 <= i < BatchCount(|data|) => Batch(data, i));
    assert forall i :: 0 <= i < |r| ==> i * BatchSize < |data| by {
      forall i | 0 <= i < |r| ensures i * BatchSize < |data| { BatchBounds(|data|, i); }
    }
    r
  }

  /** Concatenation, from the front: the last sequence is appended last. */
  function Flatten<T>(ss: seq<seq<T>>): seq<T>
    decreases |ss|
  {
    if |ss| == 0 then [] else Flatten(ss[..|ss| - 1]) + ss[|ss| - 1]
  }

  /** The first k batches together are the first min(500 k, n) records. */
  lemma {:induction false} BatchesPrefix<T>(data: seq<T>, k: nat)
    requires k <= BatchCount(|data|)
    ensures Flatten(Batches(data)[..k]) == data[..Min(k * BatchSize, |data|)]
  {
    if k > 0 {
      var bs := Batches(data);
      BatchesPrefix(data, k - 1);
      assert bs[..k][..k - 1] == bs[..k - 1];
      BatchBounds(|data|, k - 1);
      assert Min((k - 1) * BatchSize, |data|) == (k - 1) * BatchSize;
      assert data[..(k - 1) * BatchSize] + data[(k - 1) * BatchSize .. Min(k * BatchSize, |data|)]
          == data[..Min(k * BatchSize, |data|)];
    }
  }

  /** Concatenating the batches gives the records back. */
  lemma BatchesConcat<T>(data: seq<T>)
    ensures Flatten(Batches(data)) == data
  {
    var bs := Batches(data);
    BatchesPrefix(data, |bs|);
    assert bs[..|bs|] == bs;
  }

  /** The last batch holds n mod 500 records, or a full 500 when 500 divides n. */
  lemma LastBatchSize<T>(data: seq<T>)
    requires |data| > 0
    ensures var bs := Batches(data);
      |bs[|bs| - 1]| == if |data| % BatchSize == 0 then BatchSize else |data| % BatchSize
  {
  }

  /** The batches whose insert did not throw, each in its place; failed ones are empty. */
  function Kept<T>(batches: seq<seq<T>>, failing: set<nat>): (r: seq<seq<T>>)
    ensures |r| == |batches|
    ensures forall i :: 0 <= i < |r| ==> r[i] == if i in failing then [] else batches[i]
  {
    seq(|batches|, i requires 0 <= i < |batches| => if i in failing then [] else batches[i])
  }

  /** What the store gains from updateInBatches when the inserts of the batches numbered in failing throw. */
  function Inserted<T>(data: seq<T>, failing: set<nat>): seq<T>
  {
    Flatten(Kept(Batches(data), failing))
  }

  /**
   The loop of updateInBatches. The result lists the batches attempted and the
   records stored; a failing insert (an index in failing) stores nothing of its
   batch and does not end the loop.
   */
  method UpdateInBatches<T>(data: seq<T>, failing: set<nat>) returns (attempted: seq<seq<T>>, inserted: seq<T>)
    ensures attempted == Batches(data)
    ensures inserted == Inserted(data, failing)
  {
    var totalBatches := BatchCount(|data|);
    attempted := [];
    inserted := [];
    var i := 0;
    while i < totalBatches
      invariant 0 <= i <= totalBatches
      invariant attempted == Batches(data)[..i]
      invariant inserted == Flatten(Kept(Batches(data), failing)[..i])
    {
      var batchData := Slice(data, i * BatchSize, (i + 1) * BatchSize);
      assert Kept(Batches(data), failing)[..i + 1][..i] == Kept(Batches(data), failing)[..i];
      attempted := attempted + [batchData];
      if i !in failing {
        inserted := inserted + batchData;
      }
      i := i + 1;
    }
    assert attempted == Batches(data)[..totalBatches];
    assert Kept(Batches(data), failing)[..totalBatches] == Kept(Batches(data), failing);
  }

  /** With no failing insert every record is stored, in order. */
  lemma InsertedWithoutFailures<T>(data: seq<T>, failing: set<nat>)
    requires forall i :: i in failing ==> i >= BatchCount(|data|)
    ensures Inserted(data, failing) == data
  {
    var bs := Batches(data);
    assert Kept(bs, failing) == bs;
    BatchesConcat(data);
  }

  /** Pointwise selection of parts keeps the concatenations in the subsequence relation. */
  lemma {:induction false} FlattenSubseq<T>(parts: seq<seq<T>>, wholes: seq<seq<T>>)
    requires |parts| == |wholes|
    requires forall i :: 0 <= i < |parts| ==> IsSubseq(parts[i], wholes[i])
    ensures IsSubseq(Flatten(parts), Flatten(wholes))
    decreases |parts|
  {
    if |parts| > 0 {
      var n := |parts|;
      FlattenSubseq(parts[..n - 1], wholes[..n - 1]);
      SubseqConcat(Flatten(parts[..n - 1]), Flatten(wholes[..n - 1]), parts[n - 1], wholes[n - 1]);
    }
  }

  /** Whatever fails, the stored records are the input records with some deleted, in input order. */
  lemma InsertedIsSubseq<T>(data: seq<T>, failing: set<nat>)
    ensures IsSubseq(Inserted(data, failing), data)
  {
    var bs := Batches(data);
    var ks := Kept(bs, failing);
    forall i | 0 <= i < |ks|
      ensures IsSubseq(ks[i], bs[i])
    {
      SubseqRefl(bs[i]);
    }
    FlattenSubseq(ks, bs);
    BatchesConcat(data);
  }

  lemma {:induction false} FlattenAppend<T>(a: seq<seq<T>>, b: seq<seq<T>>)
    ensures Flatten(a + b) == Flatten(a) + Flatten(b)
    decreases |b|
  {
    if |b| == 0 {
      assert a + b == a;
    } else {
      FlattenAppend(a, b[..|b| - 1]);
      assert (a + b)[..|a + b| - 1] == a + b[..|b| - 1];
    }
  }

  /** The batches from number j on together are the records from position min(500 j, n) on. */
  lemma BatchesSuffix<T>(data: seq<T>, j: nat)
    requires j <= BatchCount(|data|)
    ensures Flatten(Batches(data)[j..]) == data[Min(j * BatchSize, |data|)..]
  {
    var bs := Batches(data);
    var p := Min(j * BatchSize, |data|);
    assert bs == bs[..j] + bs[j..];
    FlattenAppend(bs[..j], bs[j..]);
    BatchesConcat(data);
    BatchesPrefix(data, j);
    var rest := Flatten(bs[j..]);
    assert data == data[..p] + rest;
    assert rest == data[p..] by {
      assert |rest| == |data| - p;
      forall i | 0 <= i < |rest|
        ensures rest[i] == data[p + i]
      {
        assert (data[..p] + rest)[p + i] == rest[i];
      }
    }
  }

  lemma KeptOne<T>(batches: seq<seq<T>>, k: nat)
    requires k < |batches|
    ensures Kept(batches, {k}) == batches[..k] + [[]] + batches[k + 1..]
  {
    var ks := Kept(batches, {k});
    var split := batches[..k] + [[]] + batches[k + 1..];
    assert |ks| == |split|;
    forall i | 0 <= i < |ks|
      ensures ks[i] == split[i]
    {
      if i < k {
        assert split[i] == batches[i];
      } else if i > k {
        assert split[i] == batches[k + 1..][i - k - 1];
      }
    }
  }

  /** Emptying entry k of a sequence of parts removes exactly that part from the concatenation. */
  lemma FlattenKeptOne<T>(batches: seq<seq<T>>, k: nat)
    requires k < |batches|
    ensures Flatten(Kept(batches, {k})) == Flatten(batches[..k]) + Flatten(batches[k + 1..])
  {
    var before, after := batches[..k], batches[k + 1..];
    KeptOne(batches, k);
    FlattenAppend(before + [[]], after);
    FlattenAppend(before, [[]]);
    assert Flatten<T>([[]]) == [];
  }

  /** A single failing batch k loses exactly its records; the batches after it are still stored. */
  lemma InsertedSkipsOne<T>(data: seq<T>, k: nat)
    requires k < BatchCount(|data|)
    ensures Inserted(data, {k}) == data[..k * BatchSize] + data[Min((k + 1) * BatchSize, |data|)..]
  {
    var bs := Batches(data);
    FlattenKeptOne(bs, k);
    BatchesPrefix(data, k);
    BatchBounds(|data|, k);
    BatchesSuffix(data, k + 1);
  }
}
