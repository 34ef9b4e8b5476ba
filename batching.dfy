// app/util/tqdm.py: picks a batch size from the number of documents and cuts
// the document list into consecutive slices of that size.
module Batching {
  import opened Common

  /** `range(0, n, 0)` raises ValueError: a step of zero is refused. */
  datatype BatchError = ZeroStepValueError

  /** The tiered batch size of `chunker`: `int(n / 10000)`, `int(n / 1000)`,
      `int(n / 100)` or `n`. The float division followed by `int` is taken as
      exact, so for a non-negative count it is floor division. */
  function BatchSize(n: nat): nat {
    if n > 10000 then n / 10000
    else if n > 1000 then n / 1000
    else if n > 100 then n / 100
    else n
  }

  /** The list comprehension `[docs[i:i + size] for i in range(0, len(docs), size)]`
      for a positive step: consecutive slices, the last one possibly shorter. */
  function Slices<T>(docs: seq<T>, size: nat): seq<seq<T>>
    requires size > 0
    decreases |docs|
  {
    if docs == [] then []
    else if |docs| <= size then [docs]
    else [docs[..size]] + Slices(docs[size..], size)
  }

  /** `chunk_by_batch_size`: a zero step raises, a negative step gives an empty
      range and so no batches. */
  function ChunkByBatchSize<T>(docs: seq<T>, size: int): (r: Result<seq<seq<T>>, BatchError>)
    ensures r.Err? <==> size == 0
    ensures size < 0 ==> r == Ok([])
    ensures size > 0 ==>
      && Flatten(r.value) == docs
      && (forall k | 0 <= k < |r.value| - 1 :: |r.value[k]| == size)
      && (|r.value| > 0 ==> 0 < |r.value[|r.value| - 1]| <= size)
  {
    if size == 0 then Err(ZeroStepValueError)
    else if size < 0 then Ok([])
    else
      SlicesFlatten(docs, size);
      SliceSizes(docs, size);
      Ok(Slices(docs, size))
  }

  /** `chunker`: the batches and the batch size it sliced with. It fails exactly
      on an empty list, whose batch size is 0. */
  function Chunker<T>(docs: seq<T>): (r: Result<(seq<seq<T>>, nat), BatchError>)
    ensures r.Ok? <==> |docs| > 0
    ensures r.Ok? ==> r.value.1 > 0 && r.value.0 == Slices(docs, r.value.1)
  {
    var size := BatchSize(|docs|);
    var batches :- ChunkByBatchSize(docs, size);
    Ok((batches, size))
  }

  function Flatten<T>(batches: seq<seq<T>>): seq<T> {
    if batches == [] then [] else batches[0] + Flatten(batches[1..])
  }

  // ---------------------------------------------------------------------------
  // Slicing

  /** Concatenating the batches in order gives back the input exactly. */
  lemma {:induction false} SlicesFlatten<T>(docs: seq<T>, size: nat)
    requires size > 0
    ensures Flatten(Slices(docs, size)) == docs
    decreases |docs|
  {
    if docs != [] && |docs| > size {
      SlicesFlatten(docs[size..], size);
      assert [docs[..size]] + Slices(docs[size..], size) == Slices(docs, size);
      assert docs[..size] + docs[size..] == docs;
    }
  }

  /** Every batch but the last has exactly `size` elements; the last is
      non-empty and has at most `size`. */
  lemma {:induction false} SliceSizes<T>(docs: seq<T>, size: nat)
    requires size > 0
    ensures var r := Slices(docs, size);
      && (forall k | 0 <= k < |r| - 1 :: |r[k]| == size)
      && (|r| > 0 ==> 0 < |r[|r| - 1]| <= size)
    decreases |docs|
  {
    if docs != [] && |docs| > size {
      SliceSizes(docs[size..], size);
      var r := Slices(docs, size);
      var tail := Slices(docs[size..], size);
      assert r == [docs[..size]] + tail;
      forall k | 0 <= k < |r| - 1
        ensures |r[k]| == size
      {
        if k > 0 {
          assert r[k] == tail[k - 1];
        }
      }
    }
  }

  /** There are ceil(n / size) batches. */
  lemma {:induction false} SliceCount<T>(docs: seq<T>, size: nat)
    requires size > 0
    ensures |Slices(docs, size)| == (|docs| + size - 1) / size
    decreases |docs|
  {
    var n := |docs|;
    if docs == [] {
      DivUnique(size - 1, size, 0, size - 1);
    } else if n <= size {
      DivUnique(n + size - 1, size, 1, n - 1);
    } else {
      SliceCount(docs[size..], size);
      var x := n - size + size - 1;
      DivUnique(x, size, x / size, x % size);
      DivUnique(x + size, size, x / size + 1, x % size);
    }
  }

  /** Batch `k` is `docs[k * size : k * size + size]`, clipped to the end, as in
      the list comprehension. */
  lemma {:induction false} SliceAt<T>(docs: seq<T>, size: nat, k: nat)
    requires size > 0
    requires k < |Slices(docs, size)|
    ensures k * size < |docs|
    ensures Slices(docs, size)[k] == docs[k * size .. if k * size + size <= |docs| then k * size + size else |docs|]
    decreases |docs|
  {
    if |docs| > size && k > 0 {
      SliceAt(docs[size..], size, k - 1);
      assert (k - 1) * size + size == k * size;
      assert docs[size..][(k - 1) * size .. if (k - 1) * size + size <= |docs| - size then (k - 1) * size + size + 0 else |docs| - size]
          == docs[k * size .. if k * size + size <= |docs| then k * size + size else |docs|];
    }
  }

  // ---------------------------------------------------------------------------
  // Batch size

  /** A non-empty list gets a batch size between 1 and its length; up to 100
      documents form a single batch. */
  lemma BatchSizeBounds(n: nat)
    ensures n >= 1 ==> 1 <= BatchSize(n) <= n
    ensures n <= 100 ==> BatchSize(n) == n
    ensures BatchSize(n) == 0 <==> n == 0
  {
  }

  lemma MulMono(a: nat, b: nat, c: nat)
    requires a <= b
    ensures a * c <= b * c
  {
  }

  /** Division is determined by quotient and remainder. */
  lemma DivUnique(y: nat, b: nat, q: nat, r: nat)
    requires b > 0 && r < b && y == q * b + r
    ensures y / b == q
  {
    var q' := y / b;
    assert y == q' * b + y % b;
    if q' < q {
      MulMono(q' + 1, q, b);
    } else if q' > q {
      MulMono(q + 1, q', b);
    }
  }

  lemma DivAtLeast(x: nat, b: nat, d: nat)
    requires b > 0 && x >= b * d
    ensures x / b >= d
  {
    var q := x / b;
    assert x == q * b + x % b;
    if q < d {
      MulMono(q + 1, d, b);
    }
  }

  lemma DivBelow(x: nat, b: nat, m: nat)
    requires b > 0 && x < b * m
    ensures x / b < m
  {
    var q := x / b;
    assert x == q * b + x % b;
    if q >= m {
      MulMono(m, q, b);
    }
  }

  lemma SumBelowProduct(b: nat, d: nat)
    requires b >= 1 && d >= 1
    ensures b + d <= b * d + 1
  {
    var e: nat := (b - 1) * (d - 1);
    assert e == b * d - b - d + 1;
  }

  lemma DoubleFactor(b: nat, d: nat)
    ensures b * (2 * d) == 2 * (b * d)
  {
  }

  /** With b = n / d and n >= d, slicing n documents by b gives between d and
      2d - 1 batches. */
  lemma {:induction false} BatchCountBetween(n: nat, d: nat)
    requires d > 0 && n >= d
    ensures n / d >= 1
    ensures d <= (n + n / d - 1) / (n / d) < 2 * d
  {
    DivAtLeast(n, d, 1);
    var b := n / d;
    var r := n % d;
    assert n == b * d + r && r < d;
    DivAtLeast(n + b - 1, b, d);
    SumBelowProduct(b, d);
    assert n + b - 1 < b * (2 * d) by {
      DoubleFactor(b, d);
    }
    DivBelow(n + b - 1, b, 2 * d);
  }

  /** The tiers give 100-199 batches for 101-1000 documents, 1000-1999 for
      1001-10000 and 10000-19999 above 10000. */
  lemma BatchCountRanges(n: nat)
    ensures 100 < n <= 1000 ==> 100 <= (n + BatchSize(n) - 1) / BatchSize(n) < 200
    ensures 1000 < n <= 10000 ==> 1000 <= (n + BatchSize(n) - 1) / BatchSize(n) < 2000
    ensures 10000 < n ==> 10000 <= (n + BatchSize(n) - 1) / BatchSize(n) < 20000
  {
    if n > 10000 {
      BatchCountBetween(n, 10000);
    } else if n > 1000 {
      BatchCountBetween(n, 1000);
    } else if n > 100 {
      BatchCountBetween(n, 100);
    }
  }

  // ---------------------------------------------------------------------------
  // chunker

  /** `chunker([])` raises rather than returning no batches. */
  lemma ChunkerRejectsEmpty<T>(docs: seq<T>)
    requires docs == []
    ensures Chunker(docs) == Err(ZeroStepValueError)
  {
  }

  /** Up to 100 documents come back as one batch holding all of them. */
  lemma ChunkerSingleBatch<T>(docs: seq<T>)
    requires 1 <= |docs| <= 100
    ensures Chunker(docs) == Ok(([docs], |docs|))
  {
  }

  /** The batches of a successful `chunker` call partition the input in order:
      full batches of the returned size, a non-empty last one, ceil(n / size)
      of them. */
  lemma ChunkerPartitions<T>(docs: seq<T>)
    requires |docs| > 0
    ensures var (batches, size) := Chunker(docs).value;
      && Flatten(batches) == docs
      && (forall k | 0 <= k < |batches| - 1 :: |batches[k]| == size)
      && 0 < |batches[|batches| - 1]| <= size
      && |batches| == (|docs| + size - 1) / size
  {
    var (batches, size) := Chunker(docs).value;
    SlicesFlatten(docs, size);
    SliceSizes(docs, size);
    SliceCount(docs, size);
    assert |batches| >= 1 by {
      assert (|docs| + size - 1) / size >= 1 by {
        DivAtLeast(|docs| + size - 1, size, 1);
      }
    }
  }

  /** 50000 documents: batch size 5, 10000 batches. 500 documents: batch size
      5, 100 batches. */
  lemma ChunkerExamples<T>(big: seq<T>, small: seq<T>)
    requires |big| == 50000 && |small| == 500
    ensures Chunker(big).Ok? && Chunker(big).value.1 == 5 && |Chunker(big).value.0| == 10000
    ensures Chunker(small).Ok? && Chunker(small).value.1 == 5 && |Chunker(small).value.0| == 100
  {
    SliceCount(big, 5);
    SliceCount(small, 5);
  }
}
