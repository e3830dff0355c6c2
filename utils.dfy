/** `chunked`: cutting a list into consecutive batches of a fixed size, the
    last one possibly shorter. */
module Utils {
  import opened Wrappers
  import opened Errors

  /** The batches of `xs`: full batches of `size` items and a shorter last one. */
  function Chunks<T>(xs: seq<T>, size: nat): seq<seq<T>>
    requires size > 0
    decreases |xs|
  {
    if |xs| == 0 then []
    else if |xs| <= size then [xs]
    else [xs[..size]] + Chunks(xs[size..], size)
  }

  /** The concatenation of a list of lists. */
  function Flatten<T>(cs: seq<seq<T>>): seq<T>
  {
    if |cs| == 0 then [] else cs[0] + Flatten(cs[1..])
  }

  /** A non-empty input starts with the batch `xs[..min(size, |xs|)]`. */
  lemma ChunksStep<T>(xs: seq<T>, size: nat)
    requires size > 0 && |xs| > 0
    ensures var e := if size <= |xs| then size else |xs|;
      Chunks(xs, size) == [xs[..e]] + Chunks(xs[e..], size)
  {
    if |xs| <= size {
      assert xs[..|xs|] == xs;
      assert xs[|xs|..] == [];
    }
  }

  /** Moving the next batch from the pending ones to the emitted ones. */
  lemma ShiftOne<T>(out: seq<T>, x: T, rest: seq<T>)
    ensures out + ([x] + rest) == (out + [x]) + rest
  {
  }

  /** The batches still to come when the slice loop stands at `start`. */
  function From<T>(xs: seq<T>, start: nat, size: nat): seq<seq<T>>
    requires size > 0
  {
    if start < |xs| then Chunks(xs[start..], size) else []
  }

  lemma FromStep<T>(xs: seq<T>, start: nat, size: nat)
    requires size > 0 && start < |xs|
    ensures var end := if start + size <= |xs| then start + size else |xs|;
      From(xs, start, size) == [xs[start..end]] + From(xs, start + size, size)
  {
    var end := if start + size <= |xs| then start + size else |xs|;
    ChunksStep(xs[start..], size);
    assert xs[start..][..end - start] == xs[start..end];
    assert xs[start..][end - start..] == xs[end..];
    if end == |xs| {
      assert xs[end..] == [];
    }
  }

  /** The Sequence branch: a slice for every multiple of `size` below the
      length. A size that is not positive is a ValueError before any batch. */
  method ChunkedSequence<T>(xs: seq<T>, size: int) returns (r: Result<seq<seq<T>>, Fault>)
    ensures size <= 0 ==> r == Err(InvalidSize)
    ensures size > 0 ==> r == Ok(Chunks(xs, size))
  {
    if size <= 0 {
      return Err(InvalidSize);
    }
    var out: seq<seq<T>> := [];
    var start := 0;
    assert xs[0..] == xs;
    while start < |xs|
      invariant 0 <= start
      invariant out + From(xs, start, size) == Chunks(xs, size)
      decreases |xs| - start
    {
      var end := if start + size <= |xs| then start + size else |xs|;
      FromStep(xs, start, size);
      ShiftOne(out, xs[start..end], From(xs, start + size, size));
      out := out + [xs[start..end]];
      start := start + size;
    }
    assert From(xs, start, size) == [];
    assert out == Chunks(xs, size);
    return Ok(out);
  }

  /** The generic-iterable branch: items go into a bucket, which is emitted
      and emptied whenever it holds `size` items; a partial bucket is
      emitted at the end. */
  method ChunkedIterable<T>(xs: seq<T>, size: int) returns (r: Result<seq<seq<T>>, Fault>)
    ensures size <= 0 ==> r == Err(InvalidSize)
    ensures size > 0 ==> r == Ok(Chunks(xs, size))
  {
    if size <= 0 {
      return Err(InvalidSize);
    }
    var out: seq<seq<T>> := [];
    var bucket: seq<T> := [];
    var start, i := 0, 0;
    assert xs[0..] == xs;
    while i < |xs|
      invariant 0 <= start <= i <= |xs| && i - start < size
      invariant bucket == xs[start..i]
      invariant out + From(xs, start, size) == Chunks(xs, size)
    {
      assert xs[start..i + 1] == bucket + [xs[i]];
      bucket := bucket + [xs[i]];
      i := i + 1;
      if |bucket| == size {
        FromStep(xs, start, size);
        ShiftOne(out, bucket, From(xs, i, size));
        out := out + [bucket];
        bucket := [];
        start := i;
      }
    }
    if |bucket| > 0 {
      FromStep(xs, start, size);
      assert From(xs, start, size) == [bucket];
      out := out + [bucket];
    } else {
      assert From(xs, start, size) == [];
      assert out + [] == out;
    }
    return Ok(out);
  }

  /** Concatenating the batches gives back the input, in order. */
  lemma {:induction false} ChunksFlatten<T>(xs: seq<T>, size: nat)
    requires size > 0
    ensures Flatten(Chunks(xs, size)) == xs
    decreases |xs|
  {
    if |xs| > size {
      ChunksFlatten(xs[size..], size);
      var cs := Chunks(xs, size);
      assert cs[1..] == Chunks(xs[size..], size);
      assert xs[..size] + xs[size..] == xs;
    } else if |xs| > 0 {
      assert Chunks(xs, size)[1..] == [];
    }
  }

  /** Every batch but the last holds exactly `size` items; the last holds
      between one and `size`. */
  lemma {:induction false} ChunksSizes<T>(xs: seq<T>, size: nat)
    requires size > 0
    ensures var cs := Chunks(xs, size);
      && (forall i :: 0 <= i < |cs| - 1 ==> |cs[i]| == size)
      && (|cs| > 0 ==> 0 < |cs[|cs| - 1]| <= size)
    decreases |xs|
  {
    if |xs| > size {
      ChunksSizes(xs[size..], size);
      var cs := Chunks(xs, size);
      var rest := Chunks(xs[size..], size);
      assert cs == [xs[..size]] + rest;
      forall i | 0 <= i < |cs| - 1
        ensures |cs[i]| == size
      {
        if i > 0 { assert cs[i] == rest[i - 1]; }
      }
    }
  }

  /** There are ceil(len / size) batches, so an empty input gives none. */
  lemma {:induction false} ChunksCount<T>(xs: seq<T>, size: nat)
    requires size > 0
    ensures |Chunks(xs, size)| == (|xs| + size - 1) / size
    ensures |Chunks(xs, size)| == 0 <==> |xs| == 0
    decreases |xs|
  {
    var n := |xs| + size - 1;
    if |xs| > size {
      ChunksCount(xs[size..], size);
      var q, r := (n - size) / size, (n - size) % size;
      DivUnique(n, size, q + 1, r);
    } else if |xs| > 0 {
      DivUnique(n, size, 1, |xs| - 1);
    } else {
      DivUnique(n, size, 0, size - 1);
    }
  }

  lemma DivUnique(n: int, d: nat, q: int, r: int)
    requires d > 0 && 0 <= r < d && n == q * d + r
    ensures n / d == q
  {
    var q', r' := n / d, n % d;
    assert (q - q') * d == r' - r;
    if q > q' {
      MulAtLeast(q - q', d);
    } else if q < q' {
      MulAtLeast(q' - q, d);
    }
  }

  lemma {:induction false} MulAtLeast(k: int, d: nat)
    requires k >= 1
    ensures k * d >= d
    decreases k
  {
    if k > 1 {
      MulAtLeast(k - 1, d);
      assert k * d == (k - 1) * d + d;
    }
  }

  /** Batches of at most ten, as the catalog lookups send them: 25 IDs give
      batches of 10, 10 and 5. */
  lemma ChunksOfTen(xs: seq<int>)
    requires |xs| == 25
    ensures Chunks(xs, 10) == [xs[..10], xs[10..20], xs[20..]]
  {
    assert xs[10..][..10] == xs[10..20];
    assert xs[10..][10..] == xs[20..];
    assert Chunks(xs[20..], 10) == [xs[20..]];
  }
}
