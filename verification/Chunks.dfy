/** Splitting an inclusive range into chunks, erc20/lib/chunk_utils.ts, and the chunk sizes its callers ask for. */
module Chunks {
  import opened Common

  type Chunk = (int, int)

  function Range(lo: int, hi: int): (r: seq<int>)
    decreases hi - lo
    ensures |r| == if lo <= hi then hi - lo + 1 else 0
    ensures forall i :: 0 <= i < |r| ==> r[i] == lo + i
  {
    if lo > hi then [] else [lo] + Range(lo + 1, hi)
  }

  function InclusiveChunks(lo: int, hi: int, chunkSize: int): seq<Chunk>
    requires chunkSize > 0
    decreases hi - lo
  {
    if hi < lo then []
    else [(lo, Min(lo + chunkSize - 1, hi))] + InclusiveChunks(lo + chunkSize, hi, chunkSize)
  }

  method BuildInclusiveChunks(lo: int, hi: int, chunkSize: int) returns (r: Result<seq<Chunk>>)
    ensures r.Err? <==> chunkSize <= 0
    ensures r.Ok? ==> r.value == InclusiveChunks(lo, hi, chunkSize)
  {
    if chunkSize <= 0 {
      return Err("chunkSize should be positive");
    }
    if hi < lo {
      return Ok([]);
    }
    var chunks := [];
    var currentStart := lo;
    while currentStart <= hi
      invariant chunks + InclusiveChunks(currentStart, hi, chunkSize) == InclusiveChunks(lo, hi, chunkSize)
      decreases hi - currentStart
    {
      var currentEnd := Min(currentStart + chunkSize - 1, hi);
      assert chunks + InclusiveChunks(currentStart, hi, chunkSize)
          == chunks + [(currentStart, currentEnd)] + InclusiveChunks(currentStart + chunkSize, hi, chunkSize);
      chunks := chunks + [(currentStart, currentEnd)];
      currentStart := currentStart + chunkSize;
    }
    return Ok(chunks);
  }

  function Enumerate(chunks: seq<Chunk>): seq<int> {
    if chunks == [] then [] else Range(chunks[0].0, chunks[0].1) + Enumerate(chunks[1..])
  }

  lemma RangeSplit(lo: int, mid: int, hi: int)
    requires lo <= mid + 1 && mid <= hi
    ensures Range(lo, mid) + Range(mid + 1, hi) == Range(lo, hi)
  {
  }

  predicate ChunksWithin(cs: seq<Chunk>, lo: int, hi: int, chunkSize: int) {
    forall i :: 0 <= i < |cs| ==> lo <= cs[i].0 <= cs[i].1 <= hi && cs[i].1 - cs[i].0 < chunkSize
  }

  /** None is empty and none is too big. */
  lemma {:induction false} ChunksFit(lo: int, hi: int, chunkSize: int)
    requires chunkSize > 0
    ensures ChunksWithin(InclusiveChunks(lo, hi, chunkSize), lo, hi, chunkSize)
    decreases hi - lo
  {
    if lo <= hi {
      ChunksFit(lo + chunkSize, hi, chunkSize);
    }
  }

  lemma {:induction false} ChunksEnumerate(lo: int, hi: int, chunkSize: int)
    requires chunkSize > 0
    ensures Enumerate(InclusiveChunks(lo, hi, chunkSize)) == Range(lo, hi)
    decreases hi - lo
  {
    if lo <= hi {
      var end := Min(lo + chunkSize - 1, hi);
      ChunksEnumerate(lo + chunkSize, hi, chunkSize);
      RangeSplit(lo, end, hi);
      var cs := InclusiveChunks(lo, hi, chunkSize);
      assert cs[1..] == InclusiveChunks(lo + chunkSize, hi, chunkSize);
      assert Range(lo + chunkSize, hi) == Range(end + 1, hi);
    }
  }

  /** The chunks cover the range in order, without gap or overlap; none is empty and none is too big. */
  lemma ChunksPartition(lo: int, hi: int, chunkSize: int)
    requires chunkSize > 0
    ensures var cs := InclusiveChunks(lo, hi, chunkSize);
            && Enumerate(cs) == Range(lo, hi)
            && forall i :: 0 <= i < |cs| ==> lo <= cs[i].0 <= cs[i].1 <= hi && cs[i].1 - cs[i].0 < chunkSize
  {
    ChunksEnumerate(lo, hi, chunkSize);
    ChunksFit(lo, hi, chunkSize);
    assert ChunksWithin(InclusiveChunks(lo, hi, chunkSize), lo, hi, chunkSize);
  }

  /** As many chunks as it takes, and not one more. */
  lemma {:induction false} ChunksCount(lo: int, hi: int, chunkSize: int, k: nat)
    requires chunkSize > 0
    ensures |InclusiveChunks(lo, hi, chunkSize)| <= k <==> hi - lo + 1 <= k * chunkSize
    decreases k
  {
    if lo <= hi {
      if k > 0 {
        ChunksCount(lo + chunkSize, hi, chunkSize, k - 1);
        assert k * chunkSize == (k - 1) * chunkSize + chunkSize;
      }
    } else {
      assert k * chunkSize >= 0;
    }
  }

  /** The quotient rounded up. */
  function CeilDiv(a: int, b: int): int
    requires b > 0
  {
    (a + b - 1) / b
  }

  lemma CeilDivFacts(a: int, b: int)
    requires a > 0 && b > 0
    ensures CeilDiv(a, b) > 0 && a <= b * CeilDiv(a, b)
  {
    var q, r := (a + b - 1) / b, (a + b - 1) % b;
    assert a + b - 1 == b * q + r;
  }

  /**
   * With the size the callers compute, there are no more chunks than connections allowed, nor than
   * elements.
   */
  lemma AtMostConcurrencyChunks(lo: int, hi: int, concurrency: int)
    requires lo <= hi && concurrency >= 1
    ensures var total := hi - lo + 1;
            var count := Min(concurrency, total);
            var size := CeilDiv(total, count);
            size > 0 && 1 <= |InclusiveChunks(lo, hi, size)| <= count
  {
    var total := hi - lo + 1;
    var count := Min(concurrency, total);
    var size := CeilDiv(total, count);
    CeilDivFacts(total, count);
    assert count * size == size * count;
    ChunksCount(lo, hi, size, count);
  }
}
