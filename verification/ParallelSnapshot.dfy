/** The parallel snapshotter: cutting a key space into chunks, and workers that claim and complete them. */
module ParallelSnapshots {
  import opened Bounds
  import opened Wrappers

  const U64_MAX: nat := 0xFFFF_FFFF_FFFF_FFFF
  const U32_MAX: nat := 0xFFFF_FFFF

  datatype ChunkStatus = Pending | InProgress | Completed

  datatype ChunkRange = ChunkRange(chunkId: nat, minKey: nat, maxKey: nat, status: ChunkStatus)

  /** The number of chunks that cover `rows` rows. */
  function ChunkCount(rows: nat, size: nat): nat
    requires size > 0
  {
    (rows + size - 1) / size
  }

  /** Chunk `i` covers the i-th stretch of `size` keys, cut off at the last row. */
  predicate IsPlan(chunks: seq<ChunkRange>, rows: nat, size: nat) {
    forall i :: 0 <= i < |chunks| ==>
      && chunks[i].chunkId == i
      && chunks[i].minKey == i * size + 1
      && chunks[i].maxKey == Min((i + 1) * size, rows)
      && chunks[i].minKey <= chunks[i].maxKey
      && chunks[i].status == Pending
  }

  lemma ChunkCountBounds(rows: nat, size: nat, n: nat)
    requires size > 0
    ensures n == ChunkCount(rows, size) <==> (if n == 0 then rows == 0 else (n - 1) * size < rows <= n * size)
  {
    var q := ChunkCount(rows, size);
    var r := (rows + size - 1) % size;
    assert rows + size - 1 == q * size + r;
    if q < n {
      assert (n - 1) * size >= q * size by { MulMonotone(q, n - 1, size); }
    } else if n < q {
      assert q * size >= (n + 1) * size by { MulMonotone(n + 1, q, size); }
    } else if n > 0 {
      assert (n - 1) * size == n * size - size;
    }
  }

  lemma MulMonotone(a: nat, b: nat, size: nat)
    requires a <= b
    ensures a * size <= b * size && size * a <= size * b
  {
  }

  /**
   * Cuts keys 1 to `totalRows` into chunks, with 64-bit keys and 32-bit chunk ids; `None` is an arithmetic
   * overflow. It succeeds exactly when the end of the last full-sized chunk, plus one, fits 64 bits and the
   * number of chunks fits 32 bits. With chunks of size zero the loop stays at the first key until the id overflows.
   */
  method PlanChunks(totalRows: nat, chunkSize: nat) returns (plan: Option<seq<ChunkRange>>)
    requires totalRows <= U64_MAX && chunkSize <= U64_MAX
    ensures totalRows == 0 ==> plan == Some([])
    ensures chunkSize == 0 && totalRows > 0 ==> plan == None
    ensures chunkSize > 0 && totalRows > 0 ==>
              (plan.Some? <==>
               && ChunkCount(totalRows, chunkSize) * chunkSize + 1 <= U64_MAX
               && ChunkCount(totalRows, chunkSize) <= U32_MAX)
    ensures chunkSize > 0 && plan.Some? ==>
              && |plan.value| == ChunkCount(totalRows, chunkSize)
              && IsPlan(plan.value, totalRows, chunkSize)
  {
    hide IsPlan, ChunkCount;
    var chunks: seq<ChunkRange> := [];
    var minKey := 1;
    var chunkId := 0;
    ghost var end := 0;
    EmptyPlan(totalRows, chunkSize);
    while minKey <= totalRows
      invariant IsPlan(chunks, totalRows, chunkSize) || chunkSize == 0
      invariant |chunks| == chunkId <= U32_MAX && (totalRows == 0 ==> chunkId == 0)
      invariant end == chunkId * chunkSize && (chunkId == 0 ==> end == 0)
      invariant minKey == Min(end, totalRows) + 1
      invariant chunkId > 0 && chunkSize > 0 ==> end - chunkSize < totalRows && end + 1 <= U64_MAX
      invariant chunkSize == 0 && totalRows > 0 ==> minKey == 1
      decreases totalRows + 1 - minKey, U32_MAX - chunkId
    {
      if chunkSize > 0 {
        PlanContinues(totalRows, chunkSize, chunkId);
        PlanExtends(chunks, totalRows, chunkSize);
      }
      if minKey + chunkSize > U64_MAX {
        return None;
      }
      var maxKey := Min(minKey + chunkSize - 1, totalRows);
      chunks := chunks + [ChunkRange(chunkId, minKey, maxKey, Pending)];
      if chunkId == U32_MAX || maxKey == U64_MAX {
        return None;
      }
      NextMultiple(chunkId, chunkSize);
      end := end + chunkSize;
      chunkId := chunkId + 1;
      minKey := maxKey + 1;
    }
    if chunkSize > 0 {
      PlanEnds(totalRows, chunkSize, chunkId);
    }
    return Some(chunks);
  }

  lemma NextMultiple(n: nat, size: nat)
    ensures (n + 1) * size == n * size + size
  {
  }

  lemma EmptyPlan(rows: nat, size: nat)
    ensures IsPlan([], rows, size)
    ensures rows == 0 && size > 0 ==> ChunkCount(rows, size) == 0
  {
    if rows == 0 && size > 0 {
      ChunkCountBounds(rows, size, 0);
    }
  }

  /** The next chunk of the loop continues the plan. */
  lemma PlanExtends(chunks: seq<ChunkRange>, rows: nat, size: nat)
    requires size > 0 && IsPlan(chunks, rows, size) && |chunks| * size < rows
    ensures
      var minKey := |chunks| * size + 1;
      var chunk := ChunkRange(|chunks|, minKey, Min(minKey + size - 1, rows), Pending);
      IsPlan(chunks + [chunk], rows, size)
  {
    NextMultiple(|chunks|, size);
  }

  lemma PlanEnds(rows: nat, size: nat, made: nat)
    requires size > 0 && made * size >= rows
    requires made > 0 ==> made * size - size < rows
    ensures made == ChunkCount(rows, size) && made * size == ChunkCount(rows, size) * size
  {
    if made > 0 {
      NextMultiple(made - 1, size);
    }
    ChunkCountBounds(rows, size, made);
  }

  /** While keys remain, the chunks made so far are fewer than the final count, whose end lies further on. */
  lemma PlanContinues(rows: nat, size: nat, made: nat)
    requires size > 0 && made * size < rows
    ensures made < ChunkCount(rows, size)
    ensures made * size + size <= ChunkCount(rows, size) * size
  {
    NextMultiple(made, size);
    var n := ChunkCount(rows, size);
    ChunkCountBounds(rows, size, n);
    if n <= made {
      MulMonotone(n, made, size);
    } else {
      MulMonotone(made + 1, n, size);
    }
  }

  /** The next key to cut at after `k` iterations of the loop, integer width aside. */
  function NextKey(rows: nat, size: nat, k: nat): (key: nat)
    ensures key > 0
  {
    if k == 0 then 1
    else
      var key := NextKey(rows, size, k - 1);
      if key <= rows then Min(key + size - 1, rows) + 1 else key
  }

  lemma {:induction false} NextKeyAt(rows: nat, size: nat, k: nat)
    ensures NextKey(rows, size, k) == Min(k * size, rows) + 1
  {
    if k > 0 {
      NextKeyAt(rows, size, k - 1);
      assert k * size == (k - 1) * size + size;
      assert (k - 1) * size >= 0;
    }
  }

  /** The loop ends exactly when chunks have a positive size or there are no rows: size zero never advances. */
  lemma CuttingEndsExactly(rows: nat, size: nat)
    ensures (exists k :: NextKey(rows, size, k) > rows) <==> size > 0 || rows == 0
  {
    if size > 0 {
      NextKeyAt(rows, size, rows);
      MulMonotone(1, size, rows);
      assert NextKey(rows, size, rows) > rows;
    } else if rows == 0 {
      assert NextKey(rows, size, 0) > rows;
    } else {
      forall k: nat
        ensures NextKey(rows, size, k) <= rows
      {
        NextKeyAt(rows, size, k);
        assert k * size == 0;
      }
    }
  }

  /** Every chunk of a plan but the last has full size, and the last has no more. */
  lemma PlanSizes(chunks: seq<ChunkRange>, rows: nat, size: nat, i: nat)
    requires size > 0 && IsPlan(chunks, rows, size) && |chunks| == ChunkCount(rows, size) && i < |chunks|
    ensures chunks[i].maxKey - chunks[i].minKey < size
    ensures i < |chunks| - 1 ==> chunks[i].maxKey - chunks[i].minKey + 1 == size
  {
    NextMultiple(i, size);
    ChunkCountBounds(rows, size, |chunks|);
    if i < |chunks| - 1 {
      MulMonotone(i + 1, |chunks| - 1, size);
    }
  }

  /** The plan tiles the key space: every key from 1 to the last row lies in exactly one chunk, no other in any. */
  lemma PlanTiles(chunks: seq<ChunkRange>, rows: nat, size: nat, key: nat)
    requires size > 0 && IsPlan(chunks, rows, size) && |chunks| == ChunkCount(rows, size)
    ensures 1 <= key <= rows <==> exists i :: 0 <= i < |chunks| && chunks[i].minKey <= key <= chunks[i].maxKey
    ensures forall i, j :: 0 <= i < j < |chunks| ==> chunks[i].maxKey < chunks[j].minKey
  {
    forall i, j | 0 <= i < j < |chunks|
      ensures chunks[i].maxKey < chunks[j].minKey
    {
      MulMonotone(i + 1, j, size);
    }
    ChunkCountBounds(rows, size, |chunks|);
    if 1 <= key <= rows {
      var i := (key - 1) / size;
      assert key - 1 == i * size + (key - 1) % size;
      assert (i + 1) * size == i * size + size;
      if i >= |chunks| {
        MulMonotone(|chunks|, i, size);
      }
      assert chunks[i].minKey <= key <= chunks[i].maxKey;
    }
  }
}
