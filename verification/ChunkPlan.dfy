/**
 The division of a file into chunks (`compute_chunk_plan`).

 `Plan` is the closed form: chunk i starts at i * size.  `compute_chunk_plan` keeps a running
 offset and a 32-bit index instead; `ComputeChunkPlan` is that loop, proved equal to the closed form.
 The rest of the project only uses `Tiles`: the chunks are non-empty and lie end to end.
 */
module ChunkPlan {
  import opened Common

  datatype ChunkMeta = ChunkMeta(index: nat, offset: nat, length: nat) {
    function End(): nat { offset + length }
  }

  /** The chunks are non-empty, start at 0, lie end to end and stop exactly at `total`. */
  predicate Tiles(plan: seq<ChunkMeta>, total: nat) {
    && (plan == [] ==> total == 0)
    && (plan != [] ==> plan[0].offset == 0 && plan[|plan| - 1].End() == total)
    && (forall i | 0 <= i < |plan| :: plan[i].length > 0)
    && (forall i | 0 < i < |plan| :: plan[i].offset == plan[i - 1].End())
  }

  /** Chunk positions and chunk indices are the same thing. */
  predicate Indexed(plan: seq<ChunkMeta>) {
    forall i | 0 <= i < |plan| :: plan[i].index == i
  }

  function ChunkCount(total: nat, size: nat): nat
    requires size > 0
  {
    (total + size - 1) / size
  }

  /** Chunk k of the closed form; the index is a `u32` and wraps. */
  function ChunkAt(total: nat, size: nat, k: nat): ChunkMeta
    requires k * size <= total
  {
    ChunkMeta(k % TWO_TO_THE_32, k * size, Min(size, total - k * size))
  }

  function Plan(total: nat, size: nat): (plan: seq<ChunkMeta>)
    requires size > 0 || total == 0
  {
    if total == 0 then [] else
    seq(ChunkCount(total, size), k requires 0 <= k < ChunkCount(total, size) =>
      CountBounds(total, size, k);
      ChunkAt(total, size, k))
  }

  lemma {:induction false} MulStep(a: nat, b: nat, size: nat)
    requires a < b
    ensures a * size + size <= b * size
    decreases b
  {
    assert b * size == (b - 1) * size + size;
    if a + 1 < b {
      MulStep(a, b - 1, size);
    }
  }

  /** k is a chunk number exactly when its start offset lies inside the file. */
  lemma CountBounds(total: nat, size: nat, k: nat)
    requires size > 0
    ensures k < ChunkCount(total, size) <==> k * size < total
  {
    var n := ChunkCount(total, size);
    assert n * size <= total + size - 1 < n * size + size;
    if k < n {
      MulStep(k, n, size);
    } else if k > n {
      MulStep(n, k, size);
    }
  }

  lemma WrapStep(k: nat)
    ensures (k % TWO_TO_THE_32 + 1) % TWO_TO_THE_32 == (k + 1) % TWO_TO_THE_32
  {
  }

  /** The invariant of the planning loop: the first k chunks of the closed form. */
  ghost predicate Planned(total: nat, size: nat, k: nat, chunks: seq<ChunkMeta>) {
    |chunks| == k && forall j | 0 <= j < k :: j * size < total && chunks[j] == ChunkAt(total, size, j)
  }

  lemma PlannedDone(total: nat, size: nat, k: nat, chunks: seq<ChunkMeta>)
    requires size > 0 || total == 0
    requires Planned(total, size, k, chunks) && k * size >= total
    ensures chunks == Plan(total, size)
  {
    if total > 0 {
      CountBounds(total, size, k);
      if k > 0 { CountBounds(total, size, k - 1); }
      assert k == ChunkCount(total, size);
    } else {
      assert k == 0 || 0 * size < total;
    }
  }

  /** `compute_chunk_plan`: running offset, wrapping 32-bit index, watched for a number of iterations.  It gets done
      exactly if the file is empty or the chunk size is positive and there are enough iterations for all chunks. */
  method ComputeChunkPlan(total: nat, size: nat, watched: nat) returns (done: bool, chunks: seq<ChunkMeta>)
    requires total < TWO_TO_THE_64 && size < TWO_TO_THE_32
    ensures done <==> total == 0 || (size > 0 && ChunkCount(total, size) <= watched)
    ensures done ==> chunks == Plan(total, size)
    ensures !done ==> |chunks| == watched
    ensures size == 0 ==> forall i | 0 <= i < |chunks| :: chunks[i].offset == 0 && chunks[i].length == 0
  {
    chunks := [];
    var offset, index := 0, 0;
    var k := 0;
    while offset < total && k < watched
      invariant k <= watched && Planned(total, size, k, chunks) && index == k % TWO_TO_THE_32
      invariant offset == Min(k * size, total)
      decreases watched - k
    {
      var length := Min(size, total - offset);
      chunks := chunks + [ChunkMeta(index, offset, length)];
      offset := offset + length;
      WrapStep(k);
      index := (index + 1) % TWO_TO_THE_32;
      assert (k + 1) * size == k * size + size;
      k := k + 1;
    }
    done := offset >= total;
    PlannedSoFar(total, size, k, watched, chunks);
  }

  lemma PlannedSoFar(total: nat, size: nat, k: nat, watched: nat, chunks: seq<ChunkMeta>)
    requires Planned(total, size, k, chunks) && k <= watched && (k == watched || k * size >= total)
    ensures k * size >= total <==> total == 0 || (size > 0 && ChunkCount(total, size) <= watched)
    ensures k * size >= total ==> chunks == Plan(total, size)
    ensures size == 0 ==> forall i | 0 <= i < |chunks| :: chunks[i].offset == 0 && chunks[i].length == 0
  {
    if size > 0 {
      CountBounds(total, size, k);
    }
    if k * size >= total && (size > 0 || total == 0) {
      PlannedDone(total, size, k, chunks);
    }
  }

  /** An iteration gets closer to the end exactly if the chunk size is positive. */
  lemma AdvancesIff(total: nat, size: nat, offset: nat)
    requires offset < total
    ensures total - (offset + Min(size, total - offset)) < total - offset <==> size > 0
  {
  }

  /** The plan has ceil(total / size) chunks and chunk i starts at i * size. */
  lemma PlanShape(total: nat, size: nat)
    requires size > 0
    ensures |Plan(total, size)| == ChunkCount(total, size)
    ensures forall i | 0 <= i < |Plan(total, size)| ::
              i * size < total && Plan(total, size)[i] == ChunkAt(total, size, i)
  {
    if total > 0 {
      forall i | 0 <= i < |Plan(total, size)|
        ensures i * size < total
      {
        CountBounds(total, size, i);
      }
    }
  }

  lemma NextChunk(total: nat, size: nat, i: nat)
    requires 0 < i && i * size < total
    ensures (i - 1) * size < total
    ensures ChunkAt(total, size, i).offset == ChunkAt(total, size, i - 1).End()
  {
    assert i * size == (i - 1) * size + size;
  }

  lemma LastChunk(total: nat, size: nat)
    requires size > 0 && total > 0
    ensures var n := ChunkCount(total, size);
      n > 0 && (n - 1) * size < total && ChunkAt(total, size, n - 1).End() == total
  {
    var n := ChunkCount(total, size);
    CountBounds(total, size, 0);
    CountBounds(total, size, n);
    CountBounds(total, size, n - 1);
    assert n * size == (n - 1) * size + size;
  }

  /** The plan tiles the file. */
  lemma PlanTiles(total: nat, size: nat)
    requires size > 0
    ensures Tiles(Plan(total, size), total)
  {
    PlanShape(total, size);
    if total > 0 {
      LastChunk(total, size);
      forall i | 0 < i < |Plan(total, size)|
        ensures Plan(total, size)[i].offset == Plan(total, size)[i - 1].End()
      {
        NextChunk(total, size, i);
      }
    }
  }

  /** The 32-bit index identifies a chunk exactly when there are at most 2^32 of them. */
  lemma IndexedIff(total: nat, size: nat)
    requires size > 0
    ensures Indexed(Plan(total, size)) <==> ChunkCount(total, size) <= TWO_TO_THE_32
  {
    PlanShape(total, size);
    var plan := Plan(total, size);
    if |plan| > TWO_TO_THE_32 {
      assert plan[TWO_TO_THE_32].index == 0;
    }
  }

  /** Tiles are ordered: an earlier tile ends before a later one starts. */
  lemma {:induction false} TilesOrdered(plan: seq<ChunkMeta>, total: nat, i: nat, j: nat)
    requires Tiles(plan, total) && i < j < |plan|
    ensures plan[i].End() <= plan[j].offset
    decreases j
  {
    if i + 1 < j {
      TilesOrdered(plan, total, i, j - 1);
    }
  }

  lemma TilesBound(plan: seq<ChunkMeta>, total: nat, i: nat)
    requires Tiles(plan, total) && i < |plan|
    ensures plan[i].End() <= total
  {
    if i < |plan| - 1 {
      TilesOrdered(plan, total, i, |plan| - 1);
    }
  }

  /** Every byte below the end of tile k - 1 lies in one of the first k tiles. */
  lemma {:induction false} TileOf(plan: seq<ChunkMeta>, total: nat, k: nat, p: nat) returns (i: nat)
    requires Tiles(plan, total) && 0 < k <= |plan|
    requires p < plan[k - 1].End()
    ensures i < k && plan[i].offset <= p < plan[i].End()
  {
    if p >= plan[k - 1].offset {
      i := k - 1;
    } else {
      i := TileOf(plan, total, k - 1, p);
    }
  }

  /** Partition: every byte of the file belongs to exactly one chunk of the plan. */
  lemma PlanPartitions(total: nat, size: nat, p: nat) returns (i: nat)
    requires size > 0 && p < total
    ensures i < |Plan(total, size)|
    ensures forall j | 0 <= j < |Plan(total, size)| ::
              (Plan(total, size)[j].offset <= p < Plan(total, size)[j].End()) <==> j == i
  {
    PlanTiles(total, size);
    var plan := Plan(total, size);
    i := TileOf(plan, total, |plan|, p);
    forall j | 0 <= j < |plan| && j != i
      ensures !(plan[j].offset <= p < plan[j].End())
    {
      if j < i { TilesOrdered(plan, total, j, i); } else { TilesOrdered(plan, total, i, j); }
    }
  }
}
