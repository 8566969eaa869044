/**
 File contents under seek-and-write, and reassembly of a file from its chunks.

 A file is its byte sequence.  Writing past the end fills the gap with zeros, as a sparse write does.
 */
module Disk {
  import opened Common
  import opened ChunkPlan

  function Zeros(n: nat): seq<byte> { seq(n, _ => 0) }

  /** The byte a later reader sees at p if nothing more is written there. */
  function ByteAt(f: seq<byte>, p: nat): byte { if p < |f| then f[p] else 0 }

  /** `seek(off); write_all(d)`. */
  function WriteAt(f: seq<byte>, off: nat, d: seq<byte>): (g: seq<byte>)
    ensures d == [] ==> g == f
    ensures d != [] ==> |g| == if |f| >= off + |d| then |f| else off + |d|
    ensures forall p | 0 <= p < |g| :: g[p] == if off <= p < off + |d| then d[p - off] else ByteAt(f, p)
  {
    if d == [] then f else
    var base := if |f| < off then f + Zeros(off - |f|) else f;
    base[..off] + d + (if off + |d| <= |base| then base[off + |d|..] else [])
  }

  /** What a reader sees after a write. */
  lemma WriteAtByte(f: seq<byte>, off: nat, d: seq<byte>, p: nat)
    ensures ByteAt(WriteAt(f, off, d), p) == if off <= p < off + |d| then d[p - off] else ByteAt(f, p)
  {
  }

  /** Bytes lo..hi of the file are those of the source. */
  ghost predicate Good(f: seq<byte>, src: seq<byte>, lo: nat, hi: nat) {
    hi <= |src| && forall p | lo <= p < hi :: p < |f| && f[p] == src[p]
  }

  ghost predicate GoodChunk(f: seq<byte>, src: seq<byte>, m: ChunkMeta) {
    Good(f, src, m.offset, m.End())
  }

  function ChunkData(src: seq<byte>, m: ChunkMeta): seq<byte>
    requires m.End() <= |src|
  {
    src[m.offset..m.End()]
  }

  lemma GoodByte(f: seq<byte>, src: seq<byte>, lo: nat, hi: nat, p: nat)
    requires Good(f, src, lo, hi) && lo <= p < hi
    ensures p < |f| && f[p] == src[p]
  {
    assert src[p] in src;
  }

  /** Writing a piece of the source at its own offset spoils nothing and makes that piece good. */
  lemma WriteKeepsGood(f: seq<byte>, src: seq<byte>, off: nat, end: nat, lo: nat, hi: nat)
    requires off <= end <= |src|
    ensures Good(f, src, lo, hi) ==> Good(WriteAt(f, off, src[off..end]), src, lo, hi)
    ensures Good(WriteAt(f, off, src[off..end]), src, off, end)
    ensures |f| <= |src| ==> |WriteAt(f, off, src[off..end])| <= |src|
  {
  }

  /** If the first k chunks are good then so is the whole prefix they tile. */
  lemma GoodPrefix(f: seq<byte>, src: seq<byte>, plan: seq<ChunkMeta>, k: nat)
    requires Tiles(plan, |src|) && 0 < k <= |plan|
    requires forall j | 0 <= j < k :: GoodChunk(f, src, plan[j])
    ensures Good(f, src, 0, plan[k - 1].End())
  {
    TilesBound(plan, |src|, k - 1);
    forall p | 0 <= p < plan[k - 1].End()
      ensures p < |f| && f[p] == src[p]
    {
      var i := TileOf(plan, |src|, k, p);
      assert GoodChunk(f, src, plan[i]);
      GoodByte(f, src, plan[i].offset, plan[i].End(), p);
    }
  }

  predicate InPlan(plan: seq<ChunkMeta>, ids: seq<nat>) {
    forall q | 0 <= q < |ids| :: ids[q] < |plan|
  }

  /** Write the chunks named by `ids`, in that order, each at its own offset. */
  function WriteAll(f: seq<byte>, src: seq<byte>, plan: seq<ChunkMeta>, ids: seq<nat>): seq<byte>
    requires Tiles(plan, |src|)
    requires InPlan(plan, ids)
    decreases ids
  {
    if ids == [] then f else
    TilesBound(plan, |src|, ids[0]);
    WriteAll(WriteAt(f, plan[ids[0]].offset, ChunkData(src, plan[ids[0]])), src, plan, ids[1..])
  }

  ghost predicate Covered(plan: seq<ChunkMeta>, ids: seq<nat>, p: nat) {
    exists q | 0 <= q < |ids| :: ids[q] < |plan| && plan[ids[q]].offset <= p < plan[ids[q]].End()
  }

  lemma CoveredSplit(plan: seq<ChunkMeta>, ids: seq<nat>, p: nat)
    requires ids != [] && InPlan(plan, ids)
    ensures Covered(plan, ids, p) <==>
            Covered(plan, ids[1..], p) || plan[ids[0]].offset <= p < plan[ids[0]].End()
  {
    if Covered(plan, ids, p) {
      var q :| 0 <= q < |ids| && ids[q] < |plan| && plan[ids[q]].offset <= p < plan[ids[q]].End();
      if q > 0 { assert ids[1..][q - 1] == ids[q]; }
    }
    if Covered(plan, ids[1..], p) {
      var q :| 0 <= q < |ids[1..]| && ids[1..][q] < |plan| && plan[ids[1..][q]].offset <= p < plan[ids[1..][q]].End();
      assert ids[q + 1] == ids[1..][q];
    }
  }

  /** What any sequence of chunk writes leaves in the file, byte by byte, whatever the order and the repeats. */
  lemma {:induction false} WriteAllBytes(f: seq<byte>, src: seq<byte>, plan: seq<ChunkMeta>, ids: seq<nat>)
    requires Tiles(plan, |src|)
    requires InPlan(plan, ids)
    ensures |WriteAll(f, src, plan, ids)| >= |f|
    ensures forall p | 0 <= p < |WriteAll(f, src, plan, ids)| ::
              if Covered(plan, ids, p) then p < |src| && WriteAll(f, src, plan, ids)[p] == src[p]
              else WriteAll(f, src, plan, ids)[p] == ByteAt(f, p)
    decreases ids
  {
    if ids != [] {
      var m := plan[ids[0]];
      TilesBound(plan, |src|, ids[0]);
      var g := WriteAt(f, m.offset, ChunkData(src, m));
      WriteAllBytes(g, src, plan, ids[1..]);
      var r := WriteAll(f, src, plan, ids);
      forall p | 0 <= p < |r|
        ensures Covered(plan, ids, p) <==> Covered(plan, ids[1..], p) || m.offset <= p < m.End()
      {
        CoveredSplit(plan, ids, p);
      }
    }
  }

  /** The length after one chunk write. */
  lemma OneWriteLength(f: seq<byte>, src: seq<byte>, plan: seq<ChunkMeta>, k: nat)
    requires Tiles(plan, |src|) && k < |plan|
    ensures plan[k].End() <= |src|
    ensures var n := |WriteAt(f, plan[k].offset, ChunkData(src, plan[k]))|;
      && (k == |plan| - 1 && |f| <= |src| ==> n == |src|)
      && (k < |plan| - 1 && |f| < |src| ==> n < |src|)
      && (|f| <= |src| ==> n <= |src|) && (|f| >= |src| ==> n == |f|)
  {
    TilesBound(plan, |src|, k);
    if k < |plan| - 1 {
      TilesOrdered(plan, |src|, k, |plan| - 1);
    }
  }

  /** The length after any sequence of chunk writes: only the last chunk reaches the end of the source. */
  lemma {:induction false} WriteAllLength(f: seq<byte>, src: seq<byte>, plan: seq<ChunkMeta>, ids: seq<nat>)
    requires Tiles(plan, |src|) && plan != []
    requires InPlan(plan, ids)
    ensures var n := |WriteAll(f, src, plan, ids)|;
      && (|plan| - 1 in ids && |f| <= |src| ==> n == |src|)
      && (|plan| - 1 !in ids && |f| < |src| ==> n < |src|)
      && (|f| >= |src| ==> n == |f|)
    decreases ids
  {
    if ids != [] {
      OneWriteLength(f, src, plan, ids[0]);
      var g := WriteAt(f, plan[ids[0]].offset, ChunkData(src, plan[ids[0]]));
      WriteAllLength(g, src, plan, ids[1..]);
      assert |plan| - 1 in ids <==> ids[0] == |plan| - 1 || |plan| - 1 in ids[1..];
    }
  }

  /** Exactly what a starting file and a set of chunks must offer between them for the source to come out. */
  ghost predicate Reassembles(f: seq<byte>, src: seq<byte>, plan: seq<ChunkMeta>, ids: seq<nat>) {
    && |f| <= |src|
    && (|f| == |src| || |plan| - 1 in ids)
    && (forall p | 0 <= p < |src| :: Covered(plan, ids, p) || ByteAt(f, p) == src[p])
  }

  /** Reassembly: chunk writes, in any order and with any repeats, yield the source exactly when
      the starting file is not too long and already holds whatever the chunks leave out. */
  lemma {:induction false} ReassemblyIff(f: seq<byte>, src: seq<byte>, plan: seq<ChunkMeta>, ids: seq<nat>)
    requires Tiles(plan, |src|)
    requires InPlan(plan, ids)
    ensures WriteAll(f, src, plan, ids) == src <==> Reassembles(f, src, plan, ids)
  {
    WriteAllBytes(f, src, plan, ids);
    var r := WriteAll(f, src, plan, ids);
    if plan == [] {
      assert ids == [];
    } else {
      WriteAllLength(f, src, plan, ids);
      if r == src {
        forall p | 0 <= p < |src| ensures Covered(plan, ids, p) || ByteAt(f, p) == src[p] {
          assert r[p] == src[p];
        }
      }
    }
  }

  /** All chunks, any order, any repeats, over a file no longer than the source: the source. */
  lemma {:induction false} ReassembleAll(f: seq<byte>, src: seq<byte>, plan: seq<ChunkMeta>, ids: seq<nat>)
    requires Tiles(plan, |src|) && |f| <= |src|
    requires InPlan(plan, ids)
    requires forall k | 0 <= k < |plan| :: k in ids
    ensures WriteAll(f, src, plan, ids) == src
  {
    forall p | 0 <= p < |src| ensures Covered(plan, ids, p) {
      var i := TileOf(plan, |src|, |plan|, p);
      assert i in ids;
      var q :| 0 <= q < |ids| && ids[q] == i;
    }
    ReassemblyIff(f, src, plan, ids);
  }
}
