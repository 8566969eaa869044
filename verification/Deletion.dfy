/**
 Why crash safety needs the part file to stay in place.

 Removing the part file (after a mismatch) and renaming it (on completion) leave the chunk rows and
 `bytes_confirmed` as they were.  What the database claims then holds only if it claims nothing.
 */
module Deletion {
  import opened Common
  import opened ChunkPlan
  import opened Disk
  import opened Transfer
  import opened System
  import Flow
  import opened OneByte
  import Outcome
  import Progress
  import S = Sender
  import R = Receiver

  /** The database's claims about the disk. */
  ghost predicate ClaimsHold(c: Config, r: R.Receiver)
    requires c.Valid()
  {
    && (forall j | 0 <= j < c.N() :: j in r.verified ==> GoodChunk(R.Bytes(r), c.src, c.plan[j]))
    && Good(R.Bytes(r), c.src, 0, r.confirmed)
  }

  /** After the part file has gone, the claims hold exactly if no chunk was verified and nothing was confirmed. */
  lemma ClaimsAfterRemovalIff(c: Config, s: System, inp: Input)
    requires c.Valid() && Flow.Inv(c, s) && Enabled(c, s, ReceiverStep(inp)) && s.rcv.part.Some?
    requires ReceiverMoves(c, s, inp).rcv.part.None?
    ensures ClaimsHold(c, ReceiverMoves(c, s, inp).rcv)
            <==> s.rcv.confirmed == 0 && forall j | 0 <= j < c.N() :: j !in s.rcv.verified
  {
    var r := ReceiverMoves(c, s, inp).rcv;
    assert R.Bytes(r) == [] && r.verified == s.rcv.verified && r.confirmed == s.rcv.confirmed;
    forall j | 0 <= j < c.N() ensures !GoodChunk(R.Bytes(r), c.src, c.plan[j]) {
      TilesBound(c.plan, |c.src|, j);
      if GoodChunk(R.Bytes(r), c.src, c.plan[j]) {
        GoodByte(R.Bytes(r), c.src, c.plan[j].offset, c.plan[j].End(), c.plan[j].offset);
      }
    }
    if r.confirmed > 0 && Good(R.Bytes(r), c.src, 0, r.confirmed) {
      GoodByte(R.Bytes(r), c.src, 0, r.confirmed, 0);
    }
  }

  // ---- Runs in which they fail

  /** A file whose recorded hash is wrong is refused: the only chunk is still marked verified and its byte still
      confirmed, and nothing of it is on disk. */
  lemma ClaimsCanFail() returns (c: Config, run: seq<System>)
    ensures c.Valid() && IsRun(c, run)
    ensures 0 in run[|run| - 1].rcv.verified && run[|run| - 1].rcv.confirmed == 1
    ensures !ClaimsHold(c, run[|run| - 1].rcv)
  {
    var h := "recorded";
    c := Small(h);
    run := Claimed(h);
    SmallValid(h);
    var s0 := run[|run| - 1];
    var s1 := s0.(rcv := Rcv(R.Refuse(true), InProgress, 1, {0}, {0}, Some([7])), toS := [ErrorMsg]);
    run := Extend(h, run, s0, ReceiverStep(Go(0)), s1);
    var s2 := s1.(rcv := Rcv(R.Delete, Failed, 1, {0}, {0}, Some([7])));
    run := Extend(h, run, s1, ReceiverStep(Go(0)), s2);
    var s3 := s2.(rcv := Rcv(R.Ended(false), Failed, 1, {0}, {0}, None), tainted := true);
    run := Extend(h, run, s2, ReceiverStep(Go(0)), s3);
    if Good([], c.src, 0, 1) { GoodByte([], c.src, 0, 1, 0); }
  }

  /** A receiver whose status update fails after the rename leaves, as long as its process lives, a record that claims
      everything for a part file that is gone. */
  lemma StaleRecord() returns (c: Config, run: seq<System>)
    ensures c.Valid() && IsRun(c, run) && Outcome.CollisionFree(c) && c.src != []
    ensures var s := run[|run| - 1];
      s.snd.phase.Idle? && Outcome.ClaimsAll(c, s.rcv) && s.rcv.part.None? && s.rcv.dest == Some(c.src)
  {
    var h := "seven";
    c := Small(h);
    run := Renamed();
    SmallValid(h);
    var s0 := run[|run| - 1];
    var s1 := s0.(rcv := s0.rcv.(phase := R.Ended(false)));
    run := Extend(h, run, s0, ReceiverStep(Fault), s1);
    var s2 := s1.(snd := s1.snd.(phase := S.Ended, status := Failed));
    run := Extend(h, run, s1, SenderStep(Broken), s2);
    var s3 := s2.(snd := s2.snd.(phase := S.Idle), rcv := s2.rcv.(phase := R.Idle));
    run := Extend(h, run, s2, Cut(false, false), s3);
  }

  /** After that, a session without any fault really runs, asks for nothing and fails on both sides, although the file
      had arrived. */
  lemma StaleRecordFails() returns (c: Config, run: seq<System>, ss: seq<System>)
    ensures c.Valid() && Outcome.CollisionFree(c) && Outcome.IsSession(c, run, ss)
    ensures Outcome.ClaimsAll(c, ss[0].rcv) && ss[0].rcv.dest == Some(c.src)
    ensures var last := ss[|ss| - 1];
      Progress.Finished(last) && last.snd.status.Failed? && last.rcv.status.Failed?
  {
    c, run := StaleRecord();
    ss := Outcome.SessionFinishes(c, run, [run[|run| - 1]], []);
    Outcome.ClaimedDeliversIff(c, run, ss);
  }
}
