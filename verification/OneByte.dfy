/**
 One transfer, step by step: a one-byte file is sent, stored, confirmed and claimed complete.

 The other modules start from here when they need a run that really happens.
 */
module OneByte {
  import opened Common
  import opened ChunkPlan
  import opened Disk
  import opened Transfer
  import opened System
  import S = Sender
  import R = Receiver

  function Hashed(f: seq<byte>): Hash { if f == [7] then "seven" else "other" }

  /** The transfer of a one-byte file, with the hash that was recorded for it. */
  function Small(recorded: Hash): Config {
    Config([7], [ChunkMeta(0, 0, 1)], recorded, Hashed, (nonce, plain) => plain, data => Some(data))
  }

  function Snd(phase: S.Phase, pending: nat, status: Status): S.Sender {
    S.Sender(phase, pending, 0, None, 0, status, 0, false)
  }

  function Rcv(phase: R.Phase, status: Status, confirmed: nat, rows: set<nat>, verified: set<nat>,
               part: Option<seq<byte>>): R.Receiver
  {
    R.Receiver(phase, 0, true, status, confirmed, rows, verified, part, None)
  }

  ghost predicate Reaches(h: Hash, run: seq<System>, s: System) {
    Small(h).Valid() && IsRun(Small(h), run) && run[0].snd.status.Pending? && run[|run| - 1] == s
  }

  lemma Extend(h: Hash, run: seq<System>, s: System, e: Event, t: System) returns (more: seq<System>)
    requires Reaches(h, run, s) && Typed(Small(h), s) && Enabled(Small(h), s, e) && t == Apply(Small(h), s, e)
    ensures Reaches(h, more, t)
  {
    more := run + [t];
    forall i | 0 < i < |more| ensures Follows(Small(h), more[i - 1], more[i]) {
      if i < |run| { assert Follows(Small(h), run[i - 1], run[i]); }
    }
  }

  lemma SmallValid(h: Hash)
    ensures Small(h).Valid() && R.AllRows(Small(h)) == {0}
  {
    var m := ChunkMeta(0, 0, 1);
    assert Small(h).plan[0] == m;
    assert m in Small(h).plan;
  }

  /** The request arrives and is recorded. */
  lemma Asked(h: Hash) returns (run: seq<System>)
    ensures Reaches(h, run, System(Snd(S.AwaitAnswer, 0, AwaitingAcceptance),
                                Rcv(R.InsertRows, Pending, 0, {}, {}, None), [], [], false))
  {
    SmallValid(h);
    var r0 := R.Receiver(R.Idle, 0, false, Pending, 0, {}, {}, None, None);
    var s0 := System(Snd(S.Idle, 0, Pending), r0, [], [], false);
    run := [s0];
    var s1 := s0.(snd := Snd(S.Requested, 0, Pending), toR := [Request]);
    run := Extend(h, run, s0, SenderStep(Go(0)), s1);
    var s2 := s1.(snd := Snd(S.AwaitAnswer, 0, AwaitingAcceptance));
    run := Extend(h, run, s1, SenderStep(Go(0)), s2);
    var s3 := s2.(rcv := s2.rcv.(phase := R.CheckSpace), toR := []);
    run := Extend(h, run, s2, ReceiverStep(Got(Request)), s3);
    var s4 := s3.(rcv := Rcv(R.InsertRows, Pending, 0, {}, {}, None));
    run := Extend(h, run, s3, ReceiverStep(Go(0)), s4);
  }

  /** The user accepts. */
  lemma Answered(h: Hash) returns (run: seq<System>)
    ensures Reaches(h, run, System(Snd(S.AwaitAnswer, 0, AwaitingAcceptance),
                                Rcv(R.OpenPart, Pending, 0, {0}, {}, None), [], [Acceptance(true, 0, None)], false))
  {
    run := Asked(h);
    SmallValid(h);
    var s0 := run[|run| - 1];
    var s1 := s0.(rcv := Rcv(R.Decide, Pending, 0, {0}, {}, None));
    run := Extend(h, run, s0, ReceiverStep(Go(0)), s1);
    var s2 := s1.(rcv := Rcv(R.OpenPart, Pending, 0, {0}, {}, None), toS := [Acceptance(true, 0, None)]);
    run := Extend(h, run, s1, ReceiverStep(Accept), s2);
  }

  /** Both sides are ready. */
  lemma Accepted(h: Hash) returns (run: seq<System>)
    ensures Reaches(h, run, System(Snd(S.AtChunk(0), 0, InProgress),
                                Rcv(R.Loop, InProgress, 0, {0}, {}, Some([])), [], [], false))
  {
    run := Answered(h);
    SmallValid(h);
    var s2 := run[|run| - 1];
    var s3 := s2.(rcv := Rcv(R.Start, Pending, 0, {0}, {}, Some([])));
    run := Extend(h, run, s2, ReceiverStep(Go(0)), s3);
    var s4 := s3.(rcv := Rcv(R.Loop, InProgress, 0, {0}, {}, Some([])));
    run := Extend(h, run, s3, ReceiverStep(Go(0)), s4);
    var s5 := s4.(snd := Snd(S.AtChunk(0), 0, InProgress), toS := []);
    run := Extend(h, run, s4, SenderStep(Got(Acceptance(true, 0, None))), s5);
  }

  const OnlyChunk := Chunk(0, 0, [7], "seven")

  lemma OnlyChunkIs(h: Hash)
    requires Small(h).Valid()
    ensures S.ChunkMessage(Small(h), 0, 0) == OnlyChunk && Small(h).Data(0) == [7]
  {
  }

  /** The chunk is sent. */
  lemma SentOne(h: Hash) returns (run: seq<System>)
    ensures Reaches(h, run, System(Snd(S.AtChunk(1), 1, InProgress),
                                Rcv(R.Loop, InProgress, 0, {0}, {}, Some([])), [OnlyChunk], [], false))
  {
    run := Accepted(h);
    SmallValid(h);
    var s0 := run[|run| - 1];
    var s1 := s0.(snd := Snd(S.Window(0), 0, InProgress));
    run := Extend(h, run, s0, SenderStep(Go(0)), s1);
    var s2 := s1.(snd := Snd(S.AtChunk(1), 1, InProgress), toR := [OnlyChunk]);
    OnlyChunkIs(h);
    run := Extend(h, run, s1, SenderStep(Go(0)), s2);
  }

  /** It is written. */
  lemma Stored(h: Hash) returns (run: seq<System>)
    ensures Reaches(h, run, System(Snd(S.AtChunk(1), 1, InProgress),
                                Rcv(R.Confirm(OnlyChunk, [7]), InProgress, 0, {0}, {}, Some([7])), [], [], false))
  {
    run := SentOne(h);
    SmallValid(h);
    var s2 := run[|run| - 1];
    var s3 := s2.(rcv := Rcv(R.Write(OnlyChunk, [7]), InProgress, 0, {0}, {}, Some([])), toR := []);
    run := Extend(h, run, s2, ReceiverStep(Got(OnlyChunk)), s3);
    var s4 := s3.(rcv := Rcv(R.Confirm(OnlyChunk, [7]), InProgress, 0, {0}, {}, Some([7])));
    assert WriteAt([], 0, [7]) == [7];
    run := Extend(h, run, s3, ReceiverStep(Go(0)), s4);
  }

  /** It is confirmed and marked. */
  lemma Marked(h: Hash) returns (run: seq<System>)
    ensures Reaches(h, run, System(Snd(S.AtChunk(1), 1, InProgress),
                                Rcv(R.SendAck(OnlyChunk, [7]), InProgress, 1, {0}, {0}, Some([7])), [], [], false))
  {
    run := Stored(h);
    SmallValid(h);
    var s0 := run[|run| - 1];
    var s1 := s0.(rcv := Rcv(R.Mark(OnlyChunk, [7]), InProgress, 1, {0}, {}, Some([7])));
    run := Extend(h, run, s0, ReceiverStep(Go(0)), s1);
    var s2 := s1.(rcv := Rcv(R.SendAck(OnlyChunk, [7]), InProgress, 1, {0}, {0}, Some([7])));
    run := Extend(h, run, s1, ReceiverStep(Go(0)), s2);
  }

  /** It is acknowledged. */
  lemma Acknowledged(h: Hash) returns (run: seq<System>)
    ensures Reaches(h, run, System(Snd(S.Drain, 0, InProgress).(confirmed := 1),
                                Rcv(R.Loop, InProgress, 1, {0}, {0}, Some([7])), [], [], false))
  {
    run := Marked(h);
    var s2 := run[|run| - 1];
    var s3 := s2.(rcv := Rcv(R.Loop, InProgress, 1, {0}, {0}, Some([7])), toS := [Ack(0, 1)]);
    run := Extend(h, run, s2, ReceiverStep(Go(0)), s3);
    var s4 := s3.(snd := Snd(S.Drain, 1, InProgress));
    run := Extend(h, run, s3, SenderStep(Go(0)), s4);
    var s5 := s4.(snd := Snd(S.Drain, 0, InProgress).(confirmed := 1), toS := []);
    run := Extend(h, run, s4, SenderStep(Got(Ack(0, 1))), s5);
  }

  /** Completion is claimed with the recorded hash. */
  lemma Claimed(h: Hash) returns (run: seq<System>)
    ensures Reaches(h, run, System(Snd(S.AwaitFinal, 0, InProgress).(confirmed := 1),
                                   Rcv(R.CheckFile(h), InProgress, 1, {0}, {0}, Some([7])), [], [], false))
  {
    run := Acknowledged(h);
    SmallValid(h);
    var s0 := run[|run| - 1];
    var s1 := s0.(snd := s0.snd.(phase := S.AwaitFinal), toR := [CompleteMsg(h)]);
    run := Extend(h, run, s0, SenderStep(Go(0)), s1);
    var s2 := s1.(rcv := Rcv(R.CheckFile(h), InProgress, 1, {0}, {0}, Some([7])), toR := []);
    run := Extend(h, run, s1, ReceiverStep(Got(CompleteMsg(h))), s2);
  }

  /** With the right hash on record the file is checked and renamed; the record does not say so yet. */
  lemma Renamed() returns (run: seq<System>)
    ensures Reaches("seven", run,
                    System(Snd(S.AwaitFinal, 0, InProgress).(confirmed := 1),
                           Rcv(R.MarkComplete, InProgress, 1, {0}, {0}, None).(dest := Some([7])), [], [], true))
  {
    run := Claimed("seven");
    SmallValid("seven");
    var s0 := run[|run| - 1];
    var s1 := s0.(rcv := s0.rcv.(phase := R.Rename));
    run := Extend("seven", run, s0, ReceiverStep(Go(0)), s1);
    var s2 := s1.(rcv := Rcv(R.MarkComplete, InProgress, 1, {0}, {0}, None).(dest := Some([7])), tainted := true);
    run := Extend("seven", run, s1, ReceiverStep(Go(0)), s2);
  }

  /** Both records say complete, and the connection is closed. */
  lemma Completed() returns (run: seq<System>)
    ensures Reaches("seven", run,
                    System(Snd(S.Idle, 0, Complete).(confirmed := 1, acked := true),
                           Rcv(R.Idle, Complete, 1, {0}, {0}, None).(dest := Some([7])), [], [], true))
  {
    run := Renamed();
    SmallValid("seven");
    var s0 := run[|run| - 1];
    var final := Ack(FINAL_ACK, 1);
    var s1 := s0.(rcv := s0.rcv.(phase := R.SendFinal, status := Complete));
    run := Extend("seven", run, s0, ReceiverStep(Go(0)), s1);
    var s2 := s1.(rcv := s1.rcv.(phase := R.Ended(true)), toS := [final]);
    run := Extend("seven", run, s1, ReceiverStep(Go(0)), s2);
    var s3 := s2.(snd := Snd(S.Ended, 0, Complete).(confirmed := 1, acked := true), toS := []);
    run := Extend("seven", run, s2, SenderStep(Got(final)), s3);
    var s4 := s3.(snd := s3.snd.(phase := S.Idle), rcv := s3.rcv.(phase := R.Idle));
    run := Extend("seven", run, s3, Cut(false, false), s4);
  }
}
