/**
 How the two handlers of a transfer are left: what each leaves on record, and what it says on leaving.

 A cancellation pauses, a refusal declines, the final answer completes, and everything else fails, except that a
 receiver that leaves through `?` leaves its record as it was.
 */
module Exits {
  import opened Common
  import opened Transfer
  import opened System
  import S = Sender
  import R = Receiver
  import Restart
  import Flow
  import Intake

  // ---- The sender

  /** What a sender's record says at each place. */
  predicate OnRecord(s: S.Sender) {
    && (S.Streaming(s) ==> s.status.InProgress?)
    && (s.phase.AwaitAnswer? ==> s.status.AwaitingAcceptance?)
  }

  lemma StepKeepsRecord(c: Config, s: S.Sender, inp: Input)
    requires c.Valid() && S.Ready(c, s, inp) && (s.phase.Window? ==> s.phase.i < c.N()) && OnRecord(s)
    ensures OnRecord(S.Step(c, s, inp).s)
  {
  }

  lemma FollowsKeepsRecord(c: Config, s: System, t: System)
    requires c.Valid() && Follows(c, s, t) && OnRecord(s.snd)
    ensures OnRecord(t.snd)
  {
    var e :| Enabled(c, s, e) && t == Apply(c, s, e);
    if e.SenderStep? { StepKeepsRecord(c, s.snd, e.inp); }
  }

  lemma {:induction false} RunOnRecord(c: Config, run: seq<System>, i: nat)
    requires c.Valid() && IsRun(c, run) && i < |run|
    ensures OnRecord(run[i].snd)
  {
    if i > 0 {
      RunOnRecord(c, run, i - 1);
      assert Follows(c, run[i - 1], run[i]);
      FollowsKeepsRecord(c, run[i - 1], run[i]);
    }
  }

  /** The local user cancels, or a message says that the peer's has, while acknowledgements are awaited. */
  predicate Cancels(s: S.Sender, inp: Input) {
    inp.CancelRequest? || (inp == Got(CancelMsg) && !s.phase.AwaitFinal?)
  }

  predicate Acknowledges(s: S.Sender, inp: Input) { s.phase.AwaitFinal? && inp.Got? && inp.msg.Ack? }

  predicate Refuses(inp: Input) { inp.Got? && inp.msg.Acceptance? && !inp.msg.accepted }

  /** The record a sender leaves, by where it was and what it met. */
  ghost predicate SenderLeaves(s: S.Sender, inp: Input, t: S.Result) {
    && t.out == (if inp.CancelRequest? then [CancelMsg] else [])
    && (S.Streaming(s) ==>
          && (t.s.status.Paused? <==> Cancels(s, inp))
          && (t.s.status.Complete? <==> Acknowledges(s, inp))
          && (t.s.status.Failed? <==> !Cancels(s, inp) && !Acknowledges(s, inp)))
    && (s.phase.AwaitAnswer? ==>
          && (t.s.status.Declined? <==> Refuses(inp))
          && (t.s.status.Failed? <==> !Refuses(inp)))
    && (s.phase.Requested? || s.phase.Idle? ==>
          t.s.status == if s.status in {Pending, AwaitingAcceptance, InProgress} then Failed else s.status)
  }

  lemma StreamLeaves(c: Config, s: S.Sender, inp: Input)
    requires c.Valid() && S.Ready(c, s, inp) && (s.phase.Window? ==> s.phase.i < c.N()) && OnRecord(s)
    requires S.Streaming(s) && S.Step(c, s, inp).s.phase.Ended?
    ensures SenderLeaves(s, inp, S.Step(c, s, inp))
  {
  }

  lemma EarlyLeaves(c: Config, s: S.Sender, inp: Input)
    requires c.Valid() && S.Ready(c, s, inp) && OnRecord(s) && Flow.Early(s) && S.Step(c, s, inp).s.phase.Ended?
    ensures SenderLeaves(s, inp, S.Step(c, s, inp))
  {
  }

  /** In every run, the step by which a sending handler returns. */
  lemma SenderExit(c: Config, run: seq<System>, i: nat, inp: Input)
    requires c.Valid() && IsRun(c, run) && i < |run|
    requires Typed(c, run[i]) && Enabled(c, run[i], SenderStep(inp))
    requires S.Step(c, run[i].snd, inp).s.phase.Ended?
    ensures SenderLeaves(run[i].snd, inp, S.Step(c, run[i].snd, inp))
  {
    RunOnRecord(c, run, i);
    if S.Streaming(run[i].snd) {
      StreamLeaves(c, run[i].snd, inp);
    } else {
      EarlyLeaves(c, run[i].snd, inp);
    }
  }

  /** The answer to the request either ends the handler or is an acceptance; then streaming starts at the first chunk,
      with nothing pending and the receiver's offset as the progress on record. */
  lemma AnswerTaken(c: Config, s: S.Sender, inp: Input)
    requires c.Valid() && S.Ready(c, s, inp) && s.phase.AwaitAnswer?
    ensures var t := S.Step(c, s, inp).s;
      && (t.phase.Ended? <==> !(inp.Got? && inp.msg.Acceptance? && inp.msg.accepted))
      && (!t.phase.Ended? ==>
            && t.phase == S.AtChunk(0) && t.pending == 0 && t.status.InProgress?
            && t.confirmed == t.resumeFrom == inp.msg.resumeFrom && t.missing == inp.msg.missing)
  {
  }

  /** What makes a sender return while it streams: a poll that finds a request, a failure, a message that says error or
      cancelled, the twelfth silence in a row, and whatever answers its claim. */
  predicate MustLeave(s: S.Sender, inp: Input) {
    || inp.CancelRequest? || inp.CrashToken? || inp.Broken? || inp.Fault?
    || s.phase.AwaitFinal?
    || (inp.Got? && (inp.msg.ErrorMsg? || inp.msg.CancelMsg?))
    || (inp.Timeout? && s.timeouts + 1 >= 12)
  }

  lemma SenderLeavesIff(c: Config, s: S.Sender, inp: Input)
    requires c.Valid() && S.Ready(c, s, inp) && (s.phase.Window? ==> s.phase.i < c.N()) && S.Streaming(s)
    ensures S.Step(c, s, inp).s.phase.Ended? <==> MustLeave(s, inp)
  {
  }

  // ---- The receiver, with any peer

  /** What a receiver's record says at each place from the opening of the part file on. */
  predicate AtWork(r: R.Receiver) {
    && (Restart.Working(r) ==> r.status.InProgress?)
    && (r.phase.SendFinal? ==> r.status.Complete?) && (r.phase.Delete? ==> r.status.Failed?)
  }

  lemma StepStaysAtWork(c: Config, r: R.Receiver, inp: Input, t: R.Receiver)
    requires Intake.Takes(c, r, inp, t) && AtWork(r) && !Intake.Before(r)
    ensures AtWork(t)
  {
  }

  lemma {:induction false} IntakeAtWork(c: Config, rs: seq<R.Receiver>, ins: seq<Input>, i: nat)
    requires Intake.IsIntake(c, rs, ins) && i < |rs|
    ensures AtWork(rs[i]) && !Intake.Before(rs[i])
  {
    Intake.IntakeLedger(c, rs, ins, i);
    if i > 0 {
      IntakeAtWork(c, rs, ins, i - 1);
      assert Intake.Takes(c, rs[i - 1], ins[i - 1], rs[i]);
      StepStaysAtWork(c, rs[i - 1], ins[i - 1], rs[i]);
    }
  }

  predicate CancelsReceiver(inp: Input) { inp.CancelRequest? || inp == Got(CancelMsg) }

  /** The record and the part file a receiver leaves, and what it says. */
  ghost predicate ReceiverLeaves(c: Config, r: R.Receiver, inp: Input, t: R.Result) {
    && (t.r.status.Paused? <==> CancelsReceiver(inp))
    && (t.r.status.Complete? <==> r.phase.SendFinal?)
    && (t.r.status.InProgress? <==> inp.Fault?)
    && (t.r.status.Failed? <==> !CancelsReceiver(inp) && !r.phase.SendFinal? && !inp.Fault?)
    && t.r.part == (if r.phase.Delete? then None else r.part)
    && t.out == if inp.CancelRequest? then [CancelMsg]
                else if r.phase.SendFinal? then [Ack(FINAL_ACK, |c.src|)] else []
  }

  lemma LoopLeaves(c: Config, r: R.Receiver, inp: Input)
    requires R.Ready(r, inp) && AtWork(r) && r.phase.Loop? && R.Step(c, r, inp).r.phase.Ended?
    ensures ReceiverLeaves(c, r, inp, R.Step(c, r, inp))
  {
  }

  lemma OtherLeaves(c: Config, r: R.Receiver, inp: Input)
    requires R.Ready(r, inp) && AtWork(r) && (R.Busy(r) ==> r.phase.m.Chunk?)
    requires !r.phase.Loop? && !Intake.Before(r) && !r.phase.Start? && R.Step(c, r, inp).r.phase.Ended?
    ensures ReceiverLeaves(c, r, inp, R.Step(c, r, inp))
  {
  }

  /** In every session, with any peer, the step by which a receiver at work returns; one that fails to record that it
      starts leaves its record and its file as they were. */
  lemma {:induction false} ReceiverExit(c: Config, rs: seq<R.Receiver>, ins: seq<Input>, i: nat)
    requires Intake.IsIntake(c, rs, ins) && i < |ins| && rs[i + 1].phase.Ended?
    ensures var t := R.Step(c, rs[i], ins[i]);
      if rs[i].phase.Start? then t == R.Result(rs[i].(phase := R.Ended(false)), [])
      else ReceiverLeaves(c, rs[i], ins[i], t)
  {
    IntakeAtWork(c, rs, ins, i);
    assert Intake.Takes(c, rs[i], ins[i], rs[i + 1]);
    if rs[i].phase.Loop? {
      LoopLeaves(c, rs[i], ins[i]);
    } else if !rs[i].phase.Start? {
      OtherLeaves(c, rs[i], ins[i]);
    }
  }

  /** Before the part file is open, only the user's decision and its absence are recorded, and nothing on disk
      changes; only a lack of space and a refusal are answered. */
  lemma EarlyReceiverExit(c: Config, r: R.Receiver, inp: Input)
    requires R.Ready(r, inp) && Intake.Before(r) && R.Step(c, r, inp).r.phase.Ended?
    ensures var t := R.Step(c, r, inp);
      && t.r.status == (if inp.Decline? then Declined else if r.phase.Decide? && inp.Timeout? then Failed else r.status)
      && t.r == r.(phase := R.Ended(false), status := t.r.status)
      && t.out == if inp.NoSpace? then [ErrorMsg] else if inp.Decline? then [Acceptance(false, 0, None)] else []
  {
  }

  /** A transfer is refused, with the part file to be removed, exactly after a chunk that opens to something else than
      its hash says or a file that does; and without removing it exactly when the peer says error. */
  lemma RefusalIff(c: Config, r: R.Receiver, inp: Input)
    requires R.Ready(r, inp) && (R.Busy(r) ==> r.phase.m.Chunk?)
    ensures var t := R.Step(c, r, inp);
      && (t.r.phase == R.Refuse(true) <==>
            || (r.phase.Loop? && inp.Got? && Intake.Opens(c, inp.msg) && !Intake.Genuine(c, inp.msg))
            || (r.phase.CheckFile? && !inp.Fault? && c.hash(R.Bytes(r)) != r.phase.claimed))
      && (t.r.phase == R.Refuse(false) <==> r.phase.Loop? && inp == Got(ErrorMsg))
      && (t.r.phase == R.Refuse(true) ==> t.out == [ErrorMsg])
  {
  }
}
