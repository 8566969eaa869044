/**
 What a cancellation on one side makes of the other.

 The sender's cancellation pauses both sides.  The receiver's pauses the sender only if some chunk is still
 unanswered: a sender that has nothing left to send or to hear about takes the message for a failed ending.
 */
module Cancel {
  import opened Common
  import opened Transfer
  import opened System
  import opened Progress
  import opened Course
  import opened Outcome
  import Exits
  import Flow
  import OneByte
  import Restart
  import Resume
  import Wire
  import S = Sender
  import R = Receiver

  // ---- What travels to the receiver

  /** A request travels first and is gone once it is read; before completion is claimed only chunks follow it. */
  predicate Travels(s: System) {
    && (forall i | 0 < i < |s.toR| :: !s.toR[i].Request?)
    && (s.toR != [] && s.toR[0].Request? ==> s.rcv.phase.Idle? || s.rcv.phase.Ended?)
    && (Flow.Early(s.snd) ==> |s.toR| <= 1)
    && (!s.snd.phase.Ended? && !s.snd.phase.AwaitFinal? ==>
          forall i | 0 <= i < |s.toR| :: s.toR[i].Request? || s.toR[i].Chunk?)
  }

  /** What a sending step adds, as far as `Travels` goes. */
  ghost predicate Adds(s: S.Sender, t: S.Result) {
    && |t.out| <= 1 && (t.out != [] && t.out[0].Request? ==> s.phase.Idle?)
    && (Flow.Early(t.s) ==> t.out == [] || s.phase.Idle?)
    && (!t.s.phase.Ended? && !t.s.phase.AwaitFinal? ==>
          (t.out != [] ==> t.out[0].Request? || t.out[0].Chunk?) && !s.phase.Ended? && !s.phase.AwaitFinal?)
    && (Flow.Early(t.s) ==> Flow.Early(s))
  }

  lemma SenderAdds(c: Config, s: S.Sender, inp: Input)
    requires c.Valid() && S.Ready(c, s, inp) && (s.phase.Window? ==> s.phase.i < c.N())
    ensures Adds(s, S.Step(c, s, inp))
  {
  }

  lemma SenderTravels(c: Config, s: System, inp: Input, t: S.Result)
    requires Flow.Opening(s) && Travels(s) && Heads(s.toS, inp) && Adds(s.snd, t)
    ensures Travels(AfterSender(s, inp, t))
  {
  }

  lemma ReceiverTravels(c: Config, s: System, inp: Input)
    requires c.Valid() && Flow.Inv(c, s) && Travels(s) && Enabled(c, s, ReceiverStep(inp))
    ensures Travels(ReceiverMoves(c, s, inp))
  {
  }

  /** A chunk that waits for room in the window was asked for. */
  predicate Asked(c: Config, s: S.Sender) {
    s.phase.Window? ==> s.phase.i < c.N() && Selected(c, s.resumeFrom, s.missing, s.phase.i)
  }

  lemma StaysAsked(c: Config, s: S.Sender, inp: Input)
    requires c.Valid() && S.Ready(c, s, inp) && Asked(c, s)
    ensures Asked(c, S.Step(c, s, inp).s)
  {
  }

  lemma FollowsTravels(c: Config, s: System, t: System)
    requires c.Valid() && Flow.Inv(c, s) && Follows(c, s, t) && Travels(s) && Asked(c, s.snd)
    ensures Travels(t) && Asked(c, t.snd)
  {
    var e :| Enabled(c, s, e) && t == Apply(c, s, e);
    match e
    case SenderStep(inp) =>
      SenderAdds(c, s.snd, inp);
      SenderTravels(c, s, inp, S.Step(c, s.snd, inp));
      StaysAsked(c, s.snd, inp);
    case ReceiverStep(inp) => ReceiverTravels(c, s, inp);
    case Cut(_, _) =>
  }

  lemma {:induction false} RunTravels(c: Config, run: seq<System>, i: nat)
    requires c.Valid() && IsRun(c, run) && i < |run|
    ensures Travels(run[i]) && Asked(c, run[i].snd)
  {
    if i > 0 {
      RunTravels(c, run, i - 1);
      Flow.RunInv(c, run, i - 1);
      assert Follows(c, run[i - 1], run[i]);
      FollowsTravels(c, run[i - 1], run[i]);
    }
  }

  /** Fault-free steps from s. */
  ghost predicate Smoothly(c: Config, ss: seq<System>, s: System)
    requires c.Valid()
  {
    ss != [] && ss[0] == s && forall i | 0 < i < |ss| :: FollowsWell(c, ss[i - 1], ss[i])
  }

  // ---- The sender cancels

  /** Chunks, then the cancellation. */
  predicate EndsInCancel(q: seq<Message>) {
    q != [] && q[|q| - 1].CancelMsg? && forall i | 0 <= i < |q| - 1 :: q[i].Chunk?
  }

  /** The sender has cancelled, and the receiver has heard or will hear. */
  ghost predicate Pausing(c: Config, s: System)
    requires c.Valid()
  {
    && Typed(c, s) && Resume.AllHonest(c, s) && s.snd.phase.Ended? && s.snd.status.Paused?
    && s.rcv.known
    && if s.rcv.phase.Ended? then s.rcv.status.Paused?
       else (Joining(s.rcv) || R.Busy(s.rcv)) && EndsInCancel(s.toR)
            && (s.rcv.phase.Loop? || R.Busy(s.rcv) ==> s.rcv.status.InProgress?)
  }

  lemma SenderCancels(c: Config, run: seq<System>, i: nat)
    requires c.Valid() && IsRun(c, run) && i < |run| && R.Live(run[i].rcv)
    requires Typed(c, run[i]) && Enabled(c, run[i], SenderStep(CancelRequest))
    ensures Pausing(c, SenderMoves(c, run[i], CancelRequest))
  {
    var s := run[i];
    RunTravels(c, run, i);
    Resume.RunInv(c, run, i);
    Exits.RunOnRecord(c, run, i);
    Restart.RunRecorded(c, run, i);
    assert S.Step(c, s.snd, CancelRequest) == S.Result(S.End(s.snd, false), [CancelMsg]);
    assert SenderMoves(c, s, CancelRequest).toR == s.toR + [CancelMsg];
  }

  lemma StaysPausing(c: Config, s: System, t: System)
    requires c.Valid() && Pausing(c, s) && FollowsWell(c, s, t)
    ensures Pausing(c, t)
    ensures ReceiverRank(t.rcv) + 8 * |t.toR| < ReceiverRank(s.rcv) + 8 * |s.toR|
  {
    var e :| FaultFree(e) && Enabled(c, s, e) && t == Apply(c, s, e);
    ReceiverRankDrops(c, s.rcv, e.inp);
    Resume.HonestStep(c, s.rcv, e.inp);
    PausingStep(c, s, e.inp);
  }

  lemma PausingStep(c: Config, s: System, inp: Input)
    requires c.Valid() && Pausing(c, s) && Enabled(c, s, ReceiverStep(inp)) && Smooth(inp)
    requires Resume.AllHonest(c, ReceiverMoves(c, s, inp))
    ensures Pausing(c, ReceiverMoves(c, s, inp))
  {
  }

  lemma CanHear(c: Config, s: System) returns (t: System)
    requires c.Valid() && Pausing(c, s) && !s.rcv.phase.Ended?
    ensures FollowsWell(c, s, t)
  {
    var e := ReceiverStep(if s.rcv.phase.Loop? then Got(s.toR[0]) else Go(0));
    assert FaultFree(e) && Enabled(c, s, e);
    t := Apply(c, s, e);
  }

  lemma {:induction false} SmoothlyPausing(c: Config, ss: seq<System>, s: System, i: nat)
    requires c.Valid() && Pausing(c, s) && Smoothly(c, ss, s) && i < |ss|
    ensures Pausing(c, ss[i])
    ensures ReceiverRank(ss[i].rcv) + 8 * |ss[i].toR| + i <= ReceiverRank(s.rcv) + 8 * |s.toR|
  {
    if i > 0 {
      SmoothlyPausing(c, ss, s, i - 1);
      assert FollowsWell(c, ss[i - 1], ss[i]);
      StaysPausing(c, ss[i - 1], ss[i]);
    }
  }

  /** A sender cancelled while it streams to a receiver at work, in any run: without further faults the receiver takes
      what is on the way, hears of it and pauses too, and its record can be taken up; it can always go on until
      then, and it takes a bounded number of steps. */
  lemma SenderCancelPausesBoth(c: Config, run: seq<System>, i: nat, ss: seq<System>) returns (next: System)
    requires c.Valid() && IsRun(c, run) && i < |run| && R.Live(run[i].rcv)
    requires Typed(c, run[i]) && Enabled(c, run[i], SenderStep(CancelRequest))
    requires Smoothly(c, ss, SenderMoves(c, run[i], CancelRequest))
    ensures var last := ss[|ss| - 1];
      && last.snd.status.Paused?
      && (last.rcv.phase.Ended? ==> last.rcv.status.Paused? && R.Resumable(last.rcv))
      && (!last.rcv.phase.Ended? ==> FollowsWell(c, last, next))
    ensures |ss| <= ReceiverRank(ss[0].rcv) + 8 * |ss[0].toR| + 1
  {
    SenderCancels(c, run, i);
    SmoothlyPausing(c, ss, ss[0], |ss| - 1);
    next := ss[0];
    if !ss[|ss| - 1].rcv.phase.Ended? { next := CanHear(c, ss[|ss| - 1]); }
  }

  // ---- The receiver cancels

  /** Acknowledgements, then the cancellation. */
  predicate AcksThenCancel(q: seq<Message>) {
    q != [] && q[|q| - 1].CancelMsg? && forall i | 0 <= i < |q| - 1 :: q[i].Ack?
  }

  /** How many chunks the sender has still to pass that are asked for. */
  function Left(c: Config, s: S.Sender): nat { |SelectedFrom(c, s.resumeFrom, s.missing, S.Pos(c, s))| }

  /** The receiver has cancelled with u chunks unanswered, and the sender will hear of it or has. */
  ghost predicate Hearing(c: Config, s: System, u: nat)
    requires c.Valid()
  {
    && Typed(c, s) && s.rcv.phase.Ended? && Asked(c, s.snd) && Exits.OnRecord(s.snd)
    && match s.snd.phase
       case Idle => false
       case Ended => s.snd.status == if u > 0 then Paused else Failed
       case Requested => Answered(c, s, u)
       case AwaitAnswer => Answered(c, s, u)
       case _ => AcksThenCancel(s.toS) && s.snd.pending + Left(c, s.snd) == |s.toS| - 1 + u
                 && (s.snd.phase.AwaitFinal? ==> s.snd.pending == 0)
  }

  predicate Answered(c: Config, s: System, u: nat) {
    && |s.toS| == 2 && s.toS[0].Acceptance? && s.toS[0].accepted && s.toS[1].CancelMsg?
    && u == |SelectedFrom(c, s.toS[0].resumeFrom, s.toS[0].missing, 0)|
  }

  /** The chunks that are asked for and neither sent nor, if sent, taken by the receiver. */
  function Unanswered(c: Config, s: System): nat { |Wire.Unsent(c, s)| + |Ids(s.toR)| }

  lemma {:induction false} AllAcks(q: seq<Message>)
    requires Flow.OnlyAcks(q)
    ensures Acks(q) == |q|
    decreases |q|
  {
    if q != [] { AllAcks(q[1..]); }
  }

  lemma ReceiverCancels(c: Config, run: seq<System>, i: nat)
    requires c.Valid() && IsRun(c, run) && i < |run| && run[i].rcv.phase.Loop? && !run[i].snd.phase.Ended?
    requires Typed(c, run[i]) && Enabled(c, run[i], ReceiverStep(CancelRequest))
    ensures Hearing(c, ReceiverMoves(c, run[i], CancelRequest), Unanswered(c, run[i]))
  {
    var s := run[i];
    RunTravels(c, run, i);
    Flow.RunInv(c, run, i);
    Exits.RunOnRecord(c, run, i);
    assert R.Step(c, s.rcv, CancelRequest) == R.Result(R.End(s.rcv, false), [CancelMsg]);
    assert ReceiverMoves(c, s, CancelRequest).toS == s.toS + [CancelMsg];
    if S.Streaming(s.snd) { AllAcks(s.toS); }
  }

  /** A sender that has the answer or not. */
  lemma EarlyHears(c: Config, s: System, inp: Input, u: nat)
    requires c.Valid() && Hearing(c, s, u) && Enabled(c, s, SenderStep(inp)) && (inp.Go? || inp.Got?)
    requires Flow.Early(s.snd)
    ensures Hearing(c, SenderMoves(c, s, inp), u)
  {
  }

  lemma WaitHears(c: Config, s: System, inp: Input, u: nat)
    requires c.Valid() && Hearing(c, s, u) && Enabled(c, s, SenderStep(inp)) && (inp.Go? || inp.Got?)
    requires S.Waiting(s.snd)
    ensures Hearing(c, SenderMoves(c, s, inp), u)
  {
  }

  lemma StreamHears(c: Config, s: System, inp: Input, u: nat)
    requires c.Valid() && Hearing(c, s, u) && Enabled(c, s, SenderStep(inp)) && (inp.Go? || inp.Got?)
    requires S.Streaming(s.snd) && !S.Waiting(s.snd)
    ensures Hearing(c, SenderMoves(c, s, inp), u)
  {
  }

  lemma StaysHearing(c: Config, s: System, t: System, u: nat)
    requires c.Valid() && Hearing(c, s, u) && FollowsWell(c, s, t)
    ensures Hearing(c, t, u) && SenderRank(c, t.snd) + |t.toS| < SenderRank(c, s.snd) + |s.toS|
  {
    var e :| FaultFree(e) && Enabled(c, s, e) && t == Apply(c, s, e);
    SenderRankDrops(c, s.snd, e.inp);
    if Flow.Early(s.snd) {
      EarlyHears(c, s, e.inp, u);
    } else if S.Waiting(s.snd) {
      WaitHears(c, s, e.inp, u);
    } else {
      StreamHears(c, s, e.inp, u);
    }
  }

  lemma CanLearn(c: Config, s: System, u: nat) returns (t: System)
    requires c.Valid() && Hearing(c, s, u) && !s.snd.phase.Ended?
    ensures FollowsWell(c, s, t)
  {
    var listens := s.snd.phase.AwaitAnswer? || s.snd.phase.AwaitFinal? || S.Waiting(s.snd);
    var e := SenderStep(if listens then Got(s.toS[0]) else Go(0));
    assert FaultFree(e) && Enabled(c, s, e);
    t := Apply(c, s, e);
  }

  lemma {:induction false} SmoothlyHearing(c: Config, ss: seq<System>, s: System, u: nat, i: nat)
    requires c.Valid() && Hearing(c, s, u) && Smoothly(c, ss, s) && i < |ss|
    ensures Hearing(c, ss[i], u)
    ensures SenderRank(c, ss[i].snd) + |ss[i].toS| + i <= SenderRank(c, s.snd) + |s.toS|
  {
    if i > 0 {
      SmoothlyHearing(c, ss, s, u, i - 1);
      assert FollowsWell(c, ss[i - 1], ss[i]);
      StaysHearing(c, ss[i - 1], ss[i], u);
    }
  }

  /** A receiver cancelled while it reads, in any run: without further faults the sender returns after a bounded number
      of steps, paused if some chunk was unanswered and failed if none was. */
  lemma ReceiverCancelPausesIff(c: Config, run: seq<System>, i: nat, ss: seq<System>) returns (next: System)
    requires c.Valid() && IsRun(c, run) && i < |run| && run[i].rcv.phase.Loop? && !run[i].snd.phase.Ended?
    requires Typed(c, run[i]) && Enabled(c, run[i], ReceiverStep(CancelRequest))
    requires Smoothly(c, ss, ReceiverMoves(c, run[i], CancelRequest))
    ensures var last := ss[|ss| - 1];
      && (last.snd.phase.Ended? ==>
            && (last.snd.status.Paused? <==> Unanswered(c, run[i]) > 0)
            && (last.snd.status.Failed? <==> Unanswered(c, run[i]) == 0))
      && (!last.snd.phase.Ended? ==> FollowsWell(c, last, next))
    ensures |ss| <= SenderRank(c, ss[0].snd) + |ss[0].toS| + 1
  {
    var u := Unanswered(c, run[i]);
    ReceiverCancels(c, run, i);
    SmoothlyHearing(c, ss, ss[0], u, |ss| - 1);
    next := ss[0];
    if !ss[|ss| - 1].snd.phase.Ended? { next := CanLearn(c, ss[|ss| - 1], u); }
  }

  /** It happens: the whole file has been taken and acknowledged when the receiver's user cancels, and the two sides
      end with different records. */
  lemma CancelDisagrees() returns (c: Config, run: seq<System>)
    ensures c.Valid() && IsRun(c, run)
    ensures var last := run[|run| - 1];
      last.snd.phase.Ended? && last.snd.status.Failed? && last.rcv.phase.Ended? && last.rcv.status.Paused?
  {
    c := OneByte.Small("seven");
    run := OneByte.Acknowledged("seven");
    OneByte.SmallValid("seven");
    var s0 := run[|run| - 1];
    var s1 := s0.(rcv := s0.rcv.(phase := R.Ended(false), status := Paused), toS := [CancelMsg]);
    run := OneByte.Extend("seven", run, s0, ReceiverStep(CancelRequest), s1);
    var s2 := s1.(snd := s1.snd.(phase := S.AwaitFinal), toR := [CompleteMsg("seven")]);
    run := OneByte.Extend("seven", run, s1, SenderStep(Go(0)), s2);
    var s3 := s2.(snd := s2.snd.(phase := S.Ended, status := Failed), toS := []);
    run := OneByte.Extend("seven", run, s2, SenderStep(Got(CancelMsg)), s3);
  }
}
