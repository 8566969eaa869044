/**
 A session nothing interferes with: it is never stuck, it ends, and how it ends is decided by what the
 receiver had on disk and what its answer asked for.
 */
module Progress {
  import opened Common
  import opened Transfer
  import opened System
  import Flow
  import Resume
  import S = Sender
  import R = Receiver

  predicate Smooth(inp: Input) { inp.Go? || inp.Got? || inp.Accept? || inp.Moved? }

  /** No timeout, no broken channel, no cancellation, no crash; the user accepts.  The destination may have moved. */
  predicate FaultFree(e: Event) {
    match e
    case SenderStep(inp) => inp.Go? || inp.Got?
    case ReceiverStep(inp) => Smooth(inp)
    case Cut(_, _) => false
  }

  predicate OnlyChunks(q: seq<Message>) { forall i | 0 <= i < |q| :: q[i].Chunk? }

  predicate Joining(r: R.Receiver) { r.phase.OpenPart? || r.phase.Start? || r.phase.Loop? }

  /** Where the two handlers and the channels stand in a session without faults. */
  predicate Healthy(c: Config, s: System) {
    && (s.rcv.phase.InsertRows? ==> s.rcv.status.Pending?)
    && (s.snd.phase.Window? ==> s.snd.phase.i < c.N() && Selected(c, s.snd.resumeFrom, s.snd.missing, s.snd.phase.i))
    && match s.snd.phase
       case Idle => s.rcv.phase.Idle? && s.toR == [] && s.toS == []
       case Requested => Asking(s)
       case AwaitAnswer => Asking(s)
       case AwaitFinal => Finishing(c, s)
       case Ended => Over(s)
       case _ => R.Live(s.rcv) && !R.Completing(s.rcv) && OnlyChunks(s.toR)
  }

  predicate Asking(s: System) {
    if s.rcv.phase.Idle? then s.toR == [Request] && s.toS == []
    else if Flow.Undecided(s.rcv) then s.toR == [] && s.toS == []
    else Joining(s.rcv) && s.toR == [] && |s.toS| == 1 && s.toS[0].Acceptance? && s.toS[0].accepted
  }

  predicate Finishing(c: Config, s: System) {
    if Joining(s.rcv) then s.toR == [CompleteMsg(c.fileHash)] && s.toS == []
    else if R.Completing(s.rcv) then s.toR == [] && s.toS == []
    else if Flow.Completed(s.rcv) then s.toR == [] && s.toS == [Ack(FINAL_ACK, |c.src|)]
    else Refused(s.rcv) && s.toR == [] && s.toS == [ErrorMsg]
  }

  predicate Refused(r: R.Receiver) {
    || r.phase == R.Refuse(true)
    || ((r.phase.Delete? || (r.phase == R.Ended(false) && r.part.None?)) && r.status.Failed?)
  }

  predicate Over(s: System) {
    && s.toR == [] && s.toS == []
    && if s.snd.acked then Flow.Completed(s.rcv) else s.snd.status.Failed? && Refused(s.rcv)
  }

  ghost predicate Inv(c: Config, s: System)
    requires c.Valid()
  {
    Flow.Inv(c, s) && Resume.AllHonest(c, s) && Healthy(c, s)
  }

  predicate Finished(s: System) { s.snd.phase.Ended? && s.rcv.phase.Ended? }

  // ---- Never stuck

  /** Some party can always take a fault-free step. */
  lemma NeverStuck(c: Config, s: System) returns (e: Event)
    requires c.Valid() && Inv(c, s) && !Finished(s)
    ensures FaultFree(e) && Enabled(c, s, e) && !(e.ReceiverStep? && e.inp.Moved?)
  {
    if s.snd.phase.Idle? {
      e := SenderStep(Go(0));
    } else if s.rcv.phase.Decide? {
      e := ReceiverStep(Accept);
    } else if s.rcv.phase.Idle? || s.rcv.phase.Loop? {
      if s.toR != [] {
        e := ReceiverStep(Got(s.toR[0]));
      } else {
        e := SenderCan(c, s);
      }
    } else if s.rcv.phase.Ended? {
      e := SenderCan(c, s);
    } else {
      e := ReceiverStep(Go(0));
    }
  }

  lemma SenderCan(c: Config, s: System) returns (e: Event)
    requires c.Valid() && Inv(c, s) && !s.snd.phase.Idle? && !Finished(s)
    requires (s.rcv.phase.Idle? || s.rcv.phase.Loop? ==> s.toR == [])
    requires s.rcv.phase.Idle? || s.rcv.phase.Loop? || s.rcv.phase.Ended?
    ensures FaultFree(e) && Enabled(c, s, e) && e.SenderStep?
  {
    if s.toS != [] && (s.snd.phase.AwaitAnswer? || s.snd.phase.AwaitFinal? || S.Waiting(s.snd)) {
      e := SenderStep(Got(s.toS[0]));
    } else {
      e := SenderStep(Go(0));
    }
  }

  // ---- Termination

  function SenderRank(c: Config, s: S.Sender): nat {
    match s.phase
    case Idle => 20 * c.N() + 70
    case Requested => 20 * c.N() + 59
    case AwaitAnswer => 20 * c.N() + 58
    case AtChunk(i) => if i <= c.N() then 20 * (c.N() - i) + 50 else 0
    case Window(i) => if i <= c.N() then 20 * (c.N() - i) + 49 else 0
    case Drain => 45
    case AwaitFinal => 30
    case Ended => 0
  }

  function ReceiverRank(r: R.Receiver): nat {
    match r.phase
    case Idle => 30
    case CheckSpace => 29
    case InsertRows => 28
    case Decide => 27
    case OpenPart => 20
    case Start => 19
    case Loop => 10
    case Write(_, _) => 16
    case Confirm(_, _) => 15
    case Mark(_, _) => 14
    case SendAck(_, _) => 13
    case CheckFile(_) => 9
    case Rename => 8
    case MarkComplete => 7
    case SendFinal => 6
    case Refuse(_) => 5
    case Delete => 4
    case Ended(_) => 0
  }

  /** Work left: a travelling request, chunk or claim costs its receiver more than an answer costs the sender. */
  function Work(c: Config, s: System): nat {
    SenderRank(c, s.snd) + ReceiverRank(s.rcv) + 8 * |s.toR| + |s.toS|
  }

  lemma SenderRankDrops(c: Config, s: S.Sender, inp: Input)
    requires c.Valid() && S.Ready(c, s, inp) && (inp.Go? || inp.Got?)
    requires (s.phase.Window? ==> s.phase.i < c.N()) && (s.phase.AtChunk? ==> s.phase.i <= c.N())
    ensures var t := S.Step(c, s, inp);
      && SenderRank(c, t.s) + 8 * |t.out| <= SenderRank(c, s)
      && (!inp.Got? ==> SenderRank(c, t.s) + 8 * |t.out| < SenderRank(c, s))
  {
  }

  lemma ReceiverRankDrops(c: Config, r: R.Receiver, inp: Input)
    requires R.Ready(r, inp) && Smooth(inp) && (R.Busy(r) ==> r.phase.m.Chunk?)
    ensures var t := R.Step(c, r, inp);
      ReceiverRank(t.r) + |t.out| < ReceiverRank(r) + (if inp.Got? then 8 else 0)
  {
  }

  /** Every fault-free step leaves strictly less work. */
  lemma WorkDrops(c: Config, s: System, e: Event)
    requires c.Valid() && Flow.Inv(c, s) && Enabled(c, s, e) && FaultFree(e)
    ensures Work(c, Apply(c, s, e)) < Work(c, s)
  {
    match e
    case SenderStep(inp) => SenderRankDrops(c, s.snd, inp);
    case ReceiverStep(inp) => ReceiverRankDrops(c, s.rcv, inp);
  }

  // ---- Staying healthy

  lemma EarlyStaysHealthy(c: Config, s: System, inp: Input)
    requires c.Valid() && Inv(c, s) && Enabled(c, s, SenderStep(inp)) && FaultFree(SenderStep(inp))
    requires Flow.Early(s.snd)
    ensures Healthy(c, SenderMoves(c, s, inp))
  {
  }

  lemma StreamStaysHealthy(c: Config, s: System, inp: Input)
    requires c.Valid() && Inv(c, s) && Enabled(c, s, SenderStep(inp)) && FaultFree(SenderStep(inp))
    requires S.Streaming(s.snd) && !s.snd.phase.AwaitFinal?
    ensures Healthy(c, SenderMoves(c, s, inp))
  {
  }

  lemma FinalStaysHealthy(c: Config, s: System, inp: Input)
    requires c.Valid() && Inv(c, s) && Enabled(c, s, SenderStep(inp)) && FaultFree(SenderStep(inp))
    requires s.snd.phase.AwaitFinal?
    ensures Healthy(c, SenderMoves(c, s, inp))
  {
  }

  lemma UndecidedStaysHealthy(c: Config, s: System, inp: Input)
    requires c.Valid() && Inv(c, s) && Enabled(c, s, ReceiverStep(inp)) && FaultFree(ReceiverStep(inp))
    requires Flow.Undecided(s.rcv)
    ensures Healthy(c, ReceiverMoves(c, s, inp))
  {
  }

  /** The kinds of fault-free step of a receiver that has answered. */
  datatype Kind = Carry | Take | Conclude

  ghost predicate KindFacts(c: Config, r: R.Receiver, inp: Input, t: R.Result, kind: Kind) {
    match kind
    case Carry =>
      && !inp.Got? && R.Live(t.r) && !R.Completing(t.r)
      && (Joining(r) ==> Joining(t.r) && t.out == []) && (R.Busy(r) || Joining(r))
    case Take =>
      && inp.Got? && r.phase.Loop? && t.out == []
      && (if inp.msg.Chunk? then R.Live(t.r) && !R.Completing(t.r) else inp.msg.CompleteMsg? && t.r.phase.CheckFile?)
    case Conclude =>
      && !inp.Got? && (R.Completing(r) || (R.Refusing(r) && (Refused(r) ==> Refused(t.r) && t.out == [])))
      && (R.Completing(r) ==>
            || (R.Completing(t.r) && t.out == [])
            || (Flow.Completed(t.r) && t.out == [Ack(FINAL_ACK, |c.src|)])
            || (Refused(t.r) && t.out == [ErrorMsg]))
  }

  lemma LoopKind(c: Config, s: System, inp: Input)
    requires c.Valid() && Inv(c, s) && Enabled(c, s, ReceiverStep(inp)) && FaultFree(ReceiverStep(inp))
    requires s.rcv.phase.Loop?
    ensures KindFacts(c, s.rcv, inp, R.Step(c, s.rcv, inp), Take)
  {
  }

  lemma OtherKind(c: Config, r: R.Receiver, inp: Input)
    requires R.Ready(r, inp) && Smooth(inp) && (R.Busy(r) ==> r.phase.m.Chunk?)
    requires !Flow.Undecided(r) && !r.phase.Loop?
    ensures KindFacts(c, r, inp, R.Step(c, r, inp), if R.Completing(r) || R.Refusing(r) then Conclude else Carry)
  {
  }

  lemma CarryStaysHealthy(c: Config, s: System, inp: Input, res: R.Result)
    requires c.Valid() && Inv(c, s) && Heads(s.toR, inp) && KindFacts(c, s.rcv, inp, res, Carry)
    ensures Healthy(c, AfterReceiver(s, inp, res))
  {
  }

  lemma TakeStaysHealthy(c: Config, s: System, inp: Input, res: R.Result)
    requires c.Valid() && Inv(c, s) && Heads(s.toR, inp) && KindFacts(c, s.rcv, inp, res, Take)
    ensures Healthy(c, AfterReceiver(s, inp, res))
  {
  }

  lemma ConcludeStaysHealthy(c: Config, s: System, inp: Input, res: R.Result)
    requires c.Valid() && Inv(c, s) && Heads(s.toR, inp) && KindFacts(c, s.rcv, inp, res, Conclude)
    ensures Healthy(c, AfterReceiver(s, inp, res))
  {
  }

  lemma StepKeepsInv(c: Config, s: System, e: Event)
    requires c.Valid() && Inv(c, s) && Enabled(c, s, e) && FaultFree(e)
    ensures Inv(c, Apply(c, s, e))
  {
    Flow.StepKeepsInv(c, s, e);
    match e
    case SenderStep(inp) =>
      SenderKeepsHonest(c, s, inp);
      if Flow.Early(s.snd) {
        EarlyStaysHealthy(c, s, inp);
      } else if s.snd.phase.AwaitFinal? {
        FinalStaysHealthy(c, s, inp);
      } else {
        StreamStaysHealthy(c, s, inp);
      }
    case ReceiverStep(inp) =>
      var res := R.Step(c, s.rcv, inp);
      Resume.HonestStep(c, s.rcv, inp);
      if Flow.Undecided(s.rcv) {
        UndecidedStaysHealthy(c, s, inp);
      } else if s.rcv.phase.Loop? {
        LoopKind(c, s, inp);
        TakeStaysHealthy(c, s, inp, res);
      } else {
        OtherKind(c, s.rcv, inp);
        if R.Completing(s.rcv) || R.Refusing(s.rcv) {
          ConcludeStaysHealthy(c, s, inp, res);
        } else {
          CarryStaysHealthy(c, s, inp, res);
        }
      }
  }

  lemma SenderKeepsHonest(c: Config, s: System, inp: Input)
    requires c.Valid() && Inv(c, s) && Enabled(c, s, SenderStep(inp))
    ensures Resume.AllHonest(c, SenderMoves(c, s, inp))
  {
    Resume.SenderSends(c, s.snd, inp);
  }
}
