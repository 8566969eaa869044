/**
 Conservation of acknowledgements, and agreement on completion.

 Everything here holds in every reachable state of every run, including runs in which the part file is
 deleted, replaced or torn.
 */
module Flow {
  import opened Common
  import opened Transfer
  import opened System
  import S = Sender
  import R = Receiver

  /** Chunks and chunk acknowledgements under way. */
  function UnderWay(s: System): nat {
    |Ids(s.toR)| + InHand(s.rcv) + Acks(s.toS)
  }

  /** The sender has started no transfer of data in this session. */
  predicate Early(s: S.Sender) {
    s.phase.Idle? || s.phase.Requested? || s.phase.AwaitAnswer?
  }

  /** The receiver has not answered the request yet. */
  predicate Undecided(r: R.Receiver) {
    r.phase.Idle? || r.phase.CheckSpace? || r.phase.InsertRows? || r.phase.Decide?
  }

  predicate NoComplete(q: seq<Message>) { forall i | 0 <= i < |q| :: !q[i].CompleteMsg? }

  predicate OnlyAcks(q: seq<Message>) { forall i | 0 <= i < |q| :: q[i].Ack? }

  predicate Completed(r: R.Receiver) { r.phase == R.Ended(true) }

  /** Before data flows there is no data anywhere, and the answer travels alone. */
  predicate Opening(s: System) {
    && (s.snd.phase.Idle? ==> s.rcv.phase.Idle? && s.toR == [] && s.toS == [])
    && (Early(s.snd) ==>
          && Ids(s.toR) == [] && NoComplete(s.toR) && Acks(s.toS) == 0
          && !R.Busy(s.rcv) && !R.Completing(s.rcv) && !Completed(s.rcv)
          && (Undecided(s.rcv) ==> s.toS == [])
          && (R.Live(s.rcv) ==> |s.toS| == 1 && s.toS[0].Acceptance? && s.toS[0].accepted))
    && (S.Streaming(s.snd) ==> !Undecided(s.rcv))
  }

  /** Ack conservation: `pending_acks` counts what is under way, and the window is never exceeded. */
  predicate Conserved(s: System) {
    S.Streaming(s.snd) ==>
      && s.snd.pending <= MAX_PENDING_ACKS
      && (s.snd.phase.AwaitFinal? ==> s.snd.pending == 0)
      && (R.Live(s.rcv) ==> s.snd.pending == UnderWay(s) && OnlyAcks(s.toS))
      && (!R.Live(s.rcv) && !Completed(s.rcv) ==> |Ids(s.toR)| + Acks(s.toS) <= s.snd.pending)
  }

  /** Completion is claimed only after draining, and the only message that can then be an ack is the final one. */
  predicate Closing(c: Config, s: System) {
    && (S.Streaming(s.snd) && !s.snd.phase.AwaitFinal? ==>
          NoComplete(s.toR) && !R.Completing(s.rcv) && !Completed(s.rcv))
    && (s.snd.phase.AwaitFinal? && Completed(s.rcv) ==> s.toS == [Ack(FINAL_ACK, |c.src|)] && Ids(s.toR) == [])
  }

  /** Every claim of completion carries the recorded hash. */
  predicate Claims(c: Config, s: System) {
    && (forall i | 0 <= i < |s.toR| :: s.toR[i].CompleteMsg? ==> s.toR[i].fileHash == c.fileHash)
    && (s.rcv.phase.CheckFile? ==> s.rcv.phase.claimed == c.fileHash)
  }

  predicate DestOk(c: Config, r: R.Receiver) {
    r.dest.Some? && c.hash(r.dest.value) == c.fileHash
  }

  /** The receiver completes only with a file that has the recorded hash. */
  predicate Checked(c: Config, r: R.Receiver) {
    && (r.phase.Rename? ==> c.hash(R.Bytes(r)) == c.fileHash)
    && (r.phase.MarkComplete? || r.phase.SendFinal? || Completed(r) ==> DestOk(c, r))
    && (r.phase.SendFinal? || Completed(r) ==> r.status.Complete?)
  }

  /** Since the sender's handler returned with the final ack, both sides are complete and stay so. */
  predicate Agreed(c: Config, s: System) {
    s.snd.acked ==>
      && s.snd.status.Complete? && s.rcv.status.Complete? && DestOk(c, s.rcv)
      && ((s.snd.phase.Ended? && Completed(s.rcv)) || (s.snd.phase.Idle? && s.rcv.phase.Idle?))
  }

  predicate Inv(c: Config, s: System) {
    Typed(c, s) && Opening(s) && Conserved(s) && Closing(c, s) && Claims(c, s) && Checked(c, s.rcv) && Agreed(c, s)
  }

  /** A step sends at most one message; what it adds to the counts. */
  lemma {:induction false} AppendOut(q: seq<Message>, out: seq<Message>)
    requires |out| <= 1
    ensures Ids(q + out) == Ids(q) + Ids(out) && Acks(q + out) == Acks(q) + Acks(out)
    ensures Ids(out) == if out != [] && out[0].Chunk? then [out[0].index] else []
    ensures Acks(out) == if out != [] && out[0].Ack? then 1 else 0
  {
    if out == [] {
      assert q + out == q;
    } else {
      assert out == [out[0]];
      IdsAppend(q, out[0]);
      AcksAppend(q, out[0]);
      assert out[1..] == [];
    }
  }

  /** What the invariants need to know about one step of the sender. */
  ghost predicate SenderFacts(c: Config, s: S.Sender, inp: Input, t: S.Result) {
    && |t.out| <= 1 && !t.s.phase.Idle?
    && (t.s.phase.Window? ==> t.s.phase.i < c.N()) && (t.s.phase.AtChunk? ==> t.s.phase.i <= c.N())
    && (t.out != [] && t.out[0].CompleteMsg? ==> t.out[0].fileHash == c.fileHash && t.s.phase.AwaitFinal?)
    && (t.out != [] && t.out[0].Chunk? <==> s.phase.Window? && !S.Waiting(s) && inp.Go?)
    && (t.out != [] && t.out[0].Chunk? ==> s.phase.i < c.N() && t.out[0].index == c.plan[s.phase.i].index)
    && (t.s.acked ==>
          || s.acked
          || (s.phase.AwaitFinal? && inp.Got? && inp.msg.Ack? && t.s.phase.Ended? && t.s.status.Complete?))
    && (s.phase.Idle? ==> !t.s.acked)
    && (if Early(s) then EarlyFacts(s, inp, t) else StreamFacts(s, inp, t))
  }

  /** Not streaming yet: what it sends and where it leads. */
  ghost predicate EarlyFacts(s: S.Sender, inp: Input, t: S.Result) {
    && !t.s.phase.Window? && !t.s.phase.AwaitFinal?
    && (Early(t.s) ==> t.out == (if s.phase.Idle? then [Request] else []) && !inp.Got?)
    && (S.Streaming(t.s) ==> t.out == [] && t.s.pending == 0 && inp.Got? && inp.msg.Acceptance?)
  }

  /** Streaming: how the pending count moves. */
  ghost predicate StreamFacts(s: S.Sender, inp: Input, t: S.Result) {
    && (t.s.phase.Ended? || S.Streaming(t.s))
    && (S.Streaming(t.s) ==>
          t.s.pending == if s.phase.Window? && !S.Waiting(s) then s.pending + 1
                         else if inp.Got? && inp.msg.Ack? && s.pending > 0 then s.pending - 1
                         else s.pending)
    && (S.Streaming(t.s) && s.phase.Window? && !S.Waiting(s) ==> inp.Go?)
    && (S.Streaming(t.s) && !S.Waiting(s) ==> !inp.Got?)
    && (S.Streaming(t.s) ==> !s.phase.AwaitFinal?) && (t.s.phase.AwaitFinal? ==> t.s.pending == 0)
  }

  lemma EarlyStep(c: Config, s: S.Sender, inp: Input)
    requires c.Valid() && Early(s) && S.Ready(c, s, inp)
    ensures SenderFacts(c, s, inp, S.Step(c, s, inp))
  {
  }

  lemma WaitStep(c: Config, s: S.Sender, inp: Input)
    requires c.Valid() && S.Waiting(s) && S.Ready(c, s, inp) && (s.phase.Window? ==> s.phase.i < c.N())
    ensures SenderFacts(c, s, inp, S.Step(c, s, inp))
  {
  }

  lemma StreamStep(c: Config, s: S.Sender, inp: Input)
    requires c.Valid() && S.Streaming(s) && !S.Waiting(s) && S.Ready(c, s, inp)
    requires (s.phase.Window? ==> s.phase.i < c.N()) && (s.phase.AtChunk? ==> s.phase.i <= c.N())
    ensures SenderFacts(c, s, inp, S.Step(c, s, inp))
  {
  }

  lemma SenderStepFacts(c: Config, s: S.Sender, inp: Input)
    requires c.Valid() && S.Ready(c, s, inp)
    requires (s.phase.Window? ==> s.phase.i < c.N()) && (s.phase.AtChunk? ==> s.phase.i <= c.N())
    ensures SenderFacts(c, s, inp, S.Step(c, s, inp))
  {
    if Early(s) {
      EarlyStep(c, s, inp);
    } else if S.Waiting(s) {
      WaitStep(c, s, inp);
    } else {
      StreamStep(c, s, inp);
    }
  }

  lemma SenderOut(c: Config, s: System, inp: Input, res: S.Result)
    requires c.Valid() && Heads(s.toS, inp) && SenderFacts(c, s.snd, inp, res)
    ensures var t := AfterSender(s, inp, res);
      && Ids(t.toR) == Ids(s.toR) + Ids(res.out)
      && Ids(res.out) == (if s.snd.phase.Window? && !S.Waiting(s.snd) && inp.Go? then [s.snd.phase.i] else [])
      && Acks(t.toS) == Acks(s.toS) - (if inp.Got? && inp.msg.Ack? then 1 else 0)
      && (NoComplete(s.toR) && !res.s.phase.AwaitFinal? ==> NoComplete(t.toR))
  {
    AppendOut(s.toR, res.out);
  }

  lemma SenderKeepsOpening(c: Config, s: System, inp: Input, res: S.Result)
    requires c.Valid() && Inv(c, s) && Enabled(c, s, SenderStep(inp)) && SenderFacts(c, s.snd, inp, res)
    ensures Typed(c, AfterSender(s, inp, res)) && Opening(AfterSender(s, inp, res))
  {
    SenderOut(c, s, inp, res);
  }

  lemma SenderKeepsConserved(c: Config, s: System, inp: Input, res: S.Result)
    requires c.Valid() && Inv(c, s) && Enabled(c, s, SenderStep(inp)) && SenderFacts(c, s.snd, inp, res)
    ensures Conserved(AfterSender(s, inp, res))
  {
    SenderOut(c, s, inp, res);
  }

  lemma SenderKeepsClosing(c: Config, s: System, inp: Input, res: S.Result)
    requires c.Valid() && Inv(c, s) && Enabled(c, s, SenderStep(inp)) && SenderFacts(c, s.snd, inp, res)
    ensures Closing(c, AfterSender(s, inp, res))
  {
    SenderOut(c, s, inp, res);
  }

  lemma SenderKeepsClaims(c: Config, s: System, inp: Input, res: S.Result)
    requires Claims(c, s) && Heads(s.toS, inp) && SenderFacts(c, s.snd, inp, res)
    ensures Claims(c, AfterSender(s, inp, res))
  {
  }

  lemma SenderKeepsAgreed(c: Config, s: System, inp: Input, res: S.Result)
    requires c.Valid() && Inv(c, s) && Enabled(c, s, SenderStep(inp)) && SenderFacts(c, s.snd, inp, res)
    ensures Checked(c, s.rcv) && Agreed(c, AfterSender(s, inp, res))
  {
  }

  /** What the invariants need to know about one step of the receiver. */
  ghost predicate ReceiverFacts(c: Config, r: R.Receiver, inp: Input, t: R.Result) {
    && |t.out| <= 1 && (t.out != [] ==> !t.out[0].Chunk?)
    && (R.Busy(t.r) ==> t.r.phase.m.Chunk? && (R.Busy(r) || (inp.Got? && inp.msg.Chunk?)))
    && (if Undecided(r) then UndecidedFacts(inp, t) else if R.Live(r) then LiveFacts(c, r, inp, t)
        else !R.Live(t.r) && !Undecided(t.r) && !Completed(t.r) && t.out == [])
  }

  /** Not answered yet: it stays so, accepts, or ends. */
  ghost predicate UndecidedFacts(inp: Input, t: R.Result) {
    && (Undecided(t.r) || t.r.phase.OpenPart? || t.r.phase == R.Ended(false))
    && (Undecided(t.r) ==> t.out == [])
    && (t.r.phase.OpenPart? ==> |t.out| == 1 && t.out[0].Acceptance? && t.out[0].accepted && !inp.Got?)
    && (inp.Got? ==> t.out == [])
    && (t.out != [] ==> !t.out[0].Ack?)
  }

  /** Live: acknowledgements match chunks taken, and completion needs a claim. */
  ghost predicate LiveFacts(c: Config, r: R.Receiver, inp: Input, t: R.Result) {
    && !Undecided(t.r)
    && (R.Live(t.r) ==>
          && OnlyAcks(t.out)
          && InHand(t.r) + |t.out| == InHand(r) + (if inp.Got? && inp.msg.Chunk? then 1 else 0))
    && (!R.Live(t.r) && !Completed(t.r) && t.out != [] ==> !t.out[0].Ack?)
    && (R.Completing(t.r) ==> R.Completing(r) || (inp.Got? && inp.msg.CompleteMsg?))
    && (Completed(t.r) ==> r.phase.SendFinal? && t.out == [Ack(FINAL_ACK, |c.src|)] && !inp.Got?)
  }

  lemma UndecidedStep(c: Config, r: R.Receiver, inp: Input)
    requires R.Ready(r, inp) && Undecided(r)
    ensures ReceiverFacts(c, r, inp, R.Step(c, r, inp))
  {
  }

  lemma LoopChunk(c: Config, r: R.Receiver, inp: Input)
    requires r.phase.Loop? && inp.Got? && inp.msg.Chunk?
    ensures ReceiverFacts(c, r, inp, R.Step(c, r, inp))
  {
  }

  lemma LoopOther(c: Config, r: R.Receiver, inp: Input)
    requires R.Ready(r, inp) && r.phase.Loop? && !(inp.Got? && inp.msg.Chunk?)
    ensures ReceiverFacts(c, r, inp, R.Step(c, r, inp))
  {
  }

  lemma JoinStep(c: Config, r: R.Receiver, inp: Input)
    requires R.Ready(r, inp) && (r.phase.OpenPart? || r.phase.Start? || R.Refusing(r))
    ensures ReceiverFacts(c, r, inp, R.Step(c, r, inp))
  {
  }

  lemma BusyStep(c: Config, r: R.Receiver, inp: Input)
    requires R.Ready(r, inp) && R.Busy(r) && r.phase.m.Chunk?
    ensures ReceiverFacts(c, r, inp, R.Step(c, r, inp))
  {
  }

  lemma CompletingStep(c: Config, r: R.Receiver, inp: Input)
    requires R.Ready(r, inp) && R.Completing(r)
    ensures ReceiverFacts(c, r, inp, R.Step(c, r, inp))
  {
  }

  lemma ReceiverStepFacts(c: Config, r: R.Receiver, inp: Input)
    requires R.Ready(r, inp) && (R.Busy(r) ==> r.phase.m.Chunk?)
    ensures ReceiverFacts(c, r, inp, R.Step(c, r, inp))
  {
    if Undecided(r) {
      UndecidedStep(c, r, inp);
    } else if r.phase.Loop? {
      if inp.Got? && inp.msg.Chunk? { LoopChunk(c, r, inp); } else { LoopOther(c, r, inp); }
    } else if R.Busy(r) {
      BusyStep(c, r, inp);
    } else if R.Completing(r) {
      CompletingStep(c, r, inp);
    } else {
      JoinStep(c, r, inp);
    }
  }

  lemma ReceiverOut(c: Config, s: System, inp: Input, res: R.Result)
    requires Heads(s.toR, inp) && ReceiverFacts(c, s.rcv, inp, res)
    ensures var t := AfterReceiver(s, inp, res);
      && Ids(t.toS) == Ids(s.toS) && Acks(t.toS) == Acks(s.toS) + Acks(res.out)
      && |Ids(t.toR)| == |Ids(s.toR)| - (if inp.Got? && inp.msg.Chunk? then 1 else 0)
      && (NoComplete(s.toR) ==> NoComplete(t.toR))
  {
    AppendOut(s.toS, res.out);
  }

  lemma ReceiverKeepsTyped(c: Config, s: System, inp: Input, res: R.Result)
    requires Inv(c, s) && Enabled(c, s, ReceiverStep(inp)) && ReceiverFacts(c, s.rcv, inp, res)
    ensures Typed(c, AfterReceiver(s, inp, res))
  {
  }

  lemma ReceiverKeepsOpening(c: Config, s: System, inp: Input, res: R.Result)
    requires Opening(s) && Enabled(c, s, ReceiverStep(inp)) && ReceiverFacts(c, s.rcv, inp, res)
    ensures Opening(AfterReceiver(s, inp, res))
  {
    ReceiverOut(c, s, inp, res);
    if Undecided(s.rcv) {
      AnsweringKeepsOpening(c, s, inp, res);
    } else if Early(s.snd) {
      AnsweredKeepsOpening(c, s, inp, res);
    }
  }

  lemma AnsweringKeepsOpening(c: Config, s: System, inp: Input, res: R.Result)
    requires Opening(s) && Enabled(c, s, ReceiverStep(inp)) && ReceiverFacts(c, s.rcv, inp, res) && Undecided(s.rcv)
    requires var t := AfterReceiver(s, inp, res);
      Acks(t.toS) == Acks(s.toS) + Acks(res.out) && (Ids(s.toR) == [] ==> Ids(t.toR) == [])
      && (NoComplete(s.toR) ==> NoComplete(t.toR))
    ensures Opening(AfterReceiver(s, inp, res))
  {
  }

  /** Until the sender has read the answer, the receiver has nothing to read. */
  lemma AnsweredKeepsOpening(c: Config, s: System, inp: Input, res: R.Result)
    requires Opening(s) && Enabled(c, s, ReceiverStep(inp)) && ReceiverFacts(c, s.rcv, inp, res)
    requires !Undecided(s.rcv) && Early(s.snd)
    requires var t := AfterReceiver(s, inp, res);
      Acks(t.toS) == Acks(s.toS) + Acks(res.out) && (Ids(s.toR) == [] ==> Ids(t.toR) == [])
      && (NoComplete(s.toR) ==> NoComplete(t.toR))
    ensures Opening(AfterReceiver(s, inp, res))
  {
  }

  lemma OnlyAcksAppend(q: seq<Message>, out: seq<Message>)
    requires OnlyAcks(q) && OnlyAcks(out)
    ensures OnlyAcks(q + out)
  {
  }

  /** While the receiver stays in its loop, what it takes it answers. */
  lemma LoopKeepsCount(c: Config, s: System, inp: Input, res: R.Result)
    requires Heads(s.toR, inp) && ReceiverFacts(c, s.rcv, inp, res) && !Undecided(s.rcv)
    requires R.Live(s.rcv) && R.Live(res.r)
    ensures UnderWay(AfterReceiver(s, inp, res)) == UnderWay(s)
    ensures OnlyAcks(s.toS) ==> OnlyAcks(AfterReceiver(s, inp, res).toS)
  {
    ReceiverOut(c, s, inp, res);
    AckCount(res.out);
    if OnlyAcks(s.toS) { OnlyAcksAppend(s.toS, res.out); }
  }

  lemma {:induction false} AckCount(out: seq<Message>)
    requires OnlyAcks(out) && |out| <= 1
    ensures Acks(out) == |out|
  {
    if out != [] {
      assert out[0].Ack? && out[1..] == [];
    }
  }

  lemma ReceiverKeepsConserved(c: Config, s: System, inp: Input, res: R.Result)
    requires Inv(c, s) && Enabled(c, s, ReceiverStep(inp)) && ReceiverFacts(c, s.rcv, inp, res)
    ensures Conserved(AfterReceiver(s, inp, res))
  {
    if S.Streaming(s.snd) {
      if R.Live(res.r) {
        LoopKeepsCount(c, s, inp, res);
      } else {
        ReceiverOut(c, s, inp, res);
      }
    }
  }

  lemma ReceiverKeepsClosing(c: Config, s: System, inp: Input, res: R.Result)
    requires Inv(c, s) && Enabled(c, s, ReceiverStep(inp)) && ReceiverFacts(c, s.rcv, inp, res)
    ensures Closing(c, AfterReceiver(s, inp, res))
  {
    ReceiverOut(c, s, inp, res);
  }

  lemma ReceiverKeepsClaims(c: Config, s: System, inp: Input)
    requires c.Valid() && Inv(c, s) && Enabled(c, s, ReceiverStep(inp))
    ensures Claims(c, ReceiverMoves(c, s, inp))
  {
  }

  lemma ReceiverKeepsChecked(c: Config, r: R.Receiver, inp: Input)
    requires Checked(c, r) && R.Ready(r, inp) && (R.Busy(r) ==> r.phase.m.Chunk?)
    requires r.phase.CheckFile? ==> r.phase.claimed == c.fileHash
    ensures Checked(c, R.Step(c, r, inp).r)
  {
  }

  /** Every step of either party, and every cut, keeps the invariant. */
  lemma StepKeepsInv(c: Config, s: System, e: Event)
    requires c.Valid() && Inv(c, s) && Enabled(c, s, e)
    ensures Inv(c, Apply(c, s, e))
  {
    match e
    case SenderStep(inp) =>
      var res := S.Step(c, s.snd, inp);
      SenderStepFacts(c, s.snd, inp);
      SenderKeepsOpening(c, s, inp, res);
      SenderKeepsConserved(c, s, inp, res);
      SenderKeepsClosing(c, s, inp, res);
      SenderKeepsClaims(c, s, inp, res);
      SenderKeepsAgreed(c, s, inp, res);
    case ReceiverStep(inp) =>
      var res := R.Step(c, s.rcv, inp);
      ReceiverStepFacts(c, s.rcv, inp);
      ReceiverKeepsTyped(c, s, inp, res);
      ReceiverKeepsOpening(c, s, inp, res);
      ReceiverKeepsConserved(c, s, inp, res);
      ReceiverKeepsClosing(c, s, inp, res);
      ReceiverKeepsClaims(c, s, inp);
      ReceiverKeepsChecked(c, s.rcv, inp);
    case Cut(_, _) =>
  }

  lemma FollowsKeepsInv(c: Config, s: System, t: System)
    requires c.Valid() && Inv(c, s) && Follows(c, s, t)
    ensures Inv(c, t)
  {
    var e :| Enabled(c, s, e) && t == Apply(c, s, e);
    StepKeepsInv(c, s, e);
  }

  lemma {:induction false} RunInv(c: Config, run: seq<System>, i: nat)
    requires c.Valid() && IsRun(c, run) && i < |run|
    ensures Inv(c, run[i])
  {
    if i > 0 {
      RunInv(c, run, i - 1);
      assert Follows(c, run[i - 1], run[i]);
      FollowsKeepsInv(c, run[i - 1], run[i]);
    }
  }

  /** Whenever the sender's last session ended with the final ack, both records say complete and the destination has
      the recorded hash. */
  lemma FinalAckMeansComplete(c: Config, run: seq<System>, i: nat)
    requires c.Valid() && IsRun(c, run) && i < |run| && run[i].snd.acked
    ensures run[i].snd.status.Complete? && run[i].rcv.status.Complete? && DestOk(c, run[i].rcv)
  {
    RunInv(c, run, i);
  }

  /** Ack conservation: while both loops run, `pending_acks` is what is under way, and never exceeds 50. */
  lemma AckConservation(c: Config, run: seq<System>, i: nat)
    requires c.Valid() && IsRun(c, run) && i < |run|
    requires S.Streaming(run[i].snd)
    ensures run[i].snd.pending <= MAX_PENDING_ACKS
    ensures R.Live(run[i].rcv) ==> run[i].snd.pending == UnderWay(run[i])
  {
    RunInv(c, run, i);
  }

  /** The ack that ends a session is the receiver's final one: no chunk and no chunk ack is left under way. */
  lemma FinalAckIsFinal(c: Config, run: seq<System>, i: nat)
    requires c.Valid() && IsRun(c, run) && i < |run|
    requires run[i].snd.phase.AwaitFinal? && run[i].toS != [] && run[i].toS[0].Ack?
    ensures run[i].toS == [Ack(FINAL_ACK, |c.src|)] && Completed(run[i].rcv) && Ids(run[i].toR) == []
  {
    RunInv(c, run, i);
  }
}
