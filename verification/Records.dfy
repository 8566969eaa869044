/**
 What the two durable records say of each other, after any history.

 A sender's record that says complete always means a delivered file.  It means that the receiver's record
 says complete too, as long as nobody resumes a transfer that is complete already.
 */
module Records {
  import opened Common
  import opened Transfer
  import opened System
  import opened OneByte
  import Flow
  import Outcome
  import S = Sender
  import R = Receiver

  predicate Active(st: Status) { st.InProgress? || st.AwaitingAcceptance? || st.Pending? }

  // ---- Complete means delivered

  /** Whatever stands at the destination has the recorded hash, and a complete sender's file stands there. */
  predicate Kept(c: Config, s: System) {
    && (s.rcv.dest.Some? ==> Flow.DestOk(c, s.rcv))
    && (s.snd.status.Complete? ==> s.rcv.dest.Some?)
  }

  /** Only the final ack makes a sender's record complete. */
  lemma BecomesComplete(c: Config, s: S.Sender, inp: Input)
    requires c.Valid() && (s.phase.Window? ==> s.phase.i < c.N())
    ensures var t := S.Step(c, s, inp).s; t.status.Complete? ==> s.status.Complete? || t.acked
  {
  }

  /** Only the rename fills the destination, and it fills it with the checked part file. */
  lemma DestinationStep(c: Config, r: R.Receiver, inp: Input)
    requires R.Busy(r) ==> r.phase.m.Chunk?
    ensures var t := R.Step(c, r, inp).r; t.dest == r.dest || (r.phase.Rename? && t.dest == Some(R.Bytes(r)))
  {
  }

  lemma StepKeepsKept(c: Config, s: System, e: Event)
    requires c.Valid() && Flow.Inv(c, s) && Enabled(c, s, e) && Kept(c, s)
    ensures Kept(c, Apply(c, s, e))
  {
    Flow.StepKeepsInv(c, s, e);
    match e
    case SenderStep(inp) => BecomesComplete(c, s.snd, inp);
    case ReceiverStep(inp) => DestinationStep(c, s.rcv, inp);
    case Cut(_, _) =>
  }

  lemma FollowsKeepsKept(c: Config, s: System, t: System)
    requires c.Valid() && Flow.Inv(c, s) && Follows(c, s, t) && Kept(c, s)
    ensures Kept(c, t)
  {
    var e :| Enabled(c, s, e) && t == Apply(c, s, e);
    StepKeepsKept(c, s, e);
  }

  lemma {:induction false} RunKept(c: Config, run: seq<System>, i: nat)
    requires c.Valid() && IsRun(c, run) && i < |run| && !run[0].snd.status.Complete?
    ensures Kept(c, run[i])
  {
    if i > 0 {
      RunKept(c, run, i - 1);
      Flow.RunInv(c, run, i - 1);
      assert Follows(c, run[i - 1], run[i]);
      FollowsKeepsKept(c, run[i - 1], run[i]);
    }
  }

  /** In every run of a transfer that did not start out complete: a sender's record says complete only if the
      destination has the recorded hash; with a collision-free hash of the source it is the source. */
  lemma CompleteMeansDelivered(c: Config, run: seq<System>, i: nat)
    requires c.Valid() && IsRun(c, run) && i < |run| && !run[0].snd.status.Complete?
    requires run[i].snd.status.Complete?
    ensures Flow.DestOk(c, run[i].rcv)
    ensures Outcome.CollisionFree(c) ==> run[i].rcv.dest == Some(c.src)
  {
    RunKept(c, run, i);
  }

  // ---- When both records agree

  /** A session is started for a transfer whose record says complete. */
  predicate Reopens(s: System, t: System) {
    s.snd.phase.Idle? && s.snd.status.Complete? && !t.snd.phase.Idle?
  }

  ghost predicate NeverReopened(run: seq<System>) {
    forall i | 0 < i < |run| :: !Reopens(run[i - 1], run[i])
  }

  lemma StaysAcked(c: Config, s: System, t: System)
    requires c.Valid() && Follows(c, s, t) && !Reopens(s, t)
    requires s.snd.status.Complete? ==> s.snd.acked
    ensures t.snd.status.Complete? ==> t.snd.acked
  {
    var e :| Enabled(c, s, e) && t == Apply(c, s, e);
    if e.SenderStep? { AckedStep(c, s.snd, e.inp); }
  }

  lemma AckedStep(c: Config, s: S.Sender, inp: Input)
    requires c.Valid() && S.Ready(c, s, inp) && (s.phase.Window? ==> s.phase.i < c.N())
    requires s.status.Complete? ==> s.acked
    ensures var t := S.Step(c, s, inp).s;
      && (s.phase.Idle? ==> !t.phase.Idle?)
      && ((s.phase.Idle? && s.status.Complete?) || (t.status.Complete? ==> t.acked))
  {
  }

  lemma {:induction false} RunAcked(c: Config, run: seq<System>, i: nat)
    requires c.Valid() && IsRun(c, run) && i < |run| && !run[0].snd.status.Complete? && NeverReopened(run)
    ensures run[i].snd.status.Complete? ==> run[i].snd.acked
  {
    if i > 0 {
      RunAcked(c, run, i - 1);
      assert Follows(c, run[i - 1], run[i]);
      StaysAcked(c, run[i - 1], run[i]);
    }
  }

  /** Agreement: in every run in which no complete transfer is started again, whenever the sender's record says
      complete so does the receiver's, and the destination has the recorded hash. */
  lemma Agreement(c: Config, run: seq<System>, i: nat)
    requires c.Valid() && IsRun(c, run) && i < |run| && !run[0].snd.status.Complete? && NeverReopened(run)
    requires run[i].snd.status.Complete?
    ensures run[i].rcv.status.Complete? && Flow.DestOk(c, run[i].rcv)
    ensures Outcome.CollisionFree(c) ==> run[i].rcv.dest == Some(c.src)
  {
    RunAcked(c, run, i);
    Flow.FinalAckMeansComplete(c, run, i);
  }

  // ---- Starting a complete transfer again breaks it

  lemma Grow(c: Config, run: seq<System>, e: Event) returns (more: seq<System>)
    requires c.Valid() && IsRun(c, run) && Typed(c, run[|run| - 1]) && Enabled(c, run[|run| - 1], e)
    ensures IsRun(c, more) && run < more && more[|more| - 1] == Apply(c, run[|run| - 1], e)
  {
    var last := run[|run| - 1];
    more := run + [Apply(c, last, e)];
    forall i | 0 < i < |more| ensures Follows(c, more[i - 1], more[i]) {
      if i < |run| { assert Follows(c, run[i - 1], run[i]); }
    }
  }

  /** The request reaches the receiver, which asks its user. */
  lemma AskAgain(c: Config, run: seq<System>) returns (more: seq<System>)
    requires c.Valid() && IsRun(c, run) && run[|run| - 1].snd.phase.Idle?
    ensures IsRun(c, more) && run < more
    ensures var last := more[|more| - 1];
      && last.snd.phase.Requested? && last.snd.status == run[|run| - 1].snd.status
      && last.rcv.phase.Decide? && last.toR == [] && last.toS == []
  {
    Flow.RunInv(c, run, |run| - 1);
    more := Grow(c, run, SenderStep(Go(0)));
    assert more[|more| - 1].toR == [Request];
    more := Grow(c, more, ReceiverStep(Got(Request)));
    more := Grow(c, more, ReceiverStep(Go(0)));
    if more[|more| - 1].rcv.phase.InsertRows? {
      more := Grow(c, more, ReceiverStep(Go(0)));
    }
  }

  /** From every state between sessions in which the sender's record says complete, starting once more, with the user
      accepting and the sender dying before its first status update, leaves the sender's record complete and the
      receiver's failed. */
  lemma ReopeningBreaksAgreement(c: Config, run: seq<System>) returns (more: seq<System>)
    requires c.Valid() && IsRun(c, run)
    requires run[|run| - 1].snd.phase.Idle? && run[|run| - 1].snd.status.Complete?
    ensures IsRun(c, more) && run < more
    ensures var last := more[|more| - 1];
      last.snd.phase.Idle? && last.snd.status.Complete? && last.rcv.status.Failed?
  {
    more := AskAgain(c, run);
    more := Grow(c, more, ReceiverStep(Accept));
    more := Grow(c, more, ReceiverStep(Go(0)));
    more := Grow(c, more, ReceiverStep(Go(0)));
    more := Grow(c, more, ReceiverStep(Broken));
    more := Grow(c, more, Cut(true, false));
  }

  ghost predicate Agree(s: System) { s.snd.status.Complete? ==> s.rcv.status.Complete? }

  /** However the history goes on, with or without a guard that refuses to start a complete transfer. */
  ghost predicate AlwaysAgree(c: Config, run: seq<System>, guarded: bool)
    requires c.Valid()
  {
    forall more: seq<System> ::
      IsRun(c, more) && run <= more && (guarded ==> NeverReopened(more)) ==> Agree(more[|more| - 1])
  }

  /** Once a transfer is complete, the records go on agreeing exactly if starting it again is refused. */
  lemma AgreementIffGuarded(c: Config, run: seq<System>, guarded: bool)
    requires c.Valid() && IsRun(c, run) && !run[0].snd.status.Complete?
    requires run[|run| - 1].snd.phase.Idle? && run[|run| - 1].snd.status.Complete?
    ensures AlwaysAgree(c, run, guarded) <==> guarded
  {
    if guarded {
      forall more: seq<System> | IsRun(c, more) && run <= more && NeverReopened(more) ensures Agree(more[|more| - 1]) {
        assert more[0] == run[0];
        if more[|more| - 1].snd.status.Complete? { Agreement(c, more, |more| - 1); }
      }
    } else {
      var more := ReopeningBreaksAgreement(c, run);
      assert run <= more && !Agree(more[|more| - 1]);
    }
  }

  /** A run that really gets there. */
  lemma DisagreementHappens() returns (c: Config, run: seq<System>)
    ensures c.Valid() && IsRun(c, run) && !run[0].snd.status.Complete? && Outcome.CollisionFree(c)
    ensures var last := run[|run| - 1]; last.snd.status.Complete? && last.rcv.status.Failed?
  {
    SmallValid("seven");
    c := Small("seven");
    var done := Completed();
    run := ReopeningBreaksAgreement(c, done);
    assert run[0] == done[0];
  }

  // ---- No exit leaves a sender's record active

  lemma EndSettles(c: Config, s: S.Sender, inp: Input)
    requires c.Valid() && S.Ready(c, s, inp) && (s.phase.Window? ==> s.phase.i < c.N())
    ensures S.Step(c, s, inp).s.phase.Ended? ==> !Active(S.Step(c, s, inp).s.status)
  {
  }

  lemma FollowsSettled(c: Config, s: System, t: System)
    requires c.Valid() && Follows(c, s, t) && (s.snd.phase.Ended? ==> !Active(s.snd.status))
    ensures t.snd.phase.Ended? ==> !Active(t.snd.status)
  {
    var e :| Enabled(c, s, e) && t == Apply(c, s, e);
    if e.SenderStep? { EndSettles(c, s.snd, e.inp); }
  }

  /** However the sending handler returns, in any run, its record does not look active any more. */
  lemma {:induction false} SenderSettles(c: Config, run: seq<System>, i: nat)
    requires c.Valid() && IsRun(c, run) && i < |run| && run[i].snd.phase.Ended?
    ensures !Active(run[i].snd.status)
    decreases i
  {
    if i > 0 {
      assert Follows(c, run[i - 1], run[i]);
      if run[i - 1].snd.phase.Ended? { SenderSettles(c, run, i - 1); }
      FollowsSettled(c, run[i - 1], run[i]);
    }
  }
}
