/**
 What a process start does to resuming.

 Opening the store marks every unfinished transfer as failed, and a failed transfer is not taken up where it
 stopped.  So verified chunks and confirmed bytes survive a process death but the next session does not use
 them; they are used only after a cancellation or after an error that a living process reported.
 */
module Restart {
  import opened Common
  import opened ChunkPlan
  import opened Transfer
  import opened System
  import Outcome
  import Progress
  import R = Receiver

  /** A cut loses what the handlers hold and what travels, and changes of what is durable only this: a side whose
      process died finds its unfinished transfer failed. */
  lemma SweepsExactly(s: System, senderDies: bool, receiverDies: bool)
    ensures var t := CutOff(s, senderDies, receiverDies);
      && t.snd.status == (if senderDies && Unfinished(s.snd.status) then Failed else s.snd.status)
      && t.rcv.status == (if receiverDies && Unfinished(s.rcv.status) then Failed else s.rcv.status)
      && t.snd.confirmed == s.snd.confirmed
      && t.rcv == s.rcv.(phase := R.Idle, status := t.rcv.status)
      && t.snd.phase.Idle? && t.toR == [] && t.toS == []
  {
  }

  predicate Unfinished(st: Status) { st.Pending? || st.AwaitingAcceptance? || st.InProgress? || st.Paused? }

  /** The receiver's process dies between these two states. */
  ghost predicate Dies(s: System, t: System) { exists sd :: t == CutOff(s, sd, true) }

  /** The receiver has not come as far as its loop, and its record is not one that can be taken up. */
  predicate Afresh(r: R.Receiver) {
    && !R.Resumable(r)
    && (r.phase.Idle? || r.phase.CheckSpace? || r.phase.InsertRows? || r.phase.Decide? || r.phase.OpenPart?
        || r.phase.Start? || r.phase == R.Ended(false))
  }

  lemma DeathForgets(s: System, t: System)
    requires Dies(s, t)
    ensures Afresh(t.rcv)
  {
  }

  /** Only starting the receive loop makes a record one that can be taken up. */
  lemma StaysAfresh(c: Config, s: System, t: System)
    requires c.Valid() && Follows(c, s, t) && Afresh(s.rcv) && !s.rcv.phase.Start?
    ensures Afresh(t.rcv)
  {
  }

  lemma {:induction false} StaysAfreshAt(c: Config, run: seq<System>, i: nat)
    requires c.Valid() && IsRun(c, run) && 0 < i < |run|
    requires Afresh(run[i - 1].rcv) && !run[i - 1].rcv.phase.Start?
    ensures Afresh(run[i].rcv)
  {
    assert Follows(c, run[i - 1], run[i]);
    StaysAfresh(c, run[i - 1], run[i]);
  }

  lemma {:induction false} AfreshAfterDeath(c: Config, run: seq<System>, i: nat, j: nat)
    requires c.Valid() && IsRun(c, run) && i < j < |run| && Dies(run[i], run[i + 1])
    requires forall k | i < k < j :: !run[k].rcv.phase.Start?
    ensures Afresh(run[j].rcv)
    decreases j
  {
    if j == i + 1 {
      DeathForgets(run[i], run[j]);
    } else {
      AfreshAfterDeath(c, run, i, j - 1);
      StaysAfreshAt(c, run, j);
    }
  }

  /** A receiver that has died does not resume selectively: until it starts its loop again, every answer it gives asks
      for everything from the first byte on. */
  lemma AsksForEverything(c: Config, run: seq<System>, i: nat, j: nat, k: nat)
    requires c.Valid() && IsRun(c, run) && i < j < |run| && Dies(run[i], run[i + 1])
    requires forall m | i < m < j :: !run[m].rcv.phase.Start?
    requires k < c.N()
    ensures R.ResumeFrom(run[j].rcv) == 0 && R.Missing(run[j].rcv) == None
    ensures Selected(c, R.ResumeFrom(run[j].rcv), R.Missing(run[j].rcv), k)
  {
    AfreshAfterDeath(c, run, i, j);
    TilesBound(c.plan, |c.src|, k);
  }

  // ---- What leaves a record that will be resumed

  /** In the receive loop, or between its messages and its records. */
  predicate Working(r: R.Receiver) {
    r.phase.Loop? || R.Busy(r) || r.phase.CheckFile? || r.phase.Rename? || r.phase.MarkComplete? || r.phase.Refuse?
  }

  /** What the record says while the receiver works. */
  predicate Recorded(r: R.Receiver) {
    && (Working(r) ==> r.known && r.status.InProgress?)
    && (r.phase.InsertRows? || r.phase.Decide? || r.phase.OpenPart? || r.phase.Start? ==> r.known)
  }

  lemma StepKeepsRecorded(c: Config, r: R.Receiver, inp: Input)
    requires R.Ready(r, inp) && (R.Busy(r) ==> r.phase.m.Chunk?) && Recorded(r)
    ensures Recorded(R.Step(c, r, inp).r)
  {
  }

  lemma FollowsKeepsRecorded(c: Config, s: System, t: System)
    requires c.Valid() && Follows(c, s, t) && Recorded(s.rcv)
    ensures Recorded(t.rcv)
  {
    var e :| Enabled(c, s, e) && t == Apply(c, s, e);
    if e.ReceiverStep? { StepKeepsRecorded(c, s.rcv, e.inp); }
  }

  lemma {:induction false} RunRecorded(c: Config, run: seq<System>, i: nat)
    requires c.Valid() && IsRun(c, run) && i < |run|
    ensures Recorded(run[i].rcv)
  {
    if i > 0 {
      RunRecorded(c, run, i - 1);
      assert Follows(c, run[i - 1], run[i]);
      FollowsKeepsRecorded(c, run[i - 1], run[i]);
    }
  }

  lemma LeavesResumable(c: Config, r: R.Receiver, inp: Input)
    requires R.Ready(r, inp) && (R.Busy(r) ==> r.phase.m.Chunk?)
    requires Working(r) && r.known && r.status.InProgress? && R.Step(c, r, inp).r.phase.Ended?
    ensures R.Resumable(R.Step(c, r, inp).r) <==>
              inp.Fault? || inp.CancelRequest? || (inp.Got? && inp.msg.CancelMsg?)
  {
  }

  /** A receiver at work leaves a record that will be resumed exactly if it leaves through `?` or is cancelled on
      either side; a lost connection, silence and a peer's error do not. */
  lemma ResumableIff(c: Config, run: seq<System>, i: nat, inp: Input)
    requires c.Valid() && IsRun(c, run) && i < |run| && Working(run[i].rcv)
    requires Typed(c, run[i]) && Enabled(c, run[i], ReceiverStep(inp))
    requires ReceiverMoves(c, run[i], inp).rcv.phase.Ended?
    ensures R.Resumable(ReceiverMoves(c, run[i], inp).rcv) <==>
              inp.Fault? || inp.CancelRequest? || (inp.Got? && inp.msg.CancelMsg?)
  {
    RunRecorded(c, run, i);
    LeavesResumable(c, run[i].rcv, inp);
  }

  // ---- Death heals

  /** Whatever the record claimed, after the receiver's restart there is a session that delivers, if the
      part file is not longer than the source. */
  lemma RestartDelivers(c: Config, run: seq<System>, senderDies: bool) returns (more: seq<System>, ss: seq<System>)
    requires c.Valid() && IsRun(c, run) && Outcome.CollisionFree(c)
    requires var last := run[|run| - 1];
      Typed(c, last) && Enabled(c, last, Cut(senderDies, true)) && |R.Bytes(last.rcv)| <= |c.src|
    ensures more == run + [CutOff(run[|run| - 1], senderDies, true)] && Outcome.IsSession(c, more, ss)
    ensures Progress.Finished(ss[|ss| - 1]) && Outcome.Delivered(c, ss[|ss| - 1])
  {
    var last := run[|run| - 1];
    var next := CutOff(last, senderDies, true);
    more := run + [next];
    assert next == Apply(c, last, Cut(senderDies, true));
    forall i | 0 < i < |more| ensures Follows(c, more[i - 1], more[i]) {
      if i < |run| { assert Follows(c, run[i - 1], run[i]); }
    }
    ss := Outcome.SessionFinishes(c, more, [next], R.Bytes(next.rcv));
    Outcome.RetryDelivers(c, more, ss);
  }
}
