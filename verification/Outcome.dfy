/**
 How a fault-free session ends.

 It completes exactly when the part file it opened, with the chunks it selected written over it, has the
 recorded hash, and then that is the destination.
 */
module Outcome {
  import opened Common
  import opened ChunkPlan
  import opened Disk
  import opened Transfer
  import opened System
  import opened Progress
  import opened Course
  import Resume
  import R = Receiver

  ghost predicate FollowsWell(c: Config, s: System, t: System)
    requires c.Valid()
  {
    Typed(c, s) && exists e :: FaultFree(e) && Enabled(c, s, e) && t == Apply(c, s, e)
  }

  /** A fault-free session, from the state some history left, up to any point. */
  ghost predicate IsSession(c: Config, run: seq<System>, ss: seq<System>)
    requires c.Valid()
  {
    && IsRun(c, run) && run[|run| - 1].snd.phase.Idle?
    && ss != [] && ss[0] == run[|run| - 1]
    && forall i | 0 < i < |ss| :: FollowsWell(c, ss[i - 1], ss[i])
  }

  /** The chunks a session asks for, decided by the record it starts with. */
  function Wanted(c: Config, r: R.Receiver): (ids: seq<nat>)
    ensures InPlan(c.plan, ids)
  {
    SelectedFrom(c, R.ResumeFrom(r), R.Missing(r), 0)
  }

  /** What the part file held when the session opened it; until then, what it holds. */
  function Opened(ss: seq<System>, i: nat): seq<byte>
    requires i < |ss|
  {
    if i == 0 then R.Bytes(ss[0].rcv)
    else if ss[i - 1].rcv.phase.OpenPart? && ss[i].rcv.phase.Start? then R.Bytes(ss[i].rcv)
    else Opened(ss, i - 1)
  }

  /** What a session assembles: the wanted chunks over the part file it opened. */
  function Assembled(c: Config, ss: seq<System>): seq<byte>
    requires c.Valid() && ss != []
  {
    WriteAll(Opened(ss, |ss| - 1), c.src, c.plan, Wanted(c, ss[0].rcv))
  }

  lemma SessionStart(c: Config, s: System)
    requires c.Valid() && Resume.Inv(c, s) && s.snd.phase.Idle?
    ensures Progress.Inv(c, s) && Underway(c, s, R.Bytes(s.rcv), Wanted(c, s.rcv))
  {
    assert Todo(c, s) == Wanted(c, s.rcv);
  }

  lemma SessionBase(c: Config, run: seq<System>, ss: seq<System>)
    requires c.Valid() && IsSession(c, run, ss)
    ensures Progress.Inv(c, ss[0]) && Underway(c, ss[0], R.Bytes(ss[0].rcv), Wanted(c, ss[0].rcv))
  {
    Resume.RunInv(c, run, |run| - 1);
    SessionStart(c, ss[0]);
  }

  /** A step that does not open the part file leaves a receiver that has not just opened it. */
  lemma OpensIff(c: Config, s: System, e: Event)
    requires c.Valid() && Typed(c, s) && Enabled(c, s, e) && FaultFree(e)
    ensures Opens(s, e) <==> s.rcv.phase.OpenPart? && Apply(c, s, e).rcv.phase.Start?
  {
  }

  lemma SessionStep(c: Config, s: System, t: System, f: seq<byte>, ids: seq<nat>)
    requires c.Valid() && Progress.Inv(c, s) && FollowsWell(c, s, t)
    requires InPlan(c.plan, ids) && Underway(c, s, f, ids)
    ensures Progress.Inv(c, t) && Work(c, t) < Work(c, s)
    ensures Underway(c, t, if s.rcv.phase.OpenPart? && t.rcv.phase.Start? then R.Bytes(t.rcv) else f, ids)
  {
    var e :| FaultFree(e) && Enabled(c, s, e) && t == Apply(c, s, e);
    Progress.StepKeepsInv(c, s, e);
    OpensIff(c, s, e);
    StepStaysUnderway(c, s, e, f, ids);
    WorkDrops(c, s, e);
  }

  lemma {:induction false} SessionInv(c: Config, run: seq<System>, ss: seq<System>, i: nat)
    requires c.Valid() && IsSession(c, run, ss) && i < |ss|
    ensures Progress.Inv(c, ss[i]) && Underway(c, ss[i], Opened(ss, i), Wanted(c, ss[0].rcv))
    ensures Work(c, ss[i]) + i <= Work(c, ss[0])
  {
    if i == 0 {
      SessionBase(c, run, ss);
    } else {
      SessionInv(c, run, ss, i - 1);
      assert FollowsWell(c, ss[i - 1], ss[i]);
      SessionStep(c, ss[i - 1], ss[i], Opened(ss, i - 1), Wanted(c, ss[0].rcv));
    }
  }

  lemma SessionGrows(c: Config, run: seq<System>, ss: seq<System>, next: System)
    requires c.Valid() && IsSession(c, run, ss) && FollowsWell(c, ss[|ss| - 1], next)
    ensures IsSession(c, run, ss + [next])
  {
    var more := ss + [next];
    forall i | 0 < i < |more| ensures FollowsWell(c, more[i - 1], more[i]) {
      if i < |ss| { assert FollowsWell(c, ss[i - 1], ss[i]); }
    }
  }

  lemma CanFollow(c: Config, s: System) returns (next: System)
    requires c.Valid() && Progress.Inv(c, s) && !Finished(s)
    ensures FollowsWell(c, s, next)
    ensures s.rcv.phase.OpenPart? && next.rcv.phase.Start? ==> R.Bytes(next.rcv) == R.Bytes(s.rcv)
  {
    var e := NeverStuck(c, s);
    next := Apply(c, s, e);
  }

  /** Progress: a fault-free session can always go on until both handlers have returned, and it is finite. */
  lemma SessionProgress(c: Config, run: seq<System>, ss: seq<System>) returns (next: System)
    requires c.Valid() && IsSession(c, run, ss) && !Finished(ss[|ss| - 1])
    ensures IsSession(c, run, ss + [next])
    ensures |ss| <= Work(c, ss[0])
    ensures Opened(ss + [next], |ss|) == Opened(ss, |ss| - 1)
  {
    SessionInv(c, run, ss, |ss| - 1);
    next := CanFollow(c, ss[|ss| - 1]);
    SessionGrows(c, run, ss, next);
    SessionInv(c, run, ss + [next], |ss|);
    OpenedPrefix(ss, [next], |ss| - 1);
  }

  lemma {:induction false} OpenedPrefix(ss: seq<System>, more: seq<System>, i: nat)
    requires i < |ss|
    ensures Opened(ss + more, i) == Opened(ss, i)
  {
    if i > 0 { OpenedPrefix(ss, more, i - 1); }
  }

  /** The session has opened f, or will. */
  ghost predicate OnFile(c: Config, run: seq<System>, ss: seq<System>, f: seq<byte>)
    requires c.Valid()
  {
    IsSession(c, run, ss) && Opened(ss, |ss| - 1) == f
  }

  lemma StepOnFile(c: Config, run: seq<System>, ss: seq<System>, f: seq<byte>) returns (more: seq<System>)
    requires c.Valid() && OnFile(c, run, ss, f) && !Finished(ss[|ss| - 1])
    ensures |more| == |ss| + 1 && more[0] == ss[0]
    ensures OnFile(c, run, more, f) && |more| <= Work(c, ss[0]) + 1
  {
    var next := SessionProgress(c, run, ss);
    more := ss + [next];
  }

  /** From wherever a fault-free session has come to, there is one that comes to its end on the same part file. */
  lemma SessionFinishes(c: Config, run: seq<System>, ss: seq<System>, f: seq<byte>) returns (full: seq<System>)
    requires c.Valid() && OnFile(c, run, ss, f)
    ensures full != [] && full[0] == ss[0] && OnFile(c, run, full, f) && Finished(full[|full| - 1])
  {
    full := ss;
    while !Finished(full[|full| - 1])
      invariant |ss| <= |full| && full[0] == ss[0] && OnFile(c, run, full, f)
      decreases Work(c, ss[0]) - |full|
    {
      full := StepOnFile(c, run, full, f);
    }
  }

  lemma FinishedOutcome(c: Config, s: System, goal: seq<byte>)
    requires c.Valid() && Progress.Inv(c, s) && Heading(c, s, goal) && Finished(s)
    ensures if c.hash(goal) == c.fileHash
            then s.snd.status.Complete? && s.rcv.status.Complete? && s.rcv.dest == Some(goal)
            else s.snd.status.Failed? && s.rcv.status.Failed? && s.rcv.part.None?
  {
  }

  /** Outcome: a finished fault-free session is complete on both sides with what it assembled as destination if that
      has the recorded hash, and failed on both sides, with the part file removed, if it has not. */
  lemma SessionOutcome(c: Config, run: seq<System>, ss: seq<System>)
    requires c.Valid() && IsSession(c, run, ss) && Finished(ss[|ss| - 1])
    ensures var goal, last := Assembled(c, ss), ss[|ss| - 1];
      if c.hash(goal) == c.fileHash
      then last.snd.status.Complete? && last.rcv.status.Complete? && last.rcv.dest == Some(goal)
      else last.snd.status.Failed? && last.rcv.status.Failed? && last.rcv.part.None?
  {
    SessionInv(c, run, ss, |ss| - 1);
    FinishedOutcome(c, ss[|ss| - 1], Assembled(c, ss));
  }

  ghost predicate CollisionFree(c: Config) {
    c.fileHash == c.hash(c.src) && forall f :: c.hash(f) == c.hash(c.src) ==> f == c.src
  }

  /** Both records say complete and the destination is the source. */
  predicate Delivered(c: Config, s: System) {
    s.snd.status.Complete? && s.rcv.status.Complete? && s.rcv.dest == Some(c.src)
  }

  /** With a collision-free hash of the source, a fault-free session delivers the source exactly when the part file
      it opened and the wanted chunks together make it up, wherever that part file was. */
  lemma {:induction false} DeliveredIff(c: Config, run: seq<System>, ss: seq<System>)
    requires c.Valid() && IsSession(c, run, ss) && Finished(ss[|ss| - 1]) && CollisionFree(c)
    ensures Delivered(c, ss[|ss| - 1])
            <==> Reassembles(Opened(ss, |ss| - 1), c.src, c.plan, Wanted(c, ss[0].rcv))
  {
    SessionOutcome(c, run, ss);
    ReassemblyIff(Opened(ss, |ss| - 1), c.src, c.plan, Wanted(c, ss[0].rcv));
  }

  // ---- After any history

  lemma {:induction false} PartFits(c: Config, run: seq<System>, i: nat)
    requires c.Valid() && IsRun(c, run) && i < |run| && !run[i].tainted
    requires |R.Bytes(run[0].rcv)| <= |c.src|
    ensures |R.Bytes(run[i].rcv)| <= |c.src|
  {
    if i > 0 {
      Resume.RunInv(c, run, i - 1);
      assert Follows(c, run[i - 1], run[i]);
      TaintStays(c, run[i - 1], run[i]);
      PartFits(c, run, i - 1);
      FollowsFits(c, run[i - 1], run[i]);
    }
  }

  lemma TaintStays(c: Config, s: System, t: System)
    requires c.Valid() && Follows(c, s, t) && !t.tainted
    ensures !s.tainted
  {
  }

  lemma FollowsFits(c: Config, s: System, t: System)
    requires c.Valid() && Resume.Inv(c, s) && Follows(c, s, t)
    requires !t.tainted && |R.Bytes(s.rcv)| <= |c.src|
    ensures |R.Bytes(t.rcv)| <= |c.src|
  {
    var e :| Enabled(c, s, e) && t == Apply(c, s, e);
    StepFits(c, s, e);
  }

  lemma StepFits(c: Config, s: System, e: Event)
    requires c.Valid() && Resume.Inv(c, s) && Enabled(c, s, e)
    requires !Apply(c, s, e).tainted && |R.Bytes(s.rcv)| <= |c.src|
    ensures |R.Bytes(Apply(c, s, e).rcv)| <= |c.src|
  {
    if e.ReceiverStep? {
      if s.rcv.phase.Write? && !e.inp.Fault? {
        TilesBound(c.plan, |c.src|, s.rcv.phase.m.index);
      } else {
        Resume.OtherBytes(c, s, e.inp);
      }
    }
  }

  /** What the resume rule asks for makes up the source together with a safe disk. */
  lemma SafeReassembles(c: Config, r: R.Receiver)
    requires c.Valid() && Resume.Durable(c, r) && |R.Bytes(r)| <= |c.src|
    ensures Reassembles(R.Bytes(r), c.src, c.plan, Wanted(c, r))
  {
    var f, ids := R.Bytes(r), Wanted(c, r);
    Resume.ResumeRule(c, r);
    if |f| < |c.src| {
      var last := c.N() - 1;
      SelectedFromHas(c, R.ResumeFrom(r), R.Missing(r), 0, last);
      if Resume.OnDisk(c, f, last) {
        GoodByte(f, c.src, c.plan[last].offset, c.plan[last].End(), |c.src| - 1);
      }
    }
    forall p | 0 <= p < |c.src| ensures Covered(c.plan, ids, p) || ByteAt(f, p) == c.src[p] {
      var j := TileOf(c.plan, |c.src|, c.N(), p);
      SelectedFromHas(c, R.ResumeFrom(r), R.Missing(r), 0, j);
      if j in ids {
        var q :| 0 <= q < |ids| && ids[q] == j;
      } else {
        GoodByte(f, c.src, c.plan[j].offset, c.plan[j].End(), p);
      }
    }
  }

  lemma OpensInPlace(c: Config, s: System, t: System)
    requires c.Valid() && FollowsWell(c, s, t) && s.rcv.phase.OpenPart? && t.rcv.phase.Start? && !t.tainted
    ensures R.Bytes(t.rcv) == R.Bytes(s.rcv)
  {
  }

  /** Unless the destination moved, a session opens the part file that was there when it started. */
  lemma {:induction false} OpenedInPlace(c: Config, run: seq<System>, ss: seq<System>, i: nat)
    requires c.Valid() && IsSession(c, run, ss) && i < |ss|
    requires forall k | 0 <= k <= i :: ss[k].rcv.phase.Start? ==> !ss[k].tainted
    ensures Opened(ss, i) == R.Bytes(ss[0].rcv)
  {
    if i > 0 {
      OpenedInPlace(c, run, ss, i - 1);
      SessionInv(c, run, ss, i - 1);
      if ss[i - 1].rcv.phase.OpenPart? && ss[i].rcv.phase.Start? {
        assert FollowsWell(c, ss[i - 1], ss[i]);
        OpensInPlace(c, ss[i - 1], ss[i]);
      }
    }
  }

  /** Resume works: after any number of sessions, cut anywhere, that left the part file in place, the next fault-free
      session that opens the same content ends complete on both sides with the source as destination. */
  lemma {:induction false} ResumeDelivers(c: Config, run: seq<System>, ss: seq<System>)
    requires c.Valid() && IsSession(c, run, ss) && Finished(ss[|ss| - 1]) && CollisionFree(c)
    requires !ss[0].tainted && |R.Bytes(run[0].rcv)| <= |c.src|
    requires Opened(ss, |ss| - 1) == R.Bytes(ss[0].rcv)
    ensures Delivered(c, ss[|ss| - 1])
  {
    Resume.RunInv(c, run, |run| - 1);
    PartFits(c, run, |run| - 1);
    SafeReassembles(c, ss[0].rcv);
    DeliveredIff(c, run, ss);
  }

  /** So however often a transfer was cut, there is a session that finishes it. */
  lemma CanStillDeliver(c: Config, run: seq<System>) returns (ss: seq<System>)
    requires c.Valid() && IsRun(c, run) && run[|run| - 1].snd.phase.Idle? && CollisionFree(c)
    requires !run[|run| - 1].tainted && |R.Bytes(run[0].rcv)| <= |c.src|
    ensures IsSession(c, run, ss) && Finished(ss[|ss| - 1]) && Delivered(c, ss[|ss| - 1])
  {
    var last := run[|run| - 1];
    ss := SessionFinishes(c, run, [last], R.Bytes(last.rcv));
    ResumeDelivers(c, run, ss);
  }

  /** A transfer that cannot be taken up, for instance a failed one, is sent again in full, over whatever part file
      no longer than the source it opens. */
  lemma RetryDelivers(c: Config, run: seq<System>, ss: seq<System>)
    requires c.Valid() && IsSession(c, run, ss) && Finished(ss[|ss| - 1]) && CollisionFree(c)
    requires !R.Resumable(ss[0].rcv) && |Opened(ss, |ss| - 1)| <= |c.src|
    ensures Delivered(c, ss[|ss| - 1])
  {
    var f, ids := Opened(ss, |ss| - 1), Wanted(c, ss[0].rcv);
    forall j | 0 <= j < c.N() ensures j in ids {
      SelectedFromHas(c, 0, None, 0, j);
    }
    ReassembleAll(f, c.src, c.plan, ids);
    ReassemblyIff(f, c.src, c.plan, ids);
    DeliveredIff(c, run, ss);
  }

  /** The record of an unfinished transfer that claims everything. */
  predicate ClaimsAll(c: Config, r: R.Receiver) {
    R.Resumable(r) && r.rows <= r.verified && r.confirmed == |c.src|
  }

  lemma NothingWanted(c: Config, r: R.Receiver)
    requires c.Valid() && ClaimsAll(c, r)
    ensures Wanted(c, r) == []
  {
    assert r.rows - r.verified == {};
    var ids := Wanted(c, r);
    if ids != [] {
      SelectedFromHas(c, r.confirmed, None, 0, ids[0]);
      TilesBound(c.plan, |c.src|, ids[0]);
    }
  }

  /** A session that starts from such a record asks for nothing, so it delivers the source exactly if the part file
      it opens is the source; else it fails on both sides and removes that file. */
  lemma {:induction false} ClaimedDeliversIff(c: Config, run: seq<System>, ss: seq<System>)
    requires c.Valid() && IsSession(c, run, ss) && Finished(ss[|ss| - 1]) && CollisionFree(c)
    requires ClaimsAll(c, ss[0].rcv)
    ensures var last := ss[|ss| - 1];
      && (Delivered(c, last) <==> Opened(ss, |ss| - 1) == c.src)
      && (!Delivered(c, last) <==> last.snd.status.Failed? && last.rcv.status.Failed? && last.rcv.part.None?)
  {
    NothingWanted(c, ss[0].rcv);
    SessionOutcome(c, run, ss);
  }
}
