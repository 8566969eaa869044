/**
 What a fault-free session puts on the wire: exactly the chunks the receiver does not have, each once, in order.

 "Does not have" is said in terms of the receiver's record alone: its rows, its marks and its confirmed offset.
 */
module Wire {
  import opened Common
  import opened ChunkPlan
  import opened Disk
  import opened Transfer
  import opened System
  import opened Progress
  import opened Course
  import opened Outcome
  import Flow
  import S = Sender
  import R = Receiver

  /** Indices of the chunks sent in the first i steps of a session: a step that sends makes the channel longer. */
  function SentBy(ss: seq<System>, i: nat): seq<nat>
    requires i < |ss|
  {
    if i == 0 then [] else
    SentBy(ss, i - 1) + SentIn(ss[i - 1].toR, ss[i].toR)
  }

  function SentIn(before: seq<Message>, after: seq<Message>): seq<nat> {
    if |after| > |before| then Ids(after[|before|..]) else []
  }

  /** The chunks still to be sent. */
  function Unsent(c: Config, s: System): seq<nat> {
    if S.Streaming(s.snd) then SelectedFrom(c, s.snd.resumeFrom, s.snd.missing, S.Pos(c, s.snd))
    else if s.snd.phase.Ended? then []
    else if !Flow.Undecided(s.rcv) && s.toS != [] && s.toS[0].Acceptance? then
      SelectedFrom(c, s.toS[0].resumeFrom, s.toS[0].missing, 0)
    else SelectedFrom(c, R.ResumeFrom(s.rcv), R.Missing(s.rcv), 0)
  }

  // ---- Each step sends what it takes from there

  lemma {:induction false} SentInAppend(q: seq<Message>, out: seq<Message>)
    ensures SentIn(q, q + out) == Ids(out)
  {
    assert (q + out)[|q|..] == out;
  }

  lemma SenderSends(c: Config, s: System, inp: Input)
    requires c.Valid() && Progress.Inv(c, s) && Enabled(c, s, SenderStep(inp)) && FaultFree(SenderStep(inp))
    ensures var t := SenderMoves(c, s, inp); SentIn(s.toR, t.toR) + Unsent(c, t) == Unsent(c, s)
  {
    var res := S.Step(c, s.snd, inp);
    SentInAppend(s.toR, res.out);
    if Flow.Early(s.snd) {
      EarlySends(c, s, inp);
    } else if S.Streaming(res.s) {
      SenderShifts(c, s.snd, inp);
      StreamSends(c, s, inp, res);
    } else {
      LastSends(c, s, inp);
    }
  }

  lemma EarlySends(c: Config, s: System, inp: Input)
    requires c.Valid() && Progress.Inv(c, s) && Enabled(c, s, SenderStep(inp)) && FaultFree(SenderStep(inp))
    requires Flow.Early(s.snd)
    ensures var t := SenderMoves(c, s, inp); Ids(S.Step(c, s.snd, inp).out) == [] && Unsent(c, t) == Unsent(c, s)
  {
    assert Ids([Request]) == [] + Ids([Request][1..]);
  }

  lemma StreamSends(c: Config, s: System, inp: Input, res: S.Result)
    requires Heads(s.toS, inp) && S.Streaming(s.snd) && S.Streaming(res.s)
    requires res.s.resumeFrom == s.snd.resumeFrom && res.s.missing == s.snd.missing && Shifts(c, s.snd, res)
    ensures Ids(res.out) + Unsent(c, AfterSender(s, inp, res)) == Unsent(c, s)
  {
  }

  /** Without faults a streaming sender returns only from its last read. */
  lemma LastSends(c: Config, s: System, inp: Input)
    requires c.Valid() && Progress.Inv(c, s) && Enabled(c, s, SenderStep(inp)) && FaultFree(SenderStep(inp))
    requires S.Streaming(s.snd) && !S.Streaming(S.Step(c, s.snd, inp).s)
    ensures var t := SenderMoves(c, s, inp);
      Ids(S.Step(c, s.snd, inp).out) == [] && Unsent(c, t) == [] && Unsent(c, s) == []
  {
  }

  lemma ReceiverSendsNone(c: Config, s: System, inp: Input)
    requires c.Valid() && Progress.Inv(c, s) && Enabled(c, s, ReceiverStep(inp)) && FaultFree(ReceiverStep(inp))
    ensures var t := ReceiverMoves(c, s, inp); |t.toR| <= |s.toR| && Unsent(c, t) == Unsent(c, s)
  {
    if Flow.Early(s.snd) {
      if Flow.Undecided(s.rcv) {
        UndecidedKeepsAnswer(c, s.rcv, inp);
        AnswerKeepsUnsent(c, s, inp, R.Step(c, s.rcv, inp));
      } else {
        if s.rcv.phase.Loop? { LoopKind(c, s, inp); } else { OtherKind(c, s.rcv, inp); }
        JoiningKeepsUnsent(c, s, inp, R.Step(c, s.rcv, inp));
      }
    }
  }

  lemma AnswerKeepsUnsent(c: Config, s: System, inp: Input, res: R.Result)
    requires c.Valid() && Progress.Inv(c, s) && Heads(s.toR, inp) && Flow.Undecided(s.rcv) && Flow.Early(s.snd)
    requires if s.rcv.phase.Decide?
             then res.r.phase.OpenPart? && res.out == [Acceptance(true, R.ResumeFrom(s.rcv), R.Missing(s.rcv))]
             else Flow.Undecided(res.r) && R.ResumeFrom(res.r) == R.ResumeFrom(s.rcv)
                  && R.Missing(res.r) == R.Missing(s.rcv)
    ensures Unsent(c, AfterReceiver(s, inp, res)) == Unsent(c, s)
  {
    assert s.toS == [];
    assert AfterReceiver(s, inp, res).toS == res.out;
  }

  lemma JoiningKeepsUnsent(c: Config, s: System, inp: Input, res: R.Result)
    requires c.Valid() && Progress.Inv(c, s) && Heads(s.toR, inp) && !Flow.Undecided(s.rcv) && Flow.Early(s.snd)
    requires KindFacts(c, s.rcv, inp, res, if s.rcv.phase.Loop? then Take
                                           else if R.Completing(s.rcv) || R.Refusing(s.rcv) then Conclude else Carry)
    ensures Unsent(c, AfterReceiver(s, inp, res)) == Unsent(c, s)
  {
    assert Joining(s.rcv);
    assert s.toS + [] == s.toS;
  }

  lemma StepSends(c: Config, s: System, t: System)
    requires c.Valid() && Progress.Inv(c, s) && FollowsWell(c, s, t)
    ensures SentIn(s.toR, t.toR) + Unsent(c, t) == Unsent(c, s)
  {
    var e :| FaultFree(e) && Enabled(c, s, e) && t == Apply(c, s, e);
    match e
    case SenderStep(inp) => SenderSends(c, s, inp);
    case ReceiverStep(inp) => ReceiverSendsNone(c, s, inp);
  }

  /** At every point of a session, what has been sent and what is still to be sent make up what was wanted. */
  lemma {:induction false} SentSoFar(c: Config, run: seq<System>, ss: seq<System>, i: nat)
    requires c.Valid() && IsSession(c, run, ss) && i < |ss|
    ensures SentBy(ss, i) + Unsent(c, ss[i]) == Wanted(c, ss[0].rcv)
  {
    if i == 0 {
      SessionBase(c, run, ss);
      assert [] + Unsent(c, ss[0]) == Unsent(c, ss[0]);
    } else {
      SentSoFar(c, run, ss, i - 1);
      SessionInv(c, run, ss, i - 1);
      assert FollowsWell(c, ss[i - 1], ss[i]);
      StepSends(c, ss[i - 1], ss[i]);
      var a, b, d := SentBy(ss, i - 1), SentIn(ss[i - 1].toR, ss[i].toR), Unsent(c, ss[i]);
      assert a + (b + d) == (a + b) + d;
    }
  }

  // ---- What is wanted, said without the answer

  /** Some chunk that has a row is not marked. */
  predicate Unmarked(r: R.Receiver) { exists k :: k in r.rows && k !in r.verified }

  /** The receiver's record lacks chunk j.  A transfer in progress or paused lacks the chunks whose rows are not marked,
      or, if all are, those that end above the confirmed offset; any other lacks everything. */
  predicate Lacks(c: Config, r: R.Receiver, j: nat)
    requires j < c.N()
  {
    if r.known && r.status in {InProgress, Paused} then
      if Unmarked(r) then j in r.rows && j !in r.verified
      else c.plan[j].offset + c.plan[j].length > r.confirmed
    else true
  }

  lemma LacksIff(c: Config, r: R.Receiver, j: nat)
    requires c.Valid() && j < c.N()
    ensures Selected(c, R.ResumeFrom(r), R.Missing(r), j) <==> Lacks(c, r, j)
  {
    TilesBound(c.plan, |c.src|, j);
    if Unmarked(r) {
      var k :| k in r.rows && k !in r.verified;
      assert k in r.rows - r.verified;
    } else {
      assert r.rows - r.verified == {};
    }
  }

  /** In rising order, each once, from `low` on. */
  predicate Rising(ids: seq<nat>, low: nat) {
    && (forall q | 0 <= q < |ids| :: ids[q] >= low)
    && forall p, q | 0 <= p < q < |ids| :: ids[p] < ids[q]
  }

  lemma RisingAt(k: nat, ids: seq<nat>, p: nat, q: nat)
    requires Rising(ids, k + 1) && p < q <= |ids|
    ensures ([k] + ids)[p] < ([k] + ids)[q]
  {
    var more := [k] + ids;
    assert more[q] == ids[q - 1];
    assert if p > 0 then more[p] == ids[p - 1] else more[p] == k;
  }

  lemma RisingFrom(k: nat, ids: seq<nat>)
    requires Rising(ids, k + 1)
    ensures Rising([k] + ids, k)
  {
    var more := [k] + ids;
    forall q | 0 <= q < |more| ensures more[q] >= k {
      if q > 0 { RisingAt(k, ids, 0, q); }
    }
    forall p, q | 0 <= p < q < |more| ensures more[p] < more[q] { RisingAt(k, ids, p, q); }
  }

  lemma {:induction false} SelectedRises(c: Config, resumeFrom: nat, missing: Option<set<nat>>, pos: nat)
    ensures Rising(SelectedFrom(c, resumeFrom, missing, pos), pos)
    decreases c.N() - pos
  {
    if pos < c.N() {
      SelectedRises(c, resumeFrom, missing, pos + 1);
      var later := SelectedFrom(c, resumeFrom, missing, pos + 1);
      RisingFrom(pos, later);
      assert [] + later == later;
    }
  }

  lemma {:induction false} WantedIff(c: Config, r: R.Receiver)
    requires c.Valid()
    ensures forall j | 0 <= j < c.N() :: j in Wanted(c, r) <==> Lacks(c, r, j)
    ensures Rising(Wanted(c, r), 0)
  {
    forall j | 0 <= j < c.N() ensures j in Wanted(c, r) <==> Lacks(c, r, j) {
      SelectedFromHas(c, R.ResumeFrom(r), R.Missing(r), 0, j);
      LacksIff(c, r, j);
    }
    SelectedRises(c, R.ResumeFrom(r), R.Missing(r), 0);
  }

  lemma {:induction false} AllSent(c: Config, run: seq<System>, ss: seq<System>)
    requires c.Valid() && IsSession(c, run, ss) && Finished(ss[|ss| - 1])
    ensures SentBy(ss, |ss| - 1) == Wanted(c, ss[0].rcv)
  {
    SentSoFar(c, run, ss, |ss| - 1);
    assert SentBy(ss, |ss| - 1) + [] == SentBy(ss, |ss| - 1);
  }

  /** Selective resume: a finished fault-free session has sent exactly the chunks that the receiver's record lacked when
      it started, each once, in rising order.  So no marked chunk is sent again while another row is unmarked. */
  lemma {:induction false} SendsExactly(c: Config, run: seq<System>, ss: seq<System>)
    requires c.Valid() && IsSession(c, run, ss) && Finished(ss[|ss| - 1])
    ensures var sent := SentBy(ss, |ss| - 1);
      && (forall j | 0 <= j < c.N() :: j in sent <==> Lacks(c, ss[0].rcv, j))
      && (forall j | j in sent :: j < c.N()) && Rising(sent, 0)
  {
    AllSent(c, run, ss);
    WantedIff(c, ss[0].rcv);
  }

  /** And nothing else at any time: what a fault-free session has sent so far is the front of that. */
  lemma {:induction false} SendsNothingElse(c: Config, run: seq<System>, ss: seq<System>, i: nat, j: nat)
    requires c.Valid() && IsSession(c, run, ss) && i < |ss| && j in SentBy(ss, i)
    ensures j < c.N() && Lacks(c, ss[0].rcv, j)
  {
    SentSoFar(c, run, ss, i);
    assert j in Wanted(c, ss[0].rcv);
    SelectedFromHas(c, R.ResumeFrom(ss[0].rcv), R.Missing(ss[0].rcv), 0, j);
    LacksIff(c, ss[0].rcv, j);
  }
}
