/**
 The inactivity limit: a wait loop that gets k messages and then nothing makes at most 12 * (k + 1) reads,
 whatever the messages are, and after that many it has left.
 */
module Patience {
  import opened Transfer
  import S = Sender
  import R = Receiver
  import RL = ReceiveLoop
  import Progress

  function Gots(script: seq<Input>): nat {
    if script == [] then 0 else (if script[0].Got? then 1 else 0) + Gots(script[1..])
  }

  /** Polls and reads made by the receive loop before it is left, and how many of them yield a message. */
  function Reads(c: Config, r: R.Receiver, script: seq<Input>): (m: (nat, nat))
    requires RL.Placed(r)
    ensures m.1 <= m.0 <= |script|
    decreases |script|, Progress.ReceiverRank(r)
  {
    if r.phase.Ended? || (RL.Asks(r) && script == []) then (0, 0)
    else if RL.Asks(r) then
      var t := R.Step(c, r, RL.Met(r, script[0])).r;
      RL.StepPlaced(c, r, RL.Met(r, script[0]));
      var (n, k) := Reads(c, t, script[1..]);
      if r.phase.Loop? then (n + 1, if script[0].Got? then k + 1 else k) else (n, k)
    else
      RL.StepPlaced(c, r, Go(0));
      RL.ActionRank(c, r);
      Reads(c, R.Step(c, r, Go(0)).r, script)
  }

  /** A read that does not end the loop resets the count of timeouts or raises it by one. */
  lemma LoopPatience(c: Config, r: R.Receiver, got: Input)
    requires r.phase.Loop? && r.timeouts < MAX_TIMEOUT_RETRIES
    ensures var t := R.Step(c, r, RL.Met(r, got)).r;
      !t.phase.Ended? ==>
        t.timeouts < MAX_TIMEOUT_RETRIES && (got.Got? || (got.Timeout? && t.timeouts == r.timeouts + 1))
  {
  }

  lemma ActionPatience(c: Config, r: R.Receiver, got: Input)
    requires RL.Placed(r) && !r.phase.Loop?
    ensures R.Step(c, r, got).r.timeouts == r.timeouts
  {
  }

  lemma {:induction false} ReceivePotential(c: Config, r: R.Receiver, script: seq<Input>)
    requires RL.Placed(r) && (!r.phase.Ended? ==> r.timeouts < MAX_TIMEOUT_RETRIES)
    ensures var (n, k) := Reads(c, r, script);
      && (!r.phase.Ended? ==> n + r.timeouts <= MAX_TIMEOUT_RETRIES * (k + 1))
      && (!RL.Run(c, r, script).r.phase.Ended? ==> n + r.timeouts < MAX_TIMEOUT_RETRIES * (k + 1))
    decreases |script|, Progress.ReceiverRank(r)
  {
    if r.phase.Ended? || (RL.Asks(r) && script == []) {
    } else if RL.Asks(r) {
      RL.StepPlaced(c, r, RL.Met(r, script[0]));
      if r.phase.Loop? { LoopPatience(c, r, script[0]); } else { ActionPatience(c, r, RL.Met(r, script[0])); }
      ReceivePotential(c, R.Step(c, r, RL.Met(r, script[0])).r, script[1..]);
    } else {
      RL.StepPlaced(c, r, Go(0));
      RL.ActionRank(c, r);
      ActionPatience(c, r, Go(0));
      ReceivePotential(c, R.Step(c, r, Go(0)).r, script);
    }
  }

  /** The receive loop: with k messages read it makes at most 12 * (k + 1) reads, and if it has made that many it has
      been left. */
  lemma {:induction false} ReceiveBound(c: Config, r: R.Receiver, script: seq<Input>)
    requires r.phase.Loop? && r.timeouts == 0
    ensures var (n, k) := Reads(c, r, script);
      && n <= MAX_TIMEOUT_RETRIES * (k + 1)
      && (n == MAX_TIMEOUT_RETRIES * (k + 1) ==> RL.Run(c, r, script).r.phase.Ended?)
  {
    ReceivePotential(c, r, script);
  }

  /** A window or drain loop of the sender: the state it is left in and the reads it made. */
  function Wait(s: S.Sender, script: seq<Input>): (S.Sender, nat)
    decreases |script|
  {
    if !S.Waiting(s) || script == [] then (s, 0) else
    var (t, n) := Wait(S.Wait(s, script[0]).s, script[1..]);
    (t, n + 1)
  }

  lemma {:induction false} WaitPotential(s: S.Sender, script: seq<Input>)
    requires S.Waiting(s) ==> s.timeouts < MAX_TIMEOUT_RETRIES
    ensures S.Waiting(s) ==> Wait(s, script).1 + s.timeouts <= MAX_TIMEOUT_RETRIES * (Gots(script) + 1)
    ensures S.Waiting(Wait(s, script).0) ==> |script| + s.timeouts < MAX_TIMEOUT_RETRIES * (Gots(script) + 1)
    decreases |script|
  {
    if S.Waiting(s) && script != [] {
      WaitPotential(S.Wait(s, script[0]).s, script[1..]);
    }
  }

  /** The sender's loops that wait for room in the window and for the last acknowledgements. */
  lemma {:induction false} WaitBound(s: S.Sender, script: seq<Input>)
    requires S.Waiting(s) && s.timeouts == 0
    ensures Wait(s, script).1 <= MAX_TIMEOUT_RETRIES * (Gots(script) + 1)
    ensures |script| >= MAX_TIMEOUT_RETRIES * (Gots(script) + 1) ==> !S.Waiting(Wait(s, script).0)
  {
    WaitPotential(s, script);
  }

  // ---- Silence, exactly

  predicate Silent(script: seq<Input>) { forall i | 0 <= i < |script| :: script[i].Timeout? }

  lemma {:induction false} WaitSilence(s: S.Sender, script: seq<Input>)
    requires S.Waiting(s) && Silent(script) && s.timeouts < MAX_TIMEOUT_RETRIES
    ensures var t := Wait(s, script).0;
      && (S.Waiting(t) <==> |script| + s.timeouts < MAX_TIMEOUT_RETRIES)
      && t.pending == s.pending && (!S.Waiting(t) ==> t.phase.Ended?)
    decreases |script|
  {
    if script != [] {
      var next := S.Wait(s, script[0]).s;
      if S.Waiting(next) { WaitSilence(next, script[1..]); }
    }
  }

  /** A sender that waits gives up at the twelfth silence in a row and not before: any message but an error or a
      cancellation starts the count anew, and so does the next chunk. */
  lemma {:induction false} SenderGivesUpIff(c: Config, s: S.Sender, msg: Message, script: seq<Input>)
    requires S.Waiting(s) && !msg.ErrorMsg? && !msg.CancelMsg? && Silent(script)
    ensures var t := S.Wait(s, Got(msg)).s;
      && t.phase == s.phase && t.timeouts == 0
      && (S.Waiting(t) ==> (S.Waiting(Wait(t, script).0) <==> |script| < 12))
  {
    var t := S.Wait(s, Got(msg)).s;
    if S.Waiting(t) { WaitSilence(t, script); }
  }

  lemma {:induction false} LoopSilence(c: Config, r: R.Receiver, script: seq<Input>)
    requires r.phase.Loop? && Silent(script) && r.timeouts < MAX_TIMEOUT_RETRIES
    ensures var t := RL.Run(c, r, script);
      && (t.r.phase.Loop? <==> |script| + r.timeouts < MAX_TIMEOUT_RETRIES)
      && (!t.r.phase.Loop? ==> t.r == R.End(r.(timeouts := MAX_TIMEOUT_RETRIES), true)) && t.out == []
    decreases |script|
  {
    if script != [] {
      var next := R.Step(c, r, RL.Met(r, script[0])).r;
      if next.phase.Loop? { LoopSilence(c, next, script[1..]); }
    }
  }

  /** So does the receive loop, and any message after which it goes on reading, or a chunk that is stored, starts the
      count anew. */
  lemma {:induction false} ReceiverGivesUpIff(c: Config, r: R.Receiver, script: seq<Input>)
    requires r.phase.Loop? && Silent(script) && r.timeouts == 0
    ensures var t := RL.Run(c, r, script).r;
      && (t.phase.Loop? <==> |script| < 12)
      && (!t.phase.Loop? ==> t == R.End(r.(timeouts := 12), true))
  {
    LoopSilence(c, r, script);
  }

  lemma MessageResets(c: Config, r: R.Receiver, msg: Message)
    requires r.phase.Loop?
    ensures var t := R.Step(c, r, Got(msg)).r; t.phase.Loop? || t.phase.Write? ==> t.timeouts == 0
  {
  }

  /** Every loop that waits starts with a fresh count. */
  lemma StartsPatient(c: Config, r: R.Receiver, s: S.Sender, inp: Input)
    requires r.phase.Start? && !inp.Fault?
    requires c.Valid() && s.phase.AtChunk?
    ensures var t := R.Step(c, r, inp).r; t.phase.Loop? && t.timeouts == 0
    ensures var t := S.Step(c, s, inp).s; t.phase.Window? || t.phase.Drain? ==> t.timeouts == 0
  {
  }

  // ---- Acknowledgements

  predicate AllAcks(script: seq<Input>) {
    forall i | 0 <= i < |script| :: script[i].Got? && script[i].msg.Ack?
  }

  /** How many acknowledgements a waiting sender needs: to fewer than 50 pending, or to none at the end. */
  function Needed(s: S.Sender): nat {
    if s.phase.Window? && s.pending >= 50 then s.pending - 49 else if s.phase.Drain? then s.pending else 0
  }

  /** A sender that waits reads as many acknowledgements as it needs and no more; each counts once, and the last one
      read says what is confirmed. */
  lemma {:induction false} AcksCount(s: S.Sender, script: seq<Input>)
    requires AllAcks(script)
    ensures var (t, n) := Wait(s, script);
      && n == (if Needed(s) <= |script| then Needed(s) else |script|)
      && t.pending + n == s.pending && t.phase == s.phase && t.status == s.status
      && t.confirmed == if n == 0 then s.confirmed else script[n - 1].msg.confirmed
    decreases |script|
  {
    if S.Waiting(s) && script != [] {
      var next := S.Wait(s, script[0]).s;
      AcksCount(next, script[1..]);
      var n := Wait(next, script[1..]).1;
      assert n > 0 ==> script[1..][n - 1] == script[n];
    }
  }
}
