/**
 The sending loops of `handle_outgoing_transfer_inner` as they are written: a loop over the plan, an inner
 loop that waits for room in the window, a drain loop, and the final exchange.

 `Run` is the specification: the sender's step function driven by a script of what each poll, read, file
 access and write yields.  The same step function is one half of `System`.
 */
module SendLoop {
  import opened Common
  import opened ChunkPlan
  import opened Transfer
  import S = Sender

  predicate Placed(c: Config, s: S.Sender) {
    && (S.Streaming(s) || s.phase.Ended?)
    && (s.phase.Window? ==> s.phase.i < c.N())
    && (s.phase.AtChunk? ==> s.phase.i <= c.N())
  }

  /** Places where the handler's way depends on the outside world: all but the end of the plan. */
  predicate Asks(c: Config, s: S.Sender) {
    !s.phase.Ended? && !(s.phase.AtChunk? && s.phase.i >= c.N())
  }

  function Prepend(out: seq<Message>, r: S.Result): S.Result { S.Result(r.s, out + r.out) }

  lemma StepPlaced(c: Config, s: S.Sender, inp: Input)
    requires c.Valid() && Placed(c, s)
    ensures Placed(c, S.Step(c, s, inp).s)
  {
  }

  /** Run until the handler returns or the script is used up; what it then is and what it sent. */
  function Run(c: Config, s: S.Sender, script: seq<Input>): S.Result
    requires c.Valid() && Placed(c, s)
    decreases |script|, if Asks(c, s) then 0 else 1
  {
    if s.phase.Ended? then S.Result(s, [])
    else if Asks(c, s) then
      if script == [] then S.Result(s, []) else
      var r := S.Step(c, s, script[0]);
      StepPlaced(c, s, script[0]);
      Prepend(r.out, Run(c, r.s, script[1..]))
    else
      Run(c, S.Step(c, s, Go(0)).s, script)
  }

  /** Nothing more can happen: the handler has returned, or waits for an outcome that does not come. */
  predicate Halted(c: Config, s: S.Sender, script: seq<Input>) {
    s.phase.Ended? || (Asks(c, s) && script == [])
  }

  /** One step further into a run: the next outcome is taken. */
  lemma {:induction false} AskStep(c: Config, done: seq<Message>, s: S.Sender, script: seq<Input>)
    requires c.Valid() && Placed(c, s) && Asks(c, s) && script != []
    ensures var r := S.Step(c, s, script[0]);
      && Placed(c, r.s)
      && Prepend(done, Run(c, s, script)) == Prepend(done + r.out, Run(c, r.s, script[1..]))
  {
    var r := S.Step(c, s, script[0]);
    StepPlaced(c, s, script[0]);
    var later := Run(c, r.s, script[1..]);
    assert Run(c, s, script) == Prepend(r.out, later);
    assert done + (r.out + later.out) == (done + r.out) + later.out;
  }

  lemma {:induction false} EndOfPlan(c: Config, s: S.Sender, script: seq<Input>)
    requires c.Valid() && s.phase == S.AtChunk(c.N())
    ensures Run(c, s, script) == Run(c, s.(phase := S.Drain, timeouts := 0), script)
  {
  }

  class Handler {
    var pending: nat
    var resumeFrom: nat
    var missing: Option<set<nat>>
    var timeouts: nat
    var status: Status
    var confirmed: nat
    var acked: bool
    var sent: seq<Message>
    ghost var at: S.Phase

    ghost function View(): S.Sender
      reads this
    {
      S.Sender(at, pending, resumeFrom, missing, timeouts, status, confirmed, acked)
    }

    /** The acceptance has been read; streaming begins. */
    constructor (answer: Message)
      requires answer.Acceptance? && answer.accepted
      ensures at == S.AtChunk(0) && sent == [] && pending == 0 && !acked
      ensures View() == S.Sender(S.AtChunk(0), 0, answer.resumeFrom, answer.missing, 0, InProgress,
                                 answer.resumeFrom, false)
    {
      pending, resumeFrom, missing := 0, answer.resumeFrom, answer.missing;
      timeouts, status, confirmed, acked := 0, InProgress, answer.resumeFrom, false;
      sent := [];
      at := S.AtChunk(0);
    }

    /** Return, after the caller's status fix-up. */
    method Leave(failed: bool)
      modifies this`status, this`at
      ensures View() == S.End(old(View()), failed)
    {
      if status.InProgress? || status.AwaitingAcceptance? || status.Pending? {
        status := if failed then Failed else Paused;
      }
      at := S.Ended;
    }

    // ---- Single actions: what the world answers, and what becomes of the handler

    /** The handler took this outcome as the sender's step function says. */
    twostate predicate Took(c: Config, inp: Input)
      requires c.Valid() && Placed(c, old(View()))
      reads this
    {
      var r := S.Step(c, old(View()), inp);
      View() == r.s && sent == old(sent) + r.out
    }

    /** The poll at the top of the loop, and whether the chunk is selected. */
    method Poll(c: Config, i: nat, got: Input)
      requires c.Valid() && i < c.N() && at == S.AtChunk(i)
      modifies this`sent, this`status, this`timeouts, this`at
      ensures Took(c, got)
      ensures at == if got.CancelRequest? || got.CrashToken? then S.Ended
                    else if Selected(c, resumeFrom, missing, i) then S.Window(i)
                    else S.AtChunk(i + 1)
    {
      if got.CancelRequest? {
        sent := sent + [CancelMsg];
        Leave(false);
      } else if got.CrashToken? {
        Leave(true);
      } else if Selected(c, resumeFrom, missing, i) {
        timeouts := 0;
        at := S.Window(i);
      } else {
        at := S.AtChunk(i + 1);
      }
    }

    /** One turn of a loop that waits for acknowledgements. */
    method WaitTurn(c: Config, got: Input) returns (go: bool)
      requires c.Valid() && Placed(c, View()) && S.Waiting(View())
      modifies this`sent, this`status, this`timeouts, this`pending, this`confirmed, this`at
      ensures Took(c, got) && at == if go then old(at) else S.Ended
    {
      go := false;
      if got.CancelRequest? {
        sent := sent + [CancelMsg];
        Leave(false);
      } else if got.Timeout? {
        timeouts := timeouts + 1;
        if timeouts >= MAX_TIMEOUT_RETRIES {
          Leave(true);
        } else {
          go := true;
        }
      } else if got.Got? {
        go := WaitMessage(got.msg);
      } else {
        Leave(true);
      }
    }

    method WaitMessage(msg: Message) returns (go: bool)
      requires S.Waiting(View())
      modifies this`status, this`timeouts, this`pending, this`confirmed, this`at
      ensures View() == S.Wait(old(View()), Got(msg)).s && at == if go then old(at) else S.Ended
    {
      go := !msg.ErrorMsg? && !msg.CancelMsg?;
      match msg
      case Ack(_, bytes) =>
        timeouts := 0;
        if pending > 0 { pending := pending - 1; }
        confirmed := bytes;
      case ErrorMsg => Leave(true);
      case CancelMsg => Leave(false);
      case _ => timeouts := 0;
    }

    /** Read, hash, seal and send chunk i; any failure ends the transfer. */
    method SendChunk(c: Config, i: nat, got: Input)
      requires c.Valid() && i < c.N() && at == S.Window(i) && pending < MAX_PENDING_ACKS
      modifies this`sent, this`status, this`pending, this`at
      ensures Took(c, got) && at == if got.Go? then S.AtChunk(i + 1) else S.Ended
    {
      if got.Go? {
        sent := sent + [S.ChunkMessage(c, i, got.nonce)];
        pending := pending + 1;
        at := S.AtChunk(i + 1);
      } else {
        Leave(true);
      }
    }

    /** Claim completion. */
    method Claim(c: Config, got: Input)
      requires c.Valid() && at.Drain? && pending == 0
      modifies this`sent, this`status, this`at
      ensures Took(c, got) && at == if got.Fault? then S.Ended else S.AwaitFinal
    {
      if got.Fault? {
        Leave(true);
      } else {
        sent := sent + [CompleteMsg(c.fileHash)];
        at := S.AwaitFinal;
      }
    }

    /** Read the answer to the claim. */
    method FinalAnswer(c: Config, got: Input)
      requires c.Valid() && at.AwaitFinal?
      modifies this`status, this`acked, this`at
      ensures Took(c, got) && at.Ended?
    {
      if got.Got? && got.msg.Ack? {
        status, acked, at := Complete, true, S.Ended;
      } else if got.Got? && got.msg.ErrorMsg? {
        status, at := Failed, S.Ended;
      } else {
        Leave(true);
      }
    }

    // ---- The loops

    /** What is left to run from here, after what was sent so far, is the whole run. */
    ghost predicate OnTrack(c: Config, whole: S.Result, base: seq<Message>, script: seq<Input>)
      requires c.Valid()
      reads this
    {
      base <= sent && Placed(c, View()) && whole == Prepend(sent[|base|..], Run(c, View(), script))
    }

    method AwaitOne(c: Config, script: seq<Input>, ghost whole: S.Result, ghost base: seq<Message>) returns (go: bool)
      requires c.Valid() && OnTrack(c, whole, base, script) && script != [] && S.Waiting(View())
      modifies this`sent, this`status, this`timeouts, this`pending, this`confirmed, this`at
      ensures OnTrack(c, whole, base, script[1..]) && at == if go then old(at) else S.Ended
    {
      AskStep(c, sent[|base|..], View(), script);
      go := WaitTurn(c, script[0]);
    }

    /** Wait until fewer than `limit` acknowledgements are pending. */
    method AwaitAcks(c: Config, script: seq<Input>, limit: nat, ghost whole: S.Result, ghost base: seq<Message>)
      returns (rest: seq<Input>, go: bool)
      requires c.Valid() && OnTrack(c, whole, base, script)
      requires (at.Window? && limit == MAX_PENDING_ACKS) || (at.Drain? && limit == 1)
      modifies this`sent, this`status, this`timeouts, this`pending, this`confirmed, this`at
      ensures OnTrack(c, whole, base, rest)
      ensures if go then at == old(at) && pending < limit else Halted(c, View(), rest)
    {
      rest, go := script, true;
      while pending >= limit && go && rest != []
        invariant OnTrack(c, whole, base, rest) && at == if go then old(at) else S.Ended
        decreases |rest|
      {
        go := AwaitOne(c, rest, whole, base);
        rest := rest[1..];
      }
      go := go && pending < limit;
    }

    /** Wait for room in the window, then send chunk i. */
    method SendWhenRoom(c: Config, i: nat, script: seq<Input>, ghost whole: S.Result, ghost base: seq<Message>)
      returns (rest: seq<Input>, go: bool)
      requires c.Valid() && i < c.N() && at == S.Window(i) && OnTrack(c, whole, base, script)
      modifies this
      ensures OnTrack(c, whole, base, rest)
      ensures if go then at == S.AtChunk(i + 1) else Halted(c, View(), rest)
    {
      rest, go := AwaitAcks(c, script, MAX_PENDING_ACKS, whole, base);
      if go && rest != [] {
        AskStep(c, sent[|base|..], View(), rest);
        SendChunk(c, i, rest[0]);
        go := rest[0].Go?;
        rest := rest[1..];
      } else {
        go := false;
      }
    }

    /** One turn of the loop over the plan. */
    method OneChunk(c: Config, i: nat, script: seq<Input>, ghost whole: S.Result, ghost base: seq<Message>)
      returns (rest: seq<Input>, go: bool)
      requires c.Valid() && i < c.N() && at == S.AtChunk(i) && OnTrack(c, whole, base, script)
      modifies this
      ensures OnTrack(c, whole, base, rest)
      ensures if go then at == S.AtChunk(i + 1) else Halted(c, View(), rest)
    {
      rest, go := script, false;
      if rest == [] { return; }
      var poll := rest[0];
      AskStep(c, sent[|base|..], View(), rest);
      Poll(c, i, poll);
      rest := rest[1..];
      if poll.CancelRequest? || poll.CrashToken? { return; }
      go := true;
      if Selected(c, resumeFrom, missing, i) {
        rest, go := SendWhenRoom(c, i, rest, whole, base);
      }
    }

    /** Drain the window, then conclude. */
    method Drain(c: Config, script: seq<Input>, ghost whole: S.Result, ghost base: seq<Message>)
      returns (rest: seq<Input>)
      requires c.Valid() && at == S.AtChunk(c.N()) && OnTrack(c, whole, base, script)
      modifies this
      ensures OnTrack(c, whole, base, rest) && Halted(c, View(), rest)
    {
      EndOfPlan(c, View(), script);
      timeouts := 0;
      at := S.Drain;
      var go;
      rest, go := AwaitAcks(c, script, 1, whole, base);
      if go {
        rest := Conclude(c, rest, whole, base);
      }
    }

    /** Claim completion and read the answer. */
    method Conclude(c: Config, script: seq<Input>, ghost whole: S.Result, ghost base: seq<Message>)
      returns (rest: seq<Input>)
      requires c.Valid() && at.Drain? && pending == 0 && OnTrack(c, whole, base, script)
      modifies this
      ensures OnTrack(c, whole, base, rest) && Halted(c, View(), rest)
    {
      rest := script;
      if rest == [] { return; }
      AskStep(c, sent[|base|..], View(), rest);
      Claim(c, rest[0]);
      var failed := rest[0].Fault?;
      rest := rest[1..];
      if failed || rest == [] { return; }
      AskStep(c, sent[|base|..], View(), rest);
      FinalAnswer(c, rest[0]);
      rest := rest[1..];
    }

    /** The handler from its first chunk to its return, against a script of outcomes. */
    method Send(c: Config, script: seq<Input>)
      requires c.Valid() && at == S.AtChunk(0)
      modifies this
      ensures var whole := Run(c, old(View()), script);
        View() == whole.s && sent == old(sent) + whole.out
    {
      ghost var whole, base := Run(c, View(), script), sent;
      var rest, go := script, true;
      for i := 0 to |c.plan|
        invariant at == S.AtChunk(i) && OnTrack(c, whole, base, rest)
      {
        rest, go := OneChunk(c, i, rest, whole, base);
        if !go { return; }
      }
      rest := Drain(c, rest, whole, base);
    }
  }
}
