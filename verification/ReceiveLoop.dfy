/**
 The receive loop of `handle_incoming_transfer_inner` as it is written: read a message, and for a chunk write,
 confirm, mark and acknowledge it; for a completion check the file, rename it and answer.

 `Run` is the specification: the receiver's step function driven by a script of what each poll, read, file
 operation and database update yields.  The same step function is one half of `System`.
 */
module ReceiveLoop {
  import opened Common
  import opened ChunkPlan
  import opened Disk
  import opened Transfer
  import R = Receiver
  import Progress

  predicate Placed(r: R.Receiver) {
    && (r.phase.Loop? || R.Busy(r) || R.Completing(r) || R.Refusing(r) || r.phase.Ended?)
    && (R.Busy(r) ==> r.phase.m.Chunk?)
  }

  /** Places where the handler's way depends on the outside world; the rest ignores errors. */
  predicate Asks(r: R.Receiver) {
    !r.phase.SendFinal? && !r.phase.Delete? && !r.phase.Ended?
  }

  /** What the handler meets: an outcome that its place cannot have counts as success. */
  function Met(r: R.Receiver, inp: Input): Input { if R.Ready(r, inp) then inp else Go(0) }

  function Prepend(out: seq<Message>, r: R.Result): R.Result { R.Result(r.r, out + r.out) }

  lemma StepPlaced(c: Config, r: R.Receiver, inp: Input)
    requires Placed(r)
    ensures Placed(R.Step(c, r, inp).r)
  {
  }

  lemma ActionRank(c: Config, r: R.Receiver)
    requires Placed(r) && !Asks(r) && !r.phase.Ended?
    ensures Progress.ReceiverRank(R.Step(c, r, Go(0)).r) < Progress.ReceiverRank(r)
  {
  }

  /** Run until the handler returns or the script is used up. */
  function Run(c: Config, r: R.Receiver, script: seq<Input>): R.Result
    requires Placed(r)
    decreases |script|, Progress.ReceiverRank(r)
  {
    if r.phase.Ended? then R.Result(r, [])
    else if Asks(r) then
      if script == [] then R.Result(r, []) else
      var t := R.Step(c, r, Met(r, script[0]));
      StepPlaced(c, r, Met(r, script[0]));
      Prepend(t.out, Run(c, t.r, script[1..]))
    else
      var t := R.Step(c, r, Go(0));
      StepPlaced(c, r, Go(0));
      ActionRank(c, r);
      Prepend(t.out, Run(c, t.r, script))
  }

  /** Nothing more can happen: the handler has returned, or waits for an outcome that does not come. */
  predicate Halted(r: R.Receiver, script: seq<Input>) { r.phase.Ended? || (Asks(r) && script == []) }

  /** One step further into a run: the next outcome is taken. */
  lemma {:induction false} AskStep(c: Config, done: seq<Message>, r: R.Receiver, script: seq<Input>)
    requires Placed(r) && Asks(r) && script != []
    ensures var t := R.Step(c, r, Met(r, script[0]));
      && Placed(t.r)
      && Prepend(done, Run(c, r, script)) == Prepend(done + t.out, Run(c, t.r, script[1..]))
  {
    var t := R.Step(c, r, Met(r, script[0]));
    StepPlaced(c, r, Met(r, script[0]));
    var later := Run(c, t.r, script[1..]);
    assert Run(c, r, script) == Prepend(t.out, later);
    assert done + (t.out + later.out) == (done + t.out) + later.out;
  }

  lemma {:induction false} ActStep(c: Config, done: seq<Message>, r: R.Receiver, script: seq<Input>)
    requires Placed(r) && !Asks(r) && !r.phase.Ended?
    ensures var t := R.Step(c, r, Go(0));
      && Placed(t.r)
      && Prepend(done, Run(c, r, script)) == Prepend(done + t.out, Run(c, t.r, script))
  {
    var t := R.Step(c, r, Go(0));
    StepPlaced(c, r, Go(0));
    var later := Run(c, t.r, script);
    assert Run(c, r, script) == Prepend(t.out, later);
    assert done + (t.out + later.out) == (done + t.out) + later.out;
  }

  /** What follows from a poll or read. */
  datatype Next =
    | Leaving
    | Reading
    | Storing(m: Message, plain: seq<byte>)
    | Checking(claimed: Hash)
    | Refusing(remove: bool)

  class Handler {
    var timeouts: nat
    var known: bool
    var status: Status
    var confirmed: nat
    var rows: set<nat>
    var verified: set<nat>
    var part: Option<seq<byte>>
    var dest: Option<seq<byte>>
    var sent: seq<Message>
    ghost var at: R.Phase

    ghost function View(): R.Receiver
      reads this
    {
      R.Receiver(at, timeouts, known, status, confirmed, rows, verified, part, dest)
    }

    /** The part file is open and the record says "in_progress": the loop starts. */
    constructor (r: R.Receiver)
      requires r.phase.Start?
      ensures at == R.Loop && sent == []
      ensures View() == r.(phase := R.Loop, timeouts := 0, status := InProgress)
    {
      timeouts, known, status, confirmed := 0, r.known, InProgress, r.confirmed;
      rows, verified, part, dest := r.rows, r.verified, r.part, r.dest;
      sent := [];
      at := R.Loop;
    }

    /** Leave the loop; a status that still looks active is fixed up. */
    method Leave(failed: bool)
      modifies this`status, this`at
      ensures View() == R.End(old(View()), failed)
    {
      if status.InProgress? || status.AwaitingAcceptance? || status.Pending? {
        status := if failed then Failed else Paused;
      }
      at := R.Ended(false);
    }

    /** Leave through `?`: nothing is fixed up. */
    method Abort()
      modifies this`at
      ensures View() == R.Abort(old(View()))
    {
      at := R.Ended(false);
    }

    // ---- Single actions: what the world answers, and what becomes of the handler

    /** The handler took this outcome as the receiver's step function says. */
    twostate predicate Took(c: Config, inp: Input)
      requires Placed(old(View()))
      reads this
    {
      var t := R.Step(c, old(View()), Met(old(View()), inp));
      View() == t.r && sent == old(sent) + t.out
    }

    /** Seek to the chunk's offset and write the plaintext, or as much of it as the system takes at once. */
    method WritePart(c: Config, m: Message, plain: seq<byte>, got: Input)
      requires m.Chunk? && at == R.Write(m, plain)
      modifies this`part, this`at
      ensures Took(c, got)
      ensures at.Ended? || at == R.Write(m, plain) || at == R.Confirm(m, plain)
    {
      if got.Fault? {
        Abort();
        return;
      }
      var content := match part case Some(f) => f case None => [];
      if got.Torn? && got.count <= |plain| {
        part := Some(WriteAt(content, m.offset, plain[..got.count]));
      } else {
        part := Some(WriteAt(content, m.offset, plain));
        at := R.Confirm(m, plain);
      }
    }

    /** `update_bytes_confirmed`. */
    method ConfirmBytes(c: Config, m: Message, plain: seq<byte>, got: Input)
      requires m.Chunk? && at == R.Confirm(m, plain)
      modifies this`confirmed, this`at
      ensures Took(c, got) && at == if got.Fault? then R.Ended(false) else R.Mark(m, plain)
    {
      if got.Fault? {
        Abort();
      } else {
        confirmed := m.offset + |plain|;
        at := R.Mark(m, plain);
      }
    }

    /** `mark_chunk_verified`: only an existing row can be marked. */
    method MarkVerified(c: Config, m: Message, plain: seq<byte>, got: Input)
      requires m.Chunk? && at == R.Mark(m, plain)
      modifies this`verified, this`at
      ensures Took(c, got) && at == if got.Fault? then R.Ended(false) else R.SendAck(m, plain)
    {
      if got.Fault? {
        Abort();
      } else {
        assert {m.index} * rows == if m.index in rows then {m.index} else {};
        if m.index in rows {
          verified := verified + {m.index};
        }
        at := R.SendAck(m, plain);
      }
    }

    /** Answer with the new confirmed offset. */
    method Acknowledge(c: Config, m: Message, plain: seq<byte>, got: Input)
      requires m.Chunk? && at == R.SendAck(m, plain)
      modifies this`sent, this`at, this`status
      ensures Took(c, got) && at == if got.Broken? then R.Ended(false) else R.Loop
    {
      if got.Broken? {
        Leave(true);
      } else {
        sent := sent + [Ack(m.index, m.offset + |plain|)];
        at := R.Loop;
      }
    }

    /** Record a refusal. */
    method RecordRefusal(c: Config, remove: bool, got: Input)
      requires at == R.Refuse(remove)
      modifies this`status, this`at
      ensures Took(c, got) && at == if !got.Fault? && remove then R.Delete else R.Ended(false)
    {
      if got.Fault? {
        Abort();
      } else {
        status := Failed;
        at := if remove then R.Delete else R.Ended(false);
      }
    }

    /** Flush the part file and compare its hash with the claimed one. */
    method CheckFile(c: Config, claimed: Hash, got: Input)
      requires at == R.CheckFile(claimed)
      modifies this`sent, this`at
      ensures Took(c, got) && (at == R.Refuse(true) || at.Rename? || at.Ended?)
    {
      var content := match part case Some(f) => f case None => [];
      if got.Fault? {
        Abort();
      } else if c.hash(content) != claimed {
        sent := sent + [ErrorMsg];
        at := R.Refuse(true);
      } else {
        at := R.Rename;
      }
    }

    method RenamePart(c: Config, got: Input)
      requires at.Rename?
      modifies this`part, this`dest, this`at
      ensures Took(c, got) && at == if got.Fault? then R.Ended(false) else R.MarkComplete
    {
      if got.Fault? {
        Abort();
      } else {
        dest := Some(match part case Some(f) => f case None => []);
        part := None;
        at := R.MarkComplete;
      }
    }

    method RecordComplete(c: Config, got: Input)
      requires at.MarkComplete?
      modifies this`status, this`at
      ensures Took(c, got) && at == if got.Fault? then R.Ended(false) else R.SendFinal
    {
      if got.Fault? {
        Abort();
      } else {
        status := Complete;
        at := R.SendFinal;
      }
    }

    /** The handler's place is the one the answer names. */
    ghost predicate Leads(next: Next)
      reads this
    {
      match next
      case Leaving => at.Ended?
      case Reading => at.Loop?
      case Storing(m, plain) => m.Chunk? && at == R.Write(m, plain)
      case Checking(claimed) => at == R.CheckFile(claimed)
      case Refusing(remove) => at == R.Refuse(remove)
    }

    /** A poll or read that yields no message. */
    method NoMessage(c: Config, got: Input) returns (next: Next)
      requires at.Loop? && !got.Got?
      modifies this`timeouts, this`sent, this`status, this`at
      ensures Took(c, got) && Leads(next)
    {
      next := Leaving;
      if got.CancelRequest? {
        sent := sent + [CancelMsg];
        Leave(false);
      } else if got.Timeout? {
        timeouts := timeouts + 1;
        if timeouts >= MAX_TIMEOUT_RETRIES {
          Leave(true);
        } else {
          next := Reading;
        }
      } else {
        Leave(true);
      }
    }

    /** A chunk: open it and compare its hash before anything is written. */
    method TakeChunk(c: Config, m: Message) returns (next: Next)
      requires m.Chunk? && at.Loop?
      modifies this`timeouts, this`sent, this`status, this`at
      ensures Took(c, Got(m)) && Leads(next)
    {
      timeouts := 0;
      var content := c.open(m.data);
      if content.None? {
        next := Leaving;
        Leave(true);
      } else if c.hash(content.value) != m.chunkHash {
        sent := sent + [ErrorMsg];
        next := Refusing(true);
        at := R.Refuse(true);
      } else {
        next := Storing(m, content.value);
        at := R.Write(m, content.value);
      }
    }

    /** A message other than a chunk. */
    method TakeOther(c: Config, m: Message) returns (next: Next)
      requires !m.Chunk? && at.Loop?
      modifies this`timeouts, this`status, this`at
      ensures Took(c, Got(m)) && Leads(next)
    {
      if m.CompleteMsg? {
        next := Checking(m.fileHash);
        at := R.CheckFile(m.fileHash);
      } else if m.CancelMsg? {
        next := Leaving;
        Leave(false);
      } else if m.ErrorMsg? {
        next := Refusing(false);
        at := R.Refuse(false);
      } else {
        next := Reading;
        timeouts := 0;
      }
    }

    method TakeMessage(c: Config, m: Message) returns (next: Next)
      requires at.Loop?
      modifies this`timeouts, this`sent, this`status, this`at
      ensures Took(c, Got(m)) && Leads(next)
    {
      if m.Chunk? {
        next := TakeChunk(c, m);
      } else {
        next := TakeOther(c, m);
      }
    }

    /** Answer the claim; whether that fails does not matter any more. */
    method AnswerClaim(c: Config)
      requires at.SendFinal?
      modifies this`sent, this`at
      ensures Took(c, Go(0)) && at.Ended?
    {
      sent := sent + [Ack(FINAL_ACK, |c.src|)];
      at := R.Ended(true);
    }

    // ---- The loop

    /** What is left to run from here, after what was sent so far, is the whole run. */
    ghost predicate OnTrack(c: Config, whole: R.Result, base: seq<Message>, script: seq<Input>)
      reads this
    {
      base <= sent && Placed(View()) && whole == Prepend(sent[|base|..], Run(c, View(), script))
    }

    /** Write once; `going` says that something is left to write. */
    method WriteOnce(c: Config, m: Message, plain: seq<byte>, script: seq<Input>,
                     ghost whole: R.Result, ghost base: seq<Message>)
      returns (going: bool, go: bool)
      requires m.Chunk? && at == R.Write(m, plain) && script != [] && OnTrack(c, whole, base, script)
      modifies this`part, this`at
      ensures OnTrack(c, whole, base, script[1..]) && !(going && go)
      ensures if going then at == R.Write(m, plain) else if go then at == R.Confirm(m, plain) else at.Ended?
    {
      AskStep(c, sent[|base|..], View(), script);
      WritePart(c, m, plain, script[0]);
      going := script[0].Torn? && script[0].count <= |plain|;
      go := !going && !script[0].Fault?;
    }

    /** Write all of the chunk, in as many pieces as it takes. */
    method WriteAllOf(c: Config, m: Message, plain: seq<byte>, script: seq<Input>,
                      ghost whole: R.Result, ghost base: seq<Message>)
      returns (rest: seq<Input>, go: bool)
      requires m.Chunk? && at == R.Write(m, plain) && OnTrack(c, whole, base, script)
      modifies this`part, this`at
      ensures OnTrack(c, whole, base, rest) && |rest| <= |script|
      ensures if go then at == R.Confirm(m, plain) else Halted(View(), rest)
    {
      rest, go := script, false;
      var going := true;
      while rest != [] && going
        invariant OnTrack(c, whole, base, rest) && |rest| <= |script| && !(going && go)
        invariant if going then at == R.Write(m, plain) else if go then at == R.Confirm(m, plain) else at.Ended?
        decreases |rest|
      {
        going, go := WriteOnce(c, m, plain, rest, whole, base);
        rest := rest[1..];
      }
    }

    /** Confirm the written chunk. */
    method ConfirmOnce(c: Config, m: Message, plain: seq<byte>, script: seq<Input>,
                       ghost whole: R.Result, ghost base: seq<Message>)
      requires m.Chunk? && at == R.Confirm(m, plain) && script != [] && OnTrack(c, whole, base, script)
      modifies this`confirmed, this`at
      ensures OnTrack(c, whole, base, script[1..])
      ensures at == if script[0].Fault? then R.Ended(false) else R.Mark(m, plain)
    {
      AskStep(c, sent[|base|..], View(), script);
      ConfirmBytes(c, m, plain, script[0]);
    }

    method RecordBytes(c: Config, m: Message, plain: seq<byte>, script: seq<Input>,
                       ghost whole: R.Result, ghost base: seq<Message>)
      returns (rest: seq<Input>, go: bool)
      requires m.Chunk? && at == R.Confirm(m, plain) && OnTrack(c, whole, base, script)
      modifies this`confirmed, this`at
      ensures OnTrack(c, whole, base, rest) && |rest| <= |script|
      ensures if go then at == R.Mark(m, plain) else Halted(View(), rest)
    {
      rest, go := script, false;
      if rest == [] { return; }
      ConfirmOnce(c, m, plain, rest, whole, base);
      go := !rest[0].Fault?;
      rest := rest[1..];
    }

    /** Mark its row. */
    method MarkOnce(c: Config, m: Message, plain: seq<byte>, script: seq<Input>,
                    ghost whole: R.Result, ghost base: seq<Message>)
      requires m.Chunk? && at == R.Mark(m, plain) && script != [] && OnTrack(c, whole, base, script)
      modifies this`verified, this`at
      ensures OnTrack(c, whole, base, script[1..])
      ensures at == if script[0].Fault? then R.Ended(false) else R.SendAck(m, plain)
    {
      AskStep(c, sent[|base|..], View(), script);
      MarkVerified(c, m, plain, script[0]);
    }

    method RecordRow(c: Config, m: Message, plain: seq<byte>, script: seq<Input>,
                     ghost whole: R.Result, ghost base: seq<Message>)
      returns (rest: seq<Input>, go: bool)
      requires m.Chunk? && at == R.Mark(m, plain) && OnTrack(c, whole, base, script)
      modifies this`verified, this`at
      ensures OnTrack(c, whole, base, rest) && |rest| <= |script|
      ensures if go then at == R.SendAck(m, plain) else Halted(View(), rest)
    {
      rest, go := script, false;
      if rest == [] { return; }
      MarkOnce(c, m, plain, rest, whole, base);
      go := !rest[0].Fault?;
      rest := rest[1..];
    }

    /** Send the acknowledgement. */
    method AnswerOnce(c: Config, m: Message, plain: seq<byte>, script: seq<Input>,
                      ghost whole: R.Result, ghost base: seq<Message>)
      requires m.Chunk? && at == R.SendAck(m, plain) && script != [] && OnTrack(c, whole, base, script)
      modifies this`sent, this`status, this`at
      ensures OnTrack(c, whole, base, script[1..]) && at == if script[0].Broken? then R.Ended(false) else R.Loop
    {
      AskStep(c, sent[|base|..], View(), script);
      Acknowledge(c, m, plain, script[0]);
    }

    method AnswerChunk(c: Config, m: Message, plain: seq<byte>, script: seq<Input>,
                       ghost whole: R.Result, ghost base: seq<Message>)
      returns (rest: seq<Input>, go: bool)
      requires m.Chunk? && at == R.SendAck(m, plain) && OnTrack(c, whole, base, script)
      modifies this`sent, this`status, this`at
      ensures OnTrack(c, whole, base, rest) && |rest| <= |script|
      ensures if go then at.Loop? else Halted(View(), rest)
    {
      rest, go := script, false;
      if rest == [] { return; }
      AnswerOnce(c, m, plain, rest, whole, base);
      go := !rest[0].Broken?;
      rest := rest[1..];
    }

    /** Write, confirm, mark, acknowledge, in this order. */
    method StoreChunk(c: Config, m: Message, plain: seq<byte>, script: seq<Input>,
                      ghost whole: R.Result, ghost base: seq<Message>)
      returns (rest: seq<Input>, go: bool)
      requires m.Chunk? && at == R.Write(m, plain) && OnTrack(c, whole, base, script)
      modifies this
      ensures OnTrack(c, whole, base, rest) && |rest| <= |script|
      ensures if go then at.Loop? else Halted(View(), rest)
    {
      rest, go := WriteAllOf(c, m, plain, script, whole, base);
      if go { rest, go := RecordBytes(c, m, plain, rest, whole, base); }
      if go { rest, go := RecordRow(c, m, plain, rest, whole, base); }
      if go { rest, go := AnswerChunk(c, m, plain, rest, whole, base); }
    }

    /** Record the refusal, then remove the part file if it is to go. */
    method Refuse(c: Config, remove: bool, script: seq<Input>, ghost whole: R.Result, ghost base: seq<Message>)
      returns (rest: seq<Input>)
      requires at == R.Refuse(remove) && OnTrack(c, whole, base, script)
      modifies this`sent, this`status, this`part, this`at
      ensures OnTrack(c, whole, base, rest) && |rest| <= |script| && Halted(View(), rest)
    {
      rest := script;
      if rest == [] { return; }
      AskStep(c, sent[|base|..], View(), rest);
      RecordRefusal(c, remove, rest[0]);
      var failed := rest[0].Fault?;
      rest := rest[1..];
      if !failed && remove {
        Remove(c, rest, whole, base);
      }
    }

    method Remove(c: Config, ghost script: seq<Input>, ghost whole: R.Result, ghost base: seq<Message>)
      requires at.Delete? && OnTrack(c, whole, base, script)
      modifies this`part, this`at
      ensures at.Ended? && OnTrack(c, whole, base, script)
    {
      ActStep(c, sent[|base|..], View(), script);
      part := None;
      at := R.Ended(false);
    }

    /** Check the whole file; rename it and answer, or refuse it. */
    method CompleteFile(c: Config, claimed: Hash, script: seq<Input>, ghost whole: R.Result, ghost base: seq<Message>)
      returns (rest: seq<Input>)
      requires at == R.CheckFile(claimed) && OnTrack(c, whole, base, script)
      modifies this
      ensures OnTrack(c, whole, base, rest) && |rest| <= |script| && Halted(View(), rest)
    {
      rest := script;
      if rest == [] { return; }
      AskStep(c, sent[|base|..], View(), rest);
      var matches := c.hash(match part case Some(f) => f case None => []) == claimed;
      CheckFile(c, claimed, rest[0]);
      var failed := rest[0].Fault?;
      rest := rest[1..];
      if failed {
      } else if matches {
        rest := Deliver(c, rest, whole, base);
      } else {
        rest := Refuse(c, true, rest, whole, base);
      }
    }

    /** Rename the part file. */
    method Deliver(c: Config, script: seq<Input>, ghost whole: R.Result, ghost base: seq<Message>)
      returns (rest: seq<Input>)
      requires at.Rename? && OnTrack(c, whole, base, script)
      modifies this
      ensures OnTrack(c, whole, base, rest) && |rest| <= |script| && Halted(View(), rest)
    {
      rest := script;
      if rest == [] { return; }
      AskStep(c, sent[|base|..], View(), rest);
      RenamePart(c, rest[0]);
      var failed := rest[0].Fault?;
      rest := rest[1..];
      if !failed {
        rest := Finish(c, rest, whole, base);
      }
    }

    /** Record the completion, answer. */
    method Finish(c: Config, script: seq<Input>, ghost whole: R.Result, ghost base: seq<Message>)
      returns (rest: seq<Input>)
      requires at.MarkComplete? && OnTrack(c, whole, base, script)
      modifies this
      ensures OnTrack(c, whole, base, rest) && |rest| <= |script| && Halted(View(), rest)
    {
      rest := script;
      if rest == [] { return; }
      AskStep(c, sent[|base|..], View(), rest);
      RecordComplete(c, rest[0]);
      var failed := rest[0].Fault?;
      rest := rest[1..];
      if !failed {
        FinalAck(c, rest, whole, base);
      }
    }

    method FinalAck(c: Config, ghost script: seq<Input>, ghost whole: R.Result, ghost base: seq<Message>)
      requires at.SendFinal? && OnTrack(c, whole, base, script)
      modifies this`sent, this`at
      ensures at.Ended? && OnTrack(c, whole, base, script)
    {
      ActStep(c, sent[|base|..], View(), script);
      AnswerClaim(c);
    }

    method HearMessage(c: Config, script: seq<Input>, ghost whole: R.Result, ghost base: seq<Message>)
      returns (next: Next)
      requires at.Loop? && script != [] && script[0].Got? && OnTrack(c, whole, base, script)
      modifies this`timeouts, this`sent, this`status, this`at
      ensures OnTrack(c, whole, base, script[1..]) && Leads(next)
    {
      AskStep(c, sent[|base|..], View(), script);
      next := TakeMessage(c, script[0].msg);
    }

    method HearNothing(c: Config, script: seq<Input>, ghost whole: R.Result, ghost base: seq<Message>)
      returns (next: Next)
      requires at.Loop? && script != [] && !script[0].Got? && OnTrack(c, whole, base, script)
      modifies this`timeouts, this`sent, this`status, this`at
      ensures OnTrack(c, whole, base, script[1..]) && Leads(next)
    {
      AskStep(c, sent[|base|..], View(), script);
      next := NoMessage(c, script[0]);
    }

    /** The poll or read that begins a turn. */
    method TakeTurn(c: Config, script: seq<Input>, ghost whole: R.Result, ghost base: seq<Message>)
      returns (next: Next)
      requires at.Loop? && script != [] && OnTrack(c, whole, base, script)
      modifies this`timeouts, this`sent, this`status, this`at
      ensures OnTrack(c, whole, base, script[1..]) && Leads(next)
    {
      if script[0].Got? {
        next := HearMessage(c, script, whole, base);
      } else {
        next := HearNothing(c, script, whole, base);
      }
    }

    /** One turn of the loop: one poll or read, and what follows from it. */
    method Turn(c: Config, script: seq<Input>, ghost whole: R.Result, ghost base: seq<Message>)
      returns (rest: seq<Input>, again: bool)
      requires at.Loop? && script != [] && OnTrack(c, whole, base, script)
      modifies this
      ensures OnTrack(c, whole, base, rest) && |rest| < |script|
      ensures if again then at.Loop? else Halted(View(), rest)
    {
      var next := TakeTurn(c, script, whole, base);
      rest, again := script[1..], next.Reading?;
      match next
      case Storing(m, plain) => rest, again := StoreChunk(c, m, plain, rest, whole, base);
      case Checking(claimed) => rest := CompleteFile(c, claimed, rest, whole, base);
      case Refusing(remove) => rest := Refuse(c, remove, rest, whole, base);
      case _ =>
    }

    /** The loop until it is left, against a script of outcomes. */
    method Receive(c: Config, script: seq<Input>)
      requires at.Loop?
      modifies this
      ensures var whole := Run(c, old(View()), script);
        View() == whole.r && sent == old(sent) + whole.out
    {
      ghost var whole, base := Run(c, View(), script), sent;
      var rest, again := script, true;
      while again && rest != []
        invariant (if again then at.Loop? else Halted(View(), rest)) && OnTrack(c, whole, base, rest)
        decreases |rest|
      {
        rest, again := Turn(c, rest, whole, base);
      }
    }
  }
}
