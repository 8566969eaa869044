/**
 The receiving side of a transfer session: one step of `handle_incoming_transfer_inner`.

 Each phase change performs at most one durable action (a database update or a file operation), so that
 a crash between any two steps leaves exactly the durable state of some phase.
 */
module Receiver {
  import opened Common
  import opened ChunkPlan
  import opened Disk
  import opened Transfer

  datatype Phase =
    | Idle                          // waiting for a request
    | CheckSpace
    | InsertRows                    // record created, chunk rows not yet inserted
    | Decide                        // waiting for the user
    | OpenPart                      // acceptance sent, part file not yet opened
    | Start                         // status not yet "in_progress"
    | Loop
    | Write(m: Message, plain: seq<byte>)
    | Confirm(m: Message, plain: seq<byte>)
    | Mark(m: Message, plain: seq<byte>)
    | SendAck(m: Message, plain: seq<byte>)
    | CheckFile(claimed: Hash)
    | Rename
    | MarkComplete
    | SendFinal
    | Refuse(remove: bool)          // mismatch reported, or peer's error received; not yet recorded
    | Delete                        // recorded, part file not yet removed
    | Ended(done: bool)

  datatype Receiver = Receiver(
    phase: Phase,
    timeouts: nat,
    // the record and its chunk rows
    known: bool,
    status: Status,
    confirmed: nat,
    rows: set<nat>,
    verified: set<nat>,
    // the disk
    part: Option<seq<byte>>,
    dest: Option<seq<byte>>)

  datatype Result = Result(r: Receiver, out: seq<Message>)

  predicate Refusing(r: Receiver) { r.phase.Refuse? || r.phase.Delete? }

  /** Accepted, and still able to process chunks or complete. */
  predicate Live(r: Receiver) {
    !r.phase.Idle? && !r.phase.CheckSpace? && !r.phase.InsertRows? && !r.phase.Decide?
    && !Refusing(r) && !r.phase.Ended?
  }

  /** A chunk has been taken from the channel and not yet acknowledged. */
  predicate Busy(r: Receiver) {
    r.phase.Write? || r.phase.Confirm? || r.phase.Mark? || r.phase.SendAck?
  }

  predicate Completing(r: Receiver) {
    r.phase.CheckFile? || r.phase.Rename? || r.phase.MarkComplete? || r.phase.SendFinal?
  }

  /** What the part file holds; an absent file will be created empty. */
  function Bytes(r: Receiver): seq<byte> {
    match r.part case Some(f) => f case None => []
  }

  function AllRows(c: Config): set<nat> { set m | m in c.plan :: m.index }

  /** The record says that the transfer can be taken up where it stopped. */
  predicate Resumable(r: Receiver) { r.known && (r.status.InProgress? || r.status.Paused?) }

  /** The resume rule. */
  function ResumeFrom(r: Receiver): nat { if Resumable(r) then r.confirmed else 0 }

  function Missing(r: Receiver): Option<set<nat>> {
    if Resumable(r) && r.rows - r.verified != {}
    then Some(r.rows - r.verified)
    else None
  }

  function End(r: Receiver, failed: bool): Receiver {
    r.(phase := Ended(false), status := Settle(r.status, failed))
  }

  /** Leaving through `?` skips the status fix-up. */
  function Abort(r: Receiver): Receiver {
    r.(phase := Ended(false))
  }

  predicate Ready(r: Receiver, inp: Input) {
    match r.phase
    case Idle => inp.Got? || inp.Broken?
    case CheckSpace => inp.Go? || inp.NoSpace? || inp.Fault?
    case Decide => inp.Accept? || inp.Decline? || inp.Timeout? || inp.Fault?
    case OpenPart => inp.Go? || inp.Moved? || inp.Fault?
    case Loop => inp.Got? || inp.Timeout? || inp.Broken? || inp.CancelRequest? || inp.CrashToken?
    case Write(_, plain) => inp.Go? || inp.Fault? || (inp.Torn? && inp.count <= |plain|)
    case SendAck(_, _) => inp.Go? || inp.Broken?
    case SendFinal => inp.Go?
    case Delete => inp.Go?
    case Ended(_) => false
    case _ => inp.Go? || inp.Fault?
  }

  /** One read of the receive loop. */
  function Receive(c: Config, r: Receiver, inp: Input): Result {
    match inp
    case CancelRequest => Result(End(r, false), [CancelMsg])
    case CrashToken => Result(End(r, true), [])
    case Got(Chunk(index, offset, data, chunkHash)) =>
      (match c.open(data)
       case None => Result(End(r.(timeouts := 0), true), [])
       case Some(plain) =>
         if c.hash(plain) != chunkHash
         then Result(r.(timeouts := 0, phase := Refuse(true)), [ErrorMsg])
         else Result(r.(timeouts := 0, phase := Write(inp.msg, plain)), []))
    case Got(CompleteMsg(claimed)) => Result(r.(phase := CheckFile(claimed)), [])
    case Got(CancelMsg) => Result(End(r, false), [])
    case Got(ErrorMsg) => Result(r.(phase := Refuse(false)), [])
    case Got(_) => Result(r.(timeouts := 0), [])
    case Timeout =>
      if r.timeouts + 1 >= MAX_TIMEOUT_RETRIES then Result(End(r.(timeouts := r.timeouts + 1), true), [])
      else Result(r.(timeouts := r.timeouts + 1), [])
    case _ => Result(End(r, true), [])
  }

  function Step(c: Config, r: Receiver, inp: Input): Result
    requires Busy(r) ==> r.phase.m.Chunk?
  {
    if inp.Fault? then Result(Abort(r), []) else
    match r.phase
    case Idle =>
      if inp.Got? && inp.msg.Request? then Result(r.(phase := CheckSpace), []) else Result(Abort(r), [])
    case CheckSpace =>
      if inp.NoSpace? then Result(Abort(r), [ErrorMsg])
      else if r.known then Result(r.(phase := Decide), [])
      else Result(r.(phase := InsertRows, known := true, status := Pending, confirmed := 0), [])
    case InsertRows => Result(r.(phase := Decide, rows := r.rows + AllRows(c)), [])
    case Decide =>
      (match inp
       case Accept => Result(r.(phase := OpenPart), [Acceptance(true, ResumeFrom(r), Missing(r))])
       case Decline => Result(r.(phase := Ended(false), status := Declined), [Acceptance(false, 0, None)])
       case _ => Result(r.(phase := Ended(false), status := Failed), []))
    case OpenPart =>
      if inp.Moved?
      then Result(r.(phase := Start, part := Some(match inp.content case Some(f) => f case None => [])), [])
      else Result(r.(phase := Start, part := Some(Bytes(r))), [])
    case Start => Result(r.(phase := Loop, timeouts := 0, status := InProgress), [])
    case Loop => Receive(c, r, inp)
    case Write(m, plain) =>
      if inp.Torn? && inp.count <= |plain|
      then Result(r.(part := Some(WriteAt(Bytes(r), m.offset, plain[..inp.count]))), [])
      else Result(r.(phase := Confirm(m, plain), part := Some(WriteAt(Bytes(r), m.offset, plain))), [])
    case Confirm(m, plain) => Result(r.(phase := Mark(m, plain), confirmed := m.offset + |plain|), [])
    case Mark(m, plain) =>
      Result(r.(phase := SendAck(m, plain), verified := r.verified + ({m.index} * r.rows)), [])
    case SendAck(m, plain) =>
      if inp.Broken? then Result(End(r, true), [])
      else Result(r.(phase := Loop), [Ack(m.index, m.offset + |plain|)])
    case CheckFile(claimed) =>
      if c.hash(Bytes(r)) != claimed
      then Result(r.(phase := Refuse(true)), [ErrorMsg])
      else Result(r.(phase := Rename), [])
    case Rename => Result(r.(phase := MarkComplete, dest := Some(Bytes(r)), part := None), [])
    case MarkComplete => Result(r.(phase := SendFinal, status := Complete), [])
    case SendFinal => Result(r.(phase := Ended(true)), [Ack(FINAL_ACK, |c.src|)])
    case Refuse(remove) => Result(r.(phase := if remove then Delete else Ended(false), status := Failed), [])
    case Delete => Result(r.(phase := Ended(false), part := None), [])
    case Ended(_) => Result(r, [])
  }
}
