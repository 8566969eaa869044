/**
 The sending side of a transfer session: one step of `handle_outgoing_transfer(_inner)`.

 A phase is a place where the handler stops for the outside world: a poll of the cancel token, a read,
 or an action another party can see.
 */
module Sender {
  import opened Common
  import opened ChunkPlan
  import opened Transfer

  datatype Phase =
    | Idle               // no session
    | Requested          // request sent, status not yet updated
    | AwaitAnswer
    | AtChunk(i: nat)    // top of the chunk loop
    | Window(i: nat)     // chunk i is selected; wait until fewer than 50 acks are pending
    | Drain
    | AwaitFinal
    | Ended

  datatype Sender = Sender(
    phase: Phase,
    pending: nat,
    resumeFrom: nat,
    missing: Option<set<nat>>,
    timeouts: nat,
    status: Status,
    confirmed: nat,
    acked: bool)         // the last session ended with the final acknowledgement

  datatype Result = Result(s: Sender, out: seq<Message>)

  predicate Streaming(s: Sender) {
    s.phase.AtChunk? || s.phase.Window? || s.phase.Drain? || s.phase.AwaitFinal?
  }

  predicate Waiting(s: Sender) {
    (s.phase.Window? && s.pending >= MAX_PENDING_ACKS) || (s.phase.Drain? && s.pending > 0)
  }

  /** Number of plan entries already dealt with. */
  function Pos(c: Config, s: Sender): nat {
    match s.phase
    case AtChunk(i) => i
    case Window(i) => i
    case _ => c.N()
  }

  function End(s: Sender, failed: bool): Sender {
    s.(phase := Ended, status := Settle(s.status, failed))
  }

  /** The inputs a phase can meet. */
  predicate Ready(c: Config, s: Sender, inp: Input) {
    match s.phase
    case Idle => inp.Go? || inp.Fault?
    case Requested => inp.Go? || inp.Fault?
    case AwaitAnswer => inp.Got? || inp.Timeout? || inp.Broken?
    case AtChunk(i) => inp.Go? || (i < c.N() && (inp.CancelRequest? || inp.CrashToken?))
    case Window(i) =>
      if Waiting(s) then inp.Got? || inp.Timeout? || inp.Broken? || inp.CancelRequest? || inp.CrashToken? || inp.Fault?
      else inp.Go? || inp.Fault?
    case Drain =>
      if Waiting(s) then inp.Got? || inp.Timeout? || inp.Broken? || inp.CancelRequest? || inp.CrashToken? || inp.Fault?
      else inp.Go? || inp.Fault?
    case AwaitFinal => inp.Got? || inp.Timeout? || inp.Broken? || inp.Fault?
    case Ended => false
  }

  function ChunkMessage(c: Config, i: nat, nonce: nat): Message
    requires c.Valid() && i < c.N()
  {
    var plain := c.Data(i);
    Chunk(c.plan[i].index, c.plan[i].offset, c.seal(nonce, plain), c.hash(plain))
  }

  /** One turn of the two loops that wait for acknowledgements. */
  function Wait(s: Sender, inp: Input): Result {
    match inp
    case CancelRequest => Result(End(s, false), [CancelMsg])
    case CrashToken => Result(End(s, true), [])
    case Got(Ack(_, bytes)) =>
      Result(s.(timeouts := 0, pending := if s.pending == 0 then 0 else s.pending - 1, confirmed := bytes), [])
    case Got(ErrorMsg) => Result(End(s, true), [])
    case Got(CancelMsg) => Result(End(s, false), [])
    case Got(_) => Result(s.(timeouts := 0), [])
    case Timeout =>
      if s.timeouts + 1 >= MAX_TIMEOUT_RETRIES then Result(End(s.(timeouts := s.timeouts + 1), true), [])
      else Result(s.(timeouts := s.timeouts + 1), [])
    case _ => Result(End(s, true), [])
  }

  function Step(c: Config, s: Sender, inp: Input): Result
    requires c.Valid() && (s.phase.Window? ==> s.phase.i < c.N())
  {
    match s.phase
    case Idle =>
      if inp.Fault? then Result(End(s.(acked := false), true), []) else
      Result(s.(phase := Requested, acked := false), [Request])
    case Requested =>
      if inp.Fault? then Result(End(s, true), []) else
      Result(s.(phase := AwaitAnswer, status := AwaitingAcceptance), [])
    case AwaitAnswer =>
      (match inp
       case Got(Acceptance(true, resumeFrom, missing)) =>
         Result(s.(phase := AtChunk(0), pending := 0, resumeFrom := resumeFrom, missing := missing,
                   status := InProgress, confirmed := resumeFrom), [])
       case Got(Acceptance(false, _, _)) => Result(s.(phase := Ended, status := Declined), [])
       case _ => Result(End(s, true), []))
    case AtChunk(i) =>
      if i >= c.N() then Result(s.(phase := Drain, timeouts := 0), [])
      else if inp.CancelRequest? then Result(End(s, false), [CancelMsg])
      else if inp.CrashToken? then Result(End(s, true), [])
      else if !Selected(c, s.resumeFrom, s.missing, i) then Result(s.(phase := AtChunk(i + 1)), [])
      else Result(s.(phase := Window(i), timeouts := 0), [])
    case Window(i) =>
      if Waiting(s) then Wait(s, inp)
      else if !inp.Go? then Result(End(s, true), [])
      else Result(s.(phase := AtChunk(i + 1), pending := s.pending + 1), [ChunkMessage(c, i, inp.nonce)])
    case Drain =>
      if Waiting(s) then Wait(s, inp)
      else if inp.Fault? then Result(End(s, true), [])
      else Result(s.(phase := AwaitFinal), [CompleteMsg(c.fileHash)])
    case AwaitFinal =>
      (match inp
       case Got(Ack(_, _)) => Result(s.(phase := Ended, status := Complete, acked := true), [])
       case Got(ErrorMsg) => Result(s.(phase := Ended, status := Failed), [])
       case _ => Result(End(s, true), []))
    case Ended => Result(s, [])
  }
}
