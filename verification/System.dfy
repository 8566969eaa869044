/**
 The two handlers of one transfer, their FIFO channels, and any number of sessions.

 A session starts when the sender runs its handler.  A `Cut` lies between sessions: each handler has returned
 or its process dies, which may be at any moment; volatile state and channels are lost, the databases and the
 disk stay, and a process that starts again first marks unfinished transfers as failed.
 */
module System {
  import opened Common
  import opened Transfer
  import S = Sender
  import R = Receiver

  datatype System = System(
    snd: S.Sender,
    rcv: R.Receiver,
    toR: seq<Message>,
    toS: seq<Message>,
    tainted: bool)        // the part file has been removed or replaced since the transfer began

  /** A cut says for either side whether its process dies and starts again. */
  datatype Event = SenderStep(inp: Input) | ReceiverStep(inp: Input) | Cut(senderDies: bool, receiverDies: bool)

  predicate Heads(q: seq<Message>, inp: Input) {
    inp.Got? ==> q != [] && inp.msg == q[0]
  }

  function Rest(q: seq<Message>, inp: Input): seq<Message>
    requires Heads(q, inp)
  {
    if inp.Got? then q[1..] else q
  }

  /** The sender never stands on a chunk that does not exist, and the receiver only writes chunks. */
  predicate Typed(c: Config, s: System) {
    && (s.snd.phase.Window? ==> s.snd.phase.i < c.N())
    && (s.snd.phase.AtChunk? ==> s.snd.phase.i <= c.N())
    && (R.Busy(s.rcv) ==> s.rcv.phase.m.Chunk?)
  }

  predicate Enabled(c: Config, s: System, e: Event) {
    match e
    case SenderStep(inp) => S.Ready(c, s.snd, inp) && Heads(s.toS, inp)
    case ReceiverStep(inp) => !s.snd.phase.Idle? && R.Ready(s.rcv, inp) && Heads(s.toR, inp)
    case Cut(sd, rd) =>
      (sd || s.snd.phase.Idle? || s.snd.phase.Ended?) && (rd || s.rcv.phase.Idle? || s.rcv.phase.Ended?)
  }

  /** The system after the sender took `inp` and produced `res`. */
  function AfterSender(s: System, inp: Input, res: S.Result): System
    requires Heads(s.toS, inp)
  {
    s.(snd := res.s, toS := Rest(s.toS, inp), toR := s.toR + res.out)
  }

  function AfterReceiver(s: System, inp: Input, res: R.Result): System
    requires Heads(s.toR, inp)
  {
    s.(rcv := res.r, toR := Rest(s.toR, inp), toS := s.toS + res.out,
       tainted := s.tainted || inp.Moved? || (s.rcv.part.Some? && res.r.part.None?))
  }

  function SenderMoves(c: Config, s: System, inp: Input): System
    requires c.Valid() && Typed(c, s) && Heads(s.toS, inp)
  {
    AfterSender(s, inp, S.Step(c, s.snd, inp))
  }

  function ReceiverMoves(c: Config, s: System, inp: Input): System
    requires c.Valid() && Typed(c, s) && Heads(s.toR, inp)
  {
    AfterReceiver(s, inp, R.Step(c, s.rcv, inp))
  }

  /** Opening the store at a process start: no record may look as if its transfer were going on. */
  function Swept(status: Status): Status {
    if status in {Pending, AwaitingAcceptance, InProgress, Paused} then Failed else status
  }

  /** Both handlers and the connection are gone; a side that died has opened its store again. */
  function CutOff(s: System, senderDies: bool, receiverDies: bool): System {
    s.(snd := s.snd.(phase := S.Idle, status := if senderDies then Swept(s.snd.status) else s.snd.status),
       rcv := s.rcv.(phase := R.Idle, status := if receiverDies then Swept(s.rcv.status) else s.rcv.status),
       toR := [], toS := [])
  }

  function Apply(c: Config, s: System, e: Event): System
    requires c.Valid() && Typed(c, s) && Enabled(c, s, e)
  {
    match e
    case SenderStep(inp) => SenderMoves(c, s, inp)
    case ReceiverStep(inp) => ReceiverMoves(c, s, inp)
    case Cut(sd, rd) => CutOff(s, sd, rd)
  }

  /** Nothing has happened yet.  The part path may hold anything, for instance another transfer's leftovers. */
  predicate Initial(s: System) {
    && s.snd.phase.Idle? && !s.snd.acked
    && s.rcv.phase.Idle? && !s.rcv.known && s.rcv.rows == {} && s.rcv.verified == {} && s.rcv.confirmed == 0
    && s.rcv.dest.None?
    && s.toR == [] && s.toS == [] && !s.tainted
  }

  ghost predicate Follows(c: Config, s: System, t: System)
    requires c.Valid()
  {
    Typed(c, s) && exists e :: Enabled(c, s, e) && t == Apply(c, s, e)
  }

  /** `run` is a history of the transfer: it starts fresh and each state follows from the one before. */
  ghost predicate IsRun(c: Config, run: seq<System>)
    requires c.Valid()
  {
    run != [] && Initial(run[0]) && forall i | 0 < i < |run| :: Follows(c, run[i - 1], run[i])
  }

  // ---- Counting what is in the channels

  /** Indices of the chunk messages of a channel, in order. */
  function Ids(q: seq<Message>): seq<nat> {
    if q == [] then [] else (if q[0].Chunk? then [q[0].index] else []) + Ids(q[1..])
  }

  function Acks(q: seq<Message>): nat {
    if q == [] then 0 else (if q[0].Ack? then 1 else 0) + Acks(q[1..])
  }

  lemma {:induction false} IdsAppend(q: seq<Message>, m: Message)
    ensures Ids(q + [m]) == Ids(q) + (if m.Chunk? then [m.index] else [])
  {
    if q == [] {
      assert [m][1..] == [];
    } else {
      var head := if q[0].Chunk? then [q[0].index] else [];
      var tail := if m.Chunk? then [m.index] else [];
      assert (q + [m])[0] == q[0] && (q + [m])[1..] == q[1..] + [m];
      IdsAppend(q[1..], m);
      assert head + (Ids(q[1..]) + tail) == head + Ids(q[1..]) + tail;
    }
  }

  lemma {:induction false} AcksAppend(q: seq<Message>, m: Message)
    ensures Acks(q + [m]) == Acks(q) + (if m.Ack? then 1 else 0)
  {
    if q == [] {
      assert [m][1..] == [];
    } else {
      assert (q + [m])[1..] == q[1..] + [m];
      AcksAppend(q[1..], m);
    }
  }

  function InHand(r: R.Receiver): nat { if R.Busy(r) then 1 else 0 }
}
