/**
 What a receiver takes from its peer, whoever that is and whatever it sends.

 A chunk counts only if it opens and its plaintext has the hash that came with it.  Everything the receiver
 writes, confirms and marks comes from such chunks, and a chunk whose hash differs ends the session.
 */
module Intake {
  import opened Common
  import opened Disk
  import opened Transfer
  import R = Receiver
  import RL = ReceiveLoop

  /** The chunk opens. */
  predicate Opens(c: Config, m: Message) { m.Chunk? && c.open(m.data).Some? }

  function Plain(c: Config, m: Message): seq<byte>
    requires Opens(c, m)
  {
    c.open(m.data).value
  }

  /** The chunk opens and its plaintext has the hash that came with it. */
  predicate Genuine(c: Config, m: Message) { Opens(c, m) && c.hash(Plain(c, m)) == m.chunkHash }

  // ---- One chunk, and whatever comes after it

  /** A chunk that is read is going to be written exactly if it is genuine. */
  lemma WrittenIff(c: Config, r: R.Receiver, m: Message)
    requires r.phase.Loop? && m.Chunk?
    ensures var t := R.Step(c, r, Got(m));
      && (t.r.phase.Write? <==> Genuine(c, m))
      && (Genuine(c, m) ==> t.r.phase == R.Write(m, Plain(c, m)) && t.out == [])
  {
  }

  lemma {:induction false} RunFirst(c: Config, r: R.Receiver, inp: Input, later: seq<Input>)
    requires RL.Placed(r) && RL.Asks(r)
    ensures var t := R.Step(c, r, RL.Met(r, inp));
      RL.Placed(t.r) && RL.Run(c, r, [inp] + later) == RL.Prepend(t.out, RL.Run(c, t.r, later))
  {
    assert ([inp] + later)[0] == inp && ([inp] + later)[1..] == later;
    RL.StepPlaced(c, r, RL.Met(r, inp));
  }

  /** A refused transfer, from the report of the mismatch on. */
  lemma {:induction false} RefusalRun(c: Config, r: R.Receiver, later: seq<Input>)
    requires r.phase == R.Refuse(true)
    ensures var t := RL.Run(c, r, later);
      && t.out == []
      && t.r == if later == [] then r
                else if later[0].Fault? then r.(phase := R.Ended(false))
                else r.(phase := R.Ended(false), status := Failed, part := None)
  {
    if later != [] {
      RunFirst(c, r, later[0], later[1..]);
      assert later == [later[0]] + later[1..];
    }
  }

  /** A chunk that opens and whose hash differs: whatever comes later, the error is all that is sent from there on and
      nothing of the chunk is written, confirmed or marked; once that is recorded, the transfer is failed and the
      part file gone. */
  lemma {:induction false} ForgedEndsRun(c: Config, r: R.Receiver, m: Message, later: seq<Input>)
    requires r.phase.Loop? && Opens(c, m) && !Genuine(c, m)
    ensures var t := RL.Run(c, r, [Got(m)] + later);
      && t.out == [ErrorMsg]
      && t.r.confirmed == r.confirmed && t.r.verified == r.verified && t.r.rows == r.rows && t.r.dest == r.dest
      && (later == [] || later[0].Fault? ==> t.r.part == r.part && t.r.status == r.status)
      && (later != [] && !later[0].Fault? ==>
            t.r.phase == R.Ended(false) && t.r.status.Failed? && t.r.part.None?)
  {
    RunFirst(c, r, Got(m), later);
    RefusalRun(c, R.Step(c, r, Got(m)).r, later);
  }

  /** A chunk that does not open ends the session at once, without a word. */
  lemma {:induction false} SealedEndsRun(c: Config, r: R.Receiver, m: Message, later: seq<Input>)
    requires r.phase.Loop? && m.Chunk? && !Opens(c, m)
    ensures RL.Run(c, r, [Got(m)] + later) == R.Result(R.End(r.(timeouts := 0), true), [])
  {
    RunFirst(c, r, Got(m), later);
  }

  // ---- A series of chunks

  /** A message is read, then four operations succeed, then `later`. */
  function OneThen(m: Message, later: seq<Input>): seq<Input> {
    [Got(m)] + ([Go(0)] + ([Go(0)] + ([Go(0)] + ([Go(0)] + later))))
  }

  /** Each message is read, and its write, its confirmation, its mark and its answer succeed; then `later`. */
  function Smoothly(ms: seq<Message>, later: seq<Input>): seq<Input>
    decreases |ms|
  {
    if ms == [] then later else OneThen(ms[0], Smoothly(ms[1..], later))
  }

  function End(c: Config, m: Message): nat
    requires Genuine(c, m)
  {
    m.offset + |Plain(c, m)|
  }

  ghost predicate AllGenuine(c: Config, ms: seq<Message>) { forall i | 0 <= i < |ms| :: Genuine(c, ms[i]) }

  /** The plaintexts written at their offsets, in order. */
  function Written(c: Config, f: seq<byte>, ms: seq<Message>): seq<byte>
    requires AllGenuine(c, ms)
    decreases |ms|
  {
    if ms == [] then f else Written(c, WriteAt(f, ms[0].offset, Plain(c, ms[0])), ms[1..])
  }

  function Answers(c: Config, ms: seq<Message>): seq<Message>
    requires AllGenuine(c, ms)
    decreases |ms|
  {
    if ms == [] then [] else [Ack(ms[0].index, End(c, ms[0]))] + Answers(c, ms[1..])
  }

  /** What the receiver has after these chunks. */
  ghost predicate Holds(c: Config, r: R.Receiver, ms: seq<Message>, t: R.Receiver)
    requires AllGenuine(c, ms)
  {
    && R.Bytes(t) == Written(c, R.Bytes(r), ms)
    && t.confirmed == (if ms == [] then r.confirmed else End(c, ms[|ms| - 1]))
    && (forall k ::
          k in t.verified <==> k in r.verified || (k in r.rows && exists i | 0 <= i < |ms| :: ms[i].index == k))
    && t.rows == r.rows && t.status == r.status && t.dest == r.dest && t.phase == r.phase
  }

  /** One genuine chunk, with everything succeeding. */
  function Stored(c: Config, r: R.Receiver, m: Message): R.Receiver
    requires Genuine(c, m)
  {
    r.(timeouts := 0, part := Some(WriteAt(R.Bytes(r), m.offset, Plain(c, m))), confirmed := End(c, m),
       verified := r.verified + ({m.index} * r.rows))
  }

  /** One outcome, taken where the handler asks for it. */
  ghost predicate Turns(c: Config, r: R.Receiver, inp: Input, t: R.Result) {
    RL.Placed(r) && RL.Asks(r) && R.Step(c, r, RL.Met(r, inp)) == t
  }

  lemma {:induction false} TurnRun(c: Config, r: R.Receiver, inp: Input, t: R.Receiver, later: seq<Input>)
    requires Turns(c, r, inp, R.Result(t, []))
    ensures RL.Placed(t) && RL.Run(c, r, [inp] + later) == RL.Run(c, t, later)
  {
    RunFirst(c, r, inp, later);
    assert RL.Prepend([], RL.Run(c, t, later)) == RL.Run(c, t, later);
  }

  lemma {:induction false} TwoTurns(c: Config, r: R.Receiver, x: Input, s: R.Receiver, y: Input, t: R.Receiver,
                                    later: seq<Input>)
    requires Turns(c, r, x, R.Result(s, [])) && Turns(c, s, y, R.Result(t, []))
    ensures RL.Placed(t) && RL.Run(c, r, [x] + ([y] + later)) == RL.Run(c, t, later)
  {
    TurnRun(c, r, x, s, [y] + later);
    TurnRun(c, s, y, t, later);
  }

  lemma {:induction false} FourTurns(c: Config, r: R.Receiver, x: Input, s: R.Receiver, t: R.Receiver,
                                     u: R.Receiver, v: R.Receiver, later: seq<Input>)
    requires Turns(c, r, x, R.Result(s, [])) && Turns(c, s, Go(0), R.Result(t, []))
    requires Turns(c, t, Go(0), R.Result(u, [])) && Turns(c, u, Go(0), R.Result(v, []))
    ensures RL.Placed(v)
    ensures RL.Run(c, r, [x] + ([Go(0)] + ([Go(0)] + ([Go(0)] + later)))) == RL.Run(c, v, later)
  {
    TwoTurns(c, r, x, s, Go(0), t, [Go(0)] + ([Go(0)] + later));
    TwoTurns(c, t, Go(0), u, Go(0), v, later);
  }

  /** Read, written, confirmed, marked, and acknowledged. */
  lemma StoreSteps(c: Config, r: R.Receiver, m: Message)
    returns (s: R.Receiver, t: R.Receiver, u: R.Receiver, v: R.Receiver)
    requires r.phase.Loop? && Genuine(c, m)
    ensures Turns(c, r, Got(m), R.Result(s, [])) && Turns(c, s, Go(0), R.Result(t, []))
    ensures Turns(c, t, Go(0), R.Result(u, [])) && Turns(c, u, Go(0), R.Result(v, []))
    ensures Turns(c, v, Go(0), R.Result(Stored(c, r, m), [Ack(m.index, End(c, m))]))
  {
    var plain := Plain(c, m);
    s := r.(timeouts := 0, phase := R.Write(m, plain));
    t := s.(phase := R.Confirm(m, plain), part := Some(WriteAt(R.Bytes(r), m.offset, plain)));
    u := t.(phase := R.Mark(m, plain), confirmed := m.offset + |plain|);
    v := u.(phase := R.SendAck(m, plain), verified := u.verified + ({m.index} * u.rows));
  }

  lemma {:induction false} StoreTurn(c: Config, r: R.Receiver, m: Message, later: seq<Input>)
    requires r.phase.Loop? && Genuine(c, m)
    ensures RL.Run(c, r, OneThen(m, later))
         == RL.Prepend([Ack(m.index, End(c, m))], RL.Run(c, Stored(c, r, m), later))
  {
    var s, t, u, v := StoreSteps(c, r, m);
    FourTurns(c, r, Got(m), s, t, u, v, [Go(0)] + later);
    RunFirst(c, v, Go(0), later);
  }

  lemma {:induction false} HoldsMore(c: Config, r: R.Receiver, ms: seq<Message>, t: R.Receiver)
    requires ms != [] && AllGenuine(c, ms) && Holds(c, Stored(c, r, ms[0]), ms[1..], t)
    ensures Holds(c, r, ms, t)
  {
    var next := Stored(c, r, ms[0]);
    forall k
      ensures k in t.verified
              <==> k in r.verified || (k in r.rows && exists i | 0 <= i < |ms| :: ms[i].index == k)
    {
      if i: nat :| i < |ms| && ms[i].index == k {
        if i > 0 { assert ms[1..][i - 1].index == k; }
      }
      if i: nat :| i < |ms[1..]| && ms[1..][i].index == k { assert ms[i + 1].index == k; }
    }
  }

  /** A series of genuine chunks in any order, all of which succeed: each is written at its offset, confirmed, marked
      if it has a row, and acknowledged with its end, and then the loop goes on. */
  lemma {:induction false} StoresGenuine(c: Config, r: R.Receiver, ms: seq<Message>, later: seq<Input>)
    returns (t: R.Receiver)
    requires r.phase.Loop? && AllGenuine(c, ms)
    ensures Holds(c, r, ms, t) && t.phase.Loop?
    ensures RL.Run(c, r, Smoothly(ms, later)) == RL.Prepend(Answers(c, ms), RL.Run(c, t, later))
    decreases |ms|
  {
    if ms == [] {
      t := r;
    } else {
      t := StoresGenuine(c, Stored(c, r, ms[0]), ms[1..], later);
      HoldsMore(c, r, ms, t);
      FirstStored(c, r, ms, later, RL.Run(c, t, later));
    }
  }

  lemma {:induction false} FirstStored(c: Config, r: R.Receiver, ms: seq<Message>, later: seq<Input>, end: R.Result)
    requires r.phase.Loop? && AllGenuine(c, ms) && ms != []
    requires RL.Run(c, Stored(c, r, ms[0]), Smoothly(ms[1..], later)) == RL.Prepend(Answers(c, ms[1..]), end)
    ensures RL.Run(c, r, Smoothly(ms, later)) == RL.Prepend(Answers(c, ms), end)
  {
    StoreTurn(c, r, ms[0], Smoothly(ms[1..], later));
    var first, others := [Ack(ms[0].index, End(c, ms[0]))], Answers(c, ms[1..]);
    assert first + (others + end.out) == (first + others) + end.out;
  }

  /** Up to the first chunk whose hash differs, and no further: the chunks before it are stored and acknowledged, then
      the error is sent, and nothing else ever happens but the recorded refusal. */
  lemma {:induction false} StoresUntilForged(c: Config, r: R.Receiver, ms: seq<Message>, m: Message, later: seq<Input>)
    returns (t: R.Receiver)
    requires r.phase.Loop? && AllGenuine(c, ms) && Opens(c, m) && !Genuine(c, m)
    ensures Holds(c, r, ms, t)
    ensures var end := RL.Run(c, r, Smoothly(ms, [Got(m)] + later));
      && end.out == Answers(c, ms) + [ErrorMsg]
      && end.r.confirmed == t.confirmed && end.r.verified == t.verified
      && (later != [] && !later[0].Fault? ==>
            end.r.phase == R.Ended(false) && end.r.status.Failed? && end.r.part.None?)
  {
    t := StoresGenuine(c, r, ms, [Got(m)] + later);
    ForgedEndsRun(c, t, m, later);
  }

  // ---- Any session with any peer

  /** A receiving session from the opening of the part file on, with whatever its reads, writes and updates yield. */
  ghost predicate IsIntake(c: Config, rs: seq<R.Receiver>, ins: seq<Input>) {
    && |rs| == |ins| + 1 && rs[0].phase.Start? && rs[0].known && rs[0].part.Some?
    && forall i | 0 <= i < |ins| :: Takes(c, rs[i], ins[i], rs[i + 1])
  }

  ghost predicate Takes(c: Config, r: R.Receiver, inp: Input, t: R.Receiver) {
    R.Ready(r, inp) && (R.Busy(r) ==> r.phase.m.Chunk?) && t == R.Step(c, r, inp).r
  }

  /** A genuine chunk that was read among the first i inputs. */
  ghost predicate Came(c: Config, ins: seq<Input>, i: nat, m: Message) {
    Genuine(c, m) && exists j | 0 <= j < i && j < |ins| :: ins[j] == Got(m)
  }

  /** Byte p of the plaintext of a chunk that came. */
  ghost predicate Brings(c: Config, ins: seq<Input>, i: nat, m: Message, p: nat, b: byte) {
    Came(c, ins, i, m) && m.offset <= p < End(c, m) && Plain(c, m)[p - m.offset] == b
  }

  /** Chunk in hand, marks, confirmed offset and part file all come from genuine chunks or from before. */
  ghost predicate Ledger(c: Config, ins: seq<Input>, i: nat, r: R.Receiver, t: R.Receiver) {
    && (R.Busy(t) ==> Came(c, ins, i, t.phase.m) && t.phase.plain == Plain(c, t.phase.m))
    && (forall k | k in t.verified :: k in r.verified || exists m :: Came(c, ins, i, m) && m.index == k)
    && (t.confirmed == r.confirmed || exists m :: Came(c, ins, i, m) && t.confirmed == End(c, m))
    && (t.part.Some? ==> forall p: nat :: Explained(c, ins, i, r, t, p))
  }

  ghost predicate Explained(c: Config, ins: seq<Input>, i: nat, r: R.Receiver, t: R.Receiver, p: nat) {
    || ByteAt(R.Bytes(t), p) == ByteAt(R.Bytes(r), p)
    || exists m :: Brings(c, ins, i, m, p, ByteAt(R.Bytes(t), p))
  }

  lemma CameMore(c: Config, ins: seq<Input>, i: nat, n: nat, m: Message)
    requires Came(c, ins, i, m) && i <= n
    ensures Came(c, ins, n, m)
  {
  }

  lemma ExplainedMore(c: Config, ins: seq<Input>, i: nat, n: nat, r: R.Receiver, t: R.Receiver, p: nat)
    requires Explained(c, ins, i, r, t, p) && i <= n
    ensures Explained(c, ins, n, r, t, p)
  {
    if m :| Brings(c, ins, i, m, p, ByteAt(R.Bytes(t), p)) {
      CameMore(c, ins, i, n, m);
      assert Brings(c, ins, n, m, p, ByteAt(R.Bytes(t), p));
    }
  }

  lemma LedgerMore(c: Config, ins: seq<Input>, i: nat, n: nat, r: R.Receiver, t: R.Receiver)
    requires Ledger(c, ins, i, r, t) && i <= n
    ensures Ledger(c, ins, n, r, t)
  {
    forall m | Came(c, ins, i, m) ensures Came(c, ins, n, m) { CameMore(c, ins, i, n, m); }
    if t.part.Some? {
      forall p: nat ensures Explained(c, ins, n, r, t, p) { ExplainedMore(c, ins, i, n, r, t, p); }
    }
  }

  /** Reading. */
  lemma LedgerRead(c: Config, ins: seq<Input>, n: nat, r: R.Receiver, t: R.Receiver)
    requires 0 < n <= |ins| && Ledger(c, ins, n, r, t) && t.phase.Loop? && R.Ready(t, ins[n - 1])
    ensures Ledger(c, ins, n, r, R.Step(c, t, ins[n - 1]).r)
  {
    var u := R.Step(c, t, ins[n - 1]).r;
    if u.phase.Write? {
      assert ins[n - 1] == Got(u.phase.m) && Genuine(c, u.phase.m);
    }
    if u.part.Some? {
      forall p: nat ensures Explained(c, ins, n, r, u, p) { assert Explained(c, ins, n, r, t, p); }
    }
  }

  /** Writing some or all of the chunk in hand. */
  lemma LedgerWrite(c: Config, ins: seq<Input>, i: nat, r: R.Receiver, t: R.Receiver, u: R.Receiver, n: nat)
    requires Ledger(c, ins, i, r, t) && t.phase.Write? && t.part.Some? && n <= |t.phase.plain|
    requires t.phase.m.Chunk? && u.part == Some(WriteAt(R.Bytes(t), t.phase.m.offset, t.phase.plain[..n]))
    requires u.verified == t.verified && u.confirmed == t.confirmed
    requires R.Busy(u) && u.phase.m == t.phase.m && u.phase.plain == t.phase.plain
    ensures Ledger(c, ins, i, r, u)
  {
    var m, plain := t.phase.m, t.phase.plain;
    forall p: nat ensures Explained(c, ins, i, r, u, p) {
      assert Explained(c, ins, i, r, t, p);
      WriteAtByte(R.Bytes(t), m.offset, plain[..n], p);
      if m.offset <= p < m.offset + n {
        assert Brings(c, ins, i, m, p, ByteAt(R.Bytes(u), p));
      }
    }
  }

  /** Everything that is neither a read nor a write. */
  lemma LedgerOther(c: Config, ins: seq<Input>, i: nat, r: R.Receiver, t: R.Receiver, inp: Input)
    requires Ledger(c, ins, i, r, t) && R.Ready(t, inp) && (R.Busy(t) ==> t.phase.m.Chunk?)
    requires !t.phase.Loop? && !Before(t) && (t.phase.Write? ==> inp.Fault?)
    ensures Ledger(c, ins, i, r, R.Step(c, t, inp).r)
  {
    var u := R.Step(c, t, inp).r;
    if u.part.Some? {
      forall p: nat ensures Explained(c, ins, i, r, u, p) { assert Explained(c, ins, i, r, t, p); }
    }
  }

  /** Before the part file is open. */
  predicate Before(r: R.Receiver) {
    r.phase.Idle? || r.phase.CheckSpace? || r.phase.InsertRows? || r.phase.Decide? || r.phase.OpenPart?
  }

  lemma LedgerStep(c: Config, ins: seq<Input>, n: nat, r: R.Receiver, t: R.Receiver, u: R.Receiver)
    requires 0 < n <= |ins| && Ledger(c, ins, n - 1, r, t) && Takes(c, t, ins[n - 1], u)
    requires !Before(t) && (R.Busy(t) || t.phase.Loop? ==> t.part.Some?)
    ensures Ledger(c, ins, n, r, u)
  {
    LedgerMore(c, ins, n - 1, n, r, t);
    if t.phase.Loop? {
      LedgerRead(c, ins, n, r, t);
    } else if t.phase.Write? && !ins[n - 1].Fault? {
      var count := if ins[n - 1].Torn? then ins[n - 1].count else |t.phase.plain|;
      assert t.phase.plain[..|t.phase.plain|] == t.phase.plain;
      LedgerWrite(c, ins, n, r, t, u, count);
    } else {
      LedgerOther(c, ins, n, r, t, ins[n - 1]);
    }
  }

  /** The part file stays open while chunks are taken. */
  lemma StaysOpen(c: Config, r: R.Receiver, inp: Input, t: R.Receiver)
    requires Takes(c, r, inp, t) && !Before(r)
    requires r.phase.Start? || R.Busy(r) || r.phase.Loop? ==> r.part.Some?
    ensures !Before(t) && (t.phase.Start? || R.Busy(t) || t.phase.Loop? ==> t.part.Some?)
  {
  }

  lemma {:induction false} IntakeLedger(c: Config, rs: seq<R.Receiver>, ins: seq<Input>, i: nat)
    requires IsIntake(c, rs, ins) && i < |rs|
    ensures Ledger(c, ins, i, rs[0], rs[i])
    ensures !Before(rs[i]) && (rs[i].phase.Start? || R.Busy(rs[i]) || rs[i].phase.Loop? ==> rs[i].part.Some?)
  {
    if i == 0 {
      forall p: nat ensures Explained(c, ins, 0, rs[0], rs[0], p) {}
    } else {
      IntakeLedger(c, rs, ins, i - 1);
      assert Takes(c, rs[i - 1], ins[i - 1], rs[i]);
      LedgerStep(c, ins, i, rs[0], rs[i - 1], rs[i]);
      StaysOpen(c, rs[i - 1], ins[i - 1], rs[i]);
    }
  }

  /** In every session, with any peer and any failures: each chunk marked, the confirmed offset, and each byte of the
      part file are as they were when the session began or come from a genuine chunk that was read. */
  lemma {:induction false} OnlyGenuine(c: Config, rs: seq<R.Receiver>, ins: seq<Input>, i: nat)
    requires IsIntake(c, rs, ins) && i < |rs|
    ensures forall k | k in rs[i].verified :: k in rs[0].verified || exists m :: Came(c, ins, i, m) && m.index == k
    ensures rs[i].confirmed == rs[0].confirmed || exists m :: Came(c, ins, i, m) && rs[i].confirmed == End(c, m)
    ensures rs[i].part.Some? ==> forall p: nat ::
              || ByteAt(R.Bytes(rs[i]), p) == ByteAt(R.Bytes(rs[0]), p)
              || exists m :: Brings(c, ins, i, m, p, ByteAt(R.Bytes(rs[i]), p))
  {
    IntakeLedger(c, rs, ins, i);
    forall p: nat | rs[i].part.Some?
      ensures || ByteAt(R.Bytes(rs[i]), p) == ByteAt(R.Bytes(rs[0]), p)
              || exists m :: Brings(c, ins, i, m, p, ByteAt(R.Bytes(rs[i]), p))
    {
      assert Explained(c, ins, i, rs[0], rs[i], p);
    }
  }
}
