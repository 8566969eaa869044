/**
 Crash-safe resume: what the database and the disk guarantee between sessions.

 Everything here is about runs in which the part file is neither removed nor replaced (`!tainted`); the
 sessions may be cut between any two steps, in the middle of a write, and any number of times.
 */
module Resume {
  import opened Common
  import opened ChunkPlan
  import opened Disk
  import opened Transfer
  import opened System
  import Flow
  import S = Sender
  import R = Receiver

  // ---- Chunk messages carry the source

  ghost predicate Honest(c: Config, m: Message)
    requires c.Valid()
  {
    m.Chunk? ==>
      && m.index < c.N()
      && m.offset == c.plan[m.index].offset
      && c.open(m.data) == Some(c.Data(m.index))
      && m.chunkHash == c.hash(c.Data(m.index))
  }

  ghost predicate HonestInHand(c: Config, r: R.Receiver)
    requires c.Valid()
  {
    R.Busy(r) ==> r.phase.m.Chunk? && Honest(c, r.phase.m) && r.phase.plain == c.Data(r.phase.m.index)
  }

  ghost predicate AllHonest(c: Config, s: System)
    requires c.Valid()
  {
    (forall i | 0 <= i < |s.toR| :: Honest(c, s.toR[i])) && HonestInHand(c, s.rcv)
  }

  // ---- The durable state

  ghost predicate OnDisk(c: Config, f: seq<byte>, j: nat) {
    j < c.N() && GoodChunk(f, c.src, c.plan[j])
  }

  /** Every verified chunk and every byte below `bytes_confirmed` is on disk as in the source. */
  ghost predicate Durable(c: Config, r: R.Receiver) {
    && (r.rows == {} || r.rows == R.AllRows(c))
    && (forall j | 0 <= j < c.N() :: j in r.verified ==> OnDisk(c, R.Bytes(r), j))
    && Good(R.Bytes(r), c.src, 0, r.confirmed)
  }

  /** Whatever an answer leaves out is already on disk. */
  ghost predicate Answers(c: Config, f: seq<byte>, resumeFrom: nat, missing: Option<set<nat>>) {
    forall j | 0 <= j < c.N() :: Selected(c, resumeFrom, missing, j) || OnDisk(c, f, j)
  }

  lemma AllRowsAll(c: Config, j: nat)
    requires c.Valid() && j < c.N()
    ensures j in R.AllRows(c)
  {
    assert c.plan[j] in c.plan && c.plan[j].index == j;
  }

  /** The resume rule is safe: by missing list or by offset, what is not asked for is on disk. */
  lemma ResumeRule(c: Config, r: R.Receiver)
    requires c.Valid() && Durable(c, r)
    ensures Answers(c, R.Bytes(r), R.ResumeFrom(r), R.Missing(r))
  {
    forall j | 0 <= j < c.N()
      ensures Selected(c, R.ResumeFrom(r), R.Missing(r), j) || OnDisk(c, R.Bytes(r), j)
    {
      AllRowsAll(c, j);
      TilesBound(c.plan, |c.src|, j);
    }
  }

  // ---- Chunks in flight

  /** Chunks taken or travelling and not yet written, in the order they will be written. */
  function Pipe(s: System): seq<nat> {
    (if s.rcv.phase.Write? && s.rcv.phase.m.Chunk? then [s.rcv.phase.m.index] else []) + Ids(s.toR)
  }

  /** Before a chunk of the pipe is written, all lower chunks are on disk or ahead of it in the pipe. */
  ghost predicate Ordered(c: Config, f: seq<byte>, pipe: seq<nat>) {
    forall q, j | 0 <= q < |pipe| && 0 <= j < pipe[q] :: j in pipe[..q] || OnDisk(c, f, j)
  }

  /** Everything the sender has passed is on disk or in the pipe. */
  ghost predicate Passed(c: Config, f: seq<byte>, pipe: seq<nat>, pos: nat) {
    forall j | 0 <= j < pos :: j in pipe || OnDisk(c, f, j)
  }

  lemma HeadOrTail(q: seq<nat>, j: nat)
    requires q != []
    ensures j in q <==> j == q[0] || j in q[1..]
  {
    if j in q {
      var i :| 0 <= i < |q| && q[i] == j;
      if i > 0 { assert q[1..][i - 1] == j; }
    }
  }

  lemma OrderedSend(c: Config, f: seq<byte>, pipe: seq<nat>, i: nat)
    requires Ordered(c, f, pipe) && Passed(c, f, pipe, i) && i < c.N()
    ensures Ordered(c, f, pipe + [i]) && Passed(c, f, pipe + [i], i + 1)
  {
    var more := pipe + [i];
    forall q, j | 0 <= q < |more| && 0 <= j < more[q] ensures j in more[..q] || OnDisk(c, f, j) {
      if q < |pipe| { assert more[..q] == pipe[..q]; } else { assert more[..q] == pipe; }
    }
  }

  /** Writing the first chunk of the pipe completes the prefix up to its end. */
  lemma OrderedWrite(c: Config, f: seq<byte>, pipe: seq<nat>, g: seq<byte>)
    requires c.Valid() && pipe != [] && Ordered(c, f, pipe) && pipe[0] < c.N()
    requires g == WriteAt(f, c.plan[pipe[0]].offset, c.Data(pipe[0]))
    ensures forall j | 0 <= j < c.N() :: OnDisk(c, f, j) ==> OnDisk(c, g, j)
    ensures OnDisk(c, g, pipe[0]) && Good(g, c.src, 0, c.plan[pipe[0]].End())
    ensures Ordered(c, g, pipe[1..])
  {
    var k := pipe[0];
    TilesBound(c.plan, |c.src|, k);
    forall j | 0 <= j < c.N() ensures OnDisk(c, f, j) || j == k ==> OnDisk(c, g, j) {
      WriteKeepsGood(f, c.src, c.plan[k].offset, c.plan[k].End(), c.plan[j].offset, c.plan[j].End());
    }
    forall j | 0 <= j <= k ensures GoodChunk(g, c.src, c.plan[j]) {
      assert j in pipe[..0] || OnDisk(c, f, j) || j == k;
    }
    GoodPrefix(g, c.src, c.plan, k + 1);
    forall q, j | 0 <= q < |pipe[1..]| && 0 <= j < pipe[1..][q]
      ensures j in pipe[1..][..q] || OnDisk(c, g, j)
    {
      assert pipe[1..][q] == pipe[q + 1] && pipe[..q + 1][1..] == pipe[1..][..q];
      HeadOrTail(pipe[..q + 1], j);
      assert j in pipe[..q + 1] || OnDisk(c, f, j);
    }
  }

  lemma PassedWrite(c: Config, f: seq<byte>, pipe: seq<nat>, g: seq<byte>, pos: nat)
    requires pipe != [] && Passed(c, f, pipe, pos)
    requires forall j | 0 <= j < c.N() :: OnDisk(c, f, j) ==> OnDisk(c, g, j)
    requires OnDisk(c, g, pipe[0])
    ensures Passed(c, g, pipe[1..], pos)
  {
    forall j | 0 <= j < pos ensures j in pipe[1..] || OnDisk(c, g, j) {
      HeadOrTail(pipe, j);
    }
  }

  // ---- The invariant

  ghost predicate Covering(c: Config, s: System)
    requires c.Valid() && HonestInHand(c, s.rcv)
  {
    var f := R.Bytes(s.rcv);
    && Ordered(c, f, Pipe(s))
    && (Flow.Early(s.snd) && s.toS != [] && s.toS[0].Acceptance? ==>
          Answers(c, f, s.toS[0].resumeFrom, s.toS[0].missing))
    && (S.Streaming(s.snd) ==>
          Answers(c, f, s.snd.resumeFrom, s.snd.missing) && Passed(c, f, Pipe(s), S.Pos(c, s.snd)))
  }

  /** A chunk between its write and its ack is on disk, and so is everything below it until it is confirmed. */
  ghost predicate Written(c: Config, r: R.Receiver)
    requires c.Valid() && HonestInHand(c, r)
  {
    && (R.Busy(r) && !r.phase.Write? ==> OnDisk(c, R.Bytes(r), r.phase.m.index))
    && (r.phase.Confirm? ==> Good(R.Bytes(r), c.src, 0, c.plan[r.phase.m.index].End()))
  }

  ghost predicate Safe(c: Config, s: System)
    requires c.Valid() && HonestInHand(c, s.rcv)
  {
    Durable(c, s.rcv) && Written(c, s.rcv) && (R.Live(s.rcv) ==> Covering(c, s))
  }

  ghost predicate Inv(c: Config, s: System)
    requires c.Valid()
  {
    && Flow.Inv(c, s)
    && AllHonest(c, s)
    && (Flow.Undecided(s.rcv) ==> Ids(s.toR) == [])
    && (!s.tainted ==> Safe(c, s))
  }

  // ---- Sender steps

  lemma SenderSends(c: Config, s: S.Sender, inp: Input)
    requires c.Valid() && S.Ready(c, s, inp)
    requires (s.phase.Window? ==> s.phase.i < c.N())
    ensures forall i | 0 <= i < |S.Step(c, s, inp).out| :: Honest(c, S.Step(c, s, inp).out[i])
  {
  }

  /** How a sender advances: it stays, skips an unselected chunk, sends one, starts, or stops streaming. */
  ghost predicate Advance(c: Config, s: S.Sender, inp: Input, t: S.Result) {
    if !S.Streaming(t.s) then
      Ids(t.out) == [] && (Flow.Early(t.s) ==> Flow.Early(s) && !inp.Got?)
    else if !S.Streaming(s) then
      && Flow.Early(s) && inp.Got? && inp.msg.Acceptance? && Ids(t.out) == [] && S.Pos(c, t.s) == 0
      && t.s.resumeFrom == inp.msg.resumeFrom && t.s.missing == inp.msg.missing
    else
      var pos := S.Pos(c, s);
      && t.s.resumeFrom == s.resumeFrom && t.s.missing == s.missing
      && (|| (Ids(t.out) == [] && S.Pos(c, t.s) == pos)
          || (Ids(t.out) == [] && pos < c.N() && S.Pos(c, t.s) == pos + 1
              && !Selected(c, s.resumeFrom, s.missing, pos))
          || (Ids(t.out) == [pos] && pos < c.N() && S.Pos(c, t.s) == pos + 1))
  }

  lemma WaitingStays(c: Config, s: S.Sender, inp: Input)
    requires c.Valid() && S.Waiting(s) && S.Ready(c, s, inp) && (s.phase.Window? ==> s.phase.i < c.N())
    ensures var t := S.Step(c, s, inp);
      && Ids(t.out) == []
      && (S.Streaming(t.s) ==> t.s.phase == s.phase && t.s.resumeFrom == s.resumeFrom && t.s.missing == s.missing)
      && !Flow.Early(t.s)
  {
    var out := S.Step(c, s, inp).out;
    assert out == [] || out == [CancelMsg];
    assert [CancelMsg][1..] == [];
  }

  lemma SenderAdvances(c: Config, s: S.Sender, inp: Input)
    requires c.Valid() && S.Ready(c, s, inp)
    requires (s.phase.Window? ==> s.phase.i < c.N()) && (s.phase.AtChunk? ==> s.phase.i <= c.N())
    ensures Advance(c, s, inp, S.Step(c, s, inp))
  {
    if S.Waiting(s) {
      WaitingStays(c, s, inp);
    } else {
      FreeAdvances(c, s, inp);
    }
  }

  lemma FreeAdvances(c: Config, s: S.Sender, inp: Input)
    requires c.Valid() && S.Ready(c, s, inp) && !S.Waiting(s)
    requires (s.phase.Window? ==> s.phase.i < c.N()) && (s.phase.AtChunk? ==> s.phase.i <= c.N())
    ensures Advance(c, s, inp, S.Step(c, s, inp))
  {
    var out := S.Step(c, s, inp).out;
    if out != [] {
      assert out[1..] == [] && Ids(out) == if out[0].Chunk? then [out[0].index] else [];
    }
  }

  lemma SenderKeepsHonest(c: Config, s: System, inp: Input)
    requires c.Valid() && Inv(c, s) && Enabled(c, s, SenderStep(inp))
    ensures AllHonest(c, SenderMoves(c, s, inp))
  {
    SenderSends(c, s.snd, inp);
  }

  /** A skipped chunk was not asked for, so it is on disk. */
  lemma PassedSkip(c: Config, f: seq<byte>, pipe: seq<nat>, s: S.Sender, pos: nat)
    requires Answers(c, f, s.resumeFrom, s.missing) && Passed(c, f, pipe, pos)
    requires pos < c.N() && !Selected(c, s.resumeFrom, s.missing, pos)
    ensures Passed(c, f, pipe, pos + 1)
  {
  }

  /** The streaming sender goes on: it stays, skips or sends. */
  lemma StreamPasses(c: Config, f: seq<byte>, pipe: seq<nat>, s: S.Sender, inp: Input, t: S.Result)
    requires S.Streaming(s) && S.Streaming(t.s) && Advance(c, s, inp, t)
    requires Ordered(c, f, pipe) && Answers(c, f, s.resumeFrom, s.missing) && Passed(c, f, pipe, S.Pos(c, s))
    ensures Ordered(c, f, pipe + Ids(t.out)) && Passed(c, f, pipe + Ids(t.out), S.Pos(c, t.s))
  {
    if Ids(t.out) == [] {
      assert pipe + Ids(t.out) == pipe;
      if S.Pos(c, t.s) != S.Pos(c, s) { PassedSkip(c, f, pipe, s, S.Pos(c, s)); }
    } else {
      OrderedSend(c, f, pipe, S.Pos(c, s));
    }
  }

  lemma SenderKeepsCovering(c: Config, s: System, inp: Input, res: S.Result)
    requires c.Valid() && HonestInHand(c, s.rcv) && Covering(c, s) && Heads(s.toS, inp)
    requires Advance(c, s.snd, inp, res)
    requires Ids(s.toR + res.out) == Ids(s.toR) + Ids(res.out)
    ensures Covering(c, AfterSender(s, inp, res))
  {
    var t := AfterSender(s, inp, res);
    var f, pipe := R.Bytes(s.rcv), Pipe(s);
    assert Pipe(t) == pipe + Ids(res.out);
    if S.Streaming(s.snd) && S.Streaming(res.s) {
      StreamPasses(c, f, pipe, s.snd, inp, res);
    } else {
      assert Pipe(t) == pipe;
    }
  }

  lemma SenderKeepsInv(c: Config, s: System, inp: Input)
    requires c.Valid() && Inv(c, s) && Enabled(c, s, SenderStep(inp))
    ensures Inv(c, SenderMoves(c, s, inp))
  {
    Flow.StepKeepsInv(c, s, SenderStep(inp));
    SenderKeepsHonest(c, s, inp);
    Flow.SenderStepFacts(c, s.snd, inp);
    Flow.SenderOut(c, s, inp, S.Step(c, s.snd, inp));
    SenderAdvances(c, s.snd, inp);
    if !s.tainted && R.Live(s.rcv) {
      SenderKeepsCovering(c, s, inp, S.Step(c, s.snd, inp));
    }
  }

  // ---- Receiver steps

  lemma HonestStep(c: Config, r: R.Receiver, inp: Input)
    requires c.Valid() && HonestInHand(c, r) && R.Ready(r, inp) && (inp.Got? ==> Honest(c, inp.msg))
    ensures HonestInHand(c, R.Step(c, r, inp).r)
  {
  }

  lemma ReceiverKeepsHonest(c: Config, s: System, inp: Input)
    requires c.Valid() && Inv(c, s) && Enabled(c, s, ReceiverStep(inp))
    ensures AllHonest(c, ReceiverMoves(c, s, inp))
  {
    HonestStep(c, s.rcv, inp);
  }

  /** An honest chunk is never rejected: it decrypts, its hash matches, and the receiver goes on to write it. */
  lemma HonestChunkAccepted(c: Config, s: System, inp: Input)
    requires c.Valid() && Inv(c, s) && Enabled(c, s, ReceiverStep(inp))
    requires s.rcv.phase.Loop? && inp.Got? && inp.msg.Chunk?
    ensures var t := R.Step(c, s.rcv, inp);
      t.out == [] && t.r.phase == R.Write(inp.msg, c.Data(inp.msg.index))
  {
  }

  lemma WriteStep(c: Config, s: System, inp: Input)
    requires c.Valid() && Inv(c, s) && !s.tainted && s.rcv.phase.Write? && inp.Go?
    ensures Safe(c, ReceiverMoves(c, s, inp))
  {
    var f, pipe, k := R.Bytes(s.rcv), Pipe(s), s.rcv.phase.m.index;
    var t := ReceiverMoves(c, s, inp);
    var g := R.Bytes(t.rcv);
    assert pipe[0] == k && Pipe(t) == pipe[1..];
    OrderedWrite(c, f, pipe, g);
    if S.Streaming(s.snd) {
      PassedWrite(c, f, pipe, g, S.Pos(c, s.snd));
    }
    TilesBound(c.plan, |c.src|, k);
    WriteKeepsGood(f, c.src, c.plan[k].offset, c.plan[k].End(), 0, s.rcv.confirmed);
  }

  lemma TornData(c: Config, k: nat, n: nat)
    requires c.Valid() && k < c.N() && n <= |c.Data(k)|
    ensures c.plan[k].offset + n <= |c.src|
    ensures c.Data(k)[..n] == c.src[c.plan[k].offset..c.plan[k].offset + n]
  {
    TilesBound(c.plan, |c.src|, k);
  }

  /** A write cut short still only puts source bytes at source offsets. */
  lemma TornKeeps(c: Config, f: seq<byte>, k: nat, n: nat, g: seq<byte>)
    requires c.Valid() && k < c.N() && n <= |c.Data(k)|
    requires g == WriteAt(f, c.plan[k].offset, c.Data(k)[..n])
    ensures forall j | 0 <= j < c.N() :: OnDisk(c, f, j) ==> OnDisk(c, g, j)
    ensures forall hi: nat :: Good(f, c.src, 0, hi) ==> Good(g, c.src, 0, hi)
  {
    var off := c.plan[k].offset;
    TornData(c, k, n);
    forall j | 0 <= j < c.N() ensures OnDisk(c, f, j) ==> OnDisk(c, g, j) {
      WriteKeepsGood(f, c.src, off, off + n, c.plan[j].offset, c.plan[j].End());
    }
    forall hi: nat ensures Good(f, c.src, 0, hi) ==> Good(g, c.src, 0, hi) {
      WriteKeepsGood(f, c.src, off, off + n, 0, hi);
    }
  }

  lemma OrderedBetter(c: Config, f: seq<byte>, pipe: seq<nat>, g: seq<byte>)
    requires Ordered(c, f, pipe)
    requires forall j | 0 <= j < c.N() :: OnDisk(c, f, j) ==> OnDisk(c, g, j)
    ensures Ordered(c, g, pipe)
  {
    forall q, j | 0 <= q < |pipe| && 0 <= j < pipe[q] ensures j in pipe[..q] || OnDisk(c, g, j) {
      assert j in pipe[..q] || OnDisk(c, f, j);
    }
  }

  /** Better bytes and nothing else changed: still safe. */
  lemma BetterBytes(c: Config, s: System, g: seq<byte>)
    requires c.Valid() && HonestInHand(c, s.rcv) && Safe(c, s) && s.rcv.phase.Write?
    requires forall j | 0 <= j < c.N() :: OnDisk(c, R.Bytes(s.rcv), j) ==> OnDisk(c, g, j)
    requires forall hi: nat :: Good(R.Bytes(s.rcv), c.src, 0, hi) ==> Good(g, c.src, 0, hi)
    ensures Safe(c, s.(rcv := s.rcv.(part := Some(g))))
  {
    OrderedBetter(c, R.Bytes(s.rcv), Pipe(s), g);
    assert Pipe(s.(rcv := s.rcv.(part := Some(g)))) == Pipe(s);
  }

  lemma TornStep(c: Config, s: System, inp: Input)
    requires c.Valid() && Inv(c, s) && !s.tainted && s.rcv.phase.Write?
    requires inp.Torn? && inp.count <= |s.rcv.phase.plain|
    ensures Safe(c, ReceiverMoves(c, s, inp))
  {
    var g := WriteAt(R.Bytes(s.rcv), s.rcv.phase.m.offset, s.rcv.phase.plain[..inp.count]);
    TornKeeps(c, R.Bytes(s.rcv), s.rcv.phase.m.index, inp.count, g);
    BetterBytes(c, s, g);
    var t := ReceiverMoves(c, s, inp);
    assert t.rcv == s.rcv.(part := Some(g));
    assert t.toR == s.toR && t.toS == s.toS + [] == s.toS;
    assert t == s.(rcv := s.rcv.(part := Some(g)));
  }

  /** Every other step leaves the bytes and the order of the pipe alone. */
  predicate Other(r: R.Receiver, inp: Input) {
    !(r.phase.Write? && !inp.Fault?) && !inp.Moved?
  }

  predicate KeepsPart(c: Config, r: R.Receiver, inp: Input)
    requires R.Busy(r) ==> r.phase.m.Chunk?
  {
    Other(r, inp) && !(r.part.Some? && R.Step(c, r, inp).r.part.None?)
  }

  lemma OtherBytes(c: Config, s: System, inp: Input)
    requires Heads(s.toR, inp) && R.Ready(s.rcv, inp) && (R.Busy(s.rcv) ==> s.rcv.phase.m.Chunk?)
    requires KeepsPart(c, s.rcv, inp)
    ensures var res := R.Step(c, s.rcv, inp);
      && R.Bytes(res.r) == R.Bytes(s.rcv)
      && (R.Live(res.r) ==> Pipe(AfterReceiver(s, inp, res)) == Pipe(s))
  {
  }

  lemma UndecidedDurable(c: Config, r: R.Receiver, inp: Input)
    requires c.Valid() && R.Ready(r, inp) && Flow.Undecided(r) && Durable(c, r)
    ensures Durable(c, R.Step(c, r, inp).r)
  {
  }

  lemma BusyDurable(c: Config, r: R.Receiver, inp: Input)
    requires c.Valid() && R.Ready(r, inp) && HonestInHand(c, r) && Durable(c, r) && Written(c, r)
    requires R.Busy(r) && KeepsPart(c, r, inp)
    ensures Durable(c, R.Step(c, r, inp).r)
  {
    TilesBound(c.plan, |c.src|, r.phase.m.index);
  }

  lemma OtherDurable(c: Config, r: R.Receiver, inp: Input)
    requires c.Valid() && R.Ready(r, inp) && HonestInHand(c, r) && Durable(c, r) && Written(c, r)
    requires KeepsPart(c, r, inp)
    ensures Durable(c, R.Step(c, r, inp).r)
  {
    if Flow.Undecided(r) {
      UndecidedDurable(c, r, inp);
    } else if R.Busy(r) {
      BusyDurable(c, r, inp);
    } else {
      RecordKept(c, r, inp);
    }
  }

  /** Outside storing a chunk and the first request, the claims of the record stay as they are. */
  lemma RecordKept(c: Config, r: R.Receiver, inp: Input)
    requires R.Ready(r, inp) && !Flow.Undecided(r) && !R.Busy(r) && KeepsPart(c, r, inp)
    ensures var t := R.Step(c, r, inp).r;
      t.rows == r.rows && t.verified == r.verified && t.confirmed == r.confirmed && R.Bytes(t) == R.Bytes(r)
  {
  }

  lemma OtherWritten(c: Config, r: R.Receiver, inp: Input)
    requires c.Valid() && R.Ready(r, inp) && HonestInHand(c, r) && Written(c, r)
    requires KeepsPart(c, r, inp) && HonestInHand(c, R.Step(c, r, inp).r)
    ensures Written(c, R.Step(c, r, inp).r)
  {
  }

  /** What an answer says is the resume rule applied to the durable state. */
  lemma AnswerStep(c: Config, r: R.Receiver, inp: Input)
    requires c.Valid() && R.Ready(r, inp) && Durable(c, r) && Flow.Undecided(r)
    ensures var t := R.Step(c, r, inp);
      R.Live(t.r) ==>
        |t.out| == 1 && t.out[0].Acceptance? && Answers(c, R.Bytes(r), t.out[0].resumeFrom, t.out[0].missing)
  {
    ResumeRule(c, r);
  }

  lemma OtherCovering(c: Config, s: System, inp: Input, res: R.Result)
    requires c.Valid() && Inv(c, s) && !s.tainted && Enabled(c, s, ReceiverStep(inp))
    requires Flow.ReceiverFacts(c, s.rcv, inp, res) && R.Live(res.r) && HonestInHand(c, res.r)
    requires R.Bytes(res.r) == R.Bytes(s.rcv) && Pipe(AfterReceiver(s, inp, res)) == Pipe(s)
    requires Flow.Undecided(s.rcv) ==>
               |res.out| == 1 && res.out[0].Acceptance?
               && Answers(c, R.Bytes(s.rcv), res.out[0].resumeFrom, res.out[0].missing)
    ensures Covering(c, AfterReceiver(s, inp, res))
  {
  }

  lemma ReceiverKeepsSafe(c: Config, s: System, inp: Input)
    requires c.Valid() && Inv(c, s) && Enabled(c, s, ReceiverStep(inp))
    requires !ReceiverMoves(c, s, inp).tainted && HonestInHand(c, ReceiverMoves(c, s, inp).rcv)
    ensures Safe(c, ReceiverMoves(c, s, inp))
  {
    if s.rcv.phase.Write? && inp.Go? {
      WriteStep(c, s, inp);
    } else if s.rcv.phase.Write? && inp.Torn? {
      TornStep(c, s, inp);
    } else {
      OtherDurable(c, s.rcv, inp);
      OtherWritten(c, s.rcv, inp);
      var res := R.Step(c, s.rcv, inp);
      if R.Live(res.r) {
        OtherBytes(c, s, inp);
        Flow.ReceiverStepFacts(c, s.rcv, inp);
        if Flow.Undecided(s.rcv) {
          AnswerStep(c, s.rcv, inp);
        }
        OtherCovering(c, s, inp, res);
      }
    }
  }

  lemma ReceiverKeepsInv(c: Config, s: System, inp: Input)
    requires c.Valid() && Inv(c, s) && Enabled(c, s, ReceiverStep(inp))
    ensures Inv(c, ReceiverMoves(c, s, inp))
  {
    Flow.StepKeepsInv(c, s, ReceiverStep(inp));
    ReceiverKeepsHonest(c, s, inp);
    Flow.ReceiverStepFacts(c, s.rcv, inp);
    if !ReceiverMoves(c, s, inp).tainted {
      ReceiverKeepsSafe(c, s, inp);
    }
  }

  // ---- Runs

  lemma StepKeepsInv(c: Config, s: System, e: Event)
    requires c.Valid() && Inv(c, s) && Enabled(c, s, e)
    ensures Inv(c, Apply(c, s, e))
  {
    match e
    case SenderStep(inp) => SenderKeepsInv(c, s, inp);
    case ReceiverStep(inp) => ReceiverKeepsInv(c, s, inp);
    case Cut(_, _) => Flow.StepKeepsInv(c, s, e);
  }

  lemma FollowsKeepsInv(c: Config, s: System, t: System)
    requires c.Valid() && Inv(c, s) && Follows(c, s, t)
    ensures Inv(c, t)
  {
    var e :| Enabled(c, s, e) && t == Apply(c, s, e);
    StepKeepsInv(c, s, e);
  }

  lemma {:induction false} RunInv(c: Config, run: seq<System>, i: nat)
    requires c.Valid() && IsRun(c, run) && i < |run|
    ensures Inv(c, run[i])
  {
    if i > 0 {
      RunInv(c, run, i - 1);
      assert Follows(c, run[i - 1], run[i]);
      FollowsKeepsInv(c, run[i - 1], run[i]);
    }
  }

  /** Crash safety: after any number of sessions cut anywhere, as long as the part file was not removed or replaced,
      every verified chunk and every byte below `bytes_confirmed` is on disk exactly as in the source. */
  lemma CrashSafe(c: Config, run: seq<System>, i: nat)
    requires c.Valid() && IsRun(c, run) && i < |run| && !run[i].tainted
    ensures forall j | 0 <= j < c.N() :: j in run[i].rcv.verified ==>
              GoodChunk(R.Bytes(run[i].rcv), c.src, c.plan[j])
    ensures Good(R.Bytes(run[i].rcv), c.src, 0, run[i].rcv.confirmed)
  {
    RunInv(c, run, i);
    var f := R.Bytes(run[i].rcv);
    forall j | 0 <= j < c.N() && j in run[i].rcv.verified ensures GoodChunk(f, c.src, c.plan[j]) {
      assert OnDisk(c, f, j);
    }
  }

  /** Nothing is forgotten: what the next session would ask for, together with the disk, covers the whole file. */
  lemma NextSessionCovers(c: Config, run: seq<System>, i: nat, p: nat)
    requires c.Valid() && IsRun(c, run) && i < |run| && !run[i].tainted && p < |c.src|
    ensures Good(R.Bytes(run[i].rcv), c.src, p, p + 1)
         || exists j | 0 <= j < c.N() :: c.plan[j].offset <= p < c.plan[j].End()
                                         && Selected(c, R.ResumeFrom(run[i].rcv), R.Missing(run[i].rcv), j)
  {
    RunInv(c, run, i);
    ResumeRule(c, run[i].rcv);
    var j := TileOf(c.plan, |c.src|, c.N(), p);
    if OnDisk(c, R.Bytes(run[i].rcv), j) {
      GoodByte(R.Bytes(run[i].rcv), c.src, c.plan[j].offset, c.plan[j].End(), p);
    }
  }

  /** An honest sender's chunk never meets the hash-mismatch branch, in any run. */
  lemma NoChunkMismatch(c: Config, run: seq<System>, i: nat, inp: Input)
    requires c.Valid() && IsRun(c, run) && i < |run|
    requires Enabled(c, run[i], ReceiverStep(inp)) && run[i].rcv.phase.Loop? && inp.Got? && inp.msg.Chunk?
    ensures R.Receive(c, run[i].rcv, inp).r.phase.Write? && R.Receive(c, run[i].rcv, inp).out == []
  {
    RunInv(c, run, i);
    HonestChunkAccepted(c, run[i], inp);
  }
}
