/**
 Where a fault-free session is heading: the goal, and how each step keeps it.

 The goal is the part file the session works on, with the chunks it selected written over it.
 */
module Course {
  import opened Common
  import opened Disk
  import opened Transfer
  import opened System
  import opened Progress
  import Flow
  import Resume
  import S = Sender
  import R = Receiver

  /** The chunks from position `pos` on that an answer asks for, in the order they are sent. */
  function SelectedFrom(c: Config, resumeFrom: nat, missing: Option<set<nat>>, pos: nat): (ids: seq<nat>)
    ensures InPlan(c.plan, ids)
    decreases c.N() - pos
  {
    if pos >= c.N() then [] else
    (if Selected(c, resumeFrom, missing, pos) then [pos] else []) + SelectedFrom(c, resumeFrom, missing, pos + 1)
  }

  lemma {:induction false} SelectedFromHas(c: Config, resumeFrom: nat, missing: Option<set<nat>>, pos: nat, j: nat)
    ensures j in SelectedFrom(c, resumeFrom, missing, pos) <==> pos <= j < c.N() && Selected(c, resumeFrom, missing, j)
    decreases c.N() - pos
  {
    if pos < c.N() {
      SelectedFromHas(c, resumeFrom, missing, pos + 1, j);
    }
  }

  /** The chunks still to be written in this session, in order. */
  function Todo(c: Config, s: System): seq<nat> {
    if S.Streaming(s.snd) then
      Resume.Pipe(s) + SelectedFrom(c, s.snd.resumeFrom, s.snd.missing, S.Pos(c, s.snd))
    else if !Flow.Undecided(s.rcv) && s.toS != [] && s.toS[0].Acceptance? then
      SelectedFrom(c, s.toS[0].resumeFrom, s.toS[0].missing, 0)
    else
      SelectedFrom(c, R.ResumeFrom(s.rcv), R.Missing(s.rcv), 0)
  }

  predicate Writing(r: R.Receiver) {
    Flow.Undecided(r) || Joining(r) || R.Busy(r) || r.phase.CheckFile? || r.phase.Rename?
  }

  /** The request is not answered yet, or the part file not yet opened. */
  predicate Unopened(r: R.Receiver) { Flow.Undecided(r) || r.phase.OpenPart? }

  /** Writing the listed chunks over f gives the goal. */
  ghost predicate Aims(c: Config, f: seq<byte>, ids: seq<nat>, goal: seq<byte>)
    requires c.Valid()
  {
    InPlan(c.plan, ids) && WriteAll(f, c.src, c.plan, ids) == goal
  }

  /** The session is on its way to `goal`. */
  ghost predicate Heading(c: Config, s: System, goal: seq<byte>)
    requires c.Valid()
  {
    && (Writing(s.rcv) ==> Aims(c, R.Bytes(s.rcv), Todo(c, s), goal))
    && Sealed(c, s.rcv, goal)
  }

  /** Once the goal has been checked: it is being delivered, or it was refused. */
  predicate Sealed(c: Config, r: R.Receiver, goal: seq<byte>) {
    && (r.phase.Rename? ==> c.hash(goal) == c.fileHash)
    && (r.phase.MarkComplete? || r.phase.SendFinal? || Flow.Completed(r) ==>
          r.dest == Some(goal) && c.hash(goal) == c.fileHash)
    && (Refused(r) ==> c.hash(goal) != c.fileHash)
  }

  // ---- The sender keeps what is to be written

  /** A sent chunk moves from the selection to the pipe; a skipped one was never selected. */
  ghost predicate Shifts(c: Config, s: S.Sender, t: S.Result) {
    var pos := S.Pos(c, s);
    if S.Pos(c, t.s) == pos then Ids(t.out) == []
    else pos < c.N() && S.Pos(c, t.s) == pos + 1
         && Ids(t.out) == if Selected(c, s.resumeFrom, s.missing, pos) then [pos] else []
  }

  lemma SenderShifts(c: Config, s: S.Sender, inp: Input)
    requires c.Valid() && S.Ready(c, s, inp)
    requires s.phase.Window? ==> s.phase.i < c.N() && Selected(c, s.resumeFrom, s.missing, s.phase.i)
    requires S.Streaming(s) && S.Streaming(S.Step(c, s, inp).s)
    requires s.phase.AtChunk? ==> s.phase.i <= c.N()
    ensures Shifts(c, s, S.Step(c, s, inp))
  {
    var out := S.Step(c, s, inp).out;
    if out != [] {
      assert out[1..] == [] && Ids(out) == if out[0].Chunk? then [out[0].index] else [];
    }
  }

  lemma Assoc(a: seq<nat>, b: seq<nat>, d: seq<nat>)
    ensures (a + b) + d == a + (b + d)
  {
  }

  lemma StreamKeepsTodo(c: Config, s: System, inp: Input, res: S.Result)
    requires Heads(s.toS, inp) && S.Streaming(s.snd) && S.Streaming(res.s)
    requires res.s.resumeFrom == s.snd.resumeFrom && res.s.missing == s.snd.missing && Shifts(c, s.snd, res)
    requires Ids(s.toR + res.out) == Ids(s.toR) + Ids(res.out)
    ensures Todo(c, AfterSender(s, inp, res)) == Todo(c, s)
  {
    var t := AfterSender(s, inp, res);
    var head := if s.rcv.phase.Write? && s.rcv.phase.m.Chunk? then [s.rcv.phase.m.index] else [];
    var rest := SelectedFrom(c, s.snd.resumeFrom, s.snd.missing, S.Pos(c, res.s));
    Assoc(head, Ids(s.toR), Ids(res.out));
    Assoc(Resume.Pipe(s), Ids(res.out), rest);
    assert SelectedFrom(c, s.snd.resumeFrom, s.snd.missing, S.Pos(c, s.snd)) == Ids(res.out) + rest;
  }

  lemma StartKeepsTodo(c: Config, s: System, inp: Input)
    requires c.Valid() && Progress.Inv(c, s) && Enabled(c, s, SenderStep(inp)) && FaultFree(SenderStep(inp))
    requires Flow.Early(s.snd) && Writing(s.rcv)
    ensures Todo(c, SenderMoves(c, s, inp)) == Todo(c, s)
  {
    var t := SenderMoves(c, s, inp);
    if S.Streaming(t.snd) {
      assert t.toR == s.toR + [] == [];
      assert Resume.Pipe(t) == [];
      assert Todo(c, t) == [] + SelectedFrom(c, t.snd.resumeFrom, t.snd.missing, 0);
    }
  }

  lemma SenderKeepsTodo(c: Config, s: System, inp: Input)
    requires c.Valid() && Progress.Inv(c, s) && Enabled(c, s, SenderStep(inp)) && FaultFree(SenderStep(inp))
    requires Writing(s.rcv)
    ensures Todo(c, SenderMoves(c, s, inp)) == Todo(c, s)
  {
    if Flow.Early(s.snd) {
      StartKeepsTodo(c, s, inp);
    } else {
      StreamGoesOn(c, s, inp);
      SenderShifts(c, s.snd, inp);
      Resume.SenderAdvances(c, s.snd, inp);
      Flow.SenderStepFacts(c, s.snd, inp);
      Flow.SenderOut(c, s, inp, S.Step(c, s.snd, inp));
      StreamKeepsTodo(c, s, inp, S.Step(c, s.snd, inp));
    }
  }

  /** While the receiver is still writing, a fault-free sender does not stop. */
  lemma StreamGoesOn(c: Config, s: System, inp: Input)
    requires c.Valid() && Progress.Inv(c, s) && Enabled(c, s, SenderStep(inp)) && FaultFree(SenderStep(inp))
    requires S.Streaming(s.snd) && Writing(s.rcv)
    ensures S.Streaming(SenderMoves(c, s, inp).snd)
  {
  }

  // ---- The receiver keeps what is to be written

  /** Before the answer nothing that the answer depends on changes, and the answer says what was selected. */
  lemma UndecidedKeepsAnswer(c: Config, r: R.Receiver, inp: Input)
    requires R.Ready(r, inp) && Flow.Undecided(r) && (inp.Go? || inp.Accept? || (inp.Got? && inp.msg.Request?))
    requires r.phase.InsertRows? ==> r.status.Pending?
    ensures var t := R.Step(c, r, inp);
      && R.Bytes(t.r) == R.Bytes(r)
      && (if r.phase.Decide? then t.r.phase.OpenPart? && t.out == [Acceptance(true, R.ResumeFrom(r), R.Missing(r))]
          else Flow.Undecided(t.r) && R.ResumeFrom(t.r) == R.ResumeFrom(r) && R.Missing(t.r) == R.Missing(r))
  {
  }

  lemma UndecidedKeepsTodo(c: Config, s: System, inp: Input, res: R.Result)
    requires c.Valid() && Progress.Inv(c, s) && Heads(s.toR, inp) && Flow.Undecided(s.rcv)
    requires if s.rcv.phase.Decide?
             then res.r.phase.OpenPart? && res.out == [Acceptance(true, R.ResumeFrom(s.rcv), R.Missing(s.rcv))]
             else Flow.Undecided(res.r) && R.ResumeFrom(res.r) == R.ResumeFrom(s.rcv)
                  && R.Missing(res.r) == R.Missing(s.rcv)
    ensures Todo(c, AfterReceiver(s, inp, res)) == Todo(c, s)
  {
    assert s.toS == [];
    assert AfterReceiver(s, inp, res).toS == res.out;
  }

  /** Steps that touch neither the part file nor the order of the pipe. */
  lemma PlainKeepsTodo(c: Config, s: System, inp: Input, res: R.Result)
    requires c.Valid() && Progress.Inv(c, s) && Heads(s.toR, inp) && !Flow.Undecided(s.rcv)
    requires (inp.Got? && s.rcv.phase.Loop?) || (!inp.Got? && !s.rcv.phase.Write? && !res.r.phase.Write?)
    requires inp.Got? ==> if inp.msg.Chunk? then res.r.phase.Write? && res.r.phase.m == inp.msg else !res.r.phase.Write?
    requires R.Live(res.r) && (Joining(s.rcv) ==> res.out == [])
    requires Writing(s.rcv)
    ensures Todo(c, AfterReceiver(s, inp, res)) == Todo(c, s)
  {
    var t := AfterReceiver(s, inp, res);
    if S.Streaming(s.snd) {
      assert Resume.Pipe(t) == Resume.Pipe(s);
    } else {
      assert t.toS == s.toS;
    }
  }

  lemma PlainStep(c: Config, r: R.Receiver, inp: Input)
    requires R.Ready(r, inp) && Smooth(inp)
    requires Joining(r) || (R.Busy(r) && !r.phase.Write? && r.phase.m.Chunk?)
    requires R.Completing(R.Step(c, r, inp).r) || R.Live(R.Step(c, r, inp).r)
    requires inp.Got? ==> inp.msg.Chunk? || inp.msg.CompleteMsg?
    ensures var res := R.Step(c, r, inp);
      && (!inp.Moved? ==> R.Bytes(res.r) == R.Bytes(r)) && Writing(res.r) && !Unopened(res.r) && !res.r.phase.Rename?
      && (inp.Got? && inp.msg.Chunk? ==> res.r.phase.Write? && res.r.phase.m == inp.msg)
      && (!(inp.Got? && inp.msg.Chunk?) ==> !res.r.phase.Write?)
  {
  }

  lemma UndecidedKeeps(c: Config, s: System, inp: Input)
    requires c.Valid() && Progress.Inv(c, s) && Enabled(c, s, ReceiverStep(inp)) && FaultFree(ReceiverStep(inp))
    requires Flow.Undecided(s.rcv)
    ensures var t := ReceiverMoves(c, s, inp);
      R.Bytes(t.rcv) == R.Bytes(s.rcv) && Todo(c, t) == Todo(c, s) && Unopened(t.rcv)
  {
    UndecidedKeepsAnswer(c, s.rcv, inp);
    UndecidedKeepsTodo(c, s, inp, R.Step(c, s.rcv, inp));
  }

  lemma PlainKeeps(c: Config, s: System, inp: Input)
    requires c.Valid() && Progress.Inv(c, s) && Enabled(c, s, ReceiverStep(inp)) && FaultFree(ReceiverStep(inp))
    requires Joining(s.rcv) || (R.Busy(s.rcv) && !s.rcv.phase.Write?)
    ensures var t := ReceiverMoves(c, s, inp);
      && (!inp.Moved? ==> R.Bytes(t.rcv) == R.Bytes(s.rcv))
      && Todo(c, t) == Todo(c, s) && Writing(t.rcv) && !Unopened(t.rcv) && !t.rcv.phase.Rename?
  {
    if s.rcv.phase.Loop? {
      LoopKind(c, s, inp);
    } else {
      OtherKind(c, s.rcv, inp);
    }
    PlainStep(c, s.rcv, inp);
    PlainKeepsTodo(c, s, inp, R.Step(c, s.rcv, inp));
  }

  // ---- Each kind of step keeps the goal

  /** The sender's steps, seen from the receiver. */
  lemma SameReceiver(c: Config, s: System, t: System, goal: seq<byte>)
    requires c.Valid() && Heading(c, s, goal) && t.rcv == s.rcv
    requires Writing(s.rcv) ==> Todo(c, t) == Todo(c, s)
    ensures Heading(c, t, goal)
  {
  }

  lemma SameWork(c: Config, s: System, t: System, goal: seq<byte>)
    requires c.Valid() && Heading(c, s, goal) && Writing(s.rcv) && Writing(t.rcv) && !t.rcv.phase.Rename?
    requires R.Bytes(t.rcv) == R.Bytes(s.rcv) && Todo(c, t) == Todo(c, s)
    ensures Heading(c, t, goal)
  {
  }

  lemma TodoAfterWrite(c: Config, s: System, t: System)
    requires s.rcv.phase.Write? && s.rcv.phase.m.Chunk? && S.Streaming(s.snd)
    requires t.snd == s.snd && t.toR == s.toR && t.rcv.phase.Confirm?
    ensures Todo(c, s) == [s.rcv.phase.m.index] + Todo(c, t)
  {
    assert Resume.Pipe(s) == [s.rcv.phase.m.index] + Ids(s.toR) && Resume.Pipe(t) == Ids(s.toR);
    Assoc([s.rcv.phase.m.index], Ids(s.toR), SelectedFrom(c, s.snd.resumeFrom, s.snd.missing, S.Pos(c, s.snd)));
  }

  lemma {:induction false} WriteFirst(c: Config, f: seq<byte>, k: nat, rest: seq<nat>)
    requires c.Valid() && InPlan(c.plan, [k] + rest)
    ensures InPlan(c.plan, rest) && k == ([k] + rest)[0]
    ensures WriteAll(f, c.src, c.plan, [k] + rest) ==
              WriteAll(WriteAt(f, c.plan[k].offset, c.Data(k)), c.src, c.plan, rest)
  {
    assert forall q | 0 <= q < |rest| :: rest[q] == ([k] + rest)[q + 1];
    assert ([k] + rest)[1..] == rest;
  }

  lemma WriteKeeps(c: Config, s: System, t: System, goal: seq<byte>)
    requires c.Valid() && Resume.HonestInHand(c, s.rcv) && Heading(c, s, goal)
    requires s.rcv.phase.Write? && S.Streaming(s.snd)
    requires t.snd == s.snd && t.toR == s.toR && t.rcv.phase.Confirm?
    requires R.Bytes(t.rcv) == WriteAt(R.Bytes(s.rcv), s.rcv.phase.m.offset, s.rcv.phase.plain)
    ensures Heading(c, t, goal)
  {
    TodoAfterWrite(c, s, t);
    WriteFirst(c, R.Bytes(s.rcv), s.rcv.phase.m.index, Todo(c, t));
  }

  lemma CheckingIsFinal(c: Config, s: System)
    requires Healthy(c, s) && (s.rcv.phase.CheckFile? || s.rcv.phase.Rename?)
    ensures s.snd.phase.AwaitFinal? && s.toR == []
  {
  }

  lemma NothingTodo(c: Config, s: System)
    requires s.snd.phase.AwaitFinal? && s.toR == [] && !s.rcv.phase.Write?
    ensures Todo(c, s) == []
  {
    assert Resume.Pipe(s) == [];
    assert SelectedFrom(c, s.snd.resumeFrom, s.snd.missing, c.N()) == [];
  }

  /** When the file is checked everything has been written, so the part file is the goal. */
  lemma NothingLeft(c: Config, s: System, goal: seq<byte>)
    requires c.Valid() && Heading(c, s, goal)
    requires s.rcv.phase.CheckFile? || s.rcv.phase.Rename?
    requires s.snd.phase.AwaitFinal? && s.toR == []
    ensures R.Bytes(s.rcv) == goal
  {
    NothingTodo(c, s);
  }

  ghost predicate ConcludeFacts(c: Config, r: R.Receiver, t: R.Receiver) {
    match r.phase
    case CheckFile(claimed) =>
      if c.hash(R.Bytes(r)) != claimed then t.phase == R.Refuse(true) else t.phase.Rename? && R.Bytes(t) == R.Bytes(r)
    case Rename => t.phase.MarkComplete? && t.dest == Some(R.Bytes(r))
    case MarkComplete => t.phase.SendFinal? && t.dest == r.dest
    case SendFinal => Flow.Completed(t) && t.dest == r.dest
    case Refuse(_) => t.phase.Delete? || t.phase == R.Ended(false)
    case Delete => t.phase == R.Ended(false)
    case _ => false
  }

  lemma ConcludeStep(c: Config, r: R.Receiver, inp: Input)
    requires R.Ready(r, inp) && Smooth(inp) && (R.Completing(r) || R.Refusing(r))
    ensures ConcludeFacts(c, r, R.Step(c, r, inp).r) && !inp.Got?
  {
  }

  lemma CheckSeals(c: Config, r: R.Receiver, t: R.Receiver)
    requires r.phase.CheckFile? && r.phase.claimed == c.fileHash && ConcludeFacts(c, r, t)
    ensures Sealed(c, t, R.Bytes(r)) && (Writing(t) ==> t.phase.Rename? && R.Bytes(t) == R.Bytes(r))
  {
  }

  lemma CheckKeeps(c: Config, s: System, t: System, goal: seq<byte>)
    requires c.Valid() && s.rcv.phase.CheckFile? && s.rcv.phase.claimed == c.fileHash
    requires ConcludeFacts(c, s.rcv, t.rcv)
    requires R.Bytes(s.rcv) == goal && s.snd.phase.AwaitFinal? && t.snd == s.snd && t.toR == []
    ensures Heading(c, t, goal)
  {
    CheckSeals(c, s.rcv, t.rcv);
    if Writing(t.rcv) { NothingTodo(c, t); }
  }

  lemma ConcludeSeals(c: Config, r: R.Receiver, t: R.Receiver, goal: seq<byte>)
    requires Sealed(c, r, goal) && (R.Completing(r) || R.Refusing(r))
    requires !r.phase.CheckFile? && ConcludeFacts(c, r, t)
    requires r.phase.Rename? ==> R.Bytes(r) == goal
    requires R.Refusing(r) ==> Refused(r)
    ensures Sealed(c, t, goal) && !Writing(t)
  {
  }

  lemma ConcludeKeepsHeading(c: Config, s: System, inp: Input, goal: seq<byte>)
    requires c.Valid() && Progress.Inv(c, s) && Enabled(c, s, ReceiverStep(inp)) && FaultFree(ReceiverStep(inp))
    requires Heading(c, s, goal) && (R.Completing(s.rcv) || R.Refusing(s.rcv))
    ensures Heading(c, ReceiverMoves(c, s, inp), goal)
  {
    if s.rcv.phase.CheckFile? || s.rcv.phase.Rename? {
      CheckingIsFinal(c, s);
      NothingLeft(c, s, goal);
    }
    ConcludeStep(c, s.rcv, inp);
    if s.rcv.phase.CheckFile? {
      CheckKeeps(c, s, ReceiverMoves(c, s, inp), goal);
    } else {
      ConcludeSeals(c, s.rcv, ReceiverMoves(c, s, inp).rcv, goal);
    }
  }

  /** A fault-free step that does not open the part file keeps the goal. */
  lemma StepKeepsHeading(c: Config, s: System, e: Event, goal: seq<byte>)
    requires c.Valid() && Progress.Inv(c, s) && Enabled(c, s, e) && FaultFree(e) && Heading(c, s, goal)
    requires !Opens(s, e)
    ensures Heading(c, Apply(c, s, e), goal)
  {
    match e
    case SenderStep(inp) =>
      if Writing(s.rcv) { SenderKeepsTodo(c, s, inp); }
      SameReceiver(c, s, Apply(c, s, e), goal);
    case ReceiverStep(inp) => ReceiverKeepsHeading(c, s, inp, goal);
  }

  lemma WorkKeepsHeading(c: Config, s: System, inp: Input, goal: seq<byte>)
    requires c.Valid() && Progress.Inv(c, s) && Enabled(c, s, ReceiverStep(inp)) && FaultFree(ReceiverStep(inp))
    requires Heading(c, s, goal) && !Opens(s, ReceiverStep(inp))
    requires Flow.Undecided(s.rcv) || Joining(s.rcv) || (R.Busy(s.rcv) && !s.rcv.phase.Write?)
    ensures Heading(c, ReceiverMoves(c, s, inp), goal)
  {
    if Flow.Undecided(s.rcv) {
      UndecidedKeeps(c, s, inp);
    } else {
      PlainKeeps(c, s, inp);
    }
    SameWork(c, s, ReceiverMoves(c, s, inp), goal);
  }

  lemma ReceiverKeepsHeading(c: Config, s: System, inp: Input, goal: seq<byte>)
    requires c.Valid() && Progress.Inv(c, s) && Enabled(c, s, ReceiverStep(inp)) && FaultFree(ReceiverStep(inp))
    requires Heading(c, s, goal) && !Opens(s, ReceiverStep(inp))
    ensures Heading(c, ReceiverMoves(c, s, inp), goal)
  {
    if s.rcv.phase.Write? {
      WriteKeeps(c, s, ReceiverMoves(c, s, inp), goal);
    } else if Flow.Undecided(s.rcv) || Joining(s.rcv) || R.Busy(s.rcv) {
      WorkKeepsHeading(c, s, inp, goal);
    } else {
      ConcludeKeepsHeading(c, s, inp, goal);
    }
  }

  // ---- Opening the part file sets the goal

  predicate Opens(s: System, e: Event) { e.ReceiverStep? && s.rcv.phase.OpenPart? }

  /** The session works towards the listed chunks written over f, where f is what it opened or will open. */
  ghost predicate Underway(c: Config, s: System, f: seq<byte>, ids: seq<nat>)
    requires c.Valid() && InPlan(c.plan, ids)
  {
    && Heading(c, s, WriteAll(f, c.src, c.plan, ids))
    && (Unopened(s.rcv) ==> R.Bytes(s.rcv) == f && Todo(c, s) == ids)
  }

  /** While the part file is not open, no fault-free step changes it or what is to be written. */
  lemma StaysUnopened(c: Config, s: System, e: Event)
    requires c.Valid() && Progress.Inv(c, s) && Enabled(c, s, e) && FaultFree(e) && !Opens(s, e)
    ensures var t := Apply(c, s, e);
      Unopened(t.rcv) ==> Unopened(s.rcv) && R.Bytes(t.rcv) == R.Bytes(s.rcv) && Todo(c, t) == Todo(c, s)
  {
    match e
    case SenderStep(inp) => if Unopened(s.rcv) { SenderKeepsTodo(c, s, inp); }
    case ReceiverStep(inp) =>
      if Flow.Undecided(s.rcv) {
        UndecidedKeeps(c, s, inp);
      } else if (Joining(s.rcv) || R.Busy(s.rcv)) && !s.rcv.phase.Write? {
        PlainKeeps(c, s, inp);
      } else {
        LaterPhase(c, s.rcv, inp);
      }
  }

  lemma LaterPhase(c: Config, r: R.Receiver, inp: Input)
    requires (R.Busy(r) ==> r.phase.m.Chunk?) && !Flow.Undecided(r) && !r.phase.OpenPart?
    ensures !Unopened(R.Step(c, r, inp).r)
  {
  }

  lemma OpeningStep(c: Config, s: System, e: Event, f: seq<byte>, ids: seq<nat>)
    requires c.Valid() && Progress.Inv(c, s) && Enabled(c, s, e) && FaultFree(e) && Opens(s, e)
    requires InPlan(c.plan, ids) && Underway(c, s, f, ids)
    ensures var t := Apply(c, s, e); t.rcv.phase.Start? && Underway(c, t, R.Bytes(t.rcv), ids)
  {
    PlainKeeps(c, s, e.inp);
    OpenPhase(c, s.rcv, e.inp);
  }

  lemma OpenPhase(c: Config, r: R.Receiver, inp: Input)
    requires r.phase.OpenPart? && !inp.Fault?
    ensures R.Step(c, r, inp).r.phase.Start?
  {
  }

  /** Every fault-free step keeps the session under way; opening the part file settles what f is. */
  lemma StepStaysUnderway(c: Config, s: System, e: Event, f: seq<byte>, ids: seq<nat>)
    requires c.Valid() && Progress.Inv(c, s) && Enabled(c, s, e) && FaultFree(e)
    requires InPlan(c.plan, ids) && Underway(c, s, f, ids)
    ensures Underway(c, Apply(c, s, e), if Opens(s, e) then R.Bytes(Apply(c, s, e).rcv) else f, ids)
  {
    if Opens(s, e) {
      OpeningStep(c, s, e, f, ids);
    } else {
      StepKeepsHeading(c, s, e, WriteAll(f, c.src, c.plan, ids));
      StaysUnopened(c, s, e);
    }
  }
}
