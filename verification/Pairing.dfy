/**
 Mutual confirmation of a pairing, after the handshake.

 The responder's loop looks at its user's decision first and reads second; the initiator's loop reads first.
 Both share the two half-turns below.  A side that already holds the peer as paired skips the loop and
 exchanges one confirmation byte.
 */
module Pairing {
  import opened Common

  datatype Role = Initiator | Responder

  /** By first byte: 1, 0, 0xFF, and the frames of a running sync session. */
  datatype Frame = ConfirmByte | RejectByte | StaleByte | SyncFrame

  datatype Intent = Reconnect | Pair | Unstated

  datatype Phase = Start | Check | Read | Trusted | Session | Failed

  datatype Side = Side(
    phase: Phase,
    local: bool,
    remote: bool,
    decision: Option<bool>,
    held: bool,            // the peer was paired before this connection
    added: bool)           // this connection stored the peer

  datatype ReadResult = Got(frame: Frame) | Quiet | Lost

  datatype Result = Result(side: Side, out: seq<Frame>)

  /** After the loop: store the peer if both flags are set, else fail. */
  function Leave(s: Side): Side {
    if s.local && s.remote then s.(phase := Session, added := true) else s.(phase := Failed)
  }

  /** End of a turn: leave if both sides have confirmed, else begin the next turn. */
  function Join(role: Role, s: Side): Side {
    if s.local && s.remote then Leave(s) else s.(phase := if role.Responder? then Check else Read)
  }

  /** The half-turn that looks at the user's decision. */
  function CheckHalf(role: Role, s: Side): Result {
    match s.decision
    case Some(false) => Result(Leave(s), [RejectByte])
    case Some(true) =>
      var t := s.(local := true);
      Result(if role.Responder? then t.(phase := Read) else Join(role, t), if s.local then [] else [ConfirmByte])
    case None => Result(if role.Responder? then s.(phase := Read) else Join(role, s), [])
  }

  /** The half-turn that reads. */
  function ReadHalf(role: Role, s: Side, read: ReadResult): Side {
    match read
    case Got(ConfirmByte) =>
      var t := s.(remote := true);
      if role.Responder? then Join(role, t) else t.(phase := Check)
    case Quiet => if role.Responder? then Join(role, s) else s.(phase := Check)
    case _ => Leave(s)
  }

  /** What happens right after the handshake. */
  function Open(role: Role, s: Side, intent: Intent): Result {
    if role.Responder? && intent.Reconnect? && !s.held then Result(s.(phase := Failed), [StaleByte])
    else if s.held then Result(s.(phase := Trusted), [ConfirmByte])
    else Result(s.(phase := if role.Responder? then Check else Read), [])
  }

  /** The single exchange of a trusted side. */
  function TrustedHalf(s: Side, read: ReadResult): Side {
    if read == Got(ConfirmByte) then s.(phase := Session) else s.(phase := Failed)
  }

  // ---- Two sides and the link

  /** `sentI` and `sentR` are all frames each side has sent, `readI` and `readR` how many each has read. */
  datatype Link = Link(
    ini: Side, res: Side, sentI: seq<Frame>, sentR: seq<Frame>, readI: nat, readR: nat, intent: Intent)

  datatype Event =
    | Decide(role: Role, accepted: bool)   // the user answers the prompt, once
    | Act(role: Role)                      // a step that does not read
    | Reads(role: Role, read: ReadResult)  // a step that reads
    | Breaks(role: Role)                   // a write fails

  function Of(role: Role, l: Link): Side { if role.Initiator? then l.ini else l.res }

  function Incoming(role: Role, l: Link): seq<Frame>
    requires l.readI <= |l.sentR| && l.readR <= |l.sentI|
  {
    if role.Initiator? then l.sentR[l.readI..] else l.sentI[l.readR..]
  }

  predicate Shaped(l: Link) { l.readI <= |l.sentR| && l.readR <= |l.sentI| }

  predicate Enabled(l: Link, e: Event)
    requires Shaped(l)
  {
    var s := Of(e.role, l);
    match e
    case Decide(_, _) => s.decision.None? && (s.phase.Check? || s.phase.Read?)
    case Act(_) => s.phase.Start? || s.phase.Check? || s.phase.Session?
    case Breaks(_) => s.phase.Start? || s.phase.Check? || s.phase.Session?
    case Reads(role, read) =>
      && (s.phase.Read? || s.phase.Trusted? || s.phase.Session?)
      && (read.Got? ==> Incoming(role, l) != [] && Incoming(role, l)[0] == read.frame)
  }

  /** One side's reaction to an event. */
  function React(role: Role, s: Side, e: Event, intent: Intent): Result {
    match e
    case Decide(_, accepted) => Result(s.(decision := Some(accepted)), [])
    case Act(_) =>
      if s.phase.Start? then Open(role, s, intent)
      else if s.phase.Check? then CheckHalf(role, s)
      else Result(s, [SyncFrame])
    case Breaks(_) => Result(s.(phase := Failed), [])
    case Reads(_, read) =>
      if s.phase.Read? then Result(ReadHalf(role, s, read), [])
      else if s.phase.Trusted? then Result(TrustedHalf(s, read), [])
      else Result(s, [])
  }

  function Apply(l: Link, e: Event): Link
    requires Shaped(l) && Enabled(l, e)
  {
    var r := React(e.role, Of(e.role, l), e, l.intent);
    var n := if e.Reads? && e.read.Got? then 1 else 0;
    if e.role.Initiator? then l.(ini := r.side, sentI := l.sentI + r.out, readI := l.readI + n)
    else l.(res := r.side, sentR := l.sentR + r.out, readR := l.readR + n)
  }

  predicate FreshSide(s: Side) { s.phase.Start? && !s.local && !s.remote && s.decision.None? && !s.added }

  predicate Initial(l: Link) {
    FreshSide(l.ini) && FreshSide(l.res) && l.sentI == [] && l.sentR == [] && l.readI == 0 && l.readR == 0
  }

  ghost predicate Follows(l: Link, m: Link, lossless: bool) {
    Shaped(l) && exists e :: Enabled(l, e) && (lossless ==> !Faulty(e)) && m == Apply(l, e)
  }

  predicate Faulty(e: Event) { e.Breaks? || (e.Reads? && e.read.Lost?) }

  ghost predicate IsRun(run: seq<Link>, lossless: bool) {
    run != [] && Initial(run[0]) && forall i | 0 < i < |run| :: Follows(run[i - 1], run[i], lossless)
  }

  // ---- Safety, in every run, with any faults and any trusted shortcuts

  /** One side together with what it sent and what it has read from the other. */
  predicate SafeSide(s: Side, sent: seq<Frame>, got: seq<Frame>) {
    && (s.local ==> s.decision == Some(true))
    && (s.remote ==> ConfirmByte in got)
    && (s.added ==> !s.held && s.local && s.remote)
    && (ConfirmByte in sent ==> s.held || s.decision == Some(true))
    && (s.held ==> !s.phase.Check? && !s.phase.Read?)
    && (s.phase.Start? ==> sent == [] && s.decision.None?)
    && Admitted(s, got) && Vouches(s, sent)
  }

  /** A side that held its peer has a session only on the word of the first frame it read. */
  predicate Admitted(s: Side, got: seq<Frame>) {
    && (s.phase.Start? || s.phase.Trusted? ==> got == [])
    && (s.held && s.phase.Session? ==> got != [] && got[0].ConfirmByte?)
  }

  /** What a side that held its peer says first. */
  predicate Vouches(s: Side, sent: seq<Frame>) {
    && (s.held && (s.phase.Trusted? || s.phase.Session?) ==> sent != [])
    && (s.held && sent != [] ==> sent[0].ConfirmByte?)
  }

  predicate Safe(l: Link) {
    && Shaped(l)
    && SafeSide(l.ini, l.sentI, l.sentR[..l.readI])
    && SafeSide(l.res, l.sentR, l.sentI[..l.readR])
    && (l.intent.Reconnect? && !l.res.held ==>
          && !l.res.added && (l.res.phase.Start? || l.res.phase.Failed?)
          && forall k | 0 <= k < |l.sentR| :: l.sentR[k].StaleByte?)
  }

  /** What one side reads grows; what it sends grows. */
  lemma SideStaysSafe(role: Role, s: Side, e: Event, intent: Intent, sent: seq<Frame>,
                      got: seq<Frame>, got': seq<Frame>)
    requires SafeSide(s, sent, got)
    requires got' == if e.Reads? && e.read.Got? then got + [e.read.frame] else got
    requires match e
             case Decide(_, _) => s.decision.None? && (s.phase.Check? || s.phase.Read?)
             case Reads(_, _) => s.phase.Read? || s.phase.Trusted? || s.phase.Session?
             case _ => s.phase.Start? || s.phase.Check? || s.phase.Session?
    ensures var r := React(role, s, e, intent); SafeSide(r.side, sent + r.out, got')
  {
    var r := React(role, s, e, intent);
    assert ConfirmByte in sent + r.out <==> ConfirmByte in sent || ConfirmByte in r.out;
    assert ConfirmByte in got ==> ConfirmByte in got';
    assert if sent == [] then sent + r.out == r.out else (sent + r.out)[0] == sent[0];
    if e.Reads? && e.read == Got(ConfirmByte) {
      assert got'[|got|] == ConfirmByte;
    }
  }

  lemma TakeNext(q: seq<Frame>, n: nat)
    requires n < |q|
    ensures q[..n + 1] == q[..n] + [q[n]]
  {
  }

  lemma InitiatorStaysSafe(l: Link, e: Event)
    requires Safe(l) && Enabled(l, e) && e.role.Initiator?
    ensures Safe(Apply(l, e))
  {
    var m := Apply(l, e);
    var got := if e.Reads? && e.read.Got? then l.sentR[..l.readI] + [e.read.frame] else l.sentR[..l.readI];
    assert m.sentR[..m.readI] == got by {
      if e.Reads? && e.read.Got? { TakeNext(l.sentR, l.readI); }
    }
    SideStaysSafe(Initiator, l.ini, e, l.intent, l.sentI, l.sentR[..l.readI], got);
    assert m.sentI[..m.readR] == l.sentI[..l.readR];
  }

  lemma ResponderStaysSafe(l: Link, e: Event)
    requires Safe(l) && Enabled(l, e) && e.role.Responder?
    ensures Safe(Apply(l, e))
  {
    var m := Apply(l, e);
    var got := if e.Reads? && e.read.Got? then l.sentI[..l.readR] + [e.read.frame] else l.sentI[..l.readR];
    assert m.sentI[..m.readR] == got by {
      if e.Reads? && e.read.Got? { TakeNext(l.sentI, l.readR); }
    }
    SideStaysSafe(Responder, l.res, e, l.intent, l.sentR, l.sentI[..l.readR], got);
    assert m.sentR[..m.readI] == l.sentR[..l.readI];
    if l.intent.Reconnect? && !l.res.held { ShutOut(l.res, e, l.intent); }
  }

  /** A responder that does not hold an initiator that reconnects says so and is done. */
  lemma ShutOut(s: Side, e: Event, intent: Intent)
    requires intent.Reconnect? && !s.held && !s.added && (s.phase.Start? || s.phase.Failed?)
    requires Possible(Responder, s, e)
    ensures var r := React(Responder, s, e, intent);
      r.side.phase.Failed? && !r.side.added && forall k | 0 <= k < |r.out| :: r.out[k].StaleByte?
  {
  }

  lemma StepStaysSafe(l: Link, e: Event)
    requires Safe(l) && Enabled(l, e)
    ensures Safe(Apply(l, e))
  {
    if e.role.Initiator? { InitiatorStaysSafe(l, e); } else { ResponderStaysSafe(l, e); }
  }

  /** What a connection never changes: who held whom at its start, and why it was made. */
  lemma StepKeepsHeld(l: Link, e: Event)
    requires Shaped(l) && Enabled(l, e)
    ensures var m := Apply(l, e);
      m.ini.held == l.ini.held && m.res.held == l.res.held && m.intent == l.intent
  {
  }

  lemma {:induction false} RunSafe(run: seq<Link>, lossless: bool, i: nat)
    requires IsRun(run, lossless) && i < |run|
    ensures Safe(run[i])
    ensures run[i].ini.held == run[0].ini.held && run[i].res.held == run[0].res.held && run[i].intent == run[0].intent
  {
    if i > 0 {
      RunSafe(run, lossless, i - 1);
      FollowsStaysSafe(run[i - 1], run[i], lossless);
    }
  }

  lemma FollowsStaysSafe(l: Link, m: Link, lossless: bool)
    requires Safe(l) && Follows(l, m, lossless)
    ensures Safe(m)
    ensures m.ini.held == l.ini.held && m.res.held == l.res.held && m.intent == l.intent
  {
    var e :| Enabled(l, e) && m == Apply(l, e);
    StepStaysSafe(l, e);
    StepKeepsHeld(l, e);
  }

  /** What a side has sent, and what it has read of the other's frames. */
  function SentBy(role: Role, l: Link): seq<Frame> { if role.Initiator? then l.sentI else l.sentR }

  function ReadBy(role: Role, l: Link): seq<Frame>
    requires Shaped(l)
  {
    if role.Initiator? then l.sentR[..l.readI] else l.sentI[..l.readR]
  }

  /** Safety: in every run, with any faults, a side stores the peer only if it did not hold it, its own user accepted
      and it has read byte 1; and a side has sent byte 1 only if its user accepted or it already held the peer. */
  lemma PairingSafety(run: seq<Link>, lossless: bool, i: nat, role: Role)
    requires IsRun(run, lossless) && i < |run|
    ensures Shaped(run[i])
    ensures var s := Of(role, run[i]);
      && (s.added ==> !s.held && s.decision == Some(true) && ConfirmByte in ReadBy(role, run[i]))
      && (ConfirmByte in SentBy(role, run[i]) ==> s.held || s.decision == Some(true))
  {
    RunSafe(run, lossless, i);
  }

  /** A stale reconnect never stores anything at a responder that does not hold the initiator. */
  lemma StaleReconnectStoresNothing(run: seq<Link>, lossless: bool, i: nat)
    requires IsRun(run, lossless) && i < |run|
    requires run[0].intent.Reconnect? && !run[0].res.held
    ensures !run[i].res.added && (run[i].res.phase.Start? || run[i].res.phase.Failed?)
  {
    RunSafe(run, lossless, i);
  }

  /** Admission: in every run, with any faults, a side that held its peer is in a session only if the first frame it
      read, the one it waited for, was byte 1. */
  lemma TrustedAdmission(run: seq<Link>, lossless: bool, i: nat, role: Role)
    requires IsRun(run, lossless) && i < |run| && Of(role, run[0]).held && Of(role, run[i]).phase.Session?
    ensures Shaped(run[i]) && ReadBy(role, run[i]) != [] && ReadBy(role, run[i])[0].ConfirmByte?
  {
    RunSafe(run, lossless, i);
  }

  /** So an initiator that reconnects to a responder that has dropped it never gets a session. */
  lemma StaleReconnectRefused(run: seq<Link>, lossless: bool, i: nat)
    requires IsRun(run, lossless) && i < |run|
    requires run[0].intent.Reconnect? && run[0].ini.held && !run[0].res.held
    ensures !run[i].ini.phase.Session?
  {
    RunSafe(run, lossless, i);
  }

  /** A side that held its peer waits for one frame and fails only if that is not byte 1. */
  predicate Decided(s: Side, got: seq<Frame>) {
    && (s.held ==> s.phase.Start? || s.phase.Trusted? || Settled(s))
    && (s.held && s.phase.Failed? ==> got == [] || !got[0].ConfirmByte?)
  }

  predicate AllDecided(l: Link) {
    Shaped(l) && Decided(l.ini, l.sentR[..l.readI]) && Decided(l.res, l.sentI[..l.readR])
  }

  lemma StepStaysDecided(l: Link, e: Event)
    requires Safe(l) && AllDecided(l) && Enabled(l, e) && !Faulty(e)
    ensures AllDecided(Apply(l, e))
  {
    var m := Apply(l, e);
    if e.role.Initiator? {
      if e.Reads? && e.read.Got? { TakeNext(l.sentR, l.readI); }
      assert m.sentI[..m.readR] == l.sentI[..l.readR];
    } else {
      if e.Reads? && e.read.Got? { TakeNext(l.sentI, l.readR); }
      assert m.sentR[..m.readI] == l.sentR[..l.readI];
    }
  }

  lemma FollowsStaysDecided(l: Link, m: Link)
    requires Safe(l) && AllDecided(l) && Follows(l, m, true)
    ensures AllDecided(m)
  {
    var e :| Enabled(l, e) && !Faulty(e) && m == Apply(l, e);
    StepStaysDecided(l, e);
  }

  lemma {:induction false} RunDecided(run: seq<Link>, i: nat)
    requires IsRun(run, true) && i < |run|
    ensures AllDecided(run[i])
  {
    if i > 0 {
      RunDecided(run, i - 1);
      RunSafe(run, true, i - 1);
      assert Follows(run[i - 1], run[i], true);
      FollowsStaysDecided(run[i - 1], run[i]);
    }
  }

  /** Byte 1 is also enough: while nothing breaks, a settled side that held its peer has a session exactly if the frame
      it waited for came and was byte 1. */
  lemma TrustedSessionIff(run: seq<Link>, i: nat, role: Role)
    requires IsRun(run, true) && i < |run| && Of(role, run[0]).held && Settled(Of(role, run[i]))
    ensures Shaped(run[i])
    ensures Of(role, run[i]).phase.Session?
            <==> ReadBy(role, run[i]) != [] && ReadBy(role, run[i])[0].ConfirmByte?
  {
    RunSafe(run, true, i);
    RunDecided(run, i);
  }

  /** Two sides that hold each other meet: while nothing breaks, a settled side has a session exactly if the other's
      frame came. */
  lemma TrustedSidesMeet(run: seq<Link>, i: nat, role: Role)
    requires IsRun(run, true) && i < |run| && run[0].ini.held && run[0].res.held && Settled(Of(role, run[i]))
    ensures Shaped(run[i])
    ensures Of(role, run[i]).phase.Session? <==> ReadBy(role, run[i]) != []
  {
    TrustedSessionIff(run, i, role);
    RunSafe(run, true, i);
  }

  /** Who is turned away at the door, and who says so. */
  predicate Doors(l: Link) {
    && StaleByte !in l.sentI
    && (StaleByte in l.sentR <==> l.intent.Reconnect? && !l.res.held && !l.res.phase.Start?)
    && (l.ini.phase.Failed? ==> l.readI > 0 || l.ini.held || l.ini.decision == Some(false))
    && (l.res.phase.Failed? ==>
          l.readR > 0 || l.res.held || l.res.decision == Some(false) || l.intent.Reconnect?)
  }

  lemma InitiatorKeepsDoors(l: Link, e: Event)
    requires Shaped(l) && Doors(l) && Unread(l) && Enabled(l, e) && !Faulty(e) && e.role.Initiator?
    ensures Doors(Apply(l, e)) && Unread(Apply(l, e))
  {
    var out := React(Initiator, l.ini, e, l.intent).out;
    assert StaleByte in l.sentI + out <==> StaleByte in out;
  }

  lemma ResponderKeepsDoors(l: Link, e: Event)
    requires Shaped(l) && Doors(l) && Unread(l) && Enabled(l, e) && !Faulty(e) && e.role.Responder?
    ensures Doors(Apply(l, e)) && Unread(Apply(l, e))
  {
    var out := React(Responder, l.res, e, l.intent).out;
    assert StaleByte in l.sentR + out <==> StaleByte in l.sentR || StaleByte in out;
  }

  /** What holds before anything was read or said, and of the shortcut. */
  predicate Unread(l: Link) {
    && (l.readI == 0 ==> !l.ini.remote) && (l.readR == 0 ==> !l.res.remote)
    && (l.ini.phase.Start? ==> l.sentI == []) && (l.res.phase.Start? ==> l.sentR == [])
    && (l.ini.phase.Trusted? ==> l.ini.held) && (l.res.phase.Trusted? ==> l.res.held)
  }

  lemma FollowsKeepsDoors(l: Link, m: Link)
    requires Doors(l) && Unread(l) && Follows(l, m, true)
    ensures Doors(m) && Unread(m)
  {
    var e :| Enabled(l, e) && !Faulty(e) && m == Apply(l, e);
    if e.role.Initiator? { InitiatorKeepsDoors(l, e); } else { ResponderKeepsDoors(l, e); }
  }

  lemma {:induction false} RunDoors(run: seq<Link>, i: nat)
    requires IsRun(run, true) && i < |run|
    ensures Doors(run[i]) && Unread(run[i])
  {
    if i > 0 {
      RunDoors(run, i - 1);
      assert Follows(run[i - 1], run[i], true);
      FollowsKeepsDoors(run[i - 1], run[i]);
    }
  }

  /** While nothing breaks: only a responder turns anyone away, exactly when it is asked to reconnect by one it does not
      hold; and a side that does not hold its peer fails only on its own user's refusal or after it has read a frame,
      unless it is such a responder. */
  lemma TurnedAwayIff(run: seq<Link>, i: nat)
    requires IsRun(run, true) && i < |run|
    ensures var l := run[i];
      && StaleByte !in l.sentI
      && (StaleByte in l.sentR <==> run[0].intent.Reconnect? && !run[0].res.held && !l.res.phase.Start?)
      && (l.ini.phase.Failed? && !run[0].ini.held ==> l.readI > 0 || l.ini.decision == Some(false))
      && (l.res.phase.Failed? && !run[0].res.held && !run[0].intent.Reconnect? ==>
            l.readR > 0 || l.res.decision == Some(false))
  {
    RunDoors(run, i);
    RunSafe(run, true, i);
  }

  // ---- Agreement, when neither side holds the other and the link loses nothing

  predicate SyncAfterFirst(sent: seq<Frame>) { forall k | 1 <= k < |sent| :: sent[k] == SyncFrame }

  predicate Refusal(s: Side, f: Frame) { f.StaleByte? || (f.RejectByte? && s.decision == Some(false)) }

  /** A side and what it sent: one answer, then only session frames, and those only once it is paired. */
  predicate Spoken(role: Role, s: Side, sent: seq<Frame>) {
    && !s.held && !s.phase.Trusted?
    && (s.local <==> sent != [] && sent[0].ConfirmByte?)
    && (s.local ==> s.decision == Some(true))
    && (sent != [] && !s.local ==> |sent| == 1 && s.phase.Failed? && Refusal(s, sent[0]))
    && SyncAfterFirst(sent) && (|sent| > 1 ==> s.local && s.remote)
    && (s.phase.Session? <==> s.added) && (s.phase.Session? ==> s.local && s.remote)
    && (s.phase.Failed? ==> !(s.local && s.remote))
    && (s.phase.Start? ==> sent == [])
    && (s.phase.Read? && role.Initiator? ==> !(s.local && s.remote))
    && (s.phase.Check? && role.Responder? ==> !(s.local && s.remote))
  }

  /** A side and what it has read of the peer's frames: the first frame decides. */
  predicate Heard(s: Side, sent: seq<Frame>, peer: seq<Frame>, read: nat) {
    && read <= |peer|
    && (s.remote <==> read >= 1 && peer[0].ConfirmByte?)
    && (read >= 1 && !peer[0].ConfirmByte? ==> s.phase.Failed?)
    && (s.phase.Failed? ==> (sent != [] && !sent[0].ConfirmByte?) || (read >= 1 && !peer[0].ConfirmByte?))
    && (s.phase.Start? ==> read == 0)
  }

  predicate Fair(l: Link) {
    && Spoken(Initiator, l.ini, l.sentI) && Spoken(Responder, l.res, l.sentR)
    && Heard(l.ini, l.sentI, l.sentR, l.readI) && Heard(l.res, l.sentR, l.sentI, l.readR)
    && (StaleByte in l.sentI || StaleByte in l.sentR ==> l.intent.Reconnect?)
  }

  /** A session frame on the link means both users have accepted and its sender has heard the other. */
  lemma SyncMeansBoth(l: Link, k: nat)
    requires Fair(l)
    ensures k < |l.sentR| && l.sentR[k].SyncFrame? ==> k >= 1 && l.ini.local && l.res.local
    ensures k < |l.sentI| && l.sentI[k].SyncFrame? ==> k >= 1 && l.ini.local && l.res.local
  {
  }

  /** The initiator's loop never consumes a session frame. */
  lemma InitiatorNeverReadsSync(l: Link, read: ReadResult)
    requires Fair(l) && l.ini.phase.Read? && Enabled(l, Reads(Initiator, read))
    ensures read != Got(SyncFrame)
  {
    if read.Got? {
      assert l.sentR[l.readI] == read.frame;
      SyncMeansBoth(l, l.readI);
    }
  }

  predicate Possible(role: Role, s: Side, e: Event) {
    match e
    case Decide(_, _) => s.decision.None? && (s.phase.Check? || s.phase.Read?)
    case Reads(_, _) => s.phase.Read? || s.phase.Trusted? || s.phase.Session?
    case _ => s.phase.Start? || s.phase.Check? || s.phase.Session?
  }

  lemma SpokenStays(role: Role, s: Side, e: Event, intent: Intent, sent: seq<Frame>)
    requires Spoken(role, s, sent) && Possible(role, s, e) && !Faulty(e)
    ensures var r := React(role, s, e, intent); Spoken(role, r.side, sent + r.out)
  {
    var r := React(role, s, e, intent);
    var more := sent + r.out;
    assert |r.out| <= 1 && (r.out == [] ==> more == sent);
    assert sent == [] ==> more == r.out;
  }

  /** What a side has heard stays right when it reacts; `peer[read]` is what it reads, if it reads. */
  lemma HeardStays(role: Role, s: Side, e: Event, intent: Intent, sent: seq<Frame>, peer: seq<Frame>, read: nat)
    requires Spoken(role, s, sent) && Heard(s, sent, peer, read) && Possible(role, s, e) && !Faulty(e)
    requires e.Reads? && e.read.Got? ==>
               read < |peer| && e.read.frame == peer[read]
               && (read == 0 || s.phase.Session? || (role.Responder? && s.local))
    ensures var r := React(role, s, e, intent);
      Heard(r.side, sent + r.out, peer, if e.Reads? && e.read.Got? then read + 1 else read)
  {
    var r := React(role, s, e, intent);
    assert sent == [] ==> sent + r.out == r.out;
    assert sent != [] ==> (sent + r.out)[0] == sent[0];
  }

  lemma StaleNeedsReconnect(role: Role, s: Side, e: Event, intent: Intent)
    requires Possible(role, s, e)
    ensures StaleByte in React(role, s, e, intent).out ==> intent.Reconnect?
  {
  }

  /** More frames from the peer change nothing about what was heard. */
  lemma HeardMore(s: Side, sent: seq<Frame>, peer: seq<Frame>, read: nat, out: seq<Frame>)
    requires Heard(s, sent, peer, read)
    ensures Heard(s, sent, peer + out, read)
  {
  }

  lemma InitiatorStaysFair(l: Link, e: Event)
    requires Fair(l) && Enabled(l, e) && !Faulty(e) && e.role.Initiator?
    ensures Fair(Apply(l, e))
  {
    var r := React(Initiator, l.ini, e, l.intent);
    if e.Reads? && l.ini.phase.Read? {
      InitiatorNeverReadsSync(l, e.read);
    }
    if e.Reads? && e.read.Got? {
      assert l.sentR[l.readI] == e.read.frame;
    }
    StaleNeedsReconnect(Initiator, l.ini, e, l.intent);
    SpokenStays(Initiator, l.ini, e, l.intent, l.sentI);
    HeardStays(Initiator, l.ini, e, l.intent, l.sentI, l.sentR, l.readI);
    HeardMore(l.res, l.sentR, l.sentI, l.readR, r.out);
  }

  lemma ResponderStaysFair(l: Link, e: Event)
    requires Fair(l) && Enabled(l, e) && !Faulty(e) && e.role.Responder?
    ensures Fair(Apply(l, e))
  {
    var r := React(Responder, l.res, e, l.intent);
    if e.Reads? && e.read.Got? {
      assert l.sentI[l.readR] == e.read.frame;
      SyncMeansBoth(l, l.readR);
    }
    StaleNeedsReconnect(Responder, l.res, e, l.intent);
    SpokenStays(Responder, l.res, e, l.intent, l.sentR);
    HeardStays(Responder, l.res, e, l.intent, l.sentR, l.sentI, l.readR);
    HeardMore(l.ini, l.sentI, l.sentR, l.readI, r.out);
  }

  lemma FollowsStaysFair(l: Link, m: Link)
    requires Fair(l) && Follows(l, m, true)
    ensures Fair(m)
  {
    var e :| Enabled(l, e) && !Faulty(e) && m == Apply(l, e);
    if e.role.Initiator? { InitiatorStaysFair(l, e); } else { ResponderStaysFair(l, e); }
  }

  lemma {:induction false} RunFair(run: seq<Link>, i: nat)
    requires IsRun(run, true) && i < |run| && !run[0].ini.held && !run[0].res.held
    ensures Fair(run[i])
  {
    if i > 0 {
      RunFair(run, i - 1);
      assert Follows(run[i - 1], run[i], true);
      FollowsStaysFair(run[i - 1], run[i]);
    }
  }

  predicate Settled(s: Side) { s.phase.Session? || s.phase.Failed? }

  /** Agreement: once both sides have left their loops, both have stored the peer or neither has; for a pairing
      intent they have exactly when both users accepted. */
  lemma PairingAgreement(run: seq<Link>, i: nat)
    requires IsRun(run, true) && i < |run| && !run[0].ini.held && !run[0].res.held
    requires Settled(run[i].ini) && Settled(run[i].res)
    ensures run[i].ini.added == run[i].res.added
    ensures run[i].ini.added ==> run[i].ini.decision == Some(true) && run[i].res.decision == Some(true)
    ensures !run[0].intent.Reconnect? && run[i].ini.decision == Some(true) && run[i].res.decision == Some(true)
            ==> run[i].ini.added
  {
    RunFair(run, i);
    RunSafe(run, true, i);
  }

  /** In no lossless run between unpaired sides does the initiator's loop read a session frame. */
  lemma InitiatorSeesNoSync(run: seq<Link>, i: nat, read: ReadResult)
    requires IsRun(run, true) && i < |run| && !run[0].ini.held && !run[0].res.held
    requires Shaped(run[i]) && run[i].ini.phase.Read? && Enabled(run[i], Reads(Initiator, read))
    ensures read != Got(SyncFrame)
  {
    RunFair(run, i);
    InitiatorNeverReadsSync(run[i], read);
  }

  /** The responder's loop, in contrast, reads a session frame exactly if it has heard the initiator's byte before.
      Then its own user has accepted too, and the read makes it leave the loop with the peer stored. */
  lemma ResponderReadsSyncIff(run: seq<Link>, i: nat, f: Frame)
    requires IsRun(run, true) && i < |run| && !run[0].ini.held && !run[0].res.held
    requires Shaped(run[i]) && run[i].res.phase.Read? && Enabled(run[i], Reads(Responder, Got(f)))
    ensures f.SyncFrame? <==> run[i].res.remote
    ensures var after := Apply(run[i], Reads(Responder, Got(f))).res;
      f.SyncFrame? ==> run[i].res.local && run[i].ini.local && after.phase.Session? && after.added
  {
    RunFair(run, i);
    SyncMeansBoth(run[i], run[i].readR);
    assert run[i].sentI[run[i].readR] == f;
  }

  lemma SettledStays(l: Link, m: Link)
    requires Follows(l, m, true) && Settled(l.res)
    ensures Settled(m.res)
  {
  }

  /** Once out of its loop the responder never reads there again, so at most one session frame is lost to it. */
  lemma {:induction false} LeavesOnce(run: seq<Link>, i: nat, j: nat)
    requires IsRun(run, true) && i <= j < |run| && Settled(run[i].res)
    ensures Settled(run[j].res)
    decreases j
  {
    if i < j {
      LeavesOnce(run, i, j - 1);
      assert Follows(run[j - 1], run[j], true);
      SettledStays(run[j - 1], run[j]);
    }
  }

  function Unpaired(phase: Phase, local: bool, remote: bool, decision: Option<bool>): Side {
    Side(phase, local, remote, decision, false, false)
  }

  /** A lossless run between two unpaired sides that has come to `l`. */
  ghost predicate Reaches(run: seq<Link>, l: Link) {
    IsRun(run, true) && run[|run| - 1] == l && !run[0].ini.held && !run[0].res.held
  }

  lemma Extend(run: seq<Link>, l: Link, e: Event, m: Link)
    requires Reaches(run, l) && Shaped(l) && Enabled(l, e) && !Faulty(e) && m == Apply(l, e)
    ensures Reaches(run + [m], m)
  {
    var more := run + [m];
    forall i | 0 < i < |more| ensures Follows(more[i - 1], more[i], true) {
      if i < |run| { assert Follows(run[i - 1], run[i], true); }
    }
  }

  lemma OpenBoth() returns (run: seq<Link>)
    ensures Reaches(run, Link(Unpaired(Read, false, false, None), Unpaired(Check, false, false, None),
                              [], [], 0, 0, Pair))
  {
    var s := Unpaired(Start, false, false, None);
    var a0 := Link(s, s, [], [], 0, 0, Pair);
    var a1 := a0.(ini := Unpaired(Read, false, false, None));
    run := [a0];
    Extend(run, a0, Act(Initiator), a1);
    run := run + [a1];
    Extend(run, a1, Act(Responder), a1.(res := Unpaired(Check, false, false, None)));
    run := run + [a1.(res := Unpaired(Check, false, false, None))];
  }

  /** The initiator's user accepts first. */
  lemma InitiatorAccepts() returns (run: seq<Link>)
    ensures Reaches(run, Link(Unpaired(Read, true, false, Some(true)), Unpaired(Check, false, false, None),
                              [ConfirmByte], [], 0, 0, Pair))
  {
    run := OpenBoth();
    var a := run[|run| - 1];
    var b := a.(ini := Unpaired(Read, false, false, Some(true)));
    Extend(run, a, Decide(Initiator, true), b);
    run := run + [b];
    var d := b.(ini := Unpaired(Check, false, false, Some(true)));
    Extend(run, b, Reads(Initiator, Quiet), d);
    run := run + [d];
    var e := d.(ini := Unpaired(Read, true, false, Some(true)), sentI := [ConfirmByte]);
    Extend(run, d, Act(Initiator), e);
    run := run + [e];
  }

  /** Its byte arrives before the responder's user decides. */
  lemma ByteArrives() returns (run: seq<Link>)
    ensures Reaches(run, Link(Unpaired(Read, true, false, Some(true)), Unpaired(Check, false, true, Some(true)),
                              [ConfirmByte], [], 0, 1, Pair))
  {
    run := InitiatorAccepts();
    var a := run[|run| - 1];
    var b := a.(res := Unpaired(Read, false, false, None));
    Extend(run, a, Act(Responder), b);
    run := run + [b];
    var d := b.(res := Unpaired(Check, false, true, None), readR := 1);
    Extend(run, b, Reads(Responder, Got(ConfirmByte)), d);
    run := run + [d];
    var e := d.(res := Unpaired(Check, false, true, Some(true)));
    Extend(run, d, Decide(Responder, true), e);
    run := run + [e];
  }

  /** The responder sends its byte; the initiator hears it, is paired, and starts its session. */
  lemma InitiatorPairs() returns (run: seq<Link>)
    ensures Reaches(run, Link(Unpaired(Session, true, true, Some(true)).(added := true),
                              Unpaired(Read, true, true, Some(true)),
                              [ConfirmByte], [ConfirmByte], 1, 1, Pair))
  {
    run := ByteArrives();
    var a := run[|run| - 1];
    var b := a.(res := Unpaired(Read, true, true, Some(true)), sentR := [ConfirmByte]);
    Extend(run, a, Act(Responder), b);
    run := run + [b];
    var d := b.(ini := Unpaired(Check, true, true, Some(true)), readI := 1);
    Extend(run, b, Reads(Initiator, Got(ConfirmByte)), d);
    run := run + [d];
    var e := d.(ini := Unpaired(Session, true, true, Some(true)).(added := true));
    Extend(run, d, Act(Initiator), e);
    run := run + [e];
  }

  /** It does happen: the responder has sent its byte and reads before it leaves the loop, so it takes the
      initiator's first session frame, and both sides are paired all the same. */
  lemma ResponderMayReadSync() returns (run: seq<Link>, l: Link, last: Link)
    ensures Reaches(run, l) && Reaches(run + [last], last)
    ensures Shaped(l) && l.res.phase.Read? && Enabled(l, Reads(Responder, Got(SyncFrame)))
    ensures last == Apply(l, Reads(Responder, Got(SyncFrame))) && last.ini.added && last.res.added
  {
    run := InitiatorPairs();
    var a := run[|run| - 1];
    l := a.(sentI := [ConfirmByte, SyncFrame]);
    Extend(run, a, Act(Initiator), l);
    run := run + [l];
    last := l.(res := Unpaired(Session, true, true, Some(true)).(added := true), readR := 2);
    Extend(run, l, Reads(Responder, Got(SyncFrame)), last);
  }

  lemma Lossy(run: seq<Link>, m: Link, e: Event)
    requires IsRun(run, true) && Shaped(run[|run| - 1]) && Enabled(run[|run| - 1], e) && m == Apply(run[|run| - 1], e)
    ensures IsRun(run + [m], false)
  {
    var more := run + [m];
    forall i | 0 < i < |more| ensures Follows(more[i - 1], more[i], false) {
      if i < |run| { assert Follows(run[i - 1], run[i], true); }
    }
  }

  /** Agreement needs the lossless link: if the responder loses the connection at its last read, the initiator alone
      has stored its peer, and both loops are left. */
  lemma LossCanSplit() returns (run: seq<Link>)
    ensures IsRun(run, false) && !run[0].ini.held && !run[0].res.held
    ensures var l := run[|run| - 1]; Settled(l.ini) && Settled(l.res) && l.ini.added && !l.res.added
  {
    run := OpenBoth();
    var a := run[|run| - 1];
    var b := a.(res := Unpaired(Check, false, false, Some(true)));
    Extend(run, a, Decide(Responder, true), b);
    run := run + [b];
    var d := b.(res := Unpaired(Read, true, false, Some(true)), sentR := [ConfirmByte]);
    Extend(run, b, Act(Responder), d);
    run := run + [d];
    run := InitiatorStores(run, d);
    var e := run[|run| - 1];
    var f := e.(res := Unpaired(Failed, true, false, Some(true)));
    Lossy(run, f, Reads(Responder, Lost));
    run := run + [f];
  }

  /** The initiator, whose user accepts, reads the responder's byte and answers it. */
  lemma InitiatorStores(run0: seq<Link>, l: Link) returns (run: seq<Link>)
    requires Reaches(run0, l) && l.ini == Unpaired(Read, false, false, None) && l.sentI == []
    requires l.sentR == [ConfirmByte] && l.readI == 0 && l.readR == 0
    ensures Reaches(run, l.(ini := Unpaired(Session, true, true, Some(true)).(added := true),
                            sentI := [ConfirmByte], readI := 1))
  {
    var a := l.(ini := Unpaired(Read, false, false, Some(true)));
    Extend(run0, l, Decide(Initiator, true), a);
    run := run0 + [a];
    var b := a.(ini := Unpaired(Check, false, true, Some(true)), readI := 1);
    Extend(run, a, Reads(Initiator, Got(ConfirmByte)), b);
    run := run + [b];
    var d := b.(ini := Unpaired(Session, true, true, Some(true)).(added := true), sentI := [ConfirmByte]);
    Extend(run, b, Act(Initiator), d);
    run := run + [d];
  }

  // ---- The loops as they are written

  /** One turn of a loop: what the decision lock holds when looked at, and what the read yields. */
  datatype Tick = Tick(decision: Option<bool>, read: ReadResult)

  function Turn(role: Role, s: Side, tick: Tick): Result {
    var d := s.(decision := tick.decision);
    if role.Responder? then
      var r := CheckHalf(role, d);
      if r.side.phase.Read? then Result(ReadHalf(role, r.side, tick.read), r.out) else r
    else
      var t := ReadHalf(role, d, tick.read);
      if t.phase.Check? then CheckHalf(role, t) else Result(t, [])
  }

  /** Turn after turn until the loop is left or the ticks are used up. */
  function Turns(role: Role, s: Side, ticks: seq<Tick>): Result
    decreases |ticks|
  {
    if ticks == [] || Settled(s) then Result(s, []) else
    var r := Turn(role, s, ticks[0]);
    var later := Turns(role, r.side, ticks[1..]);
    Result(later.side, r.out + later.out)
  }

  function LoopSide(role: Role, local: bool, remote: bool, decision: Option<bool>): Side {
    Side(if role.Responder? then Check else Read, local, remote, decision, false, false)
  }

  function Prepend(out: seq<Frame>, r: Result): Result { Result(r.side, out + r.out) }

  lemma {:induction false} TurnsStep(role: Role, sent: seq<Frame>, s: Side, ticks: seq<Tick>)
    requires ticks != [] && !Settled(s)
    ensures var r := Turn(role, s, ticks[0]);
      Prepend(sent, Turns(role, s, ticks)) == Prepend(sent + r.out, Turns(role, r.side, ticks[1..]))
  {
    var r := Turn(role, s, ticks[0]);
    var later := Turns(role, r.side, ticks[1..]);
    assert sent + (r.out + later.out) == (sent + r.out) + later.out;
  }

  /** The loop variables after a turn, as a side of the protocol. */
  predicate Mirrors(role: Role, side: Side, local: bool, remote: bool, over: bool) {
    if over then Settled(side) && (side.added <==> local && remote)
    else side == LoopSide(role, local, remote, side.decision)
  }

  /** One turn of the responder: look at the decision, then read. */
  method ResponderTurn(local0: bool, remote0: bool, tick: Tick)
    returns (local: bool, remote: bool, over: bool, out: seq<Frame>)
    ensures forall d :: var r := Turn(Responder, LoopSide(Responder, local0, remote0, d), tick);
      out == r.out && Mirrors(Responder, r.side, local, remote, over)
  {
    local, remote, over, out := local0, remote0, false, [];
    if tick.decision == Some(false) {
      out := [RejectByte];
      over := true;
      return;
    }
    if tick.decision == Some(true) && !local {
      out := [ConfirmByte];
      local := true;
    }
    match tick.read {
      case Got(ConfirmByte) => remote := true;
      case Quiet =>
      case _ => over := true;
    }
    over := over || (local && remote);
  }

  /** One turn of the initiator: read, then look at the decision. */
  method InitiatorTurn(local0: bool, remote0: bool, tick: Tick)
    returns (local: bool, remote: bool, over: bool, out: seq<Frame>)
    ensures forall d :: var r := Turn(Initiator, LoopSide(Initiator, local0, remote0, d), tick);
      out == r.out && Mirrors(Initiator, r.side, local, remote, over)
  {
    local, remote, over, out := local0, remote0, false, [];
    match tick.read {
      case Got(ConfirmByte) => remote := true;
      case Quiet =>
      case _ =>
        over := true;
        return;
    }
    if tick.decision == Some(false) {
      out := [RejectByte];
      over := true;
      return;
    }
    if tick.decision == Some(true) && !local {
      out := [ConfirmByte];
      local := true;
    }
    over := local && remote;
  }

  /** The confirmation loop of either role: turn after turn until it is left; whether the peer gets stored. */
  method ConfirmationLoop(role: Role, ticks: seq<Tick>) returns (added: bool, over: bool, sent: seq<Frame>)
    ensures var r := Turns(role, LoopSide(role, false, false, None), ticks);
      sent == r.out && (over <==> Settled(r.side)) && (added <==> r.side.added)
  {
    var local, remote := false, false;
    ghost var side := LoopSide(role, false, false, None);
    ghost var whole := Turns(role, side, ticks);
    var rest := ticks;
    over, sent := false, [];
    while rest != [] && !over
      invariant Mirrors(role, side, local, remote, over)
      invariant whole == Prepend(sent, Turns(role, side, rest))
      decreases |rest|
    {
      TurnsStep(role, sent, side, rest);
      ghost var r := Turn(role, LoopSide(role, local, remote, side.decision), rest[0]);
      var out;
      if role.Responder? {
        local, remote, over, out := ResponderTurn(local, remote, rest[0]);
      } else {
        local, remote, over, out := InitiatorTurn(local, remote, rest[0]);
      }
      side := r.side;
      sent := sent + out;
      rest := rest[1..];
    }
    added := over && local && remote;
  }
}
