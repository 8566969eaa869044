/**
 The transfer manager: who is waiting for a decision, who can be cancelled, how many transfers are
 registered, and the lock that keeps the machine awake while any is.

 Each `Act` is what one method does under one mutex, so a run is any interleaving of the threads.
 */
module Manager {
  import opened Common
  import opened Transfer

  type Id = string

  /** A token map and its channels, which are numbered in the order they are made.  `log` holds everything
      ever sent on each; all are bounded to one message, so a second send on one could block. */
  datatype Box = Box(listed: map<Id, nat>, log: seq<seq<bool>>)

  datatype Move = Put(id: Id) | Send(id: Id, value: bool) | Drop(id: Id) | Skip

  /** A sender is taken out of the map before it is used. */
  function Moved(b: Box, m: Move): Box {
    match m
    case Put(id) => Box(b.listed[id := |b.log|], b.log + [[]])
    case Send(id, value) =>
      if id !in b.listed then b else
      var k := b.listed[id];
      Box(b.listed - {id}, if k < |b.log| then b.log[k := b.log[k] + [value]] else b.log)
    case Drop(id) => Box(b.listed - {id}, b.log)
    case Skip => b
  }

  datatype State = State(decisions: Box, cancels: Box, active: nat, awake: bool)

  const Fresh := State(Box(map[], []), Box(map[], []), 0, false)

  datatype Act =
    | Offer(id: Id)                     // add_pending_decision
    | Answer(id: Id, accepted: bool)    // handle_decision
    | Open(id: Id)                      // register_transfer: the cancel token
    | Up(acquired: bool)                // register_transfer: the count; the system may refuse the lock
    | Close(id: Id)                     // unregister_transfer: the cancel token
    | Down                              // unregister_transfer: the count
    | Interrupt(id: Id)                 // cancel_transfer: the cancel token

  function OnDecisions(a: Act): Move {
    match a
    case Offer(id) => Put(id)
    case Answer(id, accepted) => Send(id, accepted)
    case _ => Skip
  }

  function OnCancels(a: Act): Move {
    match a
    case Open(id) => Put(id)
    case Close(id) => Drop(id)
    case Interrupt(id) => Send(id, true)
    case _ => Skip
  }

  function Counted(active: nat, a: Act): nat {
    if a.Up? then active + 1 else if a.Down? && active > 0 then active - 1 else active
  }

  function Step(s: State, a: Act): State {
    State(Moved(s.decisions, OnDecisions(a)), Moved(s.cancels, OnCancels(a)), Counted(s.active, a),
          if a.Up? && s.active == 0 && a.acquired then true else if a.Down? && s.active == 1 then false else s.awake)
  }

  /** An act, and the thread it is done on. */
  datatype Call = Call(thread: nat, act: Act)

  /** The state after the calls of all threads, in the order they got the mutexes. */
  function After(s: State, calls: seq<Call>): State
    decreases |calls|
  {
    if calls == [] then s else After(Step(s, calls[0].act), calls[1..])
  }

  /** Every listed channel exists, is listed once and is still empty; no channel carried two messages. */
  ghost predicate Orderly(b: Box) {
    && (forall id | id in b.listed :: b.listed[id] < |b.log| && b.log[b.listed[id]] == [])
    && (forall i, j | i in b.listed && j in b.listed :: b.listed[i] == b.listed[j] ==> i == j)
    && (forall k | 0 <= k < |b.log| :: |b.log[k]| <= 1)
  }

  ghost predicate Valid(s: State) {
    Orderly(s.decisions) && Orderly(s.cancels) && (s.awake ==> s.active > 0)
  }

  // ---- The object

  class FileTransferManager {
    var pendingDecisions: map<Id, nat>
    var cancelTokens: map<Id, nat>
    var activeTransfers: nat
    var powerLock: bool
    var answers: seq<seq<bool>>
    var signals: seq<seq<bool>>

    constructor ()
      ensures View() == Fresh && Valid(View())
    {
      pendingDecisions, cancelTokens := map[], map[];
      activeTransfers, powerLock := 0, false;
      answers, signals := [], [];
    }

    ghost function View(): State
      reads this
    {
      State(Box(pendingDecisions, answers), Box(cancelTokens, signals), activeTransfers, powerLock)
    }

    method AddPendingDecision(id: Id) returns (channel: nat)
      requires Valid(View())
      modifies this
      ensures View() == Step(old(View()), Offer(id)) && Valid(View())
      ensures channel == |old(answers)|
    {
      StepKeepsValid(View(), Offer(id));
      channel := |answers|;
      answers := answers + [[]];
      pendingDecisions := pendingDecisions[id := channel];
    }

    method HandleDecision(id: Id, accepted: bool)
      requires Valid(View())
      modifies this
      ensures View() == Step(old(View()), Answer(id, accepted)) && Valid(View())
    {
      StepKeepsValid(View(), Answer(id, accepted));
      if id in pendingDecisions {
        var channel := pendingDecisions[id];
        pendingDecisions := pendingDecisions - {id};
        answers := answers[channel := answers[channel] + [accepted]];
      }
    }

    method AddToken(id: Id) returns (channel: nat)
      requires Valid(View())
      modifies this`cancelTokens, this`signals
      ensures View() == Step(old(View()), Open(id)) && Valid(View())
      ensures channel == |old(signals)|
    {
      StepKeepsValid(View(), Open(id));
      channel := |signals|;
      signals := signals + [[]];
      cancelTokens := cancelTokens[id := channel];
    }

    /** The count and, when it becomes 1, the power lock; `acquired` is what the operating system says. */
    method CountUp(acquired: bool)
      requires Valid(View())
      modifies this`activeTransfers, this`powerLock
      ensures View() == Step(old(View()), Up(acquired)) && Valid(View())
    {
      StepKeepsValid(View(), Up(acquired));
      activeTransfers := activeTransfers + 1;
      if activeTransfers == 1 {
        if acquired { powerLock := true; }
      }
    }

    method RegisterTransfer(id: Id, acquired: bool) returns (channel: nat)
      requires Valid(View())
      modifies this
      ensures View() == Step(Step(old(View()), Open(id)), Up(acquired)) && Valid(View())
      ensures channel == |old(signals)|
    {
      channel := AddToken(id);
      CountUp(acquired);
    }

    method RemoveToken(id: Id)
      requires Valid(View())
      modifies this`cancelTokens
      ensures View() == Step(old(View()), Close(id)) && Valid(View())
    {
      StepKeepsValid(View(), Close(id));
      cancelTokens := cancelTokens - {id};
    }

    method CountDown()
      requires Valid(View())
      modifies this`activeTransfers, this`powerLock
      ensures View() == Step(old(View()), Down) && Valid(View())
    {
      StepKeepsValid(View(), Down);
      if activeTransfers > 0 {
        activeTransfers := activeTransfers - 1;
        if activeTransfers == 0 { powerLock := false; }
      }
    }

    method UnregisterTransfer(id: Id)
      requires Valid(View())
      modifies this
      ensures View() == Step(Step(old(View()), Close(id)), Down) && Valid(View())
    {
      RemoveToken(id);
      CountDown();
    }

    method CancelTransfer(id: Id)
      requires Valid(View())
      modifies this
      ensures View() == Step(Step(old(View()), Interrupt(id)), Answer(id, false)) && Valid(View())
    {
      FireToken(id);
      HandleDecision(id, false);
    }

    /** The token is taken out of the map before it is used. */
    method FireToken(id: Id)
      requires Valid(View())
      modifies this`cancelTokens, this`signals
      ensures View() == Step(old(View()), Interrupt(id)) && Valid(View())
    {
      StepKeepsValid(View(), Interrupt(id));
      if id in cancelTokens {
        var channel := cancelTokens[id];
        cancelTokens := cancelTokens - {id};
        signals := signals[channel := signals[channel] + [true]];
      }
    }

    /** One act of whatever thread gets the mutex. */
    method Perform(a: Act)
      requires Valid(View())
      modifies this
      ensures View() == Step(old(View()), a) && Valid(View())
    {
      match a
      case Offer(id) => var _ := AddPendingDecision(id);
      case Answer(id, accepted) => HandleDecision(id, accepted);
      case Open(id) => var _ := AddToken(id);
      case Up(acquired) => CountUp(acquired);
      case Close(id) => RemoveToken(id);
      case Down => CountDown();
      case Interrupt(id) => FireToken(id);
    }

    /** The acts of other threads, in the order they get the mutexes. */
    method PerformAll(calls: seq<Call>)
      requires Valid(View())
      modifies this
      ensures View() == After(old(View()), calls) && Valid(View())
    {
      var rest := calls;
      while rest != []
        invariant Valid(View()) && After(View(), rest) == After(old(View()), calls)
        decreases |rest|
      {
        Perform(rest[0].act);
        rest := rest[1..];
      }
    }

    /** The sending handler around its inner function, which returned `failed` and left the transfer at
        `status` (none: no record), while other threads did `during`.  The store works. */
    method HandleOutgoingTransfer(me: nat, id: Id, acquired: bool, during: seq<Call>, failed: bool,
                                  status: Option<Status>)
      returns (settled: Option<Status>)
      requires Valid(View())
      modifies this
      ensures View() == After(old(View()), Around(me, id, acquired, during)) && Valid(View())
      ensures settled == match status case Some(st) => Some(Settle(st, failed)) case None => None
    {
      AroundSplits(View(), me, id, acquired, during);
      var _ := RegisterTransfer(id, acquired);
      PerformAll(during);
      UnregisterTransfer(id);
      settled := None;
      if status.Some? {
        var st := FixUp(status.value, failed);
        settled := Some(st);
      }
    }
  }

  /** The calls of a sending handler on thread `me`, with those of others between. */
  function Around(me: nat, id: Id, acquired: bool, during: seq<Call>): seq<Call> {
    [Call(me, Open(id)), Call(me, Up(acquired))] + during + [Call(me, Close(id)), Call(me, Down)]
  }

  lemma {:induction false} AfterSplit(s: State, before: seq<Call>, rest: seq<Call>)
    ensures After(s, before + rest) == After(After(s, before), rest)
    decreases |before|
  {
    if before == [] {
      assert [] + rest == rest;
    } else {
      assert (before + rest)[0] == before[0] && (before + rest)[1..] == before[1..] + rest;
      AfterSplit(Step(s, before[0].act), before[1..], rest);
    }
  }

  lemma {:induction false} AfterTwo(s: State, a: Call, b: Call)
    ensures After(s, [a, b]) == Step(Step(s, a.act), b.act)
  {
    assert [a, b][1..] == [b] && [b][1..] == [];
    assert After(Step(s, a.act), [b]) == Step(Step(s, a.act), b.act);
  }

  lemma {:induction false} AroundSplits(s: State, me: nat, id: Id, acquired: bool, during: seq<Call>)
    ensures var inside := After(Step(Step(s, Open(id)), Up(acquired)), during);
      After(s, Around(me, id, acquired, during)) == Step(Step(inside, Close(id)), Down)
  {
    var front, back := [Call(me, Open(id)), Call(me, Up(acquired))], [Call(me, Close(id)), Call(me, Down)];
    AfterSplit(s, front + during, back);
    AfterSplit(s, front, during);
    AfterTwo(s, front[0], front[1]);
    AfterTwo(After(s, front + during), back[0], back[1]);
  }

  lemma {:induction false} HoldersSplit(held: set<nat>, before: seq<Call>, rest: seq<Call>)
    ensures Holders(held, before + rest) == Holders(Holders(held, before), rest)
    ensures Disciplined(held, before + rest) <==> Disciplined(held, before) && Disciplined(Holders(held, before), rest)
    decreases |before|
  {
    if before == [] {
      assert [] + rest == rest;
    } else {
      assert (before + rest)[0] == before[0] && (before + rest)[1..] == before[1..] + rest;
      HoldersSplit(Holding(held, before[0]), before[1..], rest);
    }
  }

  /** A sending handler balances its registration: whatever others do meanwhile, it is no longer counted when it
      returns, and the discipline of the others is all that the count needs. */
  lemma {:induction false} OutgoingBalances(held: set<nat>, me: nat, id: Id, acquired: bool, during: seq<Call>)
    requires me !in held && Disciplined(held + {me}, during) && forall c | c in during :: c.thread != me
    ensures Disciplined(held, Around(me, id, acquired, during))
    ensures Holders(held, Around(me, id, acquired, during)) == Holders(held + {me}, during) - {me}
  {
    var front, back := [Call(me, Open(id)), Call(me, Up(acquired))], [Call(me, Close(id)), Call(me, Down)];
    HoldersSplit(held, front + during, back);
    HoldersSplit(held, front, during);
    FrontHolds(held, me, id, acquired);
    HoldersKept(held + {me}, during, me);
    BackReleases(Holders(held + {me}, during), me, id);
  }

  lemma {:induction false} FrontHolds(held: set<nat>, me: nat, id: Id, acquired: bool)
    requires me !in held
    ensures var front := [Call(me, Open(id)), Call(me, Up(acquired))];
      Disciplined(held, front) && Holders(held, front) == held + {me}
  {
    var front := [Call(me, Open(id)), Call(me, Up(acquired))];
    assert front[1..] == [Call(me, Up(acquired))] && front[1..][1..] == [];
    assert Holders(held, front[1..]) == Holders(held + {me}, []);
    assert Disciplined(held, front[1..]);
  }

  lemma {:induction false} BackReleases(held: set<nat>, me: nat, id: Id)
    requires me in held
    ensures var back := [Call(me, Close(id)), Call(me, Down)];
      Disciplined(held, back) && Holders(held, back) == held - {me}
  {
    var back := [Call(me, Close(id)), Call(me, Down)];
    assert back[1..] == [Call(me, Down)] && back[1..][1..] == [];
    assert Holders(held, back[1..]) == Holders(held - {me}, []);
    assert Disciplined(held, back[1..]);
  }

  /** The status fix-up of both handlers: a status that still looks active becomes "failed" or "paused". */
  method FixUp(status: Status, failed: bool) returns (settled: Status)
    ensures settled == Settle(status, failed)
    ensures settled !in {InProgress, AwaitingAcceptance, Pending}
    ensures status !in {InProgress, AwaitingAcceptance, Pending} ==> settled == status
  {
    settled := status;
    if status == InProgress || status == AwaitingAcceptance || status == Pending {
      if failed {
        settled := Failed;
      } else {
        settled := Paused;
      }
    }
  }

  // ---- Every call sequence

  lemma SendKeepsOrder(b: Box, id: Id, value: bool)
    requires Orderly(b)
    ensures Orderly(Moved(b, Send(id, value)))
  {
  }

  lemma MoveKeepsOrder(b: Box, m: Move)
    requires Orderly(b)
    ensures Orderly(Moved(b, m))
  {
    match m
    case Send(id, value) => SendKeepsOrder(b, id, value);
    case _ =>
  }

  lemma StepKeepsValid(s: State, a: Act)
    requires Valid(s)
    ensures Valid(Step(s, a))
  {
    MoveKeepsOrder(s.decisions, OnDecisions(a));
    MoveKeepsOrder(s.cancels, OnCancels(a));
  }

  /** Whatever the threads do, no channel ever carries two messages, every channel still listed is
      empty, so no send blocks; and the lock is held only while the count is positive. */
  lemma {:induction false} NoSendBlocks(s: State, calls: seq<Call>)
    requires Valid(s)
    ensures Valid(After(s, calls))
    decreases |calls|
  {
    if calls != [] {
      StepKeepsValid(s, calls[0].act);
      NoSendBlocks(Step(s, calls[0].act), calls[1..]);
    }
  }

  /** If the system always grants the lock, it is held exactly while a transfer is registered. */
  lemma {:induction false} AwakeIffActive(s: State, calls: seq<Call>)
    requires s.awake <==> s.active > 0
    requires forall c | c in calls :: c.act != Up(false)
    ensures After(s, calls).awake <==> After(s, calls).active > 0
    decreases |calls|
  {
    if calls != [] {
      assert calls[0] in calls;
      AwakeIffActive(Step(s, calls[0].act), calls[1..]);
    }
  }

  /** Call k raised the count from none, the lock was granted, and the count has not fallen to none since. */
  predicate Granted(calls: seq<Call>, k: nat) {
    && k < |calls| && calls[k].act == Up(true) && After(Fresh, calls[..k]).active == 0
    && forall j | k < j <= |calls| :: After(Fresh, calls[..j]).active > 0
  }

  lemma {:induction false} AfterLast(s: State, calls: seq<Call>)
    requires calls != []
    ensures After(s, calls) == Step(After(s, calls[..|calls| - 1]), calls[|calls| - 1].act)
  {
    var front, last := calls[..|calls| - 1], [calls[|calls| - 1]];
    assert calls == front + last && last[1..] == [];
    AfterSplit(s, front, last);
  }

  /** The front of a series sees the same prefixes. */
  lemma {:induction false} GrantedFront(calls: seq<Call>, k: nat)
    requires calls != [] && k < |calls| - 1
    ensures Granted(calls, k) <==> Granted(calls[..|calls| - 1], k) && After(Fresh, calls).active > 0
  {
    var front := calls[..|calls| - 1];
    assert calls[..|calls|] == calls && front[..|front|] == front;
    assert forall j | 0 <= j <= |front| :: front[..j] == calls[..j];
    if Granted(front, k) && After(Fresh, calls).active > 0 {
      forall j | k < j <= |calls| ensures After(Fresh, calls[..j]).active > 0 {
        if j < |calls| { assert front[..j] == calls[..j]; }
      }
    }
    if Granted(calls, k) {
      forall j | k < j <= |front| ensures After(Fresh, front[..j]).active > 0 {
        assert After(Fresh, calls[..j]).active > 0;
      }
    }
  }

  /** The system may refuse the lock: then it is held exactly if it was granted to the call that raised the count from
      none; it is not asked again while the count stays up. */
  lemma {:induction false} AwakeIffGranted(calls: seq<Call>)
    ensures After(Fresh, calls).awake <==> exists k :: Granted(calls, k)
    decreases |calls|
  {
    if calls != [] {
      var n := |calls| - 1;
      AwakeIffGranted(calls[..n]);
      AfterLast(Fresh, calls);
      forall k | 0 <= k < n ensures Granted(calls, k) <==> Granted(calls[..n], k) && After(Fresh, calls).active > 0 {
        GrantedFront(calls, k);
      }
      LastGranted(calls);
      GrantedWhileUp(calls[..n]);
    }
  }

  lemma {:induction false} LastGranted(calls: seq<Call>)
    requires calls != []
    ensures Granted(calls, |calls| - 1)
            <==> calls[|calls| - 1].act == Up(true) && After(Fresh, calls[..|calls| - 1]).active == 0
  {
    AfterLast(Fresh, calls);
    assert calls[..|calls|] == calls;
  }

  lemma {:induction false} GrantedWhileUp(calls: seq<Call>)
    ensures (exists k :: Granted(calls, k)) ==> After(Fresh, calls).active > 0
  {
    if k :| Granted(calls, k) {
      assert calls[..|calls|] == calls;
    }
  }

  // ---- What a waiting handler hears

  function AfterMoves(b: Box, ms: seq<Move>): Box
    decreases |ms|
  {
    if ms == [] then b else AfterMoves(Moved(b, ms[0]), ms[1..])
  }

  /** The first message sent for a transfer, unless its channel is dropped or replaced first. */
  function FirstSent(ms: seq<Move>, id: Id): seq<bool>
    decreases |ms|
  {
    if ms == [] || ms[0] == Put(id) || ms[0] == Drop(id) then [] else
    if ms[0].Send? && ms[0].id == id then [ms[0].value] else FirstSent(ms[1..], id)
  }

  /** A channel no transfer is listed with stays as it is. */
  lemma {:induction false} Retired(b: Box, ms: seq<Move>, channel: nat)
    requires channel < |b.log| && forall id | id in b.listed :: b.listed[id] != channel
    ensures channel < |AfterMoves(b, ms).log| && AfterMoves(b, ms).log[channel] == b.log[channel]
    decreases |ms|
  {
    if ms != [] {
      Retired(Moved(b, ms[0]), ms[1..], channel);
    }
  }

  /** The transfer, and no other, is listed with the channel, which is still empty. */
  ghost predicate Owns(b: Box, id: Id, channel: nat) {
    && id in b.listed && b.listed[id] == channel < |b.log| && b.log[channel] == []
    && forall other | other in b.listed :: b.listed[other] == channel ==> other == id
  }

  lemma {:induction false} Listed(b: Box, ms: seq<Move>, id: Id, channel: nat)
    requires Owns(b, id, channel)
    ensures channel < |AfterMoves(b, ms).log| && AfterMoves(b, ms).log[channel] == FirstSent(ms, id)
    decreases |ms|
  {
    if ms != [] {
      var next := Moved(b, ms[0]);
      if !ms[0].Skip? && ms[0].id == id {
        Retired(next, ms[1..], channel);
      } else {
        assert Owns(next, id, channel);
        Listed(next, ms[1..], id, channel);
      }
    }
  }

  function DecisionMoves(calls: seq<Call>): seq<Move>
    decreases |calls|
  {
    if calls == [] then [] else [OnDecisions(calls[0].act)] + DecisionMoves(calls[1..])
  }

  function CancelMoves(calls: seq<Call>): seq<Move>
    decreases |calls|
  {
    if calls == [] then [] else [OnCancels(calls[0].act)] + CancelMoves(calls[1..])
  }

  /** Each map sees only its own moves, in the order of the calls. */
  lemma {:induction false} BoxesAfter(s: State, calls: seq<Call>)
    ensures After(s, calls).decisions == AfterMoves(s.decisions, DecisionMoves(calls))
    ensures After(s, calls).cancels == AfterMoves(s.cancels, CancelMoves(calls))
    decreases |calls|
  {
    if calls != [] {
      BoxesAfter(Step(s, calls[0].act), calls[1..]);
      assert DecisionMoves(calls)[1..] == DecisionMoves(calls[1..]);
      assert CancelMoves(calls)[1..] == CancelMoves(calls[1..]);
    }
  }

  /** The handler that made an offer hears the first answer given to its transfer after that, and
      nothing else: never an earlier one, a second one or one meant for another transfer. */
  lemma {:induction false} AnswerDelivered(before: seq<Call>, id: Id, rest: seq<Call>)
    ensures var s := After(Fresh, before);
      var heard := After(Step(s, Offer(id)), rest).decisions.log;
      |s.decisions.log| < |heard| && heard[|s.decisions.log|] == FirstSent(DecisionMoves(rest), id)
  {
    NoSendBlocks(Fresh, before);
    var s := After(Fresh, before);
    BoxesAfter(Step(s, Offer(id)), rest);
    Listed(Step(s, Offer(id)).decisions, DecisionMoves(rest), id, |s.decisions.log|);
  }

  /** A registered handler hears a cancellation exactly if one comes before it unregisters and before the
      same transfer is registered again. */
  lemma {:induction false} CancelDelivered(before: seq<Call>, id: Id, rest: seq<Call>)
    ensures var s := After(Fresh, before);
      var heard := After(Step(s, Open(id)), rest).cancels.log;
      |s.cancels.log| < |heard| && heard[|s.cancels.log|] == FirstSent(CancelMoves(rest), id)
  {
    NoSendBlocks(Fresh, before);
    var s := After(Fresh, before);
    BoxesAfter(Step(s, Open(id)), rest);
    Listed(Step(s, Open(id)).cancels, CancelMoves(rest), id, |s.cancels.log|);
  }

  // ---- The count

  /** The handlers between their register and their unregister, after one more call. */
  function Holding(held: set<nat>, call: Call): set<nat> {
    if call.act.Up? then held + {call.thread} else if call.act.Down? then held - {call.thread} else held
  }

  function Holders(held: set<nat>, calls: seq<Call>): set<nat>
    decreases |calls|
  {
    if calls == [] then held else Holders(Holding(held, calls[0]), calls[1..])
  }

  /** No handler registers while registered, and none unregisters while it is not. */
  predicate Disciplined(held: set<nat>, calls: seq<Call>)
    decreases |calls|
  {
    calls == [] ||
    (&& (calls[0].act.Up? ==> calls[0].thread !in held)
     && (calls[0].act.Down? ==> calls[0].thread in held)
     && Disciplined(Holding(held, calls[0]), calls[1..]))
  }

  lemma CountStep(s: State, held: set<nat>, call: Call)
    requires s.active == |held|
    requires call.act.Up? ==> call.thread !in held
    requires call.act.Down? ==> call.thread in held
    ensures Step(s, call.act).active == |Holding(held, call)|
  {
  }

  /** The count is the number of handlers between register and unregister, whatever the interleaving;
      so once every handler has unregistered the machine may sleep, and not before. */
  lemma {:induction false} CountIsHolders(s: State, held: set<nat>, calls: seq<Call>)
    requires Valid(s) && s.active == |held| && Disciplined(held, calls)
    ensures After(s, calls).active == |Holders(held, calls)|
    ensures Holders(held, calls) == {} ==> !After(s, calls).awake
    decreases |calls|
  {
    if calls != [] {
      StepKeepsValid(s, calls[0].act);
      CountStep(s, held, calls[0]);
      CountIsHolders(Step(s, calls[0].act), Holding(held, calls[0]), calls[1..]);
    }
  }

  lemma {:induction false} HoldersKept(held: set<nat>, calls: seq<Call>, thread: nat)
    requires thread in held && forall c | c in calls :: c.thread != thread
    ensures thread in Holders(held, calls)
    decreases |calls|
  {
    if calls != [] {
      assert calls[0] in calls;
      HoldersKept(Holding(held, calls[0]), calls[1..], thread);
    }
  }

  /** A handler that returns without unregistering keeps the count up for good. */
  lemma {:induction false} LeakKeepsCount(s: State, held: set<nat>, calls: seq<Call>, thread: nat)
    requires Valid(s) && s.active == |held| && Disciplined(held, calls)
    requires thread in held && forall c | c in calls :: c.thread != thread
    ensures After(s, calls).active > 0
  {
    CountIsHolders(s, held, calls);
    HoldersKept(held, calls, thread);
  }
}
