/**
 Last-writer-wins clipboard: the desktop daemon's version, guarded by the shared clock, and the mobile
 binding's version, guarded by the persisted timestamp.

 The daemon has a trap: after it has taken an update it cuts the text at byte 20 for its audit log, and
 cutting inside a character ends its thread.
 */
module Clipboard {
  import opened Common

  /** A text, as the octets of its UTF-8 form. */
  type Text = seq<byte>

  datatype Update = Update(content: Text, stamp: nat)

  /** What the daemon checks before it looks at the clock. */
  datatype Guards = Guards(locked: bool, blank: bool, currentLocalOnly: bool, contentLocalOnly: bool)

  const Open := Guards(false, false, false, false)

  /** A replica as seen from outside: the newest stamp and the content that came with it. */
  datatype Replica = Replica(stamp: nat, content: Text)

  const EXCERPT: nat := 20

  /** An octet that continues a character. */
  predicate Continues(b: byte) { 0x80 <= b < 0xC0 }

  /** Cutting the text after at most 20 bytes does not cut a character. */
  predicate Cuttable(content: Text) { |content| <= EXCERPT || !Continues(content[EXCERPT]) }

  /** The rule both versions share: strictly newer wins. */
  function Merge(r: Replica, u: Update): Replica {
    if u.stamp <= r.stamp then r else Replica(u.stamp, u.content)
  }

  function MergeAll(r: Replica, us: seq<Update>): Replica
    decreases |us|
  {
    if us == [] then r else MergeAll(Merge(r, us[0]), us[1..])
  }

  // ---- The daemon

  /** The daemon's state: what it persists, what it has written to the clipboard or announced, what it has
      broadcast, and whether its thread still lives. */
  datatype Daemon = Daemon(
    replica: Replica, lastSync: Option<nat>, applied: seq<Update>, outbox: seq<Update>, alive: bool)

  /** An update that passes the guards: claimed and persisted first, then cut for the log, then written. */
  function Claim(d: Daemon, u: Update, sends: bool): Daemon {
    if u.stamp <= d.replica.stamp then d else
    var claimed := d.(replica := Merge(d.replica, u), lastSync := Some(u.stamp));
    if !Cuttable(u.content) then claimed.(alive := false)
    else claimed.(applied := d.applied + [u], outbox := d.outbox + if sends then [u] else [])
  }

  /** An update from a peer. */
  function FromPeer(d: Daemon, u: Update, g: Guards): Daemon {
    if !d.alive || g != Open then d else Claim(d, u, false)
  }

  /** A change made on this device. */
  function FromHere(d: Daemon, u: Update, g: Guards): Daemon {
    if !d.alive || g.locked || g.blank then d else Claim(d, u, !g.contentLocalOnly)
  }

  /** A series of unguarded updates from peers. */
  function HandleAll(d: Daemon, us: seq<Update>): Daemon
    decreases |us|
  {
    if us == [] then d else HandleAll(FromPeer(d, us[0], Open), us[1..])
  }

  /** What reaches the daemon loop, with what its checks find at that moment. */
  datatype Arrival = Local(update: Update, guards: Guards) | Remote(update: Update, guards: Guards)

  function Handle(d: Daemon, a: Arrival): Daemon {
    match a
    case Local(u, g) => FromHere(d, u, g)
    case Remote(u, g) => FromPeer(d, u, g)
  }

  /** Local changes and updates from peers, in the order they arrive. */
  function Serve(d: Daemon, arrivals: seq<Arrival>): Daemon
    decreases |arrivals|
  {
    if arrivals == [] then d else Handle(Serve(d, arrivals[..|arrivals| - 1]), arrivals[|arrivals| - 1])
  }

  /** `SetClipboard` and `ClipboardChanged` of the daemon loop. */
  class Desktop {
    var clock: nat
    var lastSync: Option<nat>
    var content: Text
    var applied: seq<Update>
    var outbox: seq<Update>
    var alive: bool

    /** The clock starts from the persisted timestamp, if there is one. */
    constructor (persisted: Option<nat>, persistedContent: Text)
      ensures View() == Started(persisted, persistedContent)
    {
      lastSync, content, applied, outbox, alive := persisted, persistedContent, [], [], true;
      clock := match persisted case Some(ts) => ts case None => 0;
    }

    function View(): Daemon
      reads this
    {
      Daemon(Replica(clock, content), lastSync, applied, outbox, alive)
    }

    /** `&content[..min(20, content.len())]` for the audit log. */
    method Excerpt(text: Text)
      modifies this`alive
      ensures alive == (old(alive) && Cuttable(text))
    {
      var n := Min(EXCERPT, |text|);
      if n < |text| && Continues(text[n]) {
        alive := false;
      }
    }

    /** An update from a peer. */
    method SetClipboard(u: Update, g: Guards)
      modifies this
      ensures View() == FromPeer(old(View()), u, g)
    {
      if !alive || g.locked || g.blank || g.currentLocalOnly || g.contentLocalOnly {
        return;
      }
      if u.stamp > clock {
        clock := u.stamp;
        lastSync := Some(u.stamp);
        content := u.content;
        Excerpt(u.content);
        if alive {
          applied := applied + [u];
        }
      }
    }

    /** A change made on this device: it is announced to peers unless it is marked local-only. */
    method ClipboardChanged(u: Update, g: Guards)
      modifies this
      ensures View() == FromHere(old(View()), u, g)
    {
      if !alive || g.locked || g.blank {
        return;
      }
      if u.stamp > clock {
        clock := u.stamp;
        lastSync := Some(u.stamp);
        content := u.content;
        Excerpt(u.content);
        if alive {
          if !g.contentLocalOnly {
            outbox := outbox + [u];
          }
          applied := applied + [u];
        }
      }
    }

    /** The daemon loop. */
    method ServeAll(arrivals: seq<Arrival>)
      modifies this
      ensures View() == Serve(old(View()), arrivals)
    {
      for k := 0 to |arrivals|
        invariant View() == Serve(old(View()), arrivals[..k])
      {
        assert arrivals[..k + 1][..k] == arrivals[..k];
        match arrivals[k]
        case Local(u, g) => ClipboardChanged(u, g);
        case Remote(u, g) => SetClipboard(u, g);
      }
      assert arrivals[..|arrivals|] == arrivals;
    }

    /** A series of unguarded updates from peers. */
    method Receive(us: seq<Update>)
      modifies this
      ensures View() == HandleAll(old(View()), us)
    {
      var rest := us;
      while rest != []
        invariant HandleAll(View(), rest) == HandleAll(old(View()), us)
        decreases |rest|
      {
        SetClipboard(rest[0], Open);
        rest := rest[1..];
      }
    }
  }

  /** A daemon that has just started. */
  function Started(persisted: Option<nat>, persistedContent: Text): Daemon {
    Daemon(Replica(match persisted case Some(ts) => ts case None => 0, persistedContent), persisted, [], [], true)
  }

  // ---- The mobile binding

  /** The mobile binding: no clock, the persisted timestamp decides; without one everything is taken. */
  class Mobile {
    var lastSync: Option<nat>
    var content: Text
    var applied: seq<Update>

    constructor (persisted: Option<nat>, persistedContent: Text)
      ensures lastSync == persisted && content == persistedContent && applied == []
    {
      lastSync, content, applied := persisted, persistedContent, [];
    }

    method SetClipboard(u: Update, blank: bool)
      modifies this
      ensures var takes := !blank && (old(lastSync).Some? ==> u.stamp > old(lastSync).value);
        && applied == old(applied) + (if takes then [u] else [])
        && lastSync == (if takes then Some(u.stamp) else old(lastSync))
        && content == if takes then u.content else old(content)
    {
      if blank {
        return;
      }
      var shouldApply := true;
      if lastSync.Some? {
        if u.stamp <= lastSync.value {
          shouldApply := false;
        }
      }
      if shouldApply {
        lastSync := Some(u.stamp);
        content := u.content;
        applied := applied + [u];
      }
    }

    method Receive(us: seq<Update>)
      modifies this
      ensures applied == old(applied) + Accepted(old(lastSync), us)
      ensures old(lastSync).Some? ==>
                lastSync.Some?
                && Replica(lastSync.value, content) == MergeAll(Replica(old(lastSync).value, old(content)), us)
    {
      var rest := us;
      while rest != []
        invariant applied + Accepted(lastSync, rest) == old(applied) + Accepted(old(lastSync), us)
        invariant old(lastSync).Some? ==>
                    lastSync.Some?
                    && MergeAll(Replica(lastSync.value, content), rest)
                       == MergeAll(Replica(old(lastSync).value, old(content)), us)
        decreases |rest|
      {
        SetClipboard(rest[0], false);
        rest := rest[1..];
      }
    }
  }

  /** Which updates of a series are newest when they arrive; no stamp yet means that anything is. */
  function Accepted(newest: Option<nat>, us: seq<Update>): seq<Update>
    decreases |us|
  {
    if us == [] then []
    else if newest.None? || us[0].stamp > newest.value then [us[0]] + Accepted(Some(us[0].stamp), us[1..])
    else Accepted(newest, us[1..])
  }

  predicate AllCuttable(us: seq<Update>) { forall u | u in us :: Cuttable(u.content) }

  // ---- What the trap does

  lemma {:induction false} DeadStays(d: Daemon, us: seq<Update>)
    requires !d.alive
    ensures HandleAll(d, us) == d
    decreases |us|
  {
    if us != [] {
      DeadStays(d, us[1..]);
    }
  }

  /** The daemon survives a series exactly if every update that is newest when it arrives can be cut.  Then it ends
      as the merging rule says and has written all of those; else it has ended at the first that cannot be cut,
      which it has persisted but not written, and everything after that is lost on it. */
  lemma {:induction false} SurvivesIff(d: Daemon, us: seq<Update>)
    requires d.alive
    ensures var taken := Accepted(Some(d.replica.stamp), us); var e := HandleAll(d, us);
      && (e.alive <==> AllCuttable(taken))
      && (e.alive ==> e.replica == MergeAll(d.replica, us) && e.applied == d.applied + taken)
      && (!e.alive ==> |e.applied| < |d.applied| + |taken|)
    decreases |us|
  {
    if us != [] {
      var next := FromPeer(d, us[0], Open);
      if next.alive {
        SurvivesIff(next, us[1..]);
        TakenFirst(d, us);
      } else {
        DeadStays(next, us[1..]);
      }
    }
  }

  lemma {:induction false} TakenFirst(d: Daemon, us: seq<Update>)
    requires d.alive && us != [] && FromPeer(d, us[0], Open).alive
    ensures var next := FromPeer(d, us[0], Open);
      && next.applied + Accepted(Some(next.replica.stamp), us[1..]) == d.applied + Accepted(Some(d.replica.stamp), us)
      && (AllCuttable(Accepted(Some(d.replica.stamp), us))
          <==> AllCuttable(Accepted(Some(next.replica.stamp), us[1..])))
  {
    var next := FromPeer(d, us[0], Open);
    var later := Accepted(Some(next.replica.stamp), us[1..]);
    if us[0].stamp > d.replica.stamp {
      assert Accepted(Some(d.replica.stamp), us) == [us[0]] + later;
      assert d.applied + ([us[0]] + later) == d.applied + [us[0]] + later;
      assert forall u :: u in [us[0]] + later <==> u == us[0] || u in later;
    }
  }

  /** Where it ends: the daemon takes updates up to the first that cannot be cut, and that one it only persists. */
  lemma {:induction false} EndsAt(d: Daemon, us: seq<Update>) returns (k: nat)
    requires d.alive && !HandleAll(d, us).alive
    ensures k < |us| && !Cuttable(us[k].content) && HandleAll(d, us[..k]).alive
    ensures us[k].stamp > HandleAll(d, us[..k]).replica.stamp
    ensures HandleAll(d, us) == HandleAll(d, us[..k]).(replica := Replica(us[k].stamp, us[k].content),
                                                       lastSync := Some(us[k].stamp), alive := false)
    decreases |us|
  {
    var next := FromPeer(d, us[0], Open);
    if next.alive {
      var m := EndsAt(next, us[1..]);
      k := m + 1;
      assert us[..k][0] == us[0] && us[..k][1..] == us[1..][..m];
    } else {
      k := 0;
      DeadStays(next, us[1..]);
    }
  }

  /** Eighteen letters, a space and an e with an acute accent: byte 20 is the second byte of the last character. */
  function Trap(): Text { seq(18, _ => 0x61) + [0x20, 0xC3, 0xA9] }

  /** An ordinary text from a peer ends the daemon: it never reaches the clipboard, and neither does any later one. */
  lemma {:induction false} TrapEndsDaemon(d: Daemon, stamp: nat, later: seq<Update>)
    requires d.alive && stamp > d.replica.stamp
    ensures var e := HandleAll(d, [Update(Trap(), stamp)] + later);
      !e.alive && e.applied == d.applied && e.replica == Replica(stamp, Trap())
  {
    var us := [Update(Trap(), stamp)] + later;
    assert Trap()[20] == 0xA9;
    assert us[0] == Update(Trap(), stamp) && us[1..] == later;
    DeadStays(FromPeer(d, us[0], Open), later);
  }

  /** Nor is it broadcast when it is copied on the device itself. */
  lemma TrapIsNotBroadcast(d: Daemon, stamp: nat, g: Guards)
    requires d.alive && stamp > d.replica.stamp && !g.locked && !g.blank
    ensures var e := FromHere(d, Update(Trap(), stamp), g);
      !e.alive && e.outbox == d.outbox && e.replica == Replica(stamp, Trap())
  {
    assert Trap()[20] == 0xA9;
  }

  // ---- Both versions

  lemma {:induction false} FewerFromZero(us: seq<Update>)
    requires us != [] && us[0].stamp == 0
    ensures |Accepted(Some(0), us)| < |Accepted(None, us)|
  {
  }

  /** From the same persisted state the daemon writes to its clipboard exactly what the mobile binding takes, unless
      nothing is persisted and the first update is stamped 0, or one of the updates taken cannot be cut. */
  lemma {:induction false} SameDecisionsIff(persisted: Option<nat>, text: Text, us: seq<Update>)
    ensures HandleAll(Started(persisted, text), us).applied == Accepted(persisted, us)
            <==> (persisted.Some? || us == [] || us[0].stamp > 0) && AllCuttable(Accepted(persisted, us))
  {
    var d := Started(persisted, text);
    SurvivesIff(d, us);
    assert d.applied + Accepted(Some(d.replica.stamp), us) == Accepted(Some(d.replica.stamp), us);
    if persisted.None? && us != [] && us[0].stamp == 0 {
      FewerFromZero(us);
    }
  }

  // ---- Convergence

  predicate Newer(r: Replica, us: seq<Update>, u: Update) {
    u in us && u.stamp > r.stamp && forall v | v in us :: v.stamp <= u.stamp
  }

  /** The result is the old replica if nothing is newer, else an update with the newest stamp. */
  lemma {:induction false} MergeAllResult(r: Replica, us: seq<Update>)
    ensures var m := MergeAll(r, us);
      || (m == r && forall v | v in us :: v.stamp <= r.stamp)
      || Newer(r, us, Update(m.content, m.stamp))
    decreases |us|
  {
    if us != [] {
      MergeAllResult(Merge(r, us[0]), us[1..]);
      assert us == [us[0]] + us[1..];
    }
  }

  /** No two different contents compete for the newest stamp. */
  ghost predicate NoTie(r: Replica, us: seq<Update>) {
    forall u, v | Newer(r, us, u) && Newer(r, us, v) :: u == v
  }

  ghost predicate SameUpdates(us: seq<Update>, vs: seq<Update>) {
    forall u :: u in us <==> u in vs
  }

  /** Whatever order and however often the same updates arrive, the replica ends the same. */
  ghost predicate Converges(r: Replica, us: seq<Update>) {
    forall vs :: SameUpdates(us, vs) ==> MergeAll(r, vs) == MergeAll(r, us)
  }

  /** By the merging rule alone, that is so exactly when no two different contents share the newest stamp. */
  lemma {:induction false} ConvergesIff(r: Replica, us: seq<Update>)
    ensures Converges(r, us) <==> NoTie(r, us)
  {
    if NoTie(r, us) {
      forall vs | SameUpdates(us, vs) ensures MergeAll(r, vs) == MergeAll(r, us) {
        Agree(r, us, vs);
      }
    } else {
      TieBreaks(r, us);
    }
  }

  lemma {:induction false} TieBreaks(r: Replica, us: seq<Update>)
    requires !NoTie(r, us)
    ensures !Converges(r, us)
  {
    var u, v :| Newer(r, us, u) && Newer(r, us, v) && u != v;
    TieDiverges(r, us, u, v);
  }

  /** Of two contests for the newest stamp, the one that arrives first wins. */
  lemma {:induction false} TieDiverges(r: Replica, us: seq<Update>, u: Update, v: Update)
    requires Newer(r, us, u) && Newer(r, us, v) && u != v
    ensures SameUpdates(us, [u] + us) && SameUpdates(us, [v] + us)
    ensures MergeAll(r, [u] + us) != MergeAll(r, [v] + us)
  {
    FirstNewestWins(r, us, u);
    FirstNewestWins(r, us, v);
  }

  lemma {:induction false} Agree(r: Replica, us: seq<Update>, vs: seq<Update>)
    requires NoTie(r, us) && SameUpdates(us, vs)
    ensures MergeAll(r, us) == MergeAll(r, vs)
  {
    MergeAllResult(r, us);
    MergeAllResult(r, vs);
    var a, b := MergeAll(r, us), MergeAll(r, vs);
    if Newer(r, us, Update(a.content, a.stamp)) && Newer(r, vs, Update(b.content, b.stamp)) {
      assert Newer(r, us, Update(b.content, b.stamp));
    }
  }

  lemma {:induction false} NoneNewer(r: Replica, us: seq<Update>)
    requires forall v | v in us :: v.stamp <= r.stamp
    ensures MergeAll(r, us) == r
    decreases |us|
  {
    if us != [] {
      NoneNewer(r, us[1..]);
    }
  }

  lemma {:induction false} FirstNewestWins(r: Replica, us: seq<Update>, u: Update)
    requires Newer(r, us, u)
    ensures MergeAll(r, [u] + us) == Replica(u.stamp, u.content)
  {
    assert ([u] + us)[1..] == us;
    NoneNewer(Replica(u.stamp, u.content), us);
  }

  // ---- Convergence of daemons

  /** Only texts with the newest stamp may be such that they cannot be cut. */
  ghost predicate NoTrap(r: Replica, us: seq<Update>) {
    forall u, v | u in us && v in us :: r.stamp < u.stamp < v.stamp ==> Cuttable(u.content)
  }

  /** A daemon that ends has taken an update that cannot be cut; without a trap that was the newest. */
  lemma {:induction false} DaemonMerges(d: Daemon, us: seq<Update>)
    requires d.alive && NoTrap(d.replica, us)
    ensures var m := HandleAll(d, us).replica;
      (m == d.replica && forall v | v in us :: v.stamp <= d.replica.stamp)
      || Newer(d.replica, us, Update(m.content, m.stamp))
  {
    MergeAllResult(d.replica, us);
    SurvivesIff(d, us);
    if !HandleAll(d, us).alive {
      var k := EndsAt(d, us);
      Rises(d, us[..k]);
      assert us[k] in us && us[k].stamp > d.replica.stamp;
      assert forall v | v in us :: us[k].stamp < v.stamp ==> Cuttable(us[k].content);
    }
  }

  lemma {:induction false} Rises(d: Daemon, us: seq<Update>)
    ensures HandleAll(d, us).replica.stamp >= d.replica.stamp
    decreases |us|
  {
    if us != [] {
      Rises(FromPeer(d, us[0], Open), us[1..]);
    }
  }

  /** Whatever order and however often the same updates arrive, daemons persist the same. */
  ghost predicate DaemonsConverge(d: Daemon, us: seq<Update>) {
    forall vs :: SameUpdates(us, vs) ==> HandleAll(d, vs).replica == HandleAll(d, us).replica
  }

  /** For daemons, that is so exactly when no two different contents share the newest stamp and no older new text is
      one that cannot be cut. */
  lemma {:induction false} DaemonsConvergeIff(d: Daemon, us: seq<Update>)
    requires d.alive
    ensures DaemonsConverge(d, us) <==> NoTie(d.replica, us) && NoTrap(d.replica, us)
  {
    if !NoTrap(d.replica, us) {
      TrapBreaks(d, us);
    } else if NoTie(d.replica, us) {
      forall vs | SameUpdates(us, vs) ensures HandleAll(d, vs).replica == HandleAll(d, us).replica {
        DaemonsAgree(d, us, vs);
      }
    } else {
      DaemonTieBreaks(d, us);
    }
  }

  lemma {:induction false} TrapBreaks(d: Daemon, us: seq<Update>)
    requires d.alive && !NoTrap(d.replica, us)
    ensures !DaemonsConverge(d, us)
  {
    var u, v :| u in us && v in us && d.replica.stamp < u.stamp < v.stamp && !Cuttable(u.content);
    TrapDiverges(d, us, u, v);
  }

  lemma {:induction false} DaemonTieBreaks(d: Daemon, us: seq<Update>)
    requires d.alive && !NoTie(d.replica, us)
    ensures !DaemonsConverge(d, us)
  {
    var u, v :| Newer(d.replica, us, u) && Newer(d.replica, us, v) && u != v;
    DaemonTieDiverges(d, us, u, v);
  }

  lemma {:induction false} DaemonsAgree(d: Daemon, us: seq<Update>, vs: seq<Update>)
    requires d.alive && NoTie(d.replica, us) && NoTrap(d.replica, us) && SameUpdates(us, vs)
    ensures HandleAll(d, vs).replica == HandleAll(d, us).replica
  {
    DaemonMerges(d, us);
    DaemonMerges(d, vs);
    var a, b := HandleAll(d, us).replica, HandleAll(d, vs).replica;
    if Newer(d.replica, us, Update(a.content, a.stamp)) && Newer(d.replica, vs, Update(b.content, b.stamp)) {
      assert Newer(d.replica, us, Update(b.content, b.stamp));
    }
  }

  /** The update that arrives first. */
  lemma {:induction false} ArrivesFirst(d: Daemon, us: seq<Update>, u: Update)
    requires d.alive && u in us && u.stamp > d.replica.stamp
    requires !Cuttable(u.content) || forall v | v in us :: v.stamp <= u.stamp
    ensures SameUpdates(us, [u] + us) && HandleAll(d, [u] + us).replica == Replica(u.stamp, u.content)
  {
    var next := FromPeer(d, u, Open);
    assert ([u] + us)[0] == u && ([u] + us)[1..] == us;
    if next.alive {
      NothingNewer(next, us);
    } else {
      DeadStays(next, us);
    }
  }

  lemma {:induction false} NothingNewer(d: Daemon, us: seq<Update>)
    requires forall v | v in us :: v.stamp <= d.replica.stamp
    ensures HandleAll(d, us) == d
    decreases |us|
  {
    if us != [] {
      NothingNewer(d, us[1..]);
    }
  }

  lemma {:induction false} DaemonTieDiverges(d: Daemon, us: seq<Update>, u: Update, v: Update)
    requires d.alive && Newer(d.replica, us, u) && Newer(d.replica, us, v) && u != v
    ensures SameUpdates(us, [u] + us) && SameUpdates(us, [v] + us)
    ensures HandleAll(d, [u] + us).replica != HandleAll(d, [v] + us).replica
  {
    ArrivesFirst(d, us, u);
    ArrivesFirst(d, us, v);
  }

  /** An older text that cannot be cut decides if it comes first, and not if the newest comes first. */
  lemma {:induction false} TrapDiverges(d: Daemon, us: seq<Update>, u: Update, v: Update)
    requires d.alive && u in us && v in us && d.replica.stamp < u.stamp < v.stamp && !Cuttable(u.content)
    ensures exists vs, ws :: SameUpdates(us, vs) && SameUpdates(us, ws)
                             && HandleAll(d, vs).replica != HandleAll(d, ws).replica
  {
    var w := NewestOf(us);
    ArrivesFirst(d, us, u);
    ArrivesFirst(d, us, w);
    assert HandleAll(d, [u] + us).replica != HandleAll(d, [w] + us).replica;
  }

  lemma {:induction false} NewestOf(us: seq<Update>) returns (w: Update)
    requires us != []
    ensures w in us && forall v | v in us :: v.stamp <= w.stamp
    decreases |us|
  {
    w := us[0];
    if |us| > 1 {
      var x := NewestOf(us[1..]);
      if x.stamp > w.stamp { w := x; }
      assert us == [us[0]] + us[1..];
    }
  }

  /** Updates with pairwise different stamps, of which only the newest may be one that cannot be cut, leave the same
      persisted state in every order and with any repeats. */
  lemma {:induction false} DistinctStampsConverge(d: Daemon, us: seq<Update>, vs: seq<Update>)
    requires d.alive && NoTrap(d.replica, us) && SameUpdates(us, vs)
    requires forall u, v | u in us && v in us :: u.stamp == v.stamp ==> u == v
    ensures HandleAll(d, us).replica == HandleAll(d, vs).replica
  {
    DaemonsAgree(d, us, vs);
  }

  /** A daemon survives the updates in every order exactly if each that is newer than what it has can be cut. */
  lemma {:induction false} SurvivesEveryOrderIff(d: Daemon, us: seq<Update>)
    requires d.alive
    ensures (forall vs :: SameUpdates(us, vs) ==> HandleAll(d, vs).alive)
            <==> forall u | u in us :: u.stamp > d.replica.stamp ==> Cuttable(u.content)
  {
    if u :| u in us && u.stamp > d.replica.stamp && !Cuttable(u.content) {
      assert ([u] + us)[0] == u;
      DeadStays(FromPeer(d, u, Open), ([u] + us)[1..]);
      assert SameUpdates(us, [u] + us) && !HandleAll(d, [u] + us).alive;
    } else {
      forall vs | SameUpdates(us, vs) ensures HandleAll(d, vs).alive {
        SurvivesIff(d, vs);
        AcceptedAreNewer(d.replica.stamp, vs);
      }
    }
  }

  lemma {:induction false} AcceptedAreNewer(newest: nat, us: seq<Update>)
    ensures forall u | u in Accepted(Some(newest), us) :: u in us && u.stamp > newest
    decreases |us|
  {
    if us != [] {
      AcceptedAreNewer(if us[0].stamp > newest then us[0].stamp else newest, us[1..]);
    }
  }
}
