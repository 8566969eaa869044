/**
 What the desktop daemon announces to its peers and writes to its own clipboard, over any series of local changes
 and updates from peers.

 The answer is given in terms of the series alone: what had arrived before, and what each arrival's checks found.
 */
module Announce {
  import opened Common
  import opened Clipboard

  /** The checks that come before the clock.  A local change is taken although its text is local-only; an update from
      a peer is not, nor while the current content is. */
  predicate Passes(a: Arrival) {
    && !a.guards.locked && !a.guards.blank
    && (a.Remote? ==> !a.guards.currentLocalOnly && !a.guards.contentLocalOnly)
  }

  /** Arrival k passes its checks and is newer than everything that did before it. */
  predicate Newest(stamp: nat, arrivals: seq<Arrival>, k: nat)
    requires k < |arrivals|
  {
    && Passes(arrivals[k]) && arrivals[k].update.stamp > stamp
    && forall j | 0 <= j < k && Passes(arrivals[j]) :: arrivals[j].update.stamp < arrivals[k].update.stamp
  }

  /** Nothing taken among the first n arrivals ended the daemon. */
  predicate Lives(stamp: nat, arrivals: seq<Arrival>, n: nat)
    requires n <= |arrivals|
  {
    forall j | 0 <= j < n && Newest(stamp, arrivals, j) :: Cuttable(arrivals[j].update.content)
  }

  /** The updates of the first n arrivals that are taken while the daemon lives and can be cut. */
  function Written(stamp: nat, arrivals: seq<Arrival>, n: nat): seq<Update>
    requires n <= |arrivals|
  {
    if n == 0 then [] else
    Written(stamp, arrivals, n - 1)
    + if Newest(stamp, arrivals, n - 1) && Lives(stamp, arrivals, n) then [arrivals[n - 1].update] else []
  }

  /** Of these, the local changes that are not local-only. */
  function Announced(stamp: nat, arrivals: seq<Arrival>, n: nat): seq<Update>
    requires n <= |arrivals|
  {
    if n == 0 then [] else
    Announced(stamp, arrivals, n - 1)
    + if Newest(stamp, arrivals, n - 1) && Lives(stamp, arrivals, n)
         && arrivals[n - 1].Local? && !arrivals[n - 1].guards.contentLocalOnly
      then [arrivals[n - 1].update] else []
  }

  /** What is persisted after the first n arrivals: the last update taken while the daemon lived, cut or not. */
  function Persisted(r: Replica, lastSync: Option<nat>, arrivals: seq<Arrival>, n: nat): (Replica, Option<nat>)
    requires n <= |arrivals|
  {
    if n == 0 then (r, lastSync)
    else if Newest(r.stamp, arrivals, n - 1) && Lives(r.stamp, arrivals, n - 1) then
      var u := arrivals[n - 1].update;
      (Replica(u.stamp, u.content), Some(u.stamp))
    else Persisted(r, lastSync, arrivals, n - 1)
  }

  /** The clock: the newest stamp that passed. */
  predicate Tops(clock: nat, stamp: nat, arrivals: seq<Arrival>, n: nat)
    requires n <= |arrivals|
  {
    && (forall j | 0 <= j < n && Passes(arrivals[j]) :: arrivals[j].update.stamp <= clock)
    && (clock == stamp || exists j | 0 <= j < n :: Passes(arrivals[j]) && arrivals[j].update.stamp == clock)
    && clock >= stamp
  }

  /** Where the daemon stands after the first n arrivals. */
  ghost predicate Stands(d: Daemon, arrivals: seq<Arrival>, n: nat)
    requires n <= |arrivals|
  {
    var e, stamp := Serve(d, arrivals[..n]), d.replica.stamp;
    && e.applied == d.applied + Written(stamp, arrivals, n)
    && e.outbox == d.outbox + Announced(stamp, arrivals, n)
    && (e.replica, e.lastSync) == Persisted(d.replica, d.lastSync, arrivals, n)
    && (e.alive <==> Lives(stamp, arrivals, n))
    && (e.alive ==> Tops(e.replica.stamp, stamp, arrivals, n))
  }

  /** A living daemon's clock decides who is newest. */
  lemma NewestIff(clock: nat, stamp: nat, arrivals: seq<Arrival>, k: nat)
    requires k < |arrivals| && Tops(clock, stamp, arrivals, k)
    ensures Newest(stamp, arrivals, k) <==> Passes(arrivals[k]) && arrivals[k].update.stamp > clock
  {
  }

  lemma TopsNext(clock: nat, stamp: nat, arrivals: seq<Arrival>, k: nat)
    requires k < |arrivals| && Tops(clock, stamp, arrivals, k)
    ensures Tops(if Newest(stamp, arrivals, k) then arrivals[k].update.stamp else clock, stamp, arrivals, k + 1)
  {
  }

  lemma {:induction false} StandsNext(d: Daemon, arrivals: seq<Arrival>, k: nat)
    requires d.alive && k < |arrivals| && Stands(d, arrivals, k)
    ensures Stands(d, arrivals, k + 1)
  {
    var stamp, a := d.replica.stamp, arrivals[k];
    var e := Serve(d, arrivals[..k]);
    assert arrivals[..k + 1][..k] == arrivals[..k];
    assert Serve(d, arrivals[..k + 1]) == Handle(e, a);
    assert Lives(stamp, arrivals, k + 1) <==>
             Lives(stamp, arrivals, k) && (Newest(stamp, arrivals, k) ==> Cuttable(a.update.content));
    if e.alive {
      NewestIff(e.replica.stamp, stamp, arrivals, k);
      TopsNext(e.replica.stamp, stamp, arrivals, k);
    }
  }

  lemma {:induction false} ServeStands(d: Daemon, arrivals: seq<Arrival>, n: nat)
    requires d.alive && n <= |arrivals|
    ensures Stands(d, arrivals, n)
  {
    if n == 0 {
      assert arrivals[..0] == [];
    } else {
      ServeStands(d, arrivals, n - 1);
      StandsNext(d, arrivals, n - 1);
    }
  }

  /** Over any series, the daemon announces exactly the local changes that pass their checks, are newest when they
      arrive, reach it alive and leave it alive, and are not local-only; it writes all it takes, local-only or not,
      and persists the last it takes; and it lives exactly if everything it took could be cut. */
  lemma {:induction false} AnnouncesExactly(d: Daemon, arrivals: seq<Arrival>)
    requires d.alive
    ensures var e, stamp, n := Serve(d, arrivals), d.replica.stamp, |arrivals|;
      && e.outbox == d.outbox + Announced(stamp, arrivals, n)
      && e.applied == d.applied + Written(stamp, arrivals, n)
      && (e.replica, e.lastSync) == Persisted(d.replica, d.lastSync, arrivals, n)
      && (e.alive <==> Lives(stamp, arrivals, n))
  {
    ServeStands(d, arrivals, |arrivals|);
    assert arrivals[..|arrivals|] == arrivals;
  }

  /** Nothing local-only ever leaves the device. */
  lemma {:induction false} LocalOnlyStays(d: Daemon, arrivals: seq<Arrival>, u: Update)
    requires d.alive && u in Serve(d, arrivals).outbox && u !in d.outbox
    ensures exists k | 0 <= k < |arrivals| ::
              arrivals[k].Local? && arrivals[k].update == u && !arrivals[k].guards.contentLocalOnly
  {
    AnnouncesExactly(d, arrivals);
    AnnouncedFrom(d.replica.stamp, arrivals, |arrivals|, u);
  }

  lemma {:induction false} AnnouncedFrom(stamp: nat, arrivals: seq<Arrival>, n: nat, u: Update)
    requires n <= |arrivals| && u in Announced(stamp, arrivals, n)
    ensures exists k | 0 <= k < n ::
              arrivals[k].Local? && arrivals[k].update == u && !arrivals[k].guards.contentLocalOnly
  {
    if u in Announced(stamp, arrivals, n - 1) {
      AnnouncedFrom(stamp, arrivals, n - 1, u);
    } else {
      assert arrivals[n - 1].update == u;
    }
  }

  /** While any of its four checks forbids it, an update from a peer changes nothing at all. */
  lemma GuardedChangesNothing(d: Daemon, u: Update, g: Guards)
    requires g.locked || g.blank || g.currentLocalOnly || g.contentLocalOnly
    ensures Handle(d, Remote(u, g)) == d
  {
  }
}
