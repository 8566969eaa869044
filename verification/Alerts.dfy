/**
 Mirrored notifications: which updates alert the user and which are silent.

 Two maps: the active notifications, and when each key last alerted.
 */
module Alerts {
  datatype Payload = Payload(key: string, text: string, isOngoing: bool, onlyAlertOnce: bool)

  /** `NotificationMirrored` at a time in milliseconds, or a dismissal (by this device or a peer). */
  datatype Event = Mirror(payload: Payload, now: nat) | Dismiss(key: string)

  const ALERT_INTERVAL_MS: nat := 5000

  datatype State = State(active: map<string, Payload>, alertTimes: map<string, nat>)

  const Empty := State(map[], map[])

  function ShouldAlert(s: State, p: Payload, now: nat): bool {
    !p.isOngoing && !(p.onlyAlertOnce && p.key in s.active)
    && (p.key in s.alertTimes ==> now >= s.alertTimes[p.key] + ALERT_INTERVAL_MS)
  }

  function Step(s: State, e: Event): State {
    match e
    case Mirror(p, now) =>
      State(s.active[p.key := p], if ShouldAlert(s, p, now) then s.alertTimes[p.key := now] else s.alertTimes)
    case Dismiss(key) => State(s.active - {key}, s.alertTimes - {key})
  }

  /** The state after a history of events. */
  function After(es: seq<Event>): State {
    if es == [] then Empty else Step(After(es[..|es| - 1]), es[|es| - 1])
  }

  /** The i-th event of a history alerted the user. */
  predicate Alerted(es: seq<Event>, i: nat)
    requires i < |es|
  {
    es[i].Mirror? && ShouldAlert(After(es[..i]), es[i].payload, es[i].now)
  }

  /** The two maps as the daemon keeps them. */
  class Center {
    var active: map<string, Payload>
    var alertTimes: map<string, nat>

    constructor ()
      ensures View() == Empty
    {
      active, alertTimes := map[], map[];
    }

    function View(): State
      reads this
    {
      State(active, alertTimes)
    }

    method Mirrored(p: Payload, now: nat) returns (alert: bool)
      modifies this
      ensures alert == ShouldAlert(old(View()), p, now)
      ensures View() == Step(old(View()), Mirror(p, now))
    {
      if p.isOngoing || (p.onlyAlertOnce && p.key in active) {
        alert := false;
      } else if p.key in alertTimes {
        if now < alertTimes[p.key] + ALERT_INTERVAL_MS {
          alert := false;
        } else {
          alertTimes := alertTimes[p.key := now];
          alert := true;
        }
      } else {
        alertTimes := alertTimes[p.key := now];
        alert := true;
      }
      active := active[p.key := p];
    }

    method Dismissed(key: string)
      modifies this
      ensures View() == Step(old(View()), Dismiss(key))
    {
      active := active - {key};
      alertTimes := alertTimes - {key};
    }
  }

  /** Only active notifications have an alert time. */
  lemma {:induction false} AlertTimesAreActive(es: seq<Event>)
    ensures After(es).alertTimes.Keys <= After(es).active.Keys
  {
    if es != [] {
      AlertTimesAreActive(es[..|es| - 1]);
    }
  }

  /** Key k is dismissed nowhere in es[lo..hi]. */
  predicate Undismissed(es: seq<Event>, key: string, lo: nat, hi: nat) {
    forall k | lo <= k < hi && k < |es| :: es[k] != Dismiss(key)
  }

  /** An alert is remembered, with its time or a later one, until its key is dismissed. */
  lemma {:induction false} AlertRemembered(es: seq<Event>, i: nat, n: nat)
    requires i < n <= |es| && Alerted(es, i) && Undismissed(es, es[i].payload.key, i, n)
    ensures var s := After(es[..n]);
      es[i].payload.key in s.alertTimes && es[i].now <= s.alertTimes[es[i].payload.key]
    decreases n
  {
    assert es[..n][..n - 1] == es[..n - 1];
    if i < n - 1 {
      AlertRemembered(es, i, n - 1);
    }
  }

  /** Two alerts for a key with no dismissal between them are at least five seconds apart. */
  lemma AlertsSpaced(es: seq<Event>, i: nat, j: nat)
    requires i < j < |es| && Alerted(es, i) && Alerted(es, j)
    requires es[i].payload.key == es[j].payload.key && Undismissed(es, es[i].payload.key, i, j)
    ensures es[j].now >= es[i].now + ALERT_INTERVAL_MS
  {
    AlertRemembered(es, i, j);
  }

  /** Ongoing payloads never alert; any other alert-once payload alerts exactly when its key is not active. */
  lemma AlertsWhen(es: seq<Event>, i: nat)
    requires i < |es| && es[i].Mirror?
    ensures es[i].payload.isOngoing ==> !Alerted(es, i)
    ensures !es[i].payload.isOngoing && es[i].payload.onlyAlertOnce ==>
              (Alerted(es, i) <==> es[i].payload.key !in After(es[..i]).active)
  {
    AlertTimesAreActive(es[..i]);
  }

  /** Event j mirrors the key, which is not dismissed from then to n. */
  predicate Shows(es: seq<Event>, key: string, j: nat, n: nat) {
    j < |es| && es[j].Mirror? && es[j].payload.key == key && Undismissed(es, key, j, n)
  }

  /** The key has been mirrored among the first n events and not dismissed since. */
  predicate Showing(es: seq<Event>, key: string, n: nat) { exists j | 0 <= j < n :: Shows(es, key, j, n) }

  /** An event that is neither a mirroring nor a dismissal of the key does not matter to it. */
  lemma {:induction false} StillShows(es: seq<Event>, key: string, n: nat)
    requires n < |es| && es[n] != Dismiss(key) && !(es[n].Mirror? && es[n].payload.key == key)
    ensures Showing(es, key, n + 1) <==> Showing(es, key, n)
  {
    if Showing(es, key, n + 1) {
      var j: nat :| j < n + 1 && Shows(es, key, j, n + 1);
      assert j < n && Shows(es, key, j, n);
    }
    if Showing(es, key, n) {
      var j: nat :| j < n && Shows(es, key, j, n);
      assert Shows(es, key, j, n + 1);
    }
  }

  /** A key is active exactly if it has been mirrored and not dismissed since. */
  lemma {:induction false} ActiveIff(es: seq<Event>, key: string, n: nat)
    requires n <= |es|
    ensures key in After(es[..n]).active <==> Showing(es, key, n)
  {
    if n > 0 {
      assert es[..n][..n - 1] == es[..n - 1];
      ActiveIff(es, key, n - 1);
      if es[n - 1] == Dismiss(key) {
      } else if es[n - 1].Mirror? && es[n - 1].payload.key == key {
        assert Shows(es, key, n - 1, n);
      } else {
        StillShows(es, key, n - 1);
      }
    }
  }

  /** What is active is the last payload mirrored for its key. */
  lemma {:induction false} ActiveIsLatest(es: seq<Event>, key: string, n: nat) returns (j: nat)
    requires n <= |es| && key in After(es[..n]).active
    ensures j < n && Shows(es, key, j, n) && After(es[..n]).active[key] == es[j].payload
    ensures forall k | j < k < n :: !(es[k].Mirror? && es[k].payload.key == key)
  {
    assert es[..n][..n - 1] == es[..n - 1];
    if es[n - 1].Mirror? && es[n - 1].payload.key == key {
      j := n - 1;
    } else {
      j := ActiveIsLatest(es, key, n - 1);
    }
  }

  /** A remembered time is that of an alert with no dismissal since. */
  lemma {:induction false} TimeFrom(es: seq<Event>, key: string, n: nat) returns (j: nat)
    requires n <= |es| && key in After(es[..n]).alertTimes
    ensures j < n && Alerted(es, j) && Shows(es, key, j, n) && After(es[..n]).alertTimes[key] == es[j].now
  {
    assert es[..n][..n - 1] == es[..n - 1];
    var s := After(es[..n - 1]);
    if es[n - 1].Mirror? && es[n - 1].payload.key == key && ShouldAlert(s, es[n - 1].payload, es[n - 1].now) {
      j := n - 1;
    } else {
      j := TimeFrom(es, key, n - 1);
    }
  }

  /** Exactly when event i alerts, from the history alone: it mirrors a payload that is not ongoing and, if it alerts
      only once, whose key is not showing; and every alert of its key with no dismissal since is five seconds old. */
  lemma {:induction false} AlertsIff(es: seq<Event>, i: nat)
    requires i < |es| && es[i].Mirror?
    ensures var p := es[i].payload;
      Alerted(es, i) <==>
        && !p.isOngoing
        && (p.onlyAlertOnce ==> !Showing(es, p.key, i))
        && forall j | 0 <= j < i && Shows(es, p.key, j, i) && Alerted(es, j) ::
             es[i].now >= es[j].now + 5000
  {
    var p := es[i].payload;
    ActiveIff(es, p.key, i);
    if p.key in After(es[..i]).alertTimes {
      var j := TimeFrom(es, p.key, i);
    }
    forall j | 0 <= j < i && Shows(es, p.key, j, i) && Alerted(es, j) && Alerted(es, i)
      ensures es[i].now >= es[j].now + ALERT_INTERVAL_MS
    {
      AlertsSpaced(es, j, i);
    }
  }

  /** A dismissed key starts afresh: its next ordinary notification alerts at once. */
  lemma DismissalResets(es: seq<Event>, i: nat)
    requires 0 < i < |es| && es[i].Mirror? && !es[i].payload.isOngoing
    requires es[i - 1] == Dismiss(es[i].payload.key)
    ensures Alerted(es, i)
  {
    assert es[..i][..i - 1] == es[..i - 1];
  }
}
