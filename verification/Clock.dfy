/**
 The timestamp clock: `claim_newer_timestamp`, a compare-and-swap retry loop on a shared atomic, under any
 number of threads, any interleaving and spurious failures of the weak compare-and-swap.
 */
module Clock {
  function Max(a: nat, b: nat): nat { if a >= b then a else b }

  // ---- One call

  /** What other threads do just before one of our compare-and-swap attempts, and whether it fails spuriously. */
  datatype World = World(raise: nat, spurious: bool)

  class AtomicClock {
    var value: nat

    constructor (initial: nat)
      ensures value == initial
    {
      value := initial;
    }

    /** The interference of other callers: they only ever raise the clock. */
    method Interfere(w: World)
      modifies this
      ensures value == Max(old(value), w.raise)
    {
      if w.raise > value { value := w.raise; }
    }

    /** `claim_newer_timestamp`, against a world that interferes before its first |world| attempts. */
    method Claim(newTs: nat, world: seq<World>) returns (accepted: bool)
      modifies this
      ensures old(value) <= value && newTs <= value
      ensures accepted ==> value == newTs && newTs > old(value)
      ensures !accepted ==> newTs <= old(value) || exists i | 0 <= i < |world| :: newTs <= world[i].raise
      ensures !accepted ==> value == old(value) || exists i | 0 <= i < |world| :: value == world[i].raise
      ensures world == [] ==> accepted == (newTs > old(value)) && value == Max(old(value), newTs)
    {
      var current := value;
      var k := 0;
      while true
        invariant k <= |world| && current <= value && old(value) <= current
        invariant value == old(value) || exists i | 0 <= i < k :: value == world[i].raise
        invariant current == old(value) || exists i | 0 <= i < k :: current == world[i].raise
        invariant world == [] ==> value == old(value) == current
        decreases |world| - k, if current == value then 0 else 1
      {
        if newTs <= current {
          return false;
        }
        var spurious := false;
        if k < |world| {
          Interfere(world[k]);
          spurious := world[k].spurious;
          k := k + 1;
        }
        if value == current && !spurious {
          value := newTs;
          return true;
        }
        current := value;
      }
    }
  }

  // ---- Any number of calls, interleaved

  datatype Thread = Fresh | Loaded(current: nat) | Returned(accepted: bool)

  /** `stamps[i]` is what thread i offers; `winners` lists the threads that were accepted, in order. */
  datatype State = State(clock: nat, threads: seq<Thread>, winners: seq<nat>)

  /** Thread i's next step; `spurious` makes a compare-and-swap that would succeed fail. */
  function Step(stamps: seq<nat>, s: State, i: nat, spurious: bool): State
    requires |stamps| == |s.threads| && i < |stamps|
  {
    match s.threads[i]
    case Fresh => s.(threads := s.threads[i := Loaded(s.clock)])
    case Loaded(current) =>
      if stamps[i] <= current then s.(threads := s.threads[i := Returned(false)])
      else if s.clock == current && !spurious then
        State(stamps[i], s.threads[i := Returned(true)], s.winners + [i])
      else s.(threads := s.threads[i := Loaded(s.clock)])
    case Returned(_) => s
  }

  ghost predicate Follows(stamps: seq<nat>, s: State, t: State) {
    |s.threads| == |stamps| && exists i: nat, spurious :: i < |stamps| && t == Step(stamps, s, i, spurious)
  }

  ghost predicate IsRun(initial: nat, stamps: seq<nat>, run: seq<State>) {
    && run != []
    && run[0] == State(initial, seq(|stamps|, _ => Fresh), [])
    && forall k | 0 < k < |run| :: Follows(stamps, run[k - 1], run[k])
  }

  /** Accepted stamps rise strictly from the initial value, and the clock is the last of them. */
  predicate Rising(initial: nat, stamps: seq<nat>, clock: nat, winners: seq<nat>) {
    && (forall k | 0 <= k < |winners| :: winners[k] < |stamps|)
    && (winners != [] ==> stamps[winners[0]] > initial)
    && (forall k | 0 < k < |winners| :: stamps[winners[k]] > stamps[winners[k - 1]])
    && clock == if winners == [] then initial else stamps[winners[|winners| - 1]]
  }

  ghost predicate Inv(initial: nat, stamps: seq<nat>, s: State) {
    && |s.threads| == |stamps|
    && initial <= s.clock && Rising(initial, stamps, s.clock, s.winners)
    && (forall i | 0 <= i < |stamps| :: s.threads[i].Loaded? ==> s.threads[i].current <= s.clock)
    && (forall i | 0 <= i < |stamps| :: s.threads[i].Returned? ==> stamps[i] <= s.clock)
    && (forall i | 0 <= i < |stamps| :: s.threads[i] == Returned(true) <==> i in s.winners)
  }

  lemma StepKeepsInv(initial: nat, stamps: seq<nat>, s: State, i: nat, spurious: bool)
    requires Inv(initial, stamps, s) && i < |stamps|
    ensures Inv(initial, stamps, Step(stamps, s, i, spurious))
    ensures s.clock <= Step(stamps, s, i, spurious).clock
  {
    var t := Step(stamps, s, i, spurious);
    if t.winners != s.winners {
      assert forall j :: j in t.winners <==> j in s.winners || j == i;
    }
  }

  lemma {:induction false} RunInv(initial: nat, stamps: seq<nat>, run: seq<State>, k: nat)
    requires IsRun(initial, stamps, run) && k < |run|
    ensures Inv(initial, stamps, run[k])
  {
    if k > 0 {
      RunInv(initial, stamps, run, k - 1);
      assert Follows(stamps, run[k - 1], run[k]);
      var i: nat, spurious :| i < |stamps| && run[k] == Step(stamps, run[k - 1], i, spurious);
      StepKeepsInv(initial, stamps, run[k - 1], i, spurious);
    }
  }

  /** The clock never goes back. */
  lemma {:induction false} ClockMonotone(initial: nat, stamps: seq<nat>, run: seq<State>, j: nat, k: nat)
    requires IsRun(initial, stamps, run) && j <= k < |run|
    ensures run[j].clock <= run[k].clock
    decreases k
  {
    if j < k {
      ClockMonotone(initial, stamps, run, j, k - 1);
      RunInv(initial, stamps, run, k - 1);
      assert Follows(stamps, run[k - 1], run[k]);
      var i: nat, spurious :| i < |stamps| && run[k] == Step(stamps, run[k - 1], i, spurious);
      StepKeepsInv(initial, stamps, run[k - 1], i, spurious);
    }
  }

  lemma {:induction false} WinnerIsNew(initial: nat, stamps: seq<nat>, clock: nat, winners: seq<nat>, a: nat)
    requires Rising(initial, stamps, clock, winners) && a < |winners|
    ensures initial < stamps[winners[a]]
  {
    if a > 0 {
      WinnerIsNew(initial, stamps, clock, winners, a - 1);
    }
  }

  lemma {:induction false} WinnersRise(initial: nat, stamps: seq<nat>, clock: nat, winners: seq<nat>, a: nat, b: nat)
    requires Rising(initial, stamps, clock, winners) && a < b < |winners|
    ensures initial < stamps[winners[a]] < stamps[winners[b]]
    decreases b
  {
    WinnerIsNew(initial, stamps, clock, winners, a);
    if a + 1 < b {
      WinnersRise(initial, stamps, clock, winners, a, b - 1);
    }
  }

  /** Accepted timestamps strictly increase in the order they are accepted, so none is accepted twice. */
  lemma AcceptedRise(initial: nat, stamps: seq<nat>, run: seq<State>, k: nat)
    requires IsRun(initial, stamps, run) && k < |run|
    ensures forall a, b | 0 <= a < b < |run[k].winners| ::
              run[k].winners[a] < |stamps| && run[k].winners[b] < |stamps|
              && initial < stamps[run[k].winners[a]] < stamps[run[k].winners[b]]
    ensures forall i, j | 0 <= i < |stamps| && 0 <= j < |stamps| && i != j
                          && i < |run[k].threads| && j < |run[k].threads| ::
              run[k].threads[i] == Returned(true) == run[k].threads[j] ==> stamps[i] != stamps[j]
  {
    RunInv(initial, stamps, run, k);
    var s := run[k];
    forall a, b | 0 <= a < b < |s.winners| ensures initial < stamps[s.winners[a]] < stamps[s.winners[b]] {
      WinnersRise(initial, stamps, s.clock, s.winners, a, b);
    }
    forall i, j | 0 <= i < |stamps| && 0 <= j < |stamps| && i != j && s.threads[i] == Returned(true) == s.threads[j]
      ensures stamps[i] != stamps[j]
    {
      var a :| 0 <= a < |s.winners| && s.winners[a] == i;
      var b :| 0 <= b < |s.winners| && s.winners[b] == j;
      if a < b { WinnersRise(initial, stamps, s.clock, s.winners, a, b); }
      else { WinnersRise(initial, stamps, s.clock, s.winners, b, a); }
    }
  }

  function Highest(initial: nat, stamps: seq<nat>): (m: nat)
    ensures m >= initial && (forall i | 0 <= i < |stamps| :: stamps[i] <= m)
    ensures m == initial || m in stamps
  {
    if stamps == [] then initial else Max(stamps[|stamps| - 1], Highest(initial, stamps[..|stamps| - 1]))
  }

  /** Once every call has returned, the clock is the maximum of the initial value and all stamps offered. */
  lemma {:induction false} ClockIsMaximum(initial: nat, stamps: seq<nat>, run: seq<State>, k: nat)
    requires IsRun(initial, stamps, run) && k < |run|
    requires forall i | 0 <= i < |run[k].threads| :: run[k].threads[i].Returned?
    ensures run[k].clock == Highest(initial, stamps)
  {
    RunInv(initial, stamps, run, k);
  }

  // ---- Termination without spurious failures

  /** Work left in one call: a failed compare-and-swap has seen a strictly higher clock. */
  function Work(stamp: nat, t: Thread): nat {
    match t
    case Fresh => stamp + 2
    case Loaded(current) => if stamp > current then stamp - current + 1 else 1
    case Returned(_) => 0
  }

  /** Without spurious failures every step of a call strictly shrinks its remaining work, so each call returns after
      at most `stamps[i] + 2` steps of its own, whatever the others do. */
  lemma EveryStepCounts(initial: nat, stamps: seq<nat>, s: State, i: nat)
    requires Inv(initial, stamps, s) && i < |stamps| && !s.threads[i].Returned?
    ensures var t := Step(stamps, s, i, false);
      && Work(stamps[i], t.threads[i]) < Work(stamps[i], s.threads[i])
      && (forall j | 0 <= j < |stamps| && j != i :: t.threads[j] == s.threads[j])
      && (s.threads[i].Loaded? && t.threads[i].Loaded? ==>
            stamps[i] - t.threads[i].current < stamps[i] - s.threads[i].current)
  {
  }
}
