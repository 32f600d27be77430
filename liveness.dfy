/** The heartbeat timers and the tick supervisor's priority chain (src/mqtt.cpp).
    Timestamps are unsigned 32-bit millisecond counts, and every elapsed time is
    an unsigned 32-bit subtraction, so it wraps around. */
module Liveness {

  const Modulus: int := 0x1_0000_0000

  /** uint32_t */
  type U32 = x: int | 0 <= x < 0x1_0000_0000

  /** MQ_TIMEOUT: with no sign of life for this long a connected link is dead. */
  const MqTimeout: nat := 60 * 1000

  /** A heartbeat is due once half the timeout has passed. */
  const HalfTimeout: nat := MqTimeout / 2

  /** The floor between two connection attempts while disconnected. */
  const RetryInterval: nat := 10000

  /** now - since in uint32_t arithmetic: the time elapsed since `since`,
      counted modulo 2^32. */
  function Elapsed(now: U32, since: U32): (d: U32)
    ensures since <= now ==> d == now - since
    ensures now < since ==> d == now + Modulus - since
    ensures (since + d) % Modulus == now
  {
    (now - since) % Modulus
  }

  /** mqLast (when something was last heard, which doubles as the time of the
      last connection attempt) and mqPing (when a heartbeat was last sent). */
  datatype Timers = Timers(last: U32, ping: U32)

  /** What one tick observes: the clock, whether Wi-Fi is up and whether the
      transport reports itself connected. */
  datatype Observation = Observation(now: U32, wifi: bool, connected: bool)

  /** The branch of the priority chain a tick takes. */
  datatype Branch =
    | Offline    // no Wi-Fi: nothing at all
    | Backoff    // disconnected, last attempt too recent
    | Retry      // disconnected, retry floor passed: reconnect
    | Dead       // connected, but silent for longer than the timeout: reconnect
    | SendPing   // connected, alive, heartbeat due: publish one
    | Live       // connected, alive, heartbeat not due

  predicate IsAttempt(b: Branch)
  {
    b == Retry || b == Dead
  }

  predicate RetryDue(now: U32, last: U32)
  {
    Elapsed(now, last) > RetryInterval
  }

  predicate IsDead(now: U32, last: U32)
  {
    Elapsed(now, last) > MqTimeout
  }

  predicate PingDue(now: U32, t: Timers)
  {
    Elapsed(now, t.last) > HalfTimeout && Elapsed(now, t.ping) > HalfTimeout
  }

  /** The priority chain, evaluated once per tick. Each tick takes exactly one
      branch; the contract spells out, for each one, the whole condition under
      which it is taken. */
  function Decide(t: Timers, o: Observation): (b: Branch)
    ensures b == Offline <==> !o.wifi
    ensures b == Backoff <==> o.wifi && !o.connected && Elapsed(o.now, t.last) <= RetryInterval
    ensures b == Retry <==> o.wifi && !o.connected && Elapsed(o.now, t.last) > RetryInterval
    ensures b == Dead <==> o.wifi && o.connected && Elapsed(o.now, t.last) > MqTimeout
    ensures b == SendPing <==>
              o.wifi && o.connected && HalfTimeout < Elapsed(o.now, t.last) <= MqTimeout
              && Elapsed(o.now, t.ping) > HalfTimeout
    ensures b == Live <==>
              o.wifi && o.connected && Elapsed(o.now, t.last) <= MqTimeout
              && (Elapsed(o.now, t.last) <= HalfTimeout || Elapsed(o.now, t.ping) <= HalfTimeout)
  {
    if !o.wifi then Offline
    else if !o.connected then (if RetryDue(o.now, t.last) then Retry else Backoff)
    else if IsDead(o.now, t.last) then Dead
    else if PingDue(o.now, t) then SendPing
    else Live
  }

  /** The timers after one tick. */
  function Advance(t: Timers, o: Observation): (after: Timers)
  {
    match Decide(t, o)
    case Retry | Dead => t.(last := o.now)
    case SendPing => t.(ping := o.now)
    case _ => t
  }

  /** The timers before each tick of a run and after the last one, when no
      transport event arrives in between. */
  function Trace(t: Timers, run: seq<Observation>): (r: seq<Timers>)
    ensures |r| == |run| + 1 && r[0] == t
    ensures forall i :: 0 <= i < |run| ==> r[i + 1] == Advance(r[i], run[i])
    decreases |run|
  {
    if run == [] then [t]
    else [t] + Trace(Advance(t, run[0]), run[1..])
  }

  /** The branch the i-th tick of a run takes. */
  function BranchAt(t: Timers, run: seq<Observation>, i: nat): (b: Branch)
    requires i < |run|
  {
    Decide(Trace(t, run)[i], run[i])
  }

  /** Only a connection attempt moves mqLast during a run of ticks. */
  lemma {:induction false} LastHeldBetweenAttempts(t: Timers, run: seq<Observation>, i: nat, j: nat)
    requires i <= j <= |run|
    requires forall m :: i <= m < j ==> !IsAttempt(BranchAt(t, run, m))
    ensures Trace(t, run)[j].last == Trace(t, run)[i].last
    decreases j - i
  {
    if i < j {
      LastHeldBetweenAttempts(t, run, i, j - 1);
      assert !IsAttempt(BranchAt(t, run, j - 1));
    }
  }

  /** Only a heartbeat publish moves mqPing during a run of ticks. */
  lemma {:induction false} PingHeldBetweenPings(t: Timers, run: seq<Observation>, i: nat, j: nat)
    requires i <= j <= |run|
    requires forall m :: i <= m < j ==> BranchAt(t, run, m) != SendPing
    ensures Trace(t, run)[j].ping == Trace(t, run)[i].ping
    decreases j - i
  {
    if i < j {
      PingHeldBetweenPings(t, run, i, j - 1);
      assert BranchAt(t, run, j - 1) != SendPing;
    }
  }

  /** Two consecutive connection attempts of a run without transport events
      are more than the retry floor apart (measured modulo 2^32). */
  lemma AttemptsSpaced(t: Timers, run: seq<Observation>, i: nat, j: nat)
    requires i < j < |run|
    requires IsAttempt(BranchAt(t, run, i)) && IsAttempt(BranchAt(t, run, j))
    requires forall m :: i < m < j ==> !IsAttempt(BranchAt(t, run, m))
    ensures Elapsed(run[j].now, run[i].now) > RetryInterval
  {
    LastHeldBetweenAttempts(t, run, i + 1, j);
    assert Trace(t, run)[i + 1].last == run[i].now;
  }

  /** Two consecutive heartbeats of a run without transport events are more
      than half the timeout apart, even when the first is never echoed. */
  lemma PingsSpaced(t: Timers, run: seq<Observation>, i: nat, j: nat)
    requires i < j < |run|
    requires BranchAt(t, run, i) == SendPing && BranchAt(t, run, j) == SendPing
    requires forall m :: i < m < j ==> BranchAt(t, run, m) != SendPing
    ensures Elapsed(run[j].now, run[i].now) > HalfTimeout
  {
    PingHeldBetweenPings(t, run, i + 1, j);
    assert Trace(t, run)[i + 1].ping == run[i].now;
  }

  /** mqLast and mqPing start at 0, and the comparison is strict: right after
      boot no attempt is made until the clock has passed 10 s. */
  lemma BootBackoff(now: U32)
    requires now <= RetryInterval
    ensures Decide(Timers(0, 0), Observation(now, true, false)) == Backoff
  {
  }

  /** A connected link last heard from at t0, whose last heartbeat went out
      more than half a timeout before t0 + 31 s, and whose next heartbeat is
      never echoed: at t0 + 31 s a heartbeat goes out, at t0 + 59 s nothing
      happens, and at t0 + 61 s the link is declared dead and reconnected,
      wherever t0 and that earlier heartbeat lie on the 32-bit clock. */
  lemma UnansweredHeartbeat(t0: U32, ping: U32)
    requires Elapsed((t0 + 31000) % Modulus, ping) > HalfTimeout
    ensures var start := Timers(t0, ping);
            var run := [Observation((t0 + 31000) % Modulus, true, true),
                        Observation((t0 + 59000) % Modulus, true, true),
                        Observation((t0 + 61000) % Modulus, true, true)];
            BranchAt(start, run, 0) == SendPing
            && BranchAt(start, run, 1) == Live
            && BranchAt(start, run, 2) == Dead
  {
    var start := Timers(t0, ping);
    var run := [Observation((t0 + 31000) % Modulus, true, true),
                Observation((t0 + 59000) % Modulus, true, true),
                Observation((t0 + 61000) % Modulus, true, true)];
    var tr := Trace(start, run);
    assert Elapsed(run[0].now, t0) == 31000;
    assert tr[1] == Timers(t0, run[0].now);
    assert Elapsed(run[1].now, t0) == 59000;
    assert Elapsed(run[1].now, run[0].now) == 28000;
    assert tr[2] == tr[1];
    assert Elapsed(run[2].now, t0) == 61000;
  }
}
