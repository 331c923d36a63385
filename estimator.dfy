/** The clock-offset estimator of UNetworkTimeSubsystem, stated on values.

    One round-trip sample (client send time, server time, client receive
    time, force flag) either updates the offset theta and the shortest
    round-trip time seen so far, or leaves both alone.  Timestamps are exact
    reals; the single-precision rounding of the original is not modelled.
 */
module Estimator {

  datatype Option<T> = None | Some(value: T)

  /** A duration that may still be the "not measured yet" sentinel, which
      behaves as +infinity: every real is below it. */
  datatype Duration = Infinite | Finite(seconds: real)

  /** x < d, with Infinite above every real */
  predicate Below(x: real, d: Duration) {
    match d
    case Infinite => true
    case Finite(y) => x < y
  }

  /** a <= b on durations, with Infinite the top element */
  predicate AtMost(a: Duration, b: Duration) {
    match (a, b)
    case (_, Infinite) => true
    case (Infinite, Finite(_)) => false
    case (Finite(x), Finite(y)) => x <= y
  }

  /** FMath::Min(x, d) where the sentinel stands for the largest float */
  function Min(x: real, d: Duration): (m: real)
    ensures m <= x && AtMost(Finite(m), d)
    ensures m == x || d == Finite(m)
  {
    match d
    case Infinite => x
    case Finite(y) => if x <= y then x else y
  }

  /** One completed round trip, as handed to OnServerWorldTimeReceived. */
  datatype Sample = Sample(clientSendTime: real, serverTime: real, clientReceiveTime: real, forceSync: bool)

  /** The two fields the estimator owns: ServerWorldTimeDelta and ShortestRoundTripTime. */
  datatype State = State(delta: real, shortest: Duration)

  /** The payload of OnNetworkClockSynchronized: offset before and after the update. */
  datatype Notification = Notification(oldDelta: real, newDelta: real)

  /** What one sample does: the next state, whether the negative-RTT anomaly
      was reported, and the broadcast, if any. */
  datatype Outcome = Outcome(state: State, anomaly: bool, notification: Option<Notification>)

  /** Offset zero, no round trip measured yet. */
  const Initial := State(0.0, Infinite)

  function RoundTripTime(s: Sample): real {
    s.clientReceiveTime - s.clientSendTime
  }

  /** The server time a client estimates from its local clock reading. */
  function ServerWorldTime(st: State, localTime: real): real {
    localTime + st.delta
  }

  /** The offset computed from one sample under the symmetric-path assumption.
      It is the clock offset of section 8 of RFC 5905 (NTPv4),
      theta = ((T2 - T1) + (T3 - T4)) / 2, with T1 the client send time,
      T2 = T3 the single server timestamp and T4 the client receive time. */
  function Theta(s: Sample): (theta: real)
    ensures theta == ((s.serverTime - s.clientSendTime) + (s.serverTime - s.clientReceiveTime)) / 2.0
    ensures theta == s.serverTime - (s.clientSendTime + s.clientReceiveTime) / 2.0
  {
    s.serverTime - s.clientSendTime - RoundTripTime(s) / 2.0
  }

  /** The acceptance guard: a causal sample that is forced or strictly
      improves the shortest round trip. */
  predicate Accepts(st: State, s: Sample) {
    RoundTripTime(s) >= 0.0 && (s.forceSync || Below(RoundTripTime(s), st.shortest))
  }

  /** The effect of OnServerWorldTimeReceived on the estimator's state. */
  function Step(st: State, s: Sample): (r: Outcome)
    // the anomaly is reported exactly for samples received before they were sent
    ensures r.anomaly <==> s.clientReceiveTime < s.clientSendTime
    // a broadcast happens exactly for accepted samples
    ensures r.notification.Some? <==>
              s.clientSendTime <= s.clientReceiveTime &&
              (s.forceSync || Below(s.clientReceiveTime - s.clientSendTime, st.shortest))
    // a rejected sample, anomalous or not, changes nothing
    ensures r.notification.None? ==> r.state == st
    // an accepted sample announces the old and the new offset ...
    ensures r.notification.Some? ==> r.notification.value == Notification(st.delta, r.state.delta)
    // ... and the new offset puts the estimated server time, at the moment of
    // reception, at the server's stamp plus half the round trip
    ensures r.notification.Some? ==>
              ServerWorldTime(r.state, s.clientReceiveTime) == s.serverTime + RoundTripTime(s) / 2.0
    // an accepted sample, forced or not, leaves the minimum of its round trip and the old shortest
    ensures r.notification.Some? ==> r.state.shortest == Finite(Min(RoundTripTime(s), st.shortest))
    // an accepted sample's round trip bounds the new shortest from above
    ensures r.notification.Some? ==> AtMost(r.state.shortest, Finite(RoundTripTime(s)))
    // a non-forced sample is accepted only as a strict improvement, so it becomes the shortest
    ensures r.notification.Some? && !s.forceSync ==> r.state.shortest == Finite(RoundTripTime(s))
    // the shortest round trip never grows, forced samples included
    ensures AtMost(r.state.shortest, st.shortest)
  {
    var rtt := RoundTripTime(s);
    var anomaly := !(rtt >= 0.0);
    if Accepts(st, s) then
      var next := State(Theta(s), Finite(Min(rtt, st.shortest)));
      Outcome(next, anomaly, Some(Notification(st.delta, next.delta)))
    else
      Outcome(st, anomaly, None)
  }

  /** A sequence of samples fed one at a time, in the order their responses arrive. */
  datatype Trace = Trace(state: State, notifications: seq<Notification>, anomalies: nat)

  function Broadcasts(o: Outcome): seq<Notification> {
    match o.notification
    case None => []
    case Some(n) => [n]
  }

  function Run(st: State, ss: seq<Sample>): Trace
    decreases ss
  {
    if ss == [] then Trace(st, [], 0)
    else
      var o := Step(st, ss[0]);
      var t := Run(o.state, ss[1..]);
      Trace(t.state, Broadcasts(o) + t.notifications, (if o.anomaly then 1 else 0) + t.anomalies)
  }

  /** Samples whose receive time precedes their send time. */
  function CountNegative(ss: seq<Sample>): nat {
    if ss == [] then 0
    else (if ss[|ss| - 1].clientReceiveTime < ss[|ss| - 1].clientSendTime then 1 else 0) + CountNegative(ss[..|ss| - 1])
  }

  /** Feeding a + b is feeding a, then b from the state a left. */
  lemma {:induction false} RunAppend(st: State, a: seq<Sample>, b: seq<Sample>)
    ensures Run(st, a + b).state == Run(Run(st, a).state, b).state
    ensures Run(st, a + b).notifications == Run(st, a).notifications + Run(Run(st, a).state, b).notifications
    ensures Run(st, a + b).anomalies == Run(st, a).anomalies + Run(Run(st, a).state, b).anomalies
    decreases a
  {
    if a == [] {
      assert a + b == b;
    } else {
      assert (a + b)[0] == a[0];
      assert (a + b)[1..] == a[1..] + b;
      RunAppend(Step(st, a[0]).state, a[1..], b);
    }
  }

  /** ShortestRoundTripTime never increases across any sequence of samples. */
  lemma {:induction false} RunShortestNeverIncreases(st: State, ss: seq<Sample>)
    ensures AtMost(Run(st, ss).state.shortest, st.shortest)
    decreases ss
  {
    if ss != [] {
      var o := Step(st, ss[0]);
      RunShortestNeverIncreases(o.state, ss[1..]);
      AtMostTransitive(Run(o.state, ss[1..]).state.shortest, o.state.shortest, st.shortest);
    }
  }

  lemma AtMostTransitive(a: Duration, b: Duration, c: Duration)
    requires AtMost(a, b) && AtMost(b, c)
    ensures AtMost(a, c)
  {
  }

  /** Later in a run, the shortest round trip is never longer than earlier. */
  lemma {:induction false} ShortestMonotoneAlongRun(st: State, ss: seq<Sample>, i: nat, j: nat)
    requires i <= j <= |ss|
    ensures AtMost(Run(st, ss[..j]).state.shortest, Run(st, ss[..i]).state.shortest)
  {
    assert ss[..j] == ss[..i] + ss[i..j];
    RunAppend(st, ss[..i], ss[i..j]);
    RunShortestNeverIncreases(Run(st, ss[..i]).state, ss[i..j]);
  }

  /** After any run, ShortestRoundTripTime is the minimum of its starting
      value and the round trips of all causal samples: it is below each of
      them and equal to one of them. */
  lemma {:induction false} RunShortestIsMinimum(st: State, ss: seq<Sample>)
    ensures AtMost(Run(st, ss).state.shortest, st.shortest)
    ensures forall i :: 0 <= i < |ss| && RoundTripTime(ss[i]) >= 0.0 ==>
              AtMost(Run(st, ss).state.shortest, Finite(RoundTripTime(ss[i])))
    ensures Run(st, ss).state.shortest == st.shortest ||
            exists i :: 0 <= i < |ss| && RoundTripTime(ss[i]) >= 0.0 &&
                        Run(st, ss).state.shortest == Finite(RoundTripTime(ss[i]))
    decreases ss
  {
    if ss != [] {
      var o := Step(st, ss[0]);
      var fin := Run(st, ss).state.shortest;
      RunShortestIsMinimum(o.state, ss[1..]);
      assert fin == Run(o.state, ss[1..]).state.shortest;
      AtMostTransitive(fin, o.state.shortest, st.shortest);
      // the first sample: causal ones leave the shortest at or below their round trip
      if RoundTripTime(ss[0]) >= 0.0 {
        assert AtMost(o.state.shortest, Finite(RoundTripTime(ss[0])));
        AtMostTransitive(fin, o.state.shortest, Finite(RoundTripTime(ss[0])));
      }
      forall i | 0 <= i < |ss| && RoundTripTime(ss[i]) >= 0.0
        ensures AtMost(fin, Finite(RoundTripTime(ss[i])))
      {
        if i > 0 {
          assert ss[i] == ss[1..][i - 1];
        }
      }
      // the final value is the start value or one of the samples' round trips
      if fin == o.state.shortest {
        if o.notification.Some? && fin != st.shortest {
          assert fin == Finite(Min(RoundTripTime(ss[0]), st.shortest));
          assert fin == Finite(RoundTripTime(ss[0]));
        }
      } else {
        var k :| 0 <= k < |ss[1..]| && RoundTripTime(ss[1..][k]) >= 0.0 && fin == Finite(RoundTripTime(ss[1..][k]));
        assert ss[1..][k] == ss[k + 1];
      }
    }
  }

  /** The anomaly is reported exactly once per sample with a negative round trip. */
  lemma {:induction false} RunAnomaliesCountNegative(st: State, ss: seq<Sample>)
    ensures Run(st, ss).anomalies == CountNegative(ss)
  {
    if ss != [] {
      var n := |ss| - 1;
      assert ss == ss[..n] + [ss[n]];
      RunAppend(st, ss[..n], [ss[n]]);
      RunAnomaliesCountNegative(st, ss[..n]);
    }
  }

  /** The broadcasts of a run chain together: the first starts from the
      initial offset, each starts where the previous one ended, and the last
      ends at the final offset.  A run without broadcasts keeps the offset. */
  lemma {:induction false} RunNotificationsChain(st: State, ss: seq<Sample>)
    ensures |Run(st, ss).notifications| <= |ss|
    ensures Run(st, ss).notifications == [] ==> Run(st, ss).state.delta == st.delta
    ensures Run(st, ss).notifications != [] ==>
              Run(st, ss).notifications[0].oldDelta == st.delta &&
              Run(st, ss).notifications[|Run(st, ss).notifications| - 1].newDelta == Run(st, ss).state.delta
    ensures forall i :: 0 <= i < |Run(st, ss).notifications| - 1 ==>
              Run(st, ss).notifications[i].newDelta == Run(st, ss).notifications[i + 1].oldDelta
    decreases ss
  {
    if ss != [] {
      var o := Step(st, ss[0]);
      var rest := Run(o.state, ss[1..]);
      RunNotificationsChain(o.state, ss[1..]);
      var log := Run(st, ss).notifications;
      assert log == Broadcasts(o) + rest.notifications;
      if o.notification.Some? {
        forall i | 0 <= i < |log| - 1
          ensures log[i].newDelta == log[i + 1].oldDelta
        {
          if i > 0 {
            assert log[i] == rest.notifications[i - 1];
          }
        }
      } else {
        assert log == rest.notifications;
      }
    }
  }

  /** Feeding the same sample a second time changes nothing more, and a
      non-forced sample fed again is not even broadcast. */
  lemma StepIdempotent(st: State, s: Sample)
    ensures Step(Step(st, s).state, s).state == Step(st, s).state
    ensures !s.forceSync ==> Step(Step(st, s).state, s).notification == None
  {
  }

  /** A non-forced sample that does not beat the shortest round trip is a
      no-op, however many times it arrives. */
  lemma {:induction false} RejectedRepeatedIsNoOp(st: State, s: Sample, n: nat)
    requires !s.forceSync && !Below(RoundTripTime(s), st.shortest)
    ensures Run(st, seq(n, _ => s)) == Trace(st, [], CountNegative(seq(n, _ => s)))
  {
    if n > 0 {
      var ss := seq(n, _ => s);
      assert ss == seq(n - 1, _ => s) + [s];
      RunAppend(st, seq(n - 1, _ => s), [s]);
      RejectedRepeatedIsNoOp(st, s, n - 1);
      assert ss[..n - 1] == seq(n - 1, _ => s);
    }
  }

  /** A worked sequence: an improving sample, a slower one that is ignored,
      a forced slower one that is taken, and one received before it was sent. */
  lemma ScenarioRun()
    ensures
      var t := Run(Initial, [Sample(10.0, 15.0, 10.4, false), Sample(20.0, 25.3, 20.6, false),
                             Sample(30.0, 35.0, 30.6, true), Sample(40.0, 44.0, 39.9, false)]);
      t.state == State(4.7, Finite(0.4)) &&
      t.notifications == [Notification(0.0, 4.8), Notification(4.8, 4.7)] &&
      t.anomalies == 1
  {
  }
}
