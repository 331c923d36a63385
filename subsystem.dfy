/** UNetworkTimeSubsystem: the object that owns the estimator's two fields
    and updates them in place when a synchronisation response arrives.

    The engine clock read at reception (GetWorld()->GetTimeSeconds()) is a
    parameter, the negative-RTT ensure is a returned flag, and the
    OnNetworkClockSynchronized broadcast is a returned payload that is also
    appended to a ghost log of everything broadcast so far.
 */
module Subsystem {
  import opened Estimator

  class NetworkTimeSubsystem {
    var serverWorldTimeDelta: real
    var shortestRoundTripTime: Duration

    // every sample received so far, in order of arrival
    ghost var received: seq<Sample>
    // every (old, new) pair broadcast so far
    ghost var broadcasts: seq<Notification>
    // the sample the current offset was computed from, if any
    ghost var lastAccepted: Option<Sample>

    /** The two real fields, as an estimator state. */
    function Snapshot(): State
      reads this
    {
      State(serverWorldTimeDelta, shortestRoundTripTime)
    }

    /** The object is the estimator run over everything it has received,
        and its offset comes from the last accepted sample (zero before). */
    ghost predicate Valid()
      reads this
    {
      Snapshot() == Run(Initial, received).state &&
      broadcasts == Run(Initial, received).notifications &&
      (lastAccepted.None? <==> broadcasts == []) &&
      (lastAccepted.None? ==> serverWorldTimeDelta == 0.0 && shortestRoundTripTime == Infinite) &&
      (lastAccepted.Some? ==> serverWorldTimeDelta == Theta(lastAccepted.value))
    }

    constructor ()
      ensures Valid()
      ensures Snapshot() == Initial
      ensures received == [] && broadcasts == [] && lastAccepted == None
    {
      serverWorldTimeDelta := 0.0;
      shortestRoundTripTime := Infinite;
      received := [];
      broadcasts := [];
      lastAccepted := None;
    }

    /** The estimated server time at local clock reading localTime: the
        server's stamp of the last accepted sample, plus half its round trip,
        plus the local time elapsed since that sample was received.  Before
        any sample is accepted it is the local time itself. */
    function GetServerWorldTime(localTime: real): (t: real)
      reads this
      requires Valid()
      ensures lastAccepted.None? ==> t == localTime
      ensures lastAccepted.Some? ==>
                t == lastAccepted.value.serverTime + RoundTripTime(lastAccepted.value) / 2.0
                     + (localTime - lastAccepted.value.clientReceiveTime)
    {
      localTime + serverWorldTimeDelta
    }

    /** Handles one response: client send time and server time as echoed
        by the server, clientReceiveTime the local clock at arrival. */
    method OnServerWorldTimeReceived(clientSendTime: real, serverTime: real, forceSync: bool, clientReceiveTime: real)
      returns (anomaly: bool, notification: Option<Notification>)
      requires Valid()
      modifies this
      ensures Valid()
      ensures var o := Step(old(Snapshot()), Sample(clientSendTime, serverTime, clientReceiveTime, forceSync));
              Snapshot() == o.state && anomaly == o.anomaly && notification == o.notification
      ensures received == old(received) + [Sample(clientSendTime, serverTime, clientReceiveTime, forceSync)]
      ensures broadcasts == old(broadcasts) + (if notification.Some? then [notification.value] else [])
      ensures lastAccepted ==
                if notification.Some? then Some(Sample(clientSendTime, serverTime, clientReceiveTime, forceSync))
                else old(lastAccepted)
      ensures notification.Some? ==>
                GetServerWorldTime(clientReceiveTime) == serverTime + (clientReceiveTime - clientSendTime) / 2.0
    {
      ghost var sample := Sample(clientSendTime, serverTime, clientReceiveTime, forceSync);
      var roundTripTime := clientReceiveTime - clientSendTime;
      anomaly := !(roundTripTime >= 0.0);
      notification := None;
      if roundTripTime >= 0.0 && (forceSync || Below(roundTripTime, shortestRoundTripTime)) {
        shortestRoundTripTime := Finite(Min(roundTripTime, shortestRoundTripTime));
        var oldDelta := serverWorldTimeDelta;
        serverWorldTimeDelta := serverTime - clientSendTime - roundTripTime / 2.0;
        notification := Some(Notification(oldDelta, serverWorldTimeDelta));
        broadcasts := broadcasts + [notification.value];
        lastAccepted := Some(sample);
      }
      RunAppend(Initial, received, [sample]);
      received := received + [sample];
    }
  }
}
