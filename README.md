# NetworkTimeSync clock-offset estimator, in Dafny

This project models the NTP-style clock synchronisation of the NetworkTimeSync
plugin: `UNetworkTimeSubsystem` keeps an offset `ServerWorldTimeDelta` (theta)
and the shortest round-trip time seen so far, `ShortestRoundTripTime`. When a
synchronisation response arrives, `OnServerWorldTimeReceived` measures the
round trip, reports a negative one as an anomaly, and accepts a sample with a
non-negative round trip only if it is forced or strictly beats the shortest
round trip. An accepted sample sets
the shortest round trip to the minimum of the two, sets theta to
`ServerTime - ClientSendTime - RTT/2`, and broadcasts the old and new offset.
`GetServerWorldTime` returns the local clock plus theta.

Two modules:

- `Estimator` (`estimator.dfy`) states the update on values. `Step` gives the
  effect of one sample. `Run` feeds a sequence of samples one at a time, in the
  order their responses arrive, which is how the sync component calls the
  subsystem. The lemmas prove what holds over any such sequence.
- `Subsystem` (`subsystem.dfy`) is the object itself. The class
  `NetworkTimeSubsystem` has the two fields, updated in place behind the same
  guard as the original. Ghost fields record every received sample, every
  broadcast and the last accepted sample. Its invariant `Valid` says the object
  is exactly `Run` of the estimator over everything it has received, so every
  `Run` lemma applies to it.

Modelling choices:

- Timestamps are `real`, so arithmetic is exact.
- The header with the fields' initial values is not part of this model. The
  model starts with theta = 0 and the shortest round trip unset. The unset
  value is the `Infinite` case of `Duration`, and every real is below it.
- The receive time, which the original reads from the engine clock, is a
  parameter.
- The `ensureAlwaysMsgf` on a negative round trip does not stop execution. It
  is modelled as a returned flag.
- The broadcast is a returned `(old, new)` pair, also appended to a ghost log.
- A forced sample does not reset the shortest round trip:
  NetworkTimeSubsystem.cpp:71 takes `FMath::Min`, so a forced sample can only
  lower it.

## Model

| member | source | states |
|---|---|---|
| `Estimator.Min` | Source/NetworkTimeSync/Private/NetworkTimeSubsystem.cpp:71 | The result is no larger than the round trip or the previous shortest, and equals one of them. The unset sentinel acts as the largest value. |
| `Estimator.Theta` | Source/NetworkTimeSync/Private/NetworkTimeSubsystem.cpp:76 | The offset formula equals the RFC 5905 section 8 offset ((T2-T1)+(T3-T4))/2 with T2 = T3 = server time. It also equals server time minus the midpoint of send and receive. |
| `Estimator.Step` | Source/NetworkTimeSync/Private/NetworkTimeSubsystem.cpp:63-88 | The anomaly is flagged exactly when receive < send. A broadcast happens exactly when RTT >= 0 and (forced or RTT < shortest). A rejected sample leaves the state unchanged. An accepted one, forced or not, sets the shortest to min(RTT, old shortest) and broadcasts (old offset, new offset). At the receive time it puts the estimated server time at server time + RTT/2. The new shortest is at most the sample's RTT, and exactly that RTT when the sample was not forced. The shortest never grows. |
| `Estimator.RunShortestNeverIncreases` | Source/NetworkTimeSync/Private/NetworkTimeSubsystem.cpp:69-71 | Over any sequence of samples, forced ones included, the shortest round trip ends no larger than it started. |
| `Estimator.ShortestMonotoneAlongRun` | Source/NetworkTimeSync/Private/NetworkTimeSubsystem.cpp:69-71 | Along any run, the shortest round trip after a longer prefix is at most the one after a shorter prefix. |
| `Estimator.RunShortestIsMinimum` | Source/NetworkTimeSync/Private/NetworkTimeSubsystem.cpp:69-71 | After any run, the shortest round trip is the minimum of its start value and every non-negative sample RTT. It is at most each of them and equal to one of them. |
| `Estimator.RunAnomaliesCountNegative` | Source/NetworkTimeSync/Private/NetworkTimeSubsystem.cpp:66-67 | Over a run, the anomaly is reported exactly once per sample received before it was sent. |
| `Estimator.RunNotificationsChain` | Source/NetworkTimeSync/Private/NetworkTimeSubsystem.cpp:75-86 | A run broadcasts at most once per sample. Without broadcasts the offset is unchanged. The first broadcast starts from the initial offset. Each broadcast starts where the previous one ended. The last one ends at the final offset. |
| `Estimator.StepIdempotent` | Source/NetworkTimeSync/Private/NetworkTimeSubsystem.cpp:69-76 | Feeding the same sample twice leaves the same state as feeding it once. A non-forced sample fed again is not broadcast. |
| `Estimator.RejectedRepeatedIsNoOp` | Source/NetworkTimeSync/Private/NetworkTimeSubsystem.cpp:69 | A non-forced sample that does not beat the shortest round trip changes nothing and broadcasts nothing, however often it arrives. |
| `Estimator.ScenarioRun` | Source/NetworkTimeSync/Private/NetworkTimeSubsystem.cpp:63-88 | A concrete sequence of four samples: an improving sample (offset 4.8), a slower one that is ignored, a forced slower one that is taken (offset 4.7, shortest stays 0.4), and one received before it was sent (one anomaly). |
| `Subsystem.NetworkTimeSubsystem.GetServerWorldTime` | Source/NetworkTimeSync/Private/NetworkTimeSubsystem.cpp:46-49 | The estimate is the last accepted sample's server stamp, plus half its RTT, plus the local time elapsed since it was received. Before any acceptance it is the local time. |
| `Subsystem.NetworkTimeSubsystem.OnServerWorldTimeReceived` | Source/NetworkTimeSync/Private/NetworkTimeSubsystem.cpp:63-88 | The in-place update leaves the fields, the anomaly flag and the broadcast equal to `Step` of the old fields. It keeps `Valid`, appends the sample to the received history and the broadcast to the broadcast log, and on acceptance records the sample as the last accepted. |

## Left out

- `UNetworkTimeSubsystem::Get` (NetworkTimeSubsystem.cpp:29-44): engine world and game-instance lookup, with no logic of its own.
- `Initialize` and `GetTimeSinceSubsystemStart` (NetworkTimeSubsystem.cpp:51-61): wall-clock reads with one subtraction.
- The `UE_LOGFMT` log line (NetworkTimeSubsystem.cpp:78-84). The delegate machinery behind `OnNetworkClockSynchronized` is replaced by the returned pair and the ghost log.
- All of NetworkTimeSyncComponent.cpp: the RPC transport, the reliable/unreliable routing, the timer scheduling with its 1-second interval floor, net-mode checks and settings lookup. Its only role for this model is to feed every arriving response into the subsystem, which `Run` captures.
- Single-precision float rounding. Timestamps and durations are exact reals.
- Request/response correlation: the code has none; every arriving response is fed straight in (NetworkTimeSyncComponent.cpp:115-128).
