# A verified model of the real-time call relay

The relay is the signalling side of a video-call service.
- Two browsers that share a reservation join the same call session over a WebSocket.
- The relay passes their WebRTC offer, answer and ICE candidates to each other.
- It keeps a record of each call's lifecycle and quality.

This Dafny project models the relay's core and proves what it promises. It has one module per Java component:

- `Common`: the Java values and string operations the components share: null-able text, `trim`, `isBlank`, `split`, and exceptions as `Fault`s.
- `Authorization`: reading the user id and roles out of a bearer token or an `access_token` cookie.
  - A JWT is decoded without checking its signature.
  - The subject and expiry claims are checked in the sense of RFC 7519, sections 4.1.2 and 4.1.4.
  - The `Bearer` scheme is optional, in the sense of RFC 6750, section 2.1.
- `Eligibility`: the reservation check a JOIN goes through.
  - The request carries the caller's token.
  - The verdict is read from the reservations service's reply. An error status refuses with the status and the body; any other failure is an exception.
- `Domain`: the call-session record with its metrics, as a mutable object over a value.
- `CallSessions`: the session store and the lifecycle service.
  - `create` is idempotent per reservation.
  - `markConnected` sets the connection time once but records a success sample on every call.
  - `end` saves ENDED and lowers the concurrent-call counter.
- `QualityMetrics`: three time-stamped FIFO windows over the last five minutes: setup times, successes and failures.
  - Percentiles use the nearest-rank rule.
  - The success rate is successes over all outcomes.
- `RateLimiter`: the per-connection limit of messages per second.
- `SessionRegistry`: rooms, keyed by call session id, from user id to live connection.
- `PubSub`: the bridge to the distributed backend. Every publish also delivers to local subscribers, and a backend failure turns the bridge local-only for good.
- `Cleanup`: the periodic sweep that ends calls older than the configured maximum.
- `Controller`: the REST side: creating a session, ending one, listing ICE servers from comma-separated STUN and TURN settings, and the metrics snapshot.
- `Signalling`: the WebSocket handler.
  - Rate limit, parse, trace id and switch on the envelope type.
  - JOIN runs its checks, the reservation check, find-or-create, the room cap of two, registration, the JOIN_ACK with its initiator flag, and PEER_JOINED.
  - Relaying, RTC_CONNECTED, LEAVE and END.
  - The exception handler closes with 1011 and a refusal with 1003; both codes come from section 7.4.1 of RFC 6455.
  - The close handler.
- `SignallingProperties`: what the handler promises across messages.
  - A room never holds more than two users.
  - A relayed message reaches each open member once per subscription from the publish's own local fanout. When the backend echoes it back to this process's listener, it arrives twice per subscription.
  - Envelope checks run in order.
  - Errors are reported, and nothing else moves on refusals and failed saves.

How the Java code is represented:
- Objects the Java code updates in place are Dafny classes with `modifies` clauses:
  - the limiter, the registry, the bridge, the repository and the services, the metrics queues, the session record, the handler and the WebSocket container.
- Each method is proved against a function of the old state, and the properties are lemmas about those functions.
- The outside world is a parameter:
  - clocks (one reading per event);
  - JSON parsing;
  - fresh ULIDs;
  - the answers of the document store, of the reservations service and of the backend.

## Model

| member | source | states |
|---|---|---|
| Common.TrimStart | src/main/java/edu/eci/arsw/calls/security/AuthorizationService.java:30-32 | what is removed is a prefix of characters up to U+0020, and what is left does not start with one |
| Common.TrimEnd | src/main/java/edu/eci/arsw/calls/security/AuthorizationService.java:30-32 | what is removed is a suffix of characters up to U+0020, and what is left does not end with one |
| Common.Trim | src/main/java/edu/eci/arsw/calls/security/AuthorizationService.java:30-32 | `trim` keeps the infix left after removing only characters up to U+0020 at both ends, and that infix neither starts nor ends with one |
| Common.InfixOfSuffix | src/main/java/edu/eci/arsw/calls/security/AuthorizationService.java:30 | a prefix of a suffix, followed only by trimmable characters, is an infix with only trimmable characters after it |
| Common.ContainsAt | src/main/java/edu/eci/arsw/calls/service/EligibilityService.java:64-89 | a string containing `sub` at some position satisfies `contains(sub)` |
| Common.ToLowerAscii | src/main/java/edu/eci/arsw/calls/security/AuthorizationService.java:31 | each character is lower-cased on its own and the length is kept; `SchemeIsOptional` relies on it to accept the scheme in any case |
| Common.TrimUntrimmable | src/main/java/edu/eci/arsw/calls/security/AuthorizationService.java:30 | trimming a string with no trimmable character at either end changes nothing |
| Common.ToUpperAscii | src/main/java/edu/eci/arsw/calls/service/EligibilityService.java:71 | each character is upper-cased on its own and the length is kept; `VerdictExact` relies on it to accept the status in any case |
| Common.SplitOn | src/main/java/edu/eci/arsw/calls/security/AuthorizationService.java:68 | splitting always yields at least one piece |
| Common.DropTrailingEmpty | src/main/java/edu/eci/arsw/calls/security/AuthorizationService.java:68 | `split` drops exactly the trailing empty pieces and keeps the rest in order |
| Common.SkipRegexSpace | src/main/java/edu/eci/arsw/calls/service/EligibilityService.java:56 | `\s+` after the scheme consumes exactly the leading regular-expression spaces |
| Common.DropRegexSpace | src/main/java/edu/eci/arsw/calls/api/CallController.java:59 | the trailing regular-expression spaces are dropped and nothing else |
| Common.SplitOnWithout | src/main/java/edu/eci/arsw/calls/security/AuthorizationService.java:68 | a string without the separator splits to itself |
| Common.SplitOnFirst | src/main/java/edu/eci/arsw/calls/security/AuthorizationService.java:68 | a leading piece without the separator splits off first |
| Common.DropKeepsFront | src/main/java/edu/eci/arsw/calls/security/AuthorizationService.java:68 | dropping trailing empty pieces never reaches past a non-empty one |
| Common.SkipSpacesBefore | src/main/java/edu/eci/arsw/calls/service/EligibilityService.java:56 | skipping spaces in front of a token gives back the token |
| Common.DropSpacesAfter | src/main/java/edu/eci/arsw/calls/api/CallController.java:59 | dropping spaces behind a token gives back the token |
| RateLimiter.Run | src/main/java/edu/eci/arsw/calls/ws/SimpleRateLimiter.java:29-35 | a run of calls answers once per call |
| RateLimiter.SameSecond | src/main/java/edu/eci/arsw/calls/ws/SimpleRateLimiter.java:29-35 | within one second the i-th call is accepted exactly when the count already in that second plus i + 1 is within the limit; the window ends on that second holding every call |
| RateLimiter.FreshSecondAcceptsExactlyLimit | src/main/java/edu/eci/arsw/calls/ws/SimpleRateLimiter.java:29-35 | with limit n, in a second not yet seen, calls 1..n are accepted and every later one is rejected |
| RateLimiter.ZeroLimitRejectsAll | src/main/java/edu/eci/arsw/calls/ws/SimpleRateLimiter.java:35 | a limit of 0 or less rejects every call at any second, since a counted call makes the count at least 1 |
| RateLimiter.AcceptsAgainAfterRollover | src/main/java/edu/eci/arsw/calls/ws/SimpleRateLimiter.java:31-35 | after any number of calls in one second, the first call of a different second is accepted when the limit is at least 1 |
| RateLimiter.RunAppend | src/main/java/edu/eci/arsw/calls/ws/SimpleRateLimiter.java:29-35 | one more call continues from the state the earlier calls reached |
| RateLimiter.SimpleRateLimiter.constructor | src/main/java/edu/eci/arsw/calls/ws/SimpleRateLimiter.java:11-22 | the limit is the argument (a `const`, so it never changes); the window is the current second with nothing counted |
| RateLimiter.SimpleRateLimiter.TryAcquire | src/main/java/edu/eci/arsw/calls/ws/SimpleRateLimiter.java:29-35 | a different second restarts the window at that second with count 0; every call is counted, rejected ones included; the answer is exactly `counter' <= limitPerSecond`; the state follows `Acquire` |
| SessionRegistry.GetAfterRegister | src/main/java/edu/eci/arsw/calls/ws/SessionRegistry.java:23-47 | after `register(s, u, ws)`, `get(s)` maps `u` to `ws` and every other member keeps its handle |
| SessionRegistry.LastWriterWins | src/main/java/edu/eci/arsw/calls/ws/SessionRegistry.java:24 | registering the same user twice leaves the registry as the last registration alone would |
| SessionRegistry.RegisterRoomSize | src/main/java/edu/eci/arsw/calls/ws/SessionRegistry.java:24 | the room grows by one exactly when the user was absent and keeps its size otherwise |
| SessionRegistry.OtherRoomsUnchanged | src/main/java/edu/eci/arsw/calls/ws/SessionRegistry.java:24-37 | `register` and `unregister` on room `s` leave every other room, and its presence, unchanged |
| SessionRegistry.UnregisterAbsentIsNoop | src/main/java/edu/eci/arsw/calls/ws/SessionRegistry.java:33-37 | `unregister` on an unknown room or an absent user changes nothing |
| SessionRegistry.UnregisterKeepsRoom | src/main/java/edu/eci/arsw/calls/ws/SessionRegistry.java:34-36 | `unregister` removes only the user's entry; the room key stays, possibly empty, and the other members keep their handles |
| SessionRegistry.GetUnknownRoomIsEmpty | src/main/java/edu/eci/arsw/calls/ws/SessionRegistry.java:45-47 | `get` on an unknown room is the empty map |
| SessionRegistry.Registered | src/main/java/edu/eci/arsw/calls/ws/SessionRegistry.java:23-25 | `register` as a function of the rooms: `GetAfterRegister`, `LastWriterWins` and `RegisterRoomSize` state that the user now maps to the handle, a second register replaces the first, and the room grows by one only for a new user |
| SessionRegistry.Unregistered | src/main/java/edu/eci/arsw/calls/ws/SessionRegistry.java:33-37 | `unregister` as a function of the rooms: `UnregisterKeepsRoom` and `UnregisterAbsentIsNoop` state that only the user's entry goes, the room key stays, and an absent user or room leaves the rooms as they were |
| SessionRegistry.SessionRegistry.constructor | src/main/java/edu/eci/arsw/calls/ws/SessionRegistry.java:14 | the registry starts empty |
| SessionRegistry.SessionRegistry.Register | src/main/java/edu/eci/arsw/calls/ws/SessionRegistry.java:23-25 | the nested map becomes `Registered(old, s, u, ws)`: the room is created on first use and the user's handle replaced |
| SessionRegistry.SessionRegistry.Unregister | src/main/java/edu/eci/arsw/calls/ws/SessionRegistry.java:33-37 | the nested map becomes `Unregistered(old, s, u)`: the user's entry goes when the room exists |
| PubSub.InitInvariant | src/main/java/edu/eci/arsw/calls/pubsub/RedisPubSubBridge.java:32-47 | the initial bridge keeps the invariant and is healthy exactly when a listener container was given |
| PubSub.StepInvariant | src/main/java/edu/eci/arsw/calls/pubsub/RedisPubSubBridge.java:55-90 | subscribe, publish and the listener error handler keep the invariant: healthy only with a container, each channel's listener registered at most once, `redisSubscribed` is exactly the registered channels |
| PubSub.ApplyInvariant | src/main/java/edu/eci/arsw/calls/pubsub/RedisPubSubBridge.java:55-67 | every sequence of operations keeps the invariant, so a channel's backend listener is registered at most once |
| PubSub.HealthNeverRecovers | src/main/java/edu/eci/arsw/calls/pubsub/RedisPubSubBridge.java:41-83 | once `redisOk` is false, no sequence of operations makes it true |
| PubSub.SubscribeMany | src/main/java/edu/eci/arsw/calls/pubsub/RedisPubSubBridge.java:55-67 | N subscriptions to one channel append the N consumers in order whatever the backend does; they add at most one listener registration, none when the channel was already registered or the backend is unhealthy; they never send |
| PubSub.PublishAlwaysDeliversLocally | src/main/java/edu/eci/arsw/calls/pubsub/RedisPubSubBridge.java:76-90 | `publish` invokes exactly the channel's local subscribers in order, whatever the backend does; a send is tried only when healthy with a template, and a failed send makes the backend unhealthy without failing the publish |
| PubSub.LocalOnlyDelivery | src/main/java/edu/eci/arsw/calls/pubsub/RedisPubSubBridge.java:44-90 | without a container, every subscriber registered before a publish is invoked by it, and the backend is never called |
| PubSub.SubscribeStep | src/main/java/edu/eci/arsw/calls/pubsub/RedisPubSubBridge.java:55-68 | `subscribe` as a function of the bridge state: `SubscribeMany` and `StepInvariant` state that consumers are appended in order, a listener is registered at most once per channel and only while healthy, and a failed registration makes the backend unhealthy |
| PubSub.PublishStep | src/main/java/edu/eci/arsw/calls/pubsub/RedisPubSubBridge.java:76-90 | `publish` as a function of the bridge state: `PublishAlwaysDeliversLocally` states that the local subscribers are invoked in order whatever the backend does, and a failed send only makes the backend unhealthy |
| PubSub.ListenerErrorStep | src/main/java/edu/eci/arsw/calls/pubsub/RedisPubSubBridge.java:40-43 | the container's error handler: `StepInvariant` and `HealthNeverRecovers` state that it only marks the backend unhealthy, for good |
| PubSub.PubSubBridge.constructor | src/main/java/edu/eci/arsw/calls/pubsub/RedisPubSubBridge.java:35-47 | the fields are the initial state: no subscribers, healthy exactly when a container exists |
| PubSub.PubSubBridge.Subscribe | src/main/java/edu/eci/arsw/calls/pubsub/RedisPubSubBridge.java:55-68 | the new state is `SubscribeStep`: the consumer appended; the listener registered once per channel, only when healthy with a container; a failed registration makes the backend unhealthy and the channel stays in `redisSubscribed` |
| PubSub.PubSubBridge.Publish | src/main/java/edu/eci/arsw/calls/pubsub/RedisPubSubBridge.java:76-90 | the new state and the subscribers invoked are `PublishStep`; those that throw are reported and do not stop delivery |
| PubSub.PubSubBridge.FanoutLocal | src/main/java/edu/eci/arsw/calls/pubsub/RedisPubSubBridge.java:98-108 | every local subscriber of the channel is invoked once, in order, and none for an unknown channel; a throwing one is logged and delivery goes on |
| PubSub.PubSubBridge.OnListenerError | src/main/java/edu/eci/arsw/calls/pubsub/RedisPubSubBridge.java:40-43 | the container's error handler makes the backend unhealthy |
| PubSub.PubSubBridge.OnBackendMessage | src/main/java/edu/eci/arsw/calls/pubsub/RedisPubSubBridge.java:59-62 | a backend message fans out locally only on a channel whose listener registration succeeded |
| PubSub.ThrowingSnoc | src/main/java/edu/eci/arsw/calls/pubsub/RedisPubSubBridge.java:100-107 | the failures of a list plus one subscriber are the earlier failures plus that one if it throws |
| QualityMetrics.Evict | src/main/java/edu/eci/arsw/calls/service/QualityMetricsService.java:91-96 | one eviction loop never grows the queue |
| QualityMetrics.EvictDropsStalePrefix | src/main/java/edu/eci/arsw/calls/service/QualityMetricsService.java:18-97 | eviction removes only a prefix, every removed entry is older than `WINDOW_MS` (300000), and the head left, if any, is within the window |
| QualityMetrics.EvictKeepsLast | src/main/java/edu/eci/arsw/calls/service/QualityMetricsService.java:89-97 | an entry stamped within the window at the tail is never evicted |
| QualityMetrics.EvictInOrderKeepsWindow | src/main/java/edu/eci/arsw/calls/service/QualityMetricsService.java:89-97 | on a queue recorded in clock order, everything left after eviction is inside the window |
| QualityMetrics.CountFresh | src/main/java/edu/eci/arsw/calls/service/QualityMetricsService.java:80-81 | the in-window count is at most the queue's length |
| QualityMetrics.CountFreshAll | src/main/java/edu/eci/arsw/calls/service/QualityMetricsService.java:80-81 | when every entry is within the window the filter counts them all |
| QualityMetrics.Insert | src/main/java/edu/eci/arsw/calls/service/QualityMetricsService.java:76 | insertion into a sorted list gives a sorted list with the same elements plus the new one |
| QualityMetrics.HeadBelow | src/main/java/edu/eci/arsw/calls/service/QualityMetricsService.java:76 | the old head in front of an insertion into the tail keeps the list sorted |
| QualityMetrics.SortAsc | src/main/java/edu/eci/arsw/calls/service/QualityMetricsService.java:76 | the window of setup times is sorted and a permutation of the samples' setup times |
| QualityMetrics.PercentileIndex | src/main/java/edu/eci/arsw/calls/service/QualityMetricsService.java:111-112 | the clamped index is always a valid index |
| QualityMetrics.Percentile | src/main/java/edu/eci/arsw/calls/service/QualityMetricsService.java:108-114 | 0 on an empty list, otherwise an element of the list |
| QualityMetrics.PercentileRank | src/main/java/edu/eci/arsw/calls/service/QualityMetricsService.java:108-114 | for 0 < q <= 100 the result is the element at index `ceil(q*n/100) - 1`, the smallest index whose rank covers q% of the list |
| QualityMetrics.PercentileMonotone | src/main/java/edu/eci/arsw/calls/service/QualityMetricsService.java:77-114 | on a sorted list a higher percentage never gives a smaller percentile, so p95 <= p99 |
| QualityMetrics.SetupTimes | src/main/java/edu/eci/arsw/calls/service/QualityMetricsService.java:76 | the setup times are the samples' `setupMs`, one per sample, in order; `SnapshotPercentiles` states that its sorted values give the percentiles |
| QualityMetrics.SuccessRate | src/main/java/edu/eci/arsw/calls/service/QualityMetricsService.java:82 | 1 when both counts are 0, otherwise exactly s/(s+f): in [0,1], 1 with no failure, 0 with failures only, strictly between with both |
| QualityMetrics.HalfAfterOneOfEach | src/main/java/edu/eci/arsw/calls/service/QualityMetricsService.java:82 | one success and one failure give 0.5 |
| QualityMetrics.SnapshotPercentiles | src/main/java/edu/eci/arsw/calls/service/QualityMetricsService.java:74-84 | after eviction, `samples` is the size of the remaining window; an empty window reports 0 for both percentiles; otherwise p95 and p99 are members of the window with min <= p95 <= p99 <= max |
| QualityMetrics.SnapshotRateOfQueues | src/main/java/edu/eci/arsw/calls/service/QualityMetricsService.java:75-97 | with in-order timestamps the rate is the ratio of the evicted queues' sizes |
| QualityMetrics.Evicted | src/main/java/edu/eci/arsw/calls/service/QualityMetricsService.java:89-97 | `evictOld` on all three queues: `EvictInOrderKeepsWindow` and `SnapshotRateOfQueues` state that on queues in clock order what is left lies inside the five-minute window |
| QualityMetrics.SuccessRecorded | src/main/java/edu/eci/arsw/calls/service/QualityMetricsService.java:52-58 | `recordSuccess`: `RecordKeepsNewest` and `HalfAfterOneOfEach` state that the new sample and success are the newest entries after eviction, and that one success with one failure gives a rate of one half |
| QualityMetrics.FailureRecorded | src/main/java/edu/eci/arsw/calls/service/QualityMetricsService.java:63-67 | `recordFailure`: `RecordKeepsNewest` states that the failure is the newest failure after eviction and no sample is added |
| QualityMetrics.SnapshotOf | src/main/java/edu/eci/arsw/calls/service/QualityMetricsService.java:74-84 | `snapshot` after eviction: `SnapshotPercentiles` and `SnapshotRateOfQueues` state that p95 and p99 are window members with min <= p95 <= p99 <= max (0 on an empty window) and the rate is successes over outcomes, 1.0 with none |
| QualityMetrics.RecordKeepsNewest | src/main/java/edu/eci/arsw/calls/service/QualityMetricsService.java:52-67 | a success just recorded is the last sample and the last success after eviction, and the sample queue grows by at most one; a failure is the last failure and adds no sample |
| QualityMetrics.MinOf | src/main/java/edu/eci/arsw/calls/service/QualityMetricsService.java:76 | the minimum is an element at or below every element |
| QualityMetrics.MaxOf | src/main/java/edu/eci/arsw/calls/service/QualityMetricsService.java:76 | the maximum is an element at or above every element |
| QualityMetrics.MinMaxOfSorted | src/main/java/edu/eci/arsw/calls/service/QualityMetricsService.java:76-78 | every percentile of the sorted window lies between the minimum and the maximum of the samples |
| QualityMetrics.SingleSample | src/main/java/edu/eci/arsw/calls/service/QualityMetricsService.java:76-114 | a single sample is both p95 and p99 |
| QualityMetrics.ThreeSamples | src/main/java/edu/eci/arsw/calls/service/QualityMetricsService.java:108-114 | samples 100, 200, 300 give 300 for both percentiles |
| QualityMetrics.QualityMetricsService.constructor | src/main/java/edu/eci/arsw/calls/service/QualityMetricsService.java:24-26 | the three queues start empty |
| QualityMetrics.QualityMetricsService.RecordSuccess | src/main/java/edu/eci/arsw/calls/service/QualityMetricsService.java:52-58 | one `(now, setupMs)` sample and one `now` success are appended, then the queues are evicted |
| QualityMetrics.QualityMetricsService.RecordFailure | src/main/java/edu/eci/arsw/calls/service/QualityMetricsService.java:63-67 | one `now` failure is appended, then the queues are evicted; no sample is added |
| QualityMetrics.QualityMetricsService.EvictOld | src/main/java/edu/eci/arsw/calls/service/QualityMetricsService.java:89-97 | each queue loses exactly its stale head prefix |
| QualityMetrics.QualityMetricsService.Snapshot | src/main/java/edu/eci/arsw/calls/service/QualityMetricsService.java:74-84 | the queues are evicted first, and the snapshot is computed from what is left |
| Domain.CreatedIsPending | src/main/java/edu/eci/arsw/calls/domain/CallSession.java:24-46 | a fresh session has the given id, reservation and ttl, status CREATED, `createdAt` = now, no `connectedAt`/`endedAt`, `turnUsed` false, no participants and zero setup and total duration |
| Domain.CallSession.FromData | src/main/java/edu/eci/arsw/calls/domain/CallSession.java:15-36 | an object holding exactly the given document |
| Domain.CallSession.Create | src/main/java/edu/eci/arsw/calls/domain/CallSession.java:38-46 | a new object whose document is `Created(sessionId, reservationId, ttl, now)` |
| Domain.CallSession.SetSessionId | src/main/java/edu/eci/arsw/calls/domain/CallSession.java:57-59 | only `sessionId` changes, to the argument |
| Domain.CallSession.SetReservationId | src/main/java/edu/eci/arsw/calls/domain/CallSession.java:65-67 | only `reservationId` changes |
| Domain.CallSession.SetParticipants | src/main/java/edu/eci/arsw/calls/domain/CallSession.java:73-75 | only `participants` changes |
| Domain.CallSession.SetStatus | src/main/java/edu/eci/arsw/calls/domain/CallSession.java:81-83 | only `status` changes; any string is accepted |
| Domain.CallSession.SetCreatedAt | src/main/java/edu/eci/arsw/calls/domain/CallSession.java:89-91 | only `createdAt` changes |
| Domain.CallSession.SetConnectedAt | src/main/java/edu/eci/arsw/calls/domain/CallSession.java:97-99 | only `connectedAt` changes; null is allowed |
| Domain.CallSession.SetEndedAt | src/main/java/edu/eci/arsw/calls/domain/CallSession.java:105-107 | only `endedAt` changes; null is allowed |
| Domain.CallSession.SetTurnUsed | src/main/java/edu/eci/arsw/calls/domain/CallSession.java:113-115 | only `turnUsed` changes |
| Domain.CallSession.SetSetupMs | src/main/java/edu/eci/arsw/calls/domain/Metrics.java:11 | only the metrics' `setupMs` changes |
| Domain.CallSession.SetTotalDurationMs | src/main/java/edu/eci/arsw/calls/domain/Metrics.java:13 | only the metrics' `totalDurationMs` changes |
| Domain.CallSession.SetMetrics | src/main/java/edu/eci/arsw/calls/domain/CallSession.java:121-123 | only the two metric values change, to the given ones |
| Domain.CallSession.SetTtl | src/main/java/edu/eci/arsw/calls/domain/CallSession.java:129-131 | only `ttl` changes |
| CallSessions.FindIn | src/main/java/edu/eci/arsw/calls/domain/CallSessionRepository.java:11 | the key found holds a document of that reservation; no key found means no listed document has it |
| CallSessions.FindByReservationExact | src/main/java/edu/eci/arsw/calls/domain/CallSessionRepository.java:11 | the reservation lookup returns a document exactly when the store holds that document under its id with that reservation, which the unique index makes the only one |
| CallSessions.SaveResult | src/main/java/edu/eci/arsw/calls/domain/CallSession.java:19-22 | a save of a document read from the store (its `@Id` is set, so Mongo updates it) succeeds exactly when no fault is injected and no other session holds the reservation id (the unique index); a failed save stores nothing |
| CallSessions.SaveStores | src/main/java/edu/eci/arsw/calls/domain/CallSession.java:19-22 | a successful save stores exactly the document under its session id, keeps the others, lists a new key last, keeps the store invariant and makes the document findable by its reservation |
| CallSessions.CreateSpec | src/main/java/edu/eci/arsw/calls/service/CallSessionService.java:43-53 | `create` returns a session of the requested reservation. An existing one is returned unchanged, with no save and no count. Otherwise a successful create inserts, under the generated id, which was not stored before, a CREATED session created now that expires `maxMinutes + 10` minutes later, and adds one to `concurrentCalls`; a failed save changes nothing |
| CallSessions.CreateIsIdempotent | src/main/java/edu/eci/arsw/calls/service/CallSessionService.java:43-46 | once `create` succeeds for a reservation, every later `create` for it returns the same session and changes nothing, whatever the new id, time or store fault |
| CallSessions.ConnectedIsIdempotent | src/main/java/edu/eci/arsw/calls/service/CallSessionService.java:68-73 | the first connection time wins and a second `markConnected` leaves the record unchanged; the status is always CONNECTED; `setupMs` is the connection time minus the creation time |
| CallSessions.EndedOverwrites | src/main/java/edu/eci/arsw/calls/service/CallSessionService.java:91-96 | `end` sets ENDED and `endedAt` = now; the total duration is measured from `connectedAt` when it exists and otherwise keeps its value; with no ENDED guard, a second end overwrites as if the first had not happened |
| CallSessions.InsertResult | src/main/java/edu/eci/arsw/calls/domain/CallSession.java:16-22 | `save` of a new document (its `@Id` is null, so Mongo inserts): it succeeds exactly when no fault is injected, the session id is not stored and no session holds the reservation id; a failed insert stores nothing |
| CallSessions.InsertStores | src/main/java/edu/eci/arsw/calls/domain/CallSession.java:16-22 | an insert keeps the store invariant, adds the document under its new session id at the end of the order, keeps every stored document, and makes it the document found by its reservation id |
| CallSessions.CreateWithTakenIdFails | src/main/java/edu/eci/arsw/calls/domain/CallSession.java:19-20 | a new session whose generated id is already stored is refused with `DuplicateKey` (the unique `sessionId` index) and the service state is unchanged |
| CallSessions.CreateStep | src/main/java/edu/eci/arsw/calls/service/CallSessionService.java:43-53 | `create` as a function of the service state: `CreateSpec`, `CreateIsIdempotent` and `CreateWithTakenIdFails` state that an existing session of the reservation is returned unchanged and a new one is inserted and counted only when the insert succeeds |
| CallSessions.Connected | src/main/java/edu/eci/arsw/calls/service/CallSessionService.java:69-73 | the fields `markConnected` sets: `ConnectedIsIdempotent` states that the first connection time wins, the status is CONNECTED and `setupMs` is connection time minus creation time |
| CallSessions.Ended | src/main/java/edu/eci/arsw/calls/service/CallSessionService.java:92-96 | the fields `end` sets: `EndedOverwrites` states ENDED with `endedAt` = now, the duration measured from `connectedAt` when set, and no guard against a second end |
| CallSessions.CallSessionRepository.constructor | src/main/java/edu/eci/arsw/calls/domain/CallSessionRepository.java:9 | the store starts empty |
| CallSessions.CallSessionRepository.FindBySessionId | src/main/java/edu/eci/arsw/calls/domain/CallSessionRepository.java:10 | a fresh object with the stored document when the id is stored, nothing otherwise |
| CallSessions.CallSessionRepository.FindByReservationId | src/main/java/edu/eci/arsw/calls/domain/CallSessionRepository.java:11 | a fresh object with the document the reservation lookup finds, nothing otherwise |
| CallSessions.CallSessionRepository.FindAll | src/main/java/edu/eci/arsw/calls/service/CleanupScheduler.java:26 | one distinct fresh object per stored document, in listing order |
| CallSessions.CallSessionRepository.Save | src/main/java/edu/eci/arsw/calls/service/CallSessionService.java:74-97 | `save` of a loaded session: the store and the error follow `SaveResult`, and the store invariant is kept |
| CallSessions.CallSessionRepository.Insert | src/main/java/edu/eci/arsw/calls/service/CallSessionService.java:49-50 | `save` of a new session: the store and the error follow `InsertResult`, and the store invariant is kept |
| CallSessions.CallSessionService.constructor | src/main/java/edu/eci/arsw/calls/service/CallSessionService.java:24-34 | the counter starts at 0 with the given store, metrics and maximum length |
| CallSessions.CallSessionService.Create | src/main/java/edu/eci/arsw/calls/service/CallSessionService.java:43-53 | the new state and the result are those of `CreateStep`, whose meaning `CreateSpec` states |
| CallSessions.CallSessionService.CreateNew | src/main/java/edu/eci/arsw/calls/service/CallSessionService.java:47-52 | for a reservation without a session: build, insert (as `InsertResult` says), and count only after a successful insert |
| CallSessions.CallSessionService.FindBySessionId | src/main/java/edu/eci/arsw/calls/service/CallSessionService.java:60-62 | the repository's lookup |
| CallSessions.CallSessionService.MarkConnected | src/main/java/edu/eci/arsw/calls/service/CallSessionService.java:68-76 | the object becomes `Connected(old, now)` and is saved; the setup time is recorded as a success only after a successful save; the counter is untouched |
| CallSessions.CallSessionService.MarkFailedSetup | src/main/java/edu/eci/arsw/calls/service/CallSessionService.java:82-85 | the failure is recorded before the save, so it counts even when the save fails; the object is saved as it is |
| CallSessions.CallSessionService.End | src/main/java/edu/eci/arsw/calls/service/CallSessionService.java:91-99 | the object becomes `Ended(old, now)` and is saved; the counter drops by one only after a successful save, however often the session was already ended |
| CallSessions.CallSessionService.Snapshot | src/main/java/edu/eci/arsw/calls/service/CallSessionService.java:105-107 | the metrics engine's snapshot |
| Cleanup.DueKeys | src/main/java/edu/eci/arsw/calls/service/CleanupScheduler.java:27-28 | the due keys are a subsequence of the listing, so never more than it holds |
| Cleanup.DueKeysExact | src/main/java/edu/eci/arsw/calls/service/CleanupScheduler.java:27-28 | a listed session is selected exactly when it is not ENDED and strictly older than the limit |
| Cleanup.NeverDue | src/main/java/edu/eci/arsw/calls/service/CleanupScheduler.java:28 | an ENDED session, however old, and a session whose age equals or is below the limit, are never selected |
| Cleanup.EmptyStoreNothingDue | src/main/java/edu/eci/arsw/calls/service/CleanupScheduler.java:26-32 | an empty repository selects nothing, so the sweep calls no service operation |
| Cleanup.DueKeysSnoc | src/main/java/edu/eci/arsw/calls/service/CleanupScheduler.java:27-28 | looking at one more listed session adds it to the selection exactly when it is due |
| Cleanup.DuePrefix | src/main/java/edu/eci/arsw/calls/service/CleanupScheduler.java:27-32 | the sessions selected among the first i listed are a prefix of the whole selection, so the sweep ends them in listing order |
| Cleanup.EndedDocs | src/main/java/edu/eci/arsw/calls/service/CleanupScheduler.java:30 | ending sessions keeps the set of stored ids |
| Cleanup.SweepEndsExactlyDue | src/main/java/edu/eci/arsw/calls/service/CleanupScheduler.java:26-32 | a sweep without a failure ends exactly the listed sessions that are due |
| Cleanup.SweepStopsAtFailure | src/main/java/edu/eci/arsw/calls/service/CleanupScheduler.java:27-31 | a sweep that fails has ended only due sessions, and the failure is the save fault of the next due session, which stays unended with all due sessions after it |
| Cleanup.SweepFinished | src/main/java/edu/eci/arsw/calls/service/CleanupScheduler.java:26-32 | ending all the due sessions with no fault is a complete sweep |
| Cleanup.StoppedAt | src/main/java/edu/eci/arsw/calls/service/CleanupScheduler.java:27-31 | when the sweep stops at the i-th listed session, that is the next due one after those ended |
| Cleanup.NotYetEnded | src/main/java/edu/eci/arsw/calls/service/CleanupScheduler.java:27 | the listing has no repeats, so a session is ended at most once per sweep |
| Cleanup.EndStepFacts | src/main/java/edu/eci/arsw/calls/service/CleanupScheduler.java:28-30 | one `end` of a due session either ends exactly that document and extends the selection by it, or fails, changes nothing and stops the sweep |
| Cleanup.EndedDocsStep | src/main/java/edu/eci/arsw/calls/service/CleanupScheduler.java:30 | ending one more session changes exactly its document |
| Cleanup.EndedDocsKeepInvariant | src/main/java/edu/eci/arsw/calls/service/CleanupScheduler.java:30 | ending sessions keeps the store invariant |
| Cleanup.EndedSaveFitsIndex | src/main/java/edu/eci/arsw/calls/service/CleanupScheduler.java:30 | saving an ended copy never clashes on the reservation index |
| Cleanup.SweepOutcome | src/main/java/edu/eci/arsw/calls/service/CleanupScheduler.java:24-33 | the end state of `autoEndOldSessions`: `SweepEndsExactlyDue`, `SweepStopsAtFailure` and `SweepFinished` state that a sweep ends exactly the due sessions, or stops at the first failing save with the due sessions after it unended |
| Cleanup.CleanupScheduler.constructor | src/main/java/edu/eci/arsw/calls/service/CleanupScheduler.java:18-22 | `maxMinutesMs` = `maxMinutes * 60000` |
| Cleanup.CleanupScheduler.AutoEndOldSessions | src/main/java/edu/eci/arsw/calls/service/CleanupScheduler.java:25-33 | the sweep ends the due sessions, in listing order and against one `now`, up to the first failed save (`SweepOutcome`); each ended document becomes `Ended(d, now)` and the others are unchanged; the counter drops by one per session ended |
| Cleanup.CleanupScheduler.EndIfDue | src/main/java/edu/eci/arsw/calls/service/CleanupScheduler.java:28-31 | the loop body: a due session is ended and saved, and anything else is left alone |
| Eligibility.BuildRequest | src/main/java/edu/eci/arsw/calls/service/EligibilityService.java:51-58 | the request goes to `/{id}` with Accept, then an Authorization header only for a non-blank token |
| Eligibility.AuthorizationOnlyWithToken | src/main/java/edu/eci/arsw/calls/service/EligibilityService.java:53-58 | Accept comes first; an Authorization header is present exactly when the token is neither null nor blank, and it then carries the Bearer scheme of section 2.1 of RFC 6750 |
| Eligibility.SchemePrefixIsOptional | src/main/java/edu/eci/arsw/calls/service/EligibilityService.java:56-57 | a token with a leading "bearer" in any case followed by spaces gives the same header as the bare token |
| Eligibility.BearerTokExample | src/main/java/edu/eci/arsw/calls/service/EligibilityService.java:55-57 | the token "Bearer TOK" is sent as "Bearer TOK", not doubled |
| Eligibility.StripBearerTok | src/main/java/edu/eci/arsw/calls/service/EligibilityService.java:56 | the prefix strip turns "Bearer TOK" into "TOK" |
| Eligibility.Truncate | src/main/java/edu/eci/arsw/calls/service/EligibilityService.java:84-86 | a body of at most 200 characters is kept; a longer one becomes its first 200 characters plus "…" |
| Eligibility.CheckReservation | src/main/java/edu/eci/arsw/calls/service/EligibilityService.java:49-92 | the verdict is that of the reply to the request built for the token: an empty body, the status and participant test, an error status as not eligible, any other exception raised |
| Eligibility.CheckReservationWithoutToken | src/main/java/edu/eci/arsw/calls/service/EligibilityService.java:37-39 | the 2-argument overload is the 3-argument one with a null token, so no Authorization header is sent |
| Eligibility.VerdictExact | src/main/java/edu/eci/arsw/calls/service/EligibilityService.java:66-106 | eligible exactly when the upper-cased status is ACEPTADO, ACTIVE or ACTIVA and the user is the student or the tutor; eligible carries a null reason (`ok()`), and any other verdict carries a "Not active/participant" reason (`notEligible`) |
| Eligibility.ParticipantFallback | src/main/java/edu/eci/arsw/calls/service/EligibilityService.java:67-68 | studentId falls back from "studentId" to "student_id" to "", tutorId from "tutorId" to "tutor_id" to ""; a null member stops the fallback and renders as "null" |
| Eligibility.EmptyResponseRejected | src/main/java/edu/eci/arsw/calls/service/EligibilityService.java:63-64 | an empty response is not eligible and the reason contains "empty response" |
| Eligibility.ErrorStatusRejected | src/main/java/edu/eci/arsw/calls/service/EligibilityService.java:79-90 | an error status is not eligible and the reason starts with "Reservations error: " and the status code |
| Eligibility.StatusExamples | src/main/java/edu/eci/arsw/calls/service/EligibilityService.java:71-72 | the status test ignores case: "activa", "Aceptado" and "ACTIVE" pass, "CANCELADO" and "" do not |
| Eligibility.SnakeCaseTutorJoins | src/main/java/edu/eci/arsw/calls/service/EligibilityService.java:68-75 | a tutor named only under "tutor_id" of an ACTIVE reservation is eligible |
| Eligibility.StripBearer | src/main/java/edu/eci/arsw/calls/service/EligibilityService.java:56 | the `(?i)^bearer\s+` replacement: `SchemePrefixIsOptional` and `StripBearerTok` state that a case-insensitive "bearer" scheme followed by white space is dropped once, and a bare token is kept |
| Eligibility.HeadersFor | src/main/java/edu/eci/arsw/calls/service/EligibilityService.java:51-58 | the request headers: `AuthorizationOnlyWithToken` states Accept first and an Authorization "Bearer" header exactly when the token is neither null nor blank |
| Eligibility.Verdict | src/main/java/edu/eci/arsw/calls/service/EligibilityService.java:63-77 | the verdict on a reply body: `VerdictExact` and `EmptyResponseRejected` state eligible exactly for an accepted status and a participant user, and not eligible for a null body |
| Eligibility.Checked | src/main/java/edu/eci/arsw/calls/service/EligibilityService.java:49-91 | the verdict on any reply: `CheckReservation` and `ErrorStatusRejected` state that a body gets `Verdict`, an error status is not eligible with its code in the reason, and any other exception is raised |
| Authorization.Roles | src/main/java/edu/eci/arsw/calls/security/AuthorizationService.java:78-83 | the roles are the texts of the `roles` array, in order, when it is an array; else the text of the single `role` claim; else empty |
| Authorization.CollectRoles | src/main/java/edu/eci/arsw/calls/security/AuthorizationService.java:78-83 | the list filled element by element equals `Roles` |
| Authorization.ParseTokenOrCookie | src/main/java/edu/eci/arsw/calls/security/AuthorizationService.java:43-58 | a non-blank token is parsed as "Bearer " + token; otherwise the first cookie named `access_token` is; with neither, "Falta token" |
| Authorization.MissingHeaderRefused | src/main/java/edu/eci/arsw/calls/security/AuthorizationService.java:27-29 | a null or blank header fails "Falta Authorization" |
| Authorization.SchemeIsOptional | src/main/java/edu/eci/arsw/calls/security/AuthorizationService.java:30-33 | trimming and dropping a case-insensitive leading "bearer " make the scheme of section 2.1 of RFC 6750 optional: prefixed and bare tokens parse alike |
| Authorization.PrefixedHeader | src/main/java/edu/eci/arsw/calls/security/AuthorizationService.java:30-32 | "Bearer " + spaces + token is trimmed, recognised as prefixed, and reduced to the token |
| Authorization.TrimOfSpacesThen | src/main/java/edu/eci/arsw/calls/security/AuthorizationService.java:32 | trimming leading spaces in front of a trimmed token gives the token |
| Authorization.TrimStartSpaces | src/main/java/edu/eci/arsw/calls/security/AuthorizationService.java:32 | trimming the start skips exactly the leading whitespace |
| Authorization.JwtAcceptedExactly | src/main/java/edu/eci/arsw/calls/security/AuthorizationService.java:66-96 | a JWT is accepted exactly when it has at least two pieces, its payload decodes, `sub` (section 4.1.2 of RFC 7519) is present and not blank, and it has not expired; the identity is the subject with the roles claim; every refusal is "Token inválido", "JWT sin sub" or "Token expirado" |
| Authorization.SubjectCheckedFirst | src/main/java/edu/eci/arsw/calls/security/AuthorizationService.java:74-89 | the subject is checked before the expiry |
| Authorization.ExpiryBoundary | src/main/java/edu/eci/arsw/calls/security/AuthorizationService.java:85-89 | the `exp` test (section 4.1.4 of RFC 7519) is strict: a token is accepted at its expiry second and refused one second later |
| Authorization.NoDotIsInvalid | src/main/java/edu/eci/arsw/calls/security/AuthorizationService.java:68-94 | a string without a dot is one piece and fails "Token inválido" |
| Authorization.SignatureIgnored | src/main/java/edu/eci/arsw/calls/security/AuthorizationService.java:68-72 | the signature piece is never checked: tokens differing only in it, or lacking it, parse alike |
| Authorization.SplitUnsigned | src/main/java/edu/eci/arsw/calls/security/AuthorizationService.java:68 | `header.payload` splits into those two pieces |
| Authorization.SplitPayload | src/main/java/edu/eci/arsw/calls/security/AuthorizationService.java:68-71 | the second piece of `header.payload.sig` is the payload |
| Authorization.NoDotInWord | src/main/java/edu/eci/arsw/calls/security/AuthorizationService.java:68 | "no-es-un-jwt" contains no dot |
| Authorization.PlainWordRefused | src/main/java/edu/eci/arsw/calls/security/AuthorizationService.java:27-70 | the header "no-es-un-jwt" fails "Token inválido" |
| Authorization.ParseBearer | src/main/java/edu/eci/arsw/calls/security/AuthorizationService.java:27-34 | `parseBearer`: `MissingHeaderRefused`, `SchemeIsOptional` and `PrefixedHeader` state that a null or blank header is refused and that a leading "bearer " in any case is optional |
| Authorization.ParseJwt | src/main/java/edu/eci/arsw/calls/security/AuthorizationService.java:66-96 | `parseJwt`: `JwtAcceptedExactly`, `SignatureIgnored` and `SubjectCheckedFirst` state exactly which tokens are accepted and with which refusal the others fail, and that the signature is never looked at |
| Authorization.Subject | src/main/java/edu/eci/arsw/calls/security/AuthorizationService.java:74-76 | the `sub` claim as text: `SubjectCheckedFirst` and `JwtAcceptedExactly` state that a missing or blank subject is refused with "JWT sin sub" before the expiry is looked at |
| Authorization.Expired | src/main/java/edu/eci/arsw/calls/security/AuthorizationService.java:85-89 | the `exp` test: `ExpiryBoundary` states it is strict, so a token is accepted at its expiry second and refused one second later |
| Controller.CsvPieces | src/main/java/edu/eci/arsw/calls/api/CallController.java:59-65 | each piece loses the spaces the `\s*,\s*` matches around it take, and the number of pieces is kept; `CsvRoundTrip` states that joined URLs split back into the same URLs |
| Controller.NonBlank | src/main/java/edu/eci/arsw/calls/api/CallController.java:60-66 | the filter keeps exactly the non-blank pieces: everything kept is a non-blank piece, and every non-blank piece is kept |
| Controller.Padded | src/main/java/edu/eci/arsw/calls/api/CallController.java:59-65 | the joined text has one piece per URL |
| Controller.SplitOnPrefix | src/main/java/edu/eci/arsw/calls/api/CallController.java:59 | a leading piece without a comma joins the first piece of the rest |
| Controller.PaddedCons | src/main/java/edu/eci/arsw/calls/api/CallController.java:59 | the padded URLs are the first with its trailing spaces, then the rest |
| Controller.JoinCons | src/main/java/edu/eci/arsw/calls/api/CallController.java:59 | a joined list is the first URL, the separator, then the rest joined |
| Controller.SplitJoined | src/main/java/edu/eci/arsw/calls/api/CallController.java:59 | splitting joined URLs on commas gives each URL with the spaces around its commas |
| Controller.UnpadPiece | src/main/java/edu/eci/arsw/calls/api/CallController.java:59 | taking a piece's padding off gives back its URL |
| Controller.UnpadOne | src/main/java/edu/eci/arsw/calls/api/CallController.java:59 | the spaces before a piece go unless it is first, and those after it go unless it is last |
| Controller.FrontOff | src/main/java/edu/eci/arsw/calls/api/CallController.java:59 | the spaces in front of a piece that is not first are part of the match |
| Controller.BackOff | src/main/java/edu/eci/arsw/calls/api/CallController.java:59 | the spaces behind a piece that is not last are part of the match |
| Controller.CsvRoundTrip | src/main/java/edu/eci/arsw/calls/api/CallController.java:59-65 | URLs joined by a comma with any spaces around it split back into exactly those URLs, in order |
| Controller.UnpadAll | src/main/java/edu/eci/arsw/calls/api/CallController.java:59 | every padded piece unpads to its URL |
| Controller.BlankCsv | src/main/java/edu/eci/arsw/calls/api/CallController.java:59-67 | a blank setting has no comma and yields no URL |
| Controller.StunServers | src/main/java/edu/eci/arsw/calls/api/CallController.java:59-62 | one single-URL entry without credentials per STUN URL, in order; `ConfiguredUrlsListed` states that every configured STUN URL is listed once, in order |
| Controller.CredentialsOnlyForTurn | src/main/java/edu/eci/arsw/calls/api/CallController.java:56-73 | only the last entry carries credentials, and only when TURN URLs, user and password are all non-blank and a URL survives the filter; every other entry is one non-blank STUN URL |
| Controller.BlankConfigurationListsNothing | src/main/java/edu/eci/arsw/calls/api/CallController.java:56-74 | with the URL settings blank the list is empty |
| Controller.NonBlankKeeps | src/main/java/edu/eci/arsw/calls/api/CallController.java:60-66 | a list of non-blank pieces filters to itself |
| Controller.ConfiguredUrlsListed | src/main/java/edu/eci/arsw/calls/api/CallController.java:56-73 | configured STUN URLs come back one entry each, in order, followed by one TURN entry with every TURN URL in order and the credentials |
| Controller.ConfiguredUrls | src/main/java/edu/eci/arsw/calls/api/CallController.java:59-67 | joined plain URLs are non-blank and read back as the URLs |
| Controller.JoinStarts | src/main/java/edu/eci/arsw/calls/api/CallController.java:64 | joined URLs start with the first URL's first character |
| Controller.PlainIsNotBlank | src/main/java/edu/eci/arsw/calls/api/CallController.java:60 | a plain URL is not blank |
| Controller.NonBlankSnoc | src/main/java/edu/eci/arsw/calls/api/CallController.java:59-62 | filtering one more piece appends it when it is not blank |
| Controller.StunServersSnoc | src/main/java/edu/eci/arsw/calls/api/CallController.java:61 | one more STUN URL adds one entry at the end |
| Controller.EndRequestSpec | src/main/java/edu/eci/arsw/calls/api/CallController.java:46-52 | 404 exactly when no session has the id, and then nothing changes. A known session without a store fault gives 200, is stored ENDED with `endedAt` = now while the rest of the store stays, and the counter drops by one. A store fault changes nothing and is raised |
| Controller.EndTwiceCountsTwice | src/main/java/edu/eci/arsw/calls/api/CallController.java:46-52 | ending a session twice answers 200 twice and lowers the live-call counter by two |
| Controller.CallController.constructor | src/main/java/edu/eci/arsw/calls/api/CallController.java:35-37 | the controller holds the given service and settings |
| Controller.CallController.CreateSession | src/main/java/edu/eci/arsw/calls/api/CallController.java:39-44 | the service's `create` for the body's `reservationId`, answered with the session's `sessionId`, `reservationId` and a constant `ttlSeconds` of 4200; a store failure is raised |
| Controller.CallController.End | src/main/java/edu/eci/arsw/calls/api/CallController.java:46-52 | the result and the new state are those of `EndRequest`: no `end` call and 404 when the session is missing, otherwise one `end` and 200 |
| Controller.CallController.IceServers | src/main/java/edu/eci/arsw/calls/api/CallController.java:54-75 | the list built entry by entry equals `IceServerList(config)` |
| Controller.CallController.Metrics | src/main/java/edu/eci/arsw/calls/api/CallController.java:77-85 | the body copies the snapshot's four fields to `p95_ms`, `p99_ms`, `successRate5m` and `samples`, and the rate is in [0, 1] |
| Controller.TwoStunAndTurn | src/main/java/edu/eci/arsw/calls/api/CallController.java:56-73 | the configuration "stun:stun1,stun:stun2" with TURN "turn:turn1,turn:turn2", user1/secret lists two STUN entries, then one TURN entry with both URLs and the credentials |
| Controller.TestConfigJoined | src/main/java/edu/eci/arsw/calls/api/CallController.java:59 | that configuration is the two URL lists joined by commas |
| Controller.TestStunServers | src/main/java/edu/eci/arsw/calls/api/CallController.java:61 | two STUN URLs give two single-URL entries |
| Controller.JoinTwo | src/main/java/edu/eci/arsw/calls/api/CallController.java:59 | two joined URLs are the first, the separator, the second |
| Controller.TestSettingsPlain | src/main/java/edu/eci/arsw/calls/api/CallController.java:60-64 | the URLs and credentials of that configuration are plain and non-blank |
| Controller.StunOnly | src/main/java/edu/eci/arsw/calls/api/CallController.java:56-74 | blank TURN settings leave only the STUN entry |
| Controller.SplitCsv | src/main/java/edu/eci/arsw/calls/api/CallController.java:59 | `split("\\s*,\\s*")`: `CsvRoundTrip` and `BlankCsv` state that URLs joined by padded commas split back into exactly those URLs and a blank setting yields no non-blank piece |
| Controller.IceServerList | src/main/java/edu/eci/arsw/calls/api/CallController.java:54-75 | the `iceServers` list: `ConfiguredUrlsListed`, `CredentialsOnlyForTurn` and `BlankConfigurationListsNothing` state one entry per STUN URL in order, a single TURN entry with credentials only when all three TURN settings are non-blank, and nothing for a blank configuration |
| Controller.EndRequest | src/main/java/edu/eci/arsw/calls/api/CallController.java:46-52 | `end` as a function of the service state: `EndRequestSpec` states 404 with no change for an unknown id, and otherwise 200 with the session stored ENDED and the counter lowered |
| Signalling.Sent | src/main/java/edu/eci/arsw/calls/ws/CallWebSocketHandler.java:167 | sending appends one message to one connection and keeps every connection and every attribute |
| Signalling.Closed | src/main/java/edu/eci/arsw/calls/ws/CallWebSocketHandler.java:59 | closing marks one connection closed with its code and keeps every connection and every attribute |
| Signalling.WithAttribute | src/main/java/edu/eci/arsw/calls/ws/CallWebSocketHandler.java:135-136 | tagging a connection keeps the set of connections |
| Signalling.Deliver | src/main/java/edu/eci/arsw/calls/ws/CallWebSocketHandler.java:145-148 | a delivery to a set of connections keeps every connection, its attributes and whether it is open |
| Signalling.FanoutAll | src/main/java/edu/eci/arsw/calls/ws/CallWebSocketHandler.java:140-152 | running the invoked room callbacks keeps every connection, its attributes and whether it is open |
| Signalling.Published | src/main/java/edu/eci/arsw/calls/ws/CallWebSocketHandler.java:175 | a publish keeps the connections and their attributes (what it delivers is stated by ForwardDelivery and PublishedKeeps) |
| Signalling.ErrorSent | src/main/java/edu/eci/arsw/calls/ws/CallWebSocketHandler.java:204-211 | an ERROR keeps the connections and their attributes |
| Signalling.Refused | src/main/java/edu/eci/arsw/calls/ws/CallWebSocketHandler.java:98-99 | a refusal keeps the connections and their attributes |
| Signalling.Failed | src/main/java/edu/eci/arsw/calls/ws/CallWebSocketHandler.java:78-90 | the exception handler keeps the connections and their attributes |
| Signalling.Joined | src/main/java/edu/eci/arsw/calls/ws/CallWebSocketHandler.java:134-155 | registering and subscribing keeps the set of connections |
| Signalling.Entered | src/main/java/edu/eci/arsw/calls/ws/CallWebSocketHandler.java:126-175 | entering a room keeps the set of connections |
| Signalling.JoinChecked | src/main/java/edu/eci/arsw/calls/ws/CallWebSocketHandler.java:113-123 | the eligibility step keeps the set of connections |
| Signalling.JoinApproved | src/main/java/edu/eci/arsw/calls/ws/CallWebSocketHandler.java:122-123 | finding or creating the session keeps the set of connections |
| Signalling.JoinStep | src/main/java/edu/eci/arsw/calls/ws/CallWebSocketHandler.java:96-176 | a JOIN keeps the set of connections |
| Signalling.ForwardStep | src/main/java/edu/eci/arsw/calls/ws/CallWebSocketHandler.java:178-192 | relaying keeps the set of connections |
| Signalling.RtcConnectedStep | src/main/java/edu/eci/arsw/calls/ws/CallWebSocketHandler.java:194-197 | RTC_CONNECTED keeps the set of connections |
| Signalling.EndStep | src/main/java/edu/eci/arsw/calls/ws/CallWebSocketHandler.java:199-202 | LEAVE and END keep the set of connections |
| Signalling.Dispatch | src/main/java/edu/eci/arsw/calls/ws/CallWebSocketHandler.java:69-77 | the switch keeps the set of connections |
| Signalling.Processed | src/main/java/edu/eci/arsw/calls/ws/CallWebSocketHandler.java:63-90 | parsing, dispatching and the exception handler keep the set of connections |
| Signalling.HandleStep | src/main/java/edu/eci/arsw/calls/ws/CallWebSocketHandler.java:54-94 | a text message never opens or drops a connection entry |
| Signalling.ClosedStep | src/main/java/edu/eci/arsw/calls/ws/CallWebSocketHandler.java:213-229 | a close keeps the set of connection entries and leaves the closing connection no longer open, since the container calls `afterConnectionClosed` after the session has closed |
| Signalling.MatchKept | src/main/java/edu/eci/arsw/calls/ws/CallWebSocketHandler.java:145-147 | sending and closing keep every registered handle a live connection of the user it is registered under |
| Signalling.MatchAfterEnter | src/main/java/edu/eci/arsw/calls/ws/CallWebSocketHandler.java:134-136 | registering a connection under its own user id and tagging it keeps that match |
| Signalling.MatchAfterLeave | src/main/java/edu/eci/arsw/calls/ws/CallWebSocketHandler.java:219 | unregistering a user keeps that match |
| Signalling.FanoutAllSnoc | src/main/java/edu/eci/arsw/calls/ws/CallWebSocketHandler.java:140-152 | running one more callback is one more delivery to that callback's room |
| Signalling.DeliverOneMore | src/main/java/edu/eci/arsw/calls/ws/CallWebSocketHandler.java:145-148 | delivering to one more member of a room adds exactly one message to its connection when it is open, and nothing when it is closed |
| Signalling.Traced | src/main/java/edu/eci/arsw/calls/ws/CallWebSocketHandler.java:64-65 | only the trace id may change: a present, non-blank trace id is kept and a null or blank one becomes the generated ULID |
| Signalling.Admitted | src/main/java/edu/eci/arsw/calls/ws/CallWebSocketHandler.java:57-58 | the limiter step of one connection: `LimiterPerConnection` and `OverLimitIsNotParsed` state that only the sender's window moves and that a refused message is never parsed |
| Signalling.JoinRefusal | src/main/java/edu/eci/arsw/calls/ws/CallWebSocketHandler.java:97-111 | the JOIN field checks: `JoinChecksInOrder` states identity, then session id, then reservation id, each message exactly when its check is the first to fail |
| Signalling.FoundOrCreated | src/main/java/edu/eci/arsw/calls/ws/CallWebSocketHandler.java:122-123 | the session a JOIN enters: `FoundOrCreatedSpec` states the stored session of the id, unchanged, or else `create` for the reservation |
| Signalling.NamesRelay | src/main/java/edu/eci/arsw/calls/ws/CallWebSocketHandler.java:184-186 | the relay-candidate test: `RelayCandidateMarked` states that a candidate text containing " typ relay" anywhere is a relay, and a payload without a candidate or not an object is not |
| Signalling.Ending | src/main/java/edu/eci/arsw/calls/ws/CallWebSocketHandler.java:200 | `end` of the named stored session: `EndTwiceCountsTwice` and `EndSaveFailure` state that each END of a stored session saves ENDED and lowers the counter, and a failed save changes nothing |
| Signalling.Transport.Open | src/main/java/edu/eci/arsw/calls/security/WsAuthHandshakeInterceptor.java:28-32 | a completed handshake adds an open connection with the handshake's attributes and nothing sent |
| Signalling.Transport.Send | src/main/java/edu/eci/arsw/calls/ws/CallWebSocketHandler.java:167 | the connection map becomes Sent of the old one |
| Signalling.Transport.Close | src/main/java/edu/eci/arsw/calls/ws/CallWebSocketHandler.java:59 | the connection map becomes Closed of the old one |
| Signalling.Dropped | src/main/java/edu/eci/arsw/calls/ws/CallWebSocketHandler.java:213-214 | the container's own close: only the closing connection changes, it is no longer open, and its sent messages and close codes are kept |
| Signalling.Transport.Drop | src/main/java/edu/eci/arsw/calls/ws/CallWebSocketHandler.java:213-214 | the connection map becomes Dropped of the old one |
| Signalling.Transport.PutAttribute | src/main/java/edu/eci/arsw/calls/ws/CallWebSocketHandler.java:135-136 | the connection map becomes WithAttribute of the old one |
| Signalling.CallWebSocketHandler.constructor | src/main/java/edu/eci/arsw/calls/ws/CallWebSocketHandler.java:37-51 | the collaborators and settings are stored, no connection has a limiter yet, and the handler is consistent |
| Signalling.CallWebSocketHandler.Admit | src/main/java/edu/eci/arsw/calls/ws/CallWebSocketHandler.java:57-58 | the sender's limiter is created on its first message at the current second, and the windows and the verdict are those of Admitted |
| Signalling.CallWebSocketHandler.SendTo | src/main/java/edu/eci/arsw/calls/ws/CallWebSocketHandler.java:167 | the world changes only by one message sent to the connection |
| Signalling.CallWebSocketHandler.SendError | src/main/java/edu/eci/arsw/calls/ws/CallWebSocketHandler.java:204-211 | the world becomes ErrorSent: one ERROR carrying the message, the clock and a fresh trace id |
| Signalling.CallWebSocketHandler.Refuse | src/main/java/edu/eci/arsw/calls/ws/CallWebSocketHandler.java:98-99 | the world becomes Refused: an ERROR, then a 1003 close |
| Signalling.CallWebSocketHandler.Fail | src/main/java/edu/eci/arsw/calls/ws/CallWebSocketHandler.java:78-90 | the world becomes Failed: an ERROR naming the exception, then a 1011 close only if still open |
| Signalling.CallWebSocketHandler.Fanout | src/main/java/edu/eci/arsw/calls/ws/CallWebSocketHandler.java:140-152 | every open member of the room gets one copy, and no one else gets anything |
| Signalling.CallWebSocketHandler.PublishOn | src/main/java/edu/eci/arsw/calls/ws/CallWebSocketHandler.java:175 | the world becomes Published: the backend send, then the invoked room callbacks |
| Signalling.CallWebSocketHandler.FanoutEach | src/main/java/edu/eci/arsw/calls/ws/CallWebSocketHandler.java:140-152 | the invoked callbacks run in order and the registry still matches the connections |
| Signalling.CallWebSocketHandler.Join | src/main/java/edu/eci/arsw/calls/ws/CallWebSocketHandler.java:134-155 | the world becomes Joined: registered, tagged with room and user, one more room callback subscribed |
| Signalling.CallWebSocketHandler.Enter | src/main/java/edu/eci/arsw/calls/ws/CallWebSocketHandler.java:126-175 | the world becomes Entered: a room of two refuses; otherwise join, JOIN_ACK with the initiator flag, then PEER_JOINED to the room |
| Signalling.CallWebSocketHandler.FindOrCreate | src/main/java/edu/eci/arsw/calls/ws/CallWebSocketHandler.java:122-123 | the stored session when there is one, otherwise a created one or the store's exception, as FoundOrCreated |
| Signalling.CallWebSocketHandler.JoinEligible | src/main/java/edu/eci/arsw/calls/ws/CallWebSocketHandler.java:113-123 | the world and the exception are those of JoinChecked: the reservations service's exception, a "403: " refusal, or the approved path |
| Signalling.CallWebSocketHandler.JoinApprovedUser | src/main/java/edu/eci/arsw/calls/ws/CallWebSocketHandler.java:122-175 | the world and the exception are those of JoinApproved |
| Signalling.CallWebSocketHandler.OnJoin | src/main/java/edu/eci/arsw/calls/ws/CallWebSocketHandler.java:96-176 | the world and the exception are those of JoinStep |
| Signalling.CallWebSocketHandler.ForwardAndInspect | src/main/java/edu/eci/arsw/calls/ws/CallWebSocketHandler.java:178-192 | the world becomes ForwardStep: the envelope is published on its room channel and the relay candidate changes no stored session |
| Signalling.CallWebSocketHandler.OnRtcConnected | src/main/java/edu/eci/arsw/calls/ws/CallWebSocketHandler.java:194-197 | the world and the exception are those of RtcConnectedStep |
| Signalling.CallWebSocketHandler.OnEnd | src/main/java/edu/eci/arsw/calls/ws/CallWebSocketHandler.java:199-202 | the world and the exception are those of EndStep |
| Signalling.CallWebSocketHandler.EndStored | src/main/java/edu/eci/arsw/calls/ws/CallWebSocketHandler.java:200 | the service state and the exception are those of Ending: only a saved end lowers the call counter |
| Signalling.CallWebSocketHandler.DispatchMessage | src/main/java/edu/eci/arsw/calls/ws/CallWebSocketHandler.java:69-77 | the world and the exception are those of Dispatch, including the exception of a null type |
| Signalling.CallWebSocketHandler.HandleTextMessage | src/main/java/edu/eci/arsw/calls/ws/CallWebSocketHandler.java:54-94 | the world becomes HandleStep: a message over the limit closes with 1008, any other is processed |
| Signalling.CallWebSocketHandler.CloseOverLimit | src/main/java/edu/eci/arsw/calls/ws/CallWebSocketHandler.java:59-60 | only the sender's connection changes: it is closed with 1008 |
| Signalling.CallWebSocketHandler.ProcessAdmitted | src/main/java/edu/eci/arsw/calls/ws/CallWebSocketHandler.java:63-90 | the world becomes Processed and the limiters are left as they are |
| Signalling.CallWebSocketHandler.Process | src/main/java/edu/eci/arsw/calls/ws/CallWebSocketHandler.java:63-90 | the world becomes Processed: an unparsable text or an exception from dispatch goes to the exception handler |
| Signalling.CallWebSocketHandler.AfterConnectionClosed | src/main/java/edu/eci/arsw/calls/ws/CallWebSocketHandler.java:213-229 | the container's close, then the world becomes ClosedStep: the connection is no longer open, a tagged connection leaves its room and PEER_LEFT is published; an untagged one changes nothing else |
| SignallingProperties.OverLimitIsNotParsed | src/main/java/edu/eci/arsw/calls/ws/CallWebSocketHandler.java:57-61 | a message over the limit only closes the sender with 1008: the text and the parser do not matter, and rooms, store, metrics and bridge are unchanged |
| SignallingProperties.LimiterPerConnection | src/main/java/edu/eci/arsw/calls/ws/CallWebSocketHandler.java:57 | only the sender's window moves; a first message starts a window at the current second counting 1, accepted exactly when the limit is at least 1; a window of the current second counts one more |
| SignallingProperties.JoinChecksInOrder | src/main/java/edu/eci/arsw/calls/ws/CallWebSocketHandler.java:97-111 | the checks run identity, then session id, then reservation id; each refusal message appears exactly when its check is the first to fail |
| SignallingProperties.AbsentUserPassesIdentityCheck | src/main/java/edu/eci/arsw/calls/ws/CallWebSocketHandler.java:56 | a connection without a user id is "null", which is not blank |
| SignallingProperties.RefusedIsRefusedWorld | src/main/java/edu/eci/arsw/calls/ws/CallWebSocketHandler.java:98-99 | a refusal is one ERROR and a 1003 close of the sender, and nothing else |
| SignallingProperties.RefusedJoinChangesNothingElse | src/main/java/edu/eci/arsw/calls/ws/CallWebSocketHandler.java:97-111 | a JOIN failing an envelope check only refuses the sender, with the check's message, and throws nothing |
| SignallingProperties.FullRoomRefused | src/main/java/edu/eci/arsw/calls/ws/CallWebSocketHandler.java:126-130 | a JOIN into a room of two is refused with "Room full" and nothing else changes |
| SignallingProperties.IneligibleRefused | src/main/java/edu/eci/arsw/calls/ws/CallWebSocketHandler.java:113-118 | an ineligible verdict refuses with "403: " and its reason, and nothing else changes |
| SignallingProperties.FanoutExtends | src/main/java/edu/eci/arsw/calls/ws/CallWebSocketHandler.java:145-148 | callbacks only append to what a connection was sent and never close it |
| SignallingProperties.FanoutCopies | src/main/java/edu/eci/arsw/calls/ws/CallWebSocketHandler.java:140-152 | with k callbacks for one room, each open member receives exactly k copies and every other connection receives nothing |
| SignallingProperties.ChannelInjective | src/main/java/edu/eci/arsw/calls/ws/CallWebSocketHandler.java:138 | different session ids have different channels |
| SignallingProperties.ForwardDelivery | src/main/java/edu/eci/arsw/calls/ws/CallWebSocketHandler.java:178-192 | when the backend does not echo the message back (down, no template, failed send, or no listener registered here), OFFER, ANSWER and ICE_CANDIDATE reach every open member of the room once per subscription, the sender included, and no one else; store, metrics, rooms and limiters are unchanged |
| SignallingProperties.EchoedDelivery | src/main/java/edu/eci/arsw/calls/pubsub/RedisPubSubBridge.java:76-90 | when the backend takes the send and this process listens on the room's channel, the listener's second local fanout leaves every open member of the room with two copies per subscription |
| SignallingProperties.RoomSubscribers | src/main/java/edu/eci/arsw/calls/ws/CallWebSocketHandler.java:138-152 | once every callback sits on its room's channel, every local callback of a room's channel serves that room |
| SignallingProperties.PublishedKeeps | src/main/java/edu/eci/arsw/calls/ws/CallWebSocketHandler.java:175 | a publish changes no room, session, metric, limiter, subscription or attribute and only appends to what was sent |
| SignallingProperties.JoinedRegisters | src/main/java/edu/eci/arsw/calls/ws/CallWebSocketHandler.java:134-155 | the room maps the user to the connection, the connection is tagged with room and user, one more callback is subscribed, and nothing is sent yet |
| SignallingProperties.EnterRoom | src/main/java/edu/eci/arsw/calls/ws/CallWebSocketHandler.java:132-167 | in a room below two, the user is registered, tagged and subscribed, and the first new message to the sender is JOIN_ACK whose initiator flag is whether the room was empty |
| SignallingProperties.RegisteredKeepsCap | src/main/java/edu/eci/arsw/calls/ws/CallWebSocketHandler.java:126-134 | registering into a room below two keeps every room at two users or fewer |
| SignallingProperties.SubscribedKeepsMatch | src/main/java/edu/eci/arsw/calls/ws/CallWebSocketHandler.java:138-140 | subscribing a room's callback on its own channel keeps every callback on the channel of its room |
| SignallingProperties.PublishedKeepsConsistent | src/main/java/edu/eci/arsw/calls/ws/CallWebSocketHandler.java:175 | a publish keeps rooms at two or fewer and callbacks on their own channels |
| SignallingProperties.EnteredKeepsConsistent | src/main/java/edu/eci/arsw/calls/ws/CallWebSocketHandler.java:126-175 | entering a room keeps that consistency |
| SignallingProperties.JoinKeepsConsistent | src/main/java/edu/eci/arsw/calls/ws/CallWebSocketHandler.java:96-176 | a JOIN keeps that consistency |
| SignallingProperties.DispatchKeepsConsistent | src/main/java/edu/eci/arsw/calls/ws/CallWebSocketHandler.java:69-77 | every message type keeps that consistency |
| SignallingProperties.MessageKeepsConsistent | src/main/java/edu/eci/arsw/calls/ws/CallWebSocketHandler.java:54-94 | no text message ever puts a third user in a room or a callback on a foreign channel |
| SignallingProperties.CloseKeepsConsistent | src/main/java/edu/eci/arsw/calls/ws/CallWebSocketHandler.java:213-229 | a close keeps that consistency |
| SignallingProperties.UnsupportedTypeAnswered | src/main/java/edu/eci/arsw/calls/ws/CallWebSocketHandler.java:76 | an unknown type gets exactly one ERROR "Unsupported type", the connection stays open and nothing else changes |
| SignallingProperties.HeartbeatChangesNothing | src/main/java/edu/eci/arsw/calls/ws/CallWebSocketHandler.java:73-74 | HEARTBEAT changes nothing |
| SignallingProperties.ExceptionReported | src/main/java/edu/eci/arsw/calls/ws/CallWebSocketHandler.java:78-90 | the exception handler sends one ERROR "500: class: message" ("no message" for a null one), closes with 1011 only an open connection, and changes nothing else |
| SignallingProperties.UnparsableReported | src/main/java/edu/eci/arsw/calls/ws/CallWebSocketHandler.java:63 | a text that does not parse goes to the exception handler |
| SignallingProperties.NullTypeReported | src/main/java/edu/eci/arsw/calls/ws/CallWebSocketHandler.java:69 | an envelope with no type throws NullPointerException from the switch, which the exception handler reports |
| SignallingProperties.ConnectedSaveFailure | src/main/java/edu/eci/arsw/calls/ws/CallWebSocketHandler.java:195-196 | a failed save on RTC_CONNECTED throws, relays nothing and records no setup time |
| SignallingProperties.EndSaveFailure | src/main/java/edu/eci/arsw/calls/ws/CallWebSocketHandler.java:200-201 | a failed save on LEAVE or END throws, relays nothing and leaves the call counter unchanged |
| SignallingProperties.EndTwiceCountsTwice | src/main/java/edu/eci/arsw/calls/ws/CallWebSocketHandler.java:200 | ending the same session twice saves ENDED twice, with the second end time, and lowers the call counter by two |
| SignallingProperties.ConnectedTwiceRecordsTwice | src/main/java/edu/eci/arsw/calls/service/CallSessionService.java:68-76 | two RTC_CONNECTED for a stored session save the record of the first both times and record two successes with the same setup time |
| SignallingProperties.CloseBeforeJoinChangesNothing | src/main/java/edu/eci/arsw/calls/ws/CallWebSocketHandler.java:216-218 | a connection missing either tag is only marked closed: rooms, bridge, store, metrics and windows are unchanged |
| SignallingProperties.CloseLeavesRoom | src/main/java/edu/eci/arsw/calls/ws/CallWebSocketHandler.java:216-225 | a tagged connection's close removes its user from its room, keeps the other members, publishes PEER_LEFT on the room channel, and leaves store and metrics alone; the closing connection is closed and gets no PEER_LEFT |
| SignallingProperties.FanoutSkipsClosed | src/main/java/edu/eci/arsw/calls/ws/CallWebSocketHandler.java:145-147 | a closed connection is left exactly as it was by every fanout, whatever room still holds its handle |
| SignallingProperties.ClosedConnectionHearsNothing | src/main/java/edu/eci/arsw/calls/ws/CallWebSocketHandler.java:145-147 | after a close, any later relay on any room, including a room of an earlier JOIN that still holds the handle, leaves the closed connection exactly as it was |
| SignallingProperties.FoundOrCreatedSpec | src/main/java/edu/eci/arsw/calls/ws/CallWebSocketHandler.java:122-123 | a stored session id returns that session with nothing changed; otherwise the session returned is stored and, when its id differs from the envelope's, belongs to the requested reservation; a failure changes nothing; the store invariant is kept |
| SignallingProperties.RelayCandidateMarked | src/main/java/edu/eci/arsw/calls/ws/CallWebSocketHandler.java:184-186 | a candidate text with " typ relay" at any position marks a relay whatever the other members are; a payload with no candidate member, a null payload or a bare text never does |

## Left out

- Spring wiring is not modelled: application start-up, the WebSocket and CORS configuration, the HTTP security filter chain and the metrics registry. The handshake is modelled only as `Transport.Open` adding a connection with the attributes the handshake interceptor stores.
- Redis, MongoDB and the reservations HTTP service are not called. Their answers are parameters: the backend's send failures, the store's fault on save, and the reply or error status of the reservations service.
- JSON parsing and serialisation, Base64url decoding and ULID generation are abstract. A parse result, a decoded payload and each fresh id are inputs.
- Clocks are parameters. One reading serves a whole event. `QualityMetricsService.snapshot` reads the clock twice, in `evictOld` and again for the success window; the model uses one reading for both, so samples stamped between the two readings are not distinguished.
- Concurrency is not modelled: the concurrent maps and queues, the Redis listener thread and the scheduler thread. Each event runs to completion.
- Logging, MDC trace context and Micrometer gauges are not modelled.
- QualityMetrics.SuccessRate: the rate is an exact `real`, not a `double`. The percentile index `ceil(q * n) - 1` is computed exactly over integers, and the conversion of a `double` percentile to `long` is not modelled.
- The 32-bit and 64-bit overflow of counters, timestamps and durations is not modelled: integers are unbounded.
- Authorization.AsLong: an `exp` claim given as text counts as 0, so it never expires. Jackson's `asLong` would try to parse numeric text.
- Common.ToUpperAscii maps a..z, the dotless `ı` and the long `ſ` to upper-case ASCII, and keeps every other character and the length. Characters whose Java upper case is longer (`ß` to `SS`, ligatures) are kept as they are; this cannot change the verdict, because every such expansion yields a pair (`SS`, `FF`, `FI`, `FL`, `ST`) or a non-ASCII mark that none of ACEPTADO, ACTIVE or ACTIVA contains. The real gap is the locale: `status.toUpperCase()` uses the JVM's default locale, and under a Turkish locale `activa` becomes `ACTİVA` (dotted capital I), which Java refuses and the model accepts. The model assumes a locale without Turkish casing rules. Common.ToLowerAscii maps only A..Z; Java's `toLowerCase(Locale.ROOT)` differs only on characters that can never produce a letter of `bearer `.
- Controller.CallController.CreateSession requires a `reservationId` in the request body. Java passes null to `create` when it is missing, and the model has no null reservation id.
- Sending and closing never throw in the model. An `IOException` from a send or a close is not modelled; inside a fanout callback Java would catch it and skip the remaining members.
- Signalling.NamesRelay inspects a `candidate` member only when it is JSON text. Java's `String.valueOf` of an array or object candidate is not inspected.
- SignallingProperties.ForwardDelivery requires every local callback to sit on its room's channel. `MessageKeepsConsistent` and `CloseKeepsConsistent` prove that every event keeps this. It also requires that the backend not echo the message back; `EchoedDelivery` covers the echo case.
- The heartbeat and idle-timeout settings are stored but never used, as in the Java handler. The container's idle timeout is part of the WebSocket configuration and is not modelled.
- A connection's rate limiter is never removed when the connection closes, as in the Java handler.
- Signalling.HandleStep does not require the connection to be open. The container delivers no message on a closed session; the model does not rely on that and would process such a message. The close status the container passes to `afterConnectionClosed` is not modelled, because the handler ignores it.
- A failure of `recordSuccess` or `recordFailure` is not modelled; they only add to in-memory queues.
- The backend's echo is not an event of the handler. The publish runs the local fanout once; `EchoedDelivery` states the world after the listener's second fanout, and `PubSub.PubSubBridge.OnBackendMessage` models the listener itself. Messages published by other processes are not modelled.

Behaviours of the Java code that look unintended but that the model keeps as written:
- A JOIN does not fall back to the reservation id stored with the session, and does not check that the envelope's reservation matches the session's.
- Every JOIN subscribes one more callback for its room. After k JOINs a relayed message reaches each open member k times from the local fanout, the sender included (`FanoutCopies`, `ForwardDelivery`), and 2k times when the backend echoes it (`EchoedDelivery`).
- `markConnected` records a success on every call, not only the first. A second RTC_CONNECTED leaves the record unchanged and adds another success sample (`ConnectedTwiceRecordsTwice`).
- `end` has no guard against a session that is already ENDED. A second END saves again and lowers the call counter again (`EndTwiceCountsTwice`).
- The close of a stale connection unregisters its user id, even when the room now holds a newer connection of the same user (`CloseLeavesRoom`).
- The `turnUsed` flag set by a relay candidate lands on a fresh copy of the stored session and is never saved (`ForwardAndInspect`).
