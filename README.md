# Signalling bookkeeping of the Kurento hello-world server

The hello-world server relays WebRTC signalling between a browser and a
Kurento media server. Per browser session it keeps two process-wide
dictionaries. `sessions` maps a session id to the session's media pipeline
and WebRTC endpoint. `candidatesQueue` maps a session id to the ICE
candidates that arrived before that endpoint existed. This project models
the code that reads and writes these dictionaries:

- routing an incoming candidate (`onIceCandidate`);
- the commit in the `processOffer` callback, which registers the session;
- the drain loop, which moves queued candidates onto the new endpoint;
- `stop`, which releases the pipeline and deletes both entries;
- the `switch` on the id of an incoming WebSocket message.

Files:

- `signalling.dfy`, module `Signalling`: the state as a value (`State`), and
  one pure function per operation. Each function's `ensures` says what the
  operation does to every part of the state. Lemmas cover idempotence of the
  drain, isolation between sessions, and registry consistency.
- `traces.dfy`, module `Traces`: Node runs one callback at a time, so a run
  of the server is modelled as a sequence of atomic events. The model makes
  the commit and the drain separate events and allows any event between
  them. That is a choice of step size: the server may never reach some of
  these interleavings, depending on how the `q` promise library schedules
  its continuations. The general lemmas (conservation of candidates, FIFO
  queueing, registry consistency) hold for every such sequence, so they
  also hold for the ones the server does reach. Four lemmas work through
  concrete interleavings.
- `server.dfy`, module `HelloWorld`: class `Server` holds the two
  dictionaries as `map` fields and updates them in place. The drain is a
  `while` loop that shifts candidates off the queue. Each method is proved
  to leave the fields exactly where the matching `Signalling` function
  puts the value.

Media-server objects are opaque numbers. `endpoint.addIceCandidate(c)` is
modelled as appending `c` to that endpoint's entry in `applied`, a log per
endpoint. `pipeline.release()` is modelled as adding the pipeline to the
`released` set.

Behaviours of the code that the model reproduces and a reader may not
expect:

- The drain leaves an empty array under the session's key; it does not
  remove the entry.
- `stop` on an id with no session record does nothing. A queue that id
  holds stays in place.
- When the parsed message is an object with an unknown id, the reply text is
  `Invalid message [object Object]`. The code concatenates the parsed
  message object, not its id, to the string.
- Nothing stops a second `start` for a registered id. Its commit replaces the
  record, and the earlier pipeline is never released (`RecommitLeaksPipeline`).
- A `stop` during a negotiation is not remembered. A `stop` that comes
  before the commit does nothing (server.js:244), so the commit registers
  the session anyway and its pipeline stays live (`StopBeforeCommitIsForgotten`).
- The model also allows a `stop` and a candidate between the commit and the
  drain. In that interleaving, the candidate is queued again and the drain
  gives it to the endpoint of the released pipeline
  (`DrainAfterStopReachesReleasedPipeline`). Whether the server can reach
  this depends on `q`'s scheduling of continuations. The same holds for
  the candidate that overtakes older queued ones in
  `ArrivalOrderNotPreserved`.

## Model

| member | source | states |
|---|---|---|
| `Signalling.Apply` | kurento-hello-world/server.js:86 | adding a candidate to an endpoint appends it to that endpoint's log and leaves every other endpoint's log as it was |
| `Signalling.ApplyAll` | kurento-hello-world/server.js:181-184 | applying candidates one after another appends them to the endpoint's log in order; other logs are unchanged, and applying none changes nothing |
| `Signalling.RouteCandidate` | kurento-hello-world/server.js:80-95 | for a registered id: the candidate goes onto that session's endpoint log; queues, sessions and released pipelines are unchanged. For an unregistered id: the candidate is appended to the id's queue, which is created empty when missing; other queues, sessions and all endpoint logs are unchanged |
| `Signalling.CommitSession` | kurento-hello-world/server.js:156-166 | after the commit, `sessions[sid]` is exactly this negotiation's pipeline and endpoint, replacing any earlier record; no other key and no other part of the state changes |
| `Signalling.DrainQueue` | kurento-hello-world/server.js:180-185 | the endpoint's log grows by the queued candidates in queue order; the queue is empty afterwards but its key stays; other queues, other logs and sessions are unchanged; with no queue (or an empty one) the state is unchanged |
| `Signalling.StopSession` | kurento-hello-world/server.js:243-252 | for a registered id: exactly that session's pipeline is released, and both its `sessions` and `candidatesQueue` entries are deleted; every other id and all endpoint logs are untouched. For an unregistered id: nothing changes, including any queue it holds |
| `Signalling.Dispatch` | kurento-hello-world/server.js:285-321 | `start` only begins the negotiation and changes no state; `stop` is `stop`; `onIceCandidate` is candidate routing; any other id changes nothing and yields one `error` reply with the fixed text |
| `Signalling.DrainIdempotent` | kurento-hello-world/server.js:180-185 | draining a second time, into any endpoint, applies nothing and changes nothing |
| `Signalling.DispatchIsScoped` | kurento-hello-world/server.js:285-321 | a message for one session id leaves every other id's record and queue unchanged, and only that session's own endpoint can receive a candidate |
| `Signalling.StopKeepsConsistent` | kurento-hello-world/server.js:243-252 | if no registered pipeline is released and no two sessions share a pipeline or endpoint, this still holds after `stop` |
| `Signalling.CommitKeepsConsistent` | kurento-hello-world/server.js:156-166 | committing a freshly created pipeline and endpoint keeps every registered pipeline live and keeps pipelines and endpoints unshared |
| `Signalling.RecommitLeaksPipeline` | kurento-hello-world/server.js:160 | a second commit for a registered id drops the earlier pipeline: afterwards no session refers to it, it is not released, and a later `stop` does not release it either |
| `Traces.Conservation` | kurento-hello-world/server.js:80-185 | across any interleaving of candidates, commits, drains and stops of other ids that keeps the endpoint private to the session, each candidate received for that session is, exactly once, either still in its queue or on its endpoint (a multiset equation) |
| `Traces.QueueIsFifo` | kurento-hello-world/server.js:88-94 | while an id is unregistered, its queue is its earlier contents followed by every candidate received for it, in arrival order |
| `Traces.EarlyCandidatesDrainInOrder` | kurento-hello-world/server.js:156-185 | candidates sent before the session exists reach its endpoint after the commit and the drain, in arrival order and behind what the endpoint already had; the queue is then empty but still present, and the session is registered |
| `Traces.ArrivalOrderNotPreserved` | kurento-hello-world/server.js:80-185 | in the model's interleaving where a candidate arrives between the commit and the drain, that candidate reaches the endpoint before an older queued one |
| `Traces.DrainAfterStopReachesReleasedPipeline` | kurento-hello-world/server.js:177-252 | in the model's interleaving where a `stop` falls between commit and drain, a later candidate is queued again and then drained onto the endpoint of a pipeline that is already released |
| `Traces.StopBeforeCommitIsForgotten` | kurento-hello-world/server.js:243-252 | a `stop` that arrives before the commit does nothing, so the later commit still registers the session and its pipeline is not released |
| `Traces.RunKeepsConsistent` | kurento-hello-world/server.js:80-252 | over any sequence of candidates, commits of freshly created pipelines and endpoints, drains and stops, every registered pipeline stays live and no two sessions share a pipeline or an endpoint |
| `Signalling.RouteKeepsConsistent` | kurento-hello-world/server.js:80-95 | routing a candidate keeps every registered pipeline live and keeps pipelines and endpoints unshared |
| `Signalling.DrainKeepsConsistent` | kurento-hello-world/server.js:180-185 | draining keeps every registered pipeline live and keeps pipelines and endpoints unshared |
| `HelloWorld.Server.constructor` | kurento-hello-world/server.js:60-61 | the server starts with both dictionaries empty, no candidate applied and no pipeline released |
| `HelloWorld.Server.AddIceCandidate` | kurento-hello-world/server.js:86 | the endpoint's log gets the candidate at its end; nothing else changes |
| `HelloWorld.Server.OnIceCandidate` | kurento-hello-world/server.js:80-95 | the fields end exactly as `RouteCandidate` says |
| `HelloWorld.Server.Commit` | kurento-hello-world/server.js:160-163 | the fields end exactly as `CommitSession` says |
| `HelloWorld.Server.Drain` | kurento-hello-world/server.js:180-185 | the shift loop ends with the fields exactly as `DrainQueue` says: the queue is emptied onto the endpoint in FIFO order |
| `HelloWorld.Server.Stop` | kurento-hello-world/server.js:243-252 | the fields end exactly as `StopSession` says |
| `HelloWorld.Server.HandleMessage` | kurento-hello-world/server.js:285-321 | the new fields and the reaction are exactly those of `Dispatch` |

## Left out

- HTTP, cookie and session middleware, static files, TLS key loading, argument parsing, the WebSocket server setup, `JSON.parse` and `JSON.stringify`: these are I/O plumbing. A session id is a parameter, and a message is the parsed object.
- The per-connection `sessionId` variable and the case where it is still `null`: the model takes the id the connection supplies.
- All kurento-client calls: `create('MediaPipeline')`, `create('WebRtcEndpoint')`, `processOffer`, `gatherCandidates`, `connect`, the `OnIceCandidate` event subscription and its relay of outbound candidates, and `IceCandidate` conversion. They are foreign code. Their only modelled effects are the endpoint logs and the released set. Pipeline and endpoint handles reach `Commit` as parameters.
- `makeClient`: it is an asynchronous connection helper that calls the library even when a client is cached.
- The failure paths of the negotiation chain and the `startResponse` and `error` replies of `start`: this is asynchronous promise control flow, and the code never performs its rollback. The model covers only the successful commit and drain events.
- The RtpEndpoint wiring with its fixed SDP offer (server.js:196-233): this is backend configuration.
- Logging.
- `Signalling.Dispatch`: the model does not cover a message whose `JSON.parse` throws, or one that lacks `sdpOffer` or `candidate`, because it takes the parsed fields as given.
- `Signalling.Dispatch`: the model does not cover a message that parses to something other than an object. A JSON string, number or array has no `id` and falls to the default branch. Its reply text is that value converted to a string, such as `Invalid message hi` or `Invalid message 1,2`, not `[object Object]`. A `null` message throws at `message.id` (server.js:281-285, 319). The model's `Message` is always an object.
