/** The process-wide signalling state of the Kurento hello-world server
    (the `sessions` and `candidatesQueue` dictionaries) and the atomic
    steps that act on it, as pure functions over values.  The class in
    server.dfy updates the same state in place and is proved against
    these functions. */
module Signalling {

  /** Session identifier issued by the HTTP session middleware. */
  type SessionId = string

  /** Opaque handles to objects living in the media server. */
  type PipelineId = nat
  type EndpointId = nat

  /** An ICE candidate as the client sends it; passed through opaquely. */
  datatype Candidate = Candidate(candidate: string, sdpMid: string, sdpMLineIndex: int)

  /** The value stored in `sessions[sessionId]`. */
  datatype SessionRecord = SessionRecord(pipeline: PipelineId, webRtcEndpoint: EndpointId)

  /** Everything the core can change.  `applied` is the visible effect of
      `webRtcEndpoint.addIceCandidate` (the candidates each endpoint has
      received, in order) and `released` that of `pipeline.release()`. */
  datatype State = State(
    sessions: map<SessionId, SessionRecord>,
    candidatesQueue: map<SessionId, seq<Candidate>>,
    applied: map<EndpointId, seq<Candidate>>,
    released: set<PipelineId>)

  /** The state at process start: both dictionaries empty. */
  const Initial := State(map[], map[], map[], {})

  /** The candidates queued for `sid`; an absent key reads as no candidates. */
  function Pending(q: map<SessionId, seq<Candidate>>, sid: SessionId): seq<Candidate>
  {
    if sid in q then q[sid] else []
  }

  /** The candidates endpoint `ep` has been given so far. */
  function Log(applied: map<EndpointId, seq<Candidate>>, ep: EndpointId): seq<Candidate>
  {
    if ep in applied then applied[ep] else []
  }

  /** `ep.addIceCandidate(c)`: the endpoint's log grows by `c`; no other log changes. */
  function Apply(applied: map<EndpointId, seq<Candidate>>, ep: EndpointId, c: Candidate)
    : (r: map<EndpointId, seq<Candidate>>)
    ensures ep in r && Log(r, ep) == Log(applied, ep) + [c]
    ensures r - {ep} == applied - {ep}
  {
    applied[ep := Log(applied, ep) + [c]]
  }

  /** Candidates `cs`, applied one after another to `ep`. */
  function ApplyAll(applied: map<EndpointId, seq<Candidate>>, ep: EndpointId, cs: seq<Candidate>)
    : (r: map<EndpointId, seq<Candidate>>)
    ensures Log(r, ep) == Log(applied, ep) + cs
    ensures r - {ep} == applied - {ep}
    ensures cs == [] ==> r == applied
    ensures cs != [] ==> ep in r
    decreases |cs|
  {
    if cs == [] then applied
    else ApplyAll(Apply(applied, ep, cs[0]), ep, cs[1..])
  }

  /** `onIceCandidate(sessionId, candidate)`: a registered session gets the
      candidate on its endpoint at once; otherwise the candidate is put at
      the end of the session's queue, which is created when missing. */
  function RouteCandidate(s: State, sid: SessionId, c: Candidate): (t: State)
    ensures t.sessions == s.sessions && t.released == s.released
    ensures sid in s.sessions ==>
      var ep := s.sessions[sid].webRtcEndpoint;
      && t.candidatesQueue == s.candidatesQueue
      && Log(t.applied, ep) == Log(s.applied, ep) + [c]
      && t.applied - {ep} == s.applied - {ep}
    ensures sid !in s.sessions ==>
      && t.applied == s.applied
      && sid in t.candidatesQueue
      && t.candidatesQueue[sid] == Pending(s.candidatesQueue, sid) + [c]
      && t.candidatesQueue - {sid} == s.candidatesQueue - {sid}
  {
    if sid in s.sessions then
      s.(applied := Apply(s.applied, s.sessions[sid].webRtcEndpoint, c))
    else
      s.(candidatesQueue := s.candidatesQueue[sid := Pending(s.candidatesQueue, sid) + [c]])
  }

  /** The commit in the `processOffer` callback: the session record of this
      negotiation is installed, replacing any earlier one. */
  function CommitSession(s: State, sid: SessionId, rec: SessionRecord): (t: State)
    ensures sid in t.sessions && t.sessions[sid] == rec
    ensures t.sessions - {sid} == s.sessions - {sid}
    ensures t.candidatesQueue == s.candidatesQueue
    ensures t.applied == s.applied && t.released == s.released
  {
    s.(sessions := s.sessions[sid := rec])
  }

  /** The drain loop of `start`: when a queue exists for `sid`, its
      candidates are given to `ep` in the order they were queued and the
      queue is left empty under its key.  With no queue nothing happens. */
  function DrainQueue(s: State, sid: SessionId, ep: EndpointId): (t: State)
    ensures Log(t.applied, ep) == Log(s.applied, ep) + Pending(s.candidatesQueue, sid)
    ensures t.applied - {ep} == s.applied - {ep}
    ensures sid in t.candidatesQueue <==> sid in s.candidatesQueue
    ensures sid in t.candidatesQueue ==> t.candidatesQueue[sid] == []
    ensures t.candidatesQueue - {sid} == s.candidatesQueue - {sid}
    ensures t.sessions == s.sessions && t.released == s.released
    ensures Pending(s.candidatesQueue, sid) == [] ==> t == s
  {
    if sid in s.candidatesQueue then
      s.(applied := ApplyAll(s.applied, ep, s.candidatesQueue[sid]),
         candidatesQueue := s.candidatesQueue[sid := []])
    else
      s
  }

  /** `stop(sessionId)`: for a registered session its pipeline is released
      and both dictionary entries are deleted; an unregistered id changes
      nothing, not even a queue it may hold. */
  function StopSession(s: State, sid: SessionId): (t: State)
    ensures sid !in s.sessions ==> t == s
    ensures sid in s.sessions ==>
      && t.released == s.released + {s.sessions[sid].pipeline}
      && sid !in t.sessions && t.sessions - {sid} == s.sessions - {sid}
      && sid !in t.candidatesQueue && t.candidatesQueue - {sid} == s.candidatesQueue - {sid}
      && t.applied == s.applied
  {
    if sid in s.sessions then
      State(s.sessions - {sid}, s.candidatesQueue - {sid}, s.applied,
            s.released + {s.sessions[sid].pipeline})
    else
      s
  }

  /** An inbound WebSocket message after `JSON.parse`. */
  datatype Message = Message(id: string, sdpOffer: string, candidate: Candidate)

  /** What the message handler does besides changing the state: nothing,
      begin the asynchronous negotiation chain of `start`, or send an
      `error` message. */
  datatype Reaction = NoReply | BeginNegotiation(sdpOffer: string) | SendError(message: string)

  /** The server concatenates the parsed message object to a string, which
      JavaScript renders as "[object Object]". */
  const InvalidMessage := "Invalid message [object Object]"

  /** The `switch (message.id)` of the WebSocket `message` handler. */
  function Dispatch(s: State, sid: SessionId, m: Message): (r: (State, Reaction))
    ensures m.id == "start" ==> r == (s, BeginNegotiation(m.sdpOffer))
    ensures m.id == "stop" ==> r == (StopSession(s, sid), NoReply)
    ensures m.id == "onIceCandidate" ==> r == (RouteCandidate(s, sid, m.candidate), NoReply)
    ensures m.id != "start" && m.id != "stop" && m.id != "onIceCandidate" ==>
      r == (s, SendError(InvalidMessage))
  {
    match m.id
    case "start" => (s, BeginNegotiation(m.sdpOffer))
    case "stop" => (StopSession(s, sid), NoReply)
    case "onIceCandidate" => (RouteCandidate(s, sid, m.candidate), NoReply)
    case _ => (s, SendError(InvalidMessage))
  }

  /** Draining is idempotent: once drained, a second drain of the same id,
      into any endpoint, applies nothing and changes nothing. */
  lemma DrainIdempotent(s: State, sid: SessionId, ep: EndpointId, ep': EndpointId)
    ensures DrainQueue(DrainQueue(s, sid, ep), sid, ep') == DrainQueue(s, sid, ep)
  {
  }

  /** Handling a message for `sid` never touches another session: other
      ids keep their records and queues, and only `sid`'s own endpoint can
      receive a candidate. */
  lemma DispatchIsScoped(s: State, sid: SessionId, m: Message)
    ensures Dispatch(s, sid, m).0.sessions - {sid} == s.sessions - {sid}
    ensures Dispatch(s, sid, m).0.candidatesQueue - {sid} == s.candidatesQueue - {sid}
    ensures forall ep :: (sid !in s.sessions || ep != s.sessions[sid].webRtcEndpoint) ==>
      Log(Dispatch(s, sid, m).0.applied, ep) == Log(s.applied, ep)
  {
  }

  /** Session-record consistency: every registered pipeline is live, and no
      two sessions share a pipeline or an endpoint. */
  predicate Consistent(s: State)
  {
    && (forall id :: id in s.sessions ==> s.sessions[id].pipeline !in s.released)
    && (forall a, b :: a in s.sessions && b in s.sessions && a != b ==>
          s.sessions[a].pipeline != s.sessions[b].pipeline &&
          s.sessions[a].webRtcEndpoint != s.sessions[b].webRtcEndpoint)
  }

  /** A record is fresh for `sid` when the media server has just created its
      pipeline and endpoint: not released, and not used by another session. */
  predicate FreshFor(s: State, sid: SessionId, rec: SessionRecord)
  {
    && rec.pipeline !in s.released
    && forall id :: id in s.sessions && id != sid ==>
         s.sessions[id].pipeline != rec.pipeline && s.sessions[id].webRtcEndpoint != rec.webRtcEndpoint
  }

  /** Stopping keeps the state consistent. */
  lemma StopKeepsConsistent(s: State, sid: SessionId)
    requires Consistent(s)
    ensures Consistent(StopSession(s, sid))
  {
  }

  /** Routing a candidate keeps the state consistent. */
  lemma RouteKeepsConsistent(s: State, sid: SessionId, c: Candidate)
    requires Consistent(s)
    ensures Consistent(RouteCandidate(s, sid, c))
  {
  }

  /** Draining keeps the state consistent. */
  lemma DrainKeepsConsistent(s: State, sid: SessionId, ep: EndpointId)
    requires Consistent(s)
    ensures Consistent(DrainQueue(s, sid, ep))
  {
  }

  /** Committing a fresh record keeps the state consistent. */
  lemma CommitKeepsConsistent(s: State, sid: SessionId, rec: SessionRecord)
    requires Consistent(s) && FreshFor(s, sid, rec)
    ensures Consistent(CommitSession(s, sid, rec))
  {
  }

  /** A second successful negotiation for a registered id replaces its
      record without releasing the earlier pipeline: afterwards that
      pipeline is neither released nor referenced by any session, and a
      later `stop` does not release it either (a resource leak). */
  lemma RecommitLeaksPipeline(s: State, sid: SessionId, rec: SessionRecord)
    requires Consistent(s) && sid in s.sessions
    requires rec.pipeline != s.sessions[sid].pipeline
    ensures var prior := s.sessions[sid].pipeline;
      var t := CommitSession(s, sid, rec);
      && prior !in t.released
      && (forall id :: id in t.sessions ==> t.sessions[id].pipeline != prior)
      && prior !in StopSession(t, sid).released
  {
  }
}
