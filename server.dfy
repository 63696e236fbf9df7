/** The hello-world server's module-level state, updated in place by its
    callbacks.  Each method is one callback (or one synchronous part of
    one) and is proved to take the state exactly where the corresponding
    function of module Signalling takes its value. */
module HelloWorld {
  import opened Signalling

  class Server {
    /** `var sessions = {}`: session id to pipeline and endpoint. */
    var sessions: map<SessionId, SessionRecord>
    /** `var candidatesQueue = {}`: session id to candidates not yet applied. */
    var candidatesQueue: map<SessionId, seq<Candidate>>
    /** What each endpoint has been given by `addIceCandidate`. */
    var applied: map<EndpointId, seq<Candidate>>
    /** The pipelines `release()` has been called on. */
    var released: set<PipelineId>

    /** The fields viewed as one value. */
    function Snapshot(): State
      reads this
    {
      State(sessions, candidatesQueue, applied, released)
    }

    constructor ()
      ensures Snapshot() == Initial
    {
      sessions, candidatesQueue, applied, released := map[], map[], map[], {};
    }

    /** `webRtcEndpoint.addIceCandidate(candidate)`. */
    method AddIceCandidate(endpoint: EndpointId, candidate: Candidate)
      modifies this
      ensures Snapshot() == old(Snapshot()).(applied := Apply(old(applied), endpoint, candidate))
    {
      applied := applied[endpoint := Log(applied, endpoint) + [candidate]];
    }

    /** `onIceCandidate(sessionId, candidate)`. */
    method OnIceCandidate(sessionId: SessionId, candidate: Candidate)
      modifies this
      ensures Snapshot() == RouteCandidate(old(Snapshot()), sessionId, candidate)
    {
      if sessionId in sessions {
        var webRtcEndpoint := sessions[sessionId].webRtcEndpoint;
        AddIceCandidate(webRtcEndpoint, candidate);
      } else {
        if sessionId !in candidatesQueue {
          candidatesQueue := candidatesQueue[sessionId := []];
        }
        candidatesQueue := candidatesQueue[sessionId := candidatesQueue[sessionId] + [candidate]];
      }
    }

    /** The success branch of the `processOffer` callback. */
    method Commit(sessionId: SessionId, pipeline: PipelineId, webRtcEndpoint: EndpointId)
      modifies this
      ensures Snapshot() == CommitSession(old(Snapshot()), sessionId, SessionRecord(pipeline, webRtcEndpoint))
    {
      sessions := sessions[sessionId := SessionRecord(pipeline, webRtcEndpoint)];
    }

    /** The drain at the head of the `.then` that follows the commit: it
        shifts candidates off the session's queue until the queue is empty,
        handing each to the endpoint of the same negotiation. */
    method Drain(sessionId: SessionId, webRtcEndpoint: EndpointId)
      modifies this
      ensures Snapshot() == DrainQueue(old(Snapshot()), sessionId, webRtcEndpoint)
    {
      if sessionId in candidatesQueue {
        while |candidatesQueue[sessionId]| > 0
          invariant sessionId in candidatesQueue
          invariant candidatesQueue == old(candidatesQueue)[sessionId := candidatesQueue[sessionId]]
          invariant ApplyAll(applied, webRtcEndpoint, candidatesQueue[sessionId])
                 == ApplyAll(old(applied), webRtcEndpoint, old(candidatesQueue)[sessionId])
          invariant sessions == old(sessions) && released == old(released)
          decreases |candidatesQueue[sessionId]|
        {
          var candidate := candidatesQueue[sessionId][0];
          candidatesQueue := candidatesQueue[sessionId := candidatesQueue[sessionId][1..]];
          AddIceCandidate(webRtcEndpoint, candidate);
        }
      }
    }

    /** `stop(sessionId)`, also run when the WebSocket closes or fails. */
    method Stop(sessionId: SessionId)
      modifies this
      ensures Snapshot() == StopSession(old(Snapshot()), sessionId)
    {
      if sessionId in sessions {
        var pipeline := sessions[sessionId].pipeline;
        released := released + {pipeline};
        sessions := sessions - {sessionId};
        candidatesQueue := candidatesQueue - {sessionId};
      }
    }

    /** The WebSocket `message` handler's `switch` on the message id. */
    method HandleMessage(sessionId: SessionId, message: Message) returns (reaction: Reaction)
      modifies this
      ensures (Snapshot(), reaction) == Dispatch(old(Snapshot()), sessionId, message)
    {
      match message.id
      case "start" =>
        reaction := BeginNegotiation(message.sdpOffer);
      case "stop" =>
        Stop(sessionId);
        reaction := NoReply;
      case "onIceCandidate" =>
        OnIceCandidate(sessionId, message.candidate);
        reaction := NoReply;
      case _ =>
        reaction := SendError(InvalidMessage);
    }
  }
}
