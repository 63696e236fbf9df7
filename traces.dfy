/** Interleavings of the server's callbacks.  Node runs one callback at a
    time, so a run of the server is modelled as a sequence of atomic
    events.  The commit (in the `processOffer` callback) and the drain (in
    the next `.then` of the negotiation chain) are separate events, and any
    event may come between them.  This may allow more interleavings than
    the promise library's scheduling produces; lemmas over all traces
    still hold for the ones it does produce. */
module Traces {
  import opened Signalling

  datatype Event =
    | IceCandidate(sid: SessionId, c: Candidate)
    | Committed(sid: SessionId, rec: SessionRecord)
    | Drained(sid: SessionId, ep: EndpointId)
    | Stopped(sid: SessionId)

  function Step(s: State, e: Event): State
  {
    match e
    case IceCandidate(sid, c) => RouteCandidate(s, sid, c)
    case Committed(sid, rec) => CommitSession(s, sid, rec)
    case Drained(sid, ep) => DrainQueue(s, sid, ep)
    case Stopped(sid) => StopSession(s, sid)
  }

  function Run(s: State, trace: seq<Event>): State
    decreases |trace|
  {
    if trace == [] then s else Run(Step(s, trace[0]), trace[1..])
  }

  /** The candidate event `e` carries for `sid`, if any. */
  function ReceivedBy(e: Event, sid: SessionId): seq<Candidate>
  {
    if e.IceCandidate? && e.sid == sid then [e.c] else []
  }

  /** The candidates the client of `sid` sent during `trace`, in order. */
  function Received(trace: seq<Event>, sid: SessionId): seq<Candidate>
    decreases |trace|
  {
    if trace == [] then [] else ReceivedBy(trace[0], sid) + Received(trace[1..], sid)
  }

  /** Running two traces one after the other is running their concatenation. */
  lemma {:induction false} RunAppend(s: State, t1: seq<Event>, t2: seq<Event>)
    ensures Run(s, t1 + t2) == Run(Run(s, t1), t2)
    decreases |t1|
  {
    if t1 != [] {
      assert (t1 + t2)[0] == t1[0];
      assert (t1 + t2)[1..] == t1[1..] + t2;
      RunAppend(Step(s, t1[0]), t1[1..], t2);
    } else {
      assert t1 + t2 == t2;
    }
  }

  /** `sid` is registered with endpoint `ep` or not at all, and no other
      session uses `ep`. */
  predicate Owns(s: State, sid: SessionId, ep: EndpointId)
  {
    && (sid in s.sessions ==> s.sessions[sid].webRtcEndpoint == ep)
    && forall id :: id in s.sessions && id != sid ==> s.sessions[id].webRtcEndpoint != ep
  }

  /** Event `e` keeps `ep` private to `sid`: a commit installs `ep` exactly
      when it is `sid`'s, a drain targets `ep` exactly when it is `sid`'s
      (the drain uses the endpoint of the same negotiation), and `sid` is
      not stopped. */
  predicate Confined(e: Event, sid: SessionId, ep: EndpointId)
  {
    match e
    case IceCandidate(_, _) => true
    case Committed(id, rec) => (id == sid) == (rec.webRtcEndpoint == ep)
    case Drained(id, target) => (id == sid) == (target == ep)
    case Stopped(id) => id != sid
  }

  /** A queue or log whose map changed only at another key reads the same. */
  lemma PendingElsewhere(q: map<SessionId, seq<Candidate>>, q': map<SessionId, seq<Candidate>>, id: SessionId, sid: SessionId)
    requires id != sid && q' - {id} == q - {id}
    ensures Pending(q', sid) == Pending(q, sid)
  {
    assert sid in q' <==> sid in q' - {id};
    assert sid in q <==> sid in q - {id};
  }

  lemma LogElsewhere(a: map<EndpointId, seq<Candidate>>, a': map<EndpointId, seq<Candidate>>, target: EndpointId, ep: EndpointId)
    requires target != ep && a' - {target} == a - {target}
    ensures Log(a', ep) == Log(a, ep)
  {
    assert ep in a' <==> ep in a' - {target};
    assert ep in a <==> ep in a - {target};
  }

  /** The amount conserved for `sid` and `ep`: queued plus applied. */
  function Held(s: State, sid: SessionId, ep: EndpointId): multiset<Candidate>
  {
    multiset(Pending(s.candidatesQueue, sid)) + multiset(Log(s.applied, ep))
  }

  /** Conservation for one candidate. */
  lemma RouteConserves(s: State, id: SessionId, c: Candidate, sid: SessionId, ep: EndpointId)
    requires Owns(s, sid, ep)
    ensures Owns(RouteCandidate(s, id, c), sid, ep)
    ensures Held(RouteCandidate(s, id, c), sid, ep) == Held(s, sid, ep) + multiset(ReceivedBy(IceCandidate(id, c), sid))
  {
    var t := RouteCandidate(s, id, c);
    if id in s.sessions {
      if id != sid {
        LogElsewhere(s.applied, t.applied, s.sessions[id].webRtcEndpoint, ep);
      }
    } else if id != sid {
      PendingElsewhere(s.candidatesQueue, t.candidatesQueue, id, sid);
    }
  }

  /** Conservation for one drain that targets `ep` exactly when it drains `sid`. */
  lemma DrainConserves(s: State, id: SessionId, target: EndpointId, sid: SessionId, ep: EndpointId)
    requires Owns(s, sid, ep) && (id == sid) == (target == ep)
    ensures Owns(DrainQueue(s, id, target), sid, ep)
    ensures Held(DrainQueue(s, id, target), sid, ep) == Held(s, sid, ep)
  {
    var t := DrainQueue(s, id, target);
    if id != sid {
      LogElsewhere(s.applied, t.applied, target, ep);
      PendingElsewhere(s.candidatesQueue, t.candidatesQueue, id, sid);
    }
  }

  /** Conservation for stopping another session. */
  lemma StopConserves(s: State, id: SessionId, sid: SessionId, ep: EndpointId)
    requires Owns(s, sid, ep) && id != sid
    ensures Owns(StopSession(s, id), sid, ep)
    ensures Held(StopSession(s, id), sid, ep) == Held(s, sid, ep)
  {
  }

  /** One step of the conservation argument. */
  lemma StepConserves(s: State, e: Event, sid: SessionId, ep: EndpointId)
    requires Owns(s, sid, ep) && Confined(e, sid, ep)
    ensures Owns(Step(s, e), sid, ep)
    ensures Held(Step(s, e), sid, ep) == Held(s, sid, ep) + multiset(ReceivedBy(e, sid))
  {
    match e
    case IceCandidate(id, c) => RouteConserves(s, id, c, sid, ep);
    case Committed(id, rec) =>
    case Drained(id, target) => DrainConserves(s, id, target, sid, ep);
    case Stopped(id) => StopConserves(s, id, sid, ep);
  }

  /** No candidate is lost or duplicated: across any interleaving of
      candidates, commits and drains that keeps `ep` private to `sid` and
      does not stop `sid`, every candidate received for `sid` is, exactly
      once, either still in `sid`'s queue or on `ep`. */
  lemma {:induction false} Conservation(s: State, trace: seq<Event>, sid: SessionId, ep: EndpointId)
    requires Owns(s, sid, ep)
    requires forall e :: e in trace ==> Confined(e, sid, ep)
    ensures Owns(Run(s, trace), sid, ep)
    ensures Held(Run(s, trace), sid, ep) == Held(s, sid, ep) + multiset(Received(trace, sid))
    decreases |trace|
  {
    if trace != [] {
      var e := trace[0];
      assert e in trace;
      StepConserves(s, e, sid, ep);
      assert forall x :: x in trace[1..] ==> x in trace;
      Conservation(Step(s, e), trace[1..], sid, ep);
    }
  }

  /** `e` acts on `sid`'s registration or queue other than by a candidate. */
  predicate Touches(e: Event, sid: SessionId)
  {
    match e
    case IceCandidate(_, _) => false
    case Committed(id, _) => id == sid
    case Drained(id, _) => id == sid
    case Stopped(id) => id == sid
  }

  /** One step of the FIFO argument. */
  lemma StepFifo(s: State, e: Event, sid: SessionId)
    requires sid !in s.sessions && !Touches(e, sid)
    ensures sid !in Step(s, e).sessions
    ensures Pending(Step(s, e).candidatesQueue, sid) == Pending(s.candidatesQueue, sid) + ReceivedBy(e, sid)
  {
  }

  /** The queue is FIFO: while `sid` is unregistered, its queue is what it
      held before followed by the candidates received, in arrival order. */
  lemma {:induction false} QueueIsFifo(s: State, trace: seq<Event>, sid: SessionId)
    requires sid !in s.sessions
    requires forall e :: e in trace ==> !Touches(e, sid)
    ensures sid !in Run(s, trace).sessions
    ensures Pending(Run(s, trace).candidatesQueue, sid) == Pending(s.candidatesQueue, sid) + Received(trace, sid)
    decreases |trace|
  {
    if trace != [] {
      var e := trace[0];
      assert e in trace;
      StepFifo(s, e, sid);
      assert forall x :: x in trace[1..] ==> x in trace;
      QueueIsFifo(Step(s, e), trace[1..], sid);
      var p, r1, r2 := Pending(s.candidatesQueue, sid), ReceivedBy(e, sid), Received(trace[1..], sid);
      assert Received(trace, sid) == r1 + r2;
      assert (p + r1) + r2 == p + (r1 + r2);
    }
  }

  /** A commit followed by the drain into the committed endpoint. */
  lemma CommitThenDrain(b: State, sid: SessionId, rec: SessionRecord)
    ensures var after := Run(b, [Committed(sid, rec), Drained(sid, rec.webRtcEndpoint)]);
      && Log(after.applied, rec.webRtcEndpoint)
           == Log(b.applied, rec.webRtcEndpoint) + Pending(b.candidatesQueue, sid)
      && Pending(after.candidatesQueue, sid) == []
      && (sid in after.candidatesQueue <==> sid in b.candidatesQueue)
      && sid in after.sessions && after.sessions[sid] == rec
  {
    var committed := CommitSession(b, sid, rec);
    var e1, e2 := Committed(sid, rec), Drained(sid, rec.webRtcEndpoint);
    assert [e1, e2][1..] == [e2] && [e2][1..] == [];
    calc {
      Run(b, [e1, e2]);
      Run(committed, [e2]);
      Run(DrainQueue(committed, sid, rec.webRtcEndpoint), []);
    }
  }

  /** Candidates that arrive before the session exists reach its endpoint
      after the commit and the drain, in arrival order, behind whatever the
      endpoint already had; the queue is then empty but still present. */
  lemma EarlyCandidatesDrainInOrder(s: State, trace: seq<Event>, sid: SessionId, rec: SessionRecord)
    requires sid !in s.sessions
    requires forall e :: e in trace ==> !Touches(e, sid)
    ensures var before := Run(s, trace);
      var after := Run(s, trace + [Committed(sid, rec), Drained(sid, rec.webRtcEndpoint)]);
      && Log(after.applied, rec.webRtcEndpoint)
           == Log(before.applied, rec.webRtcEndpoint) + Pending(s.candidatesQueue, sid) + Received(trace, sid)
      && Pending(after.candidatesQueue, sid) == []
      && (sid in after.candidatesQueue <==> sid in before.candidatesQueue)
      && sid in after.sessions && after.sessions[sid] == rec
  {
    QueueIsFifo(s, trace, sid);
    var before := Run(s, trace);
    var tail := [Committed(sid, rec), Drained(sid, rec.webRtcEndpoint)];
    RunAppend(s, trace, tail);
    assert Run(s, trace + tail) == Run(before, tail);
    CommitThenDrain(before, sid, rec);
    var l, p, r := Log(before.applied, rec.webRtcEndpoint), Pending(s.candidatesQueue, sid), Received(trace, sid);
    assert l + (p + r) == l + p + r;
  }

  /** Global arrival order is not preserved: a candidate that arrives
      between the commit and the drain is applied before older queued ones. */
  lemma ArrivalOrderNotPreserved(sid: SessionId, rec: SessionRecord, c1: Candidate, c2: Candidate)
    requires c1 != c2
    ensures Log(Run(Initial, [IceCandidate(sid, c1), Committed(sid, rec),
                              IceCandidate(sid, c2), Drained(sid, rec.webRtcEndpoint)]).applied,
                rec.webRtcEndpoint)
         == [c2, c1]
  {
    var ep := rec.webRtcEndpoint;
    var s1 := RouteCandidate(Initial, sid, c1);
    var s2 := CommitSession(s1, sid, rec);
    var s3 := RouteCandidate(s2, sid, c2);
    assert s3.candidatesQueue[sid] == [c1];
    var s4 := DrainQueue(s3, sid, ep);
    assert Log(s4.applied, ep) == [c2, c1];
    var e1, e2, e3, e4 := IceCandidate(sid, c1), Committed(sid, rec), IceCandidate(sid, c2), Drained(sid, ep);
    assert [e1, e2, e3, e4][1..] == [e2, e3, e4] && [e2, e3, e4][1..] == [e3, e4];
    assert [e3, e4][1..] == [e4] && [e4][1..] == [];
    calc {
      Run(Initial, [e1, e2, e3, e4]);
      Run(s1, [e2, e3, e4]);
      Run(s2, [e3, e4]);
      Run(s3, [e4]);
      Run(s4, []);
    }
  }

  /** A `stop` between the commit and the drain: a candidate sent after the
      stop is queued again, and the drain then gives it to the endpoint of
      the pipeline that was already released. */
  lemma DrainAfterStopReachesReleasedPipeline(sid: SessionId, rec: SessionRecord, c: Candidate)
    ensures var t := Run(Initial, [Committed(sid, rec), Stopped(sid),
                                   IceCandidate(sid, c), Drained(sid, rec.webRtcEndpoint)]);
      && rec.pipeline in t.released
      && sid !in t.sessions
      && Log(t.applied, rec.webRtcEndpoint) == [c]
  {
    var ep := rec.webRtcEndpoint;
    var s1 := CommitSession(Initial, sid, rec);
    var s2 := StopSession(s1, sid);
    assert s2.sessions == map[] && s2.candidatesQueue == map[];
    var s3 := RouteCandidate(s2, sid, c);
    var s4 := DrainQueue(s3, sid, ep);
    var e1, e2, e3, e4 := Committed(sid, rec), Stopped(sid), IceCandidate(sid, c), Drained(sid, ep);
    assert [e1, e2, e3, e4][1..] == [e2, e3, e4] && [e2, e3, e4][1..] == [e3, e4];
    assert [e3, e4][1..] == [e4] && [e4][1..] == [];
    calc {
      Run(Initial, [e1, e2, e3, e4]);
      Run(s1, [e2, e3, e4]);
      Run(s2, [e3, e4]);
      Run(s3, [e4]);
      Run(s4, []);
    }
  }

  /** A `stop` that arrives before the negotiation's commit is not
      remembered: it finds no record and does nothing, so the commit
      registers the session anyway and its pipeline stays live. */
  lemma StopBeforeCommitIsForgotten(sid: SessionId, rec: SessionRecord)
    ensures var t := Run(Initial, [Stopped(sid), Committed(sid, rec)]);
      && sid in t.sessions && t.sessions[sid] == rec
      && rec.pipeline !in t.released
  {
    var e1, e2 := Stopped(sid), Committed(sid, rec);
    assert [e1, e2][1..] == [e2] && [e2][1..] == [];
    calc {
      Run(Initial, [e1, e2]);
      Run(Initial, [e2]);
      Run(CommitSession(Initial, sid, rec), []);
    }
  }

  /** Every commit in `trace` installs a record that is fresh in the state
      reached just before it. */
  predicate FreshCommits(s: State, trace: seq<Event>)
    decreases |trace|
  {
    trace == [] ||
    ((trace[0].Committed? ==> FreshFor(s, trace[0].sid, trace[0].rec))
     && FreshCommits(Step(s, trace[0]), trace[1..]))
  }

  /** Registry consistency holds across every run whose commits use the
      freshly created pipelines and endpoints. */
  lemma {:induction false} RunKeepsConsistent(s: State, trace: seq<Event>)
    requires Consistent(s) && FreshCommits(s, trace)
    ensures Consistent(Run(s, trace))
    decreases |trace|
  {
    if trace != [] {
      var e := trace[0];
      match e {
        case IceCandidate(sid, c) => RouteKeepsConsistent(s, sid, c);
        case Committed(sid, rec) => CommitKeepsConsistent(s, sid, rec);
        case Drained(sid, ep) => DrainKeepsConsistent(s, sid, ep);
        case Stopped(sid) => StopKeepsConsistent(s, sid);
      }
      RunKeepsConsistent(Step(s, e), trace[1..]);
    }
  }
}
