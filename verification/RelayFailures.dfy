/** What failures become on the other side: how the connector answers when it cannot serve a
    request, what the cloud's caller is told, and why a request is not sent. */
module RelayFailures {
  import opened Common
  import opened RelayFrames
  import opened RelaySession
  import opened RelayChunks
  import opened Connector
  import opened CloudExchange
  import opened RelayProgress

  /** The code of each upstream failure, and the fixed message that tells nothing else. */
  lemma FailureCodes(id: Uuid, error: ProxyError)
    ensures OutcomeFrames(id, Failure(error)) ==
              [Control(RequestFailed(
                 id,
                 match error
                   case InvalidRequest => FailureCode.Protocol
                   case Unavailable => FailureCode.BadGateway
                   case ResponseTooLarge => FailureCode.BadGateway
                   case TimedOut => FailureCode.Timeout,
                 "local C6 request failed"))]
  {
  }

  /** What the caller of an exchange is told about it: a timeout exactly for a timeout, and otherwise
      only that the request failed. */
  lemma FailureReachesCaller(id: Uuid, w: Receiving, error: ProxyError)
    requires w.session.handshake == Ready && id in w.session.flows
    ensures var frames := OutcomeFrames(id, Failure(error));
            |frames| == 1
            && OnMessage(id, w, Message(frames[0]))
                 == Fault(if error == TimedOut then LocalTimeout else ExchangeError.LocalFailure)
  {
    TextAllowed(Refusal.LocalFailure);
    FailureAccepted(w.session, id, FailureCodeOf(error), Text(Refusal.LocalFailure));
    SingleFrame(w.session, OutcomeFrames(id, Failure(error))[0]);
  }

  /** Everything else that ends an exchange, by what was read: bytes that do not decode, a socket
      that is gone, a control frame the observer refuses or one that is not for this request, a chunk
      that is not of this response or that the observer refuses. */
  lemma ExchangeEndsFor(id: Uuid, w: Receiving, m: Incoming)
    ensures m == Undecodable ==> OnMessage(id, w, m) == Fault(MalformedFrame)
    ensures m == Gone ==> OnMessage(id, w, m) == Fault(Disconnected)
    ensures m.Message? && m.frame.Control? && !Accepts(w.session, m.frame) ==>
              OnMessage(id, w, m) == Fault(ProtocolViolation)
    ensures m.Message? && m.frame.Control? && Accepts(w.session, m.frame) && Stranger(id, m.frame.control) ==>
              OnMessage(id, w, m) == Fault(WrongRequest)
    ensures m.Message? && m.frame.Body? && (m.frame.body.kind == RequestChunk || m.frame.body.id != id) ==>
              OnMessage(id, w, m) == Fault(WrongBody)
    ensures m.Message? && m.frame.Body? && m.frame.body.kind == ResponseChunk && m.frame.body.id == id
            && !Accepts(w.session, m.frame) ==>
              OnMessage(id, w, m) == Fault(BodyViolation)
  {
  }

  /** A control frame that is neither a keepalive nor about this request's response. */
  predicate Stranger(id: Uuid, f: ControlFrame) {
    if f.ResponseStart? || f.ResponseEnd? || f.RequestFailed? then f.id != id else !f.Ping? && !f.Pong?
  }

  /** What the connector answers to a whole request it does not serve, and when it serves it. */
  lemma RequestIsServedIff(c: ConnectorState, id: Uuid, now: nat, maxInFlight: nat)
    requires TablesAgree(c, maxInFlight) && id in c.pending
    ensures var r := Connector.OnControl(c, RequestEnd(id), now, maxInFlight);
            && r.verdict == Continue
            && (id in r.state.spawned <==> !c.pending[id].rejected && now < c.pending[id].deadline)
            && (c.pending[id].rejected ==>
                  r.sent == [Control(RequestFailed(id, FailureCode.BadGateway, "connector concurrency limit reached"))])
            && (!c.pending[id].rejected && now >= c.pending[id].deadline ==>
                  r.sent == [Control(RequestFailed(id, FailureCode.Timeout, "request deadline expired"))])
            && (id in r.state.spawned ==> r.sent == [])
  {
    assert id !in c.cancelled && id !in c.spawned;
    EndEffect(c, id, now, maxInFlight);
    assert ControlStep(c.session, RequestEnd(id)).error.None?;
  }

  /** A start is turned away exactly when `maxInFlight` requests are waiting or being served. */
  lemma StartIsAdmittedIff(c: ConnectorState, f: ControlFrame, now: nat, maxInFlight: nat)
    requires TablesAgree(c, maxInFlight) && f.RequestStart? && Accepts(c.session, Control(f))
    ensures var r := Connector.OnControl(c, f, now, maxInFlight);
            && r.verdict == Continue && r.sent == [] && f.id in r.state.pending
            && (r.state.pending[f.id].rejected <==> |c.pending| + |c.active| >= maxInFlight)
            && r.state.pending[f.id].deadline == f.deadline
  {
    StartEffect(c, f, now, maxInFlight);
  }

  /** A ping is answered with its own nonce and changes nothing. */
  lemma PingIsAnswered(c: ConnectorState, nonce: u64, now: nat, maxInFlight: nat)
    requires TablesAgree(c, maxInFlight)
    ensures Connector.OnControl(c, Ping(nonce), now, maxInFlight) == Reaction(c, [Control(Pong(nonce))], Continue)
  {
    SingleFrame(c.session, Control(Pong(nonce)));
    SendAccepted(c, [Control(Pong(nonce))]);
  }

  /** Why a quiet session does not send a request: its head, its identifier or the used-up budget
      before anything else, and then a body over 16 MiB. */
  lemma RequestFailsFor(s: Session, id: Uuid, ex: Exchange, deadline: u64)
    requires SessionInv(s) && Quiet(s) && IsHttpMethod(ex.verb)
    ensures SendError(s, RequestFrames(id, ex, deadline)) ==
              if RequestStartError(RequestStart(id, ex.verb, ex.target, ex.headers, deadline)) != None
                 || id in s.seen || |s.seen| >= 4_096 then Some(StateRejected)
              else if |ex.body| > 16_777_216 then Some(BodyRejected)
              else None
  {
    var frames := RequestFrames(id, ex, deadline);
    var start := Control(RequestStart(id, ex.verb, ex.target, ex.headers, deadline));
    assert frames[..1] == [start];
    SingleFrame(s, start);
    StartAcceptedIff(s, start.control);
    PrefixAccepted(s, frames, 1, |frames|);
    if |ex.body| <= 16_777_216 {
      RequestAcceptedIff(s, id, ex, deadline);
    } else {
      BodyTooLong(s, id, ex, deadline);
    }
  }

  /** A body over the limit is refused before the request's end. */
  lemma BodyTooLong(s: Session, id: Uuid, ex: Exchange, deadline: u64)
    requires SessionInv(s) && Quiet(s) && IsHttpMethod(ex.verb) && |ex.body| > 16_777_216
    ensures var frames := RequestFrames(id, ex, deadline);
            !Accepted(s, frames[..|frames| - 1]) && !Accepted(s, frames)
  {
    var frames := RequestFrames(id, ex, deadline);
    var start := Control(RequestStart(id, ex.verb, ex.target, ex.headers, deadline));
    var chunks := ChunkFrames(RequestChunk, id, ex.body);
    assert frames[..|frames| - 1] == [start] + chunks;
    RunAppend(s, [start], chunks);
    SingleFrame(s, start);
    RequestStartEffect(s, id, ex, deadline);
    if Accepts(s, start) {
      ChunkAndReassemble(After(s, start), RequestChunk, id, ex.body);
    }
    PrefixAccepted(s, frames, |frames| - 1, |frames|);
  }

  /** A method that HTTP proxying does not allow never reaches the wire. */
  lemma BadMethodIsNotSent(s: Session, id: Uuid, ex: Exchange, now: int, inbox: seq<Incoming>, at: nat)
    requires at <= |inbox|
    ensures ex.verb !in {"GET", "HEAD", "POST", "PUT", "PATCH", "DELETE", "OPTIONS"}
            <==> Execute(s, id, ex, now, inbox, at) == Exchanged.Failed(InvalidMethod)
  {
    if IsHttpMethod(ex.verb) {
      var frames := RequestFrames(id, ex, Deadline(now));
      if Accepted(s, frames) {
        ReceivingKnowsNoMethod(id, Receiving(Run(s, frames), None, [], []), frames, inbox, at);
      }
    }
  }

  lemma {:induction false} ReceivingKnowsNoMethod(id: Uuid, w: Receiving, sent: seq<Frame>, inbox: seq<Incoming>,
                                                  i: nat)
    requires i <= |inbox|
    ensures Receive(id, w, sent, inbox, i) != Exchanged.Failed(InvalidMethod)
    decreases |inbox| - i
  {
    if i == |inbox| {
    } else {
      var r := OnMessage(id, w, inbox[i]);
      if r.More? {
        ReceivingKnowsNoMethod(id, r.state, sent + r.reply, inbox, i + 1);
      }
    }
  }
}
