/** The cloud session as the object it is: one socket and one session state, an exchange at a
    time (crates/c6-cloud/src/lib.rs:1323-1490).  `inbox` is everything the socket will yield over
    the life of the session, and `next` is how far it has been read. */
module CloudSession {
  import opened Common
  import opened RelayFrames
  import opened RelaySession
  import opened RelayChunks
  import opened CloudExchange

  class CloudRelay {
    const state: RelaySessionState
    const inbox: seq<Incoming>
    var next: nat
    /** Everything written to the socket so far. */
    var sent: seq<Frame>

    constructor (state: RelaySessionState, inbox: seq<Incoming>)
      ensures this.state == state && this.inbox == inbox && next == 0 && sent == []
    {
      this.state := state;
      this.inbox := inbox;
      next := 0;
      sent := [];
    }

    /** `send_control`, and the observe-then-send of a chunk. */
    method SendObserved(f: Frame) returns (ok: bool)
      requires state.Valid()
      modifies this`sent, state
      ensures state.Valid()
      ensures ok <==> Accepts(old(state.View()), f)
      ensures state.View() == After(old(state.View()), f)
      ensures sent == old(sent) + if ok then [f] else []
    {
      var error: Option<ValidationError>;
      match f {
        case Control(control) => error := state.ObserveControl(control);
        case Body(body) => error := state.ObserveBody(body);
      }
      ok := error.None?;
      if ok {
        sent := sent + [f];
      }
    }

    /** Send frame number `i` of a planned list, everything before it having been accepted. */
    method SendNext(f: Frame, ghost s: Session, ghost frames: seq<Frame>, ghost i: nat) returns (ok: bool)
      requires state.Valid() && i < |frames| && frames[i] == f
      requires Reached(s, frames, i, state.View())
      modifies this`sent, state
      ensures state.Valid()
      ensures ok <==> Accepted(s, frames[..i + 1])
      ensures ok ==> Reached(s, frames, i + 1, state.View()) && sent == old(sent) + [f]
    {
      Advance(s, frames, i);
      ok := SendObserved(f);
    }

    /** The loop over the chunks of the request body. */
    method SendChunks(id: Uuid, ex: Exchange, deadline: u64, ghost s: Session) returns (ok: bool)
      requires state.Valid() && IsHttpMethod(ex.verb)
      requires Reached(s, RequestFrames(id, ex, deadline), 1, state.View())
      modifies this`sent, state
      ensures state.Valid()
      ensures ok ==> Written(s, RequestFrames(id, ex, deadline), |Chunks(ex.body)| + 1, state.View(), old(sent), sent)
      ensures !ok ==> Rejected(s, RequestFrames(id, ex, deadline), |Chunks(ex.body)| + 1)
    {
      ghost var frames := RequestFrames(id, ex, deadline);
      var chunks := Chunks(ex.body);
      WrittenStart(s, frames, state.View(), sent);
      ok := true;
      for i := 0 to |chunks|
        invariant state.Valid() && ok
        invariant Written(s, frames, i + 1, state.View(), old(sent), sent)
      {
        RequestFrameAt(id, ex, deadline, i);
        ok := SendChunk(ChunkFrame(RequestChunk, id, i, chunks[i]), s, frames, i + 1, |chunks| + 1, old(sent));
        if !ok {
          return;
        }
      }
    }

    method SendChunk(f: Frame, ghost s: Session, ghost frames: seq<Frame>, ghost i: nat, ghost n: nat,
                     ghost before: seq<Frame>)
      returns (ok: bool)
      requires state.Valid() && i < n <= |frames| && frames[i] == f
      requires Written(s, frames, i, state.View(), before, sent)
      modifies this`sent, state
      ensures state.Valid()
      ensures if ok then Written(s, frames, i + 1, state.View(), before, sent) else Rejected(s, frames, n)
    {
      ok := SendNext(f, s, frames, i);
      if ok {
        OneMore(before, frames, i);
      } else {
        PrefixAccepted(s, frames, i + 1, n);
      }
    }

    /** Start, every chunk, end; the error says which half of the sending failed. */
    method SendRequest(id: Uuid, ex: Exchange, deadline: u64) returns (error: Option<ExchangeError>)
      requires state.Valid() && IsHttpMethod(ex.verb)
      modifies this`sent, state
      ensures state.Valid()
      ensures error == SendError(old(state.View()), RequestFrames(id, ex, deadline))
      ensures var frames := RequestFrames(id, ex, deadline);
              error == None ==> state.View() == Run(old(state.View()), frames) && sent == old(sent) + frames
    {
      ghost var s, frames := state.View(), RequestFrames(id, ex, deadline);
      ghost var n := |Chunks(ex.body)|;
      assert frames[..0] == [] && |frames| == n + 2 && frames[..|frames|] == frames;
      PrefixAccepted(s, frames, 1, n + 1);
      var ok := SendNext(Control(RequestStart(id, ex.verb, ex.target, ex.headers, deadline)), s, frames, 0);
      if !ok {
        return Some(StateRejected);
      }
      ok := SendChunks(id, ex, deadline, s);
      if !ok {
        return Some(BodyRejected);
      }
      Splice(old(sent), frames, n + 1);
      ok := SendNext(Control(RequestEnd(id)), s, frames, n + 1);
      error := if ok then None else Some(StateRejected);
    }

    /** `execute_exchange`: send the request, then loop over the messages that come back. */
    method ExecuteExchange(id: Uuid, ex: Exchange, now: int) returns (result: Result)
      requires state.Valid() && next <= |inbox|
      modifies this, state
      ensures state.Valid()
      ensures match Execute(old(state.View()), id, ex, now, inbox, old(next))
              case Completed(s, response, out, at) =>
                result == Ok(response) && state.View() == s && sent == old(sent) + out && next == at
              case Failed(error) => result == Err(error)
    {
      if !IsHttpMethod(ex.verb) {
        return Err(InvalidMethod);
      }
      var problem := SendRequest(id, ex, Deadline(now));
      if problem.Some? {
        return Err(problem.value);
      }
      result := ReceiveResponse(id, RequestFrames(id, ex, Deadline(now)), old(sent));
    }

    /** The receive loop. */
    method ReceiveResponse(id: Uuid, ghost frames: seq<Frame>, ghost before: seq<Frame>) returns (result: Result)
      requires state.Valid() && next <= |inbox| && sent == before + frames
      modifies this, state
      ensures state.Valid()
      ensures match Receive(id, Receiving(old(state.View()), None, [], []), frames, inbox, old(next))
              case Completed(s, response, out, at) =>
                result == Ok(response) && state.View() == s && sent == before + out && next == at
              case Failed(error) => result == Err(error)
    {
      var status: Option<nat>, headers: seq<HeaderField>, body: seq<byte> := None, [], [];
      ghost var out := frames;
      while next < |inbox|
        invariant next <= |inbox| && state.Valid() && sent == before + out
        invariant Receive(id, Receiving(old(state.View()), None, [], []), frames, inbox, old(next))
               == Receive(id, Receiving(state.View(), status, headers, body), out, inbox, next)
        decreases |inbox| - next
      {
        var message := inbox[next];
        next := next + 1;
        var received := Take(id, message, status, headers, body);
        match received {
          case Fault(error) => return Err(error);
          case Done(_, response) => return Ok(response);
          case More(w, reply) =>
            status, headers, body := w.status, w.headers, w.body;
            out := out + reply;
        }
      }
      result := Err(Disconnected);
    }

    /** One message of the receive loop. */
    method Take(id: Uuid, m: Incoming, status: Option<nat>, headers: seq<HeaderField>, body: seq<byte>)
      returns (received: Received)
      requires state.Valid()
      modifies this`sent, state
      ensures state.Valid()
      ensures received == OnMessage(id, Receiving(old(state.View()), status, headers, body), m)
      ensures received.More? ==> state.View() == received.state.session && sent == old(sent) + received.reply
      ensures received.Done? ==> state.View() == received.session && sent == old(sent)
    {
      match m {
        case Undecodable => return Fault(MalformedFrame);
        case Gone => return Fault(Disconnected);
        case WebSocketPing => return More(Receiving(state.View(), status, headers, body), []);
        case Message(f) =>
          if f.Control? {
            received := TakeControl(id, f.control, status, headers, body);
          } else {
            received := TakeBody(id, f.body, status, headers, body);
          }
      }
    }

    /** `relay_session` after registration: one exchange at a time over the one socket, until a
        failure or an unexpected message.  What the callers are told is the modelled run: the
        answers in order and then at most one error; the answers are at most 4096 and are, besides
        keepalives, exactly what was read, one response after the other. */
    method ServeSession(events: seq<SessionEvent>) returns (replies: seq<Result>)
      requires state.View() == FRESH_SESSION && next == 0
      modifies this, state
      ensures replies == RepliesOf(ServeAll(events, inbox))
      ensures var p := ServeAll(events, inbox);
              && |p.answered| <= MAX_REQUEST_IDS_PER_SESSION && p.next <= |inbox|
              && exists parts :: Consecutive(p.answered, parts, inbox[..p.next])
    {
      replies := [];
      ghost var _ := SessionLifetime(events, inbox);
      for i := 0 to |events|
        invariant AtTurn(ServeAll(events[..i], inbox), inbox, state.View(), next, replies)
      {
        AtTurnNext(events, i, inbox);
        var reply, error, goesOn := ServeOne(events[i]);
        replies := replies + Told(reply, error);
        if !goesOn {
          ClosedStays(events, i + 1, inbox);
          return;
        }
      }
      assert events[..|events|] == events;
    }

    /** One turn of the serving loop. */
    method ServeOne(e: SessionEvent) returns (reply: Option<Answered>, error: Option<ExchangeError>, goesOn: bool)
      requires state.Valid() && Quiet(state.View()) && next <= |inbox|
      modifies this, state
      ensures state.Valid()
      ensures Serve(old(state.View()), e, inbox, old(next))
              == if goesOn then Serving(state.View(), next, reply) else Ended(error)
      ensures goesOn ==> Quiet(state.View()) && next <= |inbox| && error.None?
      ensures goesOn && e.SocketReady? ==> next == old(next) + 1 && sent == old(sent) + PongTo(inbox[old(next)])
      ensures !goesOn ==> reply.None?
    {
      ServeKeepsQuiet(state.View(), e, inbox, next);
      reply, error, goesOn := None, None, false;
      match e {
        case Admitted(id, ex, now) =>
          var result := ExecuteExchange(id, ex, now);
          if result.Err? {
            error := Some(result.error);
            return;
          }
          reply := Some(Answered(id, result.response));
          var ready := state.IsReady();
          if !ready {
            return;
          }
        case SocketReady =>
          if next == |inbox| {
            return;
          }
          var message := inbox[next];
          next := next + 1;
          if message.WebSocketPing? {
            goesOn := true;
            return;
          }
          if !message.Message? || !message.frame.Control? || !message.frame.control.Ping? {
            return;
          }
          var problem := state.ObserveControl(message.frame.control);
          if problem.Some? {
            return;
          }
          var ok := SendObserved(Control(Pong(message.frame.control.nonce)));
          if !ok {
            return;
          }
      }
      goesOn := true;
    }

    method TakeControl(id: Uuid, f: ControlFrame, status: Option<nat>, headers: seq<HeaderField>, body: seq<byte>)
      returns (received: Received)
      requires state.Valid()
      modifies this`sent, state
      ensures state.Valid()
      ensures received == OnControl(id, Receiving(old(state.View()), status, headers, body), f)
      ensures received.More? ==> state.View() == received.state.session && sent == old(sent) + received.reply
      ensures received.Done? ==> state.View() == received.session && sent == old(sent)
    {
      var error := state.ObserveControl(f);
      if error.Some? {
        return Fault(ProtocolViolation);
      }
      if f.ResponseStart? && f.id == id {
        return More(Receiving(state.View(), Some(f.status), f.headers, body), []);
      }
      if f.ResponseEnd? && f.id == id {
        if status.None? {
          return Fault(EndedBeforeStatus);
        }
        return Done(state.View(), ProxyResponse(status.value, headers, body));
      }
      if f.RequestFailed? && f.id == id {
        return Fault(if f.code == Timeout then LocalTimeout else LocalFailure);
      }
      if f.Ping? {
        var pong := Control(Pong(f.nonce));
        var ok := SendObserved(pong);
        if !ok {
          return Fault(StateRejected);
        }
        return More(Receiving(state.View(), status, headers, body), [pong]);
      }
      if f.Pong? {
        return More(Receiving(state.View(), status, headers, body), []);
      }
      return Fault(WrongRequest);
    }

    method TakeBody(id: Uuid, f: BodyFrame, status: Option<nat>, headers: seq<HeaderField>, body: seq<byte>)
      returns (received: Received)
      requires state.Valid()
      modifies state
      ensures state.Valid()
      ensures received == OnBody(id, Receiving(old(state.View()), status, headers, body), f)
      ensures received.More? ==> state.View() == received.state.session && received.reply == []
    {
      if f.kind != ResponseChunk || f.id != id {
        return Fault(WrongBody);
      }
      var error := state.ObserveBody(f);
      if error.Some? {
        return Fault(BodyViolation);
      }
      var grown := body + f.payload;
      if |grown| > MAX_RESPONSE_BODY_BYTES {
        return Fault(ResponseTooLarge);
      }
      return More(Receiving(state.View(), status, headers, grown), []);
    }
  }

  function Told(reply: Option<Answered>, error: Option<ExchangeError>): seq<Result> {
    (if reply.Some? then [Ok(reply.value.response)] else []) + if error.Some? then [Err(error.value)] else []
  }

  /** What the callers of a session have been told. */
  function RepliesOf(p: Progress): seq<Result> {
    seq(|p.answered|, k requires 0 <= k < |p.answered| => Ok(p.answered[k].response))
    + if p.end.Closed? && p.end.error.Some? then [Err(p.end.error.value)] else []
  }

  /** The object stands where the modelled run does. */
  ghost predicate AtTurn(p: Progress, inbox: seq<Incoming>, s: Session, next: nat, replies: seq<Result>) {
    && p.end == Open && p.session == s && p.next == next <= |inbox| && SessionInv(s) && Quiet(s)
    && replies == RepliesOf(p)
  }

  /** The next turn of the run, in terms of what `Serve` says. */
  lemma AtTurnNext(es: seq<SessionEvent>, i: nat, inbox: seq<Incoming>)
    requires i < |es| && ServeAll(es[..i], inbox).end == Open && ServeAll(es[..i], inbox).next <= |inbox|
    ensures var p, q := ServeAll(es[..i], inbox), ServeAll(es[..i + 1], inbox);
            var r := Serve(p.session, es[i], inbox, p.next);
            && (r.Serving? ==> q == Progress(r.session, r.next, p.answered + Listed(r.reply), Open)
                               && RepliesOf(q) == RepliesOf(p) + Told(r.reply, None))
            && (r.Ended? ==> q == p.(end := Closed(r.error)) && RepliesOf(q) == RepliesOf(p) + Told(None, r.error))
  {
    var p := ServeAll(es[..i], inbox);
    assert es[..i + 1][..i] == es[..i];
    var r := Serve(p.session, es[i], inbox, p.next);
    if r.Serving? {
      RepliesGrow(p, Progress(r.session, r.next, p.answered + Listed(r.reply), Open), r.reply);
    } else if r.Ended? {
      RepliesClose(p, r.error);
    }
  }

  lemma RepliesClose(p: Progress, error: Option<ExchangeError>)
    requires p.end == Open
    ensures RepliesOf(p.(end := Closed(error))) == RepliesOf(p) + Told(None, error)
  {
  }

  lemma RepliesGrow(p: Progress, q: Progress, reply: Option<Answered>)
    requires p.end == Open && q.end == Open && q.answered == p.answered + Listed(reply)
    ensures RepliesOf(q) == RepliesOf(p) + Told(reply, None)
  {
  }

  /** The first `n` planned frames were observed, and all but the very first added to what had
      been written before. */
  ghost predicate Written(s: Session, frames: seq<Frame>, n: nat, t: Session, before: seq<Frame>, sent: seq<Frame>) {
    1 <= n <= |frames| && Reached(s, frames, n, t) && sent == before + frames[1..n]
  }

  ghost predicate Rejected(s: Session, frames: seq<Frame>, n: nat) {
    n <= |frames| && !Accepted(s, frames[..n])
  }

  lemma WrittenStart(s: Session, frames: seq<Frame>, t: Session, sent: seq<Frame>)
    requires 1 <= |frames| && Reached(s, frames, 1, t)
    ensures Written(s, frames, 1, t, sent, sent)
  {
    assert frames[1..1] == [];
  }

  lemma Splice<T>(before: seq<T>, frames: seq<T>, k: nat)
    requires 1 <= k < |frames|
    ensures before + [frames[0]] + frames[1..k] + [frames[k]] == before + frames[..k + 1]
  {
  }
}
