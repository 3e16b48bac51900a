/** The cloud side of one relay session (crates/c6-cloud/src/lib.rs:1269-1490): `execute_exchange`
    against an arbitrary connector, and the loop that serves one exchange after another. */
module CloudExchange {
  import opened Common
  import opened RelayFrames
  import opened RelaySession
  import opened RelayChunks

  datatype Exchange = Exchange(verb: string, target: string, headers: seq<HeaderField>, body: seq<byte>)

  datatype ExchangeError =
    | InvalidMethod
    | StateRejected
    | BodyRejected
    | Disconnected
    | MalformedFrame
    | ProtocolViolation
    | EndedBeforeStatus
    | LocalTimeout
    | LocalFailure
    | WrongRequest
    | WrongBody
    | BodyViolation
    | ResponseTooLarge

  /** What the socket yields.  `Gone` is a close, a transport error, or the deadline of the
      whole exchange firing while the loop waits. */
  datatype Incoming = Message(frame: Frame) | Undecodable | WebSocketPing | Gone

  datatype Result = Ok(response: ProxyResponse) | Err(error: ExchangeError)

  // ---- The request half ----------------------------------------------------------

  /** Thirty seconds from now, never zero. */
  function Deadline(now: int): (d: u64)
    ensures d > 0
  {
    if now + 30_000 < 1 then 1 else if now + 30_000 > U64_MAX then U64_MAX else now + 30_000
  }

  function RequestFrames(id: Uuid, ex: Exchange, deadline: u64): seq<Frame>
    requires IsHttpMethod(ex.verb)
  {
    [Control(RequestStart(id, ex.verb, ex.target, ex.headers, deadline))]
    + ChunkFrames(RequestChunk, id, ex.body)
    + [Control(RequestEnd(id))]
  }

  // ---- The response half ---------------------------------------------------------

  datatype Receiving = Receiving(session: Session, status: Option<nat>, headers: seq<HeaderField>, body: seq<byte>)

  datatype Received =
    | More(state: Receiving, reply: seq<Frame>)
    | Done(session: Session, response: ProxyResponse)
    | Fault(error: ExchangeError)

  function OnControl(id: Uuid, w: Receiving, f: ControlFrame): Received {
    var o := ControlStep(w.session, f);
    var v := w.(session := o.session);
    if o.error.Some? then Fault(ProtocolViolation)
    else if f.ResponseStart? && f.id == id then More(v.(status := Some(f.status), headers := f.headers), [])
    else if f.ResponseEnd? && f.id == id then
      if v.status.None? then Fault(EndedBeforeStatus)
      else Done(v.session, ProxyResponse(v.status.value, v.headers, v.body))
    else if f.RequestFailed? && f.id == id then Fault(if f.code == Timeout then LocalTimeout else LocalFailure)
    else if f.Ping? then
      var pong := Control(Pong(f.nonce));
      if Accepts(v.session, pong) then More(v.(session := After(v.session, pong)), [pong]) else Fault(StateRejected)
    else if f.Pong? then More(v, [])
    else Fault(WrongRequest)
  }

  function OnBody(id: Uuid, w: Receiving, f: BodyFrame): Received {
    if f.kind != ResponseChunk || f.id != id then Fault(WrongBody)
    else
      var o := BodyStep(w.session, f);
      if o.error.Some? then Fault(BodyViolation)
      else
        var body := w.body + f.payload;
        if |body| > MAX_RESPONSE_BODY_BYTES then Fault(ResponseTooLarge)
        else More(w.(session := o.session, body := body), [])
  }

  function OnMessage(id: Uuid, w: Receiving, m: Incoming): Received {
    match m
    case Message(Control(f)) => OnControl(id, w, f)
    case Message(Body(f)) => OnBody(id, w, f)
    case Undecodable => Fault(MalformedFrame)
    case WebSocketPing => More(w, [])
    case Gone => Fault(Disconnected)
  }

  // ---- The whole exchange --------------------------------------------------------

  /** `next` is the place in the socket's stream where reading goes on. */
  datatype Exchanged = Completed(session: Session, response: ProxyResponse, sent: seq<Frame>, next: nat)
    | Failed(error: ExchangeError)

  /** The receive loop from message `i` of the stream on; a stream that runs out is a connector
      that is gone. */
  function Receive(id: Uuid, w: Receiving, sent: seq<Frame>, inbox: seq<Incoming>, i: nat): Exchanged
    requires i <= |inbox|
    decreases |inbox| - i
  {
    if i == |inbox| then Failed(Disconnected)
    else
      match OnMessage(id, w, inbox[i])
      case More(v, reply) => Receive(id, v, sent + reply, inbox, i + 1)
      case Done(s, response) => Completed(s, response, sent, i + 1)
      case Fault(error) => Failed(error)
  }

  /** A refused start or end is the state's error, a refused chunk the body's. */
  function SendError(s: Session, frames: seq<Frame>): (error: Option<ExchangeError>)
    requires |frames| >= 2
    ensures error == None <==> Accepted(s, frames)
  {
    if Accepted(s, frames) then None
    else if Accepted(s, frames[..1]) && !Accepted(s, frames[..|frames| - 1]) then Some(BodyRejected)
    else Some(StateRejected)
  }

  /** One exchange, reading the socket's stream from message `at` on. */
  function Execute(s: Session, id: Uuid, ex: Exchange, now: int, inbox: seq<Incoming>, at: nat): Exchanged
    requires at <= |inbox|
  {
    if !IsHttpMethod(ex.verb) then Failed(InvalidMethod)
    else
      var frames := RequestFrames(id, ex, Deadline(now));
      var problem := SendError(s, frames);
      if problem.Some? then Failed(problem.value)
      else Receive(id, Receiving(Run(s, frames), None, [], []), frames, inbox, at)
  }

  // ---- What an Ok means ------------------------------------------------------------

  /** The messages that carry the exchange: everything but keepalives. */
  function Substance(inbox: seq<Incoming>): seq<Incoming> {
    if inbox == [] then []
    else
      var last := inbox[|inbox| - 1];
      Substance(inbox[..|inbox| - 1]) + if IsKeepalive(last) then [] else [last]
  }

  predicate IsKeepalive(m: Incoming) {
    m.WebSocketPing? || (m.Message? && m.frame.Control? && (m.frame.control.Ping? || m.frame.control.Pong?))
  }

  function Messages(fs: seq<Frame>): (ms: seq<Incoming>)
    ensures |ms| == |fs| && forall i :: 0 <= i < |fs| ==> ms[i] == Message(fs[i])
  {
    seq(|fs|, i requires 0 <= i < |fs| => Message(fs[i]))
  }

  /** One pong for every ping, with its nonce. */
  function Pongs(inbox: seq<Incoming>): seq<Frame> {
    if inbox == [] then [] else Pongs(inbox[..|inbox| - 1]) + PongTo(inbox[|inbox| - 1])
  }

  function PongTo(m: Incoming): seq<Frame> {
    if m.Message? && m.frame.Control? && m.frame.control.Ping? then [Control(Pong(m.frame.control.nonce))] else []
  }

  lemma PongsLast(heard: seq<Incoming>, m: Incoming)
    ensures Pongs(heard + [m]) == Pongs(heard) + PongTo(m)
  {
    assert (heard + [m])[..|heard|] == heard;
  }

  /** What the loop writes while it listens is the answer to a ping. */
  lemma RepliesArePongs(id: Uuid, w: Receiving, m: Incoming)
    ensures OnMessage(id, w, m).More? ==> OnMessage(id, w, m).reply == PongTo(m)
    ensures OnMessage(id, w, m).Done? ==> PongTo(m) == []
  {
  }

  /** A response head and the chunks 0..k that followed it. */
  function Heard(id: Uuid, w: Receiving, parts: seq<seq<byte>>): seq<Frame> {
    match w.status
    case None => []
    case Some(status) => [Control(ResponseStart(id, status, w.headers))] + Numbered(ResponseChunk, id, parts)
  }

  /** The receive loop's invariant: one flow, this request's, whose byte count is the length of
      what was collected, and the collected body is what the messages so far carried in order. */
  ghost predicate Listening(id: Uuid, base: Session, w: Receiving, parts: seq<seq<byte>>, heard: seq<Incoming>) {
    && base.handshake == Ready && base.flows == map[] && id !in base.seen
    && |parts| <= U32_MAX && |w.body| <= MAX_RESPONSE_BODY_BYTES
    && w.body == Concat(parts)
    && w.session == base.(seen := base.seen + {id},
                          flows := map[id := if w.status.None? then AwaitingResponse
                                             else ResponseBody(|parts|, |w.body|)])
    && (w.status.None? ==> parts == [])
    && Substance(heard) == Messages(Heard(id, w, parts))
  }

  lemma SubstanceLast(heard: seq<Incoming>, m: Incoming)
    ensures Substance(heard + [m]) == Substance(heard) + if IsKeepalive(m) then [] else [m]
  {
    assert (heard + [m])[..|heard|] == heard;
  }

  /** A chunk the loop accepts extends the parts by exactly its payload. */
  lemma ChunkHeard(id: Uuid, base: Session, w: Receiving, parts: seq<seq<byte>>, heard: seq<Incoming>, f: BodyFrame)
    requires Listening(id, base, w, parts, heard)
    ensures OnBody(id, w, f) != Fault(ResponseTooLarge)
    ensures OnBody(id, w, f).More? ==>
              OnBody(id, w, f).reply == []
              && Listening(id, base, OnBody(id, w, f).state, parts + [f.payload], heard + [Message(Body(f))])
  {
    var r := OnBody(id, w, f);
    if r.More? {
      HeardMore(id, w, r.state, parts, f);
      SubstanceLast(heard, Message(Body(f)));
    }
  }

  /** One more chunk with the next number. */
  lemma HeardMore(id: Uuid, w: Receiving, v: Receiving, parts: seq<seq<byte>>, f: BodyFrame)
    requires w.status.Some? && v.status == w.status && v.headers == w.headers
    requires f.kind == ResponseChunk && f.id == id && |parts| <= U32_MAX && f.sequence == |parts|
    ensures Concat(parts + [f.payload]) == Concat(parts) + f.payload
    ensures Messages(Heard(id, v, parts + [f.payload])) == Messages(Heard(id, w, parts)) + [Message(Body(f))]
  {
    var longer := parts + [f.payload];
    assert longer[..|longer| - 1] == parts;
    NumberedFront(ResponseChunk, id, longer);
    assert Numbered(ResponseChunk, id, longer) == Numbered(ResponseChunk, id, parts) + [Body(f)];
    Regrouped([Control(ResponseStart(id, w.status.value, w.headers))], Numbered(ResponseChunk, id, parts), [Body(f)]);
    MessagesMore(Heard(id, w, parts), Body(f));
  }

  lemma MessagesMore(fs: seq<Frame>, f: Frame)
    ensures Messages(fs + [f]) == Messages(fs) + [Message(f)]
  {
  }

  lemma ControlHeard(id: Uuid, base: Session, w: Receiving, parts: seq<seq<byte>>, heard: seq<Incoming>,
                     f: ControlFrame)
    requires Listening(id, base, w, parts, heard)
    ensures OnControl(id, w, f) != Fault(EndedBeforeStatus)
    ensures OnControl(id, w, f).More? ==>
              Listening(id, base, OnControl(id, w, f).state, parts, heard + [Message(Control(f))])
    ensures OnControl(id, w, f).Done? ==>
              var d := OnControl(id, w, f);
              d.session == base.(seen := base.seen + {id}) && w.status.Some? && f == ResponseEnd(id)
              && d.response == ProxyResponse(w.status.value, w.headers, Concat(parts))
  {
    SubstanceLast(heard, Message(Control(f)));
    if f.ResponseStart? {
      StartHeard(id, base, w, parts, heard, f);
    }
  }

  lemma StartHeard(id: Uuid, base: Session, w: Receiving, parts: seq<seq<byte>>, heard: seq<Incoming>, f: ControlFrame)
    requires Listening(id, base, w, parts, heard) && f.ResponseStart?
    ensures OnControl(id, w, f).More? ==>
              Listening(id, base, OnControl(id, w, f).state, parts, heard + [Message(Control(f))])
  {
    SubstanceLast(heard, Message(Control(f)));
    var r := OnControl(id, w, f);
    if r.More? {
      assert Numbered(ResponseChunk, id, []) == [];
      assert Messages(Heard(id, r.state, [])) == [Message(Control(f))];
    }
  }

  /** The messages that make up a whole response. */
  function ResponseMessages(id: Uuid, status: nat, headers: seq<HeaderField>, parts: seq<seq<byte>>): seq<Incoming> {
    Messages([Control(ResponseStart(id, status, headers))] + Numbered(ResponseChunk, id, parts)
      + [Control(ResponseEnd(id))])
  }

  lemma EndHeard(id: Uuid, w: Receiving, parts: seq<seq<byte>>, heard: seq<Incoming>)
    requires w.status.Some? && Substance(heard) == Messages(Heard(id, w, parts))
    ensures Substance(heard + [Message(Control(ResponseEnd(id)))])
              == ResponseMessages(id, w.status.value, w.headers, parts)
  {
    SubstanceLast(heard, Message(Control(ResponseEnd(id))));
    MessagesMore(Heard(id, w, parts), Control(ResponseEnd(id)));
  }

  /** One message: the loop goes on listening, stops with the whole response, or fails. */
  lemma MessageHeard(id: Uuid, base: Session, w: Receiving, parts: seq<seq<byte>>, heard: seq<Incoming>, m: Incoming)
    returns (grown: seq<seq<byte>>)
    requires Listening(id, base, w, parts, heard)
    ensures var r := OnMessage(id, w, m);
            && r != Fault(EndedBeforeStatus) && r != Fault(ResponseTooLarge)
            && (r.More? ==> Listening(id, base, r.state, grown, heard + [m]))
            && (r.Done? ==>
                  && r.session == base.(seen := base.seen + {id}) && r.response.body == Concat(grown)
                  && Substance(heard + [m]) == ResponseMessages(id, r.response.status, r.response.headers, grown))
  {
    grown := parts;
    match m {
      case Message(Control(f)) =>
        ControlHeard(id, base, w, parts, heard, f);
        if OnControl(id, w, f).Done? {
          EndHeard(id, w, parts, heard);
        }
      case Message(Body(f)) =>
        ChunkHeard(id, base, w, parts, heard, f);
        grown := parts + [f.payload];
      case WebSocketPing => SubstanceLast(heard, m);
      case Undecodable =>
      case Gone =>
    }
  }

  ghost predicate WrotePongs(r: Exchanged, inbox: seq<Incoming>, from: nat, first: seq<Frame>)
    requires r.Completed?
  {
    from < r.next <= |inbox| && r.sent == first + Pongs(inbox[from..r.next])
  }

  lemma OnePongMore(inbox: seq<Incoming>, from: nat, i: nat, first: seq<Frame>)
    requires from <= i < |inbox|
    ensures first + Pongs(inbox[from..i]) + PongTo(inbox[i]) == first + Pongs(inbox[from..i + 1])
    ensures PongTo(inbox[i]) == [] ==> first + Pongs(inbox[from..i]) == first + Pongs(inbox[from..i + 1])
  {
    assert inbox[from..i + 1] == inbox[from..i] + [inbox[i]];
    PongsLast(inbox[from..i], inbox[i]);
    Regrouped(first, Pongs(inbox[from..i]), PongTo(inbox[i]));
  }

  /** After `first`, the loop writes one pong for every ping it has read since `from`, in order. */
  lemma {:induction false} ReceiveWritesPongs(id: Uuid, w: Receiving, sent: seq<Frame>, inbox: seq<Incoming>, from: nat,
                                              i: nat, first: seq<Frame>)
    requires from <= i <= |inbox| && sent == first + Pongs(inbox[from..i])
    ensures var r := Receive(id, w, sent, inbox, i);
            r.Completed? ==> WrotePongs(r, inbox, from, first)
    decreases |inbox| - i
  {
    if i == |inbox| {
    } else {
      OnePongMore(inbox, from, i, first);
      RepliesArePongs(id, w, inbox[i]);
      var r := OnMessage(id, w, inbox[i]);
      if r.More? {
        ReceiveWritesPongs(id, r.state, sent + r.reply, inbox, from, i + 1, first);
      }
    }
  }

  /** `from` is where the exchange began to read. */
  lemma {:induction false} ReceiveCompletes(
    id: Uuid, base: Session, w: Receiving, parts: seq<seq<byte>>, sent: seq<Frame>, inbox: seq<Incoming>,
    from: nat, i: nat)
    returns (all: seq<seq<byte>>)
    requires from <= i <= |inbox| && Listening(id, base, w, parts, inbox[from..i])
    ensures WellReceived(Receive(id, w, sent, inbox, i), id, base, inbox, from, all)
    decreases |inbox| - i
  {
    if i == |inbox| {
      all := parts;
    } else {
      all := MessageHeard(id, base, w, parts, inbox[from..i], inbox[i]);
      assert inbox[from..i + 1] == inbox[from..i] + [inbox[i]];
      var r := OnMessage(id, w, inbox[i]);
      if r.More? {
        all := ReceiveCompletes(id, base, r.state, all, sent + r.reply, inbox, from, i + 1);
      }
    }
  }

  /** A reception that completes is one whole response, read from `from` on; the two errors that
      cannot happen do not. */
  ghost predicate WellReceived(r: Exchanged, id: Uuid, base: Session, inbox: seq<Incoming>, from: nat,
                               all: seq<seq<byte>>)
  {
    && r != Failed(EndedBeforeStatus) && r != Failed(ResponseTooLarge)
    && (r.Completed? ==>
          && r.session == base.(seen := base.seen + {id})
          && from < r.next <= |inbox|
          && r.response.body == Concat(all)
          && Substance(inbox[from..r.next]) == ResponseMessages(id, r.response.status, r.response.headers, all))
  }

  // ---- The request half, frame by frame ---------------------------------------------

  ghost predicate Quiet(s: Session) {
    s.handshake == Ready && s.flows == map[]
  }

  lemma RequestFrameAt(id: Uuid, ex: Exchange, deadline: u64, k: nat)
    requires IsHttpMethod(ex.verb) && k < |Chunks(ex.body)|
    ensures |RequestFrames(id, ex, deadline)| == |Chunks(ex.body)| + 2
    ensures RequestFrames(id, ex, deadline)[k + 1] == ChunkFrame(RequestChunk, id, k, Chunks(ex.body)[k])
  {
    assert RequestFrames(id, ex, deadline)[k + 1] == ChunkFrames(RequestChunk, id, ex.body)[k];
  }

  lemma RequestStartEffect(s: Session, id: Uuid, ex: Exchange, deadline: u64)
    requires IsHttpMethod(ex.verb) && Quiet(s)
    ensures var f := Control(RequestStart(id, ex.verb, ex.target, ex.headers, deadline));
            Accepts(s, f) ==>
              id !in s.seen && After(s, f) == s.(seen := s.seen + {id}, flows := map[id := RequestBody(0, 0)])
  {
  }

  /** After the start and `k` chunks the session has one flow, counting `k` chunks and the bytes
      they cover. */
  lemma RequestPrefix(s: Session, id: Uuid, ex: Exchange, deadline: u64, k: nat)
    requires IsHttpMethod(ex.verb) && Quiet(s)
    requires k <= |Chunks(ex.body)| && k <= U32_MAX
    requires Accepted(s, RequestFrames(id, ex, deadline)[..k + 1])
    ensures id !in s.seen && Reach(ex.body, k) <= MAX_REQUEST_BODY_BYTES
    ensures Run(s, RequestFrames(id, ex, deadline)[..k + 1])
            == s.(seen := s.seen + {id}, flows := map[id := RequestBody(k, Reach(ex.body, k))])
  {
    var start := Control(RequestStart(id, ex.verb, ex.target, ex.headers, deadline));
    var parts := Chunks(ex.body)[..k];
    RequestSlice(id, ex, deadline, k);
    RunAppend(s, [start], Numbered(RequestChunk, id, parts));
    SingleFrame(s, start);
    RequestStartEffect(s, id, ex, deadline);
    ChunksOnFreshFlow(After(s, start), id, ex.body, k);
  }

  lemma RequestSlice(id: Uuid, ex: Exchange, deadline: u64, k: nat)
    requires IsHttpMethod(ex.verb) && k <= |Chunks(ex.body)|
    ensures RequestFrames(id, ex, deadline)[..k + 1]
            == [Control(RequestStart(id, ex.verb, ex.target, ex.headers, deadline))]
               + Numbered(RequestChunk, id, Chunks(ex.body)[..k])
  {
    assert ChunkFrames(RequestChunk, id, ex.body)[..k] == Numbered(RequestChunk, id, Chunks(ex.body)[..k]);
  }

  lemma ChunksOnFreshFlow(t: Session, id: Uuid, body: seq<byte>, k: nat)
    requires t.handshake == Ready && t.flows == map[id := RequestBody(0, 0)]
    requires k <= |Chunks(body)| && k <= U32_MAX
    requires Accepted(t, Numbered(RequestChunk, id, Chunks(body)[..k]))
    ensures Reach(body, k) <= MAX_REQUEST_BODY_BYTES
    ensures Run(t, Numbered(RequestChunk, id, Chunks(body)[..k]))
              == t.(flows := map[id := RequestBody(k, Reach(body, k))])
  {
    var parts := Chunks(body)[..k];
    ChunksReassemble(body);
    ChunksPrefix(body, k);
    NumberedAccepted(t, RequestChunk, id, parts);
    OnlyKey(t.flows, id, Run(t, Numbered(RequestChunk, id, parts)).flows[id]);
  }

  /** A body of more than 256 chunks is refused at the latest with its 257th. */
  lemma FewChunksAccepted(s: Session, id: Uuid, ex: Exchange, deadline: u64)
    requires IsHttpMethod(ex.verb) && Quiet(s)
    requires Accepted(s, RequestFrames(id, ex, deadline))
    ensures |Chunks(ex.body)| <= 256
  {
    var frames := RequestFrames(id, ex, deadline);
    if |Chunks(ex.body)| > 256 {
      ChunkCountBounds(ex.body);
      PrefixAccepted(s, frames, 258, |frames|);
      RequestPrefix(s, id, ex, deadline, 257);
    }
  }

  /** The whole request leaves one flow waiting for its response. */
  lemma RequestWhole(s: Session, id: Uuid, ex: Exchange, deadline: u64)
    requires IsHttpMethod(ex.verb) && Quiet(s)
    requires Accepted(s, RequestFrames(id, ex, deadline))
    ensures id !in s.seen && |ex.body| <= MAX_REQUEST_BODY_BYTES
    ensures Run(s, RequestFrames(id, ex, deadline))
            == s.(seen := s.seen + {id}, flows := map[id := AwaitingResponse])
  {
    var frames := RequestFrames(id, ex, deadline);
    var n := |Chunks(ex.body)|;
    assert frames[..|frames| - 1] == frames[..n + 1];
    FewChunksAccepted(s, id, ex, deadline);
    RequestPrefix(s, id, ex, deadline, n);
    ChunkCountBounds(ex.body);
    var t := Run(s, frames[..n + 1]);
    assert After(t, Control(RequestEnd(id))) == t.(flows := t.flows[id := AwaitingResponse]);
    assert t.flows[id := AwaitingResponse] == map[id := AwaitingResponse];
  }

  /** An Ok exchange, whatever the connector sent: the session is quiet again with exactly this
      identifier added; besides keepalives the messages consumed were exactly one well-numbered
      response to this request, and the result is its status, headers and concatenated body.
      The missing-status error and the extra size check never fire. */
  lemma OkExchange(s: Session, id: Uuid, ex: Exchange, now: int, inbox: seq<Incoming>, at: nat)
    returns (parts: seq<seq<byte>>)
    requires SessionInv(s) && Quiet(s) && at <= |inbox|
    ensures var r := Execute(s, id, ex, now, inbox, at);
            && r != Failed(EndedBeforeStatus) && r != Failed(ResponseTooLarge)
            && (r.Completed? ==>
                  && Quiet(r.session) && SessionInv(r.session)
                  && id !in s.seen && r.session.seen == s.seen + {id}
                  && at < r.next <= |inbox|
                  && IsHttpMethod(ex.verb) && r.response.body == Concat(parts)
                  && r.sent == RequestFrames(id, ex, Deadline(now)) + Pongs(inbox[at..r.next])
                  && Substance(inbox[at..r.next]) == ResponseMessages(id, r.response.status, r.response.headers, parts))
  {
    parts := [];
    if IsHttpMethod(ex.verb) {
      var frames := RequestFrames(id, ex, Deadline(now));
      if Accepted(s, frames) {
        RequestWhole(s, id, ex, Deadline(now));
        RunKeepsInv(s, frames);
        var w := Receiving(Run(s, frames), None, [], []);
        assert inbox[at..at] == [] && frames + [] == frames;
        parts := ReceiveCompletes(id, s, w, [], frames, inbox, at, at);
        ReceiveWritesPongs(id, w, frames, inbox, at, at, frames);
        var r := Receive(id, w, frames, inbox, at);
        if r.Completed? {
          QuietInv(s, Run(s, frames), id);
        }
      }
    }
  }

  lemma QuietInv(s: Session, t: Session, id: Uuid)
    requires SessionInv(t) && Quiet(s) && t.handshake == Ready && t.seen == s.seen + {id}
    ensures SessionInv(s.(seen := s.seen + {id}))
  {
  }

  lemma {:induction false} RunKeepsInv(s: Session, fs: seq<Frame>)
    requires SessionInv(s)
    ensures SessionInv(Run(s, fs))
  {
    if fs == [] {
    } else {
      RunKeepsInv(s, fs[..|fs| - 1]);
      ObserveKeeps(Run(s, fs[..|fs| - 1]), fs[|fs| - 1]);
    }
  }

  // ---- One session, many exchanges ---------------------------------------------------

  /** What wakes the session loop: an admitted exchange, or the socket between exchanges. */
  datatype SessionEvent = Admitted(id: Uuid, exchange: Exchange, now: int) | SocketReady

  /** `NotReady` is the last `break` of the exchange arm. */
  datatype Served =
    | Serving(session: Session, next: nat, reply: Option<Answered>)
    | Ended(error: Option<ExchangeError>)
    | NotReady

  datatype Answered = Answered(id: Uuid, response: ProxyResponse)

  /** A message between exchanges: keepalives go on, anything else ends the session. */
  function Between(s: Session, m: Incoming): Option<Session> {
    match m
    case WebSocketPing => Some(s)
    case Message(Control(Ping(nonce))) =>
      var pong := Control(Pong(nonce));
      if Accepts(s, Control(Ping(nonce))) && Accepts(After(s, Control(Ping(nonce))), pong)
      then Some(After(After(s, Control(Ping(nonce))), pong))
      else None
    case _ => None
  }

  /** One turn of the loop, reading the socket's stream from message `at` on. */
  function Serve(s: Session, e: SessionEvent, inbox: seq<Incoming>, at: nat): Served
    requires at <= |inbox|
  {
    match e
    case Admitted(id, ex, now) =>
      (match Execute(s, id, ex, now, inbox, at)
       case Completed(t, response, _, next) =>
         if t.handshake == Ready then Serving(t, next, Some(Answered(id, response))) else NotReady
       case Failed(error) => Ended(Some(error)))
    case SocketReady =>
      if at == |inbox| then Ended(None)
      else
        match Between(s, inbox[at])
        case Some(t) => Serving(t, at + 1, None)
        case None => Ended(None)
  }

  datatype End = Open | Closed(error: Option<ExchangeError>)

  /** How far a session has come: its state, its place in the stream, the exchanges answered Ok in
      order, and whether it goes on. */
  datatype Progress = Progress(session: Session, next: nat, answered: seq<Answered>, end: End)

  function Listed(reply: Option<Answered>): seq<Answered> {
    if reply.Some? then [reply.value] else []
  }

  function NextTurn(p: Progress, e: SessionEvent, inbox: seq<Incoming>): Progress {
    if p.end != Open || p.next > |inbox| then p
    else
      match Serve(p.session, e, inbox, p.next)
      case Serving(t, next, reply) => Progress(t, next, p.answered + Listed(reply), Open)
      case Ended(error) => p.(end := Closed(error))
      case NotReady => p.(end := Closed(None))
  }

  /** The session after these turns over one stream. */
  function ServeAll(es: seq<SessionEvent>, inbox: seq<Incoming>): Progress {
    if es == [] then Progress(FRESH_SESSION, 0, [], Open)
    else NextTurn(ServeAll(es[..|es| - 1], inbox), es[|es| - 1], inbox)
  }

  /** The responses a connector would send to answer like this, one after the other: `parts` are
      the chunks of each body. */
  function Spoken(answered: seq<Answered>, parts: seq<seq<seq<byte>>>): seq<Incoming>
    requires |parts| == |answered|
  {
    if answered == [] then []
    else
      var n := |answered| - 1;
      Spoken(answered[..n], parts[..n])
      + ResponseMessages(answered[n].id, answered[n].response.status, answered[n].response.headers, parts[n])
  }

  /** Every answer's body is its chunks put together, and besides keepalives these messages are
      exactly the responses, in order. */
  ghost predicate Consecutive(answered: seq<Answered>, parts: seq<seq<seq<byte>>>, heard: seq<Incoming>) {
    && |parts| == |answered|
    && (forall k :: 0 <= k < |answered| ==> answered[k].response.body == Concat(parts[k]))
    && Substance(heard) == Spoken(answered, parts)
  }

  lemma {:induction false} SubstanceAppend(a: seq<Incoming>, b: seq<Incoming>)
    ensures Substance(a + b) == Substance(a) + Substance(b)
  {
    if b == [] {
      assert a + b == a;
    } else {
      var front, last := b[..|b| - 1], b[|b| - 1];
      SubstanceAppend(a, front);
      assert (a + b)[..|a + b| - 1] == a + front && (a + b)[|a + b| - 1] == last;
      Regrouped(Substance(a), Substance(front), if IsKeepalive(last) then [] else [last]);
    }
  }

  /** One more answer. */
  lemma OneMoreAnswer(answered: seq<Answered>, parts: seq<seq<seq<byte>>>, heard: seq<Incoming>, a: Answered,
                      all: seq<seq<byte>>, more: seq<Incoming>)
    requires Consecutive(answered, parts, heard) && a.response.body == Concat(all)
    requires Substance(more) == ResponseMessages(a.id, a.response.status, a.response.headers, all)
    ensures Consecutive(answered + [a], parts + [all], heard + more)
  {
    assert (answered + [a])[..|answered|] == answered && (parts + [all])[..|parts|] == parts;
    SubstanceAppend(heard, more);
  }

  /** What holds of a session at every turn. */
  ghost predicate ProgressHolds(p: Progress, parts: seq<seq<seq<byte>>>, inbox: seq<Incoming>) {
    && p.next <= |inbox| && SessionInv(p.session) && Quiet(p.session)
    && |p.answered| == |p.session.seen|
    && (forall k :: 0 <= k < |p.answered| ==> p.answered[k].id in p.session.seen)
    && Consecutive(p.answered, parts, inbox[..p.next])
  }

  lemma BetweenIsQuiet(s: Session, m: Incoming)
    requires SessionInv(s) && Quiet(s)
    ensures Between(s, m) ==
              if m.WebSocketPing? || (m.Message? && m.frame.Control? && m.frame.control.Ping?) then Some(s) else None
  {
  }

  lemma ServeKeepsQuiet(s: Session, e: SessionEvent, inbox: seq<Incoming>, at: nat)
    requires SessionInv(s) && Quiet(s) && at <= |inbox|
    ensures var r := Serve(s, e, inbox, at);
            && r != NotReady
            && (r.Serving? ==>
                  && SessionInv(r.session) && Quiet(r.session) && at < r.next <= |inbox|
                  && |r.session.seen| == |s.seen| + |Listed(r.reply)|
                  && (r.reply.Some? <==> e.Admitted?)
                  && (r.reply.Some? ==> r.session.seen == s.seen + {r.reply.value.id})
                  && (r.reply.None? ==> r.session == s && IsKeepalive(inbox[at]) && r.next == at + 1))
  {
    match e
    case Admitted(id, ex, now) => var _ := OkExchange(s, id, ex, now, inbox, at);
    case SocketReady => if at < |inbox| { BetweenIsQuiet(s, inbox[at]); }
  }

  lemma NextTurnHolds(p: Progress, parts: seq<seq<seq<byte>>>, e: SessionEvent, inbox: seq<Incoming>)
    returns (more: seq<seq<seq<byte>>>)
    requires ProgressHolds(p, parts, inbox)
    ensures ProgressHolds(NextTurn(p, e, inbox), more, inbox)
  {
    more := parts;
    if p.end == Open {
      ServeKeepsQuiet(p.session, e, inbox, p.next);
      var r := Serve(p.session, e, inbox, p.next);
      if r.Serving? {
        if e.Admitted? {
          var all := OkExchange(p.session, e.id, e.exchange, e.now, inbox, p.next);
          AnswerExtends(p, parts, inbox, r.session, r.next, r.reply.value, all);
          more := parts + [all];
        } else {
          KeepaliveExtends(p, parts, inbox);
          assert p.answered + Listed(r.reply) == p.answered;
        }
      }
    }
  }

  lemma AnswerExtends(p: Progress, parts: seq<seq<seq<byte>>>, inbox: seq<Incoming>, t: Session, next: nat,
                      a: Answered, all: seq<seq<byte>>)
    requires ProgressHolds(p, parts, inbox) && SessionInv(t) && Quiet(t)
    requires t.seen == p.session.seen + {a.id} && |t.seen| == |p.session.seen| + 1
    requires p.next < next <= |inbox| && a.response.body == Concat(all)
    requires Substance(inbox[p.next..next]) == ResponseMessages(a.id, a.response.status, a.response.headers, all)
    ensures ProgressHolds(Progress(t, next, p.answered + [a], Open), parts + [all], inbox)
  {
    assert inbox[..next] == inbox[..p.next] + inbox[p.next..next];
    OneMoreAnswer(p.answered, parts, inbox[..p.next], a, all, inbox[p.next..next]);
  }

  lemma KeepaliveExtends(p: Progress, parts: seq<seq<seq<byte>>>, inbox: seq<Incoming>)
    requires ProgressHolds(p, parts, inbox) && p.next < |inbox| && IsKeepalive(inbox[p.next])
    ensures ProgressHolds(p.(next := p.next + 1), parts, inbox)
  {
    assert inbox[..p.next + 1] == inbox[..p.next] + [inbox[p.next]];
    SubstanceLast(inbox[..p.next], inbox[p.next]);
  }

  /** Exchanges never overlap: over every stream and every list of turns the session is quiet and
      Ready between turns, never takes the not-ready break, and the exchanges answered Ok number
      the identifiers seen, so there are at most 4096; besides keepalives, what was read is exactly
      their responses, one after the other. */
  lemma {:induction false} SessionLifetime(es: seq<SessionEvent>, inbox: seq<Incoming>)
    returns (parts: seq<seq<seq<byte>>>)
    ensures var p := ServeAll(es, inbox);
            && p.next <= |inbox| && SessionInv(p.session) && Quiet(p.session)
            && |p.answered| == |p.session.seen| <= MAX_REQUEST_IDS_PER_SESSION
            && Consecutive(p.answered, parts, inbox[..p.next])
            && forall e :: Serve(p.session, e, inbox, p.next) != NotReady
  {
    parts := ProgressInRun(es, inbox);
    var p := ServeAll(es, inbox);
    forall e ensures Serve(p.session, e, inbox, p.next) != NotReady {
      ServeKeepsQuiet(p.session, e, inbox, p.next);
    }
  }

  lemma {:induction false} ProgressInRun(es: seq<SessionEvent>, inbox: seq<Incoming>)
    returns (parts: seq<seq<seq<byte>>>)
    ensures ProgressHolds(ServeAll(es, inbox), parts, inbox)
  {
    if es == [] {
      parts := [];
      assert inbox[..0] == [];
    } else {
      parts := ProgressInRun(es[..|es| - 1], inbox);
      parts := NextTurnHolds(ServeAll(es[..|es| - 1], inbox), parts, es[|es| - 1], inbox);
    }
  }

  /** A session that has ended stays as it is. */
  lemma {:induction false} ClosedStays(es: seq<SessionEvent>, i: nat, inbox: seq<Incoming>)
    requires i <= |es| && ServeAll(es[..i], inbox).end.Closed?
    ensures ServeAll(es, inbox) == ServeAll(es[..i], inbox)
    decreases |es|
  {
    if i == |es| {
      assert es[..i] == es;
    } else {
      assert es[..|es| - 1][..i] == es[..i];
      ClosedStays(es[..|es| - 1], i, inbox);
    }
  }
}
