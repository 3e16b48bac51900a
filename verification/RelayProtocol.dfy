/** Cloud and connector together: both loops over two FIFO queues, with the upstream tasks, the
    timeouts and the failures of either side as events in any order.  The steps are the
    functions the two sides are proved to compute (`CloudExchange`, `Connector`). */
module RelayProtocol {
  import opened Common
  import opened RelayFrames
  import opened RelaySession
  import opened RelayChunks
  import opened Connector
  import opened CloudExchange

  datatype CloudPhase =
    | Waiting
    | Sending(id: Uuid, exchange: Exchange, deadline: u64, next: nat)
    | Listening(id: Uuid, exchange: Exchange, status: Option<nat>, headers: seq<HeaderField>, body: seq<byte>)
    | Over

  predicate InExchange(phase: CloudPhase) {
    phase.Sending? || phase.Listening?
  }

  datatype Task = Running(request: ProxyRequest) | Returned(outcome: Outcome)

  /** One call that reached the upstream, with the response it produced, if any. */
  datatype Call = Call(id: Uuid, request: ProxyRequest, response: Option<ProxyResponse>)

  datatype Reply = Reply(exchange: Exchange, response: ProxyResponse)

  datatype World = World(
    cloud: Session, phase: CloudPhase,
    connector: ConnectorState, alive: bool, tasks: map<Uuid, Task>,
    down: seq<Frame>, up: seq<Frame>,
    calls: seq<Call>, replies: map<Uuid, Reply>)

  /** Whether the JSON text of a control frame is within the connector's 64 KiB
      (crates/c6-connector/src/protocol.rs:12-17).  The shared observer knows no such limit. */
  type TextCap = ControlFrame -> bool

  /** `CutOff` is the deadline firing between the cloud's observer and the socket. */
  datatype Step =
    | Begin(id: Uuid, exchange: Exchange, now: int)
    | SendNext
    | CutOff
    | Receive
    | Abort
    | Deliver(at: nat)
    | Die(kept: nat)
    | TaskEnds(id: Uuid, outcome: Outcome, called: bool)
    | Hand(id: Uuid)

  /** Both handshakes done, nothing in flight. */
  function Init(): World {
    World(FRESH_SESSION, Waiting, ConnectorState(FRESH_SESSION, map[], {}, {}, map[]), true, map[], [], [], [], map[])
  }

  // ---- Steps ----------------------------------------------------------------------

  /** An event that is not possible in the current state changes nothing. */
  function Apply(w: World, e: Step, maxInFlight: nat, fits: TextCap): World {
    match e
    case Begin(id, ex, now) => OnBegin(w, id, ex, now)
    case SendNext => OnSendNext(w)
    case CutOff => OnCutOff(w)
    case Receive => OnReceive(w)
    case Abort => w.(phase := Over)
    case Deliver(at) => OnDeliver(w, at, maxInFlight, fits)
    case Die(kept) => w.(alive := false, up := if kept < |w.up| then w.up[..kept] else w.up)
    case TaskEnds(id, outcome, called) => OnTaskEnds(w, id, outcome, called)
    case Hand(id) => OnHand(w, id)
  }

  /** The proxy handler admits only bodies within the limit (crates/c6-cloud/src/lib.rs:1180-1192). */
  function OnBegin(w: World, id: Uuid, ex: Exchange, now: int): World {
    if w.phase != Waiting || |ex.body| > MAX_REQUEST_BODY_BYTES then w
    else if !IsHttpMethod(ex.verb) then w.(phase := Over)
    else w.(phase := Sending(id, ex, Deadline(now), 0))
  }

  predicate CanSend(w: World) {
    w.phase.Sending? && IsHttpMethod(w.phase.exchange.verb)
    && w.phase.next < |RequestFrames(w.phase.id, w.phase.exchange, w.phase.deadline)|
  }

  function OnSendNext(w: World): World {
    if !CanSend(w) then w
    else
      var p := w.phase;
      var frames := RequestFrames(p.id, p.exchange, p.deadline);
      var f := frames[p.next];
      if !Accepts(w.cloud, f) then w.(cloud := After(w.cloud, f), phase := Over)
      else
        w.(cloud := After(w.cloud, f), down := w.down + [f],
           phase := if p.next + 1 == |frames| then Listening(p.id, p.exchange, None, [], [])
             else p.(next := p.next + 1))
  }

  function OnCutOff(w: World): World {
    if !CanSend(w) then w
    else
      var p := w.phase;
      w.(cloud := After(w.cloud, RequestFrames(p.id, p.exchange, p.deadline)[p.next]), phase := Over)
  }

  /** While it sends, the cloud does not read; between exchanges it only answers pings. */
  function OnReceive(w: World): World {
    if w.up == [] then w
    else
      var f := w.up[0];
      match w.phase
      case Waiting =>
        (match Between(w.cloud, Message(f))
         case Some(s) =>
           var nonce := if f.Control? && f.control.Ping? then f.control.nonce else 0;
           w.(cloud := s, up := w.up[1..], down := w.down + [Control(Pong(nonce))])
         case None => w.(phase := Over, up := w.up[1..]))
      case Listening(id, ex, status, headers, body) =>
        (match OnMessage(id, Receiving(w.cloud, status, headers, body), Message(f))
         case More(v, reply) =>
           w.(cloud := v.session, up := w.up[1..], down := w.down + reply,
              phase := Listening(id, ex, v.status, v.headers, v.body))
         case Done(s, response) =>
           w.(cloud := s, up := w.up[1..], phase := Waiting, replies := w.replies[id := Reply(ex, response)])
         case Fault(_) => w.(phase := Over, up := w.up[1..]))
      case _ => w
  }

  function NewTasks(before: map<Uuid, ProxyRequest>, after: map<Uuid, ProxyRequest>): map<Uuid, Task> {
    map id | id in after && id !in before :: Running(after[id])
  }

  predicate FrameFits(f: Frame, fits: TextCap) {
    f.Control? ==> fits(f.control)
  }

  /** A control frame whose text is too long ends the connector's session before its observer
      sees it. */
  function OnDeliver(w: World, at: nat, maxInFlight: nat, fits: TextCap): World {
    if !w.alive || w.down == [] then w
    else if !FrameFits(w.down[0], fits) then w.(alive := false, down := w.down[1..])
    else
      var r := OnFrame(w.connector, w.down[0], at, maxInFlight);
      w.(connector := r.state, down := w.down[1..], up := w.up + r.sent, alive := !r.verdict.Stop?,
         tasks := w.tasks + NewTasks(w.connector.spawned, r.state.spawned))
  }

  /** An upstream task returns the bounded answer of its one call, or an error with or without
      having reached the upstream.  Tasks outlive the session that spawned them. */
  function OnTaskEnds(w: World, id: Uuid, outcome: Outcome, called: bool): World {
    if id !in w.tasks || !w.tasks[id].Running? then w
    else if outcome.Answer? && (!called || |outcome.response.body| > MAX_RESPONSE_BODY_BYTES) then w
    else
      var call := Call(id, w.tasks[id].request, if outcome.Answer? then Some(outcome.response) else None);
      w.(tasks := w.tasks[id := Returned(outcome)], calls := w.calls + if called then [call] else [])
  }

  function OnHand(w: World, id: Uuid): World {
    if !w.alive || id !in w.tasks || !w.tasks[id].Returned? then w
    else
      var r := OnOutcome(w.connector, id, w.tasks[id].outcome);
      w.(connector := r.state, up := w.up + r.sent, alive := !r.verdict.Stop?, tasks := w.tasks - {id})
  }

  function PlayFrom(w: World, es: seq<Step>, maxInFlight: nat, fits: TextCap): World {
    if es == [] then w else Apply(PlayFrom(w, es[..|es| - 1], maxInFlight, fits), es[|es| - 1], maxInFlight, fits)
  }

  /** Any run of a session, as the list of its events. */
  function Play(es: seq<Step>, maxInFlight: nat, fits: TextCap): World {
    PlayFrom(Init(), es, maxInFlight, fits)
  }

  function CallsFor(calls: seq<Call>, id: Uuid): seq<Call> {
    if calls == [] then []
    else
      var last := calls[|calls| - 1];
      CallsFor(calls[..|calls| - 1], id) + if last.id == id then [last] else []
  }

  function RequestOf(ex: Exchange): ProxyRequest {
    ProxyRequest(ex.verb, ex.target, ex.headers, ex.body)
  }

  // ---- The invariant ---------------------------------------------------------------

  /** How the connector answers: with an upstream response, or with a failure. */
  datatype Answer = Good(response: ProxyResponse) | Bad(code: FailureCode, message: string)

  /** Where the current exchange stands: `sent` and `taken` index the request frames, `heard`
      indexes the frames of the connector's answer. */
  datatype Stage = AtRest | Uploading(sent: nat, taken: nat) | Working | Answering(answer: Answer, heard: nat)

  /** What the proof remembers: the common session before the current exchange, and it. */
  datatype Context = Context(base: Session, id: Uuid, exchange: Exchange, deadline: u64)

  datatype History = History(context: Context, stage: Stage)

  function Frames(c: Context): seq<Frame>
    requires IsHttpMethod(c.exchange.verb)
  {
    RequestFrames(c.id, c.exchange, c.deadline)
  }

  function AnswerFrames(c: Context, answer: Answer): seq<Frame> {
    match answer
    case Good(response) => ResponseFrames(c.id, response)
    case Bad(code, message) => [Connector.Failed(c.id, code, message)]
  }

  function Empty(s: Session): ConnectorState {
    ConnectorState(s, map[], {}, {}, map[])
  }

  function Buffered(c: Context, taken: nat): PendingRequest
    requires IsHttpMethod(c.exchange.verb) && taken > 0
  {
    var ex := c.exchange;
    PendingRequest(ex.verb, ex.target, ex.headers, ex.body[..Reach(ex.body, taken - 1)], c.deadline, false)
  }

  /** The connector after taking `taken` frames of the request, in session `s`. */
  function Uploaded(c: Context, s: Session, taken: nat): ConnectorState
    requires IsHttpMethod(c.exchange.verb)
  {
    if taken == 0 then Empty(s) else Empty(s).(pending := map[c.id := Buffered(c, taken)])
  }

  /** The session once the whole request has been observed, and once the exchange is over. */
  function Asked(c: Context): Session {
    c.base.(seen := c.base.seen + {c.id}, flows := map[c.id := AwaitingResponse])
  }

  function Closed(c: Context): Session {
    c.base.(seen := c.base.seen + {c.id})
  }

  ghost predicate ExchangeFits(c: Context) {
    && IsHttpMethod(c.exchange.verb) && |c.exchange.body| <= MAX_REQUEST_BODY_BYTES && c.deadline > 0
    && SessionInv(c.base) && Quiet(c.base)
  }

  /** The upstream call log shows exactly one call for this exchange, and this response to it. */
  ghost predicate AnsweredBy(calls: seq<Call>, c: Context, response: ProxyResponse) {
    && |response.body| <= MAX_RESPONSE_BODY_BYTES
    && CallsFor(calls, c.id) == [Call(c.id, RequestOf(c.exchange), Some(response))]
  }

  ghost predicate AnswerHonest(calls: seq<Call>, c: Context, answer: Answer) {
    match answer
    case Good(response) => AnsweredBy(calls, c, response)
    case Bad(_, message) => MessageAllowed(message)
  }

  /** What the cloud is doing after hearing `heard` frames of the answer. */
  predicate HearsAt(phase: CloudPhase, c: Context, answer: Answer, heard: nat) {
    if heard == 0 || answer.Bad? then phase == Listening(c.id, c.exchange, None, [], [])
    else
      var r := answer.response;
      phase == Listening(c.id, c.exchange, Some(r.status), r.headers, r.body[..Reach(r.body, heard - 1)])
  }

  ghost predicate RestHolds(w: World, c: Context) {
    && (w.phase == Waiting || w.phase == Over)
    && (w.phase != Over ==> w.cloud == c.base) && w.connector == Empty(c.base)
    && w.tasks == map[] && w.down == [] && w.up == []
  }

  predicate SendsAt(phase: CloudPhase, c: Context, sent: nat, all: nat) {
    if sent < all then phase == Sending(c.id, c.exchange, c.deadline, sent)
    else phase == Listening(c.id, c.exchange, None, [], [])
  }

  ghost predicate UploadHolds(w: World, c: Context, sent: nat, taken: nat)
    requires ExchangeFits(c)
  {
    var frames := Frames(c);
    && taken <= sent <= |frames| && taken < |frames|
    && (w.phase == Over || SendsAt(w.phase, c, sent, |frames|))
    && Accepted(c.base, frames[..sent]) && (w.phase != Over ==> w.cloud == Run(c.base, frames[..sent]))
    && Reached(c.base, frames, taken, w.connector.session)
    && w.connector == Uploaded(c, w.connector.session, taken)
    && w.tasks == map[] && w.up == [] && (w.alive ==> w.down == frames[taken..sent])
  }

  ghost predicate TaskHolds(task: Task, calls: seq<Call>, c: Context) {
    match task
    case Running(request) => request == RequestOf(c.exchange) && CallsFor(calls, c.id) == []
    case Returned(outcome) => outcome.Answer? ==> AnsweredBy(calls, c, outcome.response)
  }

  ghost predicate WorkHolds(w: World, c: Context) {
    && (w.phase == Over || w.phase == Listening(c.id, c.exchange, None, [], []))
    && (w.phase != Over ==> w.cloud == Asked(c)) && w.down == [] && w.up == []
    && w.tasks.Keys <= {c.id}
    && (c.id in w.tasks ==> TaskHolds(w.tasks[c.id], w.calls, c))
    && (w.alive ==>
          c.id in w.tasks
          && w.connector == Empty(Asked(c)).(active := {c.id}, spawned := map[c.id := RequestOf(c.exchange)]))
  }

  ghost predicate AnswerHolds(w: World, c: Context, answer: Answer, heard: nat) {
    var frames := AnswerFrames(c, answer);
    && heard < |frames| && AnswerHonest(w.calls, c, answer)
    && (w.phase == Over || HearsAt(w.phase, c, answer, heard))
    && (w.phase != Over ==> Reached(Asked(c), frames, heard, w.cloud))
    && Reached(Asked(c), frames, |frames|, Closed(c))
    && w.connector == Empty(Closed(c))
    && w.tasks == map[] && w.down == []
    && w.up <= frames[heard..] && (w.alive ==> w.up == frames[heard..])
  }

  ghost predicate StageHolds(w: World, c: Context, stage: Stage) {
    match stage
    case AtRest => RestHolds(w, c)
    case Uploading(sent, taken) => ExchangeFits(c) && UploadHolds(w, c, sent, taken)
    case Working => ExchangeFits(c) && WorkHolds(w, c)
    case Answering(answer, heard) => ExchangeFits(c) && AnswerHolds(w, c, answer, heard)
  }

  /** The upstream was called exactly once for this reply, with the exchange's own request, and
      the reply is exactly what that call returned. */
  ghost predicate Faithful(calls: seq<Call>, id: Uuid, reply: Reply) {
    CallsFor(calls, id) == [Call(id, RequestOf(reply.exchange), Some(reply.response))]
  }

  ghost predicate Ledger(calls: seq<Call>, replies: map<Uuid, Reply>, known: set<Uuid>) {
    && (forall call :: call in calls ==> call.id in known)
    && (forall id: Uuid :: |CallsFor(calls, id)| <= 1)
    && (forall id :: id in replies ==> id in known && Faithful(calls, id, replies[id]))
  }

  /** From the moment the connector holds the whole request, its identifier may be called. */
  predicate Engaged(stage: Stage) {
    stage.Working? || stage.Answering?
  }

  /** The identifiers that may appear in the call log. */
  function Known(c: Context, stage: Stage): set<Uuid> {
    if Engaged(stage) then c.base.seen + {c.id} else c.base.seen
  }

  ghost predicate Inv(w: World, h: History) {
    && SessionInv(h.context.base) && Quiet(h.context.base)
    && Ledger(w.calls, w.replies, Known(h.context, h.stage))
    && (Engaged(h.stage) ==>
          h.context.id !in h.context.base.seen && h.context.id !in w.replies && SessionInv(Closed(h.context)))
    && StageHolds(w, h.context, h.stage)
  }

  // ---- Calls ------------------------------------------------------------------------

  lemma {:induction false} CallsForStranger(calls: seq<Call>, id: Uuid)
    requires forall call :: call in calls ==> call.id != id
    ensures CallsFor(calls, id) == []
  {
    if calls == [] {
    } else {
      CallsForStranger(calls[..|calls| - 1], id);
    }
  }

  lemma CallsForSnoc(calls: seq<Call>, call: Call, id: Uuid)
    ensures CallsFor(calls + [call], id) == CallsFor(calls, id) + if call.id == id then [call] else []
  {
    assert (calls + [call])[..|calls|] == calls;
  }

  // ---- Steps of the cloud -------------------------------------------------------------

  lemma BeginKeeps(w: World, h: History, id: Uuid, ex: Exchange, now: int) returns (g: History)
    requires Inv(w, h)
    ensures InExchange(w.phase) ==> g == h
    ensures Inv(OnBegin(w, id, ex, now), g)
  {
    g := h;
    if w.phase == Waiting && |ex.body| <= MAX_REQUEST_BODY_BYTES && IsHttpMethod(ex.verb) {
      g := History(Context(h.context.base, id, ex, Deadline(now)), Uploading(0, 0));
      assert Frames(g.context)[..0] == [] && Frames(g.context)[0..0] == [];
    }
  }

  lemma AbortKeeps(w: World, h: History)
    requires Inv(w, h)
    ensures Inv(w.(phase := Over), h)
  {
  }

  /** An accepted frame moves the sending position. */
  lemma UploadAfterSend(w: World, c: Context, sent: nat, taken: nat, phase: CloudPhase)
    requires ExchangeFits(c) && UploadHolds(w, c, sent, taken) && sent < |Frames(c)|
    requires w.phase != Over && Accepts(w.cloud, Frames(c)[sent]) && SendsAt(phase, c, sent + 1, |Frames(c)|)
    ensures UploadHolds(
              w.(cloud := After(w.cloud, Frames(c)[sent]), down := w.down + [Frames(c)[sent]], phase := phase),
              c, sent + 1, taken)
  {
    Advance(c.base, Frames(c), sent);
    SliceSnoc(Frames(c), taken, sent);
  }

  lemma SliceSnoc<T>(frames: seq<T>, i: nat, j: nat)
    requires i <= j < |frames|
    ensures frames[i..j] + [frames[j]] == frames[i..j + 1]
  {
  }

  lemma SendEffect(w: World, c: Context, sent: nat)
    requires ExchangeFits(c) && CanSend(w) && w.phase == Sending(c.id, c.exchange, c.deadline, sent)
    ensures var f := Frames(c)[sent];
            if Accepts(w.cloud, f) then
              SendsAt(OnSendNext(w).phase, c, sent + 1, |Frames(c)|)
              && OnSendNext(w) == w.(cloud := After(w.cloud, f), down := w.down + [f], phase := OnSendNext(w).phase)
            else OnSendNext(w) == w.(cloud := After(w.cloud, f), phase := Over)
  {
  }

  /** Sending is possible only while a request is going up. */
  lemma SendingIsUploading(w: World, h: History)
    requires Inv(w, h) && CanSend(w)
    ensures h.stage.Uploading? && ExchangeFits(h.context) && UploadHolds(w, h.context, h.stage.sent, h.stage.taken)
    ensures w.phase == Sending(h.context.id, h.context.exchange, h.context.deadline, h.stage.sent)
  {
  }

  lemma SendKeeps(w: World, h: History) returns (g: History)
    requires Inv(w, h)
    ensures g.context == h.context
    ensures CanSend(w) ==>
              h.stage.Uploading?
              && g == (if OnSendNext(w).phase == Over then h
                       else History(h.context, Uploading(h.stage.sent + 1, h.stage.taken)))
    ensures Inv(OnSendNext(w), g)
  {
    g := h;
    if CanSend(w) {
      SendingIsUploading(w, h);
      var more := SendKeepsUpload(w, h.context, h.stage.sent, h.stage.taken);
      g := History(h.context, more);
      StillUploading(w, OnSendNext(w), h.context, h.stage, more);
    }
  }

  lemma SendKeepsUpload(w: World, c: Context, sent: nat, taken: nat) returns (more: Stage)
    requires ExchangeFits(c) && UploadHolds(w, c, sent, taken)
    requires CanSend(w) && w.phase == Sending(c.id, c.exchange, c.deadline, sent)
    ensures more.Uploading? && UploadHolds(OnSendNext(w), c, more.sent, more.taken)
    ensures more.taken == taken && more.sent == if OnSendNext(w).phase == Over then sent else sent + 1
    ensures OnSendNext(w).calls == w.calls && OnSendNext(w).replies == w.replies
  {
    SendEffect(w, c, sent);
    if Accepts(w.cloud, Frames(c)[sent]) {
      UploadAfterSend(w, c, sent, taken, OnSendNext(w).phase);
      more := Uploading(sent + 1, taken);
    } else {
      more := Uploading(sent, taken);
    }
  }

  lemma StillUploading(w: World, v: World, c: Context, before: Stage, after: Stage)
    requires before.Uploading? && after.Uploading? && Inv(w, History(c, before))
    requires UploadHolds(v, c, after.sent, after.taken) && v.calls == w.calls && v.replies == w.replies
    ensures Inv(v, History(c, after))
  {
  }

  lemma CutOffKeeps(w: World, h: History)
    requires Inv(w, h)
    ensures Inv(OnCutOff(w), h)
  {
    if CanSend(w) {
      SendingIsUploading(w, h);
    }
  }

  // ---- Steps of the connector ------------------------------------------------------------

  lemma StartTaken(c: Context, at: nat, maxInFlight: nat)
    requires ExchangeFits(c) && maxInFlight > 0 && Accepts(c.base, Frames(c)[0])
    ensures OnFrame(Empty(c.base), Frames(c)[0], at, maxInFlight)
            == Reaction(Uploaded(c, After(c.base, Frames(c)[0]), 1), [], Continue)
  {
    var f := Frames(c)[0].control;
    StartEffect(Empty(c.base), f, at, maxInFlight);
    assert |Empty(c.base).pending| == 0 && |Empty(c.base).active| == 0;
  }

  lemma ChunkTaken(c: Context, s: Session, k: nat, at: nat, maxInFlight: nat)
    requires ExchangeFits(c) && k < |Chunks(c.exchange.body)| && Accepts(s, Frames(c)[k + 1])
    ensures OnFrame(Uploaded(c, s, k + 1), Frames(c)[k + 1], at, maxInFlight)
            == Reaction(Uploaded(c, After(s, Frames(c)[k + 1]), k + 2), [], Continue)
  {
    var body := c.exchange.body;
    RequestFrameAt(c.id, c.exchange, c.deadline, k);
    ReachStep(body, k);
    assert Uploaded(c, s, k + 1).pending[c.id := Buffered(c, k + 2)] == map[c.id := Buffered(c, k + 2)];
  }

  lemma ReachStep(body: seq<byte>, k: nat)
    requires k < |Chunks(body)|
    ensures body[..Reach(body, k)] + Chunks(body)[k] == body[..Reach(body, k + 1)]
  {
    assert (k + 1) * 0x1_0000 == k * 0x1_0000 + 0x1_0000;
    assert Chunks(body)[k] == body[Reach(body, k)..Reach(body, k + 1)];
  }

  /** What the connector does with the last request frame. */
  ghost predicate EndReaction(c: Context, r: Reaction, late: bool) {
    && r.verdict == Continue
    && (if late then
          r.sent == [Connector.Failed(c.id, Timeout, Text(DeadlineExpired))] && r.state == Empty(Closed(c))
        else
          r.sent == []
          && r.state == Empty(Asked(c)).(active := {c.id}, spawned := map[c.id := RequestOf(c.exchange)]))
  }

  /** The last request frame: the upstream task starts with the exchange's own request, unless
      the deadline has passed. */
  lemma EndTaken(c: Context, s: Session, at: nat, maxInFlight: nat)
    requires ExchangeFits(c) && Reached(c.base, Frames(c), |Frames(c)| - 1, s)
    ensures EndReaction(c, OnFrame(Uploaded(c, s, |Frames(c)| - 1), Frames(c)[|Frames(c)| - 1], at, maxInFlight),
              c.deadline <= at)
  {
    var n := |Chunks(c.exchange.body)|;
    ChunkCountBounds(c.exchange.body);
    RequestPrefix(c.base, c.id, c.exchange, c.deadline, n);
    EndTakenIn(c, s, at, maxInFlight);
  }

  lemma EndTakenIn(c: Context, s: Session, at: nat, maxInFlight: nat)
    requires ExchangeFits(c)
    requires var n := |Chunks(c.exchange.body)|;
             s == c.base.(seen := c.base.seen + {c.id}, flows := map[c.id := RequestBody(n, Reach(c.exchange.body, n))])
    ensures EndReaction(c, Connector.OnControl(Uploaded(c, s, |Chunks(c.exchange.body)| + 1), RequestEnd(c.id), at,
              maxInFlight), c.deadline <= at)
  {
    var n := |Chunks(c.exchange.body)|;
    var d := Uploaded(c, s, n + 1);
    WholeBodyBuffered(c);
    EndEffect(d, c.id, at, maxInFlight);
    assert ControlStep(s, RequestEnd(c.id)).error.None?;
    assert d.pending - {c.id} == map[];
    assert s.flows - {c.id} == map[];
    assert s.flows[c.id := AwaitingResponse] == map[c.id := AwaitingResponse];
  }

  lemma WholeBodyBuffered(c: Context)
    requires ExchangeFits(c)
    ensures Buffered(c, |Chunks(c.exchange.body)| + 1).body == c.exchange.body
  {
    ChunkCountBounds(c.exchange.body);
  }

  lemma SliceHead<T>(frames: seq<T>, i: nat, j: nat)
    requires i < j <= |frames|
    ensures frames[i..j] == [frames[i]] + frames[i..j][1..] && frames[i..j][1..] == frames[i + 1..j]
  {
  }

  lemma UploadAfterTake(w: World, c: Context, sent: nat, taken: nat)
    requires ExchangeFits(c) && UploadHolds(w, c, sent, taken) && w.alive && taken < sent
    ensures w.down == [Frames(c)[taken]] + w.down[1..] && w.down[1..] == Frames(c)[taken + 1..sent]
    ensures Accepts(w.connector.session, Frames(c)[taken])
    ensures Reached(c.base, Frames(c), taken + 1, After(w.connector.session, Frames(c)[taken]))
  {
    var frames := Frames(c);
    SliceHead(frames, taken, sent);
    PrefixAccepted(c.base, frames, taken + 1, sent);
    Advance(c.base, frames, taken);
  }

  /** The connector has something to read only while a request is going up. */
  lemma DownIsUploading(w: World, h: History)
    requires Inv(w, h) && w.alive && w.down != []
    ensures h.stage.Uploading? && h.stage.taken < h.stage.sent
    ensures ExchangeFits(h.context) && UploadHolds(w, h.context, h.stage.sent, h.stage.taken)
  {
  }

  lemma DeliverKeeps(w: World, h: History, at: nat, maxInFlight: nat, fits: TextCap) returns (g: History)
    requires Inv(w, h) && maxInFlight > 0
    ensures g.context == h.context
    ensures w.alive && w.down != [] && HeadFits(w, fits) ==>
              h.stage.Uploading? && g.context == h.context
              && (Engaged(g.stage) || g.stage == Uploading(h.stage.sent, h.stage.taken + 1))
    ensures Inv(OnDeliver(w, at, maxInFlight, fits), g)
    ensures w.alive && HeadFits(w, fits) ==> OnDeliver(w, at, maxInFlight, fits).alive
  {
    g := h;
    if w.alive && w.down != [] {
      DownIsUploading(w, h);
      var c, sent, taken := h.context, h.stage.sent, h.stage.taken;
      assert h == History(c, Uploading(sent, taken));
      if !HeadFits(w, fits) {
        UnreadKeeps(w, h, at, maxInFlight, fits);
      } else if taken == |Frames(c)| - 1 {
        assert sent == |Frames(c)|;
        g := EndKeeps(w, c, at, maxInFlight, fits);
      } else {
        g := MiddleKeeps(w, c, sent, taken, at, maxInFlight, fits);
      }
    }
  }

  lemma UnreadKeeps(w: World, h: History, at: nat, maxInFlight: nat, fits: TextCap)
    requires Inv(w, h) && h.stage.Uploading? && w.alive && w.down != [] && !HeadFits(w, fits)
    ensures Inv(OnDeliver(w, at, maxInFlight, fits), h)
  {
  }

  /** What the connector reads next is not too long for it. */
  predicate HeadFits(w: World, fits: TextCap) {
    w.down != [] ==> FrameFits(w.down[0], fits)
  }

  lemma MiddleKeeps(w: World, c: Context, sent: nat, taken: nat, at: nat, maxInFlight: nat, fits: TextCap)
    returns (g: History)
    requires HeadFits(w, fits)
    requires ExchangeFits(c) && Inv(w, History(c, Uploading(sent, taken))) && taken < sent && w.alive
    requires maxInFlight > 0 && taken < |Frames(c)| - 1
    ensures g == History(c, Uploading(sent, taken + 1))
    ensures Inv(OnDeliver(w, at, maxInFlight, fits), g)
    ensures OnDeliver(w, at, maxInFlight, fits).alive
  {
    TakeKeeps(w, c, sent, taken, at, maxInFlight, fits);
    g := History(c, Uploading(sent, taken + 1));
    StillUploading(w, OnDeliver(w, at, maxInFlight, fits), c, Uploading(sent, taken), Uploading(sent, taken + 1));
  }

  lemma TakeKeeps(w: World, c: Context, sent: nat, taken: nat, at: nat, maxInFlight: nat, fits: TextCap)
    requires HeadFits(w, fits)
    requires ExchangeFits(c) && UploadHolds(w, c, sent, taken) && taken < sent && w.alive
    requires maxInFlight > 0 && taken < |Frames(c)| - 1
    ensures OnDeliver(w, at, maxInFlight, fits).alive
    ensures UploadHolds(OnDeliver(w, at, maxInFlight, fits), c, sent, taken + 1)
    ensures OnDeliver(w, at, maxInFlight, fits).calls == w.calls
              && OnDeliver(w, at, maxInFlight, fits).replies == w.replies
  {
    UploadAfterTake(w, c, sent, taken);
    if taken == 0 {
      StartTaken(c, at, maxInFlight);
    } else {
      ChunkTaken(c, w.connector.session, taken - 1, at, maxInFlight);
    }
    assert NewTasks(map[], map[]) == map[];
  }

  lemma EndKeeps(w: World, c: Context, at: nat, maxInFlight: nat, fits: TextCap) returns (g: History)
    requires HeadFits(w, fits)
    requires ExchangeFits(c) && w.alive && maxInFlight > 0
    requires Inv(w, History(c, Uploading(|Frames(c)|, |Frames(c)| - 1)))
    ensures g.context == c && Engaged(g.stage)
    ensures Inv(OnDeliver(w, at, maxInFlight, fits), g)
    ensures OnDeliver(w, at, maxInFlight, fits).alive
  {
    var n := |Frames(c)|;
    LastDelivered(w, c, at, maxInFlight, fits);
    WholeAsked(c, Run(c.base, Frames(c)[..n]));
    Stranger(w.calls, w.replies, c);
    if c.deadline <= at {
      g := History(c, Answering(Bad(Timeout, Text(DeadlineExpired)), 0));
      LateAnswers(w, c);
    } else {
      g := History(c, Working);
    }
  }

  /** A request that is complete only after its deadline is answered with a failure. */
  lemma LateAnswers(w: World, c: Context)
    requires ExchangeFits(c) && UploadHolds(w, c, |Frames(c)|, |Frames(c)| - 1)
    requires Run(c.base, Frames(c)[..|Frames(c)|]) == Asked(c)
    ensures var answer := Bad(Timeout, Text(DeadlineExpired));
            AnswerHolds(w.(connector := Empty(Closed(c)), down := [], up := AnswerFrames(c, answer)), c, answer, 0)
  {
    TextAllowed(DeadlineExpired);
    FailureAnswers(c, Timeout, Text(DeadlineExpired));
    var frames := [Connector.Failed(c.id, Timeout, Text(DeadlineExpired))];
    assert frames[0..] == frames;
  }

  /** Delivering the last request frame. */
  lemma LastDelivered(w: World, c: Context, at: nat, maxInFlight: nat, fits: TextCap)
    requires HeadFits(w, fits)
    requires ExchangeFits(c) && w.alive && UploadHolds(w, c, |Frames(c)|, |Frames(c)| - 1)
    ensures var v := OnDeliver(w, at, maxInFlight, fits);
            if c.deadline <= at then
              v == w.(connector := Empty(Closed(c)), down := [],
                up := [Connector.Failed(c.id, Timeout, Text(DeadlineExpired))])
            else
              v == w.(connector := Empty(Asked(c)).(active := {c.id}, spawned := map[c.id := RequestOf(c.exchange)]),
                down := [],
                      tasks := map[c.id := Running(RequestOf(c.exchange))])
  {
    EndTaken(c, w.connector.session, at, maxInFlight);
    var f := Frames(c)[|Frames(c)| - 1];
    assert w.down == [f];
    DeliverEnd(w, c, f, OnFrame(w.connector, f, at, maxInFlight), at, maxInFlight, fits);
  }

  lemma DeliverEnd(w: World, c: Context, f: Frame, r: Reaction, at: nat, maxInFlight: nat, fits: TextCap)
    requires HeadFits(w, fits)
    requires w.alive && w.down == [f] && w.up == [] && w.tasks == map[] && w.connector.spawned == map[]
    requires r == OnFrame(w.connector, f, at, maxInFlight) && EndReaction(c, r, c.deadline <= at)
    ensures var v := OnDeliver(w, at, maxInFlight, fits);
            if c.deadline <= at then v == w.(connector := r.state, down := [], up := r.sent)
            else v == w.(connector := r.state, down := [], tasks := map[c.id := Running(RequestOf(c.exchange))])
  {
    assert NewTasks(map[], map[]) == map[];
    assert NewTasks(map[], map[c.id := RequestOf(c.exchange)]) == map[c.id := Running(RequestOf(c.exchange))];
  }

  lemma WholeAsked(c: Context, s: Session)
    requires ExchangeFits(c) && Reached(c.base, Frames(c), |Frames(c)|, s)
    ensures s == Asked(c) && c.id !in c.base.seen && SessionInv(Closed(c))
  {
    ChunkCountBounds(c.exchange.body);
    assert Frames(c)[..|Frames(c)|] == Frames(c);
    RequestWhole(c.base, c.id, c.exchange, c.deadline);
    RunKeepsInv(c.base, Frames(c));
    QuietInv(c.base, Asked(c), c.id);
  }

  /** A fresh identifier has no calls yet, and may be added to the known ones. */
  lemma Stranger(calls: seq<Call>, replies: map<Uuid, Reply>, c: Context)
    requires Ledger(calls, replies, c.base.seen) && c.id !in c.base.seen
    ensures CallsFor(calls, c.id) == [] && c.id !in replies
    ensures Ledger(calls, replies, c.base.seen + {c.id})
  {
    CallsForStranger(calls, c.id);
  }

  lemma FailureAnswers(c: Context, code: FailureCode, message: string)
    requires ExchangeFits(c) && MessageAllowed(message)
    ensures var frames := [Connector.Failed(c.id, code, message)];
            Reached(Asked(c), frames, 0, Asked(c)) && Reached(Asked(c), frames, 1, Closed(c))
  {
    var frames := [Connector.Failed(c.id, code, message)];
    FailureAccepted(Asked(c), c.id, code, message);
    assert frames[..0] == [] && frames[..1] == frames;
    assert Asked(c).flows - {c.id} == map[];
  }

  // ---- Tasks ---------------------------------------------------------------------------

  lemma TaskEndsKeeps(w: World, h: History, id: Uuid, outcome: Outcome, called: bool)
    requires Inv(w, h)
    ensures Inv(OnTaskEnds(w, id, outcome, called), h)
  {
    var c := h.context;
    var v := OnTaskEnds(w, id, outcome, called);
    if v != w {
      assert h.stage == Working && id == c.id;
      var call := Call(id, RequestOf(c.exchange), if outcome.Answer? then Some(outcome.response) else None);
      if called {
        LedgerAfterCall(w.calls, w.replies, c, call);
        CallsForSnoc(w.calls, call, id);
      } else {
        assert v.calls == w.calls;
      }
    }
  }

  /** The first call for an identifier that has no reply. */
  lemma LedgerAfterCall(calls: seq<Call>, replies: map<Uuid, Reply>, c: Context, call: Call)
    requires Ledger(calls, replies, c.base.seen + {c.id}) && call.id == c.id
    requires CallsFor(calls, c.id) == [] && c.id !in replies
    ensures Ledger(calls + [call], replies, c.base.seen + {c.id})
  {
    forall id: Uuid
      ensures CallsFor(calls + [call], id) == CallsFor(calls, id) + if call.id == id then [call] else []
    {
      CallsForSnoc(calls, call, id);
    }
  }

  lemma ResponseAnswers(c: Context, response: ProxyResponse)
    requires ExchangeFits(c) && |response.body| <= MAX_RESPONSE_BODY_BYTES
    requires Accepted(Asked(c), ResponseFrames(c.id, response))
    ensures var frames := ResponseFrames(c.id, response);
            Reached(Asked(c), frames, 0, Asked(c)) && Reached(Asked(c), frames, |frames|, Closed(c))
  {
    var frames := ResponseFrames(c.id, response);
    ResponseAccepted(Asked(c), c.id, response);
    assert frames[..0] == [] && frames[..|frames|] == frames;
    assert Asked(c).flows - {c.id} == map[];
  }

  /** What the connector does with an outcome of the only task. */
  lemma OutcomeReaction(c: Context, outcome: Outcome)
    requires ExchangeFits(c)
    requires outcome.Answer? ==> |outcome.response.body| <= MAX_RESPONSE_BODY_BYTES
    ensures var r := OnOutcome(Empty(Asked(c)).(active := {c.id}, spawned := map[c.id := RequestOf(c.exchange)]),
              c.id, outcome);
            || (r == Reaction(Empty(Closed(c)), OutcomeFrames(c.id, outcome), Continue)
                && Reached(Asked(c), OutcomeFrames(c.id, outcome), 0, Asked(c))
                && Reached(Asked(c), OutcomeFrames(c.id, outcome), |OutcomeFrames(c.id, outcome)|, Closed(c)))
            || (r.verdict.Stop? && r.sent == [])
  {
    var d := Empty(Asked(c));
    assert {c.id} - {c.id} == {} && map[c.id := RequestOf(c.exchange)] - {c.id} == map[];
    SendAccepted(d, OutcomeFrames(c.id, outcome));
    match outcome
    case Answer(response) =>
      var frames := ResponseFrames(c.id, response);
      ResponseAccepted(Asked(c), c.id, response);
      if Accepted(Asked(c), frames) {
        ResponseAnswers(c, response);
        assert frames[..|frames|] == frames;
      } else {
        ResponseStartEffect(Asked(c), c.id, response.status, response.headers);
        assert frames[..0] == [];
        StopsAt(Asked(c), frames, 0);
      }
    case Failure(error) =>
      TextAllowed(Refusal.LocalFailure);
      FailureAnswers(c, FailureCodeOf(error), Text(Refusal.LocalFailure));
      var frames := [Connector.Failed(c.id, FailureCodeOf(error), Text(Refusal.LocalFailure))];
      assert frames[..1] == frames;
  }

  lemma HandKeeps(w: World, h: History, id: Uuid) returns (g: History)
    requires Inv(w, h)
    ensures g.context == h.context
    ensures w.alive && id in w.tasks && w.tasks[id].Returned? && OnHand(w, id).alive ==> g.stage.Answering?
    ensures Inv(OnHand(w, id), g)
  {
    g := h;
    if w.alive && id in w.tasks && w.tasks[id].Returned? {
      var c, v, outcome := h.context, OnHand(w, id), w.tasks[id].outcome;
      assert h == History(c, Working) && id == c.id;
      HandEffect(w, c, outcome);
      if v.alive {
        g := History(c, Answering(AnswerOf(outcome), 0));
        TextAllowed(Refusal.LocalFailure);
        assert AnswerFrames(c, AnswerOf(outcome))[0..] == AnswerFrames(c, AnswerOf(outcome));
      }
    }
  }

  function AnswerOf(outcome: Outcome): Answer {
    match outcome
    case Answer(response) => Good(response)
    case Failure(error) => Bad(FailureCodeOf(error), Text(Refusal.LocalFailure))
  }

  /** Handing over the outcome of the only task: the whole answer goes out, or the connector's
      own observer refused the upstream's status or headers before anything was written. */
  lemma HandEffect(w: World, c: Context, outcome: Outcome)
    requires ExchangeFits(c) && WorkHolds(w, c) && w.alive && w.tasks[c.id] == Returned(outcome)
    ensures var v := OnHand(w, c.id);
            var frames := AnswerFrames(c, AnswerOf(outcome));
            if v.alive then
              v == w.(connector := Empty(Closed(c)), up := frames, tasks := map[])
              && Reached(Asked(c), frames, 0, Asked(c)) && Reached(Asked(c), frames, |frames|, Closed(c))
            else v == w.(connector := v.connector, alive := false, tasks := map[])
  {
    OutcomeReaction(c, outcome);
    HandOver(w, c.id, outcome);
    AnswerIsOutcome(c, outcome);
  }

  lemma AnswerIsOutcome(c: Context, outcome: Outcome)
    ensures AnswerFrames(c, AnswerOf(outcome)) == OutcomeFrames(c.id, outcome)
  {
  }

  lemma HandOver(w: World, id: Uuid, outcome: Outcome)
    requires w.alive && w.up == [] && id in w.tasks && w.tasks[id] == Returned(outcome) && w.tasks.Keys <= {id}
    ensures var r := OnOutcome(w.connector, id, outcome);
            OnHand(w, id) == w.(connector := r.state, up := r.sent, alive := !r.verdict.Stop?, tasks := map[])
  {
    assert w.tasks - {id} == map[];
  }

  lemma DieKeeps(w: World, h: History, kept: nat)
    requires Inv(w, h)
    ensures Inv(w.(alive := false, up := if kept < |w.up| then w.up[..kept] else w.up), h)
  {
  }

  // ---- The cloud hears the answer ----------------------------------------------------------

  /** The next frame of the answer: accepted, and understood as the part it is. */
  lemma HearPart(c: Context, response: ProxyResponse, s: Session, phase: CloudPhase, heard: nat)
    requires heard < |ResponseFrames(c.id, response)| - 1 && HearsAt(phase, c, Good(response), heard)
    requires |response.body| <= MAX_RESPONSE_BODY_BYTES
    requires Accepts(s, ResponseFrames(c.id, response)[heard])
    ensures var f := ResponseFrames(c.id, response)[heard];
            var r := OnMessage(c.id, Receiving(s, phase.status, phase.headers, phase.body), Message(f));
            && r.More? && r.reply == [] && r.state.session == After(s, f)
            && HearsAt(Listening(c.id, c.exchange, r.state.status, r.state.headers, r.state.body), c, Good(response),
                 heard + 1)
  {
    if heard > 0 {
      var k := heard - 1;
      ReachStep(response.body, k);
      assert ResponseFrames(c.id, response)[heard] == ChunkFrames(ResponseChunk, c.id, response.body)[k];
    }
  }

  lemma HearEnd(c: Context, response: ProxyResponse, s: Session, phase: CloudPhase)
    requires HearsAt(phase, c, Good(response), |ResponseFrames(c.id, response)| - 1)
    requires Accepts(s, Control(ResponseEnd(c.id)))
    ensures OnMessage(c.id, Receiving(s, phase.status, phase.headers, phase.body), Message(Control(ResponseEnd(c.id))))
            == Done(After(s, Control(ResponseEnd(c.id))), response)
  {
    ChunkCountBounds(response.body);
    assert response.body[..|response.body|] == response.body;
  }

  lemma RestIsOver(w: World, h: History)
    requires Inv(w, h) && h.stage.AtRest?
    ensures !InExchange(w.phase)
  {
  }

  /** The cloud has something to read only while an answer comes down. */
  lemma UpIsAnswering(w: World, h: History)
    requires Inv(w, h) && w.up != [] && w.phase != Over
    ensures h.stage.Answering? && h == History(h.context, Answering(h.stage.answer, h.stage.heard))
    ensures ExchangeFits(h.context) && AnswerHolds(w, h.context, h.stage.answer, h.stage.heard)
  {
  }

  lemma StillAnswering(w: World, v: World, c: Context, answer: Answer, heard: nat)
    requires Inv(w, History(c, Answering(answer, heard))) && ExchangeFits(c) && AnswerHolds(v, c, answer, heard + 1)
    requires v.calls == w.calls && v.replies == w.replies
    ensures Inv(v, History(c, Answering(answer, heard + 1)))
  {
  }

  lemma NothingToHear(w: World)
    requires w.up == [] || w.phase == Over
    ensures OnReceive(w) == w
  {
  }

  lemma ReceiveKeeps(w: World, h: History) returns (g: History)
    requires Inv(w, h)
    ensures g.stage.AtRest? || g.context == h.context
    ensures w.up != [] && w.phase != Over ==>
              h.stage.Answering?
              && (g.stage == AtRest || g == History(h.context, Answering(h.stage.answer, h.stage.heard + 1)))
    ensures Inv(OnReceive(w), g)
  {
    g := h;
    if w.up != [] && w.phase != Over {
      UpIsAnswering(w, h);
      var c, answer, heard := h.context, h.stage.answer, h.stage.heard;
      if heard == |AnswerFrames(c, answer)| - 1 {
        g := History(Context(Closed(c), c.id, c.exchange, c.deadline), AtRest);
        LastHeard(w, c, answer);
      } else {
        g := History(c, Answering(answer, heard + 1));
        PartHeard(w, c, answer, heard);
        StillAnswering(w, OnReceive(w), c, answer, heard);
      }
    } else {
      NothingToHear(w);
    }
  }

  /** The session moves along the answer, and ends where the connector's does. */
  lemma NextHeard(c: Context, answer: Answer, heard: nat, s: Session)
    requires heard < |AnswerFrames(c, answer)|
    requires Reached(Asked(c), AnswerFrames(c, answer), heard, s)
    requires Reached(Asked(c), AnswerFrames(c, answer), |AnswerFrames(c, answer)|, Closed(c))
    ensures var f := AnswerFrames(c, answer)[heard];
            && Accepts(s, f) && Reached(Asked(c), AnswerFrames(c, answer), heard + 1, After(s, f))
            && (heard + 1 == |AnswerFrames(c, answer)| ==> After(s, f) == Closed(c))
  {
    PrefixAccepted(Asked(c), AnswerFrames(c, answer), heard + 1, |AnswerFrames(c, answer)|);
    Advance(Asked(c), AnswerFrames(c, answer), heard);
  }

  lemma PartEffect(w: World, c: Context, response: ProxyResponse, heard: nat)
    requires heard < |ResponseFrames(c.id, response)| - 1 && HearsAt(w.phase, c, Good(response), heard)
    requires |response.body| <= MAX_RESPONSE_BODY_BYTES
    requires w.up != [] && w.up[0] == ResponseFrames(c.id, response)[heard] && Accepts(w.cloud, w.up[0])
    ensures var v := OnReceive(w);
            v == w.(cloud := After(w.cloud, w.up[0]), up := w.up[1..], phase := v.phase)
            && HearsAt(v.phase, c, Good(response), heard + 1)
  {
    HearPart(c, response, w.cloud, w.phase, heard);
    assert w.down + [] == w.down;
  }

  lemma RestOfAnswer(up: seq<Frame>, frames: seq<Frame>, heard: nat)
    requires heard < |frames| && up != [] && up <= frames[heard..]
    ensures up[0] == frames[heard] && up[1..] <= frames[heard + 1..]
    ensures up == frames[heard..] ==> up[1..] == frames[heard + 1..]
  {
    assert frames[heard..][1..] == frames[heard + 1..];
  }

  lemma AnswerAfterPart(w: World, c: Context, answer: Answer, heard: nat, phase: CloudPhase)
    requires ExchangeFits(c) && AnswerHolds(w, c, answer, heard) && heard + 1 < |AnswerFrames(c, answer)|
    requires w.phase != Over && w.up != [] && HearsAt(phase, c, answer, heard + 1)
    ensures AnswerHolds(w.(cloud := After(w.cloud, AnswerFrames(c, answer)[heard]), up := w.up[1..], phase := phase),
              c, answer, heard + 1)
  {
    NextHeard(c, answer, heard, w.cloud);
    RestOfAnswer(w.up, AnswerFrames(c, answer), heard);
  }

  lemma HeadHeard(w: World, c: Context, answer: Answer, heard: nat)
    requires ExchangeFits(c) && AnswerHolds(w, c, answer, heard) && w.up != [] && w.phase != Over
    ensures w.up[0] == AnswerFrames(c, answer)[heard] && Accepts(w.cloud, w.up[0])
    ensures heard == |AnswerFrames(c, answer)| - 1 ==> w.up[1..] == [] && After(w.cloud, w.up[0]) == Closed(c)
  {
    NextHeard(c, answer, heard, w.cloud);
  }

  lemma PartHeard(w: World, c: Context, answer: Answer, heard: nat)
    requires ExchangeFits(c) && AnswerHolds(w, c, answer, heard) && heard + 1 < |AnswerFrames(c, answer)|
    requires w.up != [] && w.phase != Over
    ensures AnswerHolds(OnReceive(w), c, answer, heard + 1)
    ensures OnReceive(w).alive == w.alive && OnReceive(w).phase != Over
    ensures OnReceive(w).calls == w.calls && OnReceive(w).replies == w.replies
  {
    HeadHeard(w, c, answer, heard);
    PartEffect(w, c, answer.response, heard);
    AnswerAfterPart(w, c, answer, heard, OnReceive(w).phase);
  }

  lemma LastHeard(w: World, c: Context, answer: Answer)
    requires Inv(w, History(c, Answering(answer, |AnswerFrames(c, answer)| - 1)))
    requires w.up != [] && w.phase != Over
    ensures Inv(OnReceive(w), History(Context(Closed(c), c.id, c.exchange, c.deadline), AtRest))
  {
    HeadHeard(w, c, answer, |AnswerFrames(c, answer)| - 1);
    LastEffect(w, c, answer);
    match answer
    case Bad(_, _) => RestAfterBad(w, c, answer);
    case Good(response) => RestAfterGood(w, c, response);
  }

  lemma RestAfterBad(w: World, c: Context, answer: Answer)
    requires Inv(w, History(c, Answering(answer, |AnswerFrames(c, answer)| - 1)))
    ensures Inv(w.(up := [], phase := Over), History(Context(Closed(c), c.id, c.exchange, c.deadline), AtRest))
  {
  }

  /** An Ok result: the call log names exactly its response. */
  lemma RestAfterGood(w: World, c: Context, response: ProxyResponse)
    requires Inv(w, History(c, Answering(Good(response), |ResponseFrames(c.id, response)| - 1)))
    ensures var reply := Reply(c.exchange, response);
            Inv(w.(cloud := Closed(c), up := [], phase := Waiting, replies := w.replies[c.id := reply]),
                History(Context(Closed(c), c.id, c.exchange, c.deadline), AtRest))
  {
    LedgerAfterReply(w.calls, w.replies, c, Reply(c.exchange, response));
  }

  lemma LedgerAfterReply(calls: seq<Call>, replies: map<Uuid, Reply>, c: Context, reply: Reply)
    requires Ledger(calls, replies, c.base.seen + {c.id}) && Faithful(calls, c.id, reply)
    ensures Ledger(calls, replies[c.id := reply], c.base.seen + {c.id})
  {
  }

  /** Hearing the last frame of an answer: a result for the caller, or the end of the session. */
  lemma LastEffect(w: World, c: Context, answer: Answer)
    requires HearsAt(w.phase, c, answer, |AnswerFrames(c, answer)| - 1)
    requires w.up != [] && w.up[0] == AnswerFrames(c, answer)[|AnswerFrames(c, answer)| - 1]
               && Accepts(w.cloud, w.up[0])
    ensures var v := w.(up := w.up[1..]);
            OnReceive(w) ==
              match answer
              case Bad(_, _) => v.(phase := Over)
              case Good(response) =>
                v.(cloud := After(w.cloud, w.up[0]), phase := Waiting,
                  replies := w.replies[c.id := Reply(c.exchange, response)])
  {
    if answer.Good? {
      HearEnd(c, answer.response, w.cloud, w.phase);
    }
  }

  // ---- Every run ---------------------------------------------------------------------------

  lemma ApplyKeeps(w: World, h: History, e: Step, maxInFlight: nat, fits: TextCap) returns (g: History)
    requires Inv(w, h) && maxInFlight > 0
    ensures Inv(Apply(w, e, maxInFlight, fits), g)
    ensures InExchange(w.phase) && InExchange(Apply(w, e, maxInFlight, fits).phase) ==> g.context == h.context
  {
    match e {
      case Begin(id, ex, now) => g := BeginKeeps(w, h, id, ex, now);
      case SendNext => g := SendKeeps(w, h);
      case CutOff => CutOffKeeps(w, h); g := h;
      case Receive =>
        g := ReceiveKeeps(w, h);
        if g.stage.AtRest? {
          RestIsOver(OnReceive(w), g);
        }
      case Abort => AbortKeeps(w, h); g := h;
      case Deliver(at) => g := DeliverKeeps(w, h, at, maxInFlight, fits);
      case Die(kept) => DieKeeps(w, h, kept); g := h;
      case TaskEnds(id, outcome, called) => TaskEndsKeeps(w, h, id, outcome, called); g := h;
      case Hand(id) => g := HandKeeps(w, h, id);
    }
  }

  lemma {:induction false} InvInRun(es: seq<Step>, maxInFlight: nat, fits: TextCap) returns (h: History)
    requires maxInFlight > 0
    ensures Inv(Play(es, maxInFlight, fits), h)
  {
    if es == [] {
      h := History(Context(FRESH_SESSION, 0, Exchange("GET", "", [], []), 1), AtRest);
    } else {
      var g := InvInRun(es[..|es| - 1], maxInFlight, fits);
      h := ApplyKeeps(Play(es[..|es| - 1], maxInFlight, fits), g, es[|es| - 1], maxInFlight, fits);
    }
  }

  /** End-to-end safety: in every interleaving of both loops, the upstream tasks, timeouts and
      failures, every exchange that returned Ok was one upstream call, no more and no less, made
      with that exchange's method, target, headers and whole body, and the returned status,
      headers and body are exactly the response of that call.  No exchange of any kind reaches
      the upstream twice. */
  lemma EndToEnd(es: seq<Step>, maxInFlight: nat, fits: TextCap)
    requires maxInFlight > 0
    ensures var w := Play(es, maxInFlight, fits);
            && (forall id :: id in w.replies ==>
                  CallsFor(w.calls, id) == [Call(id, RequestOf(w.replies[id].exchange), Some(w.replies[id].response))])
            && (forall id: Uuid :: |CallsFor(w.calls, id)| <= 1)
  {
    var h := InvInRun(es, maxInFlight, fits);
    var w := Play(es, maxInFlight, fits);
    forall id | id in w.replies
      ensures CallsFor(w.calls, id) == [Call(id, RequestOf(w.replies[id].exchange), Some(w.replies[id].response))]
    {
      assert Faithful(w.calls, id, w.replies[id]);
    }
  }

  /** One exchange direction at a time, and each observer sees what the other's saw; the cloud's
      own state counts only until its session is over.  A frame in flight makes the connector stop
      only if its text is too long. */
  ghost predicate InLockstep(w: World, maxInFlight: nat, fits: TextCap) {
    && (w.down == [] || w.up == [])
    && (w.phase != Over ==> Accepted(w.cloud, w.up))
    && (w.alive ==>
          && Accepted(w.connector.session, w.down)
          && (w.phase != Over ==> Run(w.connector.session, w.down) == Run(w.cloud, w.up))
          && (w.down != [] && FrameFits(w.down[0], fits) ==>
                forall at :: !OnFrame(w.connector, w.down[0], at, maxInFlight).verdict.Stop?))
  }

  lemma Cut<T>(frames: seq<T>, i: nat, j: nat)
    requires i <= j <= |frames|
    ensures frames[..j] == frames[..i] + frames[i..j]
  {
  }

  /** Taking the rest of a reached list from where the reader stands. */
  lemma RestReached(s: Session, frames: seq<Frame>, i: nat, j: nat, t: Session, u: Session)
    requires i <= j && Reached(s, frames, i, t) && Reached(s, frames, j, u)
    ensures Accepted(t, frames[i..j]) && Run(t, frames[i..j]) == u
  {
    Cut(frames, i, j);
    RunAppend(s, frames[..i], frames[i..j]);
  }

  lemma UploadIsLockstep(w: World, c: Context, sent: nat, taken: nat)
    requires ExchangeFits(c) && UploadHolds(w, c, sent, taken) && w.alive
    ensures Accepted(w.connector.session, w.down)
    ensures w.phase != Over ==> Run(w.connector.session, w.down) == w.cloud
  {
    RestReached(c.base, Frames(c), taken, sent, w.connector.session, Run(c.base, Frames(c)[..sent]));
  }

  lemma AnswerIsLockstep(w: World, c: Context, answer: Answer, heard: nat)
    requires ExchangeFits(c) && AnswerHolds(w, c, answer, heard) && w.phase != Over
    ensures Accepted(w.cloud, w.up)
    ensures w.alive ==> Run(w.cloud, w.up) == w.connector.session
  {
    var frames := AnswerFrames(c, answer);
    RestReached(Asked(c), frames, heard, |frames|, w.cloud, Closed(c));
    assert frames[heard..|frames|] == frames[heard..];
    PrefixAccepted(w.cloud, frames[heard..], |w.up|, |frames[heard..]|);
    assert w.up == frames[heard..][..|w.up|];
  }

  lemma NeverStopped(w: World, h: History, maxInFlight: nat, fits: TextCap)
    requires Inv(w, h) && maxInFlight > 0 && w.alive && w.down != [] && HeadFits(w, fits)
    ensures forall at :: !OnFrame(w.connector, w.down[0], at, maxInFlight).verdict.Stop?
  {
    forall at: nat
      ensures !OnFrame(w.connector, w.down[0], at, maxInFlight).verdict.Stop?
    {
      var _ := DeliverKeeps(w, h, at, maxInFlight, fits);
    }
  }

  lemma InvIsLockstep(w: World, h: History, maxInFlight: nat, fits: TextCap)
    requires Inv(w, h) && maxInFlight > 0
    ensures InLockstep(w, maxInFlight, fits)
  {
    match h.stage {
      case AtRest =>
      case Working =>
      case Uploading(sent, taken) =>
        if w.alive {
          UploadIsLockstep(w, h.context, sent, taken);
        }
      case Answering(answer, heard) =>
        if w.phase != Over {
          AnswerIsLockstep(w, h.context, answer, heard);
        }
    }
    if w.alive && w.down != [] && HeadFits(w, fits) {
      NeverStopped(w, h, maxInFlight, fits);
    }
  }

  /** Lockstep agreement, across every exchange of a session: one queue direction is always
      empty; draining the queues makes both session states equal, flows and seen identifiers
      alike; no frame one side's observer accepted is rejected by the other's, and a frame in flight
      makes the connector stop only when its text is over the connector's limit. */
  lemma Lockstep(es: seq<Step>, maxInFlight: nat, fits: TextCap)
    requires maxInFlight > 0
    ensures InLockstep(Play(es, maxInFlight, fits), maxInFlight, fits)
  {
    var h := InvInRun(es, maxInFlight, fits);
    InvIsLockstep(Play(es, maxInFlight, fits), h, maxInFlight, fits);
  }
}
