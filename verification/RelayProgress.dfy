/** The composed protocol does its job: from any reachable resting state an exchange that the
    session accepts can complete exactly when its control frames are not too long for the
    connector, what the caller then gets is what the upstream said, and an exchange under way never
    gets stuck by itself.  So the safety results of `RelayProtocol` are not about a protocol that
    never answers. */
module RelayProgress {
  import opened Common
  import opened RelayFrames
  import opened RelaySession
  import opened RelayChunks
  import opened Connector
  import opened CloudExchange
  import opened RelayProtocol

  /** A quiet session takes a whole request exactly when its head is legal, its identifier is new
      and the session's identifier budget is not used up. */
  lemma RequestAcceptedIff(s: Session, id: Uuid, ex: Exchange, deadline: u64)
    requires SessionInv(s) && Quiet(s) && IsHttpMethod(ex.verb) && |ex.body| <= MAX_REQUEST_BODY_BYTES
    ensures Accepted(s, RequestFrames(id, ex, deadline)) <==>
            RequestStartError(RequestStart(id, ex.verb, ex.target, ex.headers, deadline)) == None
            && id !in s.seen && |s.seen| < MAX_REQUEST_IDS_PER_SESSION
  {
    var start := Control(RequestStart(id, ex.verb, ex.target, ex.headers, deadline));
    var chunks, end := ChunkFrames(RequestChunk, id, ex.body), Control(RequestEnd(id));
    RunAppend(s, [start] + chunks, [end]);
    RunAppend(s, [start], chunks);
    SingleFrame(s, start);
    RequestStartEffect(s, id, ex, deadline);
    StartAcceptedIff(s, start.control);
    if Accepts(s, start) {
      RestAccepted(After(s, start), id, ex.body);
    }
  }

  lemma StartAcceptedIff(s: Session, f: ControlFrame)
    requires Quiet(s) && f.RequestStart?
    ensures Accepts(s, Control(f)) <==>
            RequestStartError(f) == None && f.id !in s.seen && |s.seen| < MAX_REQUEST_IDS_PER_SESSION
  {
  }

  lemma RestAccepted(t: Session, id: Uuid, body: seq<byte>)
    requires t.handshake == Ready && t.flows == map[id := RequestBody(0, 0)] && |body| <= MAX_REQUEST_BODY_BYTES
    ensures Accepted(t, ChunkFrames(RequestChunk, id, body))
    ensures Accepted(Run(t, ChunkFrames(RequestChunk, id, body)), [Control(RequestEnd(id))])
  {
    ChunkCountBounds(body);
    ChunkAndReassemble(t, RequestChunk, id, body);
    EndAccepted(Run(t, ChunkFrames(RequestChunk, id, body)), id);
  }

  lemma EndAccepted(t: Session, id: Uuid)
    requires t.handshake == Ready && id in t.flows && t.flows[id].RequestBody?
    ensures Accepted(t, [Control(RequestEnd(id))])
  {
    SingleFrame(t, Control(RequestEnd(id)));
  }

  lemma PlayMore(w: World, es: seq<Step>, e: Step, maxInFlight: nat, fits: TextCap)
    ensures PlayFrom(w, es + [e], maxInFlight, fits) == Apply(PlayFrom(w, es, maxInFlight, fits), e, maxInFlight, fits)
  {
    assert (es + [e])[..|es|] == es;
  }

  /** The whole request is on the wire and the connector took `n` frames of it. */
  ghost predicate AllSent(v: World, w: World, c: Context, n: nat)
    requires ExchangeFits(c)
  {
    Same(v, w) && w.phase != Over && UploadHolds(w, c, |Frames(c)|, n)
  }

  /** The cloud can send the rest of an acceptable request. */
  lemma {:induction false} SendsAll(v: World, es: seq<Step>, c: Context, n: nat, maxInFlight: nat, fits: TextCap)
    returns (fs: seq<Step>)
    requires ExchangeFits(c) && Accepted(c.base, Frames(c)) && n < |Frames(c)| && v.alive
    requires var w := PlayFrom(v, es, maxInFlight, fits);
             UploadHolds(w, c, n, 0) && w.phase == Sending(c.id, c.exchange, c.deadline, n) && Same(v, w)
    ensures AllSent(v, PlayFrom(v, fs, maxInFlight, fits), c, 0)
    decreases |Frames(c)| - n
  {
    var w := PlayFrom(v, es, maxInFlight, fits);
    fs := es + [SendNext];
    PlayMore(v, es, SendNext, maxInFlight, fits);
    AcceptedNext(c, n, w.cloud);
    SendEffect(w, c, n);
    UploadAfterSend(w, c, n, 0, OnSendNext(w).phase);
    if n + 1 < |Frames(c)| {
      fs := SendsAll(v, fs, c, n + 1, maxInFlight, fits);
    }
  }

  /** Nothing but the exchange itself has moved. */
  ghost predicate Same(v: World, w: World) {
    w.calls == v.calls && w.replies == v.replies && w.alive == v.alive
  }

  lemma AcceptedNext(c: Context, n: nat, s: Session)
    requires IsHttpMethod(c.exchange.verb) && n < |Frames(c)| && Accepted(c.base, Frames(c))
    requires Reached(c.base, Frames(c), n, s)
    ensures Accepts(s, Frames(c)[n])
  {
    assert Frames(c)[..|Frames(c)|] == Frames(c);
    PrefixAccepted(c.base, Frames(c), n + 1, |Frames(c)|);
    Advance(c.base, Frames(c), n);
  }

  function StartOf(c: Context): ControlFrame
    requires IsHttpMethod(c.exchange.verb)
  {
    RequestStart(c.id, c.exchange.verb, c.exchange.target, c.exchange.headers, c.deadline)
  }

  /** Neither control frame of the request is too long for the connector. */
  predicate RequestFits(c: Context, fits: TextCap)
    requires IsHttpMethod(c.exchange.verb)
  {
    fits(StartOf(c)) && fits(RequestEnd(c.id))
  }

  /** The request is two control frames with body frames between them. */
  lemma FrameAtFits(c: Context, k: nat, fits: TextCap)
    requires IsHttpMethod(c.exchange.verb) && k < |Frames(c)|
    ensures |Frames(c)| == |Chunks(c.exchange.body)| + 2
    ensures Frames(c)[0] == Control(StartOf(c)) && Frames(c)[|Frames(c)| - 1] == Control(RequestEnd(c.id))
    ensures RequestFits(c, fits) ==> FrameFits(Frames(c)[k], fits)
  {
    if 0 < k < |Frames(c)| - 1 {
      RequestFrameAt(c.id, c.exchange, c.deadline, k - 1);
    }
  }

  /** The connector can take everything but the last frame. */
  lemma {:induction false} TakesAll(v: World, es: seq<Step>, c: Context, n: nat, maxInFlight: nat, fits: TextCap,
                                    at: nat)
    returns (fs: seq<Step>)
    requires ExchangeFits(c) && n < |Frames(c)| && v.alive && maxInFlight > 0
    requires AllSent(v, PlayFrom(v, es, maxInFlight, fits), c, n)
    requires IsHttpMethod(c.exchange.verb) && RequestFits(c, fits)
    ensures AllSent(v, PlayFrom(v, fs, maxInFlight, fits), c, |Frames(c)| - 1)
    decreases |Frames(c)| - n
  {
    if n == |Frames(c)| - 1 {
      fs := es;
    } else {
      PlayMore(v, es, Deliver(at), maxInFlight, fits);
      TakesOne(v, PlayFrom(v, es, maxInFlight, fits), c, n, maxInFlight, fits, at);
      fs := TakesAll(v, es + [Deliver(at)], c, n + 1, maxInFlight, fits, at);
    }
  }

  lemma PhaseStays(w: World, maxInFlight: nat, fits: TextCap, at: nat)
    ensures Apply(w, Deliver(at), maxInFlight, fits) == OnDeliver(w, at, maxInFlight, fits)
    ensures OnDeliver(w, at, maxInFlight, fits).phase == w.phase
  {
  }

  lemma TakesOne(v: World, w: World, c: Context, n: nat, maxInFlight: nat, fits: TextCap, at: nat)
    requires ExchangeFits(c) && n < |Frames(c)| - 1 && v.alive && maxInFlight > 0
    requires AllSent(v, w, c, n)
    requires IsHttpMethod(c.exchange.verb) && RequestFits(c, fits)
    ensures AllSent(v, Apply(w, Deliver(at), maxInFlight, fits), c, n + 1)
  {
    FrameAtFits(c, n, fits);
    TakeKeeps(w, c, |Frames(c)|, n, at, maxInFlight, fits);
    PhaseStays(w, maxInFlight, fits, at);
  }

  /** The connector's answer is out and the cloud heard `n` frames of it. */
  ghost predicate Hearing(v: World, w: World, c: Context, response: ProxyResponse, n: nat)
    requires ExchangeFits(c)
  {
    AnswerHolds(w, c, Good(response), n) && w.alive && w.phase != Over && w.replies == v.replies
  }

  /** The cloud can hear everything but the last frame of a response. */
  lemma {:induction false} HearsAll(v: World, es: seq<Step>, c: Context, response: ProxyResponse, n: nat,
                                    maxInFlight: nat, fits: TextCap)
    returns (fs: seq<Step>)
    requires ExchangeFits(c) && n < |ResponseFrames(c.id, response)|
    requires Hearing(v, PlayFrom(v, es, maxInFlight, fits), c, response, n)
    ensures Hearing(v, PlayFrom(v, fs, maxInFlight, fits), c, response, |ResponseFrames(c.id, response)| - 1)
    decreases |ResponseFrames(c.id, response)| - n
  {
    if n == |ResponseFrames(c.id, response)| - 1 {
      fs := es;
    } else {
      PlayReceive(v, es, maxInFlight, fits);
      HearsOne(v, PlayFrom(v, es, maxInFlight, fits), c, response, n);
      fs := HearsAll(v, es + [Receive], c, response, n + 1, maxInFlight, fits);
    }
  }

  lemma HearsOne(v: World, w: World, c: Context, response: ProxyResponse, n: nat)
    requires ExchangeFits(c) && n < |ResponseFrames(c.id, response)| - 1
    requires Hearing(v, w, c, response, n)
    ensures Hearing(v, OnReceive(w), c, response, n + 1)
  {
    AnswerLeft(w, c, Good(response), n);
    PartHeard(w, c, Good(response), n);
  }

  lemma AnswerLeft(w: World, c: Context, answer: Answer, n: nat)
    requires AnswerHolds(w, c, answer, n) && w.alive
    ensures w.up != []
  {
  }

  /** The last request frame starts the upstream task. */
  lemma StartsWork(w: World, c: Context, maxInFlight: nat, fits: TextCap, at: nat)
    requires at < c.deadline
    requires ExchangeFits(c) && w.alive && w.phase != Over && UploadHolds(w, c, |Frames(c)|, |Frames(c)| - 1)
    requires Ledger(w.calls, w.replies, c.base.seen)
    requires IsHttpMethod(c.exchange.verb) && RequestFits(c, fits)
    ensures var v := OnDeliver(w, at, maxInFlight, fits);
            && WorkHolds(v, c) && Same(w, v) && v.phase != Over
                 && v.tasks == map[c.id := Running(RequestOf(c.exchange))]
  {
    FrameAtFits(c, |Frames(c)| - 1, fits);
    LastDelivered(w, c, at, maxInFlight, fits);
    WholeAsked(c, w.cloud);
    Stranger(w.calls, w.replies, c);
  }

  /** The task may return what its one call produced. */
  lemma Returns(w: World, c: Context, response: ProxyResponse)
    requires WorkHolds(w, c) && w.tasks == map[c.id := Running(RequestOf(c.exchange))] && w.alive
    requires |response.body| <= MAX_RESPONSE_BODY_BYTES
    ensures var v := OnTaskEnds(w, c.id, Answer(response), true);
            && WorkHolds(v, c) && v.tasks == map[c.id := Returned(Answer(response))]
            && v.replies == w.replies && v.alive && v.phase == w.phase && AnsweredBy(v.calls, c, response)
  {
    ReturnEffect(w, c, response);
    CallsForSnoc(w.calls, Call(c.id, RequestOf(c.exchange), Some(response)), c.id);
  }

  lemma ReturnEffect(w: World, c: Context, response: ProxyResponse)
    requires w.tasks == map[c.id := Running(RequestOf(c.exchange))] && |response.body| <= MAX_RESPONSE_BODY_BYTES
    ensures OnTaskEnds(w, c.id, Answer(response), true)
              == w.(tasks := map[c.id := Returned(Answer(response))],
                    calls := w.calls + [Call(c.id, RequestOf(c.exchange), Some(response))])
  {
    assert w.tasks[c.id := Returned(Answer(response))] == map[c.id := Returned(Answer(response))];
  }

  /** The connector may hand a legal answer over. */
  lemma HandsOver(w: World, c: Context, response: ProxyResponse)
    requires ExchangeFits(c) && WorkHolds(w, c) && w.tasks == map[c.id := Returned(Answer(response))]
    requires w.alive && w.phase != Over && AnsweredBy(w.calls, c, response)
    requires ResponseStartError(ResponseStart(c.id, response.status, response.headers)) == None
    ensures var v := OnHand(w, c.id);
            AnswerHolds(v, c, Good(response), 0) && v.alive && v.phase != Over && v.replies == w.replies
  {
    LegalAnswerStays(w, c, response);
    HandEffect(w, c, Answer(response));
    assert AnswerFrames(c, Good(response))[0..] == AnswerFrames(c, Good(response));
  }

  /** After the last request frame the task runs; it may return, and be handed over. */
  lemma Answers(v: World, w: World, started: World, returned: World, c: Context, response: ProxyResponse,
                maxInFlight: nat, fits: TextCap, at: nat)
    requires at < c.deadline
    requires ExchangeFits(c) && v.alive && AllSent(v, w, c, |Frames(c)| - 1)
    requires Ledger(w.calls, w.replies, c.base.seen)
    requires |response.body| <= MAX_RESPONSE_BODY_BYTES
    requires ResponseStartError(ResponseStart(c.id, response.status, response.headers)) == None
    requires started == OnDeliver(w, at, maxInFlight, fits)
    requires returned == OnTaskEnds(started, c.id, Answer(response), true)
    requires IsHttpMethod(c.exchange.verb) && RequestFits(c, fits)
    ensures Hearing(v, OnHand(returned, c.id), c, response, 0)
  {
    StartsWork(w, c, maxInFlight, fits, at);
    Returns(started, c, response);
    HandsOver(returned, c, response);
  }

  lemma PlayDeliver(v: World, es: seq<Step>, maxInFlight: nat, fits: TextCap, at: nat)
    ensures PlayFrom(v, es + [Deliver(at)], maxInFlight, fits)
            == OnDeliver(PlayFrom(v, es, maxInFlight, fits), at, maxInFlight, fits)
  {
    PlayMore(v, es, Deliver(at), maxInFlight, fits);
  }

  lemma PlayReturn(v: World, es: seq<Step>, id: Uuid, outcome: Outcome, maxInFlight: nat, fits: TextCap)
    ensures PlayFrom(v, es + [TaskEnds(id, outcome, true)], maxInFlight, fits)
            == OnTaskEnds(PlayFrom(v, es, maxInFlight, fits), id, outcome, true)
  {
    PlayMore(v, es, TaskEnds(id, outcome, true), maxInFlight, fits);
  }

  lemma PlayHand(v: World, es: seq<Step>, id: Uuid, maxInFlight: nat, fits: TextCap)
    ensures PlayFrom(v, es + [Hand(id)], maxInFlight, fits) == OnHand(PlayFrom(v, es, maxInFlight, fits), id)
  {
    PlayMore(v, es, Hand(id), maxInFlight, fits);
  }

  lemma LegalAnswerStays(w: World, c: Context, response: ProxyResponse)
    requires ExchangeFits(c) && WorkHolds(w, c) && w.alive && w.tasks[c.id] == Returned(Answer(response))
    requires |response.body| <= MAX_RESPONSE_BODY_BYTES
    requires ResponseStartError(ResponseStart(c.id, response.status, response.headers)) == None
    ensures OnHand(w, c.id).alive
  {
    var d := Empty(Asked(c));
    ResponseAccepted(Asked(c), c.id, response);
    SendAccepted(d, ResponseFrames(c.id, response));
    assert {c.id} - {c.id} == {} && map[c.id := RequestOf(c.exchange)] - {c.id} == map[];
  }

  /** The deadline a request carries is thirty seconds after it was begun. */
  lemma ThirtySeconds(now: int)
    requires 0 <= now <= U64_MAX - 30_000
    ensures Deadline(now) == now + 30_000
  {
  }

  /** Completion: in every reachable state where the cloud waits and the connector is alive, an
      exchange that has begun, whose request the session accepts and the connector can read, has a
      schedule that ends with the caller holding exactly the response an upstream with a legal head
      returns, ready for the next; the connector may take the request at any clock reading before
      the deadline. */
  lemma Completes(
    w: World, h: History, id: Uuid, ex: Exchange, now: int, response: ProxyResponse,
    maxInFlight: nat, fits: TextCap, at: nat)
    returns (es: seq<Step>)
    requires at < Deadline(now)
    requires Inv(w, h) && w.phase == Waiting && w.alive && maxInFlight > 0
    requires IsHttpMethod(ex.verb) && |ex.body| <= MAX_REQUEST_BODY_BYTES
    requires Accepted(w.cloud, RequestFrames(id, ex, Deadline(now)))
    requires RequestFits(Context(w.cloud, id, ex, Deadline(now)), fits)
    requires |response.body| <= MAX_RESPONSE_BODY_BYTES
    requires ResponseStartError(ResponseStart(id, response.status, response.headers)) == None
    ensures var v := PlayFrom(OnBegin(w, id, ex, now), es, maxInFlight, fits);
            v.phase == Waiting && v.alive && v.replies == w.replies[id := Reply(ex, response)]
  {
    var c := Context(w.cloud, id, ex, Deadline(now));
    var v := OnBegin(w, id, ex, now);
    Begins(w, h, c, now);
    es := Uploads(v, c, maxInFlight, fits, at);
    es := Downloads(v, es, c, response, maxInFlight, fits, at);
  }

  lemma Uploads(v: World, c: Context, maxInFlight: nat, fits: TextCap, at: nat) returns (es: seq<Step>)
    requires ExchangeFits(c) && v.alive && maxInFlight > 0 && Accepted(c.base, Frames(c)) && RequestFits(c, fits)
    requires UploadHolds(v, c, 0, 0) && v.phase == Sending(c.id, c.exchange, c.deadline, 0)
    ensures AllSent(v, PlayFrom(v, es, maxInFlight, fits), c, |Frames(c)| - 1)
  {
    es := SendsAll(v, [], c, 0, maxInFlight, fits);
    es := TakesAll(v, es, c, 0, maxInFlight, fits, at);
  }

  /** The exchange is over and the caller holds this response. */
  ghost predicate Replied(v: World, w: World, c: Context, response: ProxyResponse) {
    w.phase == Waiting && w.alive && w.replies == v.replies[c.id := Reply(c.exchange, response)]
  }

  lemma Downloads(w: World, es: seq<Step>, c: Context, response: ProxyResponse, maxInFlight: nat, fits: TextCap,
                  at: nat)
    returns (fs: seq<Step>)
    requires at < c.deadline
    requires w.alive && ExchangeFits(c) && Ledger(w.calls, w.replies, c.base.seen)
    requires AllSent(w, PlayFrom(w, es, maxInFlight, fits), c, |Frames(c)| - 1)
    requires |response.body| <= MAX_RESPONSE_BODY_BYTES
    requires ResponseStartError(ResponseStart(c.id, response.status, response.headers)) == None
    requires IsHttpMethod(c.exchange.verb) && RequestFits(c, fits)
    ensures Replied(w, PlayFrom(w, fs, maxInFlight, fits), c, response)
  {
    fs := Answered(w, es, c, response, maxInFlight, fits, at);
    fs := HearsAll(w, fs, c, response, 0, maxInFlight, fits);
    HearsLast(w, fs, c, response, maxInFlight, fits);
    fs := fs + [Receive];
  }

  lemma HearsLast(v: World, es: seq<Step>, c: Context, response: ProxyResponse, maxInFlight: nat, fits: TextCap)
    requires ExchangeFits(c)
    requires Hearing(v, PlayFrom(v, es, maxInFlight, fits), c, response, |ResponseFrames(c.id, response)| - 1)
    ensures Replied(v, PlayFrom(v, es + [Receive], maxInFlight, fits), c, response)
  {
    Concludes(v, PlayFrom(v, es, maxInFlight, fits), c, response);
    PlayReceive(v, es, maxInFlight, fits);
  }

  lemma PlayReceive(v: World, es: seq<Step>, maxInFlight: nat, fits: TextCap)
    ensures PlayFrom(v, es + [Receive], maxInFlight, fits) == OnReceive(PlayFrom(v, es, maxInFlight, fits))
  {
    PlayMore(v, es, Receive, maxInFlight, fits);
  }

  lemma Answered(v: World, es: seq<Step>, c: Context, response: ProxyResponse, maxInFlight: nat, fits: TextCap, at: nat)
    returns (fs: seq<Step>)
    requires at < c.deadline
    requires v.alive && ExchangeFits(c) && Ledger(v.calls, v.replies, c.base.seen)
    requires AllSent(v, PlayFrom(v, es, maxInFlight, fits), c, |Frames(c)| - 1)
    requires |response.body| <= MAX_RESPONSE_BODY_BYTES
    requires ResponseStartError(ResponseStart(c.id, response.status, response.headers)) == None
    requires IsHttpMethod(c.exchange.verb) && RequestFits(c, fits)
    ensures Hearing(v, PlayFrom(v, fs, maxInFlight, fits), c, response, 0)
  {
    var w := PlayFrom(v, es, maxInFlight, fits);
    var started := OnDeliver(w, at, maxInFlight, fits);
    Answers(v, w, started, OnTaskEnds(started, c.id, Answer(response), true), c, response, maxInFlight, fits, at);
    PlayDeliver(v, es, maxInFlight, fits, at);
    fs := es + [Deliver(at)];
    PlayReturn(v, fs, c.id, Answer(response), maxInFlight, fits);
    fs := fs + [TaskEnds(c.id, Answer(response), true)];
    PlayHand(v, fs, c.id, maxInFlight, fits);
    fs := fs + [Hand(c.id)];
  }

  lemma Concludes(v: World, w: World, c: Context, response: ProxyResponse)
    requires ExchangeFits(c) && Hearing(v, w, c, response, |ResponseFrames(c.id, response)| - 1)
    ensures Replied(v, OnReceive(w), c, response)
  {
    HeadHeard(w, c, Good(response), |ResponseFrames(c.id, response)| - 1);
    LastEffect(w, c, Good(response));
  }

  /** The first step: the exchange is admitted, nothing is on the wire yet. */
  lemma Begins(w: World, h: History, c: Context, now: int)
    requires Inv(w, h) && w.phase == Waiting && c.base == w.cloud && c.deadline == Deadline(now)
    requires IsHttpMethod(c.exchange.verb) && |c.exchange.body| <= MAX_REQUEST_BODY_BYTES
    ensures var v := OnBegin(w, c.id, c.exchange, now);
            && ExchangeFits(c) && UploadHolds(v, c, 0, 0) && Same(w, v) && w.cloud == c.base
            && v.phase == Sending(c.id, c.exchange, c.deadline, 0) && Ledger(w.calls, w.replies, c.base.seen)
  {
    assert Frames(c)[..0] == [] && Frames(c)[0..0] == [];
  }

  /** The same over runs: whatever has happened since the session began, and however late within
      thirty seconds the connector reads its clock. */
  lemma EveryRunCanComplete(
    past: seq<Step>, id: Uuid, ex: Exchange, now: int, response: ProxyResponse,
    maxInFlight: nat, fits: TextCap, at: nat)
    returns (es: seq<Step>)
    requires 0 <= now <= U64_MAX - 30_000 && at < now + 30_000
    requires maxInFlight > 0
    requires var w := Play(past, maxInFlight, fits);
             && w.phase == Waiting && w.alive
             && IsHttpMethod(ex.verb) && |ex.body| <= MAX_REQUEST_BODY_BYTES
             && Accepted(w.cloud, RequestFrames(id, ex, Deadline(now)))
             && RequestFits(Context(w.cloud, id, ex, Deadline(now)), fits)
    requires |response.body| <= MAX_RESPONSE_BODY_BYTES
    requires ResponseStartError(ResponseStart(id, response.status, response.headers)) == None
    ensures var w := Play(past, maxInFlight, fits);
            var v := PlayFrom(OnBegin(w, id, ex, now), es, maxInFlight, fits);
            v.phase == Waiting && v.alive && v.replies == w.replies[id := Reply(ex, response)]
  {
    ThirtySeconds(now);
    var h := InvInRun(past, maxInFlight, fits);
    es := Completes(Play(past, maxInFlight, fits), h, id, ex, now, response, maxInFlight, fits, at);
  }
}
