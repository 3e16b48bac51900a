/** The connector's session loop (crates/c6-connector/src/runtime.rs:119-320): three tables
    beside the shared session state, one step per event.  Frames arrive typed; a transport
    failure simply ends the loop and is not an event here. */
module Connector {
  import opened Common
  import opened RelayFrames
  import opened RelaySession
  import opened RelayChunks

  datatype PendingRequest = PendingRequest(
    verb: HttpMethod, target: string, headers: seq<HeaderField>, body: seq<byte>, deadline: u64, rejected: bool)

  datatype ProxyRequest = ProxyRequest(verb: string, target: string, headers: seq<HeaderField>, body: seq<byte>)

  datatype ProxyError = InvalidRequest | Unavailable | TimedOut | ResponseTooLarge

  datatype Outcome = Answer(response: ProxyResponse) | Failure(error: ProxyError)

  /** `spawned` holds the upstream tasks whose outcome the loop has not taken yet, running or
      queued on the outgoing channel. */
  datatype ConnectorState = ConnectorState(
    session: Session,
    pending: map<Uuid, PendingRequest>,
    active: set<Uuid>,
    cancelled: set<Uuid>,
    spawned: map<Uuid, ProxyRequest>)

  /** The branches that only a disagreement between tables and session could reach. */
  datatype Site = DuplicatePending | EndWithoutPending | NotARequestChunk | ChunkWithoutPending

  datatype StopReason = Refused(error: ValidationError) | Unexpected | Inconsistent(site: Site)

  /** `Ignored` is the `continue` taken when a request ends that the tables call cancelled. */
  datatype Verdict = Continue | Ignored | Stop(reason: StopReason)

  datatype Reaction = Reaction(state: ConnectorState, sent: seq<Frame>, verdict: Verdict)

  // ---- Sending ------------------------------------------------------------------

  /** How many frames are observed without a rejection. */
  function AcceptedPrefix(s: Session, fs: seq<Frame>): (n: nat)
    ensures n <= |fs|
    ensures Accepted(s, fs) <==> n == |fs|
  {
    if fs == [] then 0
    else
      var n := AcceptedPrefix(s, fs[..|fs| - 1]);
      if n == |fs| - 1 && Accepts(Run(s, fs[..|fs| - 1]), fs[|fs| - 1]) then |fs| else n
  }

  /** A rejection after an accepted prefix is where sending stops. */
  lemma {:induction false} StopsAt(s: Session, fs: seq<Frame>, i: nat)
    requires i < |fs| && Accepted(s, fs[..i])
    ensures !Accepts(Run(s, fs[..i]), fs[i]) ==>
              AcceptedPrefix(s, fs) == i && Run(s, fs[..i + 1]) == After(Run(s, fs[..i]), fs[i])
  {
    assert fs[..i + 1][..i] == fs[..i];
    if i < |fs| - 1 {
      var front := fs[..|fs| - 1];
      assert front[..i] == fs[..i];
      StopsAt(s, front, i);
    }
  }

  function ErrorOf(s: Session, f: Frame): ValidationError {
    match Observe(s, f).error
    case Some(error) => error
    case None => IllegalTransition
  }

  /** Observe each frame, then write it; the first rejection ends the session. */
  function Send(c: ConnectorState, frames: seq<Frame>): Reaction {
    var n := AcceptedPrefix(c.session, frames);
    if n == |frames| then Reaction(c.(session := Run(c.session, frames)), frames, Continue)
    else Reaction(c.(session := Run(c.session, frames[..n + 1])), frames[..n],
      Stop(Refused(ErrorOf(Run(c.session, frames[..n]), frames[n]))))
  }

  function Failed(id: Uuid, code: FailureCode, message: string): Frame {
    Control(RequestFailed(id, code, message))
  }

  /** The fixed texts of `send_failure`. */
  datatype Refusal = LimitReached | DeadlineExpired | LocalFailure

  function Text(r: Refusal): string {
    match r
    case LimitReached => "connector concurrency limit reached"
    case DeadlineExpired => "request deadline expired"
    case LocalFailure => "local C6 request failed"
  }

  function FailureCodeOf(error: ProxyError): FailureCode {
    match error
    case InvalidRequest => Protocol
    case Unavailable => BadGateway
    case ResponseTooLarge => BadGateway
    case TimedOut => Timeout
  }

  function ResponseFrames(id: Uuid, r: ProxyResponse): seq<Frame> {
    [Control(ResponseStart(id, r.status, r.headers))] + ChunkFrames(ResponseChunk, id, r.body)
      + [Control(ResponseEnd(id))]
  }

  function OutcomeFrames(id: Uuid, outcome: Outcome): seq<Frame> {
    match outcome
    case Answer(r) => ResponseFrames(id, r)
    case Failure(error) => [Failed(id, FailureCodeOf(error), Text(LocalFailure))]
  }

  // ---- One event ----------------------------------------------------------------

  function OnControl(c: ConnectorState, f: ControlFrame, now: nat, maxInFlight: nat): Reaction {
    var o := ControlStep(c.session, f);
    var d := c.(session := o.session);
    if o.error.Some? then Reaction(d, [], Stop(Refused(o.error.value)))
    else
      match f
      case RequestStart(_, _, _, _, _) => OnRequestStart(d, f, maxInFlight)
      case RequestEnd(id) => OnRequestEnd(d, id, now)
      case Cancel(id) => OnCancel(d, id)
      case Ping(nonce) => Send(d, [Control(Pong(nonce))])
      case Pong(_) => Reaction(d, [], Continue)
      case _ => Reaction(d, [], Stop(Unexpected))
  }

  function OnRequestStart(d: ConnectorState, f: ControlFrame, maxInFlight: nat): Reaction
    requires f.RequestStart?
  {
    if f.id in d.pending then Reaction(d, [], Stop(Inconsistent(DuplicatePending)))
    else
      var rejected := |d.pending| + |d.active| >= maxInFlight;
      var request := PendingRequest(f.verb, f.target, f.headers, [], f.deadline, rejected);
      Reaction(d.(pending := d.pending[f.id := request]), [], Continue)
  }

  function OnCancel(d: ConnectorState, id: Uuid): Reaction {
    if id in d.pending then Reaction(d.(pending := d.pending - {id}), [], Continue)
    else if id in d.active then Reaction(d.(cancelled := d.cancelled + {id}), [], Continue)
    else Reaction(d, [], Continue)
  }

  function OnRequestEnd(d: ConnectorState, id: Uuid, now: nat): Reaction {
    if id in d.cancelled then Reaction(d.(cancelled := d.cancelled - {id}), [], Ignored)
    else if id !in d.pending then Reaction(d, [], Stop(Inconsistent(EndWithoutPending)))
    else
      var request := d.pending[id];
      var e := d.(pending := d.pending - {id});
      if request.rejected then Send(e, [Failed(id, BadGateway, Text(LimitReached))])
      else if request.deadline <= now then Send(e, [Failed(id, Timeout, Text(DeadlineExpired))])
      else
        Reaction(
          e.(active := e.active + {id},
             spawned := e.spawned[id := ProxyRequest(request.verb, request.target, request.headers, request.body)]),
          [], Continue)
  }

  function OnBody(c: ConnectorState, f: BodyFrame): Reaction {
    var o := BodyStep(c.session, f);
    var d := c.(session := o.session);
    if o.error.Some? then Reaction(d, [], Stop(Refused(o.error.value)))
    else if f.kind != RequestChunk then Reaction(d, [], Stop(Inconsistent(NotARequestChunk)))
    else if f.id !in d.pending then Reaction(d, [], Stop(Inconsistent(ChunkWithoutPending)))
    else
      var request := d.pending[f.id];
      Reaction(d.(pending := d.pending[f.id := request.(body := request.body + f.payload)]), [], Continue)
  }

  function OnFrame(c: ConnectorState, f: Frame, now: nat, maxInFlight: nat): Reaction {
    match f
    case Control(control) => OnControl(c, control, now, maxInFlight)
    case Body(body) => OnBody(c, body)
  }

  function OnOutcome(c: ConnectorState, id: Uuid, outcome: Outcome): Reaction {
    var d := c.(active := c.active - {id}, spawned := c.spawned - {id});
    if id in d.cancelled then Reaction(d.(cancelled := d.cancelled - {id}), [], Continue)
    else Send(d, OutcomeFrames(id, outcome))
  }

  // ---- The tables refine the session ----------------------------------------------

  ghost function Admitted(pending: map<Uuid, PendingRequest>): set<Uuid> {
    set id | id in pending && !pending[id].rejected
  }

  /** No response is under way between events. */
  ghost predicate SessionFits(s: Session) {
    SessionInv(s) && s.handshake == Ready && forall id :: id in s.flows ==> !s.flows[id].ResponseBody?
  }

  ghost predicate PendingAgrees(s: Session, pending: map<Uuid, PendingRequest>) {
    && (forall id :: id in pending <==> id in s.flows && s.flows[id].RequestBody?)
    && (forall id :: id in pending ==> |pending[id].body| == s.flows[id].bytes)
  }

  ghost predicate ActiveAgrees(c: ConnectorState) {
    && (forall id :: id in c.active - c.cancelled <==> id in c.session.flows && c.session.flows[id].AwaitingResponse?)
    && c.cancelled <= c.active <= c.session.seen
    && c.active !! c.pending.Keys
    && c.active == c.spawned.Keys
  }

  /** What holds whenever the loop waits for the next event. */
  ghost predicate TablesAgree(c: ConnectorState, maxInFlight: nat) {
    && SessionFits(c.session)
    && PendingAgrees(c.session, c.pending)
    && ActiveAgrees(c)
    && |c.active| + |Admitted(c.pending)| <= maxInFlight
  }

  /** The tables never contradict the session, so these verdicts cannot happen. */
  predicate Consistent(v: Verdict) {
    v != Ignored && !(v.Stop? && v.reason.Inconsistent?)
  }

  lemma InitialTables(maxInFlight: nat)
    ensures TablesAgree(ConnectorState(FRESH_SESSION, map[], {}, {}, map[]), maxInFlight)
  {
    assert Admitted(map[]) == {};
  }

  /** A start is refused, or it opens a pending request under a fresh identifier. */
  lemma StartEffect(c: ConnectorState, f: ControlFrame, now: nat, maxInFlight: nat)
    requires f.RequestStart? && c.pending.Keys <= c.session.seen
    ensures var r := OnControl(c, f, now, maxInFlight);
            var request :=
              PendingRequest(f.verb, f.target, f.headers, [], f.deadline, |c.pending| + |c.active| >= maxInFlight);
            (r.verdict.Stop? && r.verdict.reason.Refused?)
            || (f.id !in c.session.seen && r.verdict == Continue && r.sent == []
                && r.state == c.(session :=
                     c.session.(seen := c.session.seen + {f.id}, flows := c.session.flows[f.id := RequestBody(0, 0)]),
                                 pending := c.pending[f.id := request]))
  {
  }

  lemma TablesAfterStart(c: ConnectorState, id: Uuid, request: PendingRequest, maxInFlight: nat)
    requires TablesAgree(c, maxInFlight) && id !in c.session.seen
    requires request.body == [] && (request.rejected || |c.pending| + |c.active| < maxInFlight)
    requires var t := c.session.(seen := c.session.seen + {id}, flows := c.session.flows[id := RequestBody(0, 0)]);
             SessionInv(t)
    ensures var t := c.session.(seen := c.session.seen + {id}, flows := c.session.flows[id := RequestBody(0, 0)]);
            TablesAgree(c.(session := t, pending := c.pending[id := request]), maxInFlight)
  {
    var t := c.session.(seen := c.session.seen + {id}, flows := c.session.flows[id := RequestBody(0, 0)]);
    AdmittedAdd(c.pending, id, request);
    AdmittedBound(c.pending);
    PendingAfterStart(c.session, t, c.pending, id, request);
    ActiveAfterStart(c, t, id, request);
  }

  lemma PendingAfterStart(s: Session, t: Session, pending: map<Uuid, PendingRequest>, id: Uuid, request: PendingRequest)
    requires PendingAgrees(s, pending) && request.body == [] && t.flows == s.flows[id := RequestBody(0, 0)]
    ensures PendingAgrees(t, pending[id := request])
  {
  }

  lemma ActiveAfterStart(c: ConnectorState, t: Session, id: Uuid, request: PendingRequest)
    requires ActiveAgrees(c) && id !in c.session.seen
    requires t.flows == c.session.flows[id := RequestBody(0, 0)] && c.session.seen <= t.seen
    ensures ActiveAgrees(c.(session := t, pending := c.pending[id := request]))
  {
  }

  lemma AdmittedAdd(pending: map<Uuid, PendingRequest>, id: Uuid, request: PendingRequest)
    requires id !in pending
    ensures |Admitted(pending[id := request])| == |Admitted(pending)| + if request.rejected then 0 else 1
  {
    assert Admitted(pending[id := request]) == Admitted(pending) + if request.rejected then {} else {id};
  }

  lemma AdmittedRemove(pending: map<Uuid, PendingRequest>, id: Uuid)
    requires id in pending
    ensures |Admitted(pending - {id})| == |Admitted(pending)| - if pending[id].rejected then 0 else 1
  {
    assert Admitted(pending - {id}) == Admitted(pending) - {id};
  }

  lemma StartKeepsTables(c: ConnectorState, f: ControlFrame, now: nat, maxInFlight: nat)
    requires TablesAgree(c, maxInFlight) && f.RequestStart?
    ensures var r := OnControl(c, f, now, maxInFlight);
            Consistent(r.verdict) && (r.verdict == Continue ==> TablesAgree(r.state, maxInFlight))
  {
    ControlKeeps(c.session, f);
    StartEffect(c, f, now, maxInFlight);
    var r := OnControl(c, f, now, maxInFlight);
    if r.verdict == Continue {
      TablesAfterStart(c, f.id, r.state.pending[f.id], maxInFlight);
    }
  }

  lemma AdmittedBound(pending: map<Uuid, PendingRequest>)
    ensures |Admitted(pending)| <= |pending|
  {
    assert Admitted(pending) <= pending.Keys;
    SubsetSize(Admitted(pending), pending.Keys);
    assert |pending.Keys| == |pending|;
  }

  /** A failure message of the connector is always accepted for an open flow. */
  lemma FailureAccepted(s: Session, id: Uuid, code: FailureCode, message: string)
    requires s.handshake == Ready && id in s.flows && MessageAllowed(message)
    ensures Accepted(s, [Failed(id, code, message)])
    ensures Run(s, [Failed(id, code, message)]) == s.(flows := s.flows - {id})
  {
    var f := Failed(id, code, message);
    assert [f][..0] == [];
    assert Run(s, [f]) == After(Run(s, []), f);
    assert Accepted(s, [f]) <==> Accepted(s, []) && Accepts(Run(s, []), f);
  }

  lemma TextPlain(r: Refusal)
    ensures |Text(r)| <= 40 && forall c :: c in Text(r) ==> !IsControl(c)
  {
    match r
    case LimitReached => LimitReachedPlain();
    case DeadlineExpired => DeadlineExpiredPlain();
    case LocalFailure => LocalFailurePlain();
  }

  lemma LimitReachedPlain()
    ensures |Text(LimitReached)| <= 40 && forall c :: c in Text(LimitReached) ==> !IsControl(c)
  {
  }

  lemma DeadlineExpiredPlain()
    ensures |Text(DeadlineExpired)| <= 40 && forall c :: c in Text(DeadlineExpired) ==> !IsControl(c)
  {
  }

  lemma LocalFailurePlain()
    ensures |Text(LocalFailure)| <= 40 && forall c :: c in Text(LocalFailure) ==> !IsControl(c)
  {
  }

  lemma ShortPlainAllowed(s: string)
    requires |s| <= 50 && forall c :: c in s ==> !IsControl(c)
    ensures MessageAllowed(s)
  {
    PrefixBytesBound(s, |s|);
  }

  lemma {:induction false} PrefixBytesBound(s: string, n: nat)
    requires n <= |s|
    ensures PrefixBytes(s, n) <= 4 * n
  {
    if n != 0 {
      PrefixBytesBound(s, n - 1);
    }
  }

  lemma TextAllowed(r: Refusal)
    ensures MessageAllowed(Text(r))
  {
    TextPlain(r);
    ShortPlainAllowed(Text(r));
  }

  /** The end of a request that is pending: refused by the session, answered with a failure,
      or handed to the upstream. */
  lemma EndEffect(c: ConnectorState, id: Uuid, now: nat, maxInFlight: nat)
    requires c.session.handshake == Ready && id !in c.cancelled
    requires id in c.session.flows && c.session.flows[id].RequestBody? ==> id in c.pending
    ensures var r := OnControl(c, RequestEnd(id), now, maxInFlight);
            if ControlStep(c.session, RequestEnd(id)).error.Some? then r.verdict.Stop? && r.verdict.reason.Refused?
            else
              (id in c.pending && id in c.session.flows && c.session.flows[id].RequestBody? && r.verdict == Continue
                && var request := c.pending[id];
                   var d := c.(pending := c.pending - {id});
                   if request.rejected || request.deadline <= now then
                     r.state == d.(session := c.session.(flows := c.session.flows - {id}))
                     && r.sent == [if request.rejected then Failed(id, BadGateway, Text(LimitReached))
                                   else Failed(id, Timeout, Text(DeadlineExpired))]
                   else
                     r.sent == []
                     && r.state == d.(session := c.session.(flows := c.session.flows[id := AwaitingResponse]),
                                      active := c.active + {id},
                                      spawned := c.spawned[id :=
                                        ProxyRequest(request.verb, request.target, request.headers, request.body)]))
  {
    if id in c.session.flows && c.session.flows[id].RequestBody? {
      var request := c.pending[id];
      if request.rejected || request.deadline <= now {
        var t := c.session.(flows := c.session.flows[id := AwaitingResponse]);
        var refusal := if request.rejected then LimitReached else DeadlineExpired;
        TextAllowed(refusal);
        FailureAccepted(t, id, if request.rejected then BadGateway else Timeout, Text(refusal));
        assert t.flows - {id} == c.session.flows - {id};
      }
    }
  }

  /** Closing a pending request leaves the other entries in agreement. */
  lemma TablesAfterClose(c: ConnectorState, id: Uuid, maxInFlight: nat)
    requires TablesAgree(c, maxInFlight) && id in c.pending
    ensures TablesAgree(c.(session := c.session.(flows := c.session.flows - {id}), pending := c.pending - {id}),
              maxInFlight)
  {
    RemovalKeepsInv(c.session, id);
    AdmittedRemove(c.pending, id);
  }

  /** Spawning moves one admitted entry from `pending` to `active`. */
  lemma TablesAfterSpawn(c: ConnectorState, id: Uuid, request: ProxyRequest, maxInFlight: nat)
    requires TablesAgree(c, maxInFlight) && id in c.pending && !c.pending[id].rejected
    ensures TablesAgree(Spawning(c, id, request), maxInFlight)
  {
    AwaitingKeepsInv(c.session, id);
    AdmittedRemove(c.pending, id);
    PendingAfterSpawn(c.session, c.pending, id);
    ActiveAfterSpawn(c, id, request);
  }

  function Spawning(c: ConnectorState, id: Uuid, request: ProxyRequest): ConnectorState {
    c.(session := c.session.(flows := c.session.flows[id := AwaitingResponse]),
       pending := c.pending - {id}, active := c.active + {id}, spawned := c.spawned[id := request])
  }

  lemma PendingAfterSpawn(s: Session, pending: map<Uuid, PendingRequest>, id: Uuid)
    requires PendingAgrees(s, pending)
    ensures PendingAgrees(s.(flows := s.flows[id := AwaitingResponse]), pending - {id})
  {
  }

  lemma ActiveAfterSpawn(c: ConnectorState, id: Uuid, request: ProxyRequest)
    requires ActiveAgrees(c) && id in c.pending && id in c.session.seen
    ensures ActiveAgrees(Spawning(c, id, request))
  {
  }

  lemma AwaitingKeepsInv(s: Session, id: Uuid)
    requires SessionInv(s) && id in s.flows
    ensures SessionInv(s.(flows := s.flows[id := AwaitingResponse]))
  {
    var t := s.(flows := s.flows[id := AwaitingResponse]);
    assert t.flows.Keys == s.flows.Keys;
    assert |t.flows| == |t.flows.Keys| && |s.flows| == |s.flows.Keys|;
  }

  lemma EndKeepsTables(c: ConnectorState, id: Uuid, now: nat, maxInFlight: nat)
    requires TablesAgree(c, maxInFlight)
    ensures var r := OnControl(c, RequestEnd(id), now, maxInFlight);
            Consistent(r.verdict) && (r.verdict == Continue ==> TablesAgree(r.state, maxInFlight))
  {
    if id in c.cancelled {
      assert id !in c.pending;
      assert ControlStep(c.session, RequestEnd(id)).error.Some?;
    } else {
      EndEffect(c, id, now, maxInFlight);
      var r := OnControl(c, RequestEnd(id), now, maxInFlight);
      if r.verdict == Continue {
        var request := c.pending[id];
        if request.rejected || request.deadline <= now {
          TablesAfterClose(c, id, maxInFlight);
        } else {
          TablesAfterSpawn(c, id, ProxyRequest(request.verb, request.target, request.headers, request.body),
            maxInFlight);
        }
      }
    }
  }

  lemma CancelKeepsTables(c: ConnectorState, id: Uuid, now: nat, maxInFlight: nat)
    requires TablesAgree(c, maxInFlight)
    ensures var r := OnControl(c, Cancel(id), now, maxInFlight);
            Consistent(r.verdict) && (r.verdict == Continue ==> TablesAgree(r.state, maxInFlight))
  {
    if id in c.pending {
      TablesAfterClose(c, id, maxInFlight);
    } else if id in c.session.flows {
      RemovalKeepsInv(c.session, id);
    }
  }

  lemma OtherControlKeepsTables(c: ConnectorState, f: ControlFrame, now: nat, maxInFlight: nat)
    requires TablesAgree(c, maxInFlight) && !f.RequestStart? && !f.RequestEnd? && !f.Cancel?
    ensures var r := OnControl(c, f, now, maxInFlight);
            Consistent(r.verdict) && (r.verdict == Continue ==> TablesAgree(r.state, maxInFlight))
  {
    if f.Ping? {
      SingleFrame(c.session, Control(Pong(f.nonce)));
    }
  }

  lemma BodyKeepsTables(c: ConnectorState, f: BodyFrame, maxInFlight: nat)
    requires TablesAgree(c, maxInFlight)
    ensures var r := OnBody(c, f);
            Consistent(r.verdict) && (r.verdict == Continue ==> TablesAgree(r.state, maxInFlight))
  {
    BodyKeeps(c.session, f);
    BodyEffect(c, f);
    var r := OnBody(c, f);
    if r.verdict == Continue {
      TablesAfterBody(c, f, r.state.session, maxInFlight);
    }
  }

  /** A chunk that is kept moves one flow and one buffer. */
  lemma BodyEffect(c: ConnectorState, f: BodyFrame)
    requires forall id :: id in c.session.flows ==> !c.session.flows[id].ResponseBody?
    requires forall id :: id in c.pending <==> id in c.session.flows && c.session.flows[id].RequestBody?
    ensures Consistent(OnBody(c, f).verdict)
    ensures var r := OnBody(c, f);
            r.verdict == Continue ==>
              && f.id in c.pending && f.id in c.session.flows && r.state.session.handshake == c.session.handshake
              && r.state.session.seen == c.session.seen
              && f.id in r.state.session.flows && r.state.session.flows[f.id].RequestBody?
              && r.state.session.flows == c.session.flows[f.id := r.state.session.flows[f.id]]
              && r.state.session.flows[f.id].bytes == c.session.flows[f.id].bytes + |f.payload|
              && r.state == c.(session := r.state.session, pending := Buffering(c.pending, f))
  {
  }

  function Buffering(pending: map<Uuid, PendingRequest>, f: BodyFrame): map<Uuid, PendingRequest>
    requires f.id in pending
  {
    pending[f.id := pending[f.id].(body := pending[f.id].body + f.payload)]
  }

  lemma TablesAfterBody(c: ConnectorState, f: BodyFrame, t: Session, maxInFlight: nat)
    requires TablesAgree(c, maxInFlight) && SessionInv(t) && t.handshake == Ready && t.seen == c.session.seen
    requires f.id in c.pending && f.id in t.flows && t.flows[f.id].RequestBody?
    requires t.flows == c.session.flows[f.id := t.flows[f.id]]
    requires t.flows[f.id].bytes == c.session.flows[f.id].bytes + |f.payload|
    ensures TablesAgree(c.(session := t, pending := Buffering(c.pending, f)), maxInFlight)
  {
    assert Admitted(Buffering(c.pending, f)) == Admitted(c.pending);
  }

  lemma ResponseStartEffect(s: Session, id: Uuid, status: nat, headers: seq<HeaderField>)
    requires s.handshake == Ready && id in s.flows && s.flows[id].AwaitingResponse?
    ensures var f := Control(ResponseStart(id, status, headers));
            (Accepts(s, f) <==> ResponseStartError(f.control) == None)
            && (Accepts(s, f) ==> After(s, f) == s.(flows := s.flows[id := ResponseBody(0, 0)]))
  {
  }

  lemma ResponseEndEffect(s: Session, id: Uuid)
    requires s.handshake == Ready && id in s.flows && s.flows[id].ResponseBody?
    ensures Accepts(s, Control(ResponseEnd(id)))
    ensures After(s, Control(ResponseEnd(id))) == s.(flows := s.flows - {id})
  {
  }

  /** The frames of a bounded response are accepted on an awaiting flow exactly when its status
      and headers are legal, and they close the flow. */
  lemma ResponseAccepted(s: Session, id: Uuid, r: ProxyResponse)
    requires s.handshake == Ready && id in s.flows && s.flows[id].AwaitingResponse?
    requires |r.body| <= MAX_RESPONSE_BODY_BYTES
    ensures Accepted(s, ResponseFrames(id, r)) <==> ResponseStartError(ResponseStart(id, r.status, r.headers)) == None
    ensures Accepted(s, ResponseFrames(id, r)) ==> Run(s, ResponseFrames(id, r)) == s.(flows := s.flows - {id})
  {
    var first, last := Control(ResponseStart(id, r.status, r.headers)), Control(ResponseEnd(id));
    var chunks := ChunkFrames(ResponseChunk, id, r.body);
    RunAppend(s, [first] + chunks, [last]);
    RunAppend(s, [first], chunks);
    SingleFrame(s, first);
    ResponseStartEffect(s, id, r.status, r.headers);
    if Accepts(s, first) {
      ResponseTail(s, id, r.body);
    }
  }

  lemma ResponseTail(s: Session, id: Uuid, body: seq<byte>)
    requires s.handshake == Ready && id in s.flows && |body| <= MAX_RESPONSE_BODY_BYTES
    ensures var t := s.(flows := s.flows[id := ResponseBody(0, 0)]);
            var chunks, last := ChunkFrames(ResponseChunk, id, body), Control(ResponseEnd(id));
            Accepted(t, chunks) && Accepted(Run(t, chunks), [last])
            && Run(Run(t, chunks), [last]) == s.(flows := s.flows - {id})
  {
    var t := s.(flows := s.flows[id := ResponseBody(0, 0)]);
    ChunkAndReassemble(t, ResponseChunk, id, body);
    var u := Run(t, ChunkFrames(ResponseChunk, id, body));
    SingleFrame(u, Control(ResponseEnd(id)));
    ResponseEndEffect(u, id);
    assert u.flows - {id} == s.flows - {id};
  }

  lemma SendAccepted(c: ConnectorState, frames: seq<Frame>)
    ensures Send(c, frames).verdict == Continue <==> Accepted(c.session, frames)
    ensures Consistent(Send(c, frames).verdict)
    ensures Accepted(c.session, frames) ==>
              Send(c, frames) == Reaction(c.(session := Run(c.session, frames)), frames, Continue)
  {
  }

  /** Taking an outcome off the channel retires its entry. */
  lemma TablesAfterOutcome(c: ConnectorState, id: Uuid, maxInFlight: nat)
    requires TablesAgree(c, maxInFlight) && id in c.active
    ensures TablesAgree(
              c.(session := c.session.(flows := c.session.flows - {id}), active := c.active - {id},
                 cancelled := c.cancelled - {id}, spawned := c.spawned - {id}),
              maxInFlight)
  {
    RemovalKeepsInv(c.session, id);
  }

  lemma OutcomeKeepsTables(c: ConnectorState, id: Uuid, outcome: Outcome, maxInFlight: nat)
    requires TablesAgree(c, maxInFlight) && id in c.active
    requires outcome.Answer? ==> |outcome.response.body| <= MAX_RESPONSE_BODY_BYTES
    ensures var r := OnOutcome(c, id, outcome);
            && Consistent(r.verdict)
            && (r.verdict == Continue ==> TablesAgree(r.state, maxInFlight))
            && (r.verdict == Continue <==>
                  id in c.cancelled || outcome.Failure?
                  || ResponseStartError(ResponseStart(id, outcome.response.status, outcome.response.headers)) == None)
  {
    var s := c.session;
    TablesAfterOutcome(c, id, maxInFlight);
    if id in c.cancelled {
      assert id !in s.flows;
      assert s == s.(flows := s.flows - {id});
    } else {
      assert c.cancelled - {id} == c.cancelled;
      SendAccepted(c.(active := c.active - {id}, spawned := c.spawned - {id}), OutcomeFrames(id, outcome));
      match outcome
      case Answer(response) => ResponseAccepted(s, id, response);
      case Failure(error) =>
        TextAllowed(LocalFailure);
        FailureAccepted(s, id, FailureCodeOf(error), Text(LocalFailure));
    }
  }

  lemma RemovalKeepsInv(s: Session, id: Uuid)
    requires SessionInv(s)
    ensures SessionInv(s.(flows := s.flows - {id}))
  {
    var t := s.(flows := s.flows - {id});
    assert t.flows.Keys == s.flows.Keys - {id};
    SubsetSize(t.flows.Keys, s.flows.Keys);
    assert |t.flows| == |t.flows.Keys| && |s.flows| == |s.flows.Keys|;
  }

  // ---- Every run --------------------------------------------------------------------

  datatype Event = Arrived(frame: Frame, now: nat) | Finished(id: Uuid, outcome: Outcome)

  /** The channel only carries outcomes of spawned tasks, and the upstream client bounds a
      response body (crates/c6-connector/src/proxy.rs:65-76). */
  ghost predicate Possible(c: ConnectorState, e: Event) {
    e.Finished? ==> e.id in c.spawned && (e.outcome.Answer? ==> |e.outcome.response.body| <= MAX_RESPONSE_BODY_BYTES)
  }

  function React(c: ConnectorState, e: Event, maxInFlight: nat): Reaction {
    match e
    case Arrived(f, now) => OnFrame(c, f, now, maxInFlight)
    case Finished(id, outcome) => OnOutcome(c, id, outcome)
  }

  lemma ReactKeepsTables(c: ConnectorState, e: Event, maxInFlight: nat)
    requires TablesAgree(c, maxInFlight) && Possible(c, e)
    ensures var r := React(c, e, maxInFlight);
            Consistent(r.verdict) && (r.verdict == Continue ==> TablesAgree(r.state, maxInFlight))
  {
    match e
    case Arrived(Control(f), now) =>
      if f.RequestStart? {
        StartKeepsTables(c, f, now, maxInFlight);
      } else if f.RequestEnd? {
        EndKeepsTables(c, f.id, now, maxInFlight);
      } else if f.Cancel? {
        CancelKeepsTables(c, f.id, now, maxInFlight);
      } else {
        OtherControlKeepsTables(c, f, now, maxInFlight);
      }
    case Arrived(Body(f), _) => BodyKeepsTables(c, f, maxInFlight);
    case Finished(id, outcome) => OutcomeKeepsTables(c, id, outcome, maxInFlight);
  }

  /** The state after all events, or `None` once the loop has ended. */
  ghost function Loop(c: ConnectorState, es: seq<Event>, maxInFlight: nat): Option<ConnectorState> {
    if es == [] then Some(c)
    else
      match Loop(c, es[..|es| - 1], maxInFlight)
      case None => None
      case Some(d) =>
        var r := React(d, es[|es| - 1], maxInFlight);
        if r.verdict == Continue then Some(r.state) else None
  }

  ghost predicate PossibleRun(c: ConnectorState, es: seq<Event>, maxInFlight: nat) {
    es == []
    || (PossibleRun(c, es[..|es| - 1], maxInFlight)
        && var d := Loop(c, es[..|es| - 1], maxInFlight);
           d.Some? ==> Possible(d.value, es[|es| - 1]))
  }

  ghost function BufferedBytes(pending: map<Uuid, PendingRequest>): nat {
    if pending == map[] then 0
    else
      var id :| id in pending;
      |pending[id].body| + BufferedBytes(pending - {id})
  }

  lemma {:induction false} BufferedBound(pending: map<Uuid, PendingRequest>)
    requires forall id :: id in pending ==> |pending[id].body| <= 0x100_0000
    ensures BufferedBytes(pending) <= |pending| * 0x100_0000
    decreases |pending|
  {
    if pending != map[] {
      var id :| id in pending && BufferedBytes(pending) == |pending[id].body| + BufferedBytes(pending - {id});
      assert (pending - {id}).Keys == pending.Keys - {id};
      assert |pending - {id}| == |(pending - {id}).Keys| == |pending| - 1;
      BufferedBound(pending - {id});
    }
  }

  /** Connector safety over every run against an arbitrary peer: at each loop head the tables
      agree with the session, so the consistency branches are dead code; outstanding upstream
      work never exceeds `maxInFlight`, cancelled calls included; and the buffered request
      bytes never exceed 32 times 16 MiB. */
  lemma {:induction false} ConnectorSafety(es: seq<Event>, maxInFlight: nat)
    requires var start := ConnectorState(FRESH_SESSION, map[], {}, {}, map[]);
             PossibleRun(start, es, maxInFlight)
    ensures var start := ConnectorState(FRESH_SESSION, map[], {}, {}, map[]);
            var c := Loop(start, es, maxInFlight);
            c.Some? ==>
              && TablesAgree(c.value, maxInFlight)
              && |c.value.spawned| + |Admitted(c.value.pending)| <= maxInFlight
              && BufferedBytes(c.value.pending) <= 32 * MAX_REQUEST_BODY_BYTES
              && forall e :: Possible(c.value, e) ==> Consistent(React(c.value, e, maxInFlight).verdict)
  {
    var start := ConnectorState(FRESH_SESSION, map[], {}, {}, map[]);
    TablesInRun(start, es, maxInFlight);
    var c := Loop(start, es, maxInFlight);
    if c.Some? {
      forall e | Possible(c.value, e)
        ensures Consistent(React(c.value, e, maxInFlight).verdict)
      {
        ReactKeepsTables(c.value, e, maxInFlight);
      }
      assert |c.value.spawned| == |c.value.spawned.Keys|;
      PendingBound(c.value, maxInFlight);
    }
  }

  lemma {:induction false} TablesInRun(start: ConnectorState, es: seq<Event>, maxInFlight: nat)
    requires start == ConnectorState(FRESH_SESSION, map[], {}, {}, map[])
    requires PossibleRun(start, es, maxInFlight)
    ensures var c := Loop(start, es, maxInFlight); c.Some? ==> TablesAgree(c.value, maxInFlight)
  {
    if es == [] {
      InitialTables(maxInFlight);
    } else {
      TablesInRun(start, es[..|es| - 1], maxInFlight);
      var d := Loop(start, es[..|es| - 1], maxInFlight);
      if d.Some? {
        ReactKeepsTables(d.value, es[|es| - 1], maxInFlight);
      }
    }
  }

  lemma PendingBound(c: ConnectorState, maxInFlight: nat)
    requires TablesAgree(c, maxInFlight)
    ensures BufferedBytes(c.pending) <= 32 * MAX_REQUEST_BODY_BYTES
  {
    PendingCount(c, maxInFlight);
    forall id | id in c.pending
      ensures |c.pending[id].body| <= 0x100_0000
    {
      assert FlowInv(c.session.flows[id]);
    }
    BufferedBound(c.pending);
  }

  lemma PendingCount(c: ConnectorState, maxInFlight: nat)
    requires TablesAgree(c, maxInFlight)
    ensures |c.pending| <= MAX_CONCURRENT_REQUESTS
  {
    SubsetSize(c.pending.Keys, c.session.flows.Keys);
    assert |c.pending| == |c.pending.Keys| && |c.session.flows| == |c.session.flows.Keys|;
  }
}
