/** The session validator shared by relay and connector
    (crates/c6-cloud-core/src/relay.rs:342-535): its transition function, the class that
    updates the same state in place, and what every sequence of observed frames keeps. */
module RelaySession {
  import opened Common
  import opened RelayFrames

  datatype Handshake = AwaitingHello | AwaitingReady | Ready

  datatype Flow =
    | RequestBody(nextSequence: u32, bytes: u64)
    | AwaitingResponse
    | ResponseBody(nextSequence: u32, bytes: u64)

  datatype Session = Session(handshake: Handshake, flows: map<Uuid, Flow>, seen: set<Uuid>)

  const DEFAULT_SESSION := Session(AwaitingHello, map[], {})
  const FRESH_SESSION := Session(Ready, map[], {})

  datatype Observed = Observed(session: Session, error: Option<ValidationError>)

  function Reject(s: Session, error: ValidationError): Observed {
    Observed(s, Some(error))
  }

  function Accept(s: Session): Observed {
    Observed(s, None)
  }

  // ---- The transition function ------------------------------------------------

  function ControlStep(s: Session, f: ControlFrame): Observed {
    if f.ClientHello? then
      if s.handshake != AwaitingHello then Reject(s, IllegalTransition)
      else if f.protocolVersion != RELAY_PROTOCOL_VERSION then Reject(s, UnsupportedProtocol)
      else if f.token != ConnectorToken then Reject(s, IllegalTransition)
      else Accept(s.(handshake := AwaitingReady))
    else if f.ServerReady? then
      if s.handshake != AwaitingReady then Reject(s, IllegalTransition)
      else if f.generation == 0 || f.maxConcurrent == 0
              || f.maxConcurrent > MAX_CONCURRENT_REQUESTS || f.maxChunk > MAX_BODY_CHUNK_BYTES
      then Reject(s, IllegalTransition)
      else Accept(s.(handshake := Ready))
    else if s.handshake != Ready then Reject(s, IllegalTransition)
    else if f.RequestStart? then StartStep(s, f)
    else if f.Ping? || f.Pong? then Accept(s)
    else FlowStep(s, f)
  }

  function StartStep(s: Session, f: ControlFrame): Observed
    requires f.RequestStart?
  {
    var problem := RequestStartError(f);
    if problem.Some? then Reject(s, problem.value)
    else if f.id in s.seen then Reject(s, DuplicateRequest)
    else if |s.flows| >= MAX_CONCURRENT_REQUESTS then Reject(s, ConcurrencyLimit)
    else if |s.seen| >= MAX_REQUEST_IDS_PER_SESSION then Reject(s, RequestIdBudgetExhausted)
    else Accept(s.(seen := s.seen + {f.id}, flows := s.flows[f.id := RequestBody(0, 0)]))
  }

  predicate IsFlowFrame(f: ControlFrame) {
    f.RequestEnd? || f.ResponseStart? || f.ResponseEnd? || f.Cancel? || f.RequestFailed?
  }

  /** The control frames that act on an open flow. */
  function FlowStep(s: Session, f: ControlFrame): Observed
    requires IsFlowFrame(f)
  {
    match f
    case RequestEnd(id) =>
      if id !in s.flows then Reject(s, UnknownRequest)
      else if !s.flows[id].RequestBody? then Reject(s, IllegalTransition)
      else Accept(s.(flows := s.flows[id := AwaitingResponse]))
    case ResponseStart(id, _, _) =>
      var problem := ResponseStartError(f);
      if problem.Some? then Reject(s, problem.value)
      else if id !in s.flows then Reject(s, UnknownRequest)
      else if !s.flows[id].AwaitingResponse? then Reject(s, IllegalTransition)
      else Accept(s.(flows := s.flows[id := ResponseBody(0, 0)]))
    case ResponseEnd(id) =>
      if id !in s.flows then Reject(s, UnknownRequest)
      else if !s.flows[id].ResponseBody? then Reject(s, IllegalTransition)
      else Accept(s.(flows := s.flows - {id}))
    case Cancel(id) =>
      if id !in s.flows then Reject(s, UnknownRequest) else Accept(s.(flows := s.flows - {id}))
    case RequestFailed(id, _, message) =>
      if !MessageAllowed(message) then Reject(s, IllegalTransition)
      else if id !in s.flows then Reject(s, UnknownRequest)
      else Accept(s.(flows := s.flows - {id}))
  }

  function BodyLimit(kind: BodyKind): nat {
    match kind
    case RequestChunk => MAX_REQUEST_BODY_BYTES
    case ResponseChunk => MAX_RESPONSE_BODY_BYTES
  }

  predicate CarriesBody(flow: Flow, kind: BodyKind) {
    match kind
    case RequestChunk => flow.RequestBody?
    case ResponseChunk => flow.ResponseBody?
  }

  function WithProgress(flow: Flow, sequence: u32, bytes: u64): Flow
    requires !flow.AwaitingResponse?
  {
    if flow.RequestBody? then RequestBody(sequence, bytes) else ResponseBody(sequence, bytes)
  }

  /** The byte count is stored before the sequence number is checked for overflow, so that one
      rejection leaves a changed count behind. */
  function BodyStep(s: Session, f: BodyFrame): Observed {
    if s.handshake != Ready then Reject(s, IllegalTransition)
    else if |f.payload| > MAX_BODY_CHUNK_BYTES then Reject(s, ChunkTooLarge)
    else if f.id !in s.flows then Reject(s, UnknownRequest)
    else if !CarriesBody(s.flows[f.id], f.kind) then Reject(s, IllegalTransition)
    else
      var flow := s.flows[f.id];
      if f.sequence != flow.nextSequence then Reject(s, InvalidSequence)
      else
        var updated := SaturatingAdd(flow.bytes, |f.payload|, U64_MAX);
        if updated > BodyLimit(f.kind) then Reject(s, BodyTooLarge)
        else if flow.nextSequence == U32_MAX then
          Reject(s.(flows := s.flows[f.id := WithProgress(flow, flow.nextSequence, updated)]), InvalidSequence)
        else
          Accept(s.(flows := s.flows[f.id := WithProgress(flow, flow.nextSequence + 1, updated)]))
  }

  function Observe(s: Session, f: Frame): Observed {
    match f
    case Control(control) => ControlStep(s, control)
    case Body(body) => BodyStep(s, body)
  }

  predicate Accepts(s: Session, f: Frame) {
    Observe(s, f).error.None?
  }

  function After(s: Session, f: Frame): Session {
    Observe(s, f).session
  }

  /** The state after observing all of `fs`, rejected frames included. */
  function Run(s: Session, fs: seq<Frame>): Session {
    if fs == [] then s else After(Run(s, fs[..|fs| - 1]), fs[|fs| - 1])
  }

  /** Every frame of `fs` is accepted in turn. */
  predicate Accepted(s: Session, fs: seq<Frame>) {
    fs == [] || (Accepted(s, fs[..|fs| - 1]) && Accepts(Run(s, fs[..|fs| - 1]), fs[|fs| - 1]))
  }

  lemma SingleFrame(s: Session, f: Frame)
    ensures Run(s, [f]) == After(s, f)
    ensures Accepted(s, [f]) <==> Accepts(s, f)
  {
    assert [f][..0] == [];
    assert Run(s, []) == s && Accepted(s, []);
  }

  lemma {:induction false} RunAppend(s: Session, a: seq<Frame>, b: seq<Frame>)
    ensures Run(s, a + b) == Run(Run(s, a), b)
    ensures Accepted(s, a + b) <==> Accepted(s, a) && Accepted(Run(s, a), b)
  {
    if b == [] {
      assert a + b == a;
    } else {
      RunAppend(s, a, b[..|b| - 1]);
      assert (a + b)[..|a + b| - 1] == a + b[..|b| - 1];
    }
  }

  /** The first `i` frames have been observed and accepted. */
  ghost predicate Reached(s: Session, frames: seq<Frame>, i: nat, t: Session) {
    i <= |frames| && Accepted(s, frames[..i]) && t == Run(s, frames[..i])
  }

  /** One more frame of a list. */
  lemma Advance(s: Session, fs: seq<Frame>, i: nat)
    requires i < |fs|
    ensures Run(s, fs[..i + 1]) == After(Run(s, fs[..i]), fs[i])
    ensures Accepted(s, fs[..i + 1]) <==> Accepted(s, fs[..i]) && Accepts(Run(s, fs[..i]), fs[i])
    ensures fs[..i + 1] == fs[..i] + [fs[i]]
  {
    assert fs[..i + 1][..i] == fs[..i];
  }

  /** A prefix of an accepted list is accepted. */
  lemma {:induction false} PrefixAccepted(s: Session, fs: seq<Frame>, i: nat, j: nat)
    requires i <= j <= |fs|
    ensures Accepted(s, fs[..j]) ==> Accepted(s, fs[..i])
    ensures fs[..|fs|] == fs
    decreases j
  {
    if i < j {
      Advance(s, fs, j - 1);
      PrefixAccepted(s, fs, i, j - 1);
    }
  }

  // ---- The class ----------------------------------------------------------------

  class RelaySessionState {
    var handshake: Handshake
    var flows: map<Uuid, Flow>
    var seen: set<Uuid>

    function View(): Session
      reads this
    {
      Session(handshake, flows, seen)
    }

    ghost predicate Valid()
      reads this
    {
      SessionInv(View())
    }

    constructor ()
      ensures View() == DEFAULT_SESSION && Valid()
    {
      handshake := AwaitingHello;
      flows := map[];
      seen := {};
    }

    method IsReady() returns (ready: bool)
      ensures ready <==> View().handshake == Ready
    {
      ready := handshake == Ready;
    }

    method InFlight() returns (count: nat)
      requires Valid()
      ensures count == |View().flows| <= MAX_CONCURRENT_REQUESTS
    {
      count := |flows|;
    }

    method ObserveControl(f: ControlFrame) returns (error: Option<ValidationError>)
      requires Valid()
      modifies this
      ensures Valid()
      ensures Observed(View(), error) == ControlStep(old(View()), f)
      ensures error.Some? ==> View() == old(View())
    {
      ControlKeeps(View(), f);
      if f.ClientHello? {
        if handshake != AwaitingHello { return Some(IllegalTransition); }
        if f.protocolVersion != RELAY_PROTOCOL_VERSION { return Some(UnsupportedProtocol); }
        if f.token != ConnectorToken { return Some(IllegalTransition); }
        handshake := AwaitingReady;
      } else if f.ServerReady? {
        if handshake != AwaitingReady { return Some(IllegalTransition); }
        if f.generation == 0 || f.maxConcurrent == 0 || f.maxConcurrent > MAX_CONCURRENT_REQUESTS
           || f.maxChunk > MAX_BODY_CHUNK_BYTES
        {
          return Some(IllegalTransition);
        }
        handshake := Ready;
      } else if handshake != Ready {
        return Some(IllegalTransition);
      } else if f.RequestStart? {
        error := ObserveStart(f);
        return;
      } else if !f.Ping? && !f.Pong? {
        error := ObserveFlow(f);
        return;
      }
      error := None;
    }

    /** The `RequestStart` arm. */
    method ObserveStart(f: ControlFrame) returns (error: Option<ValidationError>)
      requires f.RequestStart?
      modifies `flows, `seen
      ensures Observed(View(), error) == StartStep(old(View()), f)
    {
      error := TargetError(f.target);
      if error.Some? { return; }
      if f.deadline == 0 { return Some(InvalidDeadline); }
      error := ValidateHeaders(f.headers);
      if error.Some? { return; }
      if f.id in seen { return Some(DuplicateRequest); }
      if |flows| >= MAX_CONCURRENT_REQUESTS { return Some(ConcurrencyLimit); }
      if |seen| >= MAX_REQUEST_IDS_PER_SESSION { return Some(RequestIdBudgetExhausted); }
      seen := seen + {f.id};
      flows := flows[f.id := RequestBody(0, 0)];
    }

    /** The arms that act on an open flow. */
    method ObserveFlow(f: ControlFrame) returns (error: Option<ValidationError>)
      requires IsFlowFrame(f)
      modifies `flows
      ensures Observed(View(), error) == FlowStep(old(View()), f)
    {
      match f {
        case RequestEnd(id) =>
          if id !in flows { return Some(UnknownRequest); }
          if !flows[id].RequestBody? { return Some(IllegalTransition); }
          flows := flows[id := AwaitingResponse];
        case ResponseStart(id, status, headers) =>
          if !(100 <= status <= 599) { return Some(InvalidStatus); }
          error := ValidateHeaders(headers);
          if error.Some? { return; }
          if id !in flows { return Some(UnknownRequest); }
          if flows[id] != AwaitingResponse { return Some(IllegalTransition); }
          flows := flows[id := ResponseBody(0, 0)];
        case ResponseEnd(id) =>
          if id !in flows { return Some(UnknownRequest); }
          if !flows[id].ResponseBody? { return Some(IllegalTransition); }
          flows := flows - {id};
        case Cancel(id) =>
          if id !in flows { return Some(UnknownRequest); }
          flows := flows - {id};
        case RequestFailed(id, _, message) =>
          if !MessageAllowed(message) { return Some(IllegalTransition); }
          if id !in flows { return Some(UnknownRequest); }
          flows := flows - {id};
      }
      error := None;
    }

    method ObserveBody(f: BodyFrame) returns (error: Option<ValidationError>)
      requires Valid()
      modifies this`flows
      ensures Valid()
      ensures Observed(View(), error) == BodyStep(old(View()), f)
    {
      BodyKeeps(View(), f);
      if handshake != Ready { return Some(IllegalTransition); }
      if |f.payload| > MAX_BODY_CHUNK_BYTES { return Some(ChunkTooLarge); }
      if f.id !in flows { return Some(UnknownRequest); }
      var flow := flows[f.id];
      var limit: nat;
      if f.kind == RequestChunk && flow.RequestBody? {
        limit := MAX_REQUEST_BODY_BYTES;
      } else if f.kind == ResponseChunk && flow.ResponseBody? {
        limit := MAX_RESPONSE_BODY_BYTES;
      } else {
        return Some(IllegalTransition);
      }
      if f.sequence != flow.nextSequence { return Some(InvalidSequence); }
      var updated := SaturatingAdd(flow.bytes, |f.payload|, U64_MAX);
      if updated > limit { return Some(BodyTooLarge); }
      flow := flow.(bytes := updated);
      flows := flows[f.id := flow];
      if flow.nextSequence == U32_MAX { return Some(InvalidSequence); }
      flow := flow.(nextSequence := flow.nextSequence + 1);
      flows := flows[f.id := flow];
      error := None;
    }
  }

  // ---- What every observation keeps ----------------------------------------------

  ghost predicate FlowInv(flow: Flow) {
    match flow
    case RequestBody(_, bytes) => bytes <= MAX_REQUEST_BODY_BYTES
    case AwaitingResponse => true
    case ResponseBody(_, bytes) => bytes <= MAX_RESPONSE_BODY_BYTES
  }

  ghost predicate SessionInv(s: Session) {
    && s.flows.Keys <= s.seen
    && (s.seen != {} ==> s.handshake == Ready)
    && |s.flows| <= MAX_CONCURRENT_REQUESTS
    && |s.seen| <= MAX_REQUEST_IDS_PER_SESSION
    && forall id :: id in s.flows ==> FlowInv(s.flows[id])
  }

  /** Closing frames are the accepted frames that remove a flow. */
  predicate Closes(f: Frame) {
    f.Control? && (f.control.ResponseEnd? || f.control.Cancel? || f.control.RequestFailed?)
  }

  function ClosedCount(s: Session, fs: seq<Frame>): nat {
    if fs == [] then 0
    else
      var front := fs[..|fs| - 1];
      var last := fs[|fs| - 1];
      ClosedCount(s, front) + if Closes(last) && Accepts(Run(s, front), last) then 1 else 0
  }

  /** The identifiers that are no longer open flows. */
  ghost function Retired(s: Session): int {
    |s.seen| - |s.flows|
  }

  lemma MapSize<K, V>(m: map<K, V>)
    ensures |m| == |m.Keys|
  {
  }

  /** A flow that moves on. */
  lemma MoveKeeps(s: Session, id: Uuid, flow: Flow)
    requires SessionInv(s) && id in s.flows && FlowInv(flow)
    ensures SessionInv(s.(flows := s.flows[id := flow]))
    ensures |s.flows[id := flow]| == |s.flows|
  {
    assert s.flows[id := flow].Keys == s.flows.Keys;
    MapSize(s.flows);
    MapSize(s.flows[id := flow]);
  }

  /** A flow that closes. */
  lemma CloseKeeps(s: Session, id: Uuid)
    requires SessionInv(s) && id in s.flows
    ensures SessionInv(s.(flows := s.flows - {id}))
    ensures |s.flows - {id}| == |s.flows| - 1
  {
    assert (s.flows - {id}).Keys == s.flows.Keys - {id};
    MapSize(s.flows);
    MapSize(s.flows - {id});
  }

  lemma StartKeeps(s: Session, f: ControlFrame)
    requires SessionInv(s) && s.handshake == Ready && f.RequestStart?
    ensures SessionInv(StartStep(s, f).session)
    ensures Retired(StartStep(s, f).session) == Retired(s)
  {
    var t := StartStep(s, f).session;
    assert t != s ==> t.flows.Keys == s.flows.Keys + {f.id};
    MapSize(s.flows);
    MapSize(t.flows);
  }

  lemma FlowKeeps(s: Session, f: ControlFrame)
    requires SessionInv(s) && s.handshake == Ready && IsFlowFrame(f)
    ensures SessionInv(FlowStep(s, f).session)
    ensures Retired(FlowStep(s, f).session)
            == Retired(s) + if Closes(Control(f)) && FlowStep(s, f).error.None? then 1 else 0
  {
    FlowStepMoves(s, f);
    if FlowStep(s, f).error.None? {
      if Closes(Control(f)) {
        CloseKeeps(s, f.id);
      } else {
        MoveKeeps(s, f.id, if f.RequestEnd? then AwaitingResponse else ResponseBody(0, 0));
      }
    }
  }

  /** What an accepted frame does to its flow. */
  lemma FlowStepMoves(s: Session, f: ControlFrame)
    requires IsFlowFrame(f)
    ensures var r := FlowStep(s, f);
            if r.error.Some? then r.session == s
            else
              f.id in s.flows
              && var moved := if f.RequestEnd? then AwaitingResponse else ResponseBody(0, 0);
                 r.session == s.(flows := if Closes(Control(f)) then s.flows - {f.id} else s.flows[f.id := moved])
  {
  }

  lemma ControlKeeps(s: Session, f: ControlFrame)
    requires SessionInv(s)
    ensures SessionInv(ControlStep(s, f).session)
    ensures Retired(ControlStep(s, f).session)
            == Retired(s) + if Closes(Control(f)) && ControlStep(s, f).error.None? then 1 else 0
  {
    if s.handshake == Ready && f.RequestStart? {
      StartKeeps(s, f);
    } else if s.handshake == Ready && IsFlowFrame(f) {
      FlowKeeps(s, f);
    }
  }

  lemma BodyKeeps(s: Session, f: BodyFrame)
    requires SessionInv(s)
    ensures SessionInv(BodyStep(s, f).session)
    ensures Retired(BodyStep(s, f).session) == Retired(s)
  {
    var t := BodyStep(s, f).session;
    assert t.flows.Keys == s.flows.Keys;
    assert |t.flows| == |t.flows.Keys| && |s.flows| == |s.flows.Keys|;
  }

  /** One observation: the invariant, and the balance of identifiers against flows. */
  lemma ObserveKeeps(s: Session, f: Frame)
    requires SessionInv(s)
    ensures SessionInv(After(s, f))
    ensures Retired(After(s, f)) == Retired(s) + if Closes(f) && Accepts(s, f) then 1 else 0
  {
    match f
    case Control(control) => ControlKeeps(s, control);
    case Body(body) => BodyKeeps(s, body);
  }

  /** Conservation: whatever is observed, accepted or not, every identifier ever started is
      either an open flow or was closed by exactly one accepted closing frame; open flows are
      all seen, exist only once the handshake is done, and respect every limit. */
  lemma {:induction false} Conservation(fs: seq<Frame>)
    ensures SessionInv(Run(DEFAULT_SESSION, fs))
    ensures |Run(DEFAULT_SESSION, fs).seen| == |Run(DEFAULT_SESSION, fs).flows| + ClosedCount(DEFAULT_SESSION, fs)
  {
    if fs == [] {
    } else {
      Conservation(fs[..|fs| - 1]);
      ObserveKeeps(Run(DEFAULT_SESSION, fs[..|fs| - 1]), fs[|fs| - 1]);
    }
  }

  /** The one frame whose rejection can leave a mark: the chunk after number 2^32 - 1. */
  predicate OverflowsSequence(s: Session, f: Frame) {
    && f.Body? && s.handshake == Ready && |f.body.payload| <= MAX_BODY_CHUNK_BYTES
    && f.body.id in s.flows && CarriesBody(s.flows[f.body.id], f.body.kind)
    && s.flows[f.body.id].nextSequence == U32_MAX == f.body.sequence
    && s.flows[f.body.id].bytes + |f.body.payload| <= BodyLimit(f.body.kind)
  }

  /** Rejection atomicity: a rejected frame changes the state exactly when it overflows the
      sequence with a non-empty payload, and then only that flow's byte count moves. */
  lemma RejectionIsAtomic(s: Session, f: Frame)
    requires SessionInv(s) && !Accepts(s, f)
    ensures After(s, f) == s <==> !(OverflowsSequence(s, f) && |f.body.payload| > 0)
    ensures After(s, f) != s ==>
              var flow := s.flows[f.body.id];
              After(s, f) == s.(flows := s.flows[f.body.id := flow.(bytes := flow.bytes + |f.body.payload|)])
  {
    if OverflowsSequence(s, f) {
      var flow := s.flows[f.body.id];
      assert After(s, f).flows[f.body.id].bytes == flow.bytes + |f.body.payload|;
      if |f.body.payload| == 0 {
        assert After(s, f).flows == s.flows;
      }
    }
  }

  /** Why a start is refused once the session is ready: its own fault first, then a repeated
      identifier, then too many open requests, then too many identifiers. */
  lemma StartRefusedFor(s: Session, f: ControlFrame)
    requires s.handshake == Ready && f.RequestStart?
    ensures ControlStep(s, f).error ==
              if RequestStartError(f).Some? then RequestStartError(f)
              else if f.id in s.seen then Some(DuplicateRequest)
              else if |s.flows| >= 32 then Some(ConcurrencyLimit)
              else if |s.seen| >= 4_096 then Some(RequestIdBudgetExhausted)
              else None
  {
  }

  /** Why a later control frame is refused: its own fault first, then an identifier that is not
      open, then one that is at another point. */
  lemma FlowFrameRefusedFor(s: Session, f: ControlFrame)
    requires s.handshake == Ready && IsFlowFrame(f)
    ensures var error := ControlStep(s, f).error;
            if f.ResponseStart? && ResponseStartError(f).Some? then error == ResponseStartError(f)
            else if f.RequestFailed? && !PlainMessage(f.message) then error == Some(IllegalTransition)
            else if f.id !in s.flows then error == Some(UnknownRequest)
            else error ==
                   match f
                   case RequestEnd(id) => if s.flows[id].RequestBody? then None else Some(IllegalTransition)
                   case ResponseStart(id, _, _) =>
                     if s.flows[id].AwaitingResponse? then None else Some(IllegalTransition)
                   case ResponseEnd(id) => if s.flows[id].ResponseBody? then None else Some(IllegalTransition)
                   case Cancel(_) => None
                   case RequestFailed(_, _, _) => None
  {
    if f.RequestFailed? {
      MessageIsPlain(f.message);
    }
  }

  /** At most 200 bytes, no control character of either block. */
  ghost predicate PlainMessage(message: string) {
    && ByteLength(message) <= 200
    && forall i :: 0 <= i < |message| ==> message[i] as int >= 0xa0 || 0x20 <= message[i] as int < 0x7f
  }

  lemma MessageIsPlain(message: string)
    ensures MessageAllowed(message) <==> PlainMessage(message)
  {
    if i :| 0 <= i < |message| && IsControl(message[i]) {
      assert message[i] in message;
    }
  }

  /** Why a chunk is refused. */
  lemma ChunkRefusedFor(s: Session, f: BodyFrame)
    requires s.handshake == Ready
    ensures var error := BodyStep(s, f).error;
            if |f.payload| > 65_536 then error == Some(ChunkTooLarge)
            else if f.id !in s.flows then error == Some(UnknownRequest)
            else if !(f.kind == RequestChunk && s.flows[f.id].RequestBody?)
                 && !(f.kind == ResponseChunk && s.flows[f.id].ResponseBody?) then error == Some(IllegalTransition)
            else if f.sequence != s.flows[f.id].nextSequence then error == Some(InvalidSequence)
            else if s.flows[f.id].bytes + |f.payload| > (if f.kind == RequestChunk then 16_777_216 else 67_108_864) then
              error == Some(BodyTooLarge)
            else if f.sequence == 0xFFFF_FFFF then error == Some(InvalidSequence)
            else error == None
  {
  }

  /** Both ends start from the default state and observe the same two handshake frames. */
  lemma HandshakeReachesFresh(hello: ControlFrame, ready: ControlFrame)
    requires hello.ClientHello? && ready.ServerReady?
    ensures Accepted(DEFAULT_SESSION, [Control(hello), Control(ready)]) <==>
            hello.protocolVersion == RELAY_PROTOCOL_VERSION && hello.token == ConnectorToken
            && ready.generation > 0 && 0 < ready.maxConcurrent <= MAX_CONCURRENT_REQUESTS
            && ready.maxChunk <= MAX_BODY_CHUNK_BYTES
    ensures Accepted(DEFAULT_SESSION, [Control(hello), Control(ready)]) ==>
              Run(DEFAULT_SESSION, [Control(hello), Control(ready)]) == FRESH_SESSION
  {
    var greeting, both := [Control(hello)], [Control(hello), Control(ready)];
    assert greeting[..0] == [] && both[..1] == greeting;
    assert Run(DEFAULT_SESSION, greeting) == After(DEFAULT_SESSION, Control(hello));
    assert Accepted(DEFAULT_SESSION, greeting) <==> Accepts(DEFAULT_SESSION, Control(hello));
  }
}
