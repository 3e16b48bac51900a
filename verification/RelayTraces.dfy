/** Every accepted frame sequence is an interleaving of independent conversations: the
    multiplexed session (crates/c6-cloud-core/src/relay.rs:389-534) is the product of one small
    automaton per request under the three global limits, and each automaton's language is the
    conversation the protocol intends. */
module RelayTraces {
  import opened Common
  import opened RelayFrames
  import opened RelaySession
  import opened RelayChunks

  // ---- One request on its own ----------------------------------------------------

  datatype Phase = Unseen | Open(flow: Flow) | Closed

  function IdOf(f: Frame): Option<Uuid> {
    match f
    case Body(body) => Some(body.id)
    case Control(c) => if c.RequestStart? || IsFlowFrame(c) then Some(c.id) else None
  }

  predicate IsStart(f: Frame) {
    f.Control? && f.control.RequestStart?
  }

  /** The checks that look at one frame alone.  Handshake frames are never legal again. */
  predicate WellFormed(f: Frame) {
    match f
    case Body(body) => |body.payload| <= MAX_BODY_CHUNK_BYTES
    case Control(c) =>
      match c
      case ClientHello(_, _) => false
      case ServerReady(_, _, _, _) => false
      case RequestStart(_, _, _, _, _) => RequestStartError(c) == None
      case ResponseStart(_, _, _) => ResponseStartError(c) == None
      case RequestFailed(_, _, message) => MessageAllowed(message)
      case _ => true
  }

  /** The automaton of one request; `None` is refusal. */
  function LocalStep(p: Phase, f: Frame): Option<Phase>
    requires IdOf(f).Some?
  {
    match f
    case Body(body) =>
      if p.Open? && CarriesBody(p.flow, body.kind) && body.sequence == p.flow.nextSequence
         && p.flow.bytes + |body.payload| <= BodyLimit(body.kind) && p.flow.nextSequence < U32_MAX
      then Some(Open(FlowOf(body.kind, body.sequence + 1, p.flow.bytes + |body.payload|)))
      else None
    case Control(c) =>
      match c
      case RequestStart(_, _, _, _, _) => if p == Unseen then Some(Open(RequestBody(0, 0))) else None
      case RequestEnd(_) => if p.Open? && p.flow.RequestBody? then Some(Open(AwaitingResponse)) else None
      case ResponseStart(_, _, _) => if p == Open(AwaitingResponse) then Some(Open(ResponseBody(0, 0))) else None
      case ResponseEnd(_) => if p.Open? && p.flow.ResponseBody? then Some(Closed) else None
      case _ => if p.Open? then Some(Closed) else None
  }

  function LocalRun(t: seq<Frame>): Option<Phase>
    requires forall f :: f in t ==> IdOf(f).Some?
  {
    if t == [] then Some(Unseen)
    else
      var front := LocalRun(t[..|t| - 1]);
      if front.None? then None else LocalStep(front.value, t[|t| - 1])
  }

  /** The frames of `fs` that belong to request `id`. */
  function Project(fs: seq<Frame>, id: Uuid): (t: seq<Frame>)
    ensures forall f :: f in t ==> f in fs && IdOf(f) == Some(id)
  {
    if fs == [] then []
    else
      var last := fs[|fs| - 1];
      Project(fs[..|fs| - 1], id) + if IdOf(last) == Some(id) then [last] else []
  }

  function PhaseOf(s: Session, id: Uuid): Phase {
    if id in s.flows then Open(s.flows[id]) else if id in s.seen then Closed else Unseen
  }

  // ---- The product ---------------------------------------------------------------

  function Starts(fs: seq<Frame>): nat {
    if fs == [] then 0 else Starts(fs[..|fs| - 1]) + if IsStart(fs[|fs| - 1]) then 1 else 0
  }

  function Closings(fs: seq<Frame>): nat {
    if fs == [] then 0 else Closings(fs[..|fs| - 1]) + if Closes(fs[|fs| - 1]) then 1 else 0
  }

  /** At every start, fewer than 32 requests are open and fewer than 4096 were ever started;
      both counted on the trace alone. */
  ghost predicate WithinLimits(fs: seq<Frame>) {
    fs == []
    || var front := fs[..|fs| - 1];
       WithinLimits(front)
       && (IsStart(fs[|fs| - 1]) ==>
             Starts(front) - Closings(front) < MAX_CONCURRENT_REQUESTS
             && Starts(front) < MAX_REQUEST_IDS_PER_SESSION)
  }

  ghost predicate ConversationsLegal(fs: seq<Frame>) {
    && (forall f :: f in fs ==> WellFormed(f))
    && (forall id: Uuid :: LocalRun(Project(fs, id)).Some?)
  }

  /** One frame of request `id`: accepted exactly when its own automaton moves (and a start
      finds room), and then nothing changes for any other request. */
  lemma StepIsLocal(s: Session, f: Frame, id: Uuid)
    requires SessionInv(s) && s.handshake == Ready && IdOf(f) == Some(id)
    ensures Accepts(s, f) <==>
            WellFormed(f) && LocalStep(PhaseOf(s, id), f).Some?
            && (IsStart(f) ==> |s.flows| < MAX_CONCURRENT_REQUESTS && |s.seen| < MAX_REQUEST_IDS_PER_SESSION)
    ensures Accepts(s, f) ==> LocalStep(PhaseOf(s, id), f) == Some(PhaseOf(After(s, f), id))
    ensures forall other: Uuid :: other != id ==> PhaseOf(After(s, f), other) == PhaseOf(s, other)
  {
    match f
    case Control(c) => ControlIsLocal(s, c, id);
    case Body(b) => BodyIsLocal(s, b);
  }

  lemma ControlIsLocal(s: Session, c: ControlFrame, id: Uuid)
    requires SessionInv(s) && s.handshake == Ready && IdOf(Control(c)) == Some(id)
    ensures Accepts(s, Control(c)) <==>
            WellFormed(Control(c)) && LocalStep(PhaseOf(s, id), Control(c)).Some?
            && (c.RequestStart? ==> |s.flows| < MAX_CONCURRENT_REQUESTS && |s.seen| < MAX_REQUEST_IDS_PER_SESSION)
    ensures Accepts(s, Control(c)) ==> LocalStep(PhaseOf(s, id), Control(c)) == Some(PhaseOf(After(s, Control(c)), id))
    ensures forall other: Uuid :: other != id ==> PhaseOf(After(s, Control(c)), other) == PhaseOf(s, other)
  {
  }

  lemma BodyIsLocal(s: Session, b: BodyFrame)
    requires SessionInv(s) && s.handshake == Ready
    ensures Accepts(s, Body(b)) <==> WellFormed(Body(b)) && LocalStep(PhaseOf(s, b.id), Body(b)).Some?
    ensures Accepts(s, Body(b)) ==> LocalStep(PhaseOf(s, b.id), Body(b)) == Some(PhaseOf(After(s, Body(b)), b.id))
    ensures forall other: Uuid :: other != b.id ==> PhaseOf(After(s, Body(b)), other) == PhaseOf(s, other)
  {
  }

  lemma KeepaliveIsNeutral(s: Session, f: Frame)
    requires s.handshake == Ready && IdOf(f) == None
    ensures Accepts(s, f) <==> WellFormed(f)
    ensures After(s, f) == s
  {
  }

  lemma SeenGrows(s: Session, f: Frame)
    requires s.handshake == Ready && Accepts(s, f)
    ensures |After(s, f).seen| == |s.seen| + if IsStart(f) then 1 else 0
    ensures After(s, f).handshake == Ready
  {
  }

  /** The counts on the trace are the sizes of the state. */
  lemma {:induction false} CountsAgree(fs: seq<Frame>)
    requires Accepted(FRESH_SESSION, fs)
    ensures var s := Run(FRESH_SESSION, fs);
            SessionInv(s) && s.handshake == Ready
            && |s.seen| == Starts(fs) && |s.flows| == Starts(fs) - Closings(fs)
  {
    if fs == [] {
    } else {
      var front, last := fs[..|fs| - 1], fs[|fs| - 1];
      CountsAgree(front);
      var s := Run(FRESH_SESSION, front);
      ObserveKeeps(s, last);
      SeenGrows(s, last);
    }
  }

  lemma ProjectLast(fs: seq<Frame>, id: Uuid)
    requires fs != []
    ensures var last := fs[|fs| - 1];
            Project(fs, id) == Project(fs[..|fs| - 1], id) + if IdOf(last) == Some(id) then [last] else []
    ensures LocalRun(Project(fs, id)) ==
            var before := LocalRun(Project(fs[..|fs| - 1], id));
            if IdOf(fs[|fs| - 1]) != Some(id) || before.None? then before else LocalStep(before.value, fs[|fs| - 1])
  {
    var front, last := fs[..|fs| - 1], fs[|fs| - 1];
    if IdOf(last) == Some(id) {
      assert Project(fs, id)[..|Project(fs, id)| - 1] == Project(front, id);
    } else {
      assert Project(fs, id) == Project(front, id);
    }
  }

  /** The session is the product: a sequence is accepted exactly when every request's own
      automaton accepts its projection, every frame is well formed by itself and every start
      finds room; and the state of each request is then the state of its own automaton. */
  lemma {:induction false} SessionIsProduct(fs: seq<Frame>)
    ensures Accepted(FRESH_SESSION, fs) <==> ConversationsLegal(fs) && WithinLimits(fs)
    ensures Accepted(FRESH_SESSION, fs) ==>
              forall id: Uuid :: LocalRun(Project(fs, id)) == Some(PhaseOf(Run(FRESH_SESSION, fs), id))
  {
    if fs == [] {
    } else {
      var front, last := fs[..|fs| - 1], fs[|fs| - 1];
      SessionIsProduct(front);
      forall id: Uuid
        ensures LocalRun(Project(fs, id)) ==
                var before := LocalRun(Project(front, id));
                if IdOf(last) != Some(id) || before.None? then before else LocalStep(before.value, last)
      {
        ProjectLast(fs, id);
      }
      assert fs == front + [last];
      if Accepted(FRESH_SESSION, front) {
        CountsAgree(front);
        LastFrame(front, last, fs);
        if Accepted(FRESH_SESSION, fs) {
          LastPhases(front, last, fs);
        }
      } else {
        LegalFront(front, last, fs);
      }
    }
  }

  /** A legal sequence has a legal front. */
  lemma LegalFront(front: seq<Frame>, last: Frame, fs: seq<Frame>)
    requires fs == front + [last]
    requires forall id: Uuid :: LocalRun(Project(front, id)).None? ==> LocalRun(Project(fs, id)).None?
    ensures ConversationsLegal(fs) ==> ConversationsLegal(front)
  {
    forall f | f in front ensures f in fs {
    }
  }

  /** What the induction knows about an accepted front. */
  ghost predicate Mirrors(front: seq<Frame>) {
    var s := Run(FRESH_SESSION, front);
    && SessionInv(s) && s.handshake == Ready
    && |s.seen| == Starts(front) && |s.flows| == Starts(front) - Closings(front)
    && forall id: Uuid :: LocalRun(Project(front, id)) == Some(PhaseOf(s, id))
  }

  ghost predicate Follows(front: seq<Frame>, last: Frame, fs: seq<Frame>) {
    && fs == front + [last] && front == fs[..|fs| - 1]
    && forall id: Uuid :: LocalRun(Project(fs, id)) ==
         var before := LocalRun(Project(front, id));
         if IdOf(last) != Some(id) || before.None? then before else LocalStep(before.value, last)
  }

  /** Only the last frame, and only its own request, can spoil a legal front. */
  lemma LegalLast(front: seq<Frame>, last: Frame, fs: seq<Frame>)
    requires Follows(front, last, fs) && ConversationsLegal(front)
    ensures ConversationsLegal(fs) <==>
            WellFormed(last) && (IdOf(last).Some? ==> LocalRun(Project(fs, IdOf(last).value)).Some?)
  {
    assert forall f :: f in fs <==> f in front || f == last;
  }

  /** The inductive step of `SessionIsProduct`: acceptance. */
  lemma LastFrame(front: seq<Frame>, last: Frame, fs: seq<Frame>)
    requires Mirrors(front) && Follows(front, last, fs)
    requires ConversationsLegal(front) && WithinLimits(front)
    ensures Accepts(Run(FRESH_SESSION, front), last) <==> ConversationsLegal(fs) && WithinLimits(fs)
  {
    var s := Run(FRESH_SESSION, front);
    LegalLast(front, last, fs);
    if IdOf(last).Some? {
      var own := IdOf(last).value;
      StepIsLocal(s, last, own);
      assert LocalRun(Project(front, own)) == Some(PhaseOf(s, own));
      assert LocalRun(Project(fs, own)) == LocalStep(PhaseOf(s, own), last);
    } else {
      KeepaliveIsNeutral(s, last);
    }
  }

  /** The inductive step of `SessionIsProduct`: the states agree. */
  lemma LastPhases(front: seq<Frame>, last: Frame, fs: seq<Frame>)
    requires Mirrors(front) && Follows(front, last, fs)
    requires Accepts(Run(FRESH_SESSION, front), last)
    ensures forall id: Uuid :: LocalRun(Project(fs, id)) == Some(PhaseOf(Run(FRESH_SESSION, fs), id))
  {
    var s := Run(FRESH_SESSION, front);
    if IdOf(last).Some? {
      StepIsLocal(s, last, IdOf(last).value);
    } else {
      KeepaliveIsNeutral(s, last);
    }
  }

  // ---- The language of one conversation --------------------------------------------

  /** The shape of one request's frames, each stage holding the one before it.  `sent` and
      `received` are the chunk payloads. */
  datatype Word =
    | Nothing
    | Sending(start: ControlFrame, sent: seq<seq<byte>>)
    | Waiting(before: Word)
    | Responding(before: Word, response: ControlFrame, received: seq<seq<byte>>)
    | Finished(before: Word)
    | Aborted(before: Word, ender: ControlFrame)

  /** Start, chunks 0..k, End, ResponseStart, chunks 0..m, ResponseEnd, cut off anywhere, with
      Cancel or RequestFailed as the one other way to stop. */
  function Spell(w: Word, id: Uuid): seq<Frame> {
    match w
    case Nothing => []
    case Sending(start, sent) => [Control(start)] + Numbered(RequestChunk, id, sent)
    case Waiting(before) => Spell(before, id) + [Control(RequestEnd(id))]
    case Responding(before, response, received) =>
      Spell(before, id) + [Control(response)] + Numbered(ResponseChunk, id, received)
    case Finished(before) => Spell(before, id) + [Control(ResponseEnd(id))]
    case Aborted(before, ender) => Spell(before, id) + [Control(ender)]
  }

  ghost predicate PartsFit(kind: BodyKind, parts: seq<seq<byte>>) {
    && |parts| <= U32_MAX
    && (forall k :: 0 <= k < |parts| ==> |parts[k]| <= MAX_BODY_CHUNK_BYTES)
    && |Concat(parts)| <= BodyLimit(kind)
  }

  ghost predicate WordFits(w: Word, id: Uuid) {
    match w
    case Nothing => true
    case Sending(start, sent) =>
      start.RequestStart? && start.id == id && RequestStartError(start) == None && PartsFit(RequestChunk, sent)
    case Waiting(before) => before.Sending? && WordFits(before, id)
    case Responding(before, response, received) =>
      before.Waiting? && WordFits(before, id)
      && response.ResponseStart? && response.id == id && ResponseStartError(response) == None
      && PartsFit(ResponseChunk, received)
    case Finished(before) => before.Responding? && WordFits(before, id)
    case Aborted(before, ender) =>
      (before.Sending? || before.Waiting? || before.Responding?) && WordFits(before, id)
      && (ender.Cancel? || ender.RequestFailed?) && ender.id == id && WellFormed(Control(ender))
  }

  function WordPhase(w: Word): Phase {
    match w
    case Nothing => Unseen
    case Sending(_, sent) => Open(RequestBody(Clamp32(|sent|), Clamp64(|Concat(sent)|)))
    case Waiting(_) => Open(AwaitingResponse)
    case Responding(_, _, received) => Open(ResponseBody(Clamp32(|received|), Clamp64(|Concat(received)|)))
    case Finished(_) => Closed
    case Aborted(_, _) => Closed
  }

  function Clamp32(n: nat): u32 { if n <= U32_MAX then n else U32_MAX }

  function Clamp64(n: nat): u64 { if n <= U64_MAX then n else U64_MAX }

  ghost predicate Conversation(t: seq<Frame>, id: Uuid) {
    forall f :: f in t ==> IdOf(f) == Some(id) && WellFormed(f)
  }

  lemma LocalSnoc(t: seq<Frame>, f: Frame)
    requires forall g :: g in t ==> IdOf(g).Some?
    requires IdOf(f).Some?
    ensures forall g :: g in t + [f] ==> IdOf(g).Some?
    ensures LocalRun(t + [f]) == var p := LocalRun(t); if p.None? then None else LocalStep(p.value, f)
  {
    assert (t + [f])[..|t + [f]| - 1] == t;
  }

  /** One more legal frame of a conversation. */
  lemma Extend(t: seq<Frame>, id: Uuid, p: Phase, f: Frame)
    requires Conversation(t, id) && LocalRun(t) == Some(p)
    requires IdOf(f) == Some(id) && WellFormed(f)
    ensures Conversation(t + [f], id)
    ensures LocalRun(t + [f]) == LocalStep(p, f)
  {
    LocalSnoc(t, f);
  }

  lemma LocalChunk(kind: BodyKind, id: Uuid, n: nat, bytes: nat, payload: seq<byte>)
    requires n < U32_MAX && bytes + |payload| <= BodyLimit(kind) && |payload| <= MAX_BODY_CHUNK_BYTES
    ensures LocalStep(Open(FlowOf(kind, n, bytes)), ChunkFrame(kind, id, n, payload))
            == Some(Open(FlowOf(kind, n + 1, bytes + |payload|)))
    ensures IdOf(ChunkFrame(kind, id, n, payload)) == Some(id) && WellFormed(ChunkFrame(kind, id, n, payload))
  {
  }

  lemma OneMoreChunk(t: seq<Frame>, kind: BodyKind, id: Uuid, n: nat, bytes: nat, payload: seq<byte>)
    requires n < U32_MAX && bytes + |payload| <= BodyLimit(kind) && |payload| <= MAX_BODY_CHUNK_BYTES
    requires Conversation(t, id) && LocalRun(t) == Some(Open(FlowOf(kind, n, bytes)))
    ensures var longer := t + [ChunkFrame(kind, id, n, payload)];
            Conversation(longer, id) && LocalRun(longer) == Some(Open(FlowOf(kind, n + 1, bytes + |payload|)))
  {
    LocalChunk(kind, id, n, bytes, payload);
    Extend(t, id, Open(FlowOf(kind, n, bytes)), ChunkFrame(kind, id, n, payload));
  }

  /** Numbered pieces move a fresh body flow along, from any conversation that reached it. */
  lemma {:induction false} LocalNumbered(t: seq<Frame>, kind: BodyKind, id: Uuid, parts: seq<seq<byte>>)
    requires Conversation(t, id) && LocalRun(t) == Some(Open(FlowOf(kind, 0, 0)))
    requires PartsFit(kind, parts)
    ensures Conversation(t + Numbered(kind, id, parts), id)
    ensures LocalRun(t + Numbered(kind, id, parts)) == Some(Open(FlowOf(kind, |parts|, |Concat(parts)|)))
  {
    var frames := Numbered(kind, id, parts);
    if parts == [] {
      assert t + frames == t;
    } else {
      var front, last := parts[..|parts| - 1], parts[|parts| - 1];
      LocalNumbered(t, kind, id, front);
      NumberedFront(kind, id, parts);
      assert t + frames == t + Numbered(kind, id, front) + [ChunkFrame(kind, id, |front|, last)];
      OneMoreChunk(t + Numbered(kind, id, front), kind, id, |front|, |Concat(front)|, last);
    }
  }

  /** Every word that fits is accepted by the automaton of one request. */
  lemma {:induction false} Spelled(w: Word, id: Uuid)
    requires WordFits(w, id)
    ensures Conversation(Spell(w, id), id)
    ensures LocalRun(Spell(w, id)) == Some(WordPhase(w))
  {
    match w
    case Nothing =>
    case Sending(start, sent) =>
      SpelledRequest(id, start, sent);
    case Waiting(before) =>
      Spelled(before, id);
      Extend(Spell(before, id), id, WordPhase(before), Control(RequestEnd(id)));
    case Responding(before, response, received) =>
      Spelled(before, id);
      SpelledResponse(Spell(before, id), id, response, received);
    case Finished(before) =>
      Spelled(before, id);
      Extend(Spell(before, id), id, WordPhase(before), Control(ResponseEnd(id)));
    case Aborted(before, ender) =>
      Spelled(before, id);
      Extend(Spell(before, id), id, WordPhase(before), Control(ender));
  }

  lemma SpelledRequest(id: Uuid, start: ControlFrame, sent: seq<seq<byte>>)
    requires start.RequestStart? && start.id == id && RequestStartError(start) == None
    requires PartsFit(RequestChunk, sent)
    ensures var all := [Control(start)] + Numbered(RequestChunk, id, sent);
            Conversation(all, id) && LocalRun(all) == Some(Open(RequestBody(|sent|, |Concat(sent)|)))
  {
    Extend([], id, Unseen, Control(start));
    assert [] + [Control(start)] == [Control(start)];
    LocalNumbered([Control(start)], RequestChunk, id, sent);
  }

  lemma SpelledResponse(t: seq<Frame>, id: Uuid, response: ControlFrame, received: seq<seq<byte>>)
    requires Conversation(t, id) && LocalRun(t) == Some(Open(AwaitingResponse))
    requires response.ResponseStart? && response.id == id && ResponseStartError(response) == None
    requires PartsFit(ResponseChunk, received)
    ensures var all := t + [Control(response)] + Numbered(ResponseChunk, id, received);
            Conversation(all, id) && LocalRun(all) == Some(Open(ResponseBody(|received|, |Concat(received)|)))
  {
    Extend(t, id, Open(AwaitingResponse), Control(response));
    LocalNumbered(t + [Control(response)], ResponseChunk, id, received);
  }

  /** Every accepted conversation is one of the words. */
  lemma {:induction false} Parsed(t: seq<Frame>, id: Uuid) returns (w: Word)
    requires Conversation(t, id) && LocalRun(t).Some?
    ensures WordFits(w, id) && Spell(w, id) == t
  {
    if t == [] {
      return Nothing;
    }
    var front, last := t[..|t| - 1], t[|t| - 1];
    assert t == front + [last];
    var v := Parsed(front, id);
    Spelled(v, id);
    LocalSnoc(front, last);
    match last {
      case Body(body) => w := ParsedChunk(v, id, body);
      case Control(c) => w := ParsedControl(v, id, c);
    }
  }

  lemma ParsedControl(v: Word, id: Uuid, c: ControlFrame) returns (w: Word)
    requires WordFits(v, id) && IdOf(Control(c)) == Some(id) && WellFormed(Control(c))
    requires LocalStep(WordPhase(v), Control(c)).Some?
    ensures WordFits(w, id) && Spell(w, id) == Spell(v, id) + [Control(c)]
  {
    match c {
      case RequestStart(_, _, _, _, _) =>
        w := Sending(c, []);
        assert Spell(w, id) == [Control(c)];
      case RequestEnd(_) => w := Waiting(v);
      case ResponseStart(_, _, _) =>
        w := Responding(v, c, []);
        assert Spell(w, id) == Spell(v, id) + [Control(c)] + [];
      case ResponseEnd(_) => w := Finished(v);
      case Cancel(_) => w := Aborted(v, c);
      case RequestFailed(_, _, _) => w := Aborted(v, c);
    }
  }

  lemma ParsedChunk(v: Word, id: Uuid, body: BodyFrame) returns (w: Word)
    requires WordFits(v, id) && body.id == id && WellFormed(Body(body))
    requires LocalStep(WordPhase(v), Body(body)).Some?
    ensures WordFits(w, id) && Spell(w, id) == Spell(v, id) + [Body(body)]
  {
    if body.kind == RequestChunk {
      w := Sending(v.start, v.sent + [body.payload]);
      PartsSnoc(body, v.sent);
    } else {
      w := Responding(v.before, v.response, v.received + [body.payload]);
      PartsSnoc(body, v.received);
    }
  }

  lemma PartsSnoc(body: BodyFrame, parts: seq<seq<byte>>)
    requires |parts| < U32_MAX && body.sequence == |parts| && PartsFit(body.kind, parts)
    requires |body.payload| <= MAX_BODY_CHUNK_BYTES
    requires |Concat(parts)| + |body.payload| <= BodyLimit(body.kind)
    ensures Numbered(body.kind, body.id, parts + [body.payload]) == Numbered(body.kind, body.id, parts) + [Body(body)]
    ensures PartsFit(body.kind, parts + [body.payload])
  {
    var longer := parts + [body.payload];
    assert longer[..|longer| - 1] == parts;
    NumberedFront(body.kind, body.id, longer);
    assert Concat(longer) == Concat(parts) + body.payload;
  }

  /** Trace projection: in every accepted sequence the frames of any one request spell a word
      of the protocol, and the session holds exactly the state that word has reached. */
  lemma TraceProjection(fs: seq<Frame>, id: Uuid) returns (w: Word)
    requires Accepted(FRESH_SESSION, fs)
    ensures WordFits(w, id) && Project(fs, id) == Spell(w, id)
    ensures PhaseOf(Run(FRESH_SESSION, fs), id) == WordPhase(w)
  {
    SessionIsProduct(fs);
    w := Parsed(Project(fs, id), id);
    Spelled(w, id);
  }

  /** Some word of the protocol within the limits spells these frames of the request. */
  ghost predicate IsWord(t: seq<Frame>, id: Uuid) {
    exists w :: WordFits(w, id) && Spell(w, id) == t
  }

  lemma WordIffAccepted(t: seq<Frame>, id: Uuid)
    ensures IsWord(t, id) <==> Conversation(t, id) && LocalRun(t).Some?
  {
    if w :| WordFits(w, id) && Spell(w, id) == t {
      Spelled(w, id);
    }
    if Conversation(t, id) && LocalRun(t).Some? {
      var w := Parsed(t, id);
    }
  }

  predicate IsHandshake(f: Frame) {
    f.Control? && (f.control.ClientHello? || f.control.ServerReady?)
  }

  ghost predicate WordsOnly(fs: seq<Frame>) {
    (forall f :: f in fs ==> !IsHandshake(f)) && forall id: Uuid :: IsWord(Project(fs, id), id)
  }

  /** The language of the session: a frame sequence is accepted exactly when every start finds
      room, no handshake frame comes again, and the frames of every request spell a word. */
  lemma AcceptedLanguage(fs: seq<Frame>)
    ensures Accepted(FRESH_SESSION, fs) <==>
              WithinLimits(fs) && WordsOnly(fs)
  {
    SessionIsProduct(fs);
    if ConversationsLegal(fs) {
      LegalSpells(fs);
    }
    if WordsOnly(fs) {
      WordsLegal(fs);
    }
  }

  lemma LegalSpells(fs: seq<Frame>)
    requires ConversationsLegal(fs)
    ensures WordsOnly(fs)
  {
    forall id: Uuid ensures IsWord(Project(fs, id), id) {
      WordIffAccepted(Project(fs, id), id);
    }
  }

  lemma WordsLegal(fs: seq<Frame>)
    requires WordsOnly(fs)
    ensures ConversationsLegal(fs)
  {
    forall id: Uuid ensures LocalRun(Project(fs, id)).Some? {
      WordIffAccepted(Project(fs, id), id);
    }
    forall f | f in fs ensures WellFormed(f) {
      if IdOf(f).Some? {
        var id := IdOf(f).value;
        ProjectKeeps(fs, f, id);
        WordIffAccepted(Project(fs, id), id);
      }
    }
  }

  lemma {:induction false} ProjectKeeps(fs: seq<Frame>, f: Frame, id: Uuid)
    requires f in fs && IdOf(f) == Some(id)
    ensures f in Project(fs, id)
  {
    ProjectLast(fs, id);
    if f == fs[|fs| - 1] {
    } else {
      ProjectKeeps(fs[..|fs| - 1], f, id);
    }
  }
}
