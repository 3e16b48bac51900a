/** Splitting a body into chunk frames and putting it back together: the
    `chunks(MAX_BODY_CHUNK_BYTES).enumerate()` loops of both senders
    (crates/c6-cloud/src/lib.rs:1400-1419, crates/c6-connector/src/runtime.rs:298-313). */
module RelayChunks {
  import opened Common
  import opened RelayFrames
  import opened RelaySession

  function Concat(parts: seq<seq<byte>>): seq<byte> {
    if parts == [] then [] else Concat(parts[..|parts| - 1]) + parts[|parts| - 1]
  }

  /** `MAX_BODY_CHUNK_BYTES` is written out, here and below, where it divides or multiplies. */
  function ChunkCount(body: seq<byte>): nat {
    (|body| + 0xFFFF) / 0x1_0000
  }

  /** How many bytes the first `k` chunks cover. */
  function Reach(body: seq<byte>, k: nat): (n: nat)
    ensures n <= |body|
  {
    if k * 0x1_0000 < |body| then k * 0x1_0000 else |body|
  }

  /** Rust's `chunks`: full pieces, then one shorter last piece; nothing for an empty body. */
  function Chunks(body: seq<byte>): seq<seq<byte>> {
    seq(ChunkCount(body), k requires 0 <= k < ChunkCount(body) => body[Reach(body, k)..Reach(body, k + 1)])
  }

  /** Rust's `index as u32`: the low 32 bits. */
  function AsU32(index: nat): u32 {
    if index <= U32_MAX then index else index % 0x1_0000_0000
  }

  /** The chunk frame at one index of the enumeration. */
  function ChunkFrame(kind: BodyKind, id: Uuid, index: nat, payload: seq<byte>): Frame {
    Body(BodyFrame(kind, id, AsU32(index), payload))
  }

  function Numbered(kind: BodyKind, id: Uuid, parts: seq<seq<byte>>): (frames: seq<Frame>)
    ensures |frames| == |parts|
    ensures forall i :: 0 <= i < |parts| ==> frames[i] == ChunkFrame(kind, id, i, parts[i])
  {
    seq(|parts|, i requires 0 <= i < |parts| => ChunkFrame(kind, id, i, parts[i]))
  }

  function ChunkFrames(kind: BodyKind, id: Uuid, body: seq<byte>): seq<Frame> {
    Numbered(kind, id, Chunks(body))
  }

  lemma {:induction false} ChunksPrefix(body: seq<byte>, k: nat)
    requires k <= ChunkCount(body)
    ensures Concat(Chunks(body)[..k]) == body[..Reach(body, k)]
  {
    if k > 0 {
      ChunksPrefix(body, k - 1);
      assert Chunks(body)[..k][..k - 1] == Chunks(body)[..k - 1];
    }
  }

  lemma ChunkCountBounds(body: seq<byte>)
    ensures var n := ChunkCount(body); |body| <= n * 0x1_0000 < |body| + 0x1_0000
    ensures |body| <= MAX_RESPONSE_BODY_BYTES ==> ChunkCount(body) <= 1024
    ensures |body| <= MAX_REQUEST_BODY_BYTES ==> ChunkCount(body) <= 256
  {
  }

  lemma ChunkSizes(body: seq<byte>, k: nat)
    requires k < ChunkCount(body)
    ensures 0 < |Chunks(body)[k]| <= MAX_BODY_CHUNK_BYTES
    ensures k < ChunkCount(body) - 1 ==> |Chunks(body)[k]| == MAX_BODY_CHUNK_BYTES
  {
    ChunkCountBounds(body);
    assert (k + 1) * 0x1_0000 == k * 0x1_0000 + 0x1_0000;
    assert Chunks(body)[k] == body[Reach(body, k)..Reach(body, k + 1)];
  }

  /** The pieces are never empty or oversized, every piece but the last is full, and together
      they are the body: for the empty body there is no piece at all. */
  lemma ChunksReassemble(body: seq<byte>)
    ensures Concat(Chunks(body)) == body
    ensures forall k :: 0 <= k < |Chunks(body)| ==> 0 < |Chunks(body)[k]| <= MAX_BODY_CHUNK_BYTES
    ensures forall k :: 0 <= k < |Chunks(body)| - 1 ==> |Chunks(body)[k]| == MAX_BODY_CHUNK_BYTES
    ensures |body| <= MAX_RESPONSE_BODY_BYTES ==> |Chunks(body)| <= 1024
    ensures |body| <= MAX_REQUEST_BODY_BYTES ==> |Chunks(body)| <= 256
  {
    ChunkCountBounds(body);
    ChunksPrefix(body, ChunkCount(body));
    assert Chunks(body)[..ChunkCount(body)] == Chunks(body);
    forall k | 0 <= k < |Chunks(body)|
      ensures 0 < |Chunks(body)[k]| <= MAX_BODY_CHUNK_BYTES
                && (k < |Chunks(body)| - 1 ==> |Chunks(body)[k]| == MAX_BODY_CHUNK_BYTES)
    {
      ChunkSizes(body, k);
    }
  }

  function FlowOf(kind: BodyKind, sequence: u32, bytes: u64): Flow {
    match kind
    case RequestChunk => RequestBody(sequence, bytes)
    case ResponseChunk => ResponseBody(sequence, bytes)
  }

  /** One chunk on a flow that is where the chunk expects it. */
  lemma ChunkStep(s: Session, kind: BodyKind, id: Uuid, n: nat, bytes: nat, payload: seq<byte>)
    requires s.handshake == Ready && n < U32_MAX && bytes <= BodyLimit(kind) && |payload| <= MAX_BODY_CHUNK_BYTES
    requires id in s.flows && s.flows[id] == FlowOf(kind, n, bytes)
    ensures Accepts(s, ChunkFrame(kind, id, n, payload)) <==> bytes + |payload| <= BodyLimit(kind)
    ensures bytes + |payload| <= BodyLimit(kind) ==>
              After(s, ChunkFrame(kind, id, n, payload))
              == s.(flows := s.flows[id := FlowOf(kind, n + 1, bytes + |payload|)])
    ensures bytes + |payload| > BodyLimit(kind) ==> After(s, ChunkFrame(kind, id, n, payload)) == s
  {
  }

  lemma NumberedFront(kind: BodyKind, id: Uuid, parts: seq<seq<byte>>)
    requires parts != []
    ensures var frames, n := Numbered(kind, id, parts), |parts| - 1;
            frames[..|frames| - 1] == Numbered(kind, id, parts[..n])
            && frames[|frames| - 1] == ChunkFrame(kind, id, n, parts[n])
  {
  }

  /** A fresh flow accepts numbered pieces exactly while their total stays within the limit,
      and then counts them and their bytes. */
  lemma {:induction false} NumberedAccepted(s: Session, kind: BodyKind, id: Uuid, parts: seq<seq<byte>>)
    requires s.handshake == Ready && id in s.flows && s.flows[id] == FlowOf(kind, 0, 0)
    requires |parts| <= U32_MAX
    requires forall k :: 0 <= k < |parts| ==> |parts[k]| <= MAX_BODY_CHUNK_BYTES
    ensures Accepted(s, Numbered(kind, id, parts)) <==> |Concat(parts)| <= BodyLimit(kind)
    ensures |Concat(parts)| <= BodyLimit(kind) ==>
              Run(s, Numbered(kind, id, parts)) == s.(flows := s.flows[id := FlowOf(kind, |parts|, |Concat(parts)|)])
  {
    if parts == [] {
      assert s.flows == s.flows[id := FlowOf(kind, 0, 0)];
    } else {
      var n := |parts| - 1;
      var front := parts[..n];
      NumberedAccepted(s, kind, id, front);
      NumberedFront(kind, id, parts);
      if |Concat(front)| <= BodyLimit(kind) {
        ChunkAfter(s, kind, id, n, |Concat(front)|, parts[n]);
      }
    }
  }

  /** The next chunk of a flow that has come this far. */
  lemma ChunkAfter(s: Session, kind: BodyKind, id: Uuid, n: nat, bytes: nat, payload: seq<byte>)
    requires s.handshake == Ready && id in s.flows && n < U32_MAX && bytes <= BodyLimit(kind)
               && |payload| <= MAX_BODY_CHUNK_BYTES
    ensures var t, f := s.(flows := s.flows[id := FlowOf(kind, n, bytes)]), ChunkFrame(kind, id, n, payload);
            && (Accepts(t, f) <==> bytes + |payload| <= BodyLimit(kind))
            && (Accepts(t, f) ==> After(t, f) == s.(flows := s.flows[id := FlowOf(kind, n + 1, bytes + |payload|)]))
  {
    var t := s.(flows := s.flows[id := FlowOf(kind, n, bytes)]);
    ChunkStep(t, kind, id, n, bytes, payload);
  }

  /** Only bodies within the limit have so few chunks that a flow could take them all. */
  lemma TooManyChunks(s: Session, kind: BodyKind, id: Uuid, body: seq<byte>)
    requires s.handshake == Ready && id in s.flows && s.flows[id] == FlowOf(kind, 0, 0)
    requires |Chunks(body)| > 1024
    ensures !Accepted(s, ChunkFrames(kind, id, body)) && |body| > BodyLimit(kind)
  {
    var frames, parts := ChunkFrames(kind, id, body), Chunks(body)[..1025];
    ChunkCountBounds(body);
    ChunksPrefix(body, 1025);
    ChunksReassemble(body);
    NumberedAccepted(s, kind, id, parts);
    assert frames[..1025] == Numbered(kind, id, parts);
    PrefixAccepted(s, frames, 1025, |frames|);
  }

  /** Chunk and reassemble: the frames of a body are accepted in order by a fresh flow exactly
      when the body is within the limit of its direction. */
  lemma ChunkAndReassemble(s: Session, kind: BodyKind, id: Uuid, body: seq<byte>)
    requires s.handshake == Ready && id in s.flows && s.flows[id] == FlowOf(kind, 0, 0)
    ensures Accepted(s, ChunkFrames(kind, id, body)) <==> |body| <= BodyLimit(kind)
    ensures |body| <= BodyLimit(kind) ==>
              |Chunks(body)| <= 1024
              && Run(s, ChunkFrames(kind, id, body)) == s.(flows := s.flows[id := FlowOf(kind, |Chunks(body)|, |body|)])
  {
    if |Chunks(body)| > 1024 {
      TooManyChunks(s, kind, id, body);
    } else {
      ChunksReassemble(body);
      NumberedAccepted(s, kind, id, Chunks(body));
    }
  }

  lemma {:induction false} ConcatOfEmpties(parts: seq<seq<byte>>)
    requires forall k :: 0 <= k < |parts| ==> parts[k] == []
    ensures Concat(parts) == []
  {
    if parts == [] {
    } else {
      ConcatOfEmpties(parts[..|parts| - 1]);
    }
  }

  /** The one rejection that leaves a mark can be reached: after any legal start and 2^32 - 1 empty
      chunks, all accepted, one more byte is refused and counted all the same. */
  lemma OverflowIsReachable(start: ControlFrame)
    requires start.RequestStart? && RequestStartError(start) == None
    ensures var fs := [Control(start)] + Numbered(RequestChunk, start.id, seq(U32_MAX, _ => []));
            var s, f := Run(FRESH_SESSION, fs), Body(BodyFrame(RequestChunk, start.id, U32_MAX, [0]));
            Accepted(FRESH_SESSION, fs) && !Accepts(s, f) && After(s, f) != s
  {
    var empties: seq<seq<byte>> := seq(U32_MAX, _ => []);
    var begun := After(FRESH_SESSION, Control(start));
    RunAppend(FRESH_SESSION, [Control(start)], Numbered(RequestChunk, start.id, empties));
    SingleFrame(FRESH_SESSION, Control(start));
    assert begun.flows[start.id] == FlowOf(RequestChunk, 0, 0);
    ConcatOfEmpties(empties);
    NumberedAccepted(begun, RequestChunk, start.id, empties);
    OverflowMarks(Run(begun, Numbered(RequestChunk, start.id, empties)), start.id);
  }

  lemma OverflowMarks(s: Session, id: Uuid)
    requires s.handshake == Ready && id in s.flows && s.flows[id] == FlowOf(RequestChunk, U32_MAX, 0)
    ensures var f := Body(BodyFrame(RequestChunk, id, U32_MAX, [0]));
            !Accepts(s, f) && After(s, f) != s
  {
    assert After(s, Body(BodyFrame(RequestChunk, id, U32_MAX, [0]))).flows[id].bytes == 1;
  }

  /** No index is truncated by the cast, and the payloads put the same body back together. */
  lemma FramesCarryBody(kind: BodyKind, id: Uuid, body: seq<byte>)
    requires |Chunks(body)| <= U32_MAX
    ensures forall i :: 0 <= i < |ChunkFrames(kind, id, body)| ==>
              ChunkFrames(kind, id, body)[i] == Body(BodyFrame(kind, id, i, Chunks(body)[i]))
    ensures Concat(Payloads(ChunkFrames(kind, id, body))) == body
  {
    ChunksReassemble(body);
    PayloadsOfNumbered(kind, id, Chunks(body));
  }

  /** The payloads of the body frames among `fs`, in order. */
  function Payloads(fs: seq<Frame>): seq<seq<byte>> {
    if fs == [] then []
    else
      var last := fs[|fs| - 1];
      Payloads(fs[..|fs| - 1]) + if last.Body? then [last.body.payload] else []
  }

  lemma {:induction false} PayloadsOfNumbered(kind: BodyKind, id: Uuid, parts: seq<seq<byte>>)
    ensures Payloads(Numbered(kind, id, parts)) == parts
  {
    if parts == [] {
    } else {
      var front := parts[..|parts| - 1];
      PayloadsOfNumbered(kind, id, front);
      NumberedFront(kind, id, parts);
    }
  }
}
