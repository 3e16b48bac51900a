/** The runner's byte-level loops: reading one newline-terminated frame and cutting a captured log
    at a character boundary (crates/c6-runner/src/lib.rs:1039-1055, 1074-1102). */
module RunnerFrames {
  import opened Common
  import opened Utf8Text

  const MAX_FRAME_BYTES: nat := 262_144
  const CHUNK_BYTES: nat := 4_096
  const NEWLINE: byte := 10

  // ---- read_frame -------------------------------------------------------------------------

  /** What one read of the 4096-byte buffer delivers. */
  type Segment = s: seq<byte> | |s| <= 4_096

  /** A read of no bytes is the end of the stream, as is a list of reads that runs out. */
  datatype Read = Data(bytes: Segment) | Failed

  datatype FrameResult = Complete(bytes: seq<byte>) | Io | TooLarge | Truncated | MultipleFrames | EmptyFrame

  predicate FirstNewline(s: seq<byte>, n: nat) {
    n < |s| && s[n] == NEWLINE && forall k :: 0 <= k < n ==> s[k] != NEWLINE
  }

  /** Index of the first newline. */
  function Position(s: seq<byte>): (n: nat)
    requires NEWLINE in s
    ensures FirstNewline(s, n)
  {
    if s[0] == NEWLINE then 0 else 1 + Position(s[1..])
  }

  /** The two checks after the loop. */
  function Judged(frame: seq<byte>): FrameResult {
    if frame == [] then EmptyFrame else if |frame| > MAX_FRAME_BYTES then TooLarge else Complete(frame)
  }

  /** `read_frame`, with `frame` read so far. */
  function ReadFrom(frame: seq<byte>, input: seq<Read>): FrameResult
    decreases |input|
  {
    if input == [] then Truncated
    else match input[0]
      case Failed => Io
      case Data(bytes) =>
        if bytes == [] then Truncated
        else if NEWLINE in bytes then
          if Position(bytes) + 1 != |bytes| then MultipleFrames else Judged(frame + bytes[..Position(bytes)])
        else if |frame + bytes| > MAX_FRAME_BYTES then TooLarge
        else ReadFrom(frame + bytes, input[1..])
  }

  method ReadFrame(input: seq<Read>) returns (result: FrameResult)
    ensures result == ReadFrom([], input)
  {
    var frame: seq<byte> := [];
    var i := 0;
    while true
      invariant 0 <= i <= |input|
      invariant ReadFrom([], input) == ReadFrom(frame, input[i..])
      decreases |input| - i
    {
      if i == |input| {
        return Truncated;
      }
      if input[i].Failed? {
        return Io;
      }
      var bytes := input[i].bytes;
      if |bytes| == 0 {
        return Truncated;
      }
      if NEWLINE in bytes {
        var newline := Position(bytes);
        frame := frame + bytes[..newline];
        if newline + 1 != |bytes| {
          return MultipleFrames;
        }
        break;
      }
      assert input[i..][1..] == input[i + 1..];
      frame := frame + bytes;
      if |frame| > MAX_FRAME_BYTES {
        return TooLarge;
      }
      i := i + 1;
    }
    if |frame| == 0 {
      return EmptyFrame;
    }
    if |frame| > MAX_FRAME_BYTES {
      return TooLarge;
    }
    result := Complete(frame);
  }

  /** The bytes of reads that never fail and never come back empty. */
  function Joined(input: seq<Read>): seq<byte> {
    if input == [] then [] else (if input[0].Data? then input[0].bytes else []) + Joined(input[1..])
  }

  ghost predicate Healthy(input: seq<Read>) {
    forall r :: r in input ==> r.Data? && r.bytes != []
  }

  /** These reads are one segmentation of the stream. */
  ghost predicate Delivers(input: seq<Read>, stream: seq<byte>) {
    Healthy(input) && Joined(input) == stream
  }

  /** Bytes delivered before the read that brings the first newline, and bytes which that read
      brings after it. */
  function Lead(input: seq<Read>): nat
    requires NEWLINE in Joined(input)
  {
    if input[0].Data? && NEWLINE in input[0].bytes then 0
    else (if input[0].Data? then |input[0].bytes| else 0) + Lead(input[1..])
  }

  function Overrun(input: seq<Read>): nat
    requires NEWLINE in Joined(input)
  {
    if input[0].Data? && NEWLINE in input[0].bytes then |input[0].bytes| - Position(input[0].bytes) - 1
    else Overrun(input[1..])
  }

  lemma PositionUnique(s: seq<byte>, n: nat)
    requires FirstNewline(s, n)
    ensures NEWLINE in s && Position(s) == n
  {
    assert s[n] in s;
  }

  lemma PositionInFront(front: seq<byte>, rest: seq<byte>)
    requires NEWLINE in front
    ensures NEWLINE in front + rest && Position(front + rest) == Position(front)
  {
    PositionUnique(front + rest, Position(front));
  }

  lemma PositionBehind(front: seq<byte>, rest: seq<byte>)
    requires NEWLINE !in front && NEWLINE in rest
    ensures NEWLINE in front + rest && Position(front + rest) == |front| + Position(rest)
  {
    PositionUnique(front + rest, |front| + Position(rest));
  }

  /** Where the read with the first newline lies in the stream. */
  lemma {:induction false} LeadAndOverrun(input: seq<Read>)
    requires Healthy(input) && NEWLINE in Joined(input)
    ensures var n := Position(Joined(input));
            Lead(input) <= n && n + 1 + Overrun(input) <= |Joined(input)|
            && n + 1 + Overrun(input) - Lead(input) <= CHUNK_BYTES
    decreases |input|
  {
    var bytes: seq<byte>, rest: seq<byte> := input[0].bytes, Joined(input[1..]);
    if NEWLINE in bytes {
      PositionInFront(bytes, rest);
    } else {
      LeadAndOverrun(input[1..]);
      PositionBehind(bytes, rest);
    }
  }

  /** A stream without a newline. */
  lemma {:induction false} ReadWithoutNewline(frame: seq<byte>, input: seq<Read>)
    requires Healthy(input) && NEWLINE !in Joined(input) && |frame| <= MAX_FRAME_BYTES
    ensures ReadFrom(frame, input) == if |frame| + |Joined(input)| > MAX_FRAME_BYTES then TooLarge else Truncated
    decreases |input|
  {
    if input == [] {
    } else {
      var bytes := input[0].bytes;
      assert NEWLINE !in bytes;
      if |frame + bytes| <= MAX_FRAME_BYTES {
        ReadWithoutNewline(frame + bytes, input[1..]);
      }
    }
  }

  /** A stream with one: the outcome hangs on the segmentation only through the place of the read
      that brings the newline. */
  lemma {:induction false} ReadWithNewline(frame: seq<byte>, input: seq<Read>)
    requires Healthy(input) && NEWLINE in Joined(input) && |frame| <= MAX_FRAME_BYTES
    ensures ReadFrom(frame, input) ==
              if |frame| + Lead(input) > MAX_FRAME_BYTES then TooLarge
              else if Overrun(input) > 0 then MultipleFrames
              else Judged(frame + Joined(input)[..Position(Joined(input))])
    decreases |input|
  {
    var bytes: seq<byte>, rest: seq<byte> := input[0].bytes, Joined(input[1..]);
    if NEWLINE in bytes {
      PositionInFront(bytes, rest);
      assert (bytes + rest)[..Position(bytes)] == bytes[..Position(bytes)];
    } else {
      PositionBehind(bytes, rest);
      if |frame + bytes| <= MAX_FRAME_BYTES {
        ReadWithNewline(frame + bytes, input[1..]);
        CutBehind(frame, bytes, rest, Position(rest));
      }
    }
  }

  lemma CutBehind(frame: seq<byte>, bytes: seq<byte>, rest: seq<byte>, n: nat)
    requires n <= |rest|
    ensures frame + (bytes + rest)[..|bytes| + n] == frame + bytes + rest[..n]
  {
    assert (bytes + rest)[..|bytes| + n] == bytes + rest[..n];
  }

  /** An accepted frame is always the non-empty bytes before the stream's first newline, within
      the limit. */
  lemma AcceptedFrame(input: seq<Read>, stream: seq<byte>)
    requires Delivers(input, stream) && ReadFrom([], input).Complete?
    ensures NEWLINE in stream && 1 <= Position(stream) <= MAX_FRAME_BYTES
    ensures ReadFrom([], input) == Complete(stream[..Position(stream)])
  {
    if NEWLINE in stream {
      ReadWithNewline([], input);
      assert [] + stream[..Position(stream)] == stream[..Position(stream)];
    } else {
      ReadWithoutNewline([], input);
    }
  }

  /** No bytes after the first newline, or a newline so far out that the size limit is passed
      before any read can reach it. */
  predicate OneOutcome(stream: seq<byte>) {
    NEWLINE in stream ==>
      Position(stream) + 1 == |stream| || Position(stream) >= MAX_FRAME_BYTES + CHUNK_BYTES - 1
  }

  /** The one outcome of such a stream. */
  function Outcome(stream: seq<byte>): FrameResult {
    if NEWLINE !in stream then if |stream| > MAX_FRAME_BYTES then TooLarge else Truncated
    else Judged(stream[..Position(stream)])
  }

  lemma OutcomeIs(input: seq<Read>, stream: seq<byte>)
    requires Delivers(input, stream) && OneOutcome(stream)
    ensures ReadFrom([], input) == Outcome(stream)
  {
    if NEWLINE in stream {
      ReadWithNewline([], input);
      LeadAndOverrun(input);
      assert [] + stream[..Position(stream)] == stream[..Position(stream)];
    } else {
      ReadWithoutNewline([], input);
    }
  }

  /** The answer to a stream whose only newline is its last byte, however it is cut: a frame is taken
      exactly when it is not empty and within 256 KiB. */
  lemma FrameIsAnswered(input: seq<Read>, stream: seq<byte>)
    requires Delivers(input, stream) && stream != [] && stream[|stream| - 1] == 10
    requires forall k :: 0 <= k < |stream| - 1 ==> stream[k] != 10
    ensures ReadFrom([], input) ==
              if |stream| == 1 then EmptyFrame
              else if |stream| - 1 > 262_144 then TooLarge
              else Complete(stream[..|stream| - 1])
  {
    PositionUnique(stream, |stream| - 1);
    OutcomeIs(input, stream);
  }

  /** The answer to a stream without a newline. */
  lemma UnfinishedIsAnswered(input: seq<Read>, stream: seq<byte>)
    requires Delivers(input, stream) && 10 !in stream
    ensures ReadFrom([], input) == if |stream| > 262_144 then TooLarge else Truncated
  {
    ReadWithoutNewline([], input);
  }

  /** What comes after the newline in the same read is refused, unless the limit was passed before
      that read. */
  lemma ExtraBytesAreRefused(input: seq<Read>, stream: seq<byte>)
    requires Delivers(input, stream) && NEWLINE in stream && Overrun(input) > 0
    ensures ReadFrom([], input) == if Lead(input) > 262_144 then TooLarge else MultipleFrames
  {
    ReadWithNewline([], input);
  }

  /** A failed read and the end of the stream are told apart, as long as the frame is open. */
  lemma {:induction false} OpenFrameStops(frame: seq<byte>, front: seq<Read>, stop: Read, rest: seq<Read>)
    requires Healthy(front) && 10 !in Joined(front) && |frame| + |Joined(front)| <= 262_144
    requires stop.Failed? || stop.bytes == []
    ensures ReadFrom(frame, front + [stop] + rest) == if stop.Failed? then Io else Truncated
    decreases |front|
  {
    var input := front + [stop] + rest;
    if front == [] {
      assert input[0] == stop;
    } else {
      assert front[0] in front && input[0] == front[0];
      assert input[1..] == front[1..] + [stop] + rest;
      assert NEWLINE !in front[0].bytes;
      OpenFrameStops(frame + front[0].bytes, front[1..], stop, rest);
    }
  }

  /** One byte at a time. */
  function Singles(s: seq<byte>): seq<Read> {
    if s == [] then [] else [Data([s[0]])] + Singles(s[1..])
  }

  lemma {:induction false} SinglesDeliver(s: seq<byte>)
    ensures Delivers(Singles(s), s)
    ensures NEWLINE in s ==> Overrun(Singles(s)) == 0 && Lead(Singles(s)) == Position(s)
  {
    if s == [] {
    } else {
      SinglesDeliver(s[1..]);
      assert Singles(s)[1..] == Singles(s[1..]);
      assert s == [s[0]] + s[1..];
      if NEWLINE in s {
        if s[0] == NEWLINE {
          assert s[..0] == [];
          PositionUnique(s, 0);
          PositionUnique([s[0]], 0);
        } else {
          assert NEWLINE in s[1..];
          PositionBehind([s[0]], s[1..]);
        }
      }
    }
  }

  /** One byte at a time up to `p`, then one read past the newline, then one byte at a time. */
  function Straddling(s: seq<byte>, p: nat, q: nat): seq<Read>
    requires p < q <= |s| && q - p <= 4_096
  {
    Singles(s[..p]) + ([Data(s[p..q])] + Singles(s[q..]))
  }

  lemma {:induction false} JoinedAppend(a: seq<Read>, b: seq<Read>)
    ensures Joined(a + b) == Joined(a) + Joined(b)
  {
    if a == [] {
      assert a + b == b;
    } else {
      assert (a + b)[1..] == a[1..] + b;
      JoinedAppend(a[1..], b);
    }
  }

  lemma {:induction false} LeadBehind(a: seq<Read>, b: seq<Read>)
    requires Healthy(a) && NEWLINE !in Joined(a) && NEWLINE in Joined(b)
    ensures NEWLINE in Joined(a + b)
    ensures Lead(a + b) == |Joined(a)| + Lead(b) && Overrun(a + b) == Overrun(b)
    decreases |a|
  {
    JoinedAppend(a, b);
    if a == [] {
      assert a + b == b;
    } else {
      assert (a + b)[1..] == a[1..] + b;
      assert a[0] in a;
      assert NEWLINE !in a[0].bytes;
      LeadBehind(a[1..], b);
    }
  }

  /** A read that straddles the first newline of the stream, by one byte. */
  ghost predicate Straddles(s: seq<byte>, p: nat, q: nat) {
    p < q <= |s| && q - p <= 4_096 && NEWLINE in s && p <= Position(s) && Position(s) + 2 == q
  }

  lemma StraddlingDelivers(s: seq<byte>, p: nat, q: nat)
    requires Straddles(s, p, q)
    ensures Delivers(Straddling(s, p, q), s)
    ensures Lead(Straddling(s, p, q)) == p && Overrun(Straddling(s, p, q)) == 1
  {
    var front, tail := Singles(s[..p]), [Data(s[p..q])] + Singles(s[q..]);
    SinglesDeliver(s[..p]);
    StraddlingTail(s, p, q);
    JoinedAppend(front, tail);
    assert s == s[..p] + s[p..];
    LeadBehind(front, tail);
  }

  lemma StraddlingTail(s: seq<byte>, p: nat, q: nat)
    requires Straddles(s, p, q)
    ensures NEWLINE !in s[..p]
    ensures var tail := [Data(s[p..q])] + Singles(s[q..]);
            Delivers(tail, s[p..]) && NEWLINE in s[p..] && Lead(tail) == 0 && Overrun(tail) == 1
  {
    var middle: seq<byte>, back := s[p..q], Singles(s[q..]);
    SinglesDeliver(s[q..]);
    MiddlePosition(s, p, q);
    assert s[p..] == middle + s[q..];
    HeadFirst(middle, back);
  }

  /** A read in front of others, bringing the newline. */
  lemma HeadFirst(bytes: Segment, back: seq<Read>)
    requires Healthy(back) && NEWLINE in bytes
    ensures var tail := [Data(bytes)] + back;
            && Healthy(tail) && Joined(tail) == bytes + Joined(back) && NEWLINE in Joined(tail)
            && Lead(tail) == 0 && Overrun(tail) == |bytes| - Position(bytes) - 1
  {
    var tail := [Data(bytes)] + back;
    assert tail[1..] == back;
    assert Joined(tail) == bytes + Joined(back);
    assert bytes[Position(bytes)] in bytes + Joined(back);
  }

  lemma MiddlePosition(s: seq<byte>, p: nat, q: nat)
    requires Straddles(s, p, q)
    ensures NEWLINE !in s[..p] && NEWLINE in s[p..q] && Position(s[p..q]) == Position(s) - p
    ensures NEWLINE in s[p..]
  {
    PositionUnique(s[p..q], Position(s) - p);
    assert s[p..][Position(s) - p] == NEWLINE;
  }

  /** One byte at a time, the newline ends its read. */
  lemma SinglesOutcome(stream: seq<byte>)
    requires NEWLINE in stream
    ensures Delivers(Singles(stream), stream) && ReadFrom([], Singles(stream)) != MultipleFrames
  {
    SinglesDeliver(stream);
    ReadWithNewline([], Singles(stream));
  }

  lemma StraddlingOutcome(stream: seq<byte>, p: nat, q: nat)
    requires Straddles(stream, p, q) && p <= MAX_FRAME_BYTES
    ensures Delivers(Straddling(stream, p, q), stream) && ReadFrom([], Straddling(stream, p, q)) == MultipleFrames
  {
    StraddlingDelivers(stream, p, q);
    ReadWithNewline([], Straddling(stream, p, q));
  }

  /** Two segmentations of any other stream that end differently. */
  lemma SegmentationsDisagree(stream: seq<byte>) returns (one: seq<Read>, other: seq<Read>)
    requires !OneOutcome(stream)
    ensures Delivers(one, stream) && Delivers(other, stream)
    ensures ReadFrom([], one) != ReadFrom([], other)
  {
    var p := LastStart(stream);
    LastStartStraddles(stream);
    SinglesOutcome(stream);
    StraddlingOutcome(stream, p, Position(stream) + 2);
    one, other := Singles(stream), Straddling(stream, p, Position(stream) + 2);
  }

  /** The last place where a read that brings the newline may begin. */
  function LastStart(stream: seq<byte>): nat
    requires NEWLINE in stream
  {
    if Position(stream) <= MAX_FRAME_BYTES then Position(stream) else MAX_FRAME_BYTES
  }

  lemma LastStartStraddles(stream: seq<byte>)
    requires !OneOutcome(stream)
    ensures Straddles(stream, LastStart(stream), Position(stream) + 2) && LastStart(stream) <= MAX_FRAME_BYTES
  {
  }

  /** Exactly when the outcome does not depend on how the stream is cut into reads. */
  lemma SegmentationIndependentIff(stream: seq<byte>)
    ensures OneOutcome(stream) <==>
              forall one, other :: Delivers(one, stream) && Delivers(other, stream) ==>
                ReadFrom([], one) == ReadFrom([], other)
  {
    if OneOutcome(stream) {
      forall one, other | Delivers(one, stream) && Delivers(other, stream)
        ensures ReadFrom([], one) == ReadFrom([], other)
      {
        OutcomeIs(one, stream);
        OutcomeIs(other, stream);
      }
    } else {
      var one, other := SegmentationsDisagree(stream);
    }
  }

  // ---- capture_log ----------------------------------------------------------------------------

  datatype CapturedLog = CapturedLog(content: seq<byte>, truncated: bool)

  /** The longest prefix of whole characters that fits. */
  ghost predicate LongestWithin(text: seq<Scalar>, kept: seq<byte>, limit: nat) {
    && (exists k :: 0 <= k <= |text| && kept == Utf8(text[..k]))
    && |kept| <= limit
    && forall k :: 0 <= k <= |text| && |Utf8(text[..k])| <= limit ==> |Utf8(text[..k])| <= |kept|
  }

  /** The same log, built forwards: whole characters while they fit. */
  function Fitting(text: seq<Scalar>, limit: nat): seq<Scalar> {
    if text == [] || |Octets(text[0])| > limit then []
    else [text[0]] + Fitting(text[1..], limit - |Octets(text[0])|)
  }

  function Captured(text: seq<Scalar>, limit: nat): CapturedLog {
    CapturedLog(Utf8(Fitting(text, limit)), |Utf8(text)| > limit)
  }

  lemma {:induction false} FittingIsLongest(text: seq<Scalar>, limit: nat)
    ensures Fitting(text, limit) <= text && LongestWithin(text, Utf8(Fitting(text, limit)), limit)
    decreases |text|
  {
    var kept := Fitting(text, limit);
    if kept == [] {
      assert text[..0] == [];
      forall k | 0 < k <= |text| ensures |Utf8(text[..k])| > limit {
        assert text[..k][0] == text[0];
      }
    } else {
      var n := |Octets(text[0])|;
      var rest := Fitting(text[1..], limit - n);
      FittingIsLongest(text[1..], limit - n);
      assert kept[1..] == rest;
      assert text[..|kept|] == kept;
      forall k | 0 < k <= |text| && |Utf8(text[..k])| <= limit ensures |Utf8(text[..k])| <= |Utf8(kept)| {
        assert text[..k][1..] == text[1..][..k - 1];
      }
      assert |Utf8(text[..0])| == 0;
    }
  }

  lemma LongestIsUnique(text: seq<Scalar>, a: seq<byte>, b: seq<byte>, limit: nat)
    requires LongestWithin(text, a, limit) && LongestWithin(text, b, limit)
    ensures a == b
  {
    var j :| 0 <= j <= |text| && a == Utf8(text[..j]);
    var k :| 0 <= k <= |text| && b == Utf8(text[..k]);
    assert |Utf8(text[..j])| == |Utf8(text[..k])|;
    CutIsPrefix(text, j);
    CutIsPrefix(text, k);
  }

  lemma {:induction false} FittingAll(text: seq<Scalar>, limit: nat)
    requires |Utf8(text)| <= limit
    ensures Fitting(text, limit) == text
    decreases |text|
  {
    if text == [] {
    } else {
      FittingAll(text[1..], limit - |Octets(text[0])|);
    }
  }

  /** The backward scan: it stops on the longest whole-character prefix, at most three bytes below
      the limit, and never runs past the start.  `text` is what the string's bytes encode. */
  method CaptureLog(content: seq<byte>, limit: nat, ghost text: seq<Scalar>) returns (log: CapturedLog)
    requires content == Utf8(text)
    ensures log.truncated <==> |content| > limit
    ensures !log.truncated ==> log.content == content
    ensures log.truncated ==> LongestWithin(text, log.content, limit) && limit <= |log.content| + 3
    ensures log == Captured(text, limit)
  {
    if |content| <= limit {
      FittingAll(text, limit);
      return CapturedLog(content, false);
    }
    var boundary := limit;
    ghost var b := BoundaryNearby(text, limit);
    while !IsCharBoundary(content, boundary)
      invariant b <= boundary <= limit
      invariant forall i :: boundary < i <= limit ==> !IsCharBoundary(content, i)
      decreases boundary
    {
      boundary := boundary - 1;
    }
    CutIsCaptured(text, boundary, limit);
    log := CapturedLog(content[..boundary], true);
  }

  lemma CutIsCaptured(text: seq<Scalar>, boundary: nat, limit: nat)
    requires boundary <= limit < |Utf8(text)| && IsCharBoundary(Utf8(text), boundary)
    requires forall i :: boundary < i <= limit ==> !IsCharBoundary(Utf8(text), i)
    ensures LongestWithin(text, Utf8(text)[..boundary], limit)
    ensures Captured(text, limit) == CapturedLog(Utf8(text)[..boundary], true)
  {
    CutIsLongest(text, boundary, limit);
    FittingIsLongest(text, limit);
    LongestIsUnique(text, Utf8(text)[..boundary], Utf8(Fitting(text, limit)), limit);
  }

  lemma CutIsLongest(text: seq<Scalar>, boundary: nat, limit: nat)
    requires boundary <= limit <= |Utf8(text)| && IsCharBoundary(Utf8(text), boundary)
    requires forall i :: boundary < i <= limit ==> !IsCharBoundary(Utf8(text), i)
    ensures LongestWithin(text, Utf8(text)[..boundary], limit)
  {
    BoundaryIffCut(text, boundary);
    var cut :| 0 <= cut <= |text| && |Utf8(text[..cut])| == boundary;
    CutIsPrefix(text, cut);
    forall k | 0 <= k <= |text| && |Utf8(text[..k])| <= limit ensures |Utf8(text[..k])| <= boundary {
      CutIsPrefix(text, k);
      BoundaryIffCut(text, |Utf8(text[..k])|);
    }
  }

  lemma {:induction false} CutIsPrefix(text: seq<Scalar>, k: nat)
    requires k <= |text|
    ensures |Utf8(text[..k])| <= |Utf8(text)| && Utf8(text)[..|Utf8(text[..k])|] == Utf8(text[..k])
    decreases k
  {
    if k > 0 {
      CutIsPrefix(text[1..], k - 1);
      assert text[..k][1..] == text[1..][..k - 1];
    }
  }
}
