/** The relay wire contract: frames, limits and the checks that look at one frame only
    (crates/c6-cloud-core/src/relay.rs).  Strings are sequences of Unicode scalar values;
    `ByteLength` recovers the UTF-8 length that the Rust `len()` reports. */
module RelayFrames {
  import opened Common
  import opened Utf8Text

  const U32_MAX: nat := 0xFFFF_FFFF
  const U64_MAX: nat := 0xFFFF_FFFF_FFFF_FFFF
  const USIZE_MAX: nat := 0xFFFF_FFFF_FFFF_FFFF

  const RELAY_PROTOCOL_VERSION: nat := 1
  const MAX_BODY_CHUNK_BYTES: nat := 64 * 1024
  const MAX_REQUEST_BODY_BYTES: nat := 16 * 1024 * 1024
  const MAX_RESPONSE_BODY_BYTES: nat := 64 * 1024 * 1024
  const MAX_CONCURRENT_REQUESTS: nat := 32
  const MAX_HEADER_COUNT: nat := 128
  const MAX_HEADER_BYTES: nat := 64 * 1024
  const MAX_TARGET_BYTES: nat := 8 * 1024
  const MAX_REQUEST_IDS_PER_SESSION: nat := 4096

  datatype ValidationError =
    | UnsupportedProtocol
    | InvalidTarget
    | InvalidDeadline
    | InvalidStatus
    | InvalidHeader
    | ForbiddenHeader
    | HeadersTooLarge
    | ChunkTooLarge
    | BodyTooLarge
    | MalformedBodyFrame
    | IllegalTransition
    | DuplicateRequest
    | UnknownRequest
    | ConcurrencyLimit
    | RequestIdBudgetExhausted
    | InvalidSequence

  datatype HeaderField = HeaderField(name: string, value: string)

  datatype TokenClass = Bootstrap | CloudSession | Csrf | ConnectorToken

  datatype FailureCode = BadGateway | Timeout | Cancelled | Protocol

  predicate IsHttpMethod(value: string) {
    value in {"GET", "HEAD", "POST", "PUT", "PATCH", "DELETE", "OPTIONS"}
  }

  type HttpMethod = s: string | IsHttpMethod(s) witness "GET"

  /** The strict JSON control frames, as typed values. */
  datatype ControlFrame =
    | ClientHello(protocolVersion: nat, token: TokenClass)
    | ServerReady(installation: Uuid, generation: u64, maxConcurrent: nat, maxChunk: u32)
    | RequestStart(id: Uuid, verb: HttpMethod, target: string, headers: seq<HeaderField>, deadline: u64)
    | RequestEnd(id: Uuid)
    | ResponseStart(id: Uuid, status: nat, headers: seq<HeaderField>)
    | ResponseEnd(id: Uuid)
    | Cancel(id: Uuid)
    | RequestFailed(id: Uuid, code: FailureCode, message: string)
    | Ping(nonce: u64)
    | Pong(nonce: u64)

  datatype BodyKind = RequestChunk | ResponseChunk

  datatype BodyFrame = BodyFrame(kind: BodyKind, id: Uuid, sequence: u32, payload: seq<byte>)

  datatype Frame = Control(control: ControlFrame) | Body(body: BodyFrame)

  /** An HTTP response, as the upstream client and the cloud's caller both see it. */
  datatype ProxyResponse = ProxyResponse(status: nat, headers: seq<HeaderField>, body: seq<byte>)

  // ---- Text checks ------------------------------------------------------------

  function CharBytes(c: char): (n: nat)
    ensures 1 <= n <= 4
  {
    if c as int < 0x80 then 1 else if c as int < 0x800 then 2 else if c as int < 0x1_0000 then 3 else 4
  }

  function ByteLength(s: string): nat {
    PrefixBytes(s, |s|)
  }

  function PrefixBytes(s: string, n: nat): nat
    requires n <= |s|
  {
    if n == 0 then 0 else PrefixBytes(s, n - 1) + CharBytes(s[n - 1])
  }

  function Scalars(s: string): seq<Scalar> {
    seq(|s|, i requires 0 <= i < |s| => s[i] as int)
  }

  /** It is the length of the text's UTF-8. */
  lemma {:induction false} PrefixBytesAreOctets(s: string, n: nat)
    requires n <= |s|
    ensures PrefixBytes(s, n) == |Utf8(Scalars(s[..n]))|
  {
    if n == 0 {
    } else {
      PrefixBytesAreOctets(s, n - 1);
      assert Scalars(s[..n]) == Scalars(s[..n - 1]) + [s[n - 1] as int];
      Utf8Snoc(Scalars(s[..n - 1]), s[n - 1] as int);
    }
  }

  lemma ByteLengthIsUtf8(s: string)
    ensures ByteLength(s) == |Utf8(Scalars(s))|
  {
    PrefixBytesAreOctets(s, |s|);
    assert s[..|s|] == s;
  }

  predicate IsAsciiControl(c: char) {
    c as int < 0x20 || c as int == 0x7f
  }

  /** Unicode general category Cc: the C0 and C1 control blocks. */
  predicate IsControl(c: char) {
    c as int < 0x20 || 0x7f <= c as int < 0xa0
  }

  predicate StartsWith(s: string, prefix: string) {
    prefix <= s
  }

  predicate Contains(s: string, part: string) {
    exists i :: 0 <= i <= |s| - |part| && OccursAt(s, part, i)
  }

  predicate OccursAt(s: string, part: string, i: nat)
    requires i + |part| <= |s|
  {
    s[i..i + |part|] == part
  }

  predicate IsHeaderNameChar(c: char) {
    'a' <= c <= 'z' || '0' <= c <= '9' || c in "!#$%&'*+-.^_`|~"
  }

  predicate IsForbiddenHeader(name: string) {
    name in {
      "connection", "keep-alive", "proxy-authenticate", "proxy-authorization", "te", "trailer",
      "transfer-encoding", "upgrade", "content-length", "host", "forwarded", "x-forwarded-for",
      "x-forwarded-host", "x-forwarded-proto", "x-real-ip", "x-c6-route", "x-c6-installation",
      "x-cresix-route", "x-cresix-installation"
    }
  }

  function HeaderError(h: HeaderField): Option<ValidationError> {
    if h.name == [] || exists c | c in h.name :: !IsHeaderNameChar(c) then Some(InvalidHeader)
    else if exists c | c in h.value :: IsAsciiControl(c) && c != '\t' then Some(InvalidHeader)
    else if IsForbiddenHeader(h.name) then Some(ForbiddenHeader)
    else None
  }

  function HeaderBytes(headers: seq<HeaderField>): nat {
    if headers == [] then 0
    else
      var last := headers[|headers| - 1];
      HeaderBytes(headers[..|headers| - 1]) + ByteLength(last.name) + ByteLength(last.value)
  }

  /** What `validate_headers` decides: the count limit first, then the fields in order, each
      checked on its own before its bytes are added to the running total. */
  function HeadersError(headers: seq<HeaderField>): Option<ValidationError> {
    if |headers| > MAX_HEADER_COUNT then Some(HeadersTooLarge) else FieldsError(headers)
  }

  function FieldsError(headers: seq<HeaderField>): Option<ValidationError> {
    if headers == [] then None
    else
      var front := FieldsError(headers[..|headers| - 1]);
      if front.Some? then front
      else if HeaderError(headers[|headers| - 1]).Some? then HeaderError(headers[|headers| - 1])
      else if HeaderBytes(headers) > MAX_HEADER_BYTES then Some(HeadersTooLarge)
      else None
  }

  function SaturatingAdd(a: nat, b: nat, max: nat): nat {
    if a + b > max then max else a + b
  }

  /** `validate_headers` with its accumulating loop. */
  method ValidateHeaders(headers: seq<HeaderField>) returns (error: Option<ValidationError>)
    ensures error == HeadersError(headers)
  {
    if |headers| > MAX_HEADER_COUNT {
      return Some(HeadersTooLarge);
    }
    var size: nat := 0;
    for i := 0 to |headers|
      invariant size == HeaderBytes(headers[..i]) <= MAX_HEADER_BYTES
      invariant FieldsError(headers[..i]) == None
    {
      assert headers[..i + 1][..i] == headers[..i];
      FieldsErrorPrefix(headers, i + 1);
      var problem := HeaderError(headers[i]);
      if problem.Some? {
        return problem;
      }
      size := SaturatingAdd(SaturatingAdd(size, ByteLength(headers[i].name), USIZE_MAX), ByteLength(headers[i].value),
        USIZE_MAX);
      if size > MAX_HEADER_BYTES {
        return Some(HeadersTooLarge);
      }
    }
    assert headers[..|headers|] == headers;
    error := None;
  }

  /** An error found in a prefix of the fields is the error of the whole list. */
  lemma {:induction false} FieldsErrorPrefix(headers: seq<HeaderField>, n: nat)
    requires n <= |headers|
    ensures FieldsError(headers[..n]).Some? ==> FieldsError(headers) == FieldsError(headers[..n])
    decreases |headers|
  {
    if n == |headers| {
      assert headers[..n] == headers;
    } else {
      var front := headers[..|headers| - 1];
      FieldsErrorPrefix(front, n);
      assert front[..n] == headers[..n];
    }
  }

  /** A header list passes exactly when it is short enough, small enough in total and every
      field passes alone; the order of the checks never matters for acceptance. */
  lemma {:induction false} HeadersAccepted(headers: seq<HeaderField>)
    ensures HeadersError(headers) == None <==>
            |headers| <= MAX_HEADER_COUNT
            && HeaderBytes(headers) <= MAX_HEADER_BYTES
            && forall i :: 0 <= i < |headers| ==> HeaderError(headers[i]) == None
  {
    FieldsAccepted(headers);
  }

  lemma {:induction false} FieldsAccepted(headers: seq<HeaderField>)
    ensures FieldsError(headers) == None <==>
            HeaderBytes(headers) <= MAX_HEADER_BYTES
            && forall i :: 0 <= i < |headers| ==> HeaderError(headers[i]) == None
  {
    if headers == [] {
    } else {
      var front := headers[..|headers| - 1];
      FieldsAccepted(front);
      assert forall i :: 0 <= i < |front| ==> front[i] == headers[i];
    }
  }

  function TargetError(target: string): Option<ValidationError> {
    if target == [] || ByteLength(target) > MAX_TARGET_BYTES || !StartsWith(target, "/")
       || StartsWith(target, "//") || '#' in target || Contains(target, "://") || '\\' in target
       || exists c | c in target :: IsAsciiControl(c)
    then Some(InvalidTarget)
    else None
  }

  function RequestStartError(start: ControlFrame): Option<ValidationError>
    requires start.RequestStart?
  {
    if TargetError(start.target).Some? then TargetError(start.target)
    else if start.deadline == 0 then Some(InvalidDeadline)
    else HeadersError(start.headers)
  }

  function ResponseStartError(start: ControlFrame): Option<ValidationError>
    requires start.ResponseStart?
  {
    if !(100 <= start.status <= 599) then Some(InvalidStatus) else HeadersError(start.headers)
  }

  // ---- What the checks let through ----------------------------------------------

  predicate PlainByte(c: char) {
    c as int >= 0x20 && c as int != 0x7f
  }

  /** A field a peer may send: a lower-case token for a name that neither routes nor frames the
      connection, and a value without control characters other than tabs. */
  ghost predicate CleanField(h: HeaderField) {
    && h.name != []
    && (forall i :: 0 <= i < |h.name| ==>
          'a' <= h.name[i] <= 'z' || '0' <= h.name[i] <= '9' || h.name[i] in "!#$%&'*+-.^_`|~")
    && (forall i :: 0 <= i < |h.value| ==> PlainByte(h.value[i]) || h.value[i] == '\t')
    && h.name !in {"connection", "keep-alive", "te", "trailer", "transfer-encoding", "upgrade", "content-length"}
    && h.name !in {"proxy-authenticate", "proxy-authorization", "host", "forwarded", "x-real-ip"}
    && h.name !in {"x-forwarded-for", "x-forwarded-host", "x-forwarded-proto"}
    && h.name !in {"x-c6-route", "x-c6-installation", "x-cresix-route", "x-cresix-installation"}
  }

  lemma NameIsToken(name: string)
    ensures (exists c | c in name :: !IsHeaderNameChar(c)) <==>
              exists i :: 0 <= i < |name|
                && !('a' <= name[i] <= 'z' || '0' <= name[i] <= '9' || name[i] in "!#$%&'*+-.^_`|~")
  {
    if i :| 0 <= i < |name| && !IsHeaderNameChar(name[i]) {
      assert name[i] in name;
    }
  }

  lemma ValueIsPlain(value: string)
    ensures (exists c | c in value :: IsAsciiControl(c) && c != '\t') <==>
              exists i :: 0 <= i < |value| && !PlainByte(value[i]) && value[i] != '\t'
  {
    if i :| 0 <= i < |value| && !PlainByte(value[i]) && value[i] != '\t' {
      assert value[i] in value;
    }
  }

  lemma FieldAcceptedIff(h: HeaderField)
    ensures HeaderError(h) == None <==> CleanField(h)
    ensures HeaderError(h) == Some(ForbiddenHeader) ==> IsForbiddenHeader(h.name)
  {
    NameIsToken(h.name);
    ValueIsPlain(h.value);
  }

  ghost predicate CleanHeaders(headers: seq<HeaderField>) {
    && |headers| <= 128 && HeaderBytes(headers) <= 65_536
    && forall i :: 0 <= i < |headers| ==> CleanField(headers[i])
  }

  /** A target that stays on the origin it is sent to. */
  ghost predicate LocalTarget(target: string) {
    && 1 <= |target| && ByteLength(target) <= 8_192
    && target[0] == '/' && (|target| > 1 ==> target[1] != '/')
    && (forall i :: 0 <= i < |target| ==> PlainByte(target[i]) && target[i] != '#' && target[i] != '\\')
    && forall i :: 0 <= i < |target| - 2 ==> !(target[i] == ':' && target[i + 1] == '/' && target[i + 2] == '/')
  }

  lemma Slashes(target: string)
    ensures StartsWith(target, "/") <==> |target| >= 1 && target[0] == '/'
    ensures StartsWith(target, "//") <==> |target| >= 2 && target[0] == '/' && target[1] == '/'
  {
  }

  lemma SchemeInside(target: string)
    ensures Contains(target, "://") <==>
              exists i :: 0 <= i < |target| - 2 && target[i] == ':' && target[i + 1] == '/' && target[i + 2] == '/'
  {
    if i :| 0 <= i < |target| - 2 && target[i] == ':' && target[i + 1] == '/' && target[i + 2] == '/' {
      assert target[i..i + 3] == "://";
      assert OccursAt(target, "://", i);
    }
    if i :| 0 <= i <= |target| - 3 && OccursAt(target, "://", i) {
      assert target[i..i + 3][0] == ':' && target[i..i + 3][1] == '/' && target[i..i + 3][2] == '/';
    }
  }

  lemma PlainTarget(target: string)
    ensures ('#' in target || '\\' in target || exists c | c in target :: IsAsciiControl(c)) <==>
              exists i :: 0 <= i < |target| && (!PlainByte(target[i]) || target[i] == '#' || target[i] == '\\')
  {
    if i :| 0 <= i < |target| && (!PlainByte(target[i]) || target[i] == '#' || target[i] == '\\') {
      assert target[i] in target;
    }
  }

  lemma TargetAcceptedIff(target: string)
    ensures TargetError(target) == None <==> LocalTarget(target)
  {
    Slashes(target);
    SchemeInside(target);
    PlainTarget(target);
  }

  /** The heads that both observers let through. */
  lemma LegalHeads(f: ControlFrame)
    ensures f.RequestStart? ==>
              (RequestStartError(f) == None <==> LocalTarget(f.target) && f.deadline > 0 && CleanHeaders(f.headers))
    ensures f.ResponseStart? ==>
              (ResponseStartError(f) == None <==> 100 <= f.status <= 599 && CleanHeaders(f.headers))
  {
    if f.RequestStart? || f.ResponseStart? {
      HeadersAccepted(f.headers);
      forall i | 0 <= i < |f.headers| ensures HeaderError(f.headers[i]) == None <==> CleanField(f.headers[i]) {
        FieldAcceptedIff(f.headers[i]);
      }
      if f.RequestStart? {
        TargetAcceptedIff(f.target);
      }
    }
  }

  predicate MessageAllowed(message: string) {
    ByteLength(message) <= 200 && forall c | c in message :: !IsControl(c)
  }
}
