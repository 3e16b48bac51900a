/** What the connector's limit on control text does to an exchange
    (crates/c6-connector/src/protocol.rs:12-17): the shared observer knows no such limit, so a
    request it accepts may be one that no schedule can ever answer. */
module RelayTextCap {
  import opened Common
  import opened RelayFrames
  import opened RelaySession
  import opened RelayChunks
  import opened CloudExchange
  import opened RelayProtocol
  import opened RelayProgress

  /** The connector has taken at most the first `k` frames of the request. */
  ghost predicate Before(w: World, c: Context, k: nat)
    requires ExchangeFits(c)
  {
    exists sent: nat, taken: nat :: taken <= k && UploadHolds(w, c, sent, taken)
  }

  /** A frame the connector cannot read still lies ahead of it. */
  ghost predicate Blocked(w: World, c: Context, k: nat, fits: TextCap) {
    && ExchangeFits(c) && k < |Frames(c)| && !FrameFits(Frames(c)[k], fits) && c.id !in w.replies
    && Before(w, c, k)
  }

  lemma SendStaysBefore(w: World, c: Context, k: nat)
    requires ExchangeFits(c) && Before(w, c, k)
    ensures Before(OnSendNext(w), c, k) && OnSendNext(w).replies == w.replies
  {
    var sent: nat, taken: nat :| taken <= k && UploadHolds(w, c, sent, taken);
    if CanSend(w) {
      var more := SendKeepsUpload(w, c, sent, taken);
    } else {
      assert OnSendNext(w) == w;
    }
  }

  lemma DeliverStaysBefore(w: World, c: Context, k: nat, at: nat, maxInFlight: nat, fits: TextCap)
    requires ExchangeFits(c) && Before(w, c, k) && maxInFlight > 0
    requires k < |Frames(c)| && !FrameFits(Frames(c)[k], fits)
    ensures Before(OnDeliver(w, at, maxInFlight, fits), c, k)
    ensures OnDeliver(w, at, maxInFlight, fits).replies == w.replies
  {
    var sent: nat, taken: nat :| taken <= k && UploadHolds(w, c, sent, taken);
    if w.alive && w.down != [] {
      HeadIsNext(w, c, sent, taken);
      if HeadFits(w, fits) {
        TakeKeeps(w, c, sent, taken, at, maxInFlight, fits);
      } else {
        assert UploadHolds(w.(alive := false, down := w.down[1..]), c, sent, taken);
      }
    } else {
      assert OnDeliver(w, at, maxInFlight, fits) == w;
    }
  }

  lemma HeadIsNext(w: World, c: Context, sent: nat, taken: nat)
    requires ExchangeFits(c) && UploadHolds(w, c, sent, taken) && w.alive && w.down != []
    ensures taken < sent && w.down[0] == Frames(c)[taken]
  {
  }

  /** No other step moves the request. */
  lemma OthersStayBefore(w: World, e: Step, c: Context, k: nat, maxInFlight: nat, fits: TextCap)
    requires ExchangeFits(c) && Before(w, c, k) && !e.SendNext? && !e.Deliver?
    ensures Before(Apply(w, e, maxInFlight, fits), c, k)
    ensures Apply(w, e, maxInFlight, fits).replies == w.replies
  {
    var sent: nat, taken: nat :| taken <= k && UploadHolds(w, c, sent, taken);
    if e.Abort? || e.Die? || e.CutOff? {
      EndsStayUploading(w, e, c, sent, taken, maxInFlight, fits);
    } else {
      NothingElseMoves(w, e, c, sent, taken, maxInFlight, fits);
    }
  }

  lemma EndsStayUploading(w: World, e: Step, c: Context, sent: nat, taken: nat, maxInFlight: nat, fits: TextCap)
    requires ExchangeFits(c) && UploadHolds(w, c, sent, taken) && (e.Abort? || e.Die? || e.CutOff?)
    ensures UploadHolds(Apply(w, e, maxInFlight, fits), c, sent, taken)
    ensures Apply(w, e, maxInFlight, fits).replies == w.replies
  {
  }

  lemma NothingElseMoves(w: World, e: Step, c: Context, sent: nat, taken: nat, maxInFlight: nat, fits: TextCap)
    requires ExchangeFits(c) && UploadHolds(w, c, sent, taken)
    requires e.Begin? || e.Receive? || e.TaskEnds? || e.Hand?
    ensures Apply(w, e, maxInFlight, fits) == w
  {
  }

  lemma BlockedStep(w: World, e: Step, c: Context, k: nat, maxInFlight: nat, fits: TextCap)
    requires Blocked(w, c, k, fits) && maxInFlight > 0
    ensures Blocked(Apply(w, e, maxInFlight, fits), c, k, fits)
  {
    if e.SendNext? {
      SendStaysBefore(w, c, k);
    } else if e.Deliver? {
      DeliverStaysBefore(w, c, k, e.at, maxInFlight, fits);
    } else {
      OthersStayBefore(w, e, c, k, maxInFlight, fits);
    }
  }

  lemma {:induction false} BlockedStays(v: World, es: seq<Step>, c: Context, k: nat, maxInFlight: nat, fits: TextCap)
    requires Blocked(v, c, k, fits) && maxInFlight > 0
    ensures Blocked(PlayFrom(v, es, maxInFlight, fits), c, k, fits)
  {
    if es == [] {
    } else {
      BlockedStays(v, es[..|es| - 1], c, k, maxInFlight, fits);
      BlockedStep(PlayFrom(v, es[..|es| - 1], maxInFlight, fits), es[|es| - 1], c, k, maxInFlight, fits);
    }
  }

  /** Some schedule of the exchange that has begun ends with a reply. */
  ghost predicate CanReply(begun: World, id: Uuid, maxInFlight: nat, fits: TextCap) {
    exists es :: id in PlayFrom(begun, es, maxInFlight, fits).replies
  }

  lemma BlockedNeverReplies(begun: World, c: Context, k: nat, maxInFlight: nat, fits: TextCap)
    requires Blocked(begun, c, k, fits) && maxInFlight > 0
    ensures !CanReply(begun, c.id, maxInFlight, fits)
  {
    forall es ensures c.id !in PlayFrom(begun, es, maxInFlight, fits).replies {
      BlockedStays(begun, es, c, k, maxInFlight, fits);
    }
  }

  /** Exactly when an exchange can complete.  Whatever has happened since the session began: where
      the cloud waits, the connector is alive and the shared observer takes the whole request, the
      exchange has a schedule that ends with a reply if and only if the texts of its start and its
      end are within the connector's limit. */
  lemma CanReplyIff(past: seq<Step>, id: Uuid, ex: Exchange, now: int, maxInFlight: nat, fits: TextCap)
    requires maxInFlight > 0
    requires var w := Play(past, maxInFlight, fits);
             && w.phase == Waiting && w.alive
             && IsHttpMethod(ex.verb) && |ex.body| <= MAX_REQUEST_BODY_BYTES
             && Accepted(w.cloud, RequestFrames(id, ex, Deadline(now)))
    ensures var w := Play(past, maxInFlight, fits);
            CanReply(OnBegin(w, id, ex, now), id, maxInFlight, fits) <==>
              fits(RequestStart(id, ex.verb, ex.target, ex.headers, Deadline(now))) && fits(RequestEnd(id))
  {
    var w := Play(past, maxInFlight, fits);
    var c := Context(w.cloud, id, ex, Deadline(now));
    var h := InvInRun(past, maxInFlight, fits);
    Begins(w, h, c, now);
    if RequestFits(c, fits) {
      var es := Completes(w, h, id, ex, now, ProxyResponse(200, [], []), maxInFlight, fits, 0);
      assert id in PlayFrom(OnBegin(w, id, ex, now), es, maxInFlight, fits).replies;
    } else {
      NewIsUnknown(w, h, c);
      FrameAtFits(c, 0, fits);
      var k := if fits(StartOf(c)) then |Frames(c)| - 1 else 0;
      BlockedNeverReplies(OnBegin(w, id, ex, now), c, k, maxInFlight, fits);
    }
  }

  /** An identifier the session accepts has no reply yet. */
  lemma NewIsUnknown(w: World, h: History, c: Context)
    requires Inv(w, h) && w.phase == Waiting && c.base == w.cloud && IsHttpMethod(c.exchange.verb)
    requires Accepted(c.base, Frames(c))
    ensures c.id !in w.replies
  {
    RequestWhole(c.base, c.id, c.exchange, c.deadline);
  }

  // ---- A head that is legal and too long --------------------------------------------------------

  /** The JSON text of a request start holds every header name and value, and 22 bytes of syntax
      for each header. */
  ghost predicate CapsHeaders(fits: TextCap) {
    forall f: ControlFrame :: f.RequestStart? && fits(f) ==> HeaderBytes(f.headers) + 22 * |f.headers| <= 65_536
  }

  function LongValue(): string {
    seq(65_530, _ => 'a')
  }

  lemma {:induction false} PlainBytes(s: string, n: nat)
    requires n <= |s| && forall k :: 0 <= k < |s| ==> s[k] == 'a'
    ensures PrefixBytes(s, n) == n
  {
    if n == 0 {
    } else {
      PlainBytes(s, n - 1);
    }
  }

  lemma LongHeader()
    ensures var h := HeaderField("x", LongValue());
            && HeaderError(h) == None && HeaderBytes([h]) == 65_531 && HeadersError([h]) == None
  {
    var h := HeaderField("x", LongValue());
    PlainBytes(h.value, |h.value|);
    assert ByteLength(h.name) == 1 by {
      assert PrefixBytes(h.name, 0) == 0;
    }
    assert forall c :: c in h.value ==> c == 'a';
    assert HeaderError(h) == None;
    assert [h][..0] == [];
    HeadersAccepted([h]);
  }

  lemma RootTarget()
    ensures TargetError("/") == None
  {
    assert PrefixBytes("/", 0) == 0;
    assert ByteLength("/") == 1;
  }

  /** A GET of `/` with one long header, within every limit of the protocol. */
  function LongGet(): Exchange {
    Exchange("GET", "/", [HeaderField("x", LongValue())], [])
  }

  /** A fresh session's observer takes it, and with any connector that limits control text no
      schedule ever answers it. */
  lemma LegalHeadMayNeverBeAnswered(id: Uuid, now: int, maxInFlight: nat, fits: TextCap)
    requires maxInFlight > 0 && CapsHeaders(fits)
    ensures Accepted(FRESH_SESSION, RequestFrames(id, LongGet(), Deadline(now)))
    ensures !CanReply(OnBegin(Init(), id, LongGet(), now), id, maxInFlight, fits)
  {
    var ex := LongGet();
    LongHeader();
    RootTarget();
    RequestAcceptedIff(FRESH_SESSION, id, ex, Deadline(now));
    assert Play([], maxInFlight, fits) == Init();
    CanReplyIff([], id, ex, now, maxInFlight, fits);
  }
}
