/** Whether a request still reaches the upstream depends on nothing but the connector's clock
    against thirty seconds after the cloud began the exchange
    (crates/c6-cloud/src/lib.rs:1389-1397, crates/c6-connector/src/runtime.rs:148-156). */
module RelayDeadline {
  import opened Common
  import opened RelayFrames
  import opened RelaySession
  import opened RelayChunks
  import opened Connector
  import opened CloudExchange
  import opened RelayProtocol
  import opened RelayProgress
  import opened RelayExchange

  /** While an exchange is under way the proof remembers it as it was begun. */
  lemma {:induction false} ContextStays(begun: World, h: History, es: seq<Step>, maxInFlight: nat, fits: TextCap)
    returns (g: History)
    requires Inv(begun, h) && maxInFlight > 0 && UnderWay(begun, es, maxInFlight, fits)
    requires InExchange(PlayFrom(begun, es, maxInFlight, fits).phase)
    ensures Inv(PlayFrom(begun, es, maxInFlight, fits), g) && g.context == h.context
    decreases |es|
  {
    if es == [] {
      g := h;
    } else {
      var front := es[..|es| - 1];
      UnderWayFront(begun, es, maxInFlight, fits);
      g := ContextStays(begun, h, front, maxInFlight, fits);
      g := ApplyKeeps(PlayFrom(begun, front, maxInFlight, fits), g, es[|es| - 1], maxInFlight, fits);
    }
  }

  /** Only the last frame of a request is its end. */
  lemma EndIsLast(c: Context, k: nat)
    requires IsHttpMethod(c.exchange.verb) && k < |Frames(c)| && Frames(c)[k] == Control(RequestEnd(c.id))
    ensures k == |Frames(c)| - 1
  {
    FrameAtFits(c, k, _ => true);
    if 0 < k < |Frames(c)| - 1 {
      RequestFrameAt(c.id, c.exchange, c.deadline, k - 1);
    }
  }

  lemma OnlyEndAhead(w: World, h: History)
    requires Inv(w, h) && w.alive && w.down == [Control(RequestEnd(h.context.id))]
    ensures ExchangeFits(h.context) && UploadHolds(w, h.context, |Frames(h.context)|, |Frames(h.context)| - 1)
  {
    DownIsUploading(w, h);
    var frames := Frames(h.context);
    assert w.down[0] == frames[h.stage.taken];
    EndIsLast(h.context, h.stage.taken);
  }

  lemma BeginContext(v: World, h: History, id: Uuid, ex: Exchange, now: int) returns (g: History)
    requires Inv(v, h) && v.phase == Waiting && InExchange(OnBegin(v, id, ex, now).phase)
    ensures Inv(OnBegin(v, id, ex, now), g) && g.context.id == id && g.context.deadline == Deadline(now)
  {
    g := History(Context(h.context.base, id, ex, Deadline(now)), Uploading(0, 0));
    assert Frames(g.context)[..0] == [] && Frames(g.context)[0..0] == [];
  }

  /** In every interleaving: when the end of the request is all that is left for the connector to
      read, reading it at clock `at` hands the request to the upstream if and only if less than
      thirty seconds have passed since the exchange was begun.  Otherwise the connector answers that
      the deadline expired. */
  lemma UpstreamIsAskedIff(past: seq<Step>, id: Uuid, ex: Exchange, now: int, es: seq<Step>, at: nat,
                           maxInFlight: nat, fits: TextCap)
    requires maxInFlight > 0 && 0 <= now <= U64_MAX - 30_000 && fits(RequestEnd(id))
    requires var v := Play(past, maxInFlight, fits);
             v.phase == Waiting && InExchange(OnBegin(v, id, ex, now).phase)
    requires var begun := OnBegin(Play(past, maxInFlight, fits), id, ex, now);
             var w := PlayFrom(begun, es, maxInFlight, fits);
             && UnderWay(begun, es, maxInFlight, fits) && InExchange(w.phase)
             && w.alive && w.down == [Control(RequestEnd(id))]
    ensures var begun := OnBegin(Play(past, maxInFlight, fits), id, ex, now);
            var u := OnDeliver(PlayFrom(begun, es, maxInFlight, fits), at, maxInFlight, fits);
            && u.alive
            && (id in u.tasks <==> at < now + 30_000)
            && (at >= now + 30_000 ==>
                  u.up == [Control(RequestFailed(id, FailureCode.Timeout, "request deadline expired"))])
  {
    var v := Play(past, maxInFlight, fits);
    var begun := OnBegin(v, id, ex, now);
    var h := InvInRun(past, maxInFlight, fits);
    h := BeginContext(v, h, id, ex, now);
    h := ContextStays(begun, h, es, maxInFlight, fits);
    ThirtySeconds(now);
    AskedInTime(PlayFrom(begun, es, maxInFlight, fits), h, now, at, maxInFlight, fits);
  }

  lemma AskedInTime(w: World, h: History, now: int, at: nat, maxInFlight: nat, fits: TextCap)
    requires Inv(w, h) && w.alive && w.down == [Control(RequestEnd(h.context.id))] && fits(RequestEnd(h.context.id))
    requires h.context.deadline == now + 30_000
    ensures var u := OnDeliver(w, at, maxInFlight, fits);
            var id := h.context.id;
            && u.alive
            && (id in u.tasks <==> at < now + 30_000)
            && (at >= now + 30_000 ==>
                  u.up == [Control(RequestFailed(id, FailureCode.Timeout, "request deadline expired"))])
  {
    OnlyEndAhead(w, h);
    LastDelivered(w, h.context, at, maxInFlight, fits);
  }
}
