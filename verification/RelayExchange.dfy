/** The cloud's steps in the composed protocol are `execute_exchange`, taken apart: an exchange that
    ends with a reply is `Execute` of that exchange on the frames the cloud has heard. */
module RelayExchange {
  import opened Common
  import opened RelayFrames
  import opened RelaySession
  import opened CloudExchange
  import opened RelayProtocol
  import opened RelayDeadlock

  // ---- The receive loop, message by message ---------------------------------------------------------

  datatype Point = Point(state: Receiving, wrote: seq<Frame>)

  /** The receive loop after these frames, if it goes on. */
  function Fed(id: Uuid, w: Receiving, sent: seq<Frame>, heard: seq<Frame>): Option<Point> {
    if heard == [] then Some(Point(w, sent))
    else
      match Fed(id, w, sent, heard[..|heard| - 1])
      case None => None
      case Some(p) =>
        match OnMessage(id, p.state, Message(heard[|heard| - 1]))
        case More(v, reply) => Some(Point(v, p.wrote + reply))
        case Done(_, _) => None
        case Fault(_) => None
  }

  lemma {:induction false} ReceiveAfterFed(id: Uuid, w: Receiving, sent: seq<Frame>, heard: seq<Frame>,
                                           inbox: seq<Incoming>)
    requires |heard| <= |inbox| && inbox[..|heard|] == Messages(heard)
    requires Fed(id, w, sent, heard).Some?
    ensures var p := Fed(id, w, sent, heard).value;
            CloudExchange.Receive(id, w, sent, inbox, 0) == CloudExchange.Receive(id, p.state, p.wrote, inbox, |heard|)
    decreases |heard|
  {
    if heard == [] {
    } else {
      var n := |heard| - 1;
      assert inbox[n] == inbox[..|heard|][n];
      assert inbox[..n] == inbox[..|heard|][..n] == Messages(heard[..n]);
      ReceiveAfterFed(id, w, sent, heard[..n], inbox);
    }
  }

  // ---- What the cloud reads and writes ----------------------------------------------------------------

  datatype Log = Log(heard: seq<Frame>, wrote: seq<Frame>)

  function NextFrame(w: World): Frame
    requires CanSend(w)
  {
    RequestFrames(w.phase.id, w.phase.exchange, w.phase.deadline)[w.phase.next]
  }

  function Hearing(w: World): Receiving
    requires w.phase.Listening?
  {
    Receiving(w.cloud, w.phase.status, w.phase.headers, w.phase.body)
  }

  function Logged(w: World, e: Step, l: Log): Log {
    if e.SendNext? && CanSend(w) && Accepts(w.cloud, NextFrame(w)) then l.(wrote := l.wrote + [NextFrame(w)])
    else if e.Receive? && w.phase.Listening? && w.up != [] then
      var r := OnMessage(w.phase.id, Hearing(w), Message(w.up[0]));
      Log(l.heard + [w.up[0]], l.wrote + if r.More? then r.reply else [])
    else l
  }

  function LogFrom(w: World, es: seq<Step>, maxInFlight: nat, fits: TextCap): Log {
    if es == [] then Log([], [])
    else
      var front := es[..|es| - 1];
      Logged(PlayFrom(w, front, maxInFlight, fits), es[|es| - 1], LogFrom(w, front, maxInFlight, fits))
  }

  /** The log is what the cloud takes off one queue and puts on the other. */
  lemma LogIsTraffic(w: World, e: Step, l: Log, maxInFlight: nat, fits: TextCap)
    requires InExchange(w.phase) && (e.SendNext? || e.Receive?)
    ensures var u, one, more := Apply(w, e, maxInFlight, fits), Logged(w, e, Log([], [])), Logged(w, e, l);
            && more == Log(l.heard + one.heard, l.wrote + one.wrote)
            && u.down == w.down + one.wrote && w.up == one.heard + u.up
  {
  }

  // ---- The exchange so far ------------------------------------------------------------------------------

  /** How the exchange was begun. */
  datatype Origin = Origin(base: Session, id: Uuid, exchange: Exchange, deadline: u64)

  ghost predicate Tracks(o: Origin, w: World, l: Log) {
    && IsHttpMethod(o.exchange.verb)
    && var frames := RequestFrames(o.id, o.exchange, o.deadline);
       match w.phase
       case Sending(id, ex, d, n) =>
         && id == o.id && ex == o.exchange && d == o.deadline && n < |frames|
         && Reached(o.base, frames, n, w.cloud) && l == Log([], frames[..n])
       case Listening(id, ex, _, _, _) =>
         && id == o.id && ex == o.exchange && Accepted(o.base, frames)
         && Fed(o.id, Receiving(Run(o.base, frames), None, [], []), frames, l.heard) == Some(Point(Hearing(w), l.wrote))
       case Waiting => false
       case Over => false
  }

  /** What `Execute` makes of what was heard. */
  ghost predicate IsExecuted(o: Origin, now: int, w: World, l: Log) {
    && o.id in w.replies && w.replies[o.id].exchange == o.exchange
    && Execute(o.base, o.id, o.exchange, now, Messages(l.heard), 0)
       == Completed(w.cloud, w.replies[o.id].response, l.wrote, |l.heard|)
  }

  /** The cloud goes on only if its observer took the frame. */
  lemma SendAccepts(w: World)
    requires CanSend(w) && InExchange(OnSendNext(w).phase)
    ensures Accepts(w.cloud, NextFrame(w)) && OnSendNext(w).cloud == After(w.cloud, NextFrame(w))
    ensures var p, n := w.phase, |RequestFrames(w.phase.id, w.phase.exchange, w.phase.deadline)|;
            OnSendNext(w).phase == if p.next + 1 == n then Listening(p.id, p.exchange, None, [], [])
                                   else Sending(p.id, p.exchange, p.deadline, p.next + 1)
  {
  }

  lemma SendTracks(o: Origin, w: World, l: Log)
    requires Tracks(o, w, l) && w.phase.Sending? && InExchange(OnSendNext(w).phase)
    ensures Tracks(o, OnSendNext(w), Logged(w, SendNext, l))
  {
    var frames, n := RequestFrames(o.id, o.exchange, o.deadline), w.phase.next;
    SendAccepts(w);
    Advance(o.base, frames, n);
    if n + 1 == |frames| {
      assert frames[..n + 1] == frames;
    }
  }

  lemma FedMore(id: Uuid, w: Receiving, sent: seq<Frame>, heard: seq<Frame>, f: Frame)
    requires Fed(id, w, sent, heard).Some?
    ensures var p := Fed(id, w, sent, heard).value;
            var r := OnMessage(id, p.state, Message(f));
            r.More? ==> Fed(id, w, sent, heard + [f]) == Some(Point(r.state, p.wrote + r.reply))
  {
    assert (heard + [f])[..|heard|] == heard;
  }

  /** The cloud goes on listening only if the message is one that lets it. */
  lemma HearsMore(w: World)
    requires w.phase.Listening? && w.up != [] && InExchange(OnReceive(w).phase)
    ensures var p, r := w.phase, OnMessage(w.phase.id, Hearing(w), Message(w.up[0]));
            && r.More? && OnReceive(w).cloud == r.state.session
            && OnReceive(w).phase == Listening(p.id, p.exchange, r.state.status, r.state.headers, r.state.body)
  {
  }

  lemma HearTracks(o: Origin, w: World, l: Log)
    requires Tracks(o, w, l) && w.phase.Listening? && w.up != [] && InExchange(OnReceive(w).phase)
    ensures Tracks(o, OnReceive(w), Logged(w, Receive, l))
  {
    var frames := RequestFrames(o.id, o.exchange, o.deadline);
    HearsMore(w);
    FedMore(o.id, Receiving(Run(o.base, frames), None, [], []), frames, l.heard, w.up[0]);
  }

  lemma HearEnds(o: Origin, now: int, w: World, l: Log)
    requires Tracks(o, w, l) && w.phase.Listening? && w.up != [] && OnReceive(w).phase == Waiting
    requires o.deadline == Deadline(now)
    ensures IsExecuted(o, now, OnReceive(w), Logged(w, Receive, l))
  {
    var frames, f := RequestFrames(o.id, o.exchange, o.deadline), w.up[0];
    var start, inbox := Receiving(Run(o.base, frames), None, [], []), Messages(l.heard + [f]);
    MessagesSplit(l.heard, f);
    ReceiveAfterFed(o.id, start, frames, l.heard, inbox);
    EndsWith(o.id, Hearing(w), l.wrote, inbox, |l.heard|);
  }

  lemma MessagesSplit(heard: seq<Frame>, f: Frame)
    ensures var inbox := Messages(heard + [f]);
            |inbox| == |heard| + 1 && inbox[..|heard|] == Messages(heard) && inbox[|heard|] == Message(f)
  {
  }

  lemma EndsWith(id: Uuid, w: Receiving, wrote: seq<Frame>, inbox: seq<Incoming>, i: nat)
    requires i < |inbox| && OnMessage(id, w, inbox[i]).Done?
    ensures var r := OnMessage(id, w, inbox[i]);
            CloudExchange.Receive(id, w, wrote, inbox, i) == Completed(r.session, r.response, wrote, i + 1)
  {
  }

  /** No other step touches the exchange. */
  lemma OthersLeaveExchange(w: World, e: Step, maxInFlight: nat, fits: TextCap)
    requires InExchange(w.phase)
    requires !(e.SendNext? && w.phase.Sending?) && !(e.Receive? && w.phase.Listening? && w.up != [])
    ensures var u := Apply(w, e, maxInFlight, fits);
            u.phase == Over || (u.phase == w.phase && u.cloud == w.cloud)
    ensures w.phase.Sending? || !e.SendNext? ==> forall l :: Logged(w, e, l) == l
  {
  }

  lemma StepTracks(o: Origin, now: int, w: World, e: Step, l: Log, maxInFlight: nat, fits: TextCap)
    requires Tracks(o, w, l) && o.deadline == Deadline(now)
    ensures var u := Apply(w, e, maxInFlight, fits);
            && (InExchange(u.phase) ==> Tracks(o, u, Logged(w, e, l)))
            && (u.phase == Waiting ==> IsExecuted(o, now, u, Logged(w, e, l)))
  {
    var u := Apply(w, e, maxInFlight, fits);
    if e.SendNext? && w.phase.Sending? {
      if InExchange(u.phase) {
        SendTracks(o, w, l);
      }
    } else if e.Receive? && w.phase.Listening? && w.up != [] {
      if InExchange(u.phase) {
        HearTracks(o, w, l);
      } else if u.phase == Waiting {
        HearEnds(o, now, w, l);
      }
    } else {
      OthersLeaveExchange(w, e, maxInFlight, fits);
    }
  }

  /** The exchange is under way all along. */
  ghost predicate UnderWay(begun: World, es: seq<Step>, maxInFlight: nat, fits: TextCap) {
    forall n :: 0 <= n < |es| ==> InExchange(PlayFrom(begun, es[..n], maxInFlight, fits).phase)
  }

  lemma UnderWayFront(begun: World, es: seq<Step>, maxInFlight: nat, fits: TextCap)
    requires UnderWay(begun, es, maxInFlight, fits) && es != []
    ensures UnderWay(begun, es[..|es| - 1], maxInFlight, fits)
    ensures InExchange(PlayFrom(begun, es[..|es| - 1], maxInFlight, fits).phase)
  {
    var front := es[..|es| - 1];
    forall n | 0 <= n < |front| ensures InExchange(PlayFrom(begun, front[..n], maxInFlight, fits).phase) {
      assert front[..n] == es[..n];
    }
  }

  lemma {:induction false} RunTracks(o: Origin, begun: World, es: seq<Step>, now: int, maxInFlight: nat, fits: TextCap)
    requires Tracks(o, begun, Log([], [])) && o.deadline == Deadline(now) && UnderWay(begun, es, maxInFlight, fits)
    ensures var u, l := PlayFrom(begun, es, maxInFlight, fits), LogFrom(begun, es, maxInFlight, fits);
            && (InExchange(u.phase) ==> Tracks(o, u, l))
            && (es != [] && u.phase == Waiting ==> IsExecuted(o, now, u, l))
    decreases |es|
  {
    if es == [] {
    } else {
      var front := es[..|es| - 1];
      UnderWayFront(begun, es, maxInFlight, fits);
      RunTracks(o, begun, front, now, maxInFlight, fits);
      StepTracks(o, now, PlayFrom(begun, front, maxInFlight, fits), es[|es| - 1],
                 LogFrom(begun, front, maxInFlight, fits), maxInFlight, fits);
    }
  }

  /** In every interleaving, from every state in which the cloud waits: an exchange that was begun
      and comes back to waiting is `Execute` of that exchange on the frames heard meanwhile, with
      the same reply, the same frames written and the same session. */
  lemma ExchangeIsExecute(w: World, id: Uuid, ex: Exchange, now: int, es: seq<Step>, maxInFlight: nat, fits: TextCap)
    requires w.phase == Waiting && InExchange(OnBegin(w, id, ex, now).phase)
    requires UnderWay(OnBegin(w, id, ex, now), es, maxInFlight, fits)
    requires PlayFrom(OnBegin(w, id, ex, now), es, maxInFlight, fits).phase == Waiting
    ensures var begun := OnBegin(w, id, ex, now);
            var u, l := PlayFrom(begun, es, maxInFlight, fits), LogFrom(begun, es, maxInFlight, fits);
            && id in u.replies && u.replies[id].exchange == ex
            && Execute(w.cloud, id, ex, now, Messages(l.heard), 0)
               == Completed(u.cloud, u.replies[id].response, l.wrote, |l.heard|)
  {
    var o := Origin(w.cloud, id, ex, Deadline(now));
    assert RequestFrames(id, ex, Deadline(now))[..0] == [];
    RunTracks(o, OnBegin(w, id, ex, now), es, now, maxInFlight, fits);
  }
}
