/** The connector loop as the object it is: tables and session updated in place, one method per
    event of the `select!` (crates/c6-connector/src/runtime.rs:124-320). */
module ConnectorSession {
  import opened Common
  import opened RelayFrames
  import opened RelaySession
  import opened RelayChunks
  import opened Connector
  import RelayCodec

  class ConnectorLoop {
    const maxInFlight: nat
    const state: RelaySessionState
    var pending: map<Uuid, PendingRequest>
    var active: set<Uuid>
    var cancelled: set<Uuid>
    var spawned: map<Uuid, ProxyRequest>
    /** Everything written to the socket so far. */
    var sent: seq<Frame>

    function View(): ConnectorState
      reads this, state
    {
      ConnectorState(state.View(), pending, active, cancelled, spawned)
    }

    ghost predicate Valid()
      reads this, state
    {
      TablesAgree(View(), maxInFlight)
    }

    /** The loop starts once the handshake has been observed. */
    constructor (state: RelaySessionState, maxInFlight: nat)
      requires state.View() == FRESH_SESSION
      ensures Valid() && this.state == state && this.maxInFlight == maxInFlight
      ensures View() == ConnectorState(FRESH_SESSION, map[], {}, {}, map[]) && sent == []
    {
      this.state := state;
      this.maxInFlight := maxInFlight;
      pending, active, cancelled, spawned := map[], {}, {}, map[];
      sent := [];
      new;
      InitialTables(maxInFlight);
    }

    /** `send_observed_control` and the body half of `send_response`: observe, then write. */
    method SendObserved(f: Frame) returns (error: Option<ValidationError>)
      requires state.Valid()
      modifies this`sent, state
      ensures state.Valid()
      ensures Observed(state.View(), error) == Observe(old(state.View()), f)
      ensures sent == old(sent) + if error.None? then [f] else []
    {
      match f {
        case Control(control) => error := state.ObserveControl(control);
        case Body(body) => error := state.ObserveBody(body);
      }
      if error.None? {
        sent := sent + [f];
      }
    }

    /** A single frame, as `Send` describes it. */
    method SendOne(f: Frame) returns (verdict: Verdict)
      requires state.Valid()
      modifies this`sent, state
      ensures state.Valid()
      ensures var r := Send(old(View()), [f]);
              View() == r.state && verdict == r.verdict && sent == old(sent) + r.sent
    {
      SingleFrame(state.View(), f);
      StopsAt(state.View(), [f], 0);
      assert [f][..1] == [f];
      var error := SendObserved(f);
      verdict := if error.Some? then Stop(Refused(error.value)) else Continue;
    }

    /** `send_failure`. */
    method SendFailure(id: Uuid, code: FailureCode, message: string) returns (verdict: Verdict)
      requires state.Valid()
      modifies this`sent, state
      ensures state.Valid()
      ensures var r := Send(old(View()), [Failed(id, code, message)]);
              View() == r.state && verdict == r.verdict && sent == old(sent) + r.sent
    {
      verdict := SendOne(Failed(id, code, message));
    }

    /** Send frame number `i` of a planned list, everything before it having been accepted. */
    method SendNext(f: Frame, ghost s: Session, ghost frames: seq<Frame>, ghost i: nat) returns (verdict: Verdict)
      requires state.Valid() && i < |frames| && frames[i] == f
      requires Reached(s, frames, i, state.View())
      modifies this`sent, state
      ensures state.Valid()
      ensures verdict == Continue ==> Reached(s, frames, i + 1, state.View()) && sent == old(sent) + [f]
      ensures verdict != Continue ==> sent == old(sent) && Halted(s, frames, i, state.View(), verdict)
    {
      StopsAt(s, frames, i);
      Advance(s, frames, i);
      var error := SendObserved(f);
      verdict := if error.Some? then Stop(Refused(error.value)) else Continue;
    }

    /** The loop over the chunks of a response body. */
    method SendChunks(id: Uuid, chunks: seq<seq<byte>>, ghost s: Session, ghost frames: seq<Frame>)
      returns (verdict: Verdict, ghost k: nat)
      requires state.Valid() && Planned(id, chunks, frames)
      requires Reached(s, frames, 1, state.View())
      modifies this`sent, state
      ensures state.Valid()
      ensures verdict == Continue ==>
                Reached(s, frames, |chunks| + 1, state.View()) && sent == old(sent) + frames[1..|chunks| + 1]
      ensures verdict != Continue ==>
                1 <= k <= |chunks| && Halted(s, frames, k, state.View(), verdict) && sent == old(sent) + frames[1..k]
    {
      verdict, k := Continue, 0;
      for i := 0 to |chunks|
        invariant state.Valid() && verdict == Continue
        invariant Reached(s, frames, i + 1, state.View()) && sent == old(sent) + frames[1..i + 1]
      {
        PlannedAt(id, chunks, frames, i);
        verdict := SendNext(ChunkFrame(ResponseChunk, id, i, chunks[i]), s, frames, i + 1);
        if verdict != Continue {
          k := i + 1;
          return;
        }
        OneMore(old(sent), frames, i + 1);
      }
    }

    /** `send_response`. */
    method SendResponse(id: Uuid, response: ProxyResponse) returns (verdict: Verdict)
      requires state.Valid()
      modifies this`sent, state
      ensures state.Valid()
      ensures Delivered(old(state.View()), ResponseFrames(id, response), state.View(), old(sent), sent, verdict)
    {
      ghost var s, frames := state.View(), ResponseFrames(id, response);
      var chunks := Chunks(response.body);
      ResponseFramesAt(id, response);
      assert frames[..0] == [];
      ghost var before := sent;
      verdict := SendNext(Control(ResponseStart(id, response.status, response.headers)), s, frames, 0);
      if verdict != Continue {
        assert Halted(s, frames, 0, state.View(), verdict) && sent == before + frames[..0];
        return;
      }
      ghost var k: nat;
      verdict, k := SendChunks(id, chunks, s, frames);
      Splice(before, frames, if verdict == Continue then |chunks| + 1 else k);
      if verdict == Continue {
        verdict := SendNext(Control(ResponseEnd(id)), s, frames, |chunks| + 1);
        assert frames == frames[..|chunks| + 1] + [frames[|chunks| + 1]];
      }
    }

    /** A text message: observe, then act. */
    method OnText(f: ControlFrame, now: nat) returns (verdict: Verdict)
      requires Valid()
      modifies this, state
      ensures var r := OnControl(old(View()), f, now, maxInFlight);
              View() == r.state && verdict == r.verdict && sent == old(sent) + r.sent
      ensures verdict == Continue ==> Valid()
      ensures Consistent(verdict)
    {
      ReactKeepsTables(View(), Arrived(Control(f), now), maxInFlight);
      var error := state.ObserveControl(f);
      if error.Some? {
        verdict := Stop(Refused(error.value));
      } else if f.RequestStart? {
        verdict := Start(f);
      } else if f.RequestEnd? {
        verdict := End(f.id, now);
      } else if f.Cancel? {
        verdict := Discard(f.id);
      } else if f.Ping? {
        verdict := SendPong(f.nonce);
      } else if f.Pong? {
        verdict := Continue;
      } else {
        verdict := Stop(Unexpected);
      }
    }

    /** The `RequestStart` arm, after the session observed the frame. */
    method Start(f: ControlFrame) returns (verdict: Verdict)
      requires f.RequestStart?
      modifies `pending
      ensures Reaction(View(), [], verdict) == OnRequestStart(old(View()), f, maxInFlight)
    {
      if f.id in pending {
        return Stop(Inconsistent(DuplicatePending));
      }
      var rejected := |pending| + |active| >= maxInFlight;
      pending := pending[f.id := PendingRequest(f.verb, f.target, f.headers, [], f.deadline, rejected)];
      verdict := Continue;
    }

    /** The `Cancel` arm, after the session observed the frame. */
    method Discard(id: Uuid) returns (verdict: Verdict)
      modifies `pending, `cancelled
      ensures Reaction(View(), [], verdict) == OnCancel(old(View()), id)
    {
      if id in pending {
        pending := pending - {id};
      } else if id in active {
        cancelled := cancelled + {id};
      }
      verdict := Continue;
    }

    method SendPong(nonce: u64) returns (verdict: Verdict)
      requires state.Valid()
      modifies this`sent, state
      ensures state.Valid()
      ensures var r := Send(old(View()), [Control(Pong(nonce))]);
              View() == r.state && verdict == r.verdict && sent == old(sent) + r.sent
    {
      verdict := SendOne(Control(Pong(nonce)));
    }

    /** The `RequestEnd` arm, after the session observed the frame. */
    method End(id: Uuid, now: nat) returns (verdict: Verdict)
      requires state.Valid()
      modifies this, state
      ensures state.Valid()
      ensures var r := OnRequestEnd(old(View()), id, now);
              View() == r.state && verdict == r.verdict && sent == old(sent) + r.sent
    {
      if id in cancelled {
        cancelled := cancelled - {id};
        return Ignored;
      }
      if id !in pending {
        return Stop(Inconsistent(EndWithoutPending));
      }
      var request := pending[id];
      pending := pending - {id};
      if request.rejected {
        verdict := SendFailure(id, BadGateway, Text(LimitReached));
        return;
      }
      if request.deadline <= now {
        verdict := SendFailure(id, Timeout, Text(DeadlineExpired));
        return;
      }
      active := active + {id};
      spawned := spawned[id := ProxyRequest(request.verb, request.target, request.headers, request.body)];
      verdict := Continue;
    }

    /** A binary message: decode, observe, append to the buffered body. */
    method OnBinary(bytes: seq<byte>) returns (verdict: Verdict)
      requires Valid()
      modifies this, state
      ensures match RelayCodec.Decode(bytes)
              case Malformed(error) => View() == old(View()) && sent == old(sent) && verdict == Stop(Refused(error))
              case Frame(f) =>
                var r := OnBody(old(View()), f);
                View() == r.state && verdict == r.verdict && sent == old(sent) + r.sent
      ensures verdict == Continue ==> Valid()
      ensures Consistent(verdict)
    {
      var decoded := RelayCodec.Decode(bytes);
      if decoded.Malformed? {
        return Stop(Refused(decoded.error));
      }
      var f := decoded.frame;
      ReactKeepsTables(View(), Arrived(Body(f), 0), maxInFlight);
      var error := state.ObserveBody(f);
      if error.Some? {
        return Stop(Refused(error.value));
      }
      if f.kind != RequestChunk {
        return Stop(Inconsistent(NotARequestChunk));
      }
      if f.id !in pending {
        return Stop(Inconsistent(ChunkWithoutPending));
      }
      var request := pending[f.id];
      pending := pending[f.id := request.(body := request.body + f.payload)];
      verdict := Continue;
    }

    /** An outcome taken off the outgoing channel. */
    method OnFinished(id: Uuid, outcome: Outcome) returns (verdict: Verdict)
      requires Valid() && Possible(View(), Event.Finished(id, outcome))
      modifies this, state
      ensures var r := OnOutcome(old(View()), id, outcome);
              View() == r.state && verdict == r.verdict && sent == old(sent) + r.sent
      ensures verdict == Continue ==> Valid()
      ensures Consistent(verdict)
    {
      ReactKeepsTables(View(), Event.Finished(id, outcome), maxInFlight);
      active := active - {id};
      spawned := spawned - {id};
      if id in cancelled {
        cancelled := cancelled - {id};
        return Continue;
      }
      verdict := SendOutcome(id, outcome);
    }

    method SendOutcome(id: Uuid, outcome: Outcome) returns (verdict: Verdict)
      requires state.Valid()
      modifies this`sent, state
      ensures state.Valid()
      ensures var r := Send(old(View()), OutcomeFrames(id, outcome));
              View() == r.state && verdict == r.verdict && sent == old(sent) + r.sent
    {
      if outcome.Answer? {
        ghost var before := View();
        verdict := SendResponse(id, outcome.response);
        DeliveredIsSend(before, ResponseFrames(id, outcome.response), state.View(), old(sent), sent, verdict);
      } else {
        verdict := SendFailure(id, FailureCodeOf(outcome.error), Text(LocalFailure));
      }
    }
  }

  /** Frame `i` was the first to be rejected. */
  ghost predicate Halted(s: Session, frames: seq<Frame>, i: nat, t: Session, verdict: Verdict) {
    && i < |frames| && AcceptedPrefix(s, frames) == i && t == Run(s, frames[..i + 1])
    && verdict == Stop(Refused(ErrorOf(Run(s, frames[..i]), frames[i])))
  }

  /** Either every frame was written, or exactly those before the first rejected one. */
  ghost predicate Delivered(s: Session, frames: seq<Frame>, t: Session, before: seq<Frame>, after: seq<Frame>,
                            verdict: Verdict) {
    || (verdict == Continue && Reached(s, frames, |frames|, t) && after == before + frames)
    || (exists i :: 0 <= i < |frames| && Halted(s, frames, i, t, verdict) && after == before + frames[..i])
  }

  /** `Delivered` is what `Send` computes. */
  lemma DeliveredIsSend(c: ConnectorState, frames: seq<Frame>, t: Session, before: seq<Frame>, after: seq<Frame>,
                        verdict: Verdict)
    requires Delivered(c.session, frames, t, before, after, verdict)
    ensures var r := Send(c, frames);
            r.state == c.(session := t) && verdict == r.verdict && after == before + r.sent
  {
    assert frames[..|frames|] == frames;
  }

  /** The chunks are frames 1.. of the planned list, and something follows them. */
  ghost predicate Planned(id: Uuid, chunks: seq<seq<byte>>, frames: seq<Frame>) {
    |frames| > |chunks| + 1 && frames[1..|chunks| + 1] == Numbered(ResponseChunk, id, chunks)
  }

  lemma PlannedAt(id: Uuid, chunks: seq<seq<byte>>, frames: seq<Frame>, i: nat)
    requires Planned(id, chunks, frames) && i < |chunks|
    ensures frames[i + 1] == ChunkFrame(ResponseChunk, id, i, chunks[i])
  {
    assert frames[1..|chunks| + 1][i] == frames[i + 1];
  }

  lemma Splice<T>(before: seq<T>, frames: seq<T>, k: nat)
    requires 1 <= k <= |frames|
    ensures before + [frames[0]] + frames[1..k] == before + frames[..k]
  {
  }

  lemma ResponseFramesAt(id: Uuid, r: ProxyResponse)
    ensures var frames, chunks := ResponseFrames(id, r), Chunks(r.body);
            && |frames| == |chunks| + 2
            && frames[0] == Control(ResponseStart(id, r.status, r.headers))
            && Planned(id, chunks, frames)
            && frames[|chunks| + 1] == Control(ResponseEnd(id))
  {
    var middle := ChunkFrames(ResponseChunk, id, r.body);
    assert ResponseFrames(id, r)[1..|middle| + 1] == middle;
  }
}
