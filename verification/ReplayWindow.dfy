/** The runner's replay window: which authenticated envelopes pass the nonce check, over every
    run of verifications in the order they take the nonce lock
    (crates/c6-runner/src/lib.rs:622-682, 857-860). */
module ReplayWindow {
  import opened Common

  type Millis = x: int | -0x8000_0000_0000_0000 <= x < 0x8000_0000_0000_0000

  const PROTOCOL_VERSION: nat := 1
  const MAX_CLOCK_SKEW_MS: nat := 60_000
  const MAX_REPLAY_ENTRIES: nat := 4_096
  const NONCE_BYTES: nat := 16

  datatype Envelope = Envelope(
    version: nat, requestId: Uuid, issuedAt: Millis, nonce: string, payload: string, mac: string)

  /** Base64, the MAC check and JSON, which this model leaves open. */
  datatype Codec<!Command> = Codec(
    decode: string -> Option<seq<byte>>,
    genuine: (Envelope, seq<byte>) -> bool,
    parse: seq<byte> -> Option<Command>)

  datatype Verdict<Command> =
    | Passed(command: Command)
    | UnsupportedVersion
    | StaleRequest
    | AuthenticationFailed
    | ReplayDetected
    | Malformed

  type Nonces = map<string, Millis>

  /** Within the allowed skew, on either side. */
  predicate Near(now: Millis, stamp: Millis) {
    now - stamp <= MAX_CLOCK_SKEW_MS && stamp - now <= MAX_CLOCK_SKEW_MS
  }

  // ---- One verification -----------------------------------------------------------------

  /** The checks made before the nonce lock is taken. */
  function Screen<C>(c: Codec<C>, e: Envelope, now: Millis): Verdict<()> {
    if e.version != PROTOCOL_VERSION then UnsupportedVersion
    else if !Near(now, e.issuedAt) then StaleRequest
    else match c.decode(e.nonce)
      case None => AuthenticationFailed
      case Some(nonce) =>
        if |nonce| != NONCE_BYTES then AuthenticationFailed
        else match c.decode(e.mac)
          case None => AuthenticationFailed
          case Some(mac) => if c.genuine(e, mac) then Passed(()) else AuthenticationFailed
  }

  /** The nonce is sixteen bytes and the MAC is genuine. */
  predicate Authentic<C>(c: Codec<C>, e: Envelope) {
    && c.decode(e.nonce).Some? && |c.decode(e.nonce).value| == 16
    && c.decode(e.mac).Some? && c.genuine(e, c.decode(e.mac).value)
  }

  /** The payload decodes to this command. */
  predicate Carries<C(==)>(c: Codec<C>, e: Envelope, command: C) {
    c.decode(e.payload).Some? && c.parse(c.decode(e.payload).value) == Some(command)
  }

  function Retained(seen: Nonces, now: Millis): Nonces {
    map n | n in seen && Near(now, seen[n]) :: seen[n]
  }

  /** The nonce is held and its stamp is near. */
  predicate Live(seen: Nonces, nonce: string, now: Millis) {
    nonce in seen && Near(now, seen[nonce])
  }

  /** Does the nonce check, made under the lock, let this envelope through? */
  predicate Admits(seen: Nonces, e: Envelope, now: Millis) {
    e.nonce !in Retained(seen, now) && |Retained(seen, now)| < MAX_REPLAY_ENTRIES
  }

  function Locked(seen: Nonces, e: Envelope, now: Millis): Nonces {
    if Admits(seen, e, now) then Retained(seen, now)[e.nonce := e.issuedAt] else Retained(seen, now)
  }

  function After<C>(c: Codec<C>, seen: Nonces, e: Envelope, now: Millis): Nonces {
    if Screen(c, e, now).Passed? then Locked(seen, e, now) else seen
  }

  /** The payload is looked at only once the nonce has been spent. */
  function Answer<C>(c: Codec<C>, seen: Nonces, e: Envelope, now: Millis): Verdict<C> {
    match Screen(c, e, now)
    case UnsupportedVersion => UnsupportedVersion
    case StaleRequest => StaleRequest
    case AuthenticationFailed => AuthenticationFailed
    case ReplayDetected => ReplayDetected
    case Malformed => Malformed
    case Passed(_) =>
      if !Admits(seen, e, now) then ReplayDetected
      else match c.decode(e.payload)
        case None => Malformed
        case Some(bytes) =>
          match c.parse(bytes)
          case None => Malformed
          case Some(command) => Passed(command)
  }

  lemma AfterIsBounded<C>(c: Codec<C>, seen: Nonces, e: Envelope, now: Millis)
    requires |seen| <= MAX_REPLAY_ENTRIES
    ensures |After(c, seen, e, now)| <= MAX_REPLAY_ENTRIES
  {
    var kept := Retained(seen, now);
    assert kept.Keys <= seen.Keys;
    SubsetSize(kept.Keys, seen.Keys);
    assert kept[e.nonce := e.issuedAt].Keys == kept.Keys + {e.nonce};
  }

  class Authenticator<!Command(==)> {
    const codec: Codec<Command>
    var seen: Nonces

    ghost predicate Valid()
      reads this
    {
      |seen| <= MAX_REPLAY_ENTRIES
    }

    constructor (codec: Codec<Command>)
      ensures Valid() && this.codec == codec && seen == map[]
    {
      this.codec := codec;
      seen := map[];
    }

    /** Which verdict: version, then stamp, then authenticity are settled before the nonce table is
        consulted, and the payload only after it.
        An envelope whose nonce check passed leaves its nonce behind with its own stamp, and the
        nonce was not live before; no other verdict adds an entry, and none drops a live one. */
    method Verify(e: Envelope, now: Millis) returns (verdict: Verdict<Command>)
      requires Valid()
      modifies this
      ensures Valid()
      ensures verdict.UnsupportedVersion? <==> e.version != 1
      ensures verdict.StaleRequest? <==> e.version == 1 && !(-60_000 <= now - e.issuedAt <= 60_000)
      ensures verdict.AuthenticationFailed? <==>
                e.version == 1 && -60_000 <= now - e.issuedAt <= 60_000 && !Authentic(codec, e)
      ensures verdict.Passed? || verdict.Malformed? || verdict.ReplayDetected? ==>
                e.version == 1 && -60_000 <= now - e.issuedAt <= 60_000 && Authentic(codec, e)
      ensures verdict.ReplayDetected? ==>
                Live(old(seen), e.nonce, now) || |Retained(old(seen), now)| >= 4_096
      ensures verdict.Passed? ==> Carries(codec, e, verdict.command)
      ensures verdict.Malformed? ==> forall command :: !Carries(codec, e, command)
      ensures verdict.Passed? || verdict.Malformed? ==>
                && !Live(old(seen), e.nonce, now) && Near(now, e.issuedAt)
                && e.nonce in seen && seen[e.nonce] == e.issuedAt
                && forall n :: n in seen && n != e.nonce ==> n in old(seen) && seen[n] == old(seen)[n]
      ensures !verdict.Passed? && !verdict.Malformed? ==>
                forall n :: n in seen ==> n in old(seen) && seen[n] == old(seen)[n]
      ensures forall n :: Live(old(seen), n, now) ==> n in seen && seen[n] == old(seen)[n]
      ensures seen == After(codec, old(seen), e, now)
      ensures verdict == Answer(codec, old(seen), e, now)
    {
      AfterIsBounded(codec, seen, e, now);
      if e.version != PROTOCOL_VERSION {
        return UnsupportedVersion;
      }
      if !Near(now, e.issuedAt) {
        return StaleRequest;
      }
      var nonce := codec.decode(e.nonce);
      if nonce.None? || |nonce.value| != NONCE_BYTES {
        return AuthenticationFailed;
      }
      var mac := codec.decode(e.mac);
      if mac.None? || !codec.genuine(e, mac.value) {
        return AuthenticationFailed;
      }
      seen := map n | n in seen && Near(now, seen[n]) :: seen[n];
      if e.nonce in seen {
        return ReplayDetected;
      }
      if |seen| >= MAX_REPLAY_ENTRIES {
        return ReplayDetected;
      }
      seen := seen[e.nonce := e.issuedAt];
      var payload := codec.decode(e.payload);
      if payload.None? {
        return Malformed;
      }
      var command := codec.parse(payload.value);
      verdict := if command.None? then Malformed else Passed(command.value);
    }
  }

  // ---- Runs -------------------------------------------------------------------------------

  /** One verification: the envelope, and the clock as read before the lock was awaited. */
  datatype Attempt = Attempt(envelope: Envelope, now: Millis)

  /** The table after the attempts, listed in the order they take the lock. */
  function Run<C>(c: Codec<C>, attempts: seq<Attempt>): Nonces {
    if attempts == [] then map[]
    else var last := attempts[|attempts| - 1];
         After(c, Run(c, attempts[..|attempts| - 1]), last.envelope, last.now)
  }

  /** Attempt `i` reaches the lock. */
  predicate Locks<C>(c: Codec<C>, attempts: seq<Attempt>, i: nat) {
    i < |attempts| && Screen(c, attempts[i].envelope, attempts[i].now).Passed?
  }

  /** Attempt `i` passes the nonce check. */
  predicate Passes<C>(c: Codec<C>, attempts: seq<Attempt>, i: nat) {
    Locks(c, attempts, i) && Admits(Run(c, attempts[..i]), attempts[i].envelope, attempts[i].now)
  }

  /** Only authentic envelopes of the right version, read within the skew of their stamp, ever reach
      the nonce check, in every run. */
  lemma PassesAreAuthentic<C>(c: Codec<C>, attempts: seq<Attempt>, i: nat)
    requires i < |attempts|
    ensures Locks(c, attempts, i) <==>
              var a := attempts[i];
              a.envelope.version == 1 && -60_000 <= a.now - a.envelope.issuedAt <= 60_000 && Authentic(c, a.envelope)
    ensures Passes(c, attempts, i) ==> Authentic(c, attempts[i].envelope)
  {
  }

  /** Every lock holder from `from` on read a clock within the skew of `stamp`. */
  ghost predicate NearThroughout<C>(c: Codec<C>, attempts: seq<Attempt>, from: nat, stamp: Millis) {
    forall k :: from <= k < |attempts| && Locks(c, attempts, k) ==> Near(attempts[k].now, stamp)
  }

  /** Attempt `i` passed with this nonce and stamp and is still remembered. */
  ghost predicate Remembered<C>(c: Codec<C>, attempts: seq<Attempt>, i: nat, nonce: string, stamp: Millis) {
    && Passes(c, attempts, i)
    && attempts[i].envelope.nonce == nonce && attempts[i].envelope.issuedAt == stamp
    && NearThroughout(c, attempts, i, stamp)
  }

  /** The clock is nondecreasing in lock order. */
  ghost predicate Monotone<C>(c: Codec<C>, attempts: seq<Attempt>) {
    forall i: nat, j: nat :: i < j && Locks(c, attempts, i) && Locks(c, attempts, j) ==>
      attempts[i].now <= attempts[j].now
  }

  /** Passing is settled by the attempts so far. */
  lemma PrefixAgrees<C>(c: Codec<C>, attempts: seq<Attempt>, n: nat, i: nat)
    requires i < n <= |attempts|
    ensures Locks(c, attempts[..n], i) <==> Locks(c, attempts, i)
    ensures Passes(c, attempts[..n], i) <==> Passes(c, attempts, i)
  {
    assert attempts[..n][..i] == attempts[..i];
  }

  lemma PrefixRemembers<C>(c: Codec<C>, attempts: seq<Attempt>, i: nat, nonce: string, stamp: Millis)
    requires 0 < |attempts| && i < |attempts| - 1
    ensures var m, last := |attempts| - 1, attempts[|attempts| - 1];
            Remembered(c, attempts, i, nonce, stamp)
            <==> Remembered(c, attempts[..m], i, nonce, stamp) && (Locks(c, attempts, m) ==> Near(last.now, stamp))
  {
    var m := |attempts| - 1;
    PrefixAgrees(c, attempts, m, i);
    forall k: nat | k < m ensures Locks(c, attempts[..m], k) <==> Locks(c, attempts, k) {
      PrefixAgrees(c, attempts, m, k);
    }
    if Remembered(c, attempts[..m], i, nonce, stamp) && (Locks(c, attempts, m) ==> Near(attempts[m].now, stamp)) {
      forall k | i <= k < |attempts| && Locks(c, attempts, k) ensures Near(attempts[k].now, stamp) {
        if k < m {
          assert Locks(c, attempts[..m], k);
        }
      }
    }
    if Remembered(c, attempts, i, nonce, stamp) {
      forall k | i <= k < m && Locks(c, attempts[..m], k) ensures Near(attempts[..m][k].now, stamp) {
        assert Locks(c, attempts, k);
      }
    }
  }

  /** What the table holds, exactly: the passed envelopes whose stamp every lock holder since has
      been near.  Nothing else makes the table forget a nonce, in particular not a full table.
      No assumption on the clock. */
  lemma {:induction false} TableIsRemembered<C>(c: Codec<C>, attempts: seq<Attempt>, nonce: string, stamp: Millis)
    ensures var seen := Run(c, attempts);
            nonce in seen && seen[nonce] == stamp <==> exists i :: Remembered(c, attempts, i, nonce, stamp)
    decreases |attempts|
  {
    if attempts == [] {
    } else {
      var m := |attempts| - 1;
      var front, last := attempts[..m], attempts[m];
      var was, seen := Run(c, front), Run(c, attempts);
      TableIsRemembered(c, front, nonce, stamp);
      if nonce in seen && seen[nonce] == stamp {
        if nonce in was && was[nonce] == stamp && (Locks(c, attempts, m) ==> Near(last.now, stamp)) {
          var i :| Remembered(c, front, i, nonce, stamp);
          PrefixRemembers(c, attempts, i, nonce, stamp);
        } else {
          JustPassed(c, attempts, nonce, stamp);
        }
      }
      if i: nat :| Remembered(c, attempts, i, nonce, stamp) {
        if i < m {
          PrefixRemembers(c, attempts, i, nonce, stamp);
          assert nonce in was && was[nonce] == stamp;
        } else {
          assert i == m;
        }
      }
    }
  }

  lemma JustPassed<C>(c: Codec<C>, attempts: seq<Attempt>, nonce: string, stamp: Millis)
    requires attempts != []
    requires var m := |attempts| - 1;
             var was, seen := Run(c, attempts[..m]), Run(c, attempts);
             && nonce in seen && seen[nonce] == stamp
             && !(nonce in was && was[nonce] == stamp && (Locks(c, attempts, m) ==> Near(attempts[m].now, stamp)))
    ensures Remembered(c, attempts, |attempts| - 1, nonce, stamp)
  {
  }

  /** The table never outgrows its limit. */
  lemma {:induction false} TableIsBounded<C>(c: Codec<C>, attempts: seq<Attempt>)
    ensures |Run(c, attempts)| <= MAX_REPLAY_ENTRIES
    decreases |attempts|
  {
    if attempts == [] {
    } else {
      var last := attempts[|attempts| - 1];
      var was := Run(c, attempts[..|attempts| - 1]);
      TableIsBounded(c, attempts[..|attempts| - 1]);
      AfterIsBounded(c, was, last.envelope, last.now);
    }
  }

  // ---- Replay -----------------------------------------------------------------------------

  /** `j` is the next attempt after `i` to reach the lock with a nonce that has not passed since. */
  ghost predicate Repeats<C>(c: Codec<C>, attempts: seq<Attempt>, i: nat, j: nat) {
    && i < j && Passes(c, attempts, i) && Locks(c, attempts, j)
    && attempts[i].envelope.nonce == attempts[j].envelope.nonce
    && forall k :: i < k < j && Passes(c, attempts, k) ==> attempts[k].envelope.nonce != attempts[i].envelope.nonce
  }

  /** Some lock holder in (i, j] read a clock beyond the skew of `i`'s stamp. */
  ghost predicate Forgotten<C>(c: Codec<C>, attempts: seq<Attempt>, i: nat, j: nat)
    requires i < j < |attempts|
  {
    exists k :: i < k <= j && Locks(c, attempts, k) && !Near(attempts[k].now, attempts[i].envelope.issuedAt)
  }

  /** Exactly when a spent nonce is accepted again, whatever the clock does. */
  lemma SpentNoncePassesIff<C>(c: Codec<C>, attempts: seq<Attempt>, i: nat, j: nat)
    requires Repeats(c, attempts, i, j)
    ensures Passes(c, attempts, j) <==>
              Forgotten(c, attempts, i, j)
              && |Retained(Run(c, attempts[..j]), attempts[j].now)| < MAX_REPLAY_ENTRIES
  {
    var before := attempts[..j];
    var seen := Run(c, before);
    var nonce, stamp := attempts[i].envelope.nonce, attempts[i].envelope.issuedAt;
    PrefixAgrees(c, attempts, j, i);
    forall k: nat | k < j
      ensures Locks(c, before, k) <==> Locks(c, attempts, k)
      ensures Passes(c, before, k) <==> Passes(c, attempts, k)
    {
      PrefixAgrees(c, attempts, j, k);
    }
    if nonce in Retained(seen, attempts[j].now) {
      TableIsRemembered(c, before, nonce, seen[nonce]);
      var k: nat :| Remembered(c, before, k, nonce, seen[nonce]);
      LatestPass(c, attempts, i, j, k);
      assert NearThroughout(c, before, i, stamp);
      forall h | i < h <= j && Locks(c, attempts, h) ensures Near(attempts[h].now, stamp) {
        if h < j {
          assert Locks(c, before, h);
        }
      }
      assert !Forgotten(c, attempts, i, j);
    } else if !Forgotten(c, attempts, i, j) {
      forall h | i <= h < j && Locks(c, before, h) ensures Near(before[h].now, stamp) {
        assert Locks(c, attempts, h);
      }
      assert Remembered(c, before, i, nonce, stamp);
      TableIsRemembered(c, before, nonce, stamp);
    }
  }

  /** Two passes of one nonce: in between the first was forgotten. */
  lemma PassForgets<C>(c: Codec<C>, attempts: seq<Attempt>, k: nat, i: nat)
    requires k < i && Passes(c, attempts, k) && Passes(c, attempts, i)
    requires attempts[k].envelope.nonce == attempts[i].envelope.nonce
    ensures Forgotten(c, attempts, k, i)
  {
    if !Forgotten(c, attempts, k, i) {
      var nonce, stamp := attempts[k].envelope.nonce, attempts[k].envelope.issuedAt;
      var front := attempts[..i];
      PrefixAgrees(c, attempts, i, k);
      assert Near(attempts[i].now, stamp);
      forall h | k <= h < i && Locks(c, front, h) ensures Near(front[h].now, stamp) {
        PrefixAgrees(c, attempts, i, h);
      }
      assert Remembered(c, front, k, nonce, stamp);
      TableIsRemembered(c, front, nonce, stamp);
    }
  }

  /** A remembered pass of the nonce is the latest one. */
  lemma LatestPass<C>(c: Codec<C>, attempts: seq<Attempt>, i: nat, j: nat, k: nat)
    requires Repeats(c, attempts, i, j) && k < j && Passes(c, attempts[..j], k)
    requires attempts[k].envelope.nonce == attempts[i].envelope.nonce
    requires NearThroughout(c, attempts[..j], k, attempts[k].envelope.issuedAt)
    ensures k == i
  {
    PrefixAgrees(c, attempts, j, k);
    if k < i {
      PassForgets(c, attempts, k, i);
      var h: nat :| k < h <= i && Locks(c, attempts, h) && !Near(attempts[h].now, attempts[k].envelope.issuedAt);
      PrefixAgrees(c, attempts, j, h);
    }
  }

  /** With the clock nondecreasing in lock order, that is exactly when the replayed attempt reads
      a clock past the first stamp's window. */
  lemma SpentNonceWaitsOutWindow<C>(c: Codec<C>, attempts: seq<Attempt>, i: nat, j: nat)
    requires Monotone(c, attempts) && Repeats(c, attempts, i, j)
    ensures Passes(c, attempts, j) <==>
              attempts[j].now > attempts[i].envelope.issuedAt + MAX_CLOCK_SKEW_MS
              && |Retained(Run(c, attempts[..j]), attempts[j].now)| < MAX_REPLAY_ENTRIES
  {
    SpentNoncePassesIff(c, attempts, i, j);
    assert Near(attempts[i].now, attempts[i].envelope.issuedAt);
    assert attempts[i].now <= attempts[j].now;
    if Forgotten(c, attempts, i, j) {
      var k :| i < k <= j && Locks(c, attempts, k) && !Near(attempts[k].now, attempts[i].envelope.issuedAt);
      assert attempts[i].now <= attempts[k].now;
      assert attempts[k].now <= attempts[j].now;
    }
  }

  /** Two passing envelopes that share a nonce were issued strictly one after the other, and the
      second arrived only after the first's window had closed. */
  lemma {:induction false} SharedNonceMovesOn<C>(c: Codec<C>, attempts: seq<Attempt>, i: nat, j: nat)
    requires Monotone(c, attempts) && i < j && Passes(c, attempts, i) && Passes(c, attempts, j)
    requires attempts[i].envelope.nonce == attempts[j].envelope.nonce
    ensures attempts[i].envelope.issuedAt < attempts[j].envelope.issuedAt
    ensures attempts[j].now > attempts[i].envelope.issuedAt + MAX_CLOCK_SKEW_MS
    decreases j - i
  {
    if Repeats(c, attempts, i, j) {
      SpentNonceWaitsOutWindow(c, attempts, i, j);
      assert Near(attempts[j].now, attempts[j].envelope.issuedAt);
    } else {
      var k :| i < k < j && Passes(c, attempts, k) && attempts[k].envelope.nonce == attempts[i].envelope.nonce;
      SharedNonceMovesOn(c, attempts, i, k);
      SharedNonceMovesOn(c, attempts, k, j);
    }
  }

  /** No envelope passes twice. */
  lemma NoEnvelopePassesTwice<C>(c: Codec<C>, attempts: seq<Attempt>, i: nat, j: nat)
    requires Monotone(c, attempts) && Passes(c, attempts, i) && Passes(c, attempts, j)
    requires attempts[i].envelope == attempts[j].envelope
    ensures i == j
  {
    if i < j {
      SharedNonceMovesOn(c, attempts, i, j);
    } else if j < i {
      SharedNonceMovesOn(c, attempts, j, i);
    }
  }

  /** The clock hypothesis is needed: a lock holder one millisecond ahead clears the nonce, then
      a verification that had read its clock before lets the same envelope through again. */
  lemma OutOfOrderClockReplays(nonce: string, other: string) returns (c: Codec<()>, attempts: seq<Attempt>)
    requires nonce != other
    ensures Passes(c, attempts, 0) && Passes(c, attempts, 2) && attempts[0] == attempts[2]
    ensures attempts[1].now == attempts[2].now + 1
  {
    c := Codec(_ => Some(seq(16, _ => 0)), (_, _) => true, _ => Some(()));
    var a := Attempt(Envelope(1, 0, 100_000, nonce, "", ""), 160_000);
    var b := Attempt(Envelope(1, 0, 160_001, other, "", ""), 160_001);
    attempts := [a, b, a];
    assert attempts[..0] == [] && attempts[..1] == [a] && attempts[..2] == [a, b];
    assert [a][..0] == [] && [a, b][..1] == [a];
    assert Retained(map[], 160_000) == map[];
    assert Run(c, [a]) == map[nonce := 100_000];
    assert Retained(map[nonce := 100_000], 160_001) == map[];
    assert Run(c, [a, b]) == map[other := 160_001];
    assert Retained(map[other := 160_001], 160_000) == map[other := 160_001];
  }
}
