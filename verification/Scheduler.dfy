/** The scheduler's tick and what sequences of ticks decide
    (crates/c6-scheduler/src/lib.rs:31-38, 82-94, 96-243).  Cron and time zones enter only through
    `nextAfter`, the least occurrence strictly after an instant. */
module Scheduler {
  import opened Common

  type Instant = int

  datatype MissedRunPolicy = Skip | RunOnce

  /** `occurs` is the set of instants the cron expression selects; code sees only `nextAfter`. */
  datatype Schedule = Schedule(id: string, policy: MissedRunPolicy, nextAfter: Instant -> Option<Instant>)

  datatype OccurrenceKey = OccurrenceKey(scheduleId: string, at: Instant)

  datatype TickMode = Live | Recovery

  /** What a tick reads besides the checkpoint, the clock, and whether its transaction commits. */
  datatype Tick = Tick(now: Instant, mode: TickMode, active: Option<OccurrenceKey>, claimed: seq<OccurrenceKey>,
    commits: bool)

  datatype Decision =
    | NoOccurrenceDue
    | Enqueue(key: OccurrenceKey)
    | MissedOccurrenceSkipped(key: OccurrenceKey)
    | AlreadyClaimed(key: OccurrenceKey)
    | BlockedByActiveRun(key: OccurrenceKey, active: OccurrenceKey)

  datatype Outcome = Evaluated(through: Instant, decision: Decision)
    | ClockMovedBackwards(checkpoint: Instant, now: Instant)

  /** `evaluate`. */
  function Evaluate(s: Schedule, checkpoint: Instant, tick: Tick): Outcome {
    if tick.now < checkpoint then ClockMovedBackwards(checkpoint, tick.now)
    else match s.nextAfter(checkpoint)
      case None => Evaluated(tick.now, NoOccurrenceDue)
      case Some(at) => Evaluated(tick.now, if at > tick.now then NoOccurrenceDue else Decided(s, at, tick))
  }

  function Decided(s: Schedule, at: Instant, tick: Tick): Decision {
    var due := OccurrenceKey(s.id, at);
    if tick.mode == Recovery && s.policy == Skip then MissedOccurrenceSkipped(due)
    else if due in tick.claimed then AlreadyClaimed(due)
    else if tick.active.Some? then BlockedByActiveRun(due, tick.active.value)
    else Enqueue(due)
  }

  /** The contract of `next_after`. */
  ghost predicate Follows(s: Schedule, occurs: Instant -> bool) {
    forall t: Instant ::
      match s.nextAfter(t)
      case None => forall u: Instant :: u > t ==> !occurs(u)
      case Some(n) => n > t && occurs(n) && forall u: Instant :: t < u < n ==> !occurs(u)
  }

  // ---- Runs ---------------------------------------------------------------------------------

  /** The durable checkpoint after the ticks: the last one that evaluated and committed. */
  function Checkpoint(s: Schedule, from: Instant, ticks: seq<Tick>): Instant {
    if ticks == [] then from
    else
      var before, last := Checkpoint(s, from, ticks[..|ticks| - 1]), ticks[|ticks| - 1];
      if Evaluate(s, before, last).Evaluated? && last.commits then last.now else before
  }

  /** The checkpoint tick `i` starts from, and what it decides. */
  function Start(s: Schedule, from: Instant, ticks: seq<Tick>, i: nat): Instant
    requires i < |ticks|
  {
    Checkpoint(s, from, ticks[..i])
  }

  function OutcomeAt(s: Schedule, from: Instant, ticks: seq<Tick>, i: nat): Outcome
    requires i < |ticks|
  {
    Evaluate(s, Start(s, from, ticks, i), ticks[i])
  }

  predicate Commits(s: Schedule, from: Instant, ticks: seq<Tick>, i: nat) {
    i < |ticks| && OutcomeAt(s, from, ticks, i).Evaluated? && ticks[i].commits
  }

  /** The committed tick `i` covers this instant. */
  predicate Covers(s: Schedule, from: Instant, ticks: seq<Tick>, i: nat, t: Instant) {
    Commits(s, from, ticks, i) && Start(s, from, ticks, i) < t <= ticks[i].now
  }

  predicate Enqueues(s: Schedule, from: Instant, ticks: seq<Tick>, i: nat, t: Instant) {
    Commits(s, from, ticks, i) && OutcomeAt(s, from, ticks, i).decision == Enqueue(OccurrenceKey(s.id, t))
  }

  /** Checkpoints never move back, whatever ticks fail, error or crash. */
  lemma {:induction false} CheckpointsAreMonotone(s: Schedule, from: Instant, ticks: seq<Tick>, m: nat)
    requires m <= |ticks|
    ensures from <= Checkpoint(s, from, ticks[..m]) <= Checkpoint(s, from, ticks)
    decreases |ticks|
  {
    if m == |ticks| {
      assert ticks[..m] == ticks;
      if m > 0 {
        CheckpointsAreMonotone(s, from, ticks[..m - 1], m - 1);
        assert ticks[..m - 1][..m - 1] == ticks[..m - 1];
      }
    } else {
      CheckpointsAreMonotone(s, from, ticks[..|ticks| - 1], m);
      assert ticks[..|ticks| - 1][..m] == ticks[..m];
    }
  }

  /** A committed tick leaves its own time as the checkpoint. */
  lemma CommitMoves(s: Schedule, from: Instant, ticks: seq<Tick>, i: nat)
    requires Commits(s, from, ticks, i)
    ensures Checkpoint(s, from, ticks[..i + 1]) == ticks[i].now
  {
    assert ticks[..i + 1][..i] == ticks[..i];
  }

  /** Intervals of later committed ticks lie strictly behind those of earlier ones. */
  lemma IntervalsAreOrdered(s: Schedule, from: Instant, ticks: seq<Tick>, i: nat, j: nat)
    requires i < j < |ticks| && Commits(s, from, ticks, i)
    ensures ticks[i].now <= Start(s, from, ticks, j)
  {
    CommitMoves(s, from, ticks, i);
    CheckpointsAreMonotone(s, from, ticks[..j], i + 1);
    assert ticks[..j][..i + 1] == ticks[..i + 1];
  }

  /** The evaluated intervals partition the timeline: an instant after the first checkpoint is
      covered by a committed tick exactly when it is not past the last checkpoint. */
  lemma IntervalsPartition(s: Schedule, from: Instant, ticks: seq<Tick>, t: Instant)
    ensures from < t <= Checkpoint(s, from, ticks) <==> exists i :: Covers(s, from, ticks, i, t)
    ensures forall i, j :: Covers(s, from, ticks, i, t) && Covers(s, from, ticks, j, t) ==> i == j
  {
    CoveredIff(s, from, ticks, t);
    forall i: nat, j: nat | Covers(s, from, ticks, i, t) && Covers(s, from, ticks, j, t) ensures i == j {
      CoveredOnce(s, from, ticks, i, j, t);
    }
  }

  lemma CoveredOnce(s: Schedule, from: Instant, ticks: seq<Tick>, i: nat, j: nat, t: Instant)
    requires Covers(s, from, ticks, i, t) && Covers(s, from, ticks, j, t)
    ensures i == j
  {
    if i < j {
      IntervalsAreOrdered(s, from, ticks, i, j);
    } else if j < i {
      IntervalsAreOrdered(s, from, ticks, j, i);
    }
  }

  lemma {:induction false} CoveredIff(s: Schedule, from: Instant, ticks: seq<Tick>, t: Instant)
    ensures from < t <= Checkpoint(s, from, ticks) <==> exists i :: Covers(s, from, ticks, i, t)
    decreases |ticks|
  {
    if ticks == [] {
    } else {
      var last := |ticks| - 1;
      CoveredIff(s, from, ticks[..last], t);
      CheckpointsAreMonotone(s, from, ticks[..last], last);
      assert ticks[..last][..last] == ticks[..last];
      FrontCovers(s, from, ticks, t);
      LastCovers(s, from, ticks, t);
    }
  }

  /** An instant is covered by the last tick or by what came before it. */
  lemma FrontCovers(s: Schedule, from: Instant, ticks: seq<Tick>, t: Instant)
    requires ticks != []
    ensures var front := ticks[..|ticks| - 1];
            (exists i :: Covers(s, from, ticks, i, t)) <==>
              (exists i :: Covers(s, from, front, i, t)) || Covers(s, from, ticks, |ticks| - 1, t)
  {
    var last := |ticks| - 1;
    if i: nat :| Covers(s, from, ticks, i, t) && i != last {
      PrefixCovers(s, from, ticks, i, t);
    }
    if i: nat :| Covers(s, from, ticks[..last], i, t) {
      PrefixCovers(s, from, ticks, i, t);
    }
  }

  lemma PrefixCovers(s: Schedule, from: Instant, ticks: seq<Tick>, i: nat, t: Instant)
    requires i < |ticks| - 1
    ensures Covers(s, from, ticks[..|ticks| - 1], i, t) <==> Covers(s, from, ticks, i, t)
  {
    assert ticks[..|ticks| - 1][..i] == ticks[..i];
  }

  lemma LastCovers(s: Schedule, from: Instant, ticks: seq<Tick>, t: Instant)
    requires ticks != []
    ensures Covers(s, from, ticks, |ticks| - 1, t)
            <==> Checkpoint(s, from, ticks[..|ticks| - 1]) < t <= Checkpoint(s, from, ticks)
  {
  }

  // ---- What is decided ------------------------------------------------------------------------

  /** Nothing is decided exactly when nothing occurs in the interval; otherwise it is the first
      occurrence there. */
  lemma DecidesFirst(s: Schedule, occurs: Instant -> bool, checkpoint: Instant, tick: Tick)
    requires Follows(s, occurs) && checkpoint <= tick.now
    ensures var outcome := Evaluate(s, checkpoint, tick);
            && outcome.Evaluated? && outcome.through == tick.now
            && (outcome.decision == NoOccurrenceDue <==> forall u: Instant :: checkpoint < u <= tick.now ==> !occurs(u))
            && (outcome.decision != NoOccurrenceDue ==>
                  var key := outcome.decision.key;
                  && key.scheduleId == s.id && checkpoint < key.at <= tick.now && occurs(key.at)
                  && (forall u: Instant :: checkpoint < u < key.at ==> !occurs(u))
                  && (outcome.decision.MissedOccurrenceSkipped? <==> tick.mode == Recovery && s.policy == Skip)
                  && (outcome.decision.AlreadyClaimed? <==>
                       !(tick.mode == Recovery && s.policy == Skip) && key in tick.claimed)
                  && (outcome.decision.BlockedByActiveRun? ==> tick.active == Some(outcome.decision.active))
                  && (outcome.decision.Enqueue? <==> Free(s, tick, key.at)))
  {
    var outcome := Evaluate(s, checkpoint, tick);
    if outcome.decision != NoOccurrenceDue {
      assert occurs(outcome.decision.key.at);
    }
  }

  /** A clock that reads before the checkpoint is reported with both readings, and only such a one. */
  lemma BackwardsClockIsReported(s: Schedule, checkpoint: Instant, tick: Tick)
    ensures tick.now < checkpoint ==> Evaluate(s, checkpoint, tick) == ClockMovedBackwards(checkpoint, tick.now)
    ensures tick.now >= checkpoint ==> Evaluate(s, checkpoint, tick).Evaluated?
  {
  }

  /** The tick is free to start the occurrence: it is not skipped, claimed or blocked. */
  predicate Free(s: Schedule, tick: Tick, t: Instant) {
    !(tick.mode == Recovery && s.policy == Skip) && OccurrenceKey(s.id, t) !in tick.claimed && tick.active.None?
  }

  lemma EnqueuedIsCovered(s: Schedule, occurs: Instant -> bool, from: Instant, ticks: seq<Tick>, i: nat, t: Instant)
    requires Follows(s, occurs) && Enqueues(s, from, ticks, i, t)
    ensures Covers(s, from, ticks, i, t) && occurs(t)
  {
    DecidesFirst(s, occurs, Start(s, from, ticks, i), ticks[i]);
  }

  /** Enqueued times strictly increase, so no occurrence is ever enqueued twice, whatever claims
      the ticks were shown. */
  lemma EnqueuedTimesIncrease(s: Schedule, occurs: Instant -> bool, from: Instant, ticks: seq<Tick>, i: nat, j: nat,
                              t: Instant, u: Instant)
    requires Follows(s, occurs) && i < j && Enqueues(s, from, ticks, i, t) && Enqueues(s, from, ticks, j, u)
    ensures t < u
  {
    EnqueuedIsCovered(s, occurs, from, ticks, i, t);
    EnqueuedIsCovered(s, occurs, from, ticks, j, u);
    IntervalsAreOrdered(s, from, ticks, i, j);
  }

  /** Exactly which occurrences are enqueued: the first in the interval of a committed tick that
      was free to start it. */
  lemma EnqueuedExactlyWhen(s: Schedule, occurs: Instant -> bool, from: Instant, ticks: seq<Tick>, i: nat, t: Instant)
    requires Follows(s, occurs) && Covers(s, from, ticks, i, t)
    ensures (exists j :: Enqueues(s, from, ticks, j, t)) <==>
              occurs(t) && Free(s, ticks[i], t)
              && forall u: Instant :: Start(s, from, ticks, i) < u < t ==> !occurs(u)
  {
    DecidesFirst(s, occurs, Start(s, from, ticks, i), ticks[i]);
    if j: nat :| Enqueues(s, from, ticks, j, t) {
      EnqueuedIsCovered(s, occurs, from, ticks, j, t);
      IntervalsPartition(s, from, ticks, t);
      assert i == j;
    }
    if occurs(t) && Free(s, ticks[i], t) && forall u: Instant :: Start(s, from, ticks, i) < u < t ==> !occurs(u) {
      var key := OutcomeAt(s, from, ticks, i).decision.key;
      assert key.at == t;
      assert Enqueues(s, from, ticks, i, t);
    }
  }

  /** The claims shown to a tick name only what earlier ticks enqueued, what lies at or before the
      first checkpoint, or other schedules. */
  ghost predicate Truthful(s: Schedule, from: Instant, ticks: seq<Tick>, i: nat)
    requires i < |ticks|
  {
    forall key :: key in ticks[i].claimed ==>
      key.scheduleId != s.id || key.at <= from || exists j: nat :: j < i && Enqueues(s, from, ticks, j, key.at)
  }

  /** Then no tick ever finds its occurrence claimed. */
  lemma TruthfulClaimsNeverBite(s: Schedule, occurs: Instant -> bool, from: Instant, ticks: seq<Tick>, i: nat,
                                t: Instant)
    requires Follows(s, occurs) && Covers(s, from, ticks, i, t) && Truthful(s, from, ticks, i)
    ensures OccurrenceKey(s.id, t) !in ticks[i].claimed
  {
    var key := OccurrenceKey(s.id, t);
    CheckpointsAreMonotone(s, from, ticks[..i], 0);
    assert ticks[..i][..i] == ticks[..i];
    CheckpointsAreMonotone(s, from, ticks[..i], i);
    if key in ticks[i].claimed {
      var j: nat :| j < i && Enqueues(s, from, ticks, j, t);
      EnqueuedIsCovered(s, occurs, from, ticks, j, t);
      IntervalsAreOrdered(s, from, ticks, j, i);
    }
  }

  /** A live schedule that keeps up: no recovery, nothing blocked, claims truthful, and at most
      one occurrence in each interval. */
  ghost predicate KeepsUp(s: Schedule, occurs: Instant -> bool, from: Instant, ticks: seq<Tick>) {
    forall i: nat :: Commits(s, from, ticks, i) ==>
      && ticks[i].mode == Live && ticks[i].active.None? && Truthful(s, from, ticks, i)
      && forall t, u :: Covers(s, from, ticks, i, t) && Covers(s, from, ticks, i, u) && occurs(t) && occurs(u) ==>
           t == u
  }

  /** Such a schedule enqueues exactly the occurrences in the range it has covered. */
  lemma NothingMissedOrInvented(s: Schedule, occurs: Instant -> bool, from: Instant, ticks: seq<Tick>, t: Instant)
    requires Follows(s, occurs) && KeepsUp(s, occurs, from, ticks)
    ensures (exists i :: Enqueues(s, from, ticks, i, t)) <==> from < t <= Checkpoint(s, from, ticks) && occurs(t)
  {
    IntervalsPartition(s, from, ticks, t);
    if j: nat :| Enqueues(s, from, ticks, j, t) {
      EnqueuedIsCovered(s, occurs, from, ticks, j, t);
    }
    if from < t <= Checkpoint(s, from, ticks) && occurs(t) {
      var i: nat :| Covers(s, from, ticks, i, t);
      TruthfulClaimsNeverBite(s, occurs, from, ticks, i, t);
      EnqueuedExactlyWhen(s, occurs, from, ticks, i, t);
      forall u: Instant | Start(s, from, ticks, i) < u < t ensures !occurs(u) {
        assert Covers(s, from, ticks, i, u);
      }
    }
  }

  // ---- Idle ticks and retries -------------------------------------------------------------------

  /** Every tick evaluates and finds nothing due. */
  ghost predicate Idle(s: Schedule, from: Instant, ticks: seq<Tick>) {
    forall i: nat :: i < |ticks| ==>
      OutcomeAt(s, from, ticks, i).Evaluated? && OutcomeAt(s, from, ticks, i).decision == NoOccurrenceDue
  }

  lemma {:induction false} IdleCoversNothing(s: Schedule, occurs: Instant -> bool, from: Instant, ticks: seq<Tick>,
                                             t: Instant)
    requires Follows(s, occurs) && Idle(s, from, ticks) && from < t <= Checkpoint(s, from, ticks)
    ensures !occurs(t)
  {
    IntervalsPartition(s, from, ticks, t);
    var i: nat :| Covers(s, from, ticks, i, t);
    DecidesFirst(s, occurs, Start(s, from, ticks, i), ticks[i]);
  }

  /** Idle ticks do not change what the next tick decides, however many there are and whichever of
      them commit, exactly as long as the clock has not fallen behind their checkpoint. */
  lemma IdleTicksAreInvisible(s: Schedule, occurs: Instant -> bool, from: Instant, idle: seq<Tick>, next: Tick)
    requires Follows(s, occurs) && Idle(s, from, idle) && from <= next.now
    ensures Evaluate(s, Checkpoint(s, from, idle), next) == Evaluate(s, from, next)
            <==> Checkpoint(s, from, idle) <= next.now
  {
    var through := Checkpoint(s, from, idle);
    CheckpointsAreMonotone(s, from, idle, 0);
    if through <= next.now {
      DecidesFirst(s, occurs, from, next);
      DecidesFirst(s, occurs, through, next);
      forall u: Instant | from < u <= through ensures !occurs(u) {
        IdleCoversNothing(s, occurs, from, idle, u);
      }
      SameNext(s, occurs, from, through);
    }
  }

  lemma SameNext(s: Schedule, occurs: Instant -> bool, from: Instant, through: Instant)
    requires Follows(s, occurs) && from <= through
    requires forall u: Instant :: from < u <= through ==> !occurs(u)
    ensures s.nextAfter(from) == s.nextAfter(through)
  {
    var a, b := s.nextAfter(from), s.nextAfter(through);
    if a.Some? {
      assert occurs(a.value) && a.value > through;
      if b.Some? {
        assert occurs(b.value);
      }
    } else if b.Some? {
      assert occurs(b.value);
    }
  }

  /** The tick's transaction is lost, or its clock reads before the checkpoint. */
  ghost predicate Lost(s: Schedule, from: Instant, ticks: seq<Tick>) {
    forall i: nat :: i < |ticks| ==> !Commits(s, from, ticks, i)
  }

  /** A due tick that was not committed decides the same occurrence in the same way when it is
      retried later with the same inputs, after any number of other lost ticks. */
  lemma RetryDecidesTheSame(s: Schedule, from: Instant, lost: seq<Tick>, tick: Tick, retry: Tick)
    requires Lost(s, from, lost) && from <= tick.now <= retry.now
    requires Evaluate(s, from, tick).decision != NoOccurrenceDue
    requires (retry.mode, retry.active, retry.claimed) == (tick.mode, tick.active, tick.claimed)
    ensures Evaluate(s, Checkpoint(s, from, lost), retry) == Evaluated(retry.now, Evaluate(s, from, tick).decision)
  {
    LostTicksLeaveCheckpoint(s, from, lost);
  }

  lemma {:induction false} LostTicksLeaveCheckpoint(s: Schedule, from: Instant, ticks: seq<Tick>)
    requires Lost(s, from, ticks)
    ensures Checkpoint(s, from, ticks) == from
    decreases |ticks|
  {
    if ticks == [] {
    } else {
      var last := |ticks| - 1;
      forall i: nat | i < last ensures !Commits(s, from, ticks[..last], i) {
        assert ticks[..last][..i] == ticks[..i];
        assert !Commits(s, from, ticks, i);
      }
      LostTicksLeaveCheckpoint(s, from, ticks[..last]);
      assert !Commits(s, from, ticks, last);
    }
  }
}
