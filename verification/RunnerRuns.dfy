/** The runner's execution table and result store under interleaved `execute` and `cancel` calls
    (crates/c6-runner/src/lib.rs:833-1037).  A call is a task; each of its critical sections is one
    step, and the steps of different tasks interleave freely. */
module RunnerRuns {
  import opened Common
  import opened Utf8Text
  import Frames = RunnerFrames

  type TaskId = nat
  type Text = seq<Scalar>

  /** An execution request; `plan` stands for the fields that are only compared. */
  datatype Execution = Execution(runId: Uuid, logBytes: nat, plan: seq<byte>)

  datatype BackendResult = Output(exitCode: int, stdout: Text, stderr: Text) | Failure(message: Text) | Elapsed

  datatype Outcome = Exited(exitCode: int, stdout: Text, stderr: Text) | BackendFailed(message: Text) | Cancelled
    | TimedOut

  datatype RunStatus = Succeeded | Failed | Interrupted | Cancelled | TimedOut

  datatype Record = Record(
    request: Execution, status: RunStatus, exitCode: Option<int>,
    stdout: Frames.CapturedLog, stderr: Frames.CapturedLog, startedAt: int, finishedAt: int)

  datatype Refusal =
    | InvalidExecution
    | BoundToAnother
    | AlreadyActive
    | ActiveWithAnother
    | PersistenceFailed
    | NotFound

  datatype Response =
    | Finished(record: Record)
    | Rejected(why: Refusal)
    | CancelAcknowledged(alreadyTerminal: bool)

  // ---- build_record -----------------------------------------------------------------------

  function StatusOf(outcome: Outcome): RunStatus {
    match outcome
    case Exited(code, _, _) => if code == 0 then Succeeded else Failed
    case BackendFailed(_) => Interrupted
    case Cancelled => RunStatus.Cancelled
    case TimedOut => RunStatus.TimedOut
  }

  function BuildRecord(request: Execution, startedAt: int, outcome: Outcome, finishedAt: int): Record {
    var limit := request.logBytes;
    var (code, stdout, stderr) :=
      match outcome
      case Exited(code, stdout, stderr) => (Some(code), Frames.Captured(stdout, limit), Frames.Captured(stderr, limit))
      case BackendFailed(message) => (None, Frames.Captured([], limit), Frames.Captured(message, limit))
      case Cancelled => (None, Frames.Captured([], limit), Frames.Captured([], limit))
      case TimedOut => (None, Frames.Captured([], limit), Frames.Captured([], limit));
    Record(request, StatusOf(outcome), code, stdout, stderr, startedAt, finishedAt)
  }

  /** What each stream is captured from. */
  function Streams(outcome: Outcome): (Text, Text) {
    match outcome
    case Exited(_, stdout, stderr) => (stdout, stderr)
    case BackendFailed(message) => ([], message)
    case Cancelled => ([], [])
    case TimedOut => ([], [])
  }

  /** A record keeps its request, holds an exit code exactly when the backend returned one, and
      keeps of each stream the longest prefix of whole characters within the request's bound,
      marked as truncated exactly when something is missing. */
  lemma RecordIsBounded(request: Execution, startedAt: int, outcome: Outcome, finishedAt: int)
    ensures var record := BuildRecord(request, startedAt, outcome, finishedAt);
            && record.request == request && record.startedAt == startedAt && record.finishedAt == finishedAt
            && record.exitCode == (if outcome.Exited? then Some(outcome.exitCode) else None)
            && (record.status == Succeeded <==> record.exitCode == Some(0))
            && (record.status == Failed <==> record.exitCode.Some? && record.exitCode != Some(0))
            && (record.status == RunStatus.Cancelled <==> outcome.Cancelled?)
            && (record.status == RunStatus.TimedOut <==> outcome.TimedOut?)
            && Captures(Streams(outcome).0, record.stdout, request.logBytes)
            && Captures(Streams(outcome).1, record.stderr, request.logBytes)
  {
    CapturedCaptures(Streams(outcome).0, request.logBytes);
    CapturedCaptures(Streams(outcome).1, request.logBytes);
  }

  ghost predicate Captures(text: Text, log: Frames.CapturedLog, limit: nat) {
    Frames.LongestWithin(text, log.content, limit) && (log.truncated <==> log.content != Utf8(text))
  }

  lemma CapturedCaptures(text: Text, limit: nat)
    ensures Captures(text, Frames.Captured(text, limit), limit)
  {
    Frames.FittingIsLongest(text, limit);
    if |Utf8(text)| <= limit {
      Frames.FittingAll(text, limit);
    }
  }

  // ---- The shared state ---------------------------------------------------------------------

  /** An active run: its request, and the task whose cancellation channel the entry holds. */
  datatype ActiveRun = ActiveRun(request: Execution, task: TaskId)

  datatype Shared = Shared(store: map<Uuid, Record>, active: map<Uuid, ActiveRun>, signalled: set<TaskId>)

  /** What a task does next. */
  datatype Phase =
    | Loading
    | Claiming
    | Running(startedAt: int)
    | Releasing(startedAt: int, outcome: Outcome)
    | Saving(startedAt: int, outcome: Outcome)
    | Done(response: Response)

  function AfterLoad(s: Shared, request: Execution, readable: bool): Phase {
    if !readable then Done(Rejected(PersistenceFailed))
    else if request.runId !in s.store then Claiming
    else if s.store[request.runId].request == request then Done(Finished(s.store[request.runId]))
    else Done(Rejected(BoundToAnother))
  }

  function AfterClaim(s: Shared, request: Execution, startedAt: int): Phase {
    if request.runId !in s.active then Running(startedAt)
    else Done(Rejected(if s.active[request.runId].request == request then AlreadyActive else ActiveWithAnother))
  }

  function Claimed(s: Shared, request: Execution, task: TaskId): Shared {
    if request.runId in s.active then s else s.(active := s.active[request.runId := ActiveRun(request, task)])
  }

  function Signalled(s: Shared, runId: Uuid): Shared {
    if runId in s.active then s.(signalled := s.signalled + {s.active[runId].task}) else s
  }

  function CancelAnswer(s: Shared, runId: Uuid, readable: bool): Response {
    if runId in s.active then CancelAcknowledged(false)
    else if !readable then Rejected(PersistenceFailed)
    else if runId in s.store then CancelAcknowledged(true)
    else Rejected(NotFound)
  }

  /** The biased select: a cancellation that has been signalled wins. */
  function Resolved(s: Shared, task: TaskId, result: BackendResult): Outcome {
    if task in s.signalled then Outcome.Cancelled
    else match result
      case Output(code, stdout, stderr) => Exited(code, stdout, stderr)
      case Failure(message) => BackendFailed(message)
      case Elapsed => Outcome.TimedOut
  }

  function Released(s: Shared, runId: Uuid): Shared {
    s.(active := s.active - {runId})
  }

  function Saved(s: Shared, record: Record, writable: bool): Shared {
    if writable then s.(store := s.store[record.request.runId := record]) else s
  }

  function AfterSave(record: Record, writable: bool): Response {
    if writable then Finished(record) else Rejected(PersistenceFailed)
  }

  /** What a call amounts to when nothing else runs meanwhile. */
  function Executed(s: Shared, request: Execution, valid: bool, readable: bool, task: TaskId, startedAt: int,
                    result: BackendResult, finishedAt: int, writable: bool): (Shared, Response)
  {
    if !valid then (s, Rejected(InvalidExecution))
    else if AfterLoad(s, request, readable).Done? then (s, AfterLoad(s, request, readable).response)
    else if AfterClaim(s, request, startedAt).Done? then (s, AfterClaim(s, request, startedAt).response)
    else
      var record := BuildRecord(request, startedAt, Resolved(s, task, result), finishedAt);
      (Saved(Released(Claimed(s, request, task), request.runId), record, writable), AfterSave(record, writable))
  }

  /** What one undisturbed call does, for its caller. */
  lemma ExecutedMeans(s: Shared, request: Execution, valid: bool, readable: bool, task: TaskId, startedAt: int,
                      result: BackendResult, finishedAt: int, writable: bool)
    ensures var (t, response) := Executed(s, request, valid, readable, task, startedAt, result, finishedAt, writable);
            && t.active == s.active && t.signalled == s.signalled
            && (t.store == s.store
                || (response.Finished? && request.runId !in s.store
                     && t.store == s.store[request.runId := response.record]))
            && (response.Finished? ==>
                  response.record.request == request && request.runId in t.store
                    && t.store[request.runId] == response.record)
  {
    if request.runId !in s.active {
      assert s.active[request.runId := ActiveRun(request, task)] - {request.runId} == s.active;
    }
  }

  /** The record tells what the backend returned, and when, unless the task was cancelled. */
  ghost predicate Reports(record: Record, request: Execution, startedAt: int, cancelled: bool, result: BackendResult,
                          finishedAt: int)
  {
    var limit := request.logBytes;
    && record.request == request && record.startedAt == startedAt && record.finishedAt == finishedAt
    && if cancelled then
         record.status == RunStatus.Cancelled && record.exitCode == None
         && Captures([], record.stdout, limit) && Captures([], record.stderr, limit)
       else
         match result
         case Output(code, stdout, stderr) =>
           record.status == (if code == 0 then Succeeded else Failed) && record.exitCode == Some(code)
           && Captures(stdout, record.stdout, limit) && Captures(stderr, record.stderr, limit)
         case Failure(message) =>
           record.status == Interrupted && record.exitCode == None
           && Captures([], record.stdout, limit) && Captures(message, record.stderr, limit)
         case Elapsed =>
           record.status == RunStatus.TimedOut && record.exitCode == None
           && Captures([], record.stdout, limit) && Captures([], record.stderr, limit)
  }

  /** A call whose run id is new and whose parts all work returns a record of what the backend did. */
  lemma NewRunIsReported(s: Shared, request: Execution, task: TaskId, startedAt: int, result: BackendResult,
                         finishedAt: int)
    requires request.runId !in s.store && request.runId !in s.active
    ensures var response := Executed(s, request, true, true, task, startedAt, result, finishedAt, true).1;
            response.Finished? && Reports(response.record, request, startedAt, task in s.signalled, result, finishedAt)
  {
    RecordIsBounded(request, startedAt, Resolved(s, task, result), finishedAt);
    CapturedCaptures([], request.logBytes);
  }

  /** Idempotence of undisturbed calls: once a request has been answered with a record, the same
      request is answered with that record again and changes nothing, whatever the backend and the
      clock would now say. */
  lemma RepeatedCallReturnsRecord(s: Shared, request: Execution, task: TaskId, startedAt: int, result: BackendResult,
                                  finishedAt: int, again: TaskId, later: int, other: BackendResult, laterStill: int,
                                    writable: bool)
    requires Executed(s, request, true, true, task, startedAt, result, finishedAt, true).1.Finished?
    ensures var first := Executed(s, request, true, true, task, startedAt, result, finishedAt, true);
            Executed(first.0, request, true, true, again, later, other, laterStill, writable) == first
  {
    ExecutedMeans(s, request, true, true, task, startedAt, result, finishedAt, true);
  }

  class RunnerService {
    var store: map<Uuid, Record>
    var active: map<Uuid, ActiveRun>
    var signalled: set<TaskId>

    function View(): Shared
      reads this
    {
      Shared(store, active, signalled)
    }

    constructor ()
      ensures View() == Shared(map[], map[], {})
    {
      store, active, signalled := map[], map[], {};
    }

    /** `inspect`; reading the store may fail. */
    method Inspect(runId: Uuid, readable: bool) returns (found: Option<Record>, ok: bool)
      ensures ok == readable
      ensures found == if readable && runId in store then Some(store[runId]) else None
    {
      ok := readable;
      found := if readable && runId in store then Some(store[runId]) else None;
    }

    /** Answered as not yet terminal exactly when the run is active, as already terminal exactly when
        it is not but has a readable record.  In the first case whatever the backend
        returns to that task from now on counts as cancelled.  Any other answer changes nothing. */
    method Cancel(runId: Uuid, readable: bool) returns (response: Response)
      modifies `signalled
      ensures View() == Signalled(old(View()), runId) && response == CancelAnswer(old(View()), runId, readable)
      ensures response == CancelAcknowledged(false) <==> runId in active
      ensures runId in active ==>
                forall result :: Resolved(View(), active[runId].task, result) == Outcome.Cancelled
      ensures runId !in active && !readable ==> response == Rejected(PersistenceFailed)
      ensures runId !in active && readable ==>
                response == if runId in store then CancelAcknowledged(true) else Rejected(NotFound)
      ensures response != CancelAcknowledged(false) ==> View() == old(View())
    {
      if runId in active {
        signalled := signalled + {active[runId].task};
        return CancelAcknowledged(false);
      }
      if !readable {
        return Rejected(PersistenceFailed);
      }
      response := if runId in store then CancelAcknowledged(true) else Rejected(NotFound);
    }

    method Load(request: Execution, readable: bool) returns (phase: Phase)
      ensures phase == AfterLoad(View(), request, readable)
    {
      if !readable {
        return Done(Rejected(PersistenceFailed));
      }
      if request.runId in store {
        var record := store[request.runId];
        return if record.request == request then Done(Finished(record)) else Done(Rejected(BoundToAnother));
      }
      phase := Claiming;
    }

    method Claim(request: Execution, task: TaskId, startedAt: int) returns (phase: Phase)
      modifies `active
      ensures View() == Claimed(old(View()), request, task)
      ensures phase == AfterClaim(old(View()), request, startedAt)
    {
      if request.runId in active {
        var existing := active[request.runId];
        return Done(Rejected(if existing.request == request then AlreadyActive else ActiveWithAnother));
      }
      active := active[request.runId := ActiveRun(request, task)];
      phase := Running(startedAt);
    }

    method Release(runId: Uuid)
      modifies `active
      ensures View() == Released(old(View()), runId)
    {
      active := active - {runId};
    }

    method Save(record: Record, writable: bool) returns (response: Response)
      modifies `store
      ensures View() == Saved(old(View()), record, writable)
      ensures response == AfterSave(record, writable)
    {
      if !writable {
        return Rejected(PersistenceFailed);
      }
      store := store[record.request.runId := record];
      response := Finished(record);
    }

    /** `execute` as one undisturbed call: the active table is as before, and the store gains at most
        the record that is returned, for a run id that had none.  A run id that has a record is
        never run: its request gets the record back.  A new one is, and its record reports what the
        backend returned. */
    method Execute(request: Execution, valid: bool, readable: bool, task: TaskId, startedAt: int,
                   result: BackendResult, finishedAt: int, writable: bool) returns (response: Response)
      modifies this
      ensures (View(), response)
              == Executed(old(View()), request, valid, readable, task, startedAt, result, finishedAt, writable)
      ensures active == old(active) && signalled == old(signalled)
      ensures store == old(store)
              || (response.Finished? && request.runId !in old(store)
                   && store == old(store)[request.runId := response.record])
      ensures response.Finished? ==>
                response.record.request == request && request.runId in store && store[request.runId] == response.record
      ensures !valid ==> response == Rejected(InvalidExecution)
      ensures valid && !readable ==> response == Rejected(PersistenceFailed)
      ensures valid && readable && request.runId !in old(store) && request.runId in old(active) ==>
                var other := old(active)[request.runId].request != request;
                response == Rejected(if other then ActiveWithAnother else AlreadyActive)
      ensures valid && readable && request.runId !in old(store) && request.runId !in old(active) ==>
                if writable then
                  response.Finished?
                  && Reports(response.record, request, startedAt, task in old(signalled), result, finishedAt)
                else response == Rejected(PersistenceFailed)
      ensures valid && readable && request.runId in old(store) ==>
                response == if old(store)[request.runId].request == request then Finished(old(store)[request.runId])
                            else Rejected(BoundToAnother)
    {
      ExecutedMeans(View(), request, valid, readable, task, startedAt, result, finishedAt, writable);
      if request.runId !in store && request.runId !in active {
        NewRunIsReported(View(), request, task, startedAt, result, finishedAt);
      }
      if !valid {
        return Rejected(InvalidExecution);
      }
      var phase := Load(request, readable);
      if phase.Done? {
        return phase.response;
      }
      phase := Claim(request, task, startedAt);
      if phase.Done? {
        return phase.response;
      }
      var outcome := Resolved(View(), task, result);
      Release(request.runId);
      response := Save(BuildRecord(request, startedAt, outcome, finishedAt), writable);
    }
  }

  // ---- Interleavings ------------------------------------------------------------------------

  datatype Task = Task(request: Execution, phase: Phase)

  datatype System = System(shared: Shared, tasks: map<TaskId, Task>)

  datatype Event =
    | Call(task: TaskId, request: Execution, valid: bool)
    | Load(task: TaskId, readable: bool)
    | Claim(task: TaskId, startedAt: int)
    | Resolve(task: TaskId, result: BackendResult)
    | Release(task: TaskId)
    | Save(task: TaskId, finishedAt: int, writable: bool)
    | CancelRun(runId: Uuid)

  function Move(y: System, task: TaskId, shared: Shared, phase: Phase): System
    requires task in y.tasks
  {
    System(shared, y.tasks[task := y.tasks[task].(phase := phase)])
  }

  /** An event that is not the task's next step changes nothing. */
  function Next(y: System, e: Event): System {
    match e
    case Call(t, request, valid) =>
      if t in y.tasks then y
      else y.(tasks := y.tasks[t := Task(request, if valid then Loading else Done(Rejected(InvalidExecution)))])
    case Load(t, readable) =>
      if t in y.tasks && y.tasks[t].phase.Loading?
      then Move(y, t, y.shared, AfterLoad(y.shared, y.tasks[t].request, readable)) else y
    case Claim(t, startedAt) =>
      if t in y.tasks && y.tasks[t].phase.Claiming?
      then Move(y, t, Claimed(y.shared, y.tasks[t].request, t), AfterClaim(y.shared, y.tasks[t].request, startedAt))
        else y
    case Resolve(t, result) =>
      if t in y.tasks && y.tasks[t].phase.Running?
      then Move(y, t, y.shared, Releasing(y.tasks[t].phase.startedAt, Resolved(y.shared, t, result))) else y
    case Release(t) =>
      if t in y.tasks && y.tasks[t].phase.Releasing?
      then Move(y, t, Released(y.shared, y.tasks[t].request.runId),
                Saving(y.tasks[t].phase.startedAt, y.tasks[t].phase.outcome)) else y
    case Save(t, finishedAt, writable) =>
      if t in y.tasks && y.tasks[t].phase.Saving? then
        var record := BuildRecord(y.tasks[t].request, y.tasks[t].phase.startedAt, y.tasks[t].phase.outcome, finishedAt);
        Move(y, t, Saved(y.shared, record, writable), Done(AfterSave(record, writable)))
      else y
    case CancelRun(runId) => y.(shared := Signalled(y.shared, runId))
  }

  function Run(y: System, es: seq<Event>): System {
    if es == [] then y else Next(Run(y, es[..|es| - 1]), es[|es| - 1])
  }

  /** A service that has just started, over whatever the store already holds. */
  ghost predicate Started(y: System) {
    && y.tasks == map[] && y.shared.active == map[] && y.shared.signalled == {}
    && forall id :: id in y.shared.store ==> y.shared.store[id].request.runId == id
  }

  /** The six steps of one call taken back to back do what `Executed` says. */
  lemma UndisturbedCall(y: System, t: TaskId, request: Execution, valid: bool, readable: bool, startedAt: int,
                        result: BackendResult, finishedAt: int, writable: bool)
    requires t !in y.tasks
    ensures var z := Next(Next(Next(Next(Next(Next(y, Call(t, request, valid)), Load(t, readable)),
              Claim(t, startedAt)),
                       Resolve(t, result)), Release(t)), Save(t, finishedAt, writable));
            var (shared, response) :=
              Executed(y.shared, request, valid, readable, t, startedAt, result, finishedAt, writable);
            z == System(shared, y.tasks[t := Task(request, Done(response))])
  {
    var a := Next(y, Call(t, request, valid));
    var b := Next(a, Load(t, readable));
    var c := Next(b, Claim(t, startedAt));
    var d := Next(c, Resolve(t, result));
    assert valid ==> b.tasks == y.tasks[t := Task(request, AfterLoad(y.shared, request, readable))];
    if b.tasks[t].phase.Claiming? {
      assert c.tasks == y.tasks[t := Task(request, AfterClaim(y.shared, request, startedAt))];
      if c.tasks[t].phase.Running? {
        UndisturbedFinish(y, c, t, request, startedAt, result, finishedAt, writable);
      }
    }
  }

  lemma UndisturbedFinish(y: System, c: System, t: TaskId, request: Execution, startedAt: int,
                          result: BackendResult, finishedAt: int, writable: bool)
    requires c == System(Claimed(y.shared, request, t), y.tasks[t := Task(request, Running(startedAt))])
    ensures var record := BuildRecord(request, startedAt, Resolved(y.shared, t, result), finishedAt);
            Next(Next(Next(c, Resolve(t, result)), Release(t)), Save(t, finishedAt, writable))
            == System(Saved(Released(Claimed(y.shared, request, t), request.runId), record, writable),
                      y.tasks[t := Task(request, Done(AfterSave(record, writable)))])
  {
    var outcome := Resolved(y.shared, t, result);
    var d := Next(c, Resolve(t, result));
    assert d.tasks == y.tasks[t := Task(request, Releasing(startedAt, outcome))];
    var e := Next(d, Release(t));
    assert e.tasks == y.tasks[t := Task(request, Saving(startedAt, outcome))];
    var f := Next(e, Save(t, finishedAt, writable));
    assert f.tasks == y.tasks[t := Task(request, f.tasks[t].phase)];
  }

  // ---- Mutual exclusion ---------------------------------------------------------------------

  /** The task has claimed its run id and not yet released it. */
  predicate Holds(y: System, t: TaskId) {
    t in y.tasks && (y.tasks[t].phase.Running? || y.tasks[t].phase.Releasing?)
  }

  /** `active` is exactly the claims of the holding tasks. */
  ghost predicate Inv(y: System) {
    && (forall t :: Holds(y, t) ==>
          var request := y.tasks[t].request;
          request.runId in y.shared.active && y.shared.active[request.runId] == ActiveRun(request, t))
    && (forall id :: id in y.shared.active ==>
          Holds(y, y.shared.active[id].task) && y.tasks[y.shared.active[id].task].request == y.shared.active[id].request
          && y.shared.active[id].request.runId == id)
    && (forall id :: id in y.shared.store ==> y.shared.store[id].request.runId == id)
    && (forall t :: t in y.shared.signalled ==> t in y.tasks)
  }

  lemma NextKeepsInv(y: System, e: Event)
    requires Inv(y)
    ensures Inv(Next(y, e))
  {
    if e.Claim? {
      ClaimKeepsInv(y, e.task, e.startedAt);
    } else if e.Release? {
      ReleaseKeepsInv(y, e.task);
    } else if e.Save? {
      SaveKeepsInv(y, e.task, e.finishedAt, e.writable);
    } else {
      OtherStepKeepsInv(y, e);
    }
  }

  lemma SaveKeepsInv(y: System, t: TaskId, finishedAt: int, writable: bool)
    requires Inv(y)
    ensures Inv(Next(y, Save(t, finishedAt, writable)))
  {
    var z := Next(y, Save(t, finishedAt, writable));
    forall u ensures Holds(z, u) <==> Holds(y, u) {
    }
  }

  lemma ClaimKeepsInv(y: System, t: TaskId, startedAt: int)
    requires Inv(y)
    ensures Inv(Next(y, Claim(t, startedAt)))
  {
    var z := Next(y, Claim(t, startedAt));
    forall u | u != t ensures Holds(z, u) <==> Holds(y, u) {
    }
  }

  lemma ReleaseKeepsInv(y: System, t: TaskId)
    requires Inv(y)
    ensures Inv(Next(y, Release(t)))
  {
    var z := Next(y, Release(t));
    forall u | u != t ensures Holds(z, u) <==> Holds(y, u) {
    }
  }

  lemma OtherStepKeepsInv(y: System, e: Event)
    requires Inv(y) && !e.Claim? && !e.Release? && !e.Save?
    ensures Inv(Next(y, e))
  {
    var z := Next(y, e);
    forall t ensures Holds(z, t) <==> Holds(y, t) {
    }
  }

  lemma {:induction false} RunKeepsInv(y: System, es: seq<Event>)
    requires Inv(y)
    ensures Inv(Run(y, es))
  {
    if es == [] {
    } else {
      RunKeepsInv(y, es[..|es| - 1]);
      NextKeepsInv(Run(y, es[..|es| - 1]), es[|es| - 1]);
    }
  }

  /** At most one task runs the backend for a run id, and `active` is exactly those tasks' ids. */
  lemma RunOwnership(start: System, es: seq<Event>, t: TaskId, u: TaskId)
    requires Started(start)
    ensures var y := Run(start, es);
            && (Holds(y, t) && Holds(y, u) && y.tasks[t].request.runId == y.tasks[u].request.runId ==> t == u)
            && y.shared.active.Keys == set x | x in y.tasks && Holds(y, x) :: y.tasks[x].request.runId
  {
    RunKeepsInv(start, es);
    var y := Run(start, es);
    forall id | id in y.shared.active
      ensures id in set x | x in y.tasks && Holds(y, x) :: y.tasks[x].request.runId
    {
      assert y.tasks[y.shared.active[id].task].request.runId == id;
    }
  }

  /** A task's release removes its own entry and no other. */
  lemma ReleaseIsOwn(start: System, es: seq<Event>, t: TaskId)
    requires Started(start)
    requires var y := Run(start, es); t in y.tasks && y.tasks[t].phase.Releasing?
    ensures var y, z := Run(start, es), Next(Run(start, es), Release(t));
            var id := y.tasks[t].request.runId;
            && id in y.shared.active && y.shared.active[id].task == t
            && z.shared.active == map other | other in y.shared.active && other != id :: y.shared.active[other]
  {
    RunKeepsInv(start, es);
    var y, z := Run(start, es), Next(Run(start, es), Release(t));
    assert Holds(y, t);
    var id := y.tasks[t].request.runId;
    assert z.shared.active == map other | other in y.shared.active && other != id :: y.shared.active[other];
  }

  // ---- Cancellation ---------------------------------------------------------------------------

  /** The task's outcome can only be this one. */
  ghost predicate Heading(y: System, t: TaskId, outcome: Outcome) {
    t in y.tasks &&
    match y.tasks[t].phase
    case Loading => false
    case Claiming => false
    case Running(_) => t in y.shared.signalled && outcome == Outcome.Cancelled
    case Releasing(_, o) => o == outcome
    case Saving(_, o) => o == outcome
    case Done(Finished(record)) =>
      record == BuildRecord(y.tasks[t].request, record.startedAt, outcome, record.finishedAt)
    case Done(Rejected(why)) => why == PersistenceFailed
    case Done(CancelAcknowledged(_)) => false
  }

  lemma {:induction false} HeadingStays(y: System, es: seq<Event>, t: TaskId, outcome: Outcome)
    requires Heading(y, t, outcome)
    ensures Heading(Run(y, es), t, outcome)
  {
    if es == [] {
    } else {
      HeadingStays(y, es[..|es| - 1], t, outcome);
      HeadingStep(Run(y, es[..|es| - 1]), es[|es| - 1], t, outcome);
    }
  }

  lemma HeadingStep(y: System, e: Event, t: TaskId, outcome: Outcome)
    requires Heading(y, t, outcome)
    ensures Heading(Next(y, e), t, outcome)
  {
  }

  /** After an acknowledged cancel the outcome is settled: cancelled while the task still waits for
      the backend, and otherwise what the backend had returned. */
  lemma CancelSettlesOutcome(start: System, es: seq<Event>, runId: Uuid, later: seq<Event>)
    requires Started(start) && runId in Run(start, es).shared.active
    ensures var y := Run(start, es);
            var t := y.shared.active[runId].task;
            && Holds(y, t)
            && Heading(Run(Next(y, CancelRun(runId)), later), t, SettledOutcome(y.tasks[t].phase))
  {
    RunKeepsInv(start, es);
    var y := Run(start, es);
    var t := y.shared.active[runId].task;
    HeadingStays(Next(y, CancelRun(runId)), later, t, SettledOutcome(y.tasks[t].phase));
  }

  function SettledOutcome(phase: Phase): Outcome
    requires phase.Running? || phase.Releasing?
  {
    if phase.Running? then Outcome.Cancelled else phase.outcome
  }

  /** If the task has answered with a record, the record says cancelled. */
  predicate EndsCancelled(y: System, t: TaskId) {
    t in y.tasks && y.tasks[t].phase.Done? && y.tasks[t].phase.response.Finished? ==>
      y.tasks[t].phase.response.record.status == RunStatus.Cancelled
  }

  /** A cancel of an active run is always acknowledged as not yet terminal.  It makes the run end as
      cancelled, in every continuation, exactly when the task still waits for the backend or had
      been cancelled already; a result that was taken before stands. */
  lemma CancelTakesEffectIff(start: System, es: seq<Event>, runId: Uuid, readable: bool)
    requires Started(start) && runId in Run(start, es).shared.active
    ensures var y := Run(start, es);
            var t := y.shared.active[runId].task;
            && CancelAnswer(y.shared, runId, readable) == CancelAcknowledged(false)
            && Holds(y, t)
            && ((forall later :: EndsCancelled(Run(Next(y, CancelRun(runId)), later), t))
                <==> y.tasks[t].phase.Running? || y.tasks[t].phase.outcome.Cancelled?)
  {
    var y := Run(start, es);
    var t := y.shared.active[runId].task;
    CancelSettlesOutcome(start, es, runId, []);
    var outcome := SettledOutcome(y.tasks[t].phase);
    if outcome.Cancelled? {
      forall later ensures EndsCancelled(Run(Next(y, CancelRun(runId)), later), t) {
        CancelSettlesOutcome(start, es, runId, later);
      }
    } else {
      var later := TakenResultStands(Next(y, CancelRun(runId)), t, outcome);
    }
  }

  /** A task whose result has been taken may finish with it. */
  lemma TakenResultStands(y: System, t: TaskId, outcome: Outcome) returns (later: seq<Event>)
    requires t in y.tasks && y.tasks[t].phase.Releasing? && y.tasks[t].phase.outcome == outcome && !outcome.Cancelled?
    ensures !EndsCancelled(Run(y, later), t)
    ensures Run(y, later).tasks[t].phase
            == Done(Finished(BuildRecord(y.tasks[t].request, y.tasks[t].phase.startedAt, outcome, 0)))
  {
    RunMore(y, [], Release(t));
    RunMore(y, [] + [Release(t)], Save(t, 0, true));
    later := [] + [Release(t)] + [Save(t, 0, true)];
  }

  /** A cancel that comes too late: it is acknowledged as not yet terminal, and the run is recorded
      as succeeded. */
  lemma AcknowledgedCancelMayComeTooLate(request: Execution) returns (start: System, es: seq<Event>, later: seq<Event>)
    ensures Started(start)
    ensures var y := Run(start, es);
            && request.runId in y.shared.active
            && CancelAnswer(y.shared, request.runId, true) == CancelAcknowledged(false)
            && var z := Run(Next(y, CancelRun(request.runId)), later);
               1 in z.tasks && z.tasks[1].phase.Done? && z.tasks[1].phase.response.Finished?
               && z.tasks[1].phase.response.record.status == Succeeded
  {
    start := System(Shared(map[], map[], {}), map[]);
    var y := start;
    es, y := Then(start, [], y, Call(1, request, true));
    es, y := Then(start, es, y, Load(1, true));
    es, y := Then(start, es, y, Claim(1, 0));
    es, y := Then(start, es, y, Resolve(1, Output(0, [], [])));
    later := TakenResultStands(Next(y, CancelRun(request.runId)), 1, Exited(0, [], []));
  }

  lemma Then(start: System, es: seq<Event>, y: System, e: Event) returns (fs: seq<Event>, z: System)
    requires Run(start, es) == y
    ensures fs == es + [e] && z == Next(y, e) && Run(start, fs) == z
  {
    fs, z := es + [e], Next(y, e);
    RunMore(start, es, e);
  }

  // ---- Idempotence ----------------------------------------------------------------------------

  /** Past its load: the task found no record and will try to run. */
  predicate Committed(y: System, t: TaskId) {
    t in y.tasks && !y.tasks[t].phase.Loading? && !y.tasks[t].phase.Done?
  }

  /** A task that had not loaded when the record was there never runs the backend, in any
      interleaving. */
  lemma {:induction false} LateTaskNeverRuns(y: System, es: seq<Event>, t: TaskId, id: Uuid)
    requires id in y.shared.store && !Committed(y, t)
    ensures id in Run(y, es).shared.store
    ensures t in Run(y, es).tasks && Run(y, es).tasks[t].request.runId == id ==> !Committed(Run(y, es), t)
  {
    if es == [] {
    } else {
      LateTaskNeverRuns(y, es[..|es| - 1], t, id);
      NextStaysOut(Run(y, es[..|es| - 1]), es[|es| - 1], t, id);
    }
  }

  lemma NextStaysOut(y: System, e: Event, t: TaskId, id: Uuid)
    requires id in y.shared.store
    requires t in y.tasks && y.tasks[t].request.runId == id ==> !Committed(y, t)
    ensures id in Next(y, e).shared.store
    ensures t in Next(y, e).tasks && Next(y, e).tasks[t].request.runId == id ==> !Committed(Next(y, e), t)
  {
  }

  lemma {:induction false} RequestStays(y: System, es: seq<Event>, t: TaskId)
    requires t in y.tasks
    ensures t in Run(y, es).tasks && Run(y, es).tasks[t].request == y.tasks[t].request
  {
    if es == [] {
    } else {
      RequestStays(y, es[..|es| - 1], t);
    }
  }

  /** The record survives these steps. */
  ghost predicate Survives(y: System, es: seq<Event>, id: Uuid, record: Record) {
    id in Run(y, es).shared.store && Run(y, es).shared.store[id] == record
  }

  /** Some task past its load has this run id. */
  ghost predicate Contested(y: System, id: Uuid) {
    exists t :: Committed(y, t) && y.tasks[t].request.runId == id
  }

  /** Exactly when a stored record is safe from everything that may still happen: no task for its
      run id got past its load before the record was there. */
  lemma RecordIsFinalIff(y: System, id: Uuid)
    requires Inv(y) && id in y.shared.store
    ensures (forall es :: Survives(y, es, id, y.shared.store[id])) <==> !Contested(y, id)
  {
    if t :| Committed(y, t) && y.tasks[t].request.runId == id {
      var es := Overwrites(y, t);
      assert !Survives(y, es, id, y.shared.store[id]);
    } else {
      forall es ensures Survives(y, es, id, y.shared.store[id]) {
        UncontestedSurvives(y, es, id);
      }
    }
  }

  lemma {:induction false} UncontestedSurvives(y: System, es: seq<Event>, id: Uuid)
    requires id in y.shared.store && !Contested(y, id)
    ensures Survives(y, es, id, y.shared.store[id])
  {
    if es == [] {
    } else {
      var front, e := es[..|es| - 1], es[|es| - 1];
      UncontestedSurvives(y, front, id);
      if !Survives(y, es, id, y.shared.store[id]) {
        if Committed(y, e.task) {
          RequestStays(y, front, e.task);
        } else {
          LateTaskNeverRuns(y, front, e.task, id);
        }
      }
    }
  }

  lemma Overwrites(y: System, t: TaskId) returns (es: seq<Event>)
    requires Inv(y) && Committed(y, t) && y.tasks[t].request.runId in y.shared.store
    ensures var id := y.tasks[t].request.runId; !Survives(y, es, id, y.shared.store[id])
  {
    var id := y.tasks[t].request.runId;
    var z := y;
    es := [];
    if y.tasks[t].phase.Claiming? && id in y.shared.active {
      es, z := MakesRoom(y, y.shared.active[id].task);
    }
    es, z := RunsToEnd(y, es, z, t, y.shared.store[id].finishedAt + 1);
  }

  /** The task that holds an id may give it up. */
  lemma MakesRoom(y: System, u: TaskId) returns (es: seq<Event>, z: System)
    requires Holds(y, u)
    ensures Run(y, es) == z && y.tasks[u].request.runId !in z.shared.active
    ensures forall t :: t in y.tasks && t != u ==> t in z.tasks && z.tasks[t] == y.tasks[t]
  {
    es, z := [], y;
    if y.tasks[u].phase.Running? {
      RunMore(y, es, Resolve(u, Elapsed));
      es, z := es + [Resolve(u, Elapsed)], Next(z, Resolve(u, Elapsed));
    }
    RunMore(y, es, Release(u));
    es, z := es + [Release(u)], Next(z, Release(u));
  }

  /** No two calls for one run id are in flight at once. */
  ghost predicate Apart(y: System) {
    forall t, u ::
      t in y.tasks && u in y.tasks && !y.tasks[t].phase.Done? && !y.tasks[u].phase.Done?
      && y.tasks[t].request.runId == y.tasks[u].request.runId
      ==> t == u
  }

  ghost predicate NonOverlapping(start: System, es: seq<Event>) {
    forall n :: 0 <= n <= |es| ==> Apart(Run(start, es[..n]))
  }

  /** Whoever means to run has nothing stored against it. */
  ghost predicate Unbound(y: System) {
    forall t :: Committed(y, t) ==> y.tasks[t].request.runId !in y.shared.store
  }

  lemma ShorterRun(start: System, es: seq<Event>, m: nat)
    requires NonOverlapping(start, es) && m <= |es|
    ensures NonOverlapping(start, es[..m])
  {
    forall n | 0 <= n <= m ensures Apart(Run(start, es[..m][..n])) {
      assert es[..m][..n] == es[..n];
    }
  }

  lemma NextKeepsUnbound(y: System, e: Event)
    requires Apart(y) && Unbound(y)
    ensures Unbound(Next(y, e))
  {
    var z := Next(y, e);
    forall t | Committed(z, t) ensures z.tasks[t].request.runId !in z.shared.store {
      assert t in y.tasks;
      if e.Save? && z.shared.store != y.shared.store {
        assert Committed(y, t) && Committed(y, e.task) && t != e.task;
      }
    }
  }

  lemma {:induction false} RunKeepsUnbound(start: System, es: seq<Event>)
    requires Started(start) && NonOverlapping(start, es)
    ensures Unbound(Run(start, es))
  {
    if es == [] {
    } else {
      var m := |es| - 1;
      ShorterRun(start, es, m);
      RunKeepsUnbound(start, es[..m]);
      NextKeepsUnbound(Run(start, es[..m]), es[m]);
    }
  }

  /** When calls for one run id do not overlap, a stored record never changes. */
  lemma {:induction false} StoredRecordIsFinal(start: System, es: seq<Event>, m: nat, id: Uuid)
    requires Started(start) && NonOverlapping(start, es) && m <= |es|
    requires id in Run(start, es[..m]).shared.store
    ensures id in Run(start, es).shared.store
    ensures Run(start, es).shared.store[id] == Run(start, es[..m]).shared.store[id]
    decreases |es|
  {
    if m == |es| {
      assert es[..m] == es;
    } else {
      var last := |es| - 1;
      ShorterRun(start, es, last);
      assert es[..last][..m] == es[..m];
      StoredRecordIsFinal(start, es[..last], m, id);
      RunKeepsUnbound(start, es[..last]);
      var y, e := Run(start, es[..last]), es[last];
      if e.Save? && e.task in y.tasks && y.tasks[e.task].phase.Saving? {
        assert Committed(y, e.task);
      }
    }
  }

  /** How a call answers whose run id is already recorded. */
  predicate AnswersRecord(phase: Phase, request: Execution, record: Record) {
    || phase == Loading
    || phase == Done(Rejected(PersistenceFailed))
    || phase == Done(if record.request == request then Finished(record) else Rejected(BoundToAnother))
  }

  /** Then a call for a recorded run never runs the backend: the same request gets the record
      back, a different one is refused, and the record stays as it was. */
  lemma {:induction false} RecordedRunIsAnswered(start: System, es: seq<Event>, m: nat, t: TaskId, request: Execution)
    requires Started(start) && NonOverlapping(start, es) && m < |es|
    requires es[m] == Call(t, request, true) && t !in Run(start, es[..m]).tasks
    requires request.runId in Run(start, es[..m]).shared.store
    ensures var record := Run(start, es[..m]).shared.store[request.runId];
            && request.runId in Run(start, es).shared.store && Run(start, es).shared.store[request.runId] == record
            && t in Run(start, es).tasks && Run(start, es).tasks[t].request == request
            && AnswersRecord(Run(start, es).tasks[t].phase, request, record)
    decreases |es|
  {
    var last := |es| - 1;
    var record := Run(start, es[..m]).shared.store[request.runId];
    StoredRecordIsFinal(start, es, m, request.runId);
    if m == last {
    } else {
      ShorterRun(start, es, last);
      assert es[..last][..m] == es[..m];
      RecordedRunIsAnswered(start, es[..last], m, t, request);
      NextAnswers(Run(start, es[..last]), es[last], t, request, record);
    }
  }

  lemma NextAnswers(y: System, e: Event, t: TaskId, request: Execution, record: Record)
    requires request.runId in y.shared.store && y.shared.store[request.runId] == record
    requires t in y.tasks && y.tasks[t].request == request && AnswersRecord(y.tasks[t].phase, request, record)
    ensures var z := Next(y, e);
            t in z.tasks && z.tasks[t].request == request && AnswersRecord(z.tasks[t].phase, request, record)
  {
  }

  /** Overlapping calls are not idempotent: both load before either saves, the second claims once
      the first has released, and its record replaces the first's although the requests differ. */
  lemma OverlappingCallsRunTwice(id: Uuid) returns (start: System, es: seq<Event>, m: nat)
    ensures Started(start) && m <= |es|
    ensures var y, z := Run(start, es[..m]), Run(start, es);
            && id in y.shared.store && id in z.shared.store
            && y.shared.store[id].request != z.shared.store[id].request
  {
    start := System(Shared(map[], map[], {}), map[]);
    var one, two := Execution(id, 0, [1]), Execution(id, 0, [2]);
    es := [Call(1, one, true), Call(2, two, true), Load(1, true), Load(2, true)];
    var y := System(Shared(map[], map[], {}), map[1 := Task(one, Claiming), 2 := Task(two, Claiming)]);
    FirstSteps(start, one, two, y);
    es, y := RunsToEnd(start, es, y, 1, 0);
    m := |es|;
    ghost var first := es;
    es, y := RunsToEnd(start, es, y, 2, 0);
    assert es[..m] == first;
  }

  lemma FirstSteps(start: System, one: Execution, two: Execution, y: System)
    requires start == System(Shared(map[], map[], {}), map[])
    requires y == System(Shared(map[], map[], {}), map[1 := Task(one, Claiming), 2 := Task(two, Claiming)])
    ensures Run(start, [Call(1, one, true), Call(2, two, true), Load(1, true), Load(2, true)]) == y
  {
    var es := [Call(1, one, true)];
    RunMore(start, [], es[0]);
    assert [] + es == es;
    assert Run(start, es).tasks == map[1 := Task(one, Loading)];
    RunMore(start, es, Call(2, two, true));
    es := es + [Call(2, two, true)];
    assert Run(start, es).tasks == map[1 := Task(one, Loading), 2 := Task(two, Loading)];
    RunMore(start, es, Load(1, true));
    es := es + [Load(1, true)];
    assert Run(start, es).tasks == map[1 := Task(one, Claiming), 2 := Task(two, Loading)];
    RunMore(start, es, Load(2, true));
    es := es + [Load(2, true)];
    assert Run(start, es).tasks == y.tasks;
    assert es == [Call(1, one, true), Call(2, two, true), Load(1, true), Load(2, true)];
  }

  lemma RunMore(y: System, es: seq<Event>, e: Event)
    ensures Run(y, es + [e]) == Next(Run(y, es), e)
  {
    assert (es + [e])[..|es|] == es;
  }

  /** A task past its load may run to its end and save, once nobody else holds its id. */
  lemma {:induction false} RunsToEnd(start: System, es: seq<Event>, y: System, t: TaskId, finishedAt: int)
    returns (fs: seq<Event>, z: System)
    requires Run(start, es) == y && Committed(y, t)
    requires y.tasks[t].phase.Claiming? ==> y.tasks[t].request.runId !in y.shared.active
    ensures es <= fs && Run(start, fs) == z
    ensures var id := y.tasks[t].request.runId;
            && id in z.shared.store && z.shared.store[id].request == y.tasks[t].request
            && z.shared.store[id].finishedAt == finishedAt
            && (if y.tasks[t].phase.Saving? then z.shared.active == y.shared.active else id !in z.shared.active)
            && forall u :: u in y.tasks && u != t ==> u in z.tasks && z.tasks[u] == y.tasks[u]
    decreases StepsLeft(y.tasks[t].phase)
  {
    var e := match y.tasks[t].phase
      case Claiming => Claim(t, 0)
      case Running(_) => Resolve(t, Elapsed)
      case Releasing(_, _) => Release(t)
      case _ => Save(t, finishedAt, true);
    RunMore(start, es, e);
    fs, z := es + [e], Next(y, e);
    if !y.tasks[t].phase.Saving? {
      fs, z := RunsToEnd(start, fs, z, t, finishedAt);
    }
  }

  function StepsLeft(phase: Phase): nat {
    match phase
    case Loading => 5
    case Claiming => 4
    case Running(_) => 3
    case Releasing(_, _) => 2
    case Saving(_, _) => 1
    case Done(_) => 0
  }
}
