/** Freedom from deadlock: an exchange under way reaches its end by steps of the two loops and the
    upstream alone, without any timeout, cut connection or crash. */
module RelayDeadlock {
  import opened Common
  import opened RelayFrames
  import opened RelaySession
  import opened Connector
  import opened CloudExchange
  import opened RelayProtocol
  import opened RelayProgress

  /** No failure from outside. */
  predicate Voluntary(e: Step) {
    !e.Abort? && !e.CutOff? && !e.Die?
  }

  /** The exchange is over, or the connector has stopped on its own. */
  predicate Settled(w: World) {
    !InExchange(w.phase) || !w.alive
  }

  /** The connector will not stop on its own: it can read every control frame, and no upstream
      answer with an illegal head awaits it. */
  ghost predicate Smooth(w: World, fits: TextCap) {
    AllFit(fits) && TasksLegal(w.tasks)
  }

  ghost predicate TasksLegal(tasks: map<Uuid, Task>) {
    forall id :: id in tasks ==> Legal(tasks[id])
  }

  ghost predicate AllFit(fits: TextCap) {
    forall f: ControlFrame :: fits(f)
  }

  predicate Legal(task: Task) {
    task.Returned? && task.outcome.Answer? ==>
      var r := task.outcome.response;
      ResponseStartError(ResponseStart(0, r.status, r.headers)) == None
  }

  /** Voluntary steps lead from one state to another. */
  ghost predicate Leads(w: World, es: seq<Step>, u: World, maxInFlight: nat, fits: TextCap) {
    u == PlayFrom(w, es, maxInFlight, fits) && AllVoluntary(es)
  }

  ghost predicate AllVoluntary(es: seq<Step>) {
    forall e :: e in es ==> Voluntary(e)
  }

  /** What was smooth still is, and alive. */
  ghost predicate StaysSmooth(w: World, u: World, fits: TextCap) {
    Smooth(w, fits) ==> Smooth(u, fits) && u.alive
  }

  lemma LeadsNowhere(w: World, maxInFlight: nat, fits: TextCap)
    ensures Leads(w, [], w, maxInFlight, fits)
  {
  }

  lemma {:induction false} PlayAppend(w: World, es: seq<Step>, fs: seq<Step>, maxInFlight: nat, fits: TextCap)
    ensures PlayFrom(w, es + fs, maxInFlight, fits)
              == PlayFrom(PlayFrom(w, es, maxInFlight, fits), fs, maxInFlight, fits)
    decreases |fs|
  {
    if fs == [] {
      assert es + fs == es;
    } else {
      PlayAppend(w, es, fs[..|fs| - 1], maxInFlight, fits);
      LastOfSum(es, fs);
      PlayMore(w, es + fs[..|fs| - 1], fs[|fs| - 1], maxInFlight, fits);
    }
  }

  lemma LastOfSum(es: seq<Step>, fs: seq<Step>)
    requires fs != []
    ensures es + fs == es + fs[..|fs| - 1] + [fs[|fs| - 1]]
  {
  }

  lemma VoluntarySum(es: seq<Step>, fs: seq<Step>)
    requires AllVoluntary(es) && AllVoluntary(fs)
    ensures AllVoluntary(es + fs)
  {
  }

  lemma LeadsOn(w: World, es: seq<Step>, v: World, fs: seq<Step>, u: World, maxInFlight: nat, fits: TextCap)
    requires Leads(w, es, v, maxInFlight, fits) && Leads(v, fs, u, maxInFlight, fits)
    ensures Leads(w, es + fs, u, maxInFlight, fits)
  {
    PlayAppend(w, es, fs, maxInFlight, fits);
    VoluntarySum(es, fs);
  }

  lemma LeadsOneStep(w: World, e: Step, maxInFlight: nat, fits: TextCap)
    requires Voluntary(e)
    ensures Leads(w, [e], Apply(w, e, maxInFlight, fits), maxInFlight, fits)
  {
    PlayMore(w, [], e, maxInFlight, fits);
    assert [] + [e] == [e];
  }

  // ---- The request goes up --------------------------------------------------------------------------

  lemma SendsOne(w: World, h: History) returns (g: History)
    requires Inv(w, h) && w.phase.Sending?
    ensures Inv(OnSendNext(w), g) && OnSendNext(w).alive == w.alive && OnSendNext(w).tasks == w.tasks
    ensures h.stage.Uploading? && ExchangeFits(h.context) && h.stage.sent < |Frames(h.context)|
    ensures OnSendNext(w).phase == Over || g == History(h.context, Uploading(h.stage.sent + 1, h.stage.taken))
  {
    SendingCanSend(w, h);
    g := SendKeeps(w, h);
  }

  lemma SendingCanSend(w: World, h: History)
    requires Inv(w, h) && w.phase.Sending?
    ensures CanSend(w) && h.stage.Uploading? && ExchangeFits(h.context) && h.stage.sent < |Frames(h.context)|
  {
  }

  lemma {:induction false} SendsUp(w: World, h: History, maxInFlight: nat, fits: TextCap)
    returns (es: seq<Step>, u: World, g: History)
    requires Inv(w, h)
    ensures Leads(w, es, u, maxInFlight, fits) && Inv(u, g)
    ensures !u.phase.Sending? && u.alive == w.alive && u.tasks == w.tasks
    decreases ToSend(h)
  {
    es, u, g := [], w, h;
    LeadsNowhere(w, maxInFlight, fits);
    if w.phase.Sending? {
      g := SendsOne(w, h);
      var v := OnSendNext(w);
      LeadsOneStep(w, SendNext, maxInFlight, fits);
      es, u := [SendNext], v;
      if v.phase != Over {
        es, u, g := SendsUp(v, g, maxInFlight, fits);
        LeadsOn(w, [SendNext], v, es, u, maxInFlight, fits);
        es := [SendNext] + es;
      }
    }
  }

  function ToSend(h: History): int {
    if h.stage.Uploading? && IsHttpMethod(h.context.exchange.verb) then |Frames(h.context)| - h.stage.sent else 0
  }

  function ToTake(h: History): int {
    if h.stage.Uploading? && IsHttpMethod(h.context.exchange.verb) then |Frames(h.context)| - h.stage.taken else 0
  }

  // ---- The connector takes it -------------------------------------------------------------------------

  lemma ListeningHasAll(w: World, h: History)
    requires Inv(w, h) && w.phase.Listening? && w.alive && h.stage.Uploading?
    ensures ExchangeFits(h.context) && w.down != [] && h.stage.taken < |Frames(h.context)| && w.tasks == map[]
  {
    assert w.down == Frames(h.context)[h.stage.taken..h.stage.sent];
  }

  lemma TakesOne(w: World, h: History, maxInFlight: nat, fits: TextCap) returns (g: History)
    requires Inv(w, h) && w.phase.Listening? && w.alive && h.stage.Uploading? && maxInFlight > 0
    ensures var u := OnDeliver(w, 0, maxInFlight, fits);
            && Inv(u, g) && u.phase == w.phase && StaysSmooth(w, u, fits)
            && (u.alive ==> Engaged(g.stage) || g == History(h.context, Uploading(h.stage.sent, h.stage.taken + 1)))
    ensures ExchangeFits(h.context) && h.stage.taken < |Frames(h.context)|
  {
    ListeningHasAll(w, h);
    g := DeliverKeeps(w, h, 0, maxInFlight, fits);
    StartedRuns(w, maxInFlight, fits);
  }

  /** Taking a frame starts at most a running task, and stops only on a text that is too long. */
  lemma StartedRuns(w: World, maxInFlight: nat, fits: TextCap)
    requires w.alive && w.down != [] && w.tasks == map[]
    ensures var u := OnDeliver(w, 0, maxInFlight, fits);
            && u.phase == w.phase && (!HeadFits(w, fits) ==> !u.alive && !AllFit(fits))
            && TasksLegal(u.tasks)
  {
  }

  lemma TakesOneUp(w: World, h: History, maxInFlight: nat, fits: TextCap) returns (es: seq<Step>, u: World, g: History)
    requires Inv(w, h) && w.phase.Listening? && w.alive && h.stage.Uploading? && maxInFlight > 0
    ensures Leads(w, es, u, maxInFlight, fits) && Inv(u, g) && u.phase == w.phase && StaysSmooth(w, u, fits)
    ensures !u.alive || Engaged(g.stage) || (g.stage.Uploading? && ToTake(g) == ToTake(h) - 1)
    ensures ToTake(h) > 0
  {
    g := TakesOne(w, h, maxInFlight, fits);
    es, u := [Deliver(0)], OnDeliver(w, 0, maxInFlight, fits);
    LeadsDeliver(w, maxInFlight, fits);
  }

  lemma LeadsDeliver(w: World, maxInFlight: nat, fits: TextCap)
    ensures Leads(w, [Deliver(0)], OnDeliver(w, 0, maxInFlight, fits), maxInFlight, fits)
  {
    LeadsOneStep(w, Deliver(0), maxInFlight, fits);
  }

  lemma {:induction false} TakesUp(w: World, h: History, maxInFlight: nat, fits: TextCap)
    returns (es: seq<Step>, u: World, g: History)
    requires Inv(w, h) && w.phase.Listening? && w.alive && h.stage.Uploading? && maxInFlight > 0
    ensures Leads(w, es, u, maxInFlight, fits) && Inv(u, g)
    ensures (!u.alive || Engaged(g.stage)) && StaysSmooth(w, u, fits)
    decreases ToTake(h)
  {
    es, u, g := TakesOneUp(w, h, maxInFlight, fits);
    if u.alive && !Engaged(g.stage) {
      var fs, v := es, u;
      es, u, g := TakesUp(v, g, maxInFlight, fits);
      LeadsOn(w, fs, v, es, u, maxInFlight, fits);
      es := fs + es;
    }
  }

  // ---- The upstream answers ---------------------------------------------------------------------------

  lemma TaskReturns(w: World, h: History)
    requires Inv(w, h) && w.alive && h.stage.Working?
    ensures var u := OnTaskEnds(w, h.context.id, Failure(Unavailable), false);
            && Inv(u, h) && u.alive && u.phase == w.phase && h.context.id in u.tasks && u.tasks[h.context.id].Returned?
            && (TasksLegal(w.tasks) ==> Legal(u.tasks[h.context.id]))
  {
    TaskEndsKeeps(w, h, h.context.id, Failure(Unavailable), false);
  }

  lemma TaskHandsOver(w: World, h: History) returns (g: History)
    requires Inv(w, h) && w.alive && h.stage.Working? && h.context.id in w.tasks && w.tasks[h.context.id].Returned?
    ensures var u := OnHand(w, h.context.id);
            && Inv(u, g) && (u.alive ==> g.stage.Answering?)
            && (Legal(w.tasks[h.context.id]) ==> u.alive) && u.tasks == map[] && u.phase == w.phase
  {
    g := HandKeeps(w, h, h.context.id);
    HandedOver(w, h);
    HandLeaves(w, h);
  }

  /** Only an answer with an illegal head stops the connector. */
  lemma HandedOver(w: World, h: History)
    requires Inv(w, h) && w.alive && h.stage.Working? && h.context.id in w.tasks && w.tasks[h.context.id].Returned?
    ensures Legal(w.tasks[h.context.id]) ==> OnHand(w, h.context.id).alive
  {
    var c, outcome := h.context, w.tasks[h.context.id].outcome;
    if outcome.Failure? {
      FailureStays(w, c, outcome);
    } else if Legal(w.tasks[c.id]) {
      AnswerStays(w, h, outcome.response);
    }
  }

  lemma AnswerStays(w: World, h: History, response: ProxyResponse)
    requires Inv(w, h) && w.alive && h.stage.Working?
    requires h.context.id in w.tasks && w.tasks[h.context.id] == Returned(Answer(response))
               && Legal(w.tasks[h.context.id])
    ensures OnHand(w, h.context.id).alive
  {
    LegalAnswerStays(w, h.context, response);
  }

  lemma HandLeaves(w: World, h: History)
    requires Inv(w, h) && w.alive && h.stage.Working? && h.context.id in w.tasks && w.tasks[h.context.id].Returned?
    ensures OnHand(w, h.context.id).tasks == map[] && OnHand(w, h.context.id).phase == w.phase
  {
    assert w.tasks - {h.context.id} == map[];
  }

  lemma FailureStays(w: World, c: Context, outcome: Outcome)
    requires ExchangeFits(c) && WorkHolds(w, c) && w.alive && w.tasks[c.id] == Returned(outcome) && outcome.Failure?
    ensures OnHand(w, c.id).alive
  {
    TextAllowed(Refusal.LocalFailure);
    FailureAccepted(Asked(c), c.id, FailureCodeOf(outcome.error), Text(Refusal.LocalFailure));
    SendAccepted(Empty(Asked(c)), OutcomeFrames(c.id, outcome));
    assert {c.id} - {c.id} == {} && map[c.id := RequestOf(c.exchange)] - {c.id} == map[];
  }

  lemma ReturnsUp(w: World, h: History, maxInFlight: nat, fits: TextCap) returns (es: seq<Step>, u: World)
    requires Inv(w, h) && w.alive && h.stage.Working?
    ensures Leads(w, es, u, maxInFlight, fits) && Inv(u, h) && u.alive
    ensures h.context.id in u.tasks && u.tasks[h.context.id].Returned?
    ensures TasksLegal(w.tasks) ==> Legal(u.tasks[h.context.id])
  {
    var id := h.context.id;
    TaskReturns(w, h);
    es, u := [TaskEnds(id, Failure(Unavailable), false)], OnTaskEnds(w, id, Failure(Unavailable), false);
    LeadsOneStep(w, TaskEnds(id, Failure(Unavailable), false), maxInFlight, fits);
  }

  lemma HandsUp(w: World, h: History, maxInFlight: nat, fits: TextCap) returns (es: seq<Step>, u: World, g: History)
    requires Inv(w, h) && w.alive && h.stage.Working? && h.context.id in w.tasks && w.tasks[h.context.id].Returned?
    ensures Leads(w, es, u, maxInFlight, fits) && Inv(u, g) && u.tasks == map[]
    ensures u.alive ==> g.stage.Answering?
    ensures Legal(w.tasks[h.context.id]) ==> u.alive
  {
    g := TaskHandsOver(w, h);
    es, u := [Hand(h.context.id)], OnHand(w, h.context.id);
    LeadsHand(w, h.context.id, maxInFlight, fits);
  }

  lemma LeadsHand(w: World, id: Uuid, maxInFlight: nat, fits: TextCap)
    ensures Leads(w, [Hand(id)], OnHand(w, id), maxInFlight, fits)
  {
    LeadsOneStep(w, Hand(id), maxInFlight, fits);
  }

  lemma WorksUp(w: World, h: History, maxInFlight: nat, fits: TextCap) returns (es: seq<Step>, u: World, g: History)
    requires Inv(w, h) && w.alive && h.stage.Working?
    ensures Leads(w, es, u, maxInFlight, fits) && Inv(u, g)
    ensures (u.alive ==> g.stage.Answering?) && StaysSmooth(w, u, fits)
  {
    var fs, v := ReturnsUp(w, h, maxInFlight, fits);
    es, u, g := HandsUp(v, h, maxInFlight, fits);
    LeadsOn(w, fs, v, es, u, maxInFlight, fits);
    es := fs + es;
  }

  // ---- The cloud hears it -------------------------------------------------------------------------------

  lemma HearsOne(w: World, h: History) returns (g: History)
    requires Inv(w, h) && w.alive && h.stage.Answering? && InExchange(w.phase)
    ensures Inv(OnReceive(w), g) && OnReceive(w).alive && OnReceive(w).tasks == w.tasks
    ensures !InExchange(OnReceive(w).phase)
            || g == History(h.context, Answering(h.stage.answer, h.stage.heard + 1))
    ensures h.stage.heard < |AnswerFrames(h.context, h.stage.answer)|
  {
    AnswerAhead(w, h);
    g := ReceiveKeeps(w, h);
    ReceiveOnly(w);
  }

  lemma AnswerAhead(w: World, h: History)
    requires Inv(w, h) && w.alive && h.stage.Answering? && InExchange(w.phase)
    ensures w.up != [] && w.phase != Over && h.stage.heard < |AnswerFrames(h.context, h.stage.answer)|
  {
  }

  lemma ReceiveOnly(w: World)
    ensures OnReceive(w).alive == w.alive && OnReceive(w).tasks == w.tasks
  {
  }

  function ToHear(h: History): int {
    if h.stage.Answering? then |AnswerFrames(h.context, h.stage.answer)| - h.stage.heard else 0
  }

  lemma LeadsReceive(w: World, maxInFlight: nat, fits: TextCap)
    ensures Leads(w, [Receive], OnReceive(w), maxInFlight, fits)
  {
    LeadsOneStep(w, Receive, maxInFlight, fits);
  }

  lemma {:induction false} HearsUp(w: World, h: History, maxInFlight: nat, fits: TextCap)
    returns (es: seq<Step>, u: World, g: History)
    requires Inv(w, h) && w.alive && h.stage.Answering?
    ensures Leads(w, es, u, maxInFlight, fits) && Inv(u, g)
    ensures u.alive && !InExchange(u.phase)
    decreases ToHear(h)
  {
    es, u, g := [], w, h;
    LeadsNowhere(w, maxInFlight, fits);
    if InExchange(w.phase) {
      g := HearsOne(w, h);
      var v := OnReceive(w);
      LeadsReceive(w, maxInFlight, fits);
      es, u := [Receive], v;
      if InExchange(v.phase) {
        es, u, g := HearsUp(v, g, maxInFlight, fits);
        LeadsOn(w, [Receive], v, es, u, maxInFlight, fits);
        es := [Receive] + es;
      }
    }
  }

  // ---- Every run ------------------------------------------------------------------------------------

  /** The connector takes the request and answers it. */
  lemma GetsAnswered(w: World, h: History, maxInFlight: nat, fits: TextCap)
    returns (es: seq<Step>, u: World, g: History)
    requires Inv(w, h) && w.alive && w.phase.Listening? && maxInFlight > 0
    ensures Leads(w, es, u, maxInFlight, fits) && Inv(u, g)
    ensures (!u.alive || g.stage.Answering?) && StaysSmooth(w, u, fits)
  {
    es, u, g := [], w, h;
    LeadsNowhere(w, maxInFlight, fits);
    ListeningIsUnderWay(w, h);
    if h.stage.Uploading? {
      es, u, g := TakesUp(w, h, maxInFlight, fits);
    }
    if u.alive && g.stage.Working? {
      var fs, v := es, u;
      es, u, g := WorksUp(v, g, maxInFlight, fits);
      LeadsOn(w, fs, v, es, u, maxInFlight, fits);
      es := fs + es;
    }
  }

  lemma ListeningIsUnderWay(w: World, h: History)
    requires Inv(w, h) && w.phase.Listening?
    ensures h.stage != AtRest
  {
  }

  lemma GoesOn(w: World, h: History, maxInFlight: nat, fits: TextCap) returns (es: seq<Step>, u: World)
    requires Inv(w, h) && w.alive && maxInFlight > 0
    ensures Leads(w, es, u, maxInFlight, fits) && Settled(u) && (Smooth(w, fits) ==> u.alive)
  {
    var g;
    es, u, g := SendsUp(w, h, maxInFlight, fits);
    if InExchange(u.phase) {
      var fs, v := es, u;
      es, u, g := GetsAnswered(v, g, maxInFlight, fits);
      LeadsOn(w, fs, v, es, u, maxInFlight, fits);
      es := fs + es;
      if u.alive {
        fs, v := es, u;
        es, u, g := HearsUp(v, g, maxInFlight, fits);
        LeadsOn(w, fs, v, es, u, maxInFlight, fits);
        es := fs + es;
      }
    }
  }

  /** From every reachable state of an exchange with a live connector there is a run without any
      failure from outside that ends the exchange or in which the connector stops by itself; and it
      does not stop if it can read every control frame and no upstream answer with an illegal head
      awaits it. */
  lemma NeverStuck(past: seq<Step>, maxInFlight: nat, fits: TextCap) returns (es: seq<Step>)
    requires maxInFlight > 0
    requires var w := Play(past, maxInFlight, fits); InExchange(w.phase) && w.alive
    ensures forall e :: e in es ==> Voluntary(e)
    ensures var w := Play(past, maxInFlight, fits);
            var v := PlayFrom(w, es, maxInFlight, fits);
            (!InExchange(v.phase) || !v.alive) && (Smooth(w, fits) ==> !InExchange(v.phase) && v.alive)
  {
    var w := Play(past, maxInFlight, fits);
    var h := InvInRun(past, maxInFlight, fits);
    var u;
    es, u := GoesOn(w, h, maxInFlight, fits);
  }
}
