/** The running server as one state machine: handler invocations and the two
    halves of a worker iteration are its events, each applied atomically.
    The lemmas here are the bookkeeping guarantees: the invariant, the
    lifecycle order, FIFO dispatch and the consume-once read. */
module Server {
  import opened Tasks
  import opened Auth
  import opened Store
  import opened Gateway

  /** Settings fixed at startup: the bearer token and the back-end name. */
  datatype Config = Config(token: string, asr: string)

  /** One atomic step. The filesystem, the language detector and the engine
      are outside facts supplied with the step that consults them. */
  datatype Event =
    | Http(req: Request, existing: set<Path>)
    | WorkerClaim
    | WorkerFinish(existing: set<Path>, detect: Path -> string, engine: (Path, string) -> EngineOutcome)

  function Next(s: State, cfg: Config, e: Event): State {
    match e
    case Http(req, existing) => Handle(s, req, cfg.token, existing).0
    case WorkerClaim => Claim(s)
    case WorkerFinish(existing, detect, engine) => Finish(s, existing, cfg.asr, detect, engine)
  }

  /** The state after a sequence of events, applied in order. */
  function Run(s: State, cfg: Config, es: seq<Event>): State
    decreases |es|
  {
    if |es| == 0 then s else Run(Next(s, cfg, es[0]), cfg, es[1..])
  }

  // ---------------------------------------------------------------------
  // The invariant

  lemma AddTaskInv(s: State, t: Task)
    requires Inv(s)
    requires t.status == Pending && t.language == ""
    ensures Inv(AddTask(s, t))
  {
    var r := AddTask(s, t);
    if t.id !in s.tasks {
      forall i, j | 0 <= i < j < |r.queue|
        ensures r.queue[i] != r.queue[j]
      {
        if j == |s.queue| {
          assert r.queue[i] == s.queue[i] && s.queue[i] in s.tasks;
        }
      }
    }
  }

  lemma QueryStatusInv(s: State, id: int)
    requires Inv(s)
    ensures Inv(QueryStatus(s, id).0)
  {
  }

  lemma ClaimInv(s: State)
    requires Inv(s)
    ensures Inv(Claim(s))
  {
    if s.worker.Idle? && |s.queue| > 0 {
      var r := Claim(s);
      var id := s.queue[0];
      forall k | k in r.tasks && r.tasks[k].status == Pending
        ensures k in r.queue
      {
        assert k in s.queue;
        var i :| 0 <= i < |s.queue| && s.queue[i] == k;
        assert i != 0;
        assert r.queue[i - 1] == k;
      }
    }
  }

  lemma FinishInv(s: State, existing: set<Path>, asr: string, detect: Path -> string,
                  engine: (Path, string) -> EngineOutcome)
    requires Inv(s)
    ensures Inv(Finish(s, existing, asr, detect, engine))
  {
  }

  lemma HandleInv(s: State, req: Request, token: string, existing: set<Path>)
    requires Inv(s)
    ensures Inv(Handle(s, req, token, existing).0)
  {
    if Authorized(req.authorization, token) {
      match req
      case GetStatus(_, id) => QueryStatusInv(s, id);
      case Submit(_, id, audio) =>
        if audio in existing {
          AddTaskInv(s, NewTask(id, audio));
        }
      case OtherMethod(_) =>
    }
  }

  /** Every event keeps the bookkeeping invariant. */
  lemma NextInv(s: State, cfg: Config, e: Event)
    requires Inv(s)
    ensures Inv(Next(s, cfg, e))
  {
    match e
    case Http(req, existing) => HandleInv(s, req, cfg.token, existing);
    case WorkerClaim => ClaimInv(s);
    case WorkerFinish(existing, detect, engine) => FinishInv(s, existing, cfg.asr, detect, engine);
  }

  /** The invariant holds after any run from a state satisfying it, in
      particular after any run from process start. */
  lemma {:induction false} RunInv(s: State, cfg: Config, es: seq<Event>)
    requires Inv(s)
    ensures Inv(Run(s, cfg, es))
    decreases |es|
  {
    if |es| > 0 {
      NextInv(s, cfg, es[0]);
      RunInv(Next(s, cfg, es[0]), cfg, es[1..]);
    }
  }

  /** In a reachable state the queue head is always registered, so the
      worker's claim never takes the drop-the-head branch. */
  lemma ClaimHeadRegistered(s: State)
    requires Inv(s)
    requires |s.queue| > 0
    ensures s.queue[0] in s.tasks && s.tasks[s.queue[0]].status == Pending
  {
  }

  /** Because every task is created without a language, the engine is always
      asked to transcribe in the detector's language. */
  lemma EngineGetsDetectedLanguage(s: State, detect: Path -> string)
    requires Inv(s)
    requires s.worker.Busy?
    ensures ResolveLanguage(s.worker.task, detect) == detect(s.worker.task.audio)
  {
  }

  // ---------------------------------------------------------------------
  // The lifecycle

  /** How the registry may change in one step: a task that stays keeps its
      id, file and language and its status makes one allowed move; a task
      that appears is pending; a task that disappears was terminal. */
  ghost predicate Evolves(s: State, s': State) {
    && (forall id :: id in s.tasks && id in s'.tasks ==>
          && s'.tasks[id].id == s.tasks[id].id
          && s'.tasks[id].audio == s.tasks[id].audio
          && s'.tasks[id].language == s.tasks[id].language
          && Advance(s.tasks[id].status, s'.tasks[id].status))
    && (forall id :: id in s'.tasks && id !in s.tasks ==> s'.tasks[id].status == Pending)
    && (forall id :: id in s.tasks && id !in s'.tasks ==> Terminal(s.tasks[id].status))
  }

  /** Statuses only move pending, running, then finished or error; only a
      terminal task is ever removed. */
  lemma NextEvolves(s: State, cfg: Config, e: Event)
    requires Inv(s)
    ensures Evolves(s, Next(s, cfg, e))
  {
    match e
    case Http(req, existing) =>
    case WorkerClaim =>
      if s.worker.Idle? && |s.queue| > 0 {
        ClaimHeadRegistered(s);
      }
    case WorkerFinish(existing, detect, engine) =>
  }

  /** Once the worker thread has died it never runs again: no later event
      claims a task, and the task it held stays running for ever. */
  lemma {:induction false} HaltedForever(s: State, cfg: Config, es: seq<Event>)
    requires Inv(s)
    requires s.worker.Halted?
    ensures Run(s, cfg, es).worker == s.worker
    ensures s.worker.task.id in Run(s, cfg, es).tasks
    ensures Run(s, cfg, es).tasks[s.worker.task.id].status == Running
    decreases |es|
  {
    if |es| > 0 {
      var s1 := Next(s, cfg, es[0]);
      NextInv(s, cfg, es[0]);
      assert s1.worker == s.worker;
      HaltedForever(s1, cfg, es[1..]);
    }
  }

  // ---------------------------------------------------------------------
  // FIFO dispatch

  /** The id a step takes off the queue, if any. */
  function Dequeued(s: State, e: Event): seq<int> {
    if e.WorkerClaim? && s.worker.Idle? && |s.queue| > 0 then [s.queue[0]] else []
  }

  /** The id a step puts on the queue, if any: an authorised submission of an
      unregistered id whose file exists. */
  function Enqueued(s: State, cfg: Config, e: Event): seq<int> {
    if && e.Http? && e.req.Submit? && Authorized(e.req.authorization, cfg.token)
       && e.req.inputAudio in e.existing && e.req.taskId !in s.tasks
    then [e.req.taskId]
    else []
  }

  function DequeuedAll(s: State, cfg: Config, es: seq<Event>): seq<int>
    decreases |es|
  {
    if |es| == 0 then [] else Dequeued(s, es[0]) + DequeuedAll(Next(s, cfg, es[0]), cfg, es[1..])
  }

  function EnqueuedAll(s: State, cfg: Config, es: seq<Event>): seq<int>
    decreases |es|
  {
    if |es| == 0 then [] else Enqueued(s, cfg, es[0]) + EnqueuedAll(Next(s, cfg, es[0]), cfg, es[1..])
  }

  /** One step: what leaves the queue, then what remains, is what was there,
      then what joined. */
  lemma NextFifo(s: State, cfg: Config, e: Event)
    ensures Dequeued(s, e) + Next(s, cfg, e).queue == s.queue + Enqueued(s, cfg, e)
  {
    match e
    case Http(req, existing) =>
    case WorkerClaim =>
      if s.worker.Idle? && |s.queue| > 0 {
        assert [s.queue[0]] + s.queue[1..] == s.queue;
      }
    case WorkerFinish(existing, detect, engine) =>
  }

  /** FIFO over any run: the ids taken by the worker, followed by the ids
      still waiting, are exactly the ids that were waiting, followed by the
      ids of accepted submissions that were not yet registered, in
      submission order. A duplicate submission is answered "ok" but joins
      nothing. From an empty queue the worker therefore takes tasks in
      exactly the order they were first registered. */
  lemma {:induction false} RunFifo(s: State, cfg: Config, es: seq<Event>)
    ensures DequeuedAll(s, cfg, es) + Run(s, cfg, es).queue == s.queue + EnqueuedAll(s, cfg, es)
    decreases |es|
  {
    if |es| > 0 {
      var s1 := Next(s, cfg, es[0]);
      NextFifo(s, cfg, es[0]);
      RunFifo(s1, cfg, es[1..]);
      var d0, e0 := Dequeued(s, es[0]), Enqueued(s, cfg, es[0]);
      var d, e := DequeuedAll(s1, cfg, es[1..]), EnqueuedAll(s1, cfg, es[1..]);
      var q := Run(s1, cfg, es[1..]).queue;
      assert DequeuedAll(s, cfg, es) == d0 + d;
      assert EnqueuedAll(s, cfg, es) == e0 + e;
      assert Run(s, cfg, es).queue == q;
      ConcatRegroup(d0, d, q, s1.queue, s.queue, e0, e);
    }
  }

  /** The sequence algebra behind `RunFifo`. */
  lemma ConcatRegroup(d0: seq<int>, d: seq<int>, q: seq<int>, q1: seq<int>, q0: seq<int>, e0: seq<int>, e: seq<int>)
    requires d + q == q1 + e
    requires d0 + q1 == q0 + e0
    ensures (d0 + d) + q == q0 + (e0 + e)
  {
    calc {
      (d0 + d) + q;
      d0 + (q1 + e);
      (q0 + e0) + e;
    }
  }

  // ---------------------------------------------------------------------
  // Consume-once status reads

  /** Whether an event is a submission of `id` that the handler accepts: it
      passes the token check and names an existing file. A refused
      submission returns before the registry is touched. */
  predicate AcceptsId(cfg: Config, e: Event, id: int) {
    && e.Http? && e.req.Submit? && e.req.taskId == id
    && Authorized(e.req.authorization, cfg.token)
    && e.req.inputAudio in e.existing
  }

  /** An id absent from the registry stays absent until a submission of it
      is accepted. */
  lemma {:induction false} AbsentUntilResubmitted(s: State, cfg: Config, es: seq<Event>, id: int)
    requires Inv(s)
    requires id !in s.tasks
    requires forall i :: 0 <= i < |es| ==> !AcceptsId(cfg, es[i], id)
    ensures id !in Run(s, cfg, es).tasks
    decreases |es|
  {
    if |es| > 0 {
      var s1 := Next(s, cfg, es[0]);
      NextInv(s, cfg, es[0]);
      assert id !in s1.tasks by {
        match es[0]
        case Http(req, existing) =>
        case WorkerClaim =>
        case WorkerFinish(existing, detect, engine) =>
      }
      assert forall i :: 0 <= i < |es[1..]| ==> !AcceptsId(cfg, es[1..][i], id) by {
        forall i | 0 <= i < |es[1..]| ensures !AcceptsId(cfg, es[1..][i], id) {
          assert es[1..][i] == es[i + 1];
        }
      }
      AbsentUntilResubmitted(s1, cfg, es[1..], id);
    }
  }

  /** A terminal status is read exactly once: the first query returns it,
      and every later query of that id, after any events none of which is an
      accepted submission of it, returns "not found". */
  lemma ConsumeOnce(s: State, cfg: Config, id: int, es: seq<Event>)
    requires Inv(s)
    requires id in s.tasks && Terminal(s.tasks[id].status)
    requires forall i :: 0 <= i < |es| ==> !AcceptsId(cfg, es[i], id)
    ensures QueryStatus(s, id).1 == Some(s.tasks[id].status)
    ensures QueryStatus(Run(QueryStatus(s, id).0, cfg, es), id).1 == None
  {
    var s1 := QueryStatus(s, id).0;
    QueryStatusInv(s, id);
    AbsentUntilResubmitted(s1, cfg, es, id);
  }

  /** A status query of a pending or running task, or of an unknown id,
      leaves the state exactly as it was. */
  lemma QueryNonTerminalChangesNothing(s: State, id: int)
    requires id !in s.tasks || !Terminal(s.tasks[id].status)
    ensures QueryStatus(s, id).0 == s
  {
    var r := QueryStatus(s, id).0;
    assert r.tasks == s.tasks;
  }

  /** Right after an accepted submission of a new id, a status query reports
      it pending, rendered as "1". */
  lemma SubmitThenPoll(s: State, cfg: Config, id: int, audio: Path, existing: set<Path>, auth: Option<string>)
    requires Authorized(auth, cfg.token)
    requires audio in existing && id !in s.tasks
    ensures var s1 := Next(s, cfg, Http(Submit(auth, id, audio), existing));
            Handle(s1, GetStatus(auth, id), cfg.token, existing).1 == Response(200, StatusField("1"))
  {
  }
}
