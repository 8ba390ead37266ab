/** The server's shared bookkeeping: the registry of tasks by id, the FIFO
    queue of pending task ids, and the single worker that drains the queue.
    Every operation is a pure transition on an immutable `State`. */
module Store {
  import opened Tasks

  /** The transcription back-end chosen at startup by its configured name. */
  datatype Asr = Whisper | StableWhisper | WhisperX

  function AsrName(a: Asr): string {
    match a
    case Whisper => "whisper"
    case StableWhisper => "stable_whisper"
    case WhisperX => "whisperx"
  }

  /** Which back-end a configured name selects; any other name selects none. */
  function ParseAsr(name: string): (r: Option<Asr>)
    ensures r.Some? ==> AsrName(r.value) == name
    ensures r.None? <==> name != "whisper" && name != "stable_whisper" && name != "whisperx"
  {
    if name == "whisper" then Some(Whisper)
    else if name == "stable_whisper" then Some(StableWhisper)
    else if name == "whisperx" then Some(WhisperX)
    else None
  }

  lemma AsrNameRoundTrip(a: Asr)
    ensures ParseAsr(AsrName(a)) == Some(a)
  {
  }

  /** What the engine and output writer did with one job: returned normally,
      or raised. Language detection, transcription, alignment and writing
      the subtitle files are all folded into this one outcome. */
  datatype EngineOutcome = Completed | Raised

  /** The worker thread: waiting for work, holding the task it has claimed,
      or dead after an exception escaped while it held `task`. */
  datatype Worker = Idle | Busy(task: Task) | Halted(task: Task)

  datatype State = State(tasks: map<int, Task>, queue: seq<int>, worker: Worker)

  /** The state at process start. */
  const Init: State := State(map[], [], Idle)

  /** The bookkeeping invariant: every registered task is filed under its
      own id and has no language; the queue holds distinct ids, each
      registered and pending, and every pending task is queued; the only
      running task is the one the worker holds. */
  ghost predicate Inv(s: State) {
    && (forall id :: id in s.tasks ==> s.tasks[id].id == id && s.tasks[id].language == "")
    && (forall i, j :: 0 <= i < j < |s.queue| ==> s.queue[i] != s.queue[j])
    && (forall i :: 0 <= i < |s.queue| ==> s.queue[i] in s.tasks && s.tasks[s.queue[i]].status == Pending)
    && (forall id :: id in s.tasks && s.tasks[id].status == Pending ==> id in s.queue)
    && (forall id :: id in s.tasks && s.tasks[id].status == Running ==> !s.worker.Idle? && s.worker.task.id == id)
    && (!s.worker.Idle? ==> s.worker.task.id in s.tasks && s.tasks[s.worker.task.id] == s.worker.task
                            && s.worker.task.status == Running)
  }

  lemma InitInv()
    ensures Inv(Init)
  {
  }

  /** Submission: a task whose id is already registered, whatever its status,
      is ignored; otherwise it is registered and appended to the queue. */
  function AddTask(s: State, t: Task): (r: State)
    ensures r.worker == s.worker
    ensures r.tasks.Keys == s.tasks.Keys + {t.id}
    ensures forall id :: id in s.tasks ==> r.tasks[id] == s.tasks[id]
    ensures t.id in s.tasks ==> r.queue == s.queue
    ensures t.id !in s.tasks ==> r.tasks[t.id] == t && r.queue == s.queue + [t.id]
  {
    if t.id in s.tasks then s
    else s.(tasks := s.tasks[t.id := t], queue := s.queue + [t.id])
  }

  /** Status query: reports the status of a registered task, and deletes the
      task when that status is terminal, so a terminal status is read once. */
  function QueryStatus(s: State, id: int): (r: (State, Option<Status>))
    ensures r.1.None? <==> id !in s.tasks
    ensures id in s.tasks ==> r.1 == Some(s.tasks[id].status)
    ensures r.0.queue == s.queue && r.0.worker == s.worker
    ensures r.0.tasks.Keys == if r.1.Some? && Terminal(r.1.value) then s.tasks.Keys - {id} else s.tasks.Keys
    ensures forall k :: k in r.0.tasks ==> r.0.tasks[k] == s.tasks[k]
  {
    if id !in s.tasks then (s, None)
    else
      var st := s.tasks[id].status;
      if Terminal(st) then (s.(tasks := s.tasks - {id}), Some(st))
      else (s, Some(st))
  }

  /** First half of a worker iteration: an idle worker with a non-empty
      queue takes the head, marks it running and holds it. An empty queue
      (the worker sleeps and polls again), a busy or a dead worker changes
      nothing. A head id missing from the registry is dropped. */
  function Claim(s: State): (r: State)
    ensures !s.worker.Idle? || |s.queue| == 0 ==> r == s
    ensures s.worker.Idle? && |s.queue| > 0 ==> r.queue == s.queue[1..]
    ensures s.worker.Idle? && |s.queue| > 0 && s.queue[0] in s.tasks ==>
      var head := s.tasks[s.queue[0]];
      && r.worker == Busy(head.(status := Running))
      && r.tasks == s.tasks[s.queue[0] := head.(status := Running)]
    ensures s.worker.Idle? && |s.queue| > 0 && s.queue[0] !in s.tasks ==>
      r.tasks == s.tasks && r.worker == s.worker
  {
    if !s.worker.Idle? || |s.queue| == 0 then s
    else
      var id := s.queue[0];
      if id !in s.tasks then s.(queue := s.queue[1..])
      else
        var t := s.tasks[id].(status := Running);
        State(s.tasks[id := t], s.queue[1..], Busy(t))
  }

  /** Second half of a worker iteration, for the task the worker holds. A
      missing audio file makes it `Error`. Otherwise the engine runs with the
      resolved language; when it returns and the configured back-end is
      known the task is `Finished`. An exception, including the one raised
      for an unknown back-end, ends the worker thread and leaves the task
      `Running`. `existing` is the set of paths present on disk. */
  function Finish(s: State, existing: set<Path>, asr: string, detect: Path -> string,
                  engine: (Path, string) -> EngineOutcome): (r: State)
    ensures !s.worker.Busy? ==> r == s
    ensures r.queue == s.queue
    ensures s.worker.Busy? ==>
      var t := s.worker.task;
      && (forall k :: k in s.tasks && k != t.id ==> k in r.tasks && r.tasks[k] == s.tasks[k])
      && r.tasks.Keys <= s.tasks.Keys + {t.id}
      && (t.audio !in existing ==>
            r.worker == Idle && t.id in r.tasks && r.tasks[t.id] == t.(status := Error))
      && (t.audio in existing && engine(t.audio, ResolveLanguage(t, detect)) == Completed && ParseAsr(asr).Some? ==>
            r.worker == Idle && t.id in r.tasks && r.tasks[t.id] == t.(status := Finished))
      && (t.audio in existing && (engine(t.audio, ResolveLanguage(t, detect)) == Raised || ParseAsr(asr).None?) ==>
            r.worker == Halted(t) && r.tasks == s.tasks)
  {
    match s.worker
    case Busy(t) =>
      if t.audio !in existing then
        s.(tasks := s.tasks[t.id := t.(status := Error)], worker := Idle)
      else if engine(t.audio, ResolveLanguage(t, detect)) == Raised then
        s.(worker := Halted(t))
      else if ParseAsr(asr).None? then
        s.(worker := Halted(t))
      else
        s.(tasks := s.tasks[t.id := t.(status := Finished)], worker := Idle)
    case _ => s
  }
}
