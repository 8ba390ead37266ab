/** The task entity of the transcription server: its status enumeration, the
    status encoding sent to clients, and the task record itself. */
module Tasks {

  datatype Option<+T> = None | Some(value: T)

  /** A filesystem path, as the server receives it in a request body. */
  type Path = string

  /** The four states of a transcription job, in lifecycle order. */
  datatype Status = Pending | Running | Finished | Error

  /** The enumeration value of a status: 1 to 4 in lifecycle order. */
  function Code(st: Status): (n: int)
    ensures 1 <= n <= 4
    ensures st == Pending <==> n == 1
    ensures st == Running <==> n == 2
    ensures st == Finished <==> n == 3
    ensures st == Error <==> n == 4
  {
    match st
    case Pending => 1
    case Running => 2
    case Finished => 3
    case Error => 4
  }

  /** Inverse of `Code`: the status with a given enumeration value, if any. */
  function FromCode(n: int): (r: Option<Status>)
    ensures r.Some? <==> 1 <= n <= 4
  {
    if n == 1 then Some(Pending)
    else if n == 2 then Some(Running)
    else if n == 3 then Some(Finished)
    else if n == 4 then Some(Error)
    else None
  }

  lemma CodeRoundTrip(st: Status, n: int)
    ensures FromCode(Code(st)) == Some(st)
    ensures FromCode(n) == Some(st) <==> n == Code(st)
  {
  }

  /** The decimal rendering of the status value that a status query returns.
      All four values are single digits. */
  function Text(st: Status): (t: string)
    ensures |t| == 1 && '1' <= t[0] <= '4'
  {
    [('0' as int + Code(st)) as char]
  }

  /** How a client reads the status field back. */
  function ParseText(t: string): (r: Option<Status>)
    ensures r.Some? ==> |t| == 1
  {
    if |t| == 1 && '0' <= t[0] <= '9' then FromCode(t[0] as int - '0' as int) else None
  }

  /** The status text is decoded back to the status, and it is the only text that is. */
  lemma TextRoundTrip(st: Status, t: string)
    ensures ParseText(Text(st)) == Some(st)
    ensures ParseText(t) == Some(st) <==> t == Text(st)
  {
    if ParseText(t) == Some(st) {
      assert t == [t[0]];
    }
  }

  /** A status after which the task no longer changes and is deleted on its
      first read: anything that is neither pending nor running. */
  predicate Terminal(st: Status) {
    st != Pending && st != Running
  }

  /** One allowed move of the lifecycle: stay put, pending to running, or
      running to finished or error. */
  predicate Advance(before: Status, after: Status) {
    || before == after
    || (before == Pending && after == Running)
    || (before == Running && Terminal(after))
  }

  /** The codes follow the lifecycle: an allowed move never lowers the code. */
  lemma AdvanceRaisesCode(before: Status, after: Status)
    requires Advance(before, after)
    ensures Code(before) <= Code(after)
  {
  }

  /** One submitted transcription job. */
  datatype Task = Task(id: int, audio: Path, status: Status, language: string)

  /** A job as a submission creates it: pending, with no language chosen. */
  function NewTask(id: int, audio: Path): (t: Task)
    ensures t.id == id && t.audio == audio
    ensures t.status == Pending && t.language == ""
  {
    Task(id, audio, Pending, "")
  }

  /** The language handed to the transcription engine: the detector's answer
      when the task carries none, the task's own language otherwise. */
  function ResolveLanguage(t: Task, detect: Path -> string): (lang: string)
    ensures lang == "" ==> t.language == "" || detect(t.audio) == ""
    ensures t.language != "" ==> lang == t.language
  {
    if t.language == "" then detect(t.audio) else t.language
  }
}
