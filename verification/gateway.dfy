/** The `/transcribe` HTTP handler: token check, then job submission on POST
    and status query on GET. Requests and responses are modelled as plain
    values; the JSON bodies become the `Response` datatype. */
module Gateway {
  import opened Tasks
  import opened Auth
  import opened Store

  /** An inbound `/transcribe` request, already parsed. `authorization` is
      the `Authorization` header, absent or present. */
  datatype Request =
    | GetStatus(authorization: Option<string>, taskId: int)
    | Submit(authorization: Option<string>, taskId: int, inputAudio: Path)
    // The route admits GET and POST only; the web framework adds HEAD on its
    // own and answers OPTIONS and every other method before the handler
    // runs, so HEAD is the one other method that reaches the handler.
    | OtherMethod(authorization: Option<string>)

  /** The JSON reply: a `code` and either a `msg` or a `status` field. */
  datatype Body = Msg(msg: string) | StatusField(status: string)
  datatype Response = Response(code: int, body: Body)

  const TokenError: Response := Response(400, Msg("token error"))
  const TaskNotFound: Response := Response(400, Msg("task not found"))
  const FileNotFound: Response := Response(400, Msg("file not found"))
  const Accepted: Response := Response(200, Msg("ok"))
  const MethodError: Response := Response(400, Msg("error"))

  /** POST admission: a job whose audio file is missing is refused with no
      trace in the state; otherwise it is submitted as a fresh pending task
      (and silently ignored when the id is already registered). */
  function Admit(s: State, id: int, audio: Path, existing: set<Path>): (r: (State, Response))
    ensures audio !in existing ==> r == (s, FileNotFound)
    ensures audio in existing ==> r.1 == Accepted
    ensures audio in existing && id in s.tasks ==> r.0 == s
    ensures audio in existing && id !in s.tasks ==>
      && r.0.worker == s.worker
      && r.0.queue == s.queue + [id]
      && r.0.tasks.Keys == s.tasks.Keys + {id}
      && r.0.tasks[id] == NewTask(id, audio)
      && (forall k :: k in s.tasks ==> r.0.tasks[k] == s.tasks[k])
  {
    if audio !in existing then (s, FileNotFound)
    else (AddTask(s, NewTask(id, audio)), Accepted)
  }

  /** GET: the status of a registered task as its decimal value, consuming
      a terminal one; an unknown id is "task not found". */
  function Poll(s: State, id: int): (r: (State, Response))
    ensures r.1 == TaskNotFound <==> id !in s.tasks
    ensures id in s.tasks ==>
      r.1.code == 200 && r.1.body.StatusField? && ParseText(r.1.body.status) == Some(s.tasks[id].status)
    ensures r.0 == QueryStatus(s, id).0
  {
    var (s', st) := QueryStatus(s, id);
    if st.None? then (s', TaskNotFound)
    else
      TextRoundTrip(st.value, Text(st.value));
      (s', Response(200, StatusField(Text(st.value))))
  }

  /** The whole handler. Every request failing the token check gets
      "token error" before the state is touched. */
  function Handle(s: State, req: Request, token: string, existing: set<Path>): (r: (State, Response))
    ensures !Authorized(req.authorization, token) ==> r == (s, TokenError)
    ensures Authorized(req.authorization, token) ==>
      match req
      case GetStatus(_, id) => r == Poll(s, id)
      case Submit(_, id, audio) => r == Admit(s, id, audio, existing)
      case OtherMethod(_) => r == (s, MethodError)
    ensures r.1.code == 200 ==> Authorized(req.authorization, token)
  {
    if !Authorized(req.authorization, token) then (s, TokenError)
    else
      match req
      case GetStatus(_, id) => Poll(s, id)
      case Submit(_, id, audio) => Admit(s, id, audio, existing)
      case OtherMethod(_) => (s, MethodError)
  }
}
