# Task bookkeeping of whisper-server, in Dafny

whisper-server is a small HTTP service. Clients submit audio-transcription
jobs and poll their status. One background thread processes the jobs one at
a time. This project models the bookkeeping behind that:

- the task registry, a map from task id to task;
- the FIFO queue of pending tasks;
- the submission rule, which suppresses duplicates;
- the status query, which deletes a task on its first terminal read;
- one iteration of the worker loop;
- the bearer-token check and the GET/POST branching of the `/transcribe` handler.

Each operation is a pure transition on an immutable `State`:
`State(tasks: map<int, Task>, queue: seq<int>, worker: Worker)`.

Modules, leaves first:

- `Tasks` (`tasks.dfy`): the status enumeration and its codes 1..4, the decimal
  text a query returns, and the task record as a submission creates it.
- `Strings` (`strings.dfy`): Python's `str.split(s, " ")` on an explicit
  separator. It is proved to be the inverse of joining.
- `Auth` (`auth.dfy`): the token check and a characterisation of the headers it accepts.
- `Store` (`store.dfy`): the state, the invariant, and the four transitions
  `AddTask`, `QueryStatus`, `Claim` and `Finish`.
- `Gateway` (`gateway.dfy`): the `/transcribe` handler with request and response values.
- `Server` (`server.dfy`): all events as one state machine. It holds the lemmas
  for the invariant, the lifecycle order, FIFO dispatch, the consume-once read,
  and the fate of a crashed worker.

The worker iteration is split into two atomic steps. `Claim` takes the queue
head and marks it running. `Finish` runs the job and records the result. The
state in between is observable: a status query made while the engine runs
sees the task as running.

Outside facts are parameters:

- file existence is a set of existing paths, given to each step that looks at the disk;
- language detection is a function from path to language;
- the engine is a function from path and language to an outcome, `Completed` or `Raised`;
- the configured token and back-end name form a `Config`.

Four behaviours of the code are worth spelling out:

- **Worker crashes.** One might expect an engine failure to mark the task
  `Error`. The worker loop at main.py:155-230 has no exception handler, so a
  missing file is the only failure that yields `Error`. Any exception from
  detection, transcription, alignment or a writer kills the thread and
  leaves its task `Running` for ever. `Finish` moves the worker to
  `Halted`, and `Server.HaltedForever` proves that nothing is ever claimed
  again.
- **Unknown back-end.** The worker raises for an unknown back-end name at
  main.py:223, and `Finish` models that branch as a crash. The branch cannot
  be reached in the running program: startup raises for any other name at
  main.py:293-300, before the worker thread exists.
- **Token split.** The header is split on every single space (main.py:96),
  not on runs of whitespace. Two consecutive spaces give three pieces, so
  the header is refused.
- **Queue of ids.** The code's queue holds the task object itself. The model
  queues ids, so `Claim` drops an unregistered head;
  `Server.ClaimHeadRegistered` proves this never happens in a reachable state.

## Model

| member | source | states |
|---|---|---|
| Tasks.Code | main.py:23-27 | status values run 1..4 in lifecycle order: pending 1, running 2, finished 3, error 4 |
| Tasks.AdvanceRaisesCode | main.py:23-27 | an allowed lifecycle move never lowers the status value |
| Tasks.Text | main.py:112 | the status a query returns, `str(value)`, is a single digit from "1" to "4" |
| Tasks.NewTask | main.py:78-82 | a new task carries the submitted id and path, is pending, and has an empty language |
| Tasks.CodeRoundTrip | main.py:23-27 | the code is injective: each status has exactly one code, and decoding it gives the status back |
| Tasks.TextRoundTrip | main.py:112 | `str(value)` of a status is one digit between "1" and "4"; it decodes to that status, and no other text does |
| Tasks.ResolveLanguage | main.py:180-192 | a task that carries a language is transcribed in it; an empty result comes only from an empty task language or an empty detector answer |
| Strings.Split | main.py:96 | splitting on a single character always gives at least one piece, no piece contains the separator, and there is exactly one piece when the string holds no separator |
| Strings.JoinSplit | main.py:96 | splitting loses nothing: joining the pieces with the separator restores the header |
| Strings.SplitJoin | main.py:96 | splitting inverts joining whenever no piece contains the separator |
| Strings.SplitNoSeparator | main.py:96 | a string with no separator is one piece |
| Strings.SplitAfterPiece | main.py:96 | a separator-free prefix followed by the separator becomes the first piece, and the rest splits on its own |
| Auth.Authorized | main.py:92-102 | a missing header is refused, and an accepted header contains a space |
| Auth.AuthorizedIff | main.py:92-102 | the check accepts exactly the present headers of the form space-free scheme word, one space, token; so a missing or empty header, the wrong piece count and a wrong token are all refused |
| Auth.AuthorizedOneSpace | main.py:92-102 | an accepted header holds exactly one space, just before the token, and the scheme word is never checked |
| Store.ParseAsr | main.py:198-223 | exactly the three names "whisper", "stable_whisper" and "whisperx" select a back-end, each its own; any other name selects none |
| Store.AsrNameRoundTrip | main.py:31-34 | each of the three back-end names selects its own back-end |
| Store.InitInv | main.py:59-61 | the empty registry and empty queue at startup satisfy the bookkeeping invariant |
| Store.AddTask | main.py:129-137 | a registered id, whatever its status, leaves registry and queue unchanged; a new id is registered as given and appended at the queue's tail; existing entries and the worker are untouched |
| Store.QueryStatus | main.py:141-151 | an unknown id gives none and changes nothing; a registered id gives its status; a terminal status removes exactly that id, a pending or running one removes nothing |
| Store.Claim | main.py:158-169 | an empty queue or a busy or dead worker changes nothing; otherwise exactly the head leaves the queue, its registry entry becomes running with every other field kept, and the worker holds that entry; all other tasks and the rest of the queue are unchanged |
| Store.Finish | main.py:173-230 | a missing file makes the held task `Error`; a completed run with a known back-end makes it `Finished`; an exception halts the worker and leaves the task running; the queue and all other tasks are unchanged |
| Gateway.Admit | main.py:119-123 | a missing audio file gives 400 "file not found" with the state unchanged; otherwise 200 "ok", and a new id is registered as a fresh task (the submitted id and path, pending, empty language) at the queue's tail while a duplicate changes nothing |
| Gateway.Poll | main.py:104-112 | an unknown id gives 400 "task not found"; a registered one gives 200 with a status text that decodes to its status |
| Gateway.Handle | main.py:91-125 | a request failing the token check gets 400 "token error" with the state unchanged; 200 only follows a passed check; a passed check dispatches GET to the query, POST to admission, and any other method to 400 "error" |
| Server.AddTaskInv | main.py:129-137 | submitting a new pending task keeps the invariant |
| Server.QueryStatusInv | main.py:141-151 | a status query, including the terminal delete, keeps the invariant |
| Server.ClaimInv | main.py:160-169 | taking the queue head keeps the invariant |
| Server.FinishInv | main.py:173-230 | finishing, failing or crashing keeps the invariant |
| Server.HandleInv | main.py:91-125 | every handler invocation keeps the invariant |
| Server.NextInv | main.py:129-230 | every event keeps the invariant: queued ids are distinct, registered and pending; every pending task is queued; the only running task is the worker's |
| Server.RunInv | main.py:129-230 | the invariant holds after any sequence of events |
| Server.ClaimHeadRegistered | main.py:165-169 | in a reachable state the queue head is registered and pending |
| Server.EngineGetsDetectedLanguage | main.py:82 | since every task is created with an empty language, the engine always receives the detector's language for the file |
| Server.NextEvolves | main.py:129-230 | statuses move only pending to running to finished or error; new tasks appear pending; only terminal tasks disappear; id, file and language never change |
| Server.HaltedForever | main.py:155-230 | after an exception kills the worker, no event revives it, and its task stays registered and running for ever |
| Server.NextFifo | main.py:137 | in one step, what leaves the queue followed by the new queue equals the old queue followed by what joined |
| Server.RunFifo | main.py:165 | over any run, the ids the worker takes followed by those still queued equal the ids queued at the start followed by the accepted submissions of ids not already registered, in order; a duplicate, though answered "ok", joins nothing |
| Server.AbsentUntilResubmitted | main.py:95-150 | an id missing from the registry stays missing until a submission of it is accepted; a submission refused for its token or a missing file leaves it missing |
| Server.ConsumeOnce | main.py:147-151 | the first query of a terminal task returns its status; every later query returns none until a submission of the id is accepted |
| Server.QueryNonTerminalChangesNothing | main.py:144-151 | querying an unknown, pending or running id leaves the whole state unchanged |
| Server.SubmitThenPoll | main.py:81 | right after an accepted submission of a new id, a poll returns 200 with status "1" |

## Left out

- Flask transport, JSON parsing and `jsonify`. Requests arrive as parsed values and responses are a small datatype. The route admits GET and POST (main.py:90); Flask answers OPTIONS and other methods itself, so `OtherMethod` stands for HEAD, the one other method that reaches the else-branch at main.py:124-125.
- Parsing the `task_id` query parameter with `int(...)`. A missing or non-numeric value raises inside the framework; the model takes an integer.
- The type of the JSON `task_id` on POST. Python would key the registry by whatever JSON value arrives, for example the string `"1"`; the model assumes an integer.
- Threads, the one-second poll sleep, and the unsynchronised shared globals. Each handler call and each half of a worker iteration is one atomic step; interleavings inside a step are not modelled.
- `detect_language`, `g_model.transcribe`, whisperx alignment, the output writers and `whisperx_write_srt`. They are foreign calls over audio and floats. Their combined effect is the `EngineOutcome` parameter, and the detector is a function parameter.
- `Path(...).exists()`, `Path.stem`/`parent` and the output path construction (main.py:196-197). File existence is a set of paths; output files are not modelled.
- Logging, the `/` liveness route, argparse, device selection and model loading (main.py:37-53, 85-87, 279-311). The one exception is the back-end name: `Finish` looks at it because the worker's unknown-back-end branch raises.
- Tasks.ResolveLanguage: its contract states the picked language only when the task carries one. That the detector's answer is used for every task is stated by `Server.EngineGetsDetectedLanguage`.
- Auth.Authorized: its own contract states only that a missing header is refused and an accepted header holds a space. The exact set of accepted headers is stated by `Auth.AuthorizedIff`.
