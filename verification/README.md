# Task registry of the browser-test service

The service accepts a caller-chosen task id, records it as `pending` in an
in-memory registry (a module-level dictionary from task id to an entry
dictionary) and adds a browser-automation job to the `background_tasks`
argument the web framework passes to that call; a second endpoint reports a
task's status. This project
models that registry and its two route handlers:

- `registry.dfy`, module `Registry`: the values (`Entry`, `Reply`, `Job`), the
  fixed strings (`"pending"`, `"Task ID Already exists"`, the hard-coded video
  URL), a pure specification `Submit` of one submission, the invariants
  `AllPending` (every entry is pending) and `OneJobPerTask` (the logged jobs
  name exactly the registered ids, each once, each with the fixed URL), and
  lemmas about them.
- `server.dfy`, module `Server`: class `TaskServer`, whose field `tasks` is
  the module-level registry and whose field `scheduled` is the log of jobs
  added to each call's `background_tasks` argument, oldest first (each submit
  call receives its own job list; the log keeps them all, and only the submit
  handler sees it). `StartTest` is the submit handler as a method that updates
  both fields, proved against `Registry.Submit`; `GetResult` is the result
  handler as a function reading the registry.

The submit handler only ever writes `{"status": "pending"}`, and the
background job never writes the registry, so in every reachable state every
entry is pending and every query, for a submitted id or not, answers
`pending`: no line of main.py writes another status, so the non-pending
branch of the result handler is unreachable in the program as written.
`GetResult` is still stated for arbitrary entries, so that branch, which
returns the status with its `details`, is specified too.

## Model

| member | source | states |
|---|---|---|
| Registry.Submit | main.py:46-53 | A known id (any status) is rejected with `Task ID Already exists` and leaves registry and job log exactly as they were; a new id is added as `pending`, exactly one job `(id, fixed URL)` is appended, and the reply is `pending`; the reply is `pending` iff the id was new; no other entry changes; the registry grows by at most one key and the job log by exactly as many jobs as keys; all-pending is preserved |
| Registry.SubmitPreservesOneJobPerTask | main.py:48-52 | If the logged jobs name exactly the registered ids, each once and each with the fixed URL, this still holds after any submission |
| Registry.JobCountMatchesRegistry | main.py:49-52 | While one job is logged per registered id, the number of logged jobs equals the number of registered ids: one job per accepted submission, none per rejection |
| Registry.ResubmitIsRejected | main.py:49-50 | Submitting an id a second time is rejected and changes neither the registry nor the job log |
| Server.TaskServer.constructor | main.py:12 | The registry starts empty with an empty job log, which satisfies both invariants |
| Server.TaskServer.StartTest | main.py:46-53 | The new registry, job log and reply are those of `Registry.Submit` on the old state; afterwards the id is registered; an accepted id immediately reads back as `pending`; the invariants are preserved |
| Server.TaskServer.GetResult | main.py:58-62 | The reply is `pending` iff the id is unknown or its entry is pending, and then carries no details; otherwise it carries the entry's status and its details, or an empty dictionary when the entry has none |
| Server.TaskServer.ValidResultIsPending | main.py:58-62 | In every reachable state (all entries pending, as line 51 is the only write) every id, submitted or not, reads as a bare `pending` |

## Left out

- TaskServer.StartTest: the per-request `background_tasks` argument (main.py:46) is modelled as one cumulative log, the field `scheduled`; running or draining it is not modelled.
- The background job itself (main.py:15-40): launching a headless browser, navigating, clicking, answering the dialog, the 10 s and 20 s waits and the screenshot are browser and filesystem I/O through a foreign library. It never reads or writes the registry, so it is represented only by the `Job` value logged for it.
- The web framework's routing and response serialisation, and the server start-up (main.py:44-45, 56-57, 65-66): replies are modelled as `Reply` values.
- The unused imports and the `.env` loading (main.py:3-6, 9); the imports on main.py:7-8 serve only the background job, which is left out.
- Concurrency: the handlers are asynchronous but have no suspension point between the membership test and the insert, so each call is one atomic step.
- Entry: an entry is modelled with a mandatory status, as every entry the code writes has one; a stored dictionary without a `status` key (which would raise a key error) or an empty dictionary (which the handler's falsiness test would treat like a missing entry) is not representable.
- Details: the free-form `details` value is modelled as a map from strings to strings.
