# Task registry of workmate-task, modelled in Dafny

The repository runs submitted payloads as asynchronous tasks. A client submits a payload and gets a task id back at once. It then polls with that id. The task manager keeps a map from id to task. Each task moves from pending to running to finished, and its result `"result"` is set together with the finished status. A fetch that sees a task finished still returns it and removes it from the map. When each manager method runs as one atomic step, as in this model, a finished task is therefore observed once, and after that the id is not found. Under real concurrency `tasks/tasks.go` can break this (see "## Left out").

The repository holds two versions of this manager: `tasks/tasks.go` (used by the service) and an older, standalone `task/task.go`. Both are modelled as classes over the same abstract contract:

- `registry.dfy`, module `Registry`: the contract as values. It holds the status enumeration, the task record and the consistency invariant (a task has a result exactly when it is finished). It defines one task's lifecycle steps and the map-level operations create, start, finish, lookup and reap. A trace model (`Event`, `World`, `Step`, `Run`) covers every interleaving of submissions, run steps and fetches. Its lemmas show that a finished task is seen at most once, that reported statuses never go back, and that every reported task is consistent.
- `tasks.dfy`, module `Tasks`: `tasks/tasks.go`. `Task` is the source's `task` object with `status` and `result` updated in place. `TaskManager` holds `tasks: map<string, Task>`. Each manager method is proved against the `Registry` functions through the ghost view `Contents()`.
- `task.dfy`, module `Task`: `task/task.go`, modelled the same way. It has exported fields, `NewTask` instead of `CreateTask`, and `GetTaskResult` returns a `Task` value (`TaskValue`).

Modelling decisions:

- Every method is one atomic step. A task's `run` is split into two steps, `Start` (pending to running) and `Finish` (running to finished with the result). Fetches may interleave between them. Both steps are reached through the manager by id. This is sound because a task whose run has not finished is never reaped, so it is always in the map.
- `Start` requires a pending task and `Finish` a running one. This is the protocol of the goroutine that `CreateTask`/`NewTask` launches: it calls `run` once, and `run` goes through the two steps once, in order.
- The id that `uuid.New()` draws is a method parameter. The method requires it to be fresh with respect to the ghost set `issued` of every id the manager has handed out, so reaped ids are never reused.
- In Go the status is a string that only ever holds `"pending"`, `"running"` or `"finished"`. The model stores it as an enumeration. Snapshots carry the string (`Status.Name()`), so the zero snapshot's empty status `""` is expressible.
- Byte slices are `seq<byte>`. A nil slice and an empty slice are both `[]`, so "no result" is `[]`.
- Go returns a pair (value, error). The model returns `(res, err: Option<Error>)`. On a missing id it returns the zero value and `Some(TaskNotFound)`, whose message is `"task not found"`.
- `tasks/tasks_test.go` checks the snapshot's field as `task.Id`, but `TaskResult` declares `ID`. The model follows `TaskResult`.
- There is no Failed status because the source has none.
- `task/task.go`'s `GetTaskResult` aborts on every fetch of a finished task (see "## Findings"). `Task.TaskManager.GetTaskResult` models the intended behaviour, which is what `tasks/tasks.go` does. `Task.TaskManager.GetTaskResultAsWritten` models the code as written.

## Model

| member | source | states |
|---|---|---|
| `Registry.Status.Name` | tasks/tasks.go:17-21 | the three statuses are reported as exactly "pending", "running" and "finished", each non-empty; the same constants are at task/task.go:11-15 |
| `Registry.NameInjective` | task/task.go:11-15 | distinct statuses have distinct names, so a snapshot's status string determines the status |
| `Registry.Error.Message` | tasks/tasks.go:11-12 | the not-found error's text is "task not found", as in task/task.go:67 |
| `Registry.NewRec` | tasks/tasks.go:51-57 | a new task has the given id and payload, is pending, has no result, and is consistent |
| `Registry.Started` | tasks/tasks.go:119-120 | starting moves status forward by exactly one step (pending to running) and keeps id, payload, result and consistency |
| `Registry.Completed` | tasks/tasks.go:81-86 | finishing moves status forward by exactly one step (running to finished), keeps id and payload, and sets the result to "result", so the task stays consistent |
| `Registry.Create` | tasks/tasks.go:96-116 | the new map has exactly one more key, `id`, holding a pending task with the payload and no result; every other entry is unchanged; the key-equals-id and consistency invariant is preserved |
| `Registry.Start` | tasks/tasks.go:60-64 | same keys; task `id` becomes running with the same id, payload and result; every other entry unchanged; invariant preserved |
| `Registry.Finish` | tasks/tasks.go:119-126 | same keys; task `id` becomes finished with result "result" and the same id and payload; every other entry unchanged; invariant preserved |
| `Registry.Lookup` | tasks/tasks.go:129-139 | found exactly when the id is a key, and then the stored task; otherwise TaskNotFound; under the invariant a found task carries the id asked for and is consistent |
| `Registry.Reap` | tasks/tasks.go:141-146 | a finished task's entry, and only that entry, is removed; otherwise the map is unchanged; nothing else changes; invariant preserved |
| `Registry.FetchAfterCreate` | tasks/tasks_test.go:9-23 | right after a create, the fetch returns the task with the same id, pending, the same payload and no result, and leaves the map as it was |
| `Registry.FetchUnknown` | tasks/tasks.go:133-139 | an id that is not stored yields TaskNotFound and the map is unchanged |
| `Registry.FetchFinishedOnce` | tasks/tasks.go:142-147 | the fetch that sees a finished task still returns it, removes exactly that entry, and the next fetch of the id yields TaskNotFound |
| `Registry.Step` | tasks/tasks.go:96-147 | each atomic step (submit, run start, run finish, fetch) preserves the invariant and the issued-ids bound; only a fetch produces an observation |
| `Registry.FinishedSeenAtMostOnce` | tasks/tasks.go:141-147 | over any sequence of steps from a valid world, at most one fetch reports an id as finished, and none does once the id has been reaped |
| `Registry.FinishedSeenAtMostOnceFromStart` | tasks/tasks.go:89-93 | from a new, empty manager, every id is reported finished at most once over any trace |
| `Registry.StepFloor` | tasks/tasks.go:119-126 | one step never lowers an id's status unless it reaps the id, and a status it reports lies between the old and the new one |
| `Registry.StatusNeverRegresses` | tasks/tasks.go:119-126 | over any sequence of steps, the statuses fetched for one id never go back and are never below its current status; a reaped id is never reported again |
| `Registry.StatusNeverRegressesFromStart` | tasks/tasks.go:89-93 | from a new manager, the statuses fetched for any id are non-decreasing in pending, running, finished order |
| `Registry.ObservationsConsistent` | tasks/tasks.go:74-86 | every task any fetch returns carries the id asked for and has a result exactly when it is finished |
| `Registry.NeverIssuedNotFound` | tasks/tasks.go:133-139 | an id never submitted is reported not found by every fetch in any trace |
| `Registry.ReapedStaysNotFound` | tasks/tasks.go:141-146 | once an id has been reaped, every later fetch of it in any trace reports TaskNotFound |
| `Registry.AfterFinishedNotFound` | tasks/tasks.go:141-147 | over any trace from a valid world, after a fetch has reported an id finished, every later fetch of that id reports TaskNotFound |
| `Registry.AfterFinishedNotFoundFromStart` | tasks/tasks.go:141-147 | the same, starting from a new, empty manager |
| `Tasks.Snapshot` | tasks/tasks.go:74-78 | the snapshot carries the task's id, payload and result and its non-empty status name; a consistent task's snapshot has a result exactly when its status is "finished" |
| `Tasks.Task.constructor` | tasks/tasks.go:51-57 | newTask: a pending task with the payload and no result |
| `Tasks.Task.SetStatus` | tasks/tasks.go:60-64 | only the status changes, to the given one |
| `Tasks.Task.GetStatus` | tasks/tasks.go:67-71 | returns the current status and changes nothing |
| `Tasks.Task.GetTaskResult` | tasks/tasks.go:74-78 | returns the snapshot of the current fields and changes nothing |
| `Tasks.Task.FinishWithResult` | tasks/tasks.go:81-86 | status finished and result set in the same step; nothing else changes |
| `Tasks.Task.RunStart` | tasks/tasks.go:119-120 | pending becomes running, as `Registry.Started`; consistency kept |
| `Tasks.Task.RunFinish` | tasks/tasks.go:122-125 | running becomes finished with result "result", as `Registry.Completed`; consistency kept |
| `Tasks.TaskManager.ValidMeansInv` | tasks/tasks.go:100-105 | the manager's invariant gives the registry invariant: every key is its task's id and every task is consistent |
| `Tasks.TaskManager.constructor` | tasks/tasks.go:89-93 | NewTaskManager: an empty map, no ids issued |
| `Tasks.TaskManager.CreateTask` | tasks/tasks.go:96-116 | returns the fresh id; the map becomes `Registry.Create` of the old one; existing task objects stay in place; invariant kept |
| `Tasks.TaskManager.Start` | tasks/tasks.go:108-120 | the map becomes `Registry.Start` of the old one; invariant kept |
| `Tasks.TaskManager.Finish` | tasks/tasks.go:122-126 | the map becomes `Registry.Finish` of the old one; invariant kept |
| `Tasks.TaskManager.GetTaskResult` | tasks/tasks.go:129-148 | a missing id gives the zero TaskResult and TaskNotFound; otherwise the stored task's snapshot and no error; the map becomes `Registry.Reap` of the old one |
| `Tasks.CreateThenFetch` | tasks/tasks_test.go:9-23 | on a new manager, fetching the task just created succeeds with the same id, a non-empty status, the same payload and no result |
| `Tasks.Lifecycle` | tasks/tasks.go:96-148 | create, fetch (pending, no result), run, fetch (finished, "result"), fetch (not found) |
| `Task.Copy` | task/task.go:75-77 | the copy carries the task's Id, Payload and Result and its non-empty status name; a consistent task's copy has a Result exactly when its Status is "finished" |
| `Task.Task.constructor` | task/task.go:40-44 | the stored Task literal: pending, the payload, no result |
| `Task.Task.RunStart` | task/task.go:51-53 | pending becomes running, as `Registry.Started`; consistency kept |
| `Task.Task.RunFinish` | task/task.go:56-59 | Status finished and Result "result" together, as `Registry.Completed`; consistency kept |
| `Task.TaskManager.ValidMeansInv` | task/task.go:40-45 | the manager's invariant gives the registry invariant: every key is its task's Id and every task is consistent |
| `Task.TaskManager.constructor` | task/task.go:30-34 | NewTaskManager: an empty map, no ids issued |
| `Task.TaskManager.NewTask` | task/task.go:35-48 | returns the fresh id; the map becomes `Registry.Create` of the old one; existing task objects stay in place; invariant kept |
| `Task.TaskManager.Start` | task/task.go:49-53 | the map becomes `Registry.Start` of the old one; invariant kept |
| `Task.TaskManager.Finish` | task/task.go:54-60 | the map becomes `Registry.Finish` of the old one; invariant kept |
| `Task.TaskManager.GetTaskResult` | task/task.go:62-78 | a missing id gives the zero Task and "task not found"; otherwise a copy of the stored task and no error; the map becomes `Registry.Reap` of the old one |
| `Task.TaskManager.GetTaskResultAsWritten` | task/task.go:62-78 | as written, with the read-lock count explicit: the fetch ends in the fatal "sync: RUnlock of unlocked RWMutex" exactly when the task is stored and finished (after deleting it); otherwise it ends as `GetTaskResult` |
| `Task.FinishedFetchAborts` | task/task.go:62-78 | as written, fetching a task whose run has completed always aborts |
| `Task.Lifecycle` | task/task.go:35-78 | create, fetch (pending), run start, fetch (running), run finish, fetch (finished, "result"), fetch (not found) |

## Left out

- Goroutines, `sync.RWMutex`/`sync.Mutex` and `sync.WaitGroup` are not modelled: every method is one atomic step. So the model cannot show the race in `tasks/tasks.go:142-147`, where the status is read and the snapshot taken under separate locks. If a run finishes in between, the fetch returns a finished snapshot without reaping it, and the next fetch reports the same task finished again. In the source that breaks what `Registry.FinishedSeenAtMostOnce` and `Registry.AfterFinishedNotFound` prove of the atomic model.
- The data race in `task/task.go:69`, where `GetTaskResult` reads `Status` without the task's lock, is not modelled.
- Task.TaskManager.GetTaskResult: on a stored finished task it returns the copy and removes the entry. In the source as written, that fetch deletes the entry and then aborts the process, because the read lock is released twice (task/task.go:64 and :70). `Task.TaskManager.GetTaskResultAsWritten` models that outcome.
- Task.Lifecycle: its third fetch (finished, "result") and fourth fetch (not found) are the intended behaviour. In the source as written the process aborts at the third fetch, as `Task.FinishedFetchAborts` shows.
- `Stop` (`tasks/tasks.go:151-153`) only waits on the wait group. A sequential model has nothing to wait for. Its effect, that every launched run reaches finished, corresponds to calling `Start` and `Finish` for each task.
- The three-minute `time.Sleep` inside `run` is not modelled. It only marks where the work happens, between `Start` and `Finish`.
- Id generation with `uuid.New()` is random and not modelled. The id is a parameter required to be fresh. The uuid format check in `tasks/tasks_test.go:14` is not modelled.
- The HTTP adapter (`api/api.go`), process wiring (`cmd/main.go`), the test double (`tasks/tasks_mock.go`) and the HTTP tests (`api/api_test.go`) are not part of this model.
- In Go, the snapshot's `Payload` and `Result` share the task's byte slices and are not deep copies. The model cannot show this because no code ever changes a slice's contents after creation.
- `Registry.Run`: an event that cannot occur in the current world is skipped. Examples are a submit that reuses an id, or a run step that is out of order. The source's goroutine protocol never produces such events.

## Findings

| source | as written | input that shows it | evidently intended | confidence | as-written member | corrected member |
|---|---|---|---|---|---|---|
| task/task.go:62-78 | on the finished path the manager's read lock is released at line 70, then again by the deferred release from line 64; Go's `RUnlock` of an unlocked `RWMutex` is fatal | `NewTask(p)`, its run completes, then `GetTaskResult(id)` | return the copy of the finished task and remove it, as tasks/tasks.go:141-147 does | high (not executed) | `Task.TaskManager.GetTaskResultAsWritten`, `Task.FinishedFetchAborts` | `Task.TaskManager.GetTaskResult` |
