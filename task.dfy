/**
 * The older, standalone task manager of task/task.go.  It keeps the same
 * contract as tasks/tasks.go with exported fields and no helper methods on the
 * task: Run assigns Status, then Status and Result, directly.
 *
 * As there, locks and goroutines are not modelled and each method is one
 * atomic step; Run is the two steps RunStart and RunFinish, reached through the
 * manager by id while the task is still stored.  The id that uuid.New() would
 * draw is a parameter, fresh with respect to every id issued before.
 *
 * GetTaskResult reads Status without the task's lock; a sequential model
 * cannot show that race.  On the finished path it also releases the manager's
 * read lock twice, explicitly and then through the deferred release, which the
 * Go runtime treats as a fatal error on every such fetch.
 * GetTaskResultAsWritten models that path as written; GetTaskResult models
 * the evidently intended one (return the copy and reap), which the rest of the
 * model uses.
 */
module Task {
  import opened Registry

  /** A copy of a Task, as GetTaskResult returns it; Status is "" in the zero value. */
  datatype TaskValue = TaskValue(Id: string, Status: string, Payload: Bytes, Result: Bytes)

  /** The zero Task returned together with the "task not found" error. */
  const EmptyTask: TaskValue := TaskValue("", "", [], [])

  /** How a fetch ends as written: it returns, or the Go runtime aborts with a fatal error. */
  datatype FetchEnd = Returned(v: TaskValue, err: Option<Error>) | Fatal(msg: string)

  /** The copy of a task's fields. */
  function Copy(t: TaskRec): (v: TaskValue)
    ensures v.Id == t.id && v.Payload == t.payload && v.Result == t.result
    ensures |v.Status| > 0 && v.Status == t.status.Name()
    ensures Consistent(t) ==> (|v.Result| > 0 <==> v.Status == Finished.Name())
  {
    TaskValue(t.id, t.status.Name(), t.payload, t.result)
  }

  /** One task; Id and Payload are never reassigned. */
  class Task {
    const Id: string
    var Status: Status
    const Payload: Bytes
    var Result: Bytes

    ghost predicate Valid()
      reads this
    {
      Consistent(Rec())
    }

    /** The task's fields as a value. */
    function Rec(): TaskRec
      reads this
    {
      TaskRec(Id, Status, Payload, Result)
    }

    /** The Task literal NewTask stores: pending, holding the payload, no result. */
    constructor (id: string, payload: Bytes)
      ensures Rec() == NewRec(id, payload) && Valid()
    {
      Id := id;
      Status := Pending;
      Payload := payload;
      Result := [];
    }

    /** Run, first locked section: Status becomes running. */
    method RunStart()
      requires Valid() && Status == Pending
      modifies this
      ensures Valid() && Rec() == Started(old(Rec()))
    {
      Status := Running;
    }

    /** Run, second locked section: Status finished and Result "result", together. */
    method RunFinish()
      requires Valid() && Status == Running
      modifies this
      ensures Valid() && Rec() == Completed(old(Rec()))
    {
      Status := Finished;
      Result := WorkResult;
    }
  }

  class TaskManager {
    var tasks: map<string, Task>
    /** Every id this manager has issued, reaped ones included. */
    ghost var issued: set<string>

    ghost predicate Valid()
      reads this, tasks.Values
    {
      (forall k :: k in tasks ==> tasks[k].Id == k && tasks[k].Valid()) &&
      tasks.Keys <= issued
    }

    /** The registry's state: the fields of every stored task, by key. */
    ghost function Contents(): (m: State)
      reads this, tasks.Values
      ensures m.Keys == tasks.Keys
    {
      map k | k in tasks :: tasks[k].Rec()
    }

    /** Every key is its task's id and every stored task is consistent; no stored id is unissued. */
    lemma ValidMeansInv()
      requires Valid()
      ensures Inv(Contents()) && Contents().Keys <= issued
    {
    }

    /** NewTaskManager: no tasks. */
    constructor ()
      ensures Valid() && Contents() == map[] && issued == {}
    {
      tasks := map[];
      issued := {};
    }

    /** NewTask: stores a new pending task under `id` and returns `id`. */
    method NewTask(payload: Bytes, id: string) returns (r: string)
      requires Valid() && id !in issued
      modifies this
      ensures Valid() && r == id
      ensures Contents() == Create(old(Contents()), id, payload)
      ensures issued == old(issued) + {id}
      ensures fresh(tasks[id])
      ensures forall k :: k in old(tasks) ==> k in tasks && tasks[k] == old(tasks)[k]
    {
      var task := new Task(id, payload);
      tasks := tasks[id := task];
      issued := issued + {id};
      r := id;
    }

    /** The run of task `id` starts. */
    method Start(id: string)
      requires Valid() && id in tasks && tasks[id].Status == Pending
      modifies tasks[id]
      ensures Valid()
      ensures Contents() == Registry.Start(old(Contents()), id)
    {
      var task := tasks[id];
      task.RunStart();
      assert forall k :: k in tasks && k != id ==> tasks[k] != task;
    }

    /** The run of task `id` finishes with Result "result". */
    method Finish(id: string)
      requires Valid() && id in tasks && tasks[id].Status == Running
      modifies tasks[id]
      ensures Valid()
      ensures Contents() == Registry.Finish(old(Contents()), id)
    {
      var task := tasks[id];
      task.RunFinish();
      assert forall k :: k in tasks && k != id ==> tasks[k] != task;
    }

    /**
     * GetTaskResult: the zero Task and "task not found" for an absent id;
     * otherwise a copy of the task, and a finished task is removed.
     */
    method GetTaskResult(id: string) returns (v: TaskValue, err: Option<Error>)
      requires Valid()
      modifies this
      ensures Valid() && issued == old(issued)
      ensures Contents() == Reap(old(Contents()), id)
      ensures forall k :: k in tasks ==> k in old(tasks) && tasks[k] == old(tasks)[k]
      ensures Lookup(old(Contents()), id).Err? ==> v == EmptyTask && err == Some(TaskNotFound)
      ensures Lookup(old(Contents()), id).Ok? ==> v == Copy(Lookup(old(Contents()), id).value) && err == None
    {
      if id !in tasks {
        return EmptyTask, Some(TaskNotFound);
      }
      var task := tasks[id];
      if task.Status == Finished {
        tasks := tasks - {id};
      }
      v := TaskValue(task.Id, task.Status.Name(), task.Payload, task.Result);
      err := None;
    }

    /**
     * GetTaskResult as written, with the manager's read lock held by
     * `readers`: the deferred release runs after the explicit one on the
     * finished path and finds the lock unheld, which is fatal.  Every other
     * fetch ends as GetTaskResult does.
     */
    method GetTaskResultAsWritten(id: string) returns (end: FetchEnd)
      requires Valid()
      modifies this
      ensures Valid() && issued == old(issued)
      ensures Contents() == Reap(old(Contents()), id)
      ensures end.Fatal? <==> id in old(Contents()) && old(Contents())[id].status == Finished
      ensures end.Fatal? ==> end.msg == "sync: RUnlock of unlocked RWMutex"
      ensures id !in old(Contents()) ==> end == Returned(EmptyTask, Some(TaskNotFound))
      ensures id in old(Contents()) && old(Contents())[id].status != Finished ==>
                end == Returned(Copy(old(Contents())[id]), None)
    {
      var readers := 1;                      // tm.mx.RLock(), released by a deferred RUnlock
      if id !in tasks {
        readers := readers - 1;              // the deferred RUnlock
        return Returned(EmptyTask, Some(TaskNotFound));
      }
      var task := tasks[id];
      if task.Status == Finished {
        readers := readers - 1;              // the explicit RUnlock
        tasks := tasks - {id};               // Lock, delete, Unlock
      }
      var v := TaskValue(task.Id, task.Status.Name(), task.Payload, task.Result);
      if readers == 0 {                      // the deferred RUnlock finds no reader
        return Fatal("sync: RUnlock of unlocked RWMutex");
      }
      readers := readers - 1;
      end := Returned(v, None);
    }
  }

  /**
   * The finished path of GetTaskResult as written aborts: a task that has run
   * to completion cannot be fetched at all.
   */
  method FinishedFetchAborts(payload: Bytes, id: string) returns (end: FetchEnd)
    ensures end.Fatal?
  {
    var tm := new TaskManager();
    var got := tm.NewTask(payload, id);
    tm.Start(got);
    tm.Finish(got);
    end := tm.GetTaskResultAsWritten(got);
  }

  /**
   * One task's whole life: fetched while pending it stays; fetched while
   * running it stays; fetched after its run it is reported finished with
   * Result "result" and removed; fetched again it is not found.
   */
  method Lifecycle(payload: Bytes, id: string)
    returns (first: TaskValue, second: TaskValue, third: TaskValue, fourth: Option<Error>)
    ensures first == TaskValue(id, "pending", payload, [])
    ensures second == TaskValue(id, "running", payload, [])
    ensures third == TaskValue(id, "finished", payload, WorkResult)
    ensures fourth == Some(TaskNotFound)
  {
    var tm := new TaskManager();
    var got := tm.NewTask(payload, id);
    var err;
    first, err := tm.GetTaskResult(got);
    tm.Start(got);
    second, err := tm.GetTaskResult(got);
    tm.Finish(got);
    third, err := tm.GetTaskResult(got);
    var last;
    last, fourth := tm.GetTaskResult(got);
  }
}
