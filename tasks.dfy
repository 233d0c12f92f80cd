/**
 * The task manager of tasks/tasks.go: a `TaskManager` object owning a map from
 * id to `task` objects whose status and result are overwritten in place.
 *
 * Locks, goroutines and the wait group are not modelled: each method is one
 * atomic step.  The goroutine launched by CreateTask runs `run`, which here is
 * the two steps Start and Finish, addressed by id (a task whose run has not
 * finished is never reaped, so it is always in the map while its run goes on).
 * The id that uuid.New() would draw is a parameter, fresh with respect to
 * every id issued before.
 *
 * In the source, GetTaskResult reads the status and takes the snapshot under
 * two different locks; a run finishing in between yields a finished snapshot
 * without a reap.  A sequential model cannot show that interleaving.
 */
module Tasks {
  import opened Registry

  /** The snapshot GetTaskResult hands out; Status is the status name, "" in the zero value. */
  datatype TaskResult = TaskResult(ID: string, Status: string, Payload: Bytes, Result: Bytes)

  /** The zero TaskResult returned together with TaskNotFound. */
  const EmptyResult: TaskResult := TaskResult("", "", [], [])

  /** The snapshot of a task's fields. */
  function Snapshot(t: TaskRec): (r: TaskResult)
    ensures r.ID == t.id && r.Payload == t.payload && r.Result == t.result
    ensures |r.Status| > 0 && r.Status == t.status.Name()
    ensures Consistent(t) ==> (|r.Result| > 0 <==> r.Status == Finished.Name())
  {
    TaskResult(t.id, t.status.Name(), t.payload, t.result)
  }

  /** One task (`task` in the source); its id and payload never change. */
  class Task {
    const id: string
    var status: Status
    const payload: Bytes
    var result: Bytes

    ghost predicate Valid()
      reads this
    {
      Consistent(Rec())
    }

    /** The task's fields as a value. */
    function Rec(): TaskRec
      reads this
    {
      TaskRec(id, status, payload, result)
    }

    /** newTask: a pending task holding the payload, with no result. */
    constructor (id: string, payload: Bytes)
      ensures Rec() == NewRec(id, payload) && Valid()
    {
      this.id := id;
      this.status := Pending;
      this.payload := payload;
      this.result := [];
    }

    /** setStatus: overwrites the status, nothing else. */
    method SetStatus(s: Status)
      modifies this
      ensures Rec() == old(Rec()).(status := s)
    {
      status := s;
    }

    /** getStatus */
    method GetStatus() returns (s: Status)
      ensures s == Rec().status
    {
      s := status;
    }

    /** getTaskResult: a copy of the task's fields. */
    method GetTaskResult() returns (r: TaskResult)
      ensures r == Snapshot(Rec())
    {
      r := TaskResult(id, status.Name(), payload, result);
    }

    /** FinishWithResult: status finished and the result, in one step. */
    method FinishWithResult(res: Bytes)
      modifies this
      ensures Rec() == old(Rec()).(status := Finished, result := res)
    {
      status := Finished;
      result := res;
    }

    /** First half of run: setStatus(running). */
    method RunStart()
      requires Valid() && status == Pending
      modifies this
      ensures Valid() && Rec() == Started(old(Rec()))
    {
      SetStatus(Running);
    }

    /** Second half of run, after the simulated work: FinishWithResult("result"). */
    method RunFinish()
      requires Valid() && status == Running
      modifies this
      ensures Valid() && Rec() == Completed(old(Rec()))
    {
      FinishWithResult(WorkResult);
    }
  }

  class TaskManager {
    var tasks: map<string, Task>
    /** Every id this manager has issued, reaped ones included. */
    ghost var issued: set<string>

    ghost predicate Valid()
      reads this, tasks.Values
    {
      (forall k :: k in tasks ==> tasks[k].id == k && tasks[k].Valid()) &&
      tasks.Keys <= issued
    }

    /** The registry's state: the fields of every stored task, by key. */
    ghost function Contents(): (m: State)
      reads this, tasks.Values
      ensures m.Keys == tasks.Keys
    {
      map k | k in tasks :: tasks[k].Rec()
    }

    /** Every key is its task's id and every stored task is consistent; no stored id is unissued. */
    lemma ValidMeansInv()
      requires Valid()
      ensures Inv(Contents()) && Contents().Keys <= issued
    {
    }

    /** NewTaskManager: no tasks. */
    constructor ()
      ensures Valid() && Contents() == map[] && issued == {}
    {
      tasks := map[];
      issued := {};
    }

    /**
     * CreateTask: stores a new pending task under its own id and returns the
     * id; `id` stands for the random id the source draws.
     */
    method CreateTask(payload: Bytes, id: string) returns (r: string)
      requires Valid() && id !in issued
      modifies this
      ensures Valid() && r == id
      ensures Contents() == Create(old(Contents()), id, payload)
      ensures issued == old(issued) + {id}
      ensures fresh(tasks[id])
      ensures forall k :: k in old(tasks) ==> k in tasks && tasks[k] == old(tasks)[k]
    {
      var t := new Task(id, payload);
      tasks := tasks[t.id := t];
      issued := issued + {id};
      r := t.id;
    }

    /** The run of task `id` starts. */
    method Start(id: string)
      requires Valid() && id in tasks && tasks[id].status == Pending
      modifies tasks[id]
      ensures Valid()
      ensures Contents() == Registry.Start(old(Contents()), id)
    {
      var t := tasks[id];
      t.RunStart();
      assert forall k :: k in tasks && k != id ==> tasks[k] != t;
    }

    /** The run of task `id` finishes with result "result". */
    method Finish(id: string)
      requires Valid() && id in tasks && tasks[id].status == Running
      modifies tasks[id]
      ensures Valid()
      ensures Contents() == Registry.Finish(old(Contents()), id)
    {
      var t := tasks[id];
      t.RunFinish();
      assert forall k :: k in tasks && k != id ==> tasks[k] != t;
    }

    /**
     * GetTaskResult: the zero snapshot and TaskNotFound for an absent id;
     * otherwise the task's snapshot, and a finished task is removed.
     */
    method GetTaskResult(id: string) returns (res: TaskResult, err: Option<Error>)
      requires Valid()
      modifies this
      ensures Valid() && issued == old(issued)
      ensures Contents() == Reap(old(Contents()), id)
      ensures forall k :: k in tasks ==> k in old(tasks) && tasks[k] == old(tasks)[k]
      ensures Lookup(old(Contents()), id).Err? ==> res == EmptyResult && err == Some(TaskNotFound)
      ensures Lookup(old(Contents()), id).Ok? ==> res == Snapshot(Lookup(old(Contents()), id).value) && err == None
    {
      if id !in tasks {
        return EmptyResult, Some(TaskNotFound);
      }
      var t := tasks[id];
      var s := t.GetStatus();
      if s == Finished {
        tasks := tasks - {id};
      }
      res := t.GetTaskResult();
      err := None;
    }
  }

  /**
   * The scenario of tasks/tasks_test.go: on a new manager, the task just
   * created is found, under its id, with a non-empty status, the payload and
   * no result.
   */
  method CreateThenFetch(payload: Bytes, id: string) returns (res: TaskResult, err: Option<Error>)
    ensures err == None
    ensures res.ID == id && |res.Status| > 0 && res.Payload == payload && res.Result == []
  {
    var tm := new TaskManager();
    var got := tm.CreateTask(payload, id);
    res, err := tm.GetTaskResult(got);
  }

  /**
   * One task's whole life: fetched while pending it stays; fetched after its
   * run it is reported finished with result "result" and reaped; fetched again
   * it is not found.
   */
  method Lifecycle(payload: Bytes, id: string) returns (first: TaskResult, second: TaskResult, third: Option<Error>)
    ensures first == TaskResult(id, "pending", payload, [])
    ensures second == TaskResult(id, "finished", payload, WorkResult)
    ensures third == Some(TaskNotFound)
  {
    var tm := new TaskManager();
    var got := tm.CreateTask(payload, id);
    var err;
    first, err := tm.GetTaskResult(got);
    tm.Start(got);
    tm.Finish(got);
    second, err := tm.GetTaskResult(got);
    var last;
    last, third := tm.GetTaskResult(got);
  }
}
