/**
 * The task registry's contract, shared by both task managers of the repository
 * (tasks/tasks.go and the older task/task.go): a map from task id to a task
 * record, the lifecycle steps of one task, and the fetch-then-reap read.
 *
 * Both managers are sequential here: every method is one atomic step, and the
 * two halves of a task's run (start and finish) are separate steps that may
 * interleave with submissions and fetches of any task.  The trace model at the
 * end of this module states what a client can observe over any interleaving.
 */
module Registry {

  type byte = x: int | 0 <= x < 256
  /** A Go byte slice; a nil slice and an empty slice are both []. */
  type Bytes = seq<byte>

  datatype Option<T> = None | Some(value: T)

  /** The one error of the core: the id is unknown or was already reaped. */
  datatype Error = TaskNotFound {
    /** The error's text, the same in both managers. */
    function Message(): (s: string)
      ensures s == "task not found"
    {
      "task not found"
    }
  }

  datatype Result<T> = Ok(value: T) | Err(error: Error)

  /** The status of a task; only ever one of the three named constants. */
  datatype Status = Pending | Running | Finished {
    /** The status as the string the source stores and reports. */
    function Name(): (s: string)
      ensures |s| > 0
      ensures this == Pending ==> s == "pending"
      ensures this == Running ==> s == "running"
      ensures this == Finished ==> s == "finished"
    {
      match this
      case Pending => "pending"
      case Running => "running"
      case Finished => "finished"
    }

    /** Position in the lifecycle Pending -> Running -> Finished. */
    function Rank(): (r: nat)
      ensures r <= 2
      ensures r == 2 <==> this == Finished
      ensures r == 0 <==> this == Pending
    {
      match this
      case Pending => 0
      case Running => 1
      case Finished => 2
    }
  }

  /** Distinct statuses are reported under distinct names. */
  lemma NameInjective(a: Status, b: Status)
    ensures a.Name() == b.Name() <==> a == b
  {
  }

  /** The bytes of the string "result", which every run produces. */
  const WorkResult: Bytes := [114, 101, 115, 117, 108, 116]

  /** The fields of one task, as a value. */
  datatype TaskRec = TaskRec(id: string, status: Status, payload: Bytes, result: Bytes)

  /** The result is set exactly when the status is finished. */
  ghost predicate Consistent(t: TaskRec) {
    |t.result| > 0 <==> t.status == Finished
  }

  type State = map<string, TaskRec>

  /** Every key is its task's id, and every task is consistent. */
  ghost predicate Inv(m: State) {
    forall k :: k in m ==> m[k].id == k && Consistent(m[k])
  }

  // ---------------------------------------------------------------------------
  // One task's lifecycle
  // ---------------------------------------------------------------------------

  /** A freshly created task: pending, holding the payload, with no result. */
  function NewRec(id: string, payload: Bytes): (t: TaskRec)
    ensures t.id == id && t.payload == payload
    ensures t.status == Pending && t.result == []
    ensures Consistent(t)
  {
    TaskRec(id, Pending, payload, [])
  }

  /** First half of a run: the task moves from pending to running. */
  function Started(t: TaskRec): (t': TaskRec)
    requires t.status == Pending
    ensures t'.status.Rank() == t.status.Rank() + 1
    ensures t'.id == t.id && t'.payload == t.payload && t'.result == t.result
    ensures Consistent(t) ==> Consistent(t')
  {
    t.(status := Running)
  }

  /** Second half of a run: status finished and result "result", set together. */
  function Completed(t: TaskRec): (t': TaskRec)
    requires t.status == Running
    ensures t'.status.Rank() == t.status.Rank() + 1
    ensures t'.id == t.id && t'.payload == t.payload && t'.result == WorkResult
    ensures |t'.result| > 0 && Consistent(t')
  {
    t.(status := Finished, result := WorkResult)
  }

  // ---------------------------------------------------------------------------
  // The manager's map
  // ---------------------------------------------------------------------------

  /** Stores a new pending task under its own id; a stale entry under that id would be overwritten. */
  function Create(m: State, id: string, payload: Bytes): (m': State)
    ensures m'.Keys == m.Keys + {id}
    ensures m'[id] == NewRec(id, payload)
    ensures forall k :: k in m && k != id ==> m'[k] == m[k]
    ensures Inv(m) ==> Inv(m')
  {
    m[id := NewRec(id, payload)]
  }

  /** The run of task `id` starts. */
  function Start(m: State, id: string): (m': State)
    requires id in m && m[id].status == Pending
    ensures m'.Keys == m.Keys && m'[id].status == Running
    ensures m'[id].id == m[id].id && m'[id].payload == m[id].payload && m'[id].result == m[id].result
    ensures forall k :: k in m && k != id ==> m'[k] == m[k]
    ensures Inv(m) ==> Inv(m')
  {
    m[id := Started(m[id])]
  }

  /** The run of task `id` finishes with its result. */
  function Finish(m: State, id: string): (m': State)
    requires id in m && m[id].status == Running
    ensures m'.Keys == m.Keys && m'[id].status == Finished && m'[id].result == WorkResult
    ensures m'[id].id == m[id].id && m'[id].payload == m[id].payload
    ensures forall k :: k in m && k != id ==> m'[k] == m[k]
    ensures Inv(m) ==> Inv(m')
  {
    m[id := Completed(m[id])]
  }

  /** What a fetch reports: the stored task, or TaskNotFound when the id is absent. */
  function Lookup(m: State, id: string): (r: Result<TaskRec>)
    ensures r.Ok? <==> id in m
    ensures r.Ok? ==> r.value == m[id]
    ensures r.Err? ==> r.error == TaskNotFound
    ensures Inv(m) && r.Ok? ==> r.value.id == id && Consistent(r.value)
  {
    if id in m then Ok(m[id]) else Err(TaskNotFound)
  }

  /** What a fetch leaves behind: a finished task is removed, anything else stays. */
  function Reap(m: State, id: string): (m': State)
    ensures id in m && m[id].status == Finished ==> m'.Keys == m.Keys - {id}
    ensures !(id in m && m[id].status == Finished) ==> m' == m
    ensures forall k :: k in m' ==> k in m && m'[k] == m[k]
    ensures Inv(m) ==> Inv(m')
  {
    if id in m && m[id].status == Finished then m - {id} else m
  }

  /** Right after a create, the fetch finds the task pending, with its payload and no result. */
  lemma FetchAfterCreate(m: State, id: string, payload: Bytes)
    ensures Lookup(Create(m, id, payload), id) == Ok(TaskRec(id, Pending, payload, []))
    ensures Reap(Create(m, id, payload), id) == Create(m, id, payload)
  {
  }

  /** An id that was never stored is not found, and the fetch changes nothing. */
  lemma FetchUnknown(m: State, id: string)
    requires id !in m
    ensures Lookup(m, id) == Err(TaskNotFound) && Reap(m, id) == m
  {
  }

  /**
   * Reap on first finished read: the fetch that sees a finished task still
   * returns it, removes exactly that entry, and the next fetch of the same id
   * reports TaskNotFound.
   */
  lemma FetchFinishedOnce(m: State, id: string)
    requires id in m && m[id].status == Finished
    ensures Lookup(m, id) == Ok(m[id])
    ensures Reap(m, id) == m - {id}
    ensures Lookup(Reap(m, id), id) == Err(TaskNotFound)
  {
  }

  // ---------------------------------------------------------------------------
  // Traces: any interleaving of submissions, run steps and fetches
  // ---------------------------------------------------------------------------

  /**
   * What can happen next: a client submits a payload (the id stands for the
   * random id the manager draws), a task's run starts or finishes, or a client
   * fetches an id.
   */
  datatype Event =
    | Submit(id: string, payload: Bytes)
    | StartRun(id: string)
    | FinishRun(id: string)
    | Fetch(id: string)

  /** The manager's map, plus every id ever issued (ids are never reused). */
  datatype World = World(tasks: State, issued: set<string>)

  /** What a fetch returned for the id it asked about. */
  datatype Observation = Observation(id: string, res: Result<TaskRec>)

  ghost predicate WorldInv(w: World) {
    Inv(w.tasks) && w.tasks.Keys <= w.issued
  }

  /**
   * Whether the event can occur: a submitted id is fresh, a run starts only
   * from pending and finishes only from running (each task's run goes through
   * the two steps once, in order); a fetch can always occur.
   */
  predicate Enabled(w: World, e: Event) {
    match e
    case Submit(id, _) => id !in w.issued
    case StartRun(id) => id in w.tasks && w.tasks[id].status == Pending
    case FinishRun(id) => id in w.tasks && w.tasks[id].status == Running
    case Fetch(_) => true
  }

  /** One atomic step, with what it lets a client observe. */
  function Step(w: World, e: Event): (r: (World, seq<Observation>))
    requires Enabled(w, e)
    ensures WorldInv(w) ==> WorldInv(r.0)
    ensures r.0.issued >= w.issued
    ensures |r.1| <= 1
    ensures |r.1| == 1 <==> e.Fetch?
  {
    match e
    case Submit(id, payload) => (World(Create(w.tasks, id, payload), w.issued + {id}), [])
    case StartRun(id) => (World(Start(w.tasks, id), w.issued), [])
    case FinishRun(id) => (World(Finish(w.tasks, id), w.issued), [])
    case Fetch(id) => (World(Reap(w.tasks, id), w.issued), [Observation(id, Lookup(w.tasks, id))])
  }

  /** Runs the events in order; an event that cannot occur in the current world is not scheduled. */
  function Run(w: World, es: seq<Event>): (r: (World, seq<Observation>))
    decreases |es|
  {
    if es == [] then (w, [])
    else if !Enabled(w, es[0]) then Run(w, es[1..])
    else
      var (w1, now) := Step(w, es[0]);
      var (w2, later) := Run(w1, es[1..]);
      (w2, now + later)
  }

  /** A fetch that returned task `id` as finished. */
  predicate SawFinished(o: Observation, id: string) {
    o.id == id && o.res.Ok? && o.res.value.status == Finished
  }

  function CountSawFinished(obs: seq<Observation>, id: string): (n: nat)
    ensures n <= |obs|
  {
    if obs == [] then 0
    else (if SawFinished(obs[0], id) then 1 else 0) + CountSawFinished(obs[1..], id)
  }

  lemma {:induction false} CountSawFinishedAppend(a: seq<Observation>, b: seq<Observation>, id: string)
    ensures CountSawFinished(a + b, id) == CountSawFinished(a, id) + CountSawFinished(b, id)
  {
    if a != [] {
      assert (a + b)[1..] == a[1..] + b;
      CountSawFinishedAppend(a[1..], b, id);
    } else {
      assert a + b == b;
    }
  }

  /** How many more times task `id` can still be seen finished from world `w`. */
  function SightingsLeft(w: World, id: string): nat {
    if id in w.issued && id !in w.tasks then 0 else 1
  }

  /**
   * A finished task is observed at most once: whatever happens from a world
   * satisfying the invariant, at most one fetch reports `id` as finished, and
   * none does once `id` has been reaped.
   */
  lemma {:induction false} FinishedSeenAtMostOnce(w: World, es: seq<Event>, id: string)
    requires WorldInv(w)
    ensures CountSawFinished(Run(w, es).1, id) <= SightingsLeft(w, id)
    decreases |es|
  {
    if es != [] {
      if !Enabled(w, es[0]) {
        FinishedSeenAtMostOnce(w, es[1..], id);
      } else {
        var (w1, now) := Step(w, es[0]);
        FinishedSeenAtMostOnce(w1, es[1..], id);
        CountSawFinishedAppend(now, Run(w1, es[1..]).1, id);
        if now != [] {
          assert now[1..] == [];
        }
      }
    }
  }

  /** From the empty registry, every id is seen finished at most once. */
  lemma FinishedSeenAtMostOnceFromStart(es: seq<Event>, id: string)
    ensures CountSawFinished(Run(World(map[], {}), es).1, id) <= 1
  {
    FinishedSeenAtMostOnce(World(map[], {}), es, id);
  }

  /** The lifecycle ranks of the statuses that fetches reported for `id`, in order. */
  function RanksSeen(obs: seq<Observation>, id: string): (r: seq<nat>)
    ensures |r| <= |obs|
  {
    if obs == [] then []
    else (if obs[0].id == id && obs[0].res.Ok? then [obs[0].res.value.status.Rank()] else [])
         + RanksSeen(obs[1..], id)
  }

  lemma {:induction false} RanksSeenAppend(a: seq<Observation>, b: seq<Observation>, id: string)
    ensures RanksSeen(a + b, id) == RanksSeen(a, id) + RanksSeen(b, id)
  {
    if a != [] {
      assert (a + b)[1..] == a[1..] + b;
      RanksSeenAppend(a[1..], b, id);
    } else {
      assert a + b == b;
    }
  }

  /** Non-decreasing, and nothing below `lo`. */
  ghost predicate SortedFrom(r: seq<nat>, lo: nat) {
    (forall i :: 0 <= i < |r| ==> lo <= r[i]) &&
    (forall i, j :: 0 <= i <= j < |r| ==> r[i] <= r[j])
  }

  /** The lowest status a later fetch of `id` can still report from world `w`. */
  function Floor(w: World, id: string): nat {
    if id in w.tasks then w.tasks[id].status.Rank() else 0
  }

  /**
   * One step never lowers the floor of `id` unless it reaps `id`, and what the
   * step reports for `id` lies between the old floor and the new one.
   */
  lemma StepFloor(w: World, e: Event, id: string)
    requires WorldInv(w) && Enabled(w, e)
    ensures var w1 := Step(w, e).0;
            Floor(w, id) <= Floor(w1, id) || (id in w1.issued && id !in w1.tasks)
    ensures var (w1, now) := Step(w, e);
            forall x :: x in RanksSeen(now, id) ==> Floor(w, id) <= x && (id in w1.tasks ==> x <= Floor(w1, id))
  {
  }

  /**
   * Status only moves forward: across any interleaving, the statuses that
   * successive fetches report for one id never go back (no finished then
   * running, no running then pending), none is below the status the task has
   * now, and a reaped id is never reported again.
   */
  lemma {:induction false} StatusNeverRegresses(w: World, es: seq<Event>, id: string)
    requires WorldInv(w)
    ensures SortedFrom(RanksSeen(Run(w, es).1, id), Floor(w, id))
    ensures id in w.issued && id !in w.tasks ==> RanksSeen(Run(w, es).1, id) == []
    decreases |es|
  {
    if es != [] {
      if !Enabled(w, es[0]) {
        StatusNeverRegresses(w, es[1..], id);
      } else {
        var (w1, now) := Step(w, es[0]);
        var later := Run(w1, es[1..]).1;
        StatusNeverRegresses(w1, es[1..], id);
        RanksSeenAppend(now, later, id);
        if now != [] {
          assert now[1..] == [];
        }
        StepFloor(w, es[0], id);
      }
    }
  }

  /** From the empty registry, the statuses seen for any id never go back. */
  lemma StatusNeverRegressesFromStart(es: seq<Event>, id: string)
    ensures var r := RanksSeen(Run(World(map[], {}), es).1, id);
            forall i, j :: 0 <= i <= j < |r| ==> r[i] <= r[j]
  {
    StatusNeverRegresses(World(map[], {}), es, id);
  }

  /**
   * Every task a fetch returns carries the id asked for, and its result is set
   * exactly when its status is finished.
   */
  lemma {:induction false} ObservationsConsistent(w: World, es: seq<Event>)
    requires WorldInv(w)
    ensures forall o :: o in Run(w, es).1 && o.res.Ok? ==> o.res.value.id == o.id && Consistent(o.res.value)
    decreases |es|
  {
    if es != [] {
      if !Enabled(w, es[0]) {
        ObservationsConsistent(w, es[1..]);
      } else {
        var (w1, now) := Step(w, es[0]);
        ObservationsConsistent(w1, es[1..]);
      }
    }
  }

  /** An id that was never issued is never found. */
  lemma {:induction false} NeverIssuedNotFound(w: World, es: seq<Event>, id: string)
    requires WorldInv(w) && id !in w.issued
    requires forall e :: e in es ==> !(e.Submit? && e.id == id)
    ensures forall o :: o in Run(w, es).1 && o.id == id ==> o.res == Err(TaskNotFound)
    decreases |es|
  {
    if es != [] {
      assert forall e :: e in es[1..] ==> e in es;
      if !Enabled(w, es[0]) {
        NeverIssuedNotFound(w, es[1..], id);
      } else {
        var (w1, now) := Step(w, es[0]);
        NeverIssuedNotFound(w1, es[1..], id);
      }
    }
  }

  /** Once `id` has been reaped, every later fetch of it reports TaskNotFound. */
  lemma {:induction false} ReapedStaysNotFound(w: World, es: seq<Event>, id: string)
    requires WorldInv(w) && id in w.issued && id !in w.tasks
    ensures forall o :: o in Run(w, es).1 && o.id == id ==> o.res == Err(TaskNotFound)
    decreases |es|
  {
    if es != [] {
      if !Enabled(w, es[0]) {
        ReapedStaysNotFound(w, es[1..], id);
      } else {
        var (w1, now) := Step(w, es[0]);
        ReapedStaysNotFound(w1, es[1..], id);
      }
    }
  }

  /**
   * Reap on first finished read, over any interleaving: after a fetch has
   * reported `id` finished, every later fetch of `id` reports TaskNotFound.
   */
  lemma {:induction false} AfterFinishedNotFound(w: World, es: seq<Event>, id: string, i: nat, j: nat)
    requires WorldInv(w)
    requires i < j < |Run(w, es).1|
    requires SawFinished(Run(w, es).1[i], id) && Run(w, es).1[j].id == id
    ensures Run(w, es).1[j].res == Err(TaskNotFound)
    decreases |es|
  {
    if !Enabled(w, es[0]) {
      AfterFinishedNotFound(w, es[1..], id, i, j);
    } else {
      var (w1, now) := Step(w, es[0]);
      var later := Run(w1, es[1..]).1;
      assert Run(w, es).1 == now + later;
      if i < |now| {
        ReapedStaysNotFound(w1, es[1..], id);
        assert Run(w, es).1[j] == later[j - |now|];
      } else {
        AfterFinishedNotFound(w1, es[1..], id, i - |now|, j - |now|);
      }
    }
  }

  /** From the empty registry: once a fetch has seen `id` finished, later fetches of `id` find nothing. */
  lemma AfterFinishedNotFoundFromStart(es: seq<Event>, id: string, i: nat, j: nat)
    requires i < j < |Run(World(map[], {}), es).1|
    requires SawFinished(Run(World(map[], {}), es).1[i], id)
    requires Run(World(map[], {}), es).1[j].id == id
    ensures Run(World(map[], {}), es).1[j].res == Err(TaskNotFound)
  {
    AfterFinishedNotFound(World(map[], {}), es, id, i, j);
  }
}
