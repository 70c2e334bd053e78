/**
 * Class `TaskManager` of script.js (lines 49-135): the mutable `tasks` object. Each method's
 * contract ties the new state to the function of module `Collection` that specifies it, and the
 * lemmas of that module state what those functions promise.
 */
module TaskStore {
  import opened Wrappers
  import opened Seqs
  import opened Tasks
  import opened Collection

  class TaskManager {
    /** The keys of `this.tasks`, in insertion order. */
    var keys: seq<string>
    /** `this.tasks`: the list of records under each status. */
    var tasks: map<string, seq<Task>>

    ghost predicate Valid()
      reads this
    {
      WellFormed(Board(keys, tasks))
    }

    /** `getAllTasks()` (script.js:128-130): the whole collection. */
    function GetAllTasks(): Board
      reads this
    {
      Board(keys, tasks)
    }

    /** `new TaskManager(tasks)` (script.js:50-53): adopt the seed, then `initializeTaskLists()`. */
    constructor (seed: Board)
      requires WellFormed(seed)
      ensures Valid() && GetAllTasks() == InitializeLists(seed)
    {
      keys := seed.keys;
      tasks := seed.buckets;
      new;
      InitializeTaskLists();
    }

    /** `initializeTaskLists()` (script.js:55-59): create each default list that is missing. */
    method InitializeTaskLists()
      requires Valid()
      modifies this
      ensures Valid() && GetAllTasks() == InitializeLists(old(GetAllTasks()))
    {
      EnsureListFacts(GetAllTasks(), "todo");
      if "todo" !in tasks {
        keys, tasks := keys + ["todo"], tasks["todo" := []];
      }
      EnsureListFacts(GetAllTasks(), "inprogress");
      if "inprogress" !in tasks {
        keys, tasks := keys + ["inprogress"], tasks["inprogress" := []];
      }
      EnsureListFacts(GetAllTasks(), "done");
      if "done" !in tasks {
        keys, tasks := keys + ["done"], tasks["done" := []];
      }
    }

    /**
     * `addTask(task, status = 'todo')` (script.js:61-81). `id` and `createdAt` stand for
     * `Date.now()` and `new Date().toISOString()`; both are overridden by properties of `task`.
     */
    method AddTask(task: Patch, id: int, createdAt: string, status: string := "todo") returns (newTask: Task)
      requires Valid()
      modifies this
      ensures Valid()
      ensures newTask == NewRecord(id, createdAt, status, task)
      ensures GetAllTasks() == Add(old(GetAllTasks()), newTask, status)
    {
      AddFacts(GetAllTasks(), NewRecord(id, createdAt, status, task), status);
      if status !in tasks {
        keys, tasks := keys + [status], tasks[status := []];
      }
      newTask := NewRecord(id, createdAt, status, task);
      tasks := tasks[status := tasks[status] + [newTask]];
    }

    /** `removeTask(taskId)` (script.js:83-93): filter the id out of every list, in key order; always `true`. */
    method RemoveTask(taskId: int) returns (ok: bool)
      requires Valid()
      modifies this
      ensures Valid() && ok
      ensures GetAllTasks() == Remove(old(GetAllTasks()), taskId)
    {
      ghost var before := tasks;
      RemovedUpToEnds(before, keys, taskId);
      var i := 0;
      while i < |keys|
        invariant 0 <= i <= |keys|
        invariant keys == old(keys)
        invariant tasks == RemovedUpTo(before, keys[..i], taskId)
      {
        RemovedUpToStep(before, keys, i, taskId);
        var status := keys[i];
        tasks := tasks[status := Filter(tasks[status], NotId(taskId))];
        i := i + 1;
      }
      ok := true;
    }

    /**
     * The scan `getTaskById` and `updateTask` share (script.js:97-98, 113-114): the lists in key
     * order, each searched with `find` for the first record carrying the id.
     */
    method LocateTask(taskId: int) returns (loc: Option<Location>)
      requires Valid()
      ensures loc == Locate(GetAllTasks(), taskId)
    {
      LocateEnds(keys, tasks, taskId);
      var i := 0;
      while i < |keys|
        invariant 0 <= i <= |keys|
        invariant LocateIn(keys[i..], tasks, taskId) == Locate(GetAllTasks(), taskId)
      {
        LocateStep(keys, tasks, taskId, i);
        var found := IndexOf(tasks[keys[i]], taskId);
        if found.Some? {
          return Some(Location(keys[i], found.value));
        }
        i := i + 1;
      }
      return None;
    }

    /** `getTaskById(taskId)` (script.js:111-122): the first record carrying the id, or null. */
    method GetTaskById(taskId: int) returns (task: Option<Task>)
      requires Valid()
      ensures task == Find(GetAllTasks(), taskId)
    {
      var loc := LocateTask(taskId);
      if loc.None? {
        return None;
      }
      return Some(tasks[loc.value.key][loc.value.index]);
    }

    /**
     * `updateTask(taskId, updates)` (script.js:95-109): merge `updates` into the first record
     * carrying the id, in place, and return it; null when no record carries it.
     */
    method UpdateTask(taskId: int, updates: Patch) returns (task: Option<Task>)
      requires Valid()
      modifies this
      ensures Valid()
      ensures task == Updated(old(GetAllTasks()), taskId, updates)
      ensures GetAllTasks() == Update(old(GetAllTasks()), taskId, updates)
    {
      var loc := LocateTask(taskId);
      if loc.None? {
        UpdateNone(GetAllTasks(), taskId, updates);
        return None;
      }
      var status, j := loc.value.key, loc.value.index;
      UpdateAt(GetAllTasks(), taskId, updates, status, j);
      var merged := Merge(tasks[status][j], updates);
      tasks := tasks[status := tasks[status][j := merged]];
      return Some(merged);
    }

    /** `getTasksByStatus(status)` (script.js:124-126): the list under `status`, or an empty one. */
    function GetTasksByStatus(status: string): (r: seq<Task>)
      requires Valid()
      reads this
      ensures status in tasks ==> r == tasks[status]
      ensures status !in tasks ==> r == []
      ensures |r| <= GetTasksCount()
    {
      BucketWithinCount(GetAllTasks(), status);
      Bucket(GetAllTasks(), status)
    }

    /** `getTasksCount()` (script.js:132-134): the lengths of all lists added up. */
    function GetTasksCount(): (n: nat)
      requires Valid()
      reads this
      ensures forall k :: k in tasks ==> |tasks[k]| <= n
      ensures n == 0 <==> forall k :: k in tasks ==> tasks[k] == []
    {
      forall k | k in tasks
        ensures |tasks[k]| <= Count(GetAllTasks())
      {
        BucketWithinCount(GetAllTasks(), k);
      }
      CountZeroIffEmpty(GetAllTasks());
      Count(GetAllTasks())
    }
  }
}
