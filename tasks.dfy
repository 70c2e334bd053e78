/** Task records and the partial records that create or update them (script.js, class TaskManager). */
module Tasks {
  import opened Wrappers

  /**
   * A stored task card. `id` comes from `Date.now()` and `createdAt` from `toISOString()`;
   * `category` is the `label` property (`label` is a Dafny keyword).
   */
  datatype Task = Task(
    id: int,
    createdAt: string,
    status: string,
    title: string,
    description: string,
    priority: string,
    category: string,
    dueDate: string)

  /** A plain object whose present properties overwrite a record's (`{...task}`, `Object.assign(task, updates)`). */
  datatype Patch = Patch(
    id: Option<int>,
    createdAt: Option<string>,
    status: Option<string>,
    title: Option<string>,
    description: Option<string>,
    priority: Option<string>,
    category: Option<string>,
    dueDate: Option<string>)

  /** The patch naming no property. */
  const NoChange := Patch(None, None, None, None, None, None, None, None)

  /** `Object.assign(t, p)`: every property present in `p` overwrites that of `t`. */
  function Merge(t: Task, p: Patch): Task {
    Task(
      p.id.GetOr(t.id),
      p.createdAt.GetOr(t.createdAt),
      p.status.GetOr(t.status),
      p.title.GetOr(t.title),
      p.description.GetOr(t.description),
      p.priority.GetOr(t.priority),
      p.category.GetOr(t.category),
      p.dueDate.GetOr(t.dueDate))
  }

  /** `{...t}`: the patch carrying every property of `t`. */
  function Spread(t: Task): Patch {
    Patch(Some(t.id), Some(t.createdAt), Some(t.status), Some(t.title),
          Some(t.description), Some(t.priority), Some(t.category), Some(t.dueDate))
  }

  /**
   * `{ id, createdAt, status, ...task }` (script.js:67-72): the generated id, timestamp and
   * status, each overridden by the property of the same name in `task`.
   * A content property `task` lacks is the empty string here.
   */
  function NewRecord(id: int, createdAt: string, status: string, task: Patch): (r: Task)
    ensures task.id.Some? ==> r.id == task.id.value
    ensures task.id.None? ==> r.id == id
    ensures task.createdAt.Some? ==> r.createdAt == task.createdAt.value
    ensures task.createdAt.None? ==> r.createdAt == createdAt
    ensures task.status.Some? ==> r.status == task.status.value
    ensures task.status.None? ==> r.status == status
  {
    Merge(Task(id, createdAt, status, "", "", "", "", ""), task)
  }

  /** The predicate `task => task.id !== id`. */
  function NotId(id: int): Task -> bool {
    (t: Task) => t.id != id
  }

  /** The predicate `task => task.id === id`. */
  function IsId(id: int): Task -> bool {
    (t: Task) => t.id == id
  }

  /** Spreading a whole record and overriding its status yields the record with that status, whatever was generated. */
  lemma NewRecordFromSpread(t: Task, id: int, createdAt: string, status: string)
    ensures NewRecord(id, createdAt, status, Spread(t).(status := Some(status))) == t.(status := status)
  {
  }

  /** Merging the same patch twice is merging it once. */
  lemma MergeIdempotent(t: Task, p: Patch)
    ensures Merge(Merge(t, p), p) == Merge(t, p)
  {
  }

  /** Merging the empty patch changes nothing; merging a whole record's spread replaces every field. */
  lemma MergeExtremes(t: Task, u: Task)
    ensures Merge(t, NoChange) == t
    ensures Merge(t, Spread(u)) == u
  {
  }
}
