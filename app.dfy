/**
 * Class `KanbanBoardApp` of script.js (lines 763-892): the handlers for the `task-submit`,
 * `task-edit`, `task-delete` and `task-move` events. `this.tasks` is the very object the
 * `TaskManager` was built on, so the collection is the manager's and nothing is copied;
 * `localStorageManager.save(this.tasks)` is a snapshot of it plus a count of saves.
 */
module App {
  import opened Wrappers
  import opened Seqs
  import opened Tasks
  import opened Collection
  import opened TaskStore
  import opened Forms

  /** `loadTasksFromStorage()` (script.js:783-789): the stored collection, or three empty lists. */
  function LoadTasksFromStorage(stored: Option<Board>): (b: Board)
    ensures stored.Some? ==> b == stored.value
    ensures stored.None? ==> WellFormed(b) && b.keys == ["todo", "inprogress", "done"] && Count(b) == 0
  {
    match stored
    case Some(s) => s
    case None => Board(["todo", "inprogress", "done"], map["todo" := [], "inprogress" := [], "done" := []])
  }

  /** What `handleTaskMove` does to the collection. */
  datatype MoveOutcome =
    | NoMove            // unknown id, or the record's status already is the target
    | Moved(board: Board) // removed everywhere, then appended to the target list
    | Lost(board: Board)  // removed everywhere, then line 866 threw: its status names no list

  /** `handleTaskMove({taskId, newStatus})` (script.js:858-892) on the collection `b`. */
  function MoveSpec(b: Board, id: int, newStatus: string): MoveOutcome {
    match Find(b, id)
    case None => NoMove
    case Some(t) =>
      if t.status == newStatus then NoMove
      else
        var removed := Remove(b, id);
        if t.status !in removed.buckets then Lost(removed)
        else Moved(Add(removed, t.(status := newStatus), newStatus))
  }

  /**
   * What a collection keeps when the board is used only through its handlers, `isValidDate`
   * being the date check the form applies.
   */
  ghost predicate Consistent(b: Board, isValidDate: string -> bool) {
    WellFormed(b) && Unique(b) && StatusesMatch(b) && Everywhere(b, Complete) && Everywhere(b, DateValid(isValidDate))
  }

  // ---------------------------------------------------------------------------------------
  // handleTaskMove

  /** The shape of a completed move: the found record, with its new status, appended after the removal. */
  lemma MovedShape(b: Board, id: int, newStatus: string, c: Board)
    requires MoveSpec(b, id, newStatus) == Moved(c)
    ensures Find(b, id).Some? && Find(b, id).value.status != newStatus
    ensures c == Add(Remove(b, id), Find(b, id).value.(status := newStatus), newStatus)
  {
  }

  /**
   * Removing an id everywhere and appending one record carrying it to `status`: every list
   * loses the id and nothing else, the record ends `status`'s list, and it is the one found.
   */
  lemma RemoveThenAdd(b: Board, id: int, r: Task, status: string)
    requires WellFormed(b) && r.id == id
    ensures WellFormed(Add(Remove(b, id), r, status))
    ensures Add(Remove(b, id), r, status).keys == if status in b.buckets then b.keys else b.keys + [status]
    ensures Bucket(Add(Remove(b, id), r, status), status) == Filter(Bucket(b, status), NotId(id)) + [r]
    ensures forall k :: k != status ==> Bucket(Add(Remove(b, id), r, status), k) == Filter(Bucket(b, k), NotId(id))
    ensures IdCount(Add(Remove(b, id), r, status), id) == 1
    ensures Find(Add(Remove(b, id), r, status), id) == Some(r)
    ensures Count(Add(Remove(b, id), r, status)) + IdCount(b, id) == Count(b) + 1
  {
    var removed := Remove(b, id);
    RemoveFacts(b, id);
    RemoveCount(b, id);
    RemoveIdCount(b, id, id);
    AddFacts(removed, r, status);
    AddIdCount(removed, r, status, id);
    forall k
      ensures Bucket(removed, k) == Filter(Bucket(b, k), NotId(id))
    {
      LookupRemoved(b.buckets, id, k);
    }
    AppendedIsFound(removed, id, r, status);
  }

  /** Appending a record carrying an id no list holds makes it the record `getTaskById` finds. */
  lemma AppendedIsFound(b: Board, id: int, r: Task, status: string)
    requires WellFormed(b) && !HasId(b, id) && r.id == id
    ensures Find(Add(b, r, status), id) == Some(r)
  {
    var c := Add(b, r, status);
    AddFacts(b, r, status);
    var last := |Bucket(c, status)| - 1;
    forall k, i | k in c.keys && 0 <= i < |Lookup(c.buckets, k)| && !(k == status && i == last)
      ensures Lookup(c.buckets, k)[i].id != id
    {
      assert Lookup(c.buckets, k)[i] == Bucket(b, k)[i];
    }
    LocateSingle(c.keys, c.buckets, id, status, last);
  }

  /**
   * A move takes every record carrying the id out of its list and appends one copy, with
   * its status set to the target, at the end of the target list; every other list loses
   * the id and nothing else. The moved record is then the one `getTaskById` finds.
   */
  lemma MoveFacts(b: Board, id: int, newStatus: string, t: Task, c: Board)
    requires WellFormed(b) && Find(b, id) == Some(t) && MoveSpec(b, id, newStatus) == Moved(c)
    ensures WellFormed(c) && c.keys == (if newStatus in b.buckets then b.keys else b.keys + [newStatus])
    ensures Bucket(c, newStatus) == Filter(Bucket(b, newStatus), NotId(id)) + [t.(status := newStatus)]
    ensures forall k :: k != newStatus ==> Bucket(c, k) == Filter(Bucket(b, k), NotId(id))
    ensures IdCount(c, id) == 1
    ensures Find(c, id) == Some(t.(status := newStatus))
    ensures Count(c) + IdCount(b, id) == Count(b) + 1
  {
    MovedShape(b, id, newStatus, c);
    RemoveThenAdd(b, id, t.(status := newStatus), newStatus);
  }

  /** Moving a record a second time to the same list does nothing. */
  lemma MoveIdempotent(b: Board, id: int, newStatus: string, c: Board)
    requires WellFormed(b) && MoveSpec(b, id, newStatus) == Moved(c)
    ensures MoveSpec(c, id, newStatus) == NoMove
  {
    MoveFacts(b, id, newStatus, Find(b, id).value, c);
  }

  /**
   * The steps `handleTaskMove` takes, as the cases of `MoveSpec`: the re-filtering of the old
   * list after `removeTask` changes nothing, and the spread record with the new status is the
   * moved record whatever the clock says.
   */
  lemma MoveSteps(b: Board, id: int, newStatus: string, now: int, nowIso: string)
    requires WellFormed(b)
    ensures Find(b, id).None? || Find(b, id).value.status == newStatus ==> MoveSpec(b, id, newStatus) == NoMove
    ensures Find(b, id).Some? && Find(b, id).value.status != newStatus ==>
      (Find(b, id).value.status !in Remove(b, id).buckets ==> MoveSpec(b, id, newStatus) == Lost(Remove(b, id)))
    ensures Find(b, id).Some? && Find(b, id).value.status != newStatus && Find(b, id).value.status in Remove(b, id).buckets ==>
      var t := Find(b, id).value;
      var r := Remove(b, id);
      r.buckets[t.status := Filter(r.buckets[t.status], NotId(id))] == r.buckets &&
      MoveSpec(b, id, newStatus) == Moved(Add(r, NewRecord(now, nowIso, newStatus, Spread(t).(status := Some(newStatus))), newStatus))
  {
    if Find(b, id).Some? {
      var t := Find(b, id).value;
      NewRecordFromSpread(t, now, nowIso, newStatus);
      if t.status in Remove(b, id).buckets {
        var r := Remove(b, id);
        LookupRemoved(b.buckets, id, t.status);
        FilterIdempotent(Lookup(b.buckets, t.status), NotId(id));
        assert r.buckets[t.status := Filter(r.buckets[t.status], NotId(id))] == r.buckets;
      }
    }
  }

  /** With unique ids a move keeps them unique and keeps the number of records. */
  lemma MoveKeepsUniqueAndCount(b: Board, id: int, newStatus: string, c: Board)
    requires WellFormed(b) && Unique(b) && MoveSpec(b, id, newStatus) == Moved(c)
    ensures Unique(c) && Count(c) == Count(b)
  {
    MovedShape(b, id, newStatus, c);
    var moved := Find(b, id).value.(status := newStatus);
    RemoveThenAdd(b, id, moved, newStatus);
    UniquePresentOnce(b, id);
    RemoveKeepsUnique(b, id);
    RemoveFacts(b, id);
    AddKeepsUnique(Remove(b, id), moved, newStatus);
  }

  /** A record found in a collection whose statuses match its lists has a status naming a list. */
  lemma FoundStatusIsList(b: Board, id: int)
    requires WellFormed(b) && StatusesMatch(b) && Find(b, id).Some?
    ensures Find(b, id).value.status in Remove(b, id).buckets
  {
    var t := Find(b, id).value;
    var k, i :| k in b.keys && 0 <= i < |Bucket(b, k)| && Bucket(b, k)[i] == t;
    RemoveFacts(b, id);
  }

  /**
   * When every record's status names its list, a move never loses the record, and the moved
   * record's status names its new list.
   */
  lemma MoveKeepsStatuses(b: Board, id: int, newStatus: string)
    requires WellFormed(b) && StatusesMatch(b)
    ensures !MoveSpec(b, id, newStatus).Lost?
    ensures MoveSpec(b, id, newStatus).Moved? ==> StatusesMatch(MoveSpec(b, id, newStatus).board)
  {
    if Find(b, id).Some? {
      FoundStatusIsList(b, id);
    }
    if MoveSpec(b, id, newStatus).Moved? {
      MovedShape(b, id, newStatus, MoveSpec(b, id, newStatus).board);
      RemoveFacts(b, id);
      RemoveKeepsEverywhere(b, id, Complete);
      AddKeepsStatuses(Remove(b, id), Find(b, id).value.(status := newStatus), newStatus);
    }
  }

  /** A record `getTaskById` finds satisfies whatever holds of every record. */
  lemma FoundEverywhere(b: Board, id: int, P: Task -> bool)
    requires Everywhere(b, P) && Find(b, id).Some?
    ensures P(Find(b, id).value)
  {
    var k, i :| k in b.keys && 0 <= i < |Bucket(b, k)| && Bucket(b, k)[i] == Find(b, id).value;
  }

  /** A move keeps a property of all records that does not depend on the status. */
  lemma MoveKeepsEverywhere(b: Board, id: int, newStatus: string, P: Task -> bool)
    requires WellFormed(b) && Everywhere(b, P)
    requires forall t: Task, s: string :: P(t) ==> P(t.(status := s))
    ensures MoveSpec(b, id, newStatus).Moved? || MoveSpec(b, id, newStatus).Lost? ==>
      Everywhere(MoveSpec(b, id, newStatus).board, P)
  {
    RemoveKeepsEverywhere(b, id, P);
    if MoveSpec(b, id, newStatus).Moved? {
      MovedShape(b, id, newStatus, MoveSpec(b, id, newStatus).board);
      FoundEverywhere(b, id, P);
      RemoveFacts(b, id);
      AddKeepsEverywhere(Remove(b, id), Find(b, id).value.(status := newStatus), newStatus, P);
    }
  }

  // ---------------------------------------------------------------------------------------
  // The handlers keep the collection consistent

  /** `initializeTaskLists` changes no list: it only adds empty ones. */
  lemma InitializeListsBuckets(b: Board)
    requires WellFormed(b)
    ensures forall k :: Bucket(InitializeLists(b), k) == Bucket(b, k)
  {
    var b1 := EnsureList(b, "todo");
    var b2 := EnsureList(b1, "inprogress");
    EnsureListFacts(b, "todo");
    EnsureListFacts(b1, "inprogress");
    EnsureListFacts(b2, "done");
  }

  /** `initializeTaskLists` keeps a consistent collection consistent. */
  lemma InitializeListsKeepsConsistent(b: Board, isValidDate: string -> bool)
    requires Consistent(b, isValidDate)
    ensures Consistent(InitializeLists(b), isValidDate)
  {
    var c := InitializeLists(b);
    InitializeListsFacts(b);
    InitializeListsBuckets(b);
    forall id
      ensures IdCount(c, id) <= 1
    {
      InitializeListsIds(b, id);
    }
    forall k, i | k in c.keys && 0 <= i < |Bucket(c, k)|
      ensures k in b.keys && Bucket(c, k)[i] == Bucket(b, k)[i]
    {
    }
  }

  /** The three empty lists form a consistent collection. */
  lemma DefaultListsConsistent(isValidDate: string -> bool)
    ensures Consistent(LoadTasksFromStorage(None), isValidDate)
  {
    var b := LoadTasksFromStorage(None);
    assert forall k :: Bucket(b, k) == [];
    forall id
      ensures IdCount(b, id) <= 1
    {
      SumByZero(b.keys, b.buckets, CountOf(id));
    }
  }

  /** The collection the app starts with is consistent when the stored one is (or nothing is stored). */
  lemma StartKeepsConsistent(stored: Option<Board>, isValidDate: string -> bool)
    requires stored.Some? ==> Consistent(stored.value, isValidDate)
    ensures Consistent(InitializeLists(LoadTasksFromStorage(stored)), isValidDate)
  {
    if stored.None? {
      DefaultListsConsistent(isValidDate);
    }
    InitializeListsKeepsConsistent(LoadTasksFromStorage(stored), isValidDate);
  }

  /** Adding validated form data under a fresh id keeps the collection consistent. */
  lemma SubmitAddKeepsConsistent(b: Board, formData: Patch, isValidDate: string -> bool, id: int, createdAt: string)
    requires Consistent(b, isValidDate) && FromForm(formData) && ValidateFormData(formData, isValidDate) && !HasId(b, id)
    ensures Consistent(Add(b, NewRecord(id, createdAt, "todo", formData), "todo"), isValidDate)
  {
    var r := NewRecord(id, createdAt, "todo", formData);
    AddFacts(b, r, "todo");
    AddKeepsUnique(b, r, "todo");
    AddKeepsStatuses(b, r, "todo");
    ValidatedMakesComplete(formData, isValidDate, id, createdAt, "todo", r);
    AddKeepsEverywhere(b, r, "todo", Complete);
    AddKeepsEverywhere(b, r, "todo", DateValid(isValidDate));
  }

  /** Merging validated form data into the record being edited keeps the collection consistent. */
  lemma SubmitUpdateKeepsConsistent(b: Board, editingId: int, formData: Patch, isValidDate: string -> bool)
    requires Consistent(b, isValidDate) && FromForm(formData) && ValidateFormData(formData, isValidDate)
    ensures Consistent(Update(b, editingId, formData), isValidDate)
  {
    UpdateFacts(b, editingId, formData);
    UpdateKeepsUnique(b, editingId, formData);
    UpdateKeepsStatuses(b, editingId, formData);
    forall t | Complete(t)
      ensures Complete(Merge(t, formData))
    {
      ValidatedMakesComplete(formData, isValidDate, 0, "", "", t);
    }
    UpdateKeepsEverywhere(b, editingId, formData, Complete);
    forall t | DateValid(isValidDate)(t)
      ensures DateValid(isValidDate)(Merge(t, formData))
    {
      ValidatedMakesComplete(formData, isValidDate, 0, "", "", t);
    }
    UpdateKeepsEverywhere(b, editingId, formData, DateValid(isValidDate));
  }

  /** Deleting keeps the collection consistent. */
  lemma DeleteKeepsConsistent(b: Board, id: int, isValidDate: string -> bool)
    requires Consistent(b, isValidDate)
    ensures Consistent(Remove(b, id), isValidDate)
  {
    RemoveFacts(b, id);
    RemoveKeepsUnique(b, id);
    RemoveKeepsEverywhere(b, id, Complete);
    RemoveKeepsEverywhere(b, id, DateValid(isValidDate));
  }

  /** A move of a consistent collection is never lost and keeps it consistent. */
  lemma MoveKeepsConsistent(b: Board, id: int, newStatus: string, isValidDate: string -> bool)
    requires Consistent(b, isValidDate)
    ensures !MoveSpec(b, id, newStatus).Lost?
    ensures MoveSpec(b, id, newStatus).Moved? ==> Consistent(MoveSpec(b, id, newStatus).board, isValidDate)
  {
    MoveKeepsStatuses(b, id, newStatus);
    MoveKeepsEverywhere(b, id, newStatus, Complete);
    MoveKeepsEverywhere(b, id, newStatus, DateValid(isValidDate));
    if MoveSpec(b, id, newStatus).Moved? {
      var c := MoveSpec(b, id, newStatus).board;
      MoveFacts(b, id, newStatus, Find(b, id).value, c);
      MoveKeepsUniqueAndCount(b, id, newStatus, c);
    }
  }

  /** The record the scenario below adds: what the form would submit, under the generated id and time. */
  function ScenarioTask(id: int, createdAt: string): Task {
    NewRecord(id, createdAt, "todo", Patch(None, None, None, Some("Write spec"), Some("x"), Some("high"), Some("work"), None))
  }

  /** Nothing stored: the three lists are already there, so `initializeTaskLists` adds none. */
  lemma ScenarioStart()
    ensures InitializeLists(LoadTasksFromStorage(None)) == LoadTasksFromStorage(None)
    ensures Count(LoadTasksFromStorage(None)) == 0
  {
    assert forall k :: Bucket(LoadTasksFromStorage(None), k) == [];
  }

  lemma ScenarioAdd(id: int, createdAt: string)
    ensures
      var b1 := Add(LoadTasksFromStorage(None), ScenarioTask(id, createdAt), "todo");
      WellFormed(b1) && Count(b1) == 1 && IdCount(b1, id) == 1 && Bucket(b1, "todo") == [ScenarioTask(id, createdAt)] &&
      Bucket(b1, "done") == [] && Find(b1, id) == Some(ScenarioTask(id, createdAt))
  {
    var b0 := LoadTasksFromStorage(None);
    var a := ScenarioTask(id, createdAt);
    assert !HasId(b0, id) by {
      assert forall k :: Bucket(b0, k) == [];
      SumByZero(b0.keys, b0.buckets, CountOf(id));
      IdCountPositive(b0, id);
    }
    AddFacts(b0, a, "todo");
    assert IdCount(Add(b0, a, "todo"), id) == 1 by {
      IdCountPositive(b0, id);
      AddIdCount(b0, a, "todo", id);
    }
    AppendedIsFound(b0, id, a, "todo");
  }

  lemma ScenarioMove(b1: Board, a: Task, id: int)
    requires WellFormed(b1) && Count(b1) == 1 && IdCount(b1, id) == 1 && Find(b1, id) == Some(a)
    requires a.status == "todo" && Bucket(b1, "todo") == [a] && Bucket(b1, "done") == [] && "done" in b1.buckets
    ensures MoveSpec(b1, id, "done").Moved?
    ensures
      var b2 := MoveSpec(b1, id, "done").board;
      Bucket(b2, "todo") == [] && Bucket(b2, "done") == [a.(status := "done")] &&
      Find(b2, id) == Some(a.(status := "done")) && Count(Remove(b2, id)) == 0
  {
    MoveSteps(b1, id, "done", 0, "");
    RemoveFacts(b1, id);
    assert Find(b1, id).value.status in Remove(b1, id).buckets;
    var b2 := MoveSpec(b1, id, "done").board;
    MoveFacts(b1, id, "done", a, b2);
    assert Filter([a], NotId(id)) == [] by {
      assert [a][1..] == [];
    }
    RemoveCount(b2, id);
  }

  /**
   * A fresh board: add a task to `todo`, move it to `done`, delete it. After the add there is
   * one record, in `todo`; after the move `todo` is empty, `done` holds it with status `done`;
   * after the delete nothing is left.
   */
  lemma CreateMoveDeleteScenario(id: int, createdAt: string)
    ensures
      var b1 := Add(InitializeLists(LoadTasksFromStorage(None)), ScenarioTask(id, createdAt), "todo");
      && Count(b1) == 1 && Bucket(b1, "todo") == [ScenarioTask(id, createdAt)]
      && MoveSpec(b1, id, "done").Moved?
      && var b2 := MoveSpec(b1, id, "done").board;
      && Bucket(b2, "todo") == [] && Bucket(b2, "done") == [ScenarioTask(id, createdAt).(status := "done")]
      && Find(b2, id) == Some(ScenarioTask(id, createdAt).(status := "done"))
      && Count(Remove(b2, id)) == 0
  {
    ScenarioStart();
    ScenarioAdd(id, createdAt);
    var b1 := Add(LoadTasksFromStorage(None), ScenarioTask(id, createdAt), "todo");
    AddFacts(LoadTasksFromStorage(None), ScenarioTask(id, createdAt), "todo");
    ScenarioMove(b1, ScenarioTask(id, createdAt), id);
  }

  // ---------------------------------------------------------------------------------------
  // The application object

  /** `if (this.editingTaskId)`: an id is being edited, and it is not the falsy 0. */
  predicate Editing(editingTaskId: Option<int>) {
    editingTaskId.Some? && editingTaskId.value != 0
  }

  class KanbanBoardApp {
    /** `this.taskManager`, which owns `this.tasks`. */
    const taskManager: TaskManager
    /** `this.editingTaskId`: null or the id of the record the modal edits. */
    var editingTaskId: Option<int>
    /** What `localStorage` holds under the app's key, as last saved. */
    var storage: Option<Board>
    /** How many times `localStorageManager.save` has been called. */
    var saves: nat

    ghost predicate Valid()
      reads this, taskManager
    {
      taskManager.Valid()
    }

    /** `this.tasks`. */
    function Tasks(): Board
      reads this, taskManager
    {
      taskManager.GetAllTasks()
    }

    /** `new KanbanBoardApp()` (script.js:765-781), with `stored` what `localStorage` holds. */
    constructor (stored: Option<Board>)
      requires stored.Some? ==> WellFormed(stored.value)
      ensures Valid() && fresh(taskManager)
      ensures Tasks() == InitializeLists(LoadTasksFromStorage(stored))
      ensures editingTaskId == None && storage == stored && saves == 0
    {
      editingTaskId := None;
      storage := stored;
      saves := 0;
      taskManager := new TaskManager(LoadTasksFromStorage(stored));
    }

    /** `this.localStorageManager.save(this.tasks)`. */
    method Save()
      modifies this
      ensures storage == Some(Tasks()) && saves == old(saves) + 1
      ensures editingTaskId == old(editingTaskId)
    {
      storage := Some(taskManager.GetAllTasks());
      saves := saves + 1;
    }

    /**
     * `handleTaskSubmit(formData)` (script.js:808-830): update the record being edited and stop
     * editing, or add a new record to `todo`; save when a record came back. `id` and `createdAt`
     * are the clock readings `addTask` would take. Returns the record saved, or null.
     */
    method HandleTaskSubmit(formData: Option<Patch>, id: int, createdAt: string) returns (updatedTask: Option<Task>)
      requires Valid()
      modifies this, taskManager
      ensures Valid()
      ensures formData.None? ==>
        updatedTask.None? && Tasks() == old(Tasks()) && editingTaskId == old(editingTaskId)
      ensures formData.Some? && Editing(old(editingTaskId)) ==>
        updatedTask == Updated(old(Tasks()), old(editingTaskId).value, formData.value) &&
        Tasks() == Update(old(Tasks()), old(editingTaskId).value, formData.value) &&
        editingTaskId == None
      ensures formData.Some? && !Editing(old(editingTaskId)) ==>
        updatedTask == Some(NewRecord(id, createdAt, "todo", formData.value)) &&
        Tasks() == Add(old(Tasks()), updatedTask.value, "todo") &&
        editingTaskId == old(editingTaskId)
      ensures updatedTask.Some? ==> storage == Some(Tasks()) && saves == old(saves) + 1
      ensures updatedTask.None? ==> storage == old(storage) && saves == old(saves)
    {
      updatedTask := None;
      if formData.Some? {
        if Editing(editingTaskId) {
          updatedTask := taskManager.UpdateTask(editingTaskId.value, formData.value);
          editingTaskId := None;
        } else {
          var added := taskManager.AddTask(formData.value, id, createdAt);
          updatedTask := Some(added);
        }
        if updatedTask.Some? {
          Save();
        }
      }
    }

    /** `handleTaskEdit({taskId})` (script.js:832-840): start editing the record when it exists. */
    method HandleTaskEdit(taskId: int)
      requires Valid()
      modifies this
      ensures Valid() && Tasks() == old(Tasks())
      ensures HasId(Tasks(), taskId) ==> editingTaskId == Some(taskId)
      ensures !HasId(Tasks(), taskId) ==> editingTaskId == old(editingTaskId)
      ensures storage == old(storage) && saves == old(saves)
    {
      var task := taskManager.GetTaskById(taskId);
      if task.Some? {
        editingTaskId := Some(taskId);
      }
    }

    /** `handleTaskDelete({taskId})` (script.js:842-849): when `confirmed`, remove the id everywhere and save. */
    method HandleTaskDelete(taskId: int, confirmed: bool)
      requires Valid()
      modifies this, taskManager
      ensures Valid() && editingTaskId == old(editingTaskId)
      ensures confirmed ==>
        Tasks() == Remove(old(Tasks()), taskId) && storage == Some(Tasks()) && saves == old(saves) + 1
      ensures !confirmed ==> Tasks() == old(Tasks()) && storage == old(storage) && saves == old(saves)
    {
      if confirmed {
        var _ := taskManager.RemoveTask(taskId);
        Save();
      }
    }

    /**
     * `handleTaskMove({taskId, newStatus})` (script.js:858-892): remove the record everywhere,
     * filter its old list once more, append the spread record with the new status, save.
     * Indexing a missing list throws; the `catch` swallows it and nothing is saved.
     * `now` and `nowIso` are the clock readings `addTask` would take; the spread overrides both.
     */
    method HandleTaskMove(taskId: int, newStatus: string, now: int, nowIso: string)
      requires Valid()
      modifies this, taskManager
      ensures Valid() && editingTaskId == old(editingTaskId)
      ensures MoveSpec(old(Tasks()), taskId, newStatus).NoMove? ==>
        Tasks() == old(Tasks()) && storage == old(storage) && saves == old(saves)
      ensures MoveSpec(old(Tasks()), taskId, newStatus).Lost? ==>
        Tasks() == MoveSpec(old(Tasks()), taskId, newStatus).board &&
        storage == old(storage) && saves == old(saves)
      ensures MoveSpec(old(Tasks()), taskId, newStatus).Moved? ==>
        Tasks() == MoveSpec(old(Tasks()), taskId, newStatus).board &&
        storage == Some(Tasks()) && saves == old(saves) + 1
    {
      ghost var before := Tasks();
      MoveSteps(before, taskId, newStatus, now, nowIso);
      var task := taskManager.GetTaskById(taskId);
      if task.Some? && task.value.status != newStatus {
        var t := task.value;
        var _ := taskManager.RemoveTask(taskId);
        if t.status !in taskManager.tasks {
          assert MoveSpec(before, taskId, newStatus) == Lost(Tasks());
          return;
        }
        taskManager.tasks := taskManager.tasks[t.status := Filter(taskManager.tasks[t.status], NotId(taskId))];
        assert Tasks() == Remove(before, taskId);
        var updatedTask := taskManager.AddTask(Spread(t).(status := Some(newStatus)), now, nowIso, newStatus);
        assert MoveSpec(before, taskId, newStatus) == Moved(Tasks());
        Save();
      }
    }
  }

  /**
   * Opening a record for editing and then closing the modal leaves `editingTaskId` set:
   * `hideModal` (script.js:386-390) only resets the form, and only `handleTaskSubmit` clears the
   * id (script.js:816). A new task submitted next is therefore merged into the edited record
   * instead of being added to `todo`.
   */
  method EditThenSubmitUpdates(stored: Option<Board>, editedId: int, formData: Patch, now: int, nowIso: string)
    returns (app: KanbanBoardApp, submitted: Option<Task>)
    requires stored.Some? ==> WellFormed(stored.value)
    requires editedId != 0 && HasId(InitializeLists(LoadTasksFromStorage(stored)), editedId)
    ensures submitted == Updated(InitializeLists(LoadTasksFromStorage(stored)), editedId, formData)
    ensures app.Tasks() == Update(InitializeLists(LoadTasksFromStorage(stored)), editedId, formData)
    ensures app.editingTaskId == None
  {
    app := new KanbanBoardApp(stored);
    app.HandleTaskEdit(editedId);
    submitted := app.HandleTaskSubmit(Some(formData), now, nowIso);
  }
}
