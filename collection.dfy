/**
 * The task collection of script.js as a value: the `tasks` object, a map from status to an
 * ordered list of records, with its keys in the order they were created. JavaScript iterates
 * `for…in`, `Object.entries` and `Object.values` in that order for non-numeric keys; keys that
 * look like array indices, which JavaScript lists first, are not modelled. The `TaskManager` operations are
 * specified here as functions on this value; class `TaskStore.TaskManager` implements them.
 */
module Collection {
  import opened Wrappers
  import opened Seqs
  import opened Tasks

  /** The `tasks` object: its keys in creation order and the bucket under each key. */
  datatype Board = Board(keys: seq<string>, buckets: map<string, seq<Task>>)

  /** The position of a record: its bucket's key and its index in that bucket. */
  datatype Location = Location(key: string, index: nat)

  predicate Distinct(keys: seq<string>) {
    forall i, j :: 0 <= i < j < |keys| ==> keys[i] != keys[j]
  }

  /** What a JavaScript object is: each key listed once, and the listed keys are those holding a bucket. */
  ghost predicate WellFormed(b: Board) {
    Distinct(b.keys) && forall k :: k in b.buckets <==> k in b.keys
  }

  /** The object with no task lists (a fresh, parsed-but-empty store). */
  const EmptyBoard := Board([], map[])

  /** `tasks[k] || []`. */
  function Lookup(m: map<string, seq<Task>>, k: string): seq<Task> {
    if k in m then m[k] else []
  }

  /** `getTasksByStatus(status)`: the bucket under `status`, or none (script.js:124-126). */
  function Bucket(b: Board, status: string): seq<Task> {
    Lookup(b.buckets, status)
  }

  /** The sum of `f` over the buckets listed in `keys`, in order (a `reduce` over `Object.values`). */
  function SumBy(keys: seq<string>, m: map<string, seq<Task>>, f: seq<Task> -> nat): nat {
    if keys == [] then 0 else f(Lookup(m, keys[0])) + SumBy(keys[1..], m, f)
  }

  function Length(s: seq<Task>): nat {
    |s|
  }

  /** The number of records in a bucket that carry `id`. */
  function CountOf(id: int): seq<Task> -> nat {
    s => |Filter(s, IsId(id))|
  }

  /** `getTasksCount()`: the bucket lengths added up (script.js:132-134). */
  function Count(b: Board): nat {
    SumBy(b.keys, b.buckets, Length)
  }

  /** How many records of the whole collection carry `id`. */
  function IdCount(b: Board, id: int): nat {
    SumBy(b.keys, b.buckets, CountOf(id))
  }

  ghost predicate HasIdIn(keys: seq<string>, m: map<string, seq<Task>>, id: int) {
    exists k, i :: k in keys && 0 <= i < |Lookup(m, k)| && Lookup(m, k)[i].id == id
  }

  /** Some bucket holds a record carrying `id`. */
  ghost predicate HasId(b: Board, id: int) {
    HasIdIn(b.keys, b.buckets, id)
  }

  /** No two records of the collection carry the same id. */
  ghost predicate Unique(b: Board) {
    forall id :: IdCount(b, id) <= 1
  }

  /** Every record's `status` names the bucket it is stored under. */
  ghost predicate StatusesMatch(b: Board) {
    forall k, i :: k in b.keys && 0 <= i < |Bucket(b, k)| ==> Bucket(b, k)[i].status == k
  }

  /** Every record of the collection satisfies `P`. */
  ghost predicate Everywhere(b: Board, P: Task -> bool) {
    forall k, i :: k in b.keys && 0 <= i < |Bucket(b, k)| ==> P(Bucket(b, k)[i])
  }

  /** `s.findIndex(task => task.id === id)`, or nothing. */
  function IndexOf(s: seq<Task>, id: int): (r: Option<nat>)
    ensures r.Some? ==> r.value < |s| && s[r.value].id == id
    ensures r.Some? ==> forall j :: 0 <= j < r.value ==> s[j].id != id
    ensures r.None? ==> forall j :: 0 <= j < |s| ==> s[j].id != id
  {
    if s == [] then None
    else if s[0].id == id then Some(0)
    else match IndexOf(s[1..], id)
      case None => None
      case Some(j) => Some(j + 1)
  }

  /** The first record carrying `id`, scanning the buckets listed in `keys` in order. */
  function LocateIn(keys: seq<string>, m: map<string, seq<Task>>, id: int): (r: Option<Location>)
    ensures r.Some? ==> r.value.key in keys && r.value.index < |Lookup(m, r.value.key)|
    ensures r.Some? ==> Lookup(m, r.value.key)[r.value.index].id == id
    ensures r.None? <==> !HasIdIn(keys, m, id)
  {
    if keys == [] then None
    else match IndexOf(Lookup(m, keys[0]), id)
      case Some(i) => Some(Location(keys[0], i))
      case None => LocateIn(keys[1..], m, id)
  }

  /**
   * The scan finds the FIRST match in key order: the list it names comes at some position `p`
   * of `keys`, the index is the first one in that list carrying `id`, and no list before `p`
   * holds the id at all.
   */
  lemma {:induction false} LocateInFirst(keys: seq<string>, m: map<string, seq<Task>>, id: int)
    ensures LocateIn(keys, m, id).Some? ==>
      var l := LocateIn(keys, m, id).value;
      exists p :: 0 <= p < |keys| && keys[p] == l.key && IndexOf(Lookup(m, l.key), id) == Some(l.index) &&
        forall q :: 0 <= q < p ==> IndexOf(Lookup(m, keys[q]), id).None?
  {
    if keys == [] {
    } else if IndexOf(Lookup(m, keys[0]), id).Some? {
      var l := Location(keys[0], IndexOf(Lookup(m, keys[0]), id).value);
      assert LocateIn(keys, m, id) == Some(l);
      assert keys[0] == l.key && IndexOf(Lookup(m, l.key), id) == Some(l.index);
    } else {
      var rest := keys[1..];
      assert LocateIn(keys, m, id) == LocateIn(rest, m, id);
      LocateInFirst(rest, m, id);
      if LocateIn(rest, m, id).Some? {
        var l := LocateIn(rest, m, id).value;
        var p :| 0 <= p < |rest| && rest[p] == l.key && IndexOf(Lookup(m, l.key), id) == Some(l.index) &&
          forall q :: 0 <= q < p ==> IndexOf(Lookup(m, rest[q]), id).None?;
        forall q | 0 <= q < p + 1
          ensures IndexOf(Lookup(m, keys[q]), id).None?
        {
          if q > 0 {
            assert keys[q] == rest[q - 1];
          }
        }
        assert keys[p + 1] == l.key;
      }
    }
  }

  /** One step of the scan: the first match in `keys[i..]` is in list `keys[i]` or further on. */
  lemma LocateStep(keys: seq<string>, m: map<string, seq<Task>>, id: int, i: nat)
    requires i < |keys|
    ensures LocateIn(keys[i..], m, id) ==
      match IndexOf(Lookup(m, keys[i]), id)
      case Some(j) => Some(Location(keys[i], j))
      case None => LocateIn(keys[i + 1..], m, id)
  {
    assert keys[i..][0] == keys[i] && keys[i..][1..] == keys[i + 1..];
  }

  /** The scan starts on all the keys and ends on none. */
  lemma LocateEnds(keys: seq<string>, m: map<string, seq<Task>>, id: int)
    ensures LocateIn(keys[0..], m, id) == LocateIn(keys, m, id)
    ensures LocateIn(keys[|keys|..], m, id) == None
  {
    assert keys[0..] == keys && keys[|keys|..] == [];
  }

  /** Where the first record carrying `id` is stored, if any. */
  function Locate(b: Board, id: int): Option<Location> {
    LocateIn(b.keys, b.buckets, id)
  }

  /** `getTaskById(id)` (script.js:111-122): the first record carrying `id`, or null. */
  function Find(b: Board, id: int): (r: Option<Task>)
    ensures r.Some? <==> HasId(b, id)
    ensures r.Some? ==> r.value.id == id
    ensures r.Some? ==> exists k, i :: k in b.keys && 0 <= i < |Bucket(b, k)| && Bucket(b, k)[i] == r.value
  {
    match Locate(b, id)
    case None => None
    case Some(l) => Some(Bucket(b, l.key)[l.index])
  }

  /** `if (!this.tasks[k]) this.tasks[k] = []`. */
  function EnsureList(b: Board, k: string): Board {
    if k in b.buckets then b else Board(b.keys + [k], b.buckets[k := []])
  }

  /** `initializeTaskLists()` (script.js:55-59). */
  function InitializeLists(b: Board): Board {
    EnsureList(EnsureList(EnsureList(b, "todo"), "inprogress"), "done")
  }

  /** `addTask` once the record is built: create the bucket if missing, then push (script.js:63-74). */
  function Add(b: Board, r: Task, status: string): Board {
    var c := EnsureList(b, status);
    Board(c.keys, c.buckets[status := Lookup(c.buckets, status) + [r]])
  }

  /** Every bucket with the records carrying `id` filtered out. */
  function RemovedMap(m: map<string, seq<Task>>, id: int): map<string, seq<Task>> {
    map k | k in m :: Filter(m[k], NotId(id))
  }

  /** `removeTask(id)` (script.js:83-92). */
  function Remove(b: Board, id: int): Board {
    Board(b.keys, RemovedMap(b.buckets, id))
  }

  /** `updateTask(id, updates)` (script.js:95-109): merge `updates` into the first record carrying `id`. */
  function Update(b: Board, id: int, updates: Patch): Board {
    match Locate(b, id)
    case None => b
    case Some(l) =>
      var s := Bucket(b, l.key);
      Board(b.keys, b.buckets[l.key := s[l.index := Merge(s[l.index], updates)]])
  }

  /** What `updateTask(id, updates)` returns: the merged record, or null. */
  function Updated(b: Board, id: int, updates: Patch): Option<Task> {
    match Find(b, id)
    case None => None
    case Some(t) => Some(Merge(t, updates))
  }

  // ---------------------------------------------------------------------------------------
  // Sums over buckets

  lemma DistinctTail(keys: seq<string>)
    requires Distinct(keys) && keys != []
    ensures Distinct(keys[1..]) && keys[0] !in keys[1..]
  {
    forall j | 0 <= j < |keys[1..]|
      ensures keys[1..][j] != keys[0]
    {
      assert keys[1..][j] == keys[j + 1];
    }
  }

  lemma {:induction false} SumByUnaffected(keys: seq<string>, m: map<string, seq<Task>>, k: string, s: seq<Task>, f: seq<Task> -> nat)
    requires k !in keys
    ensures SumBy(keys, m[k := s], f) == SumBy(keys, m, f)
  {
    if keys != [] {
      assert Lookup(m[k := s], keys[0]) == Lookup(m, keys[0]);
      SumByUnaffected(keys[1..], m, k, s, f);
    }
  }

  /** Replacing one listed bucket changes the sum by the difference of that bucket's values. */
  lemma {:induction false} SumByUpdate(keys: seq<string>, m: map<string, seq<Task>>, k: string, s: seq<Task>, f: seq<Task> -> nat)
    requires Distinct(keys) && k in keys
    ensures SumBy(keys, m[k := s], f) + f(Lookup(m, k)) == SumBy(keys, m, f) + f(s)
  {
    DistinctTail(keys);
    if keys[0] == k {
      SumByUnaffected(keys[1..], m, k, s, f);
    } else {
      assert Lookup(m[k := s], keys[0]) == Lookup(m, keys[0]);
      SumByUpdate(keys[1..], m, k, s, f);
    }
  }

  /** Appending a new key with its bucket adds that bucket's value to the sum. */
  lemma {:induction false} SumByAppend(keys: seq<string>, m: map<string, seq<Task>>, k: string, s: seq<Task>, f: seq<Task> -> nat)
    requires k !in keys
    ensures SumBy(keys + [k], m[k := s], f) == SumBy(keys, m, f) + f(s)
  {
    if keys == [] {
      assert [k][1..] == [];
    } else {
      assert (keys + [k])[0] == keys[0];
      assert (keys + [k])[1..] == keys[1..] + [k];
      assert Lookup(m[k := s], keys[0]) == Lookup(m, keys[0]);
      SumByAppend(keys[1..], m, k, s, f);
    }
  }

  lemma {:induction false} SumByAtLeast(keys: seq<string>, m: map<string, seq<Task>>, f: seq<Task> -> nat, k: string)
    requires k in keys
    ensures SumBy(keys, m, f) >= f(Lookup(m, k))
  {
    if keys[0] != k {
      SumByAtLeast(keys[1..], m, f, k);
    }
  }

  lemma {:induction false} SumByZero(keys: seq<string>, m: map<string, seq<Task>>, f: seq<Task> -> nat)
    requires forall k :: k in keys ==> f(Lookup(m, k)) == 0
    ensures SumBy(keys, m, f) == 0
  {
    if keys != [] {
      SumByZero(keys[1..], m, f);
    }
  }

  lemma {:induction false} SumByCongruent(keys: seq<string>, m: map<string, seq<Task>>, n: map<string, seq<Task>>, f: seq<Task> -> nat, g: seq<Task> -> nat)
    requires forall k :: k in keys ==> f(Lookup(m, k)) == g(Lookup(n, k))
    ensures SumBy(keys, m, f) == SumBy(keys, n, g)
  {
    if keys != [] {
      SumByCongruent(keys[1..], m, n, f, g);
    }
  }

  // ---------------------------------------------------------------------------------------
  // Presence and counting of ids

  /** The collection holds a record carrying `id` exactly when that id is counted. */
  lemma IdCountPositive(b: Board, id: int)
    ensures IdCount(b, id) > 0 <==> HasId(b, id)
  {
    if HasId(b, id) {
      var k, i :| k in b.keys && 0 <= i < |Lookup(b.buckets, k)| && Lookup(b.buckets, k)[i].id == id;
      assert Lookup(b.buckets, k)[i] in Filter(Lookup(b.buckets, k), IsId(id));
      SumByAtLeast(b.keys, b.buckets, CountOf(id), k);
    } else {
      forall k | k in b.keys
        ensures CountOf(id)(Lookup(b.buckets, k)) == 0
      {
        var s := Lookup(b.buckets, k);
        forall x | x in s
          ensures !IsId(id)(x)
        {
          var i :| 0 <= i < |s| && s[i] == x;
        }
        FilterNonePass(s, IsId(id));
      }
      SumByZero(b.keys, b.buckets, CountOf(id));
    }
  }

  /** In a collection without duplicate ids, a present id is carried by exactly one record. */
  lemma UniquePresentOnce(b: Board, id: int)
    requires Unique(b) && HasId(b, id)
    ensures IdCount(b, id) == 1
  {
    IdCountPositive(b, id);
  }

  /** No bucket is larger than the whole count (`getTasksByStatus` versus `getTasksCount`). */
  lemma BucketWithinCount(b: Board, status: string)
    requires WellFormed(b)
    ensures |Bucket(b, status)| <= Count(b)
  {
    if status in b.keys {
      SumByAtLeast(b.keys, b.buckets, Length, status);
    }
  }

  // ---------------------------------------------------------------------------------------
  // initializeTaskLists and addTask

  /** The collection counts no record exactly when every list is empty. */
  lemma CountZeroIffEmpty(b: Board)
    requires WellFormed(b)
    ensures Count(b) == 0 <==> forall k :: k in b.buckets ==> b.buckets[k] == []
  {
    if forall k :: k in b.buckets ==> b.buckets[k] == [] {
      SumByZero(b.keys, b.buckets, Length);
    } else {
      var k :| k in b.buckets && b.buckets[k] != [];
      SumByAtLeast(b.keys, b.buckets, Length, k);
    }
  }

  lemma DistinctAppend(keys: seq<string>, k: string)
    requires Distinct(keys) && k !in keys
    ensures Distinct(keys + [k])
  {
    forall i, j | 0 <= i < j < |keys + [k]|
      ensures (keys + [k])[i] != (keys + [k])[j]
    {
      if j == |keys| {
        assert (keys + [k])[i] == keys[i];
      }
    }
  }

  lemma EnsureListFacts(b: Board, k: string)
    requires WellFormed(b)
    ensures WellFormed(EnsureList(b, k)) && k in EnsureList(b, k).buckets
    ensures EnsureList(b, k).keys == if k in b.buckets then b.keys else b.keys + [k]
    ensures forall j :: j in b.buckets ==> j in EnsureList(b, k).buckets && EnsureList(b, k).buckets[j] == b.buckets[j]
    ensures forall j :: Bucket(EnsureList(b, k), j) == Bucket(b, j)
  {
    if k !in b.buckets {
      DistinctAppend(b.keys, k);
    }
  }

  lemma EnsureListSum(b: Board, k: string, f: seq<Task> -> nat)
    requires WellFormed(b)
    ensures SumBy(EnsureList(b, k).keys, EnsureList(b, k).buckets, f)
         == SumBy(b.keys, b.buckets, f) + (if k in b.buckets then 0 else f([]))
  {
    if k !in b.buckets {
      SumByAppend(b.keys, b.buckets, k, [], f);
    }
  }

  /**
   * `initializeTaskLists()`: afterwards the `todo`, `inprogress` and `done` lists exist, every list
   * that existed is untouched, and no task is added.
   */
  lemma InitializeListsFacts(b: Board)
    requires WellFormed(b)
    ensures WellFormed(InitializeLists(b))
    ensures "todo" in InitializeLists(b).buckets && "inprogress" in InitializeLists(b).buckets
    ensures "done" in InitializeLists(b).buckets
    ensures forall k :: k in b.buckets ==> k in InitializeLists(b).buckets && InitializeLists(b).buckets[k] == b.buckets[k]
    ensures Count(InitializeLists(b)) == Count(b)
  {
    InitializeListsShape(b);
    InitializeListsCount(b);
  }

  lemma InitializeListsShape(b: Board)
    requires WellFormed(b)
    ensures WellFormed(InitializeLists(b))
    ensures "todo" in InitializeLists(b).buckets && "inprogress" in InitializeLists(b).buckets
    ensures "done" in InitializeLists(b).buckets
    ensures forall k :: k in b.buckets ==> k in InitializeLists(b).buckets && InitializeLists(b).buckets[k] == b.buckets[k]
  {
    var b1 := EnsureList(b, "todo");
    var b2 := EnsureList(b1, "inprogress");
    EnsureListFacts(b, "todo");
    EnsureListFacts(b1, "inprogress");
    EnsureListFacts(b2, "done");
  }

  lemma InitializeListsCount(b: Board)
    requires WellFormed(b)
    ensures Count(InitializeLists(b)) == Count(b)
  {
    var b1 := EnsureList(b, "todo");
    var b2 := EnsureList(b1, "inprogress");
    EnsureListFacts(b, "todo");
    EnsureListFacts(b1, "inprogress");
    EnsureListSum(b, "todo", Length);
    EnsureListSum(b1, "inprogress", Length);
    EnsureListSum(b2, "done", Length);
  }

  /** `initializeTaskLists()` keeps the existing keys first, in order, and adds only the three default ones. */
  lemma InitializeListsKeys(b: Board)
    ensures b.keys <= InitializeLists(b).keys
    ensures forall k :: k in InitializeLists(b).keys ==> k in b.keys || k in ["todo", "inprogress", "done"]
  {
    var b1 := EnsureList(b, "todo");
    var b2 := EnsureList(b1, "inprogress");
    var c := EnsureList(b2, "done");
    assert b.keys <= b1.keys && b1.keys <= b2.keys && b2.keys <= c.keys;
    assert forall k :: k in b1.keys ==> k in b.keys || k == "todo";
    assert forall k :: k in b2.keys ==> k in b1.keys || k == "inprogress";
    assert forall k :: k in c.keys ==> k in b2.keys || k == "done";
  }

  /** `initializeTaskLists()` neither adds nor drops any id. */
  lemma InitializeListsIds(b: Board, id: int)
    requires WellFormed(b)
    ensures IdCount(InitializeLists(b), id) == IdCount(b, id)
  {
    var b1 := EnsureList(b, "todo");
    var b2 := EnsureList(b1, "inprogress");
    EnsureListFacts(b, "todo");
    EnsureListFacts(b1, "inprogress");
    EnsureListSum(b, "todo", CountOf(id));
    EnsureListSum(b1, "inprogress", CountOf(id));
    EnsureListSum(b2, "done", CountOf(id));
  }

  /**
   * `addTask(task, status)`: exactly one record is appended, at the end of `tasks[status]`,
   * the list is created when missing, every other list is unchanged, and the count grows by one.
   */
  lemma AddFacts(b: Board, r: Task, status: string)
    requires WellFormed(b)
    ensures WellFormed(Add(b, r, status))
    ensures Add(b, r, status).keys == if status in b.buckets then b.keys else b.keys + [status]
    ensures Bucket(Add(b, r, status), status) == Bucket(b, status) + [r]
    ensures forall k :: k != status ==> Bucket(Add(b, r, status), k) == Bucket(b, k)
    ensures Count(Add(b, r, status)) == Count(b) + 1
  {
    AddShape(b, r, status);
    AddCount(b, r, status);
  }

  lemma AddShape(b: Board, r: Task, status: string)
    requires WellFormed(b)
    ensures WellFormed(Add(b, r, status))
    ensures Add(b, r, status).keys == if status in b.buckets then b.keys else b.keys + [status]
    ensures Bucket(Add(b, r, status), status) == Bucket(b, status) + [r]
    ensures forall k :: k != status ==> Bucket(Add(b, r, status), k) == Bucket(b, k)
  {
    var c := EnsureList(b, status);
    EnsureListFacts(b, status);
    assert Lookup(c.buckets, status) == Bucket(b, status);
    assert c.buckets[status := Lookup(c.buckets, status) + [r]].Keys == c.buckets.Keys;
  }

  lemma AddCount(b: Board, r: Task, status: string)
    requires WellFormed(b)
    ensures Count(Add(b, r, status)) == Count(b) + 1
  {
    var c := EnsureList(b, status);
    EnsureListFacts(b, status);
    EnsureListSum(b, status, Length);
    SumByUpdate(c.keys, c.buckets, status, Lookup(c.buckets, status) + [r], Length);
  }

  /** `addTask` adds one occurrence of the new record's id and none of any other. */
  lemma AddIdCount(b: Board, r: Task, status: string, id: int)
    requires WellFormed(b)
    ensures IdCount(Add(b, r, status), id) == IdCount(b, id) + (if r.id == id then 1 else 0)
  {
    var c := EnsureList(b, status);
    var s := Lookup(c.buckets, status);
    EnsureListFacts(b, status);
    EnsureListSum(b, status, CountOf(id));
    SumByUpdate(c.keys, c.buckets, status, s + [r], CountOf(id));
    FilterConcat(s, [r], IsId(id));
    assert [r][1..] == [];
  }

  /** `addTask` keeps ids unique when the new record's id is not present yet. */
  lemma AddKeepsUnique(b: Board, r: Task, status: string)
    requires WellFormed(b) && Unique(b) && !HasId(b, r.id)
    ensures Unique(Add(b, r, status))
  {
    IdCountPositive(b, r.id);
    forall id
      ensures IdCount(Add(b, r, status), id) <= 1
    {
      AddIdCount(b, r, status, id);
    }
  }

  /** `addTask` keeps every record's status equal to its list when the new record's status names its list. */
  lemma AddKeepsStatuses(b: Board, r: Task, status: string)
    requires WellFormed(b) && StatusesMatch(b) && r.status == status
    ensures StatusesMatch(Add(b, r, status))
  {
    AddFacts(b, r, status);
    var a := Add(b, r, status);
    forall k, i | k in a.keys && 0 <= i < |Bucket(a, k)|
      ensures Bucket(a, k)[i].status == k
    {
      if k == status && i == |Bucket(b, k)| {
      } else {
        assert k in b.keys;
      }
    }
  }

  /** `addTask` keeps a property of all records when the new record has it. */
  lemma AddKeepsEverywhere(b: Board, r: Task, status: string, P: Task -> bool)
    requires WellFormed(b) && Everywhere(b, P) && P(r)
    ensures Everywhere(Add(b, r, status), P)
  {
    AddFacts(b, r, status);
    var a := Add(b, r, status);
    forall k, i | k in a.keys && 0 <= i < |Bucket(a, k)|
      ensures P(Bucket(a, k)[i])
    {
      if k == status && i == |Bucket(b, k)| {
      } else {
        assert k in b.keys;
      }
    }
  }

  // ---------------------------------------------------------------------------------------
  // removeTask

  /** The lists under the keys in `visited` with `id` filtered out, the others as they were. */
  ghost function RemovedUpTo(m: map<string, seq<Task>>, visited: seq<string>, id: int): map<string, seq<Task>> {
    map k | k in m :: if k in visited then Filter(m[k], NotId(id)) else m[k]
  }

  /** The `for…in` loop of `removeTask` visiting one more key, `keys[i]`, which it has not visited yet. */
  lemma RemovedUpToStep(m: map<string, seq<Task>>, keys: seq<string>, i: nat, id: int)
    requires Distinct(keys) && i < |keys| && keys[i] in m
    ensures RemovedUpTo(m, keys[..i], id)[keys[i]] == m[keys[i]]
    ensures RemovedUpTo(m, keys[..i + 1], id)
         == RemovedUpTo(m, keys[..i], id)[keys[i] := Filter(m[keys[i]], NotId(id))]
  {
    assert forall j :: 0 <= j < i ==> keys[..i][j] != keys[i];
    assert keys[..i + 1] == keys[..i] + [keys[i]];
  }

  /** Before the loop nothing is filtered; after it, every list is. */
  lemma RemovedUpToEnds(m: map<string, seq<Task>>, keys: seq<string>, id: int)
    requires forall k :: k in m <==> k in keys
    ensures RemovedUpTo(m, keys[..0], id) == m
    ensures RemovedUpTo(m, keys[..|keys|], id) == RemovedMap(m, id)
  {
    assert keys[..|keys|] == keys;
  }

  lemma LookupRemoved(m: map<string, seq<Task>>, id: int, k: string)
    ensures Lookup(RemovedMap(m, id), k) == Filter(Lookup(m, k), NotId(id))
  {
  }

  /**
   * `removeTask(id)`: no record carrying `id` is left in any list, the keys are unchanged, each list
   * keeps exactly its records with other ids, in their relative order.
   */
  lemma RemoveFacts(b: Board, id: int)
    requires WellFormed(b)
    ensures WellFormed(Remove(b, id)) && Remove(b, id).keys == b.keys
    ensures !HasId(Remove(b, id), id)
    ensures forall k :: IsSubsequence(Bucket(Remove(b, id), k), Bucket(b, k))
    ensures forall k, t :: t in Bucket(Remove(b, id), k) <==> t in Bucket(b, k) && t.id != id
  {
    var c := Remove(b, id);
    forall k
      ensures IsSubsequence(Bucket(c, k), Bucket(b, k))
      ensures Bucket(c, k) == Filter(Bucket(b, k), NotId(id))
    {
      LookupRemoved(b.buckets, id, k);
      FilterIsSubsequence(Bucket(b, k), NotId(id));
    }
    forall k, i | k in c.keys && 0 <= i < |Lookup(c.buckets, k)|
      ensures Lookup(c.buckets, k)[i].id != id
    {
      assert Lookup(c.buckets, k)[i] in Bucket(c, k);
    }
  }

  /** `removeTask` of an id that no record carries changes nothing. */
  lemma RemoveAbsent(b: Board, id: int)
    requires WellFormed(b) && !HasId(b, id)
    ensures Remove(b, id) == b
  {
    forall k | k in b.buckets
      ensures RemovedMap(b.buckets, id)[k] == b.buckets[k]
    {
      forall t | t in b.buckets[k]
        ensures NotId(id)(t)
      {
        var i :| 0 <= i < |b.buckets[k]| && b.buckets[k][i] == t;
        assert Lookup(b.buckets, k)[i] == t;
      }
      FilterAllPass(b.buckets[k], NotId(id));
    }
    assert RemovedMap(b.buckets, id) == b.buckets;
  }

  lemma {:induction false} RemovedSum(keys: seq<string>, m: map<string, seq<Task>>, id: int)
    ensures SumBy(keys, RemovedMap(m, id), Length) + SumBy(keys, m, CountOf(id)) == SumBy(keys, m, Length)
  {
    if keys != [] {
      LookupRemoved(m, id, keys[0]);
      FilterComplementLength(Lookup(m, keys[0]), NotId(id), IsId(id));
      RemovedSum(keys[1..], m, id);
    }
  }

  /** `removeTask` lowers the count by the number of records that carried the id. */
  lemma RemoveCount(b: Board, id: int)
    ensures Count(Remove(b, id)) + IdCount(b, id) == Count(b)
  {
    RemovedSum(b.keys, b.buckets, id);
  }

  /** `removeTask(id)` drops every occurrence of `id` and no occurrence of any other id. */
  lemma RemoveIdCount(b: Board, id: int, other: int)
    ensures IdCount(Remove(b, id), other) == if other == id then 0 else IdCount(b, other)
  {
    var m := RemovedMap(b.buckets, id);
    if other == id {
      forall k | k in b.keys
        ensures CountOf(other)(Lookup(m, k)) == 0
      {
        LookupRemoved(b.buckets, id, k);
        FilterFilterExclusive(Lookup(b.buckets, k), NotId(id), IsId(other));
      }
      SumByZero(b.keys, m, CountOf(other));
    } else {
      forall k | k in b.keys
        ensures CountOf(other)(Lookup(m, k)) == CountOf(other)(Lookup(b.buckets, k))
      {
        LookupRemoved(b.buckets, id, k);
        FilterFilterStronger(Lookup(b.buckets, k), NotId(id), IsId(other));
      }
      SumByCongruent(b.keys, m, b.buckets, CountOf(other), CountOf(other));
    }
  }

  /** `removeTask` keeps ids unique. */
  lemma RemoveKeepsUnique(b: Board, id: int)
    requires Unique(b)
    ensures Unique(Remove(b, id))
  {
    forall other
      ensures IdCount(Remove(b, id), other) <= 1
    {
      RemoveIdCount(b, id, other);
    }
  }

  /** `removeTask` keeps a property of all records, and every record's status equal to its list. */
  lemma RemoveKeepsEverywhere(b: Board, id: int, P: Task -> bool)
    requires WellFormed(b)
    ensures Everywhere(b, P) ==> Everywhere(Remove(b, id), P)
    ensures StatusesMatch(b) ==> StatusesMatch(Remove(b, id))
  {
    RemoveFacts(b, id);
    var c := Remove(b, id);
    forall k, i | k in c.keys && 0 <= i < |Bucket(c, k)|
      ensures exists j :: 0 <= j < |Bucket(b, k)| && Bucket(b, k)[j] == Bucket(c, k)[i]
    {
      assert Bucket(c, k)[i] in Bucket(b, k);
    }
  }

  // ---------------------------------------------------------------------------------------
  // updateTask

  /** Two lists whose records carry the same ids at the same positions. */
  ghost predicate SameIds(s: seq<Task>, t: seq<Task>) {
    |s| == |t| && forall i :: 0 <= i < |s| ==> s[i].id == t[i].id
  }

  lemma {:induction false} IndexOfSameIds(s: seq<Task>, t: seq<Task>, id: int)
    requires SameIds(s, t)
    ensures IndexOf(s, id) == IndexOf(t, id)
  {
    if s != [] {
      assert SameIds(s[1..], t[1..]) by {
        forall i | 0 <= i < |s[1..]|
          ensures s[1..][i].id == t[1..][i].id
        {
          assert s[1..][i] == s[i + 1] && t[1..][i] == t[i + 1];
        }
      }
      IndexOfSameIds(s[1..], t[1..], id);
    }
  }

  /** Where an id is found depends only on the ids at each position. */
  lemma {:induction false} LocateSameIds(keys: seq<string>, m: map<string, seq<Task>>, n: map<string, seq<Task>>, id: int)
    requires forall k :: k in keys ==> SameIds(Lookup(m, k), Lookup(n, k))
    ensures LocateIn(keys, m, id) == LocateIn(keys, n, id)
  {
    if keys != [] {
      IndexOfSameIds(Lookup(m, keys[0]), Lookup(n, keys[0]), id);
      LocateSameIds(keys[1..], m, n, id);
    }
  }

  /** A record that is the only one carrying its id is the one found. */
  lemma {:induction false} LocateSingle(keys: seq<string>, m: map<string, seq<Task>>, id: int, k0: string, i0: nat)
    requires k0 in keys && i0 < |Lookup(m, k0)| && Lookup(m, k0)[i0].id == id
    requires forall k, i :: k in keys && 0 <= i < |Lookup(m, k)| && Lookup(m, k)[i].id == id ==> k == k0 && i == i0
    ensures LocateIn(keys, m, id) == Some(Location(k0, i0))
  {
    var r := IndexOf(Lookup(m, keys[0]), id);
    if keys[0] != k0 {
      assert r.None?;
      LocateSingle(keys[1..], m, id, k0, i0);
    } else {
      assert r == Some(i0);
    }
  }

  /**
   * `updateTask(id, updates)` with an id no record carries changes nothing; otherwise it changes only
   * the record found, into that record merged with `updates`, in the same list at the same position.
   */
  lemma UpdateFacts(b: Board, id: int, updates: Patch)
    requires WellFormed(b)
    ensures WellFormed(Update(b, id, updates)) && Update(b, id, updates).keys == b.keys
    ensures Count(Update(b, id, updates)) == Count(b)
    ensures !HasId(b, id) ==> Update(b, id, updates) == b
    ensures HasId(b, id) ==>
      var l := Locate(b, id).value;
      && Bucket(Update(b, id, updates), l.key) == Bucket(b, l.key)[l.index := Merge(Bucket(b, l.key)[l.index], updates)]
      && forall k :: k != l.key ==> Bucket(Update(b, id, updates), k) == Bucket(b, k)
  {
    if HasId(b, id) {
      var l := Locate(b, id).value;
      var s := Bucket(b, l.key);
      SumByUpdate(b.keys, b.buckets, l.key, s[l.index := Merge(s[l.index], updates)], Length);
    }
  }

  /** `updateTask` once the first record carrying the id is known to sit at `index` of list `key`. */
  lemma UpdateAt(b: Board, id: int, updates: Patch, key: string, index: nat)
    requires WellFormed(b) && Locate(b, id) == Some(Location(key, index))
    ensures key in b.buckets && index < |b.buckets[key]|
    ensures WellFormed(Update(b, id, updates))
    ensures Update(b, id, updates) == Board(b.keys, b.buckets[key := b.buckets[key][index := Merge(b.buckets[key][index], updates)]])
    ensures Updated(b, id, updates) == Some(Merge(b.buckets[key][index], updates))
  {
  }

  /** `updateTask` when the scan finds no record carrying the id. */
  lemma UpdateNone(b: Board, id: int, updates: Patch)
    requires Locate(b, id) == None
    ensures Update(b, id, updates) == b && Updated(b, id, updates) == None
  {
  }

  /** After `updateTask(id, updates)` that keeps the id, looking the id up yields what the update returned. */
  lemma UpdateThenFind(b: Board, id: int, updates: Patch)
    requires WellFormed(b) && (updates.id.None? || updates.id == Some(id))
    ensures Locate(Update(b, id, updates), id) == Locate(b, id)
    ensures Find(Update(b, id, updates), id) == Updated(b, id, updates)
  {
    if HasId(b, id) {
      var l := Locate(b, id).value;
      var u := Update(b, id, updates);
      forall k | k in b.keys
        ensures SameIds(Lookup(u.buckets, k), Lookup(b.buckets, k))
      {
      }
      LocateSameIds(b.keys, u.buckets, b.buckets, id);
    }
  }

  /** Repeating `updateTask(id, updates)` that keeps the id changes nothing more. */
  lemma UpdateIdempotent(b: Board, id: int, updates: Patch)
    requires WellFormed(b) && (updates.id.None? || updates.id == Some(id))
    ensures Update(Update(b, id, updates), id, updates) == Update(b, id, updates)
  {
    UpdateThenFind(b, id, updates);
    if HasId(b, id) {
      var l := Locate(b, id).value;
      var s := Bucket(b, l.key);
      MergeIdempotent(s[l.index], updates);
      var u := Update(b, id, updates);
      var su := Bucket(u, l.key);
      assert su == s[l.index := Merge(s[l.index], updates)];
      assert su[l.index] == Merge(s[l.index], updates);
      assert su[l.index := Merge(su[l.index], updates)] == su;
      assert u.buckets[l.key := su[l.index := Merge(su[l.index], updates)]] == u.buckets;
    }
  }

  /** `updateTask` whose patch names no id keeps the multiset of ids, hence uniqueness. */
  lemma UpdateKeepsUnique(b: Board, id: int, updates: Patch)
    requires WellFormed(b) && Unique(b) && updates.id.None?
    ensures Unique(Update(b, id, updates))
  {
    if HasId(b, id) {
      var l := Locate(b, id).value;
      var s := Bucket(b, l.key);
      forall other
        ensures IdCount(Update(b, id, updates), other) <= 1
      {
        var s' := s[l.index := Merge(s[l.index], updates)];
        SumByUpdate(b.keys, b.buckets, l.key, s', CountOf(other));
        FilterLengthPointwise(s, l.index, Merge(s[l.index], updates), IsId(other));
        assert CountOf(other)(s') == CountOf(other)(s);
        assert Update(b, id, updates).buckets == b.buckets[l.key := s'];
        assert IdCount(b, other) <= 1;
      }
    }
  }

  /** `updateTask` keeps a property of all records that merging `updates` preserves. */
  lemma UpdateKeepsEverywhere(b: Board, id: int, updates: Patch, P: Task -> bool)
    requires WellFormed(b) && Everywhere(b, P)
    requires forall t :: P(t) ==> P(Merge(t, updates))
    ensures Everywhere(Update(b, id, updates), P)
  {
    UpdateFacts(b, id, updates);
    var u := Update(b, id, updates);
    if HasId(b, id) {
      var l := Locate(b, id).value;
      forall k, i | k in u.keys && 0 <= i < |Bucket(u, k)|
        ensures P(Bucket(u, k)[i])
      {
        if k == l.key && i == l.index {
          assert P(Bucket(b, k)[i]);
        } else {
          assert Bucket(u, k)[i] == Bucket(b, k)[i];
        }
      }
    }
  }

  /** `updateTask` whose patch names no status keeps every record's status equal to its list. */
  lemma UpdateKeepsStatuses(b: Board, id: int, updates: Patch)
    requires WellFormed(b) && StatusesMatch(b) && updates.status.None?
    ensures StatusesMatch(Update(b, id, updates))
  {
    UpdateFacts(b, id, updates);
    var u := Update(b, id, updates);
    if HasId(b, id) {
      var l := Locate(b, id).value;
      forall k, i | k in u.keys && 0 <= i < |Bucket(u, k)|
        ensures Bucket(u, k)[i].status == k
      {
        if k == l.key && i == l.index {
          assert Bucket(b, k)[i].status == k;
        } else {
          assert Bucket(u, k)[i] == Bucket(b, k)[i];
        }
      }
    }
  }
}
