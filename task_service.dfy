/**
 * The in-memory task registry (Services/TaskService.cs): one list of task
 * objects, appended to by AddTask and updated in place by CompleteTask and
 * UncheckTask.
 *
 * The first half of the module is the value-level specification: what the
 * stored list holds, as a sequence of TaskView values, and the pure
 * functions that say how each operation changes it. The second half is the
 * service itself, as classes over the heap, proved against those functions.
 */
module Services {
  import opened Wrappers
  import opened Models

  // ---------------------------------------------------------------------
  // The stored list, by value
  // ---------------------------------------------------------------------

  /** The values of the objects in `s`, position by position. */
  function View(s: seq<TaskItem>): (v: seq<TaskView>)
    reads s
    ensures |v| == |s|
    ensures forall i :: 0 <= i < |s| ==> v[i] == s[i].Snapshot()
  {
    if s == [] then [] else [s[0].Snapshot()] + View(s[1..])
  }

  /** No object occurs twice in `s` (it is never added a second time). */
  predicate Distinct(s: seq<TaskItem>) {
    forall i, j :: 0 <= i < j < |s| ==> s[i] != s[j]
  }

  /** The task at position `i` carries id `i + 1`: ids are 1, 2, 3, ... in insertion order. */
  predicate SequentialIds(s: seq<TaskItem>)
    reads s
  {
    forall i :: 0 <= i < |s| ==> s[i].id == i + 1
  }

  /** Every stored task has an owner that is not null, empty or whitespace. */
  predicate AllOwned(s: seq<TaskItem>)
    reads s
  {
    forall i :: 0 <= i < |s| ==> !IsNullOrWhiteSpace(s[i].userId)
  }

  /** Under sequential numbering an id names at most one stored task, so no object is stored twice. */
  lemma SequentialIdsAreUnique(s: seq<TaskItem>)
    requires SequentialIds(s)
    ensures forall i, j :: 0 <= i < |s| && 0 <= j < |s| && s[i].id == s[j].id ==> i == j
    ensures Distinct(s)
  {
  }

  // ---------------------------------------------------------------------
  // Filtering by owner: `_tasks.Where(t => t.UserId == userId).ToList()`
  // ---------------------------------------------------------------------

  /** The objects of `s` whose owner equals `userId` (ordinal, null-aware equality), in order. */
  function Filter(s: seq<TaskItem>, userId: NullableString): seq<TaskItem>
    reads s
  {
    if s == [] then []
    else (if s[0].userId == userId then [s[0]] else []) + Filter(s[1..], userId)
  }

  /** `r` can be obtained from `s` by deleting elements, keeping the order of the rest. */
  predicate IsSubsequence<T(==)>(r: seq<T>, s: seq<T>)
    decreases |s|
  {
    r == [] ||
    (s != [] &&
     ((r[0] == s[0] && IsSubsequence(r[1..], s[1..])) || IsSubsequence(r, s[1..])))
  }

  /** The filter keeps every occurrence of a matching object and no occurrence of any other. */
  lemma {:induction false} FilterMultiplicity(s: seq<TaskItem>, userId: NullableString)
    ensures forall t :: t in s ==>
      multiset(Filter(s, userId))[t] == (if t.userId == userId then multiset(s)[t] else 0)
    ensures forall t :: t in Filter(s, userId) ==> t in s
    ensures forall t :: t in s ==> (t in Filter(s, userId) <==> t.userId == userId)
  {
    if s != [] {
      FilterMultiplicity(s[1..], userId);
      assert s == [s[0]] + s[1..];
      assert multiset(s) == multiset([s[0]]) + multiset(s[1..]);
      var head := if s[0].userId == userId then [s[0]] else [];
      assert multiset(Filter(s, userId)) == multiset(head) + multiset(Filter(s[1..], userId));
    }
  }

  /** The filter keeps the relative order of the objects it keeps. */
  lemma {:induction false} FilterIsSubsequence(s: seq<TaskItem>, userId: NullableString)
    ensures IsSubsequence(Filter(s, userId), s)
  {
    if s != [] {
      FilterIsSubsequence(s[1..], userId);
      var r := Filter(s, userId);
      if s[0].userId == userId {
        assert r[0] == s[0] && r[1..] == Filter(s[1..], userId);
      } else {
        assert r == Filter(s[1..], userId);
      }
    }
  }

  /** Filtering a concatenation filters each part: appending a task appends to each owner's view. */
  lemma {:induction false} FilterAppend(a: seq<TaskItem>, b: seq<TaskItem>, userId: NullableString)
    ensures Filter(a + b, userId) == Filter(a, userId) + Filter(b, userId)
  {
    if a == [] {
      assert a + b == b;
    } else {
      assert (a + b)[0] == a[0];
      assert (a + b)[1..] == a[1..] + b;
      FilterAppend(a[1..], b, userId);
    }
  }

  /** The filter looks at owners only: changing other fields does not change it. */
  twostate lemma FilterFrame(s: seq<TaskItem>)
    requires forall i :: 0 <= i < |s| ==> old(s[i].userId) == s[i].userId
    ensures forall userId :: Filter(s, userId) == old(Filter(s, userId))
  {
    var i := |s|;
    while i > 0
      invariant 0 <= i <= |s|
      invariant forall userId :: Filter(s[i..], userId) == old(Filter(s[i..], userId))
    {
      i := i - 1;
      assert s[i..][1..] == s[i + 1..];
    }
    assert s[0..] == s;
  }

  // ---------------------------------------------------------------------
  // Finding by id and setting the completion flag
  // ---------------------------------------------------------------------

  /** Position `k` holds a task with id `taskId` and no earlier position does. */
  predicate IsFirstWithId(v: seq<TaskView>, k: nat, taskId: int)
    requires k < |v|
  {
    v[k].id == taskId && forall j :: 0 <= j < k ==> v[j].id != taskId
  }

  /** The position `FirstOrDefault(t => t.Id == taskId)` stops at, if any. */
  function FirstWithId(v: seq<TaskView>, taskId: int): (k: Option<nat>)
    ensures k.Some? ==> k.value < |v| && IsFirstWithId(v, k.value, taskId)
    ensures k.None? ==> forall j :: 0 <= j < |v| ==> v[j].id != taskId
  {
    if v == [] then None
    else if v[0].id == taskId then Some(0)
    else
      match FirstWithId(v[1..], taskId)
      case None => None
      case Some(k) => Some(k + 1)
  }

  /**
   * The stored values after the flag of the first task with id `taskId` is
   * set to `done`: that one task may change, in that one field; nothing else does.
   */
  function SetCompletion(v: seq<TaskView>, taskId: int, done: bool): (r: seq<TaskView>)
    ensures |r| == |v|
    ensures forall i :: 0 <= i < |v| ==>
      r[i] == if IsFirstWithId(v, i, taskId) then v[i].(isCompleted := done) else v[i]
  {
    match FirstWithId(v, taskId)
    case None => v
    case Some(k) => v[k := v[k].(isCompleted := done)]
  }

  /**
   * Two flag updates on the same id: the second one wins. Completing twice is
   * completing once, and completing then unchecking is unchecking.
   */
  lemma SetCompletionLastWins(v: seq<TaskView>, taskId: int, first: bool, second: bool)
    ensures SetCompletion(SetCompletion(v, taskId, first), taskId, second)
         == SetCompletion(v, taskId, second)
  {
  }

  /** The guard of AddTask: the task is present and its owner is not blank. */
  predicate Accepts(task: TaskItem?)
    reads task
  {
    task != null && !IsNullOrWhiteSpace(task.userId)
  }

  // ---------------------------------------------------------------------
  // The service
  // ---------------------------------------------------------------------

  /**
   * The `List<TaskItem>` object behind the private `_tasks` field. It is an
   * object of its own because GetTasks hands out this very object.
   */
  class TaskList {
    var items: seq<TaskItem>

    constructor ()
      ensures items == []
    {
      items := [];
    }
  }

  class TaskService {
    /** `private readonly List<TaskItem> _tasks = new();` */
    const tasks: TaskList

    constructor ()
      ensures fresh(tasks) && tasks.items == []
    {
      tasks := new TaskList();
    }

    /** The values of the stored tasks, in list order. */
    function Contents(): seq<TaskView>
      reads tasks, tasks.items
    {
      View(tasks.items)
    }

    /**
     * The stored objects owned by `userId`, in list order, each as often as
     * it is stored: a new list holding the same objects.
     */
    function GetTasksForUser(userId: NullableString): (r: seq<TaskItem>)
      reads tasks, tasks.items
      ensures forall t :: t in r ==> t in tasks.items
      ensures forall t :: t in tasks.items ==> (t in r <==> t.userId == userId)
      ensures forall t :: t in tasks.items ==>
        multiset(r)[t] == (if t.userId == userId then multiset(tasks.items)[t] else 0)
      ensures IsSubsequence(r, tasks.items)
    {
      FilterMultiplicity(tasks.items, userId);
      FilterIsSubsequence(tasks.items, userId);
      Filter(tasks.items, userId)
    }

    /** The stored list itself, not a copy: callers share it with the service. */
    method GetTasks() returns (list: TaskList)
      ensures list == tasks
    {
      list := tasks;
    }

    /**
     * Refuses a null task or one whose owner is null, empty or whitespace,
     * changing nothing; otherwise numbers the task with the old count plus
     * one and appends it. No field of the task other than its id is written.
     */
    method AddTask(task: TaskItem?)
      modifies tasks, task
      ensures Accepts(task) == old(Accepts(task))
      ensures tasks.items == if Accepts(task) then old(tasks.items) + [task] else old(tasks.items)
      ensures Accepts(task) ==> task.id == old(|tasks.items|) + 1
      ensures task != null ==> task.Snapshot() == old(task.Snapshot()).(id := task.id)
      ensures task != null && !Accepts(task) ==> unchanged(task)
      ensures forall u :: (Filter(tasks.items, u) ==
        old(Filter(tasks.items, u)) + (if Accepts(task) && task.userId == u then [task] else []))
      ensures old(SequentialIds(tasks.items)) && old(task !in tasks.items) ==> SequentialIds(tasks.items)
      ensures old(AllOwned(tasks.items)) ==> AllOwned(tasks.items)
    {
      if task == null {
        return;
      }
      if IsNullOrWhiteSpace(task.userId) {
        return;
      }
      ghost var s0 := tasks.items;
      task.id := |tasks.items| + 1;
      tasks.items := tasks.items + [task];
      FilterFrame(s0);
      forall u
        ensures Filter(tasks.items, u) == old(Filter(tasks.items, u)) + (if task.userId == u then [task] else [])
      {
        FilterAppend(s0, [task], u);
        assert [task][1..] == [];
      }
    }

    /**
     * `_tasks.FirstOrDefault(t => t.Id == taskId)`: the object at the first
     * position whose id is `taskId`, or null when no stored task has that id.
     */
    function FindTask(taskId: int): (t: TaskItem?)
      reads tasks, tasks.items
      ensures t == null <==> forall i :: 0 <= i < |tasks.items| ==> tasks.items[i].id != taskId
      ensures t != null ==> exists k :: (0 <= k < |tasks.items| && tasks.items[k] == t &&
        IsFirstWithId(Contents(), k, taskId))
    {
      match FirstWithId(Contents(), taskId)
      case None => null
      case Some(k) => tasks.items[k]
    }

    /**
     * With sequential numbering, id `taskId` names the task at position
     * `taskId - 1`, and no task when it is outside 1..count.
     */
    lemma FindTaskBySequentialId(taskId: int)
      requires SequentialIds(tasks.items)
      ensures FindTask(taskId) ==
        if 1 <= taskId <= |tasks.items| then tasks.items[taskId - 1] else null
    {
    }

    /**
     * Marks the first task with id `taskId` as completed; with no such task,
     * does nothing. Only that object's flag is written.
     */
    method CompleteTask(taskId: int)
      modifies FindTask(taskId)
      ensures tasks.items == old(tasks.items)
      ensures old(FindTask(taskId)) != null ==>
        old(FindTask(taskId)).Snapshot() == old(FindTask(taskId).Snapshot()).(isCompleted := true)
      ensures old(FindTask(taskId)) == null ==> Contents() == old(Contents())
      ensures old(Distinct(tasks.items)) ==> Contents() == SetCompletion(old(Contents()), taskId, true)
      ensures old(SequentialIds(tasks.items)) ==> SequentialIds(tasks.items)
      ensures old(AllOwned(tasks.items)) ==> AllOwned(tasks.items)
    {
      SetCompleted(taskId, true);
    }

    /**
     * Clears the completion flag of the first task with id `taskId`; with no
     * such task, does nothing. Only that object's flag is written.
     */
    method UncheckTask(taskId: int)
      modifies FindTask(taskId)
      ensures tasks.items == old(tasks.items)
      ensures old(FindTask(taskId)) != null ==>
        old(FindTask(taskId)).Snapshot() == old(FindTask(taskId).Snapshot()).(isCompleted := false)
      ensures old(FindTask(taskId)) == null ==> Contents() == old(Contents())
      ensures old(Distinct(tasks.items)) ==> Contents() == SetCompletion(old(Contents()), taskId, false)
      ensures old(SequentialIds(tasks.items)) ==> SequentialIds(tasks.items)
      ensures old(AllOwned(tasks.items)) ==> AllOwned(tasks.items)
    {
      SetCompleted(taskId, false);
    }

    /**
     * The body CompleteTask and UncheckTask share: look the task up with
     * FindTask and, if there is one, write `done` into its flag.
     */
    method SetCompleted(taskId: int, done: bool)
      modifies FindTask(taskId)
      ensures tasks.items == old(tasks.items)
      ensures old(FindTask(taskId)) != null ==>
        old(FindTask(taskId)).Snapshot() == old(FindTask(taskId).Snapshot()).(isCompleted := done)
      ensures old(FindTask(taskId)) == null ==> Contents() == old(Contents())
      ensures forall i :: 0 <= i < |tasks.items| ==>
        Contents()[i] == if tasks.items[i] == old(FindTask(taskId))
                         then old(Contents())[i].(isCompleted := done) else old(Contents())[i]
      ensures old(Distinct(tasks.items)) ==> Contents() == SetCompletion(old(Contents()), taskId, done)
      ensures old(SequentialIds(tasks.items)) ==> SequentialIds(tasks.items)
      ensures old(AllOwned(tasks.items)) ==> AllOwned(tasks.items)
    {
      ghost var before := Contents();
      ghost var s := tasks.items;
      ghost var first := FirstWithId(before, taskId);
      var task := FindTask(taskId);
      if task != null {
        task.isCompleted := done;
      }
      ghost var after := Contents();
      assert |after| == |before| == |s|;
      forall i | 0 <= i < |s|
        ensures after[i] == if s[i] == task then before[i].(isCompleted := done) else before[i]
      {
      }
      if task == null {
        assert after == before;
      } else if old(Distinct(tasks.items)) {
        ghost var k := first.value;
        assert s[k] == task;
        forall i | 0 <= i < |s|
          ensures after[i] == SetCompletion(before, taskId, done)[i]
        {
          assert IsFirstWithId(before, i, taskId) <==> i == k;
          assert s[i] == task <==> i == k;
        }
      }
    }
  }
}
