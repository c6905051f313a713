# TaskerPro task registry, modelled in Dafny

TaskerPro keeps a per-user task list in memory. A `TaskItem` is a mutable
record: an id, a title, an optional description, a completion flag and the id
of the user who owns it. A `TaskService` holds one `List<TaskItem>`. It can
list every task, list the tasks of one owner, add a task, and set or clear
the completion flag of a task found by its id.

This project models those two classes as Dafny classes over the heap. It
proves what each operation does to the list and to the task objects, and it
proves the pure functions that describe those effects.

- `wrappers.dfy`, module `Wrappers`: `Option`, used for "position found or not".
- `task_item.dfy`, module `Models`: `NullableString` for a C# string that may
  be null. `IsWhiteSpace` and `IsNullOrWhiteSpace` stand for the .NET library
  predicates. The class `TaskItem` has the five properties as mutable fields,
  and its constructor sets the C# defaults. `TaskView` is the value of a task
  at one moment.
- `task_service.dfy`, module `Services`:
  - The value-level specification: `View`, `Filter`, `IsSubsequence`,
    `FirstWithId`, `SetCompletion`, the invariants `SequentialIds`, `AllOwned`
    and `Distinct`, and lemmas about them.
  - The class `TaskList`, which stands for the `List<TaskItem>` object.
  - The class `TaskService`, whose readonly `tasks` field holds that list.
- `scenarios.dfy`, module `Scenarios`: small client methods that use only the
  contracts. They follow typical uses: one task added and numbered 1; a blank
  owner and a null task refused; two owners each seeing their own tasks; a
  task completed, an unknown id ignored, and the task unchecked again.

Modelling decisions:

- **The list is an object.** `GetTasks` returns the service's own list
  object, not a copy, so the list is a `TaskList` object held in a `const`
  field. `GetTasksForUser` builds a new list, so it returns a `seq` of the
  same task objects.
- **Null owners.** `UserId` is a `NullableString`, because the guard
  `string.IsNullOrWhiteSpace` also accepts null. `Title` is a plain string.
  `Description` is nullable; no operation reads it.
- **Whitespace.** `IsWhiteSpace` is the .NET `char.IsWhiteSpace` set, written
  out by code point: U+0009 to U+000D, U+0020, U+0085, U+00A0, U+1680, U+2000
  to U+200A, U+2028, U+2029, U+202F, U+205F and U+3000. Dafny characters are
  Unicode scalar values, while .NET characters are UTF-16 code units. The
  answer is the same, because no code point in this set is a surrogate.
- **Owner equality.** The C# `==` on strings is ordinal and null-aware. It is
  modelled as equality of `NullableString` values.
- **Integers.** C# `int` is modelled as an unbounded `int`. The only computed
  id is the list count plus one. A .NET list holds fewer than 2^31 - 1
  elements, so that sum never wraps.
- **Conditional invariants.** Nothing in the code stops a caller from adding
  the same object twice, or from writing a task's fields through the list
  `GetTasks` returns. So the invariants are stated as "if it held before, it
  holds after", under the premise the code needs. For `SequentialIds` (the
  task at position i has id i + 1), that premise is that the added object is
  not already stored. Re-adding an object gives it a new id, and then two
  positions share it. This is where the code and the registry's description
  differ. The description says ids are unique and never change after
  insertion, and that callers should not rely on the live list. The code
  gives no such guarantee, and the model follows the code.

## Model

| member | source | states |
|---|---|---|
| `Models.TaskItem.constructor` | Module2/TaskerPro/Models/TaskItem.cs:5-11 | a new task has id 0, title "", no description, flag false and owner "" (the C# defaults and initialisers) |
| `Models.DefaultOwnerIsBlank` | Module2/TaskerPro/Models/TaskItem.cs:11 | the default owner "" counts as blank, so AddTask refuses a task left at its defaults |
| `Services.TaskService.constructor` | Module2/TaskerPro/Services/TaskService.cs:10 | a new service owns a fresh, empty list object |
| `Services.TaskService.GetTasksForUser` | Module2/TaskerPro/Services/TaskService.cs:12-15 | the result holds only stored objects. A stored object is in it iff its owner equals the argument. It appears as often as it is stored, and in list order (a subsequence of the list) |
| `Services.FilterMultiplicity` | Module2/TaskerPro/Services/TaskService.cs:14 | the owner filter keeps every occurrence of a matching object and no occurrence of any other, so membership holds iff the owner matches |
| `Services.FilterIsSubsequence` | Module2/TaskerPro/Services/TaskService.cs:14 | the owner filter keeps the relative order of what it keeps |
| `Services.FilterAppend` | Module2/TaskerPro/Services/TaskService.cs:14 | filtering a concatenation gives the concatenation of the filtered parts |
| `Services.FilterFrame` | Module2/TaskerPro/Services/TaskService.cs:14 | the filter depends only on owners: writing other fields (an id) leaves it unchanged |
| `Services.TaskService.GetTasks` | Module2/TaskerPro/Services/TaskService.cs:17-20 | returns the service's own list object (an alias, not a copy) and changes nothing |
| `Services.TaskService.AddTask` | Module2/TaskerPro/Services/TaskService.cs:22-38 | a null task, or one whose owner is null, empty or whitespace, leaves the list and the task unchanged. Otherwise the task gets id old count + 1 and is appended, with earlier elements in place. No other field of the task is written. Each owner's filtered view grows by the task exactly when the owner matches. Sequential ids (when the task was not already stored) and "every task owned" are preserved |
| `Services.SequentialIdsAreUnique` | Module2/TaskerPro/Services/TaskService.cs:35-36 | under sequential numbering two positions with the same id are the same position, so no object is stored twice |
| `Services.FirstWithId` | Module2/TaskerPro/Services/TaskService.cs:42 | the result is a position holding the id with no earlier position holding it, or none when no position holds it |
| `Services.TaskService.FindTask` | Module2/TaskerPro/Services/TaskService.cs:49 | null iff no stored task has the id; otherwise the object at the first position with that id |
| `Services.TaskService.FindTaskBySequentialId` | Module2/TaskerPro/Services/TaskService.cs:35-42 | under sequential numbering, id k finds the task at position k - 1, and ids outside 1..count find nothing |
| `Services.SetCompletion` | Module2/TaskerPro/Services/TaskService.cs:42-44 | the length is kept. The first task with the id gets the new flag in that field only, and every other position is unchanged (so with no match nothing changes) |
| `Services.SetCompletionLastWins` | Module2/TaskerPro/Services/TaskService.cs:40-52 | two flag updates on one id equal the second alone: completing twice is completing once, and complete then uncheck leaves the flag false |
| `Services.TaskService.SetCompleted` | Module2/TaskerPro/Services/TaskService.cs:49-51 | may write only the found object. That object's flag becomes the given value and nothing else in it changes. With no match nothing changes. Every position holding that object shows the new flag. When no object is stored twice, the stored values are exactly SetCompletion of the old ones. The list, sequential ids and "every task owned" are kept |
| `Services.TaskService.CompleteTask` | Module2/TaskerPro/Services/TaskService.cs:40-45 | as SetCompleted with flag true: only the first task with the id is marked completed, the list keeps its length and order, an unknown id changes nothing, and the invariants are kept |
| `Services.TaskService.UncheckTask` | Module2/TaskerPro/Services/TaskService.cs:47-52 | as SetCompleted with flag false: only the first task with the id has its flag cleared, the list keeps its length and order, an unknown id changes nothing, and the invariants are kept |

## Left out

- Console output: the messages AddTask writes (Services/TaskService.cs lines 26, 31, 34 and 37) are not modelled. The `GetTasksForUser` call on line 37 only feeds a printed count.
- Concurrency: the code has no synchronisation, and the model is single-threaded. Duplicate ids from concurrent adds are outside it.
- `ApplicationDbContext` (Entity Framework and identity wiring) and persistence: foreign library code with no logic here. The `Animal`/`Dog`/`Cat` example has no connection to the task registry.
- Services.TaskService.AddTask: sequential ids are preserved only when the added object is not already stored, because re-adding an object renumbers it and the code does not prevent that.
- Services.TaskService.CompleteTask: the equality with `SetCompletion` is stated only when no object is stored twice. With an object stored twice, its new flag shows at every position that holds it, and `SetCompleted` states that.
- Services.TaskService.UncheckTask: the same restriction as CompleteTask.
- Services.TaskService.GetTasks: the list object is shared, but the model gives it no operations of its own. A caller that changes it directly is covered only by the "if it held before" form of the invariants.
