# To-do list collections: copy-on-write primitives

A Dafny model of the collection primitives of a browser to-do list manager.
Users keep named, coloured lists. Each list holds a flat array of tasks, and a
task may point to a parent task. The modelled code is the part that works on
arrays of records keyed by a string `id`:

- `GenericService.ts`: find an item by id, find its index, draw a fresh id,
  and replace one field of the first item with a given id in a copy of the array.
- `ListService.ts`: the `List` record, the seed lists, creating a list with
  default name and colour and a fresh id, and adding and removing a list, each
  on a copy of the array.
- `StyleUtilities.ts`: `generateClassName`, which drops `undefined` and empty
  arguments and joins the rest with single spaces.

Modules, one per source file:

- `Wrappers` (`wrappers.dfy`): `Option`, which stands for `T | undefined`.
- `TaskService` (`task_service.dfy`): the task record. It follows the shape the
  seed data uses: `id`, optional `parentId`, `name`, `isCompleted`, numeric
  `creationDate` and `order`. The file also holds a per-field update, the
  sibling groups, and the two task invariants: dense sibling orders and
  completion consistency.
- `GenericService` (`generic_service.dfy`): the generic constraint
  `T extends { id: string }` becomes a type parameter `T` plus a projection
  `idOf: T -> string`. The `(propertyName, newValue)` pair of `updateItem`
  becomes a setter `T -> T`. For lists and tasks the setter is
  `SetListProperty` or `SetTaskProperty`, applied to a property datatype with
  one constructor per field.
- `ListService` (`list_service.dfy`).
- `StyleUtilities` (`style_utilities.dfy`).

JavaScript arrays the code only reads are modelled as `seq`. The three
operations that copy an array and then write into the copy (`updateItem`,
`addList`, `removeList`) are methods. Each takes an `array`, has no `modifies`
clause, so it cannot change its input, and returns a `fresh` array. Each is
proved equal to a function on sequences (`Updated`, `lists + [list]`,
`Removed`), and the lemmas are stated about those functions.

The random generator behind `generateNewId` is not part of the model. The
method takes the sequence of strings the generator would return, `draws`. The
source loop ends only when a draw is fresh, so the method requires that some
draw is not already an id.

The doc comment of `updateItem` (`GenericService.ts:47`) says it returns the
original array when no item has the id. The code returns the copy instead, and
so does `removeList`. The model follows the code: it returns a fresh array with
equal contents.

## Model

| member | source | states |
|---|---|---|
| GenericService.FindItemIndexById | todo-ara-project/src/services/GenericService.ts:21-23 | the result is -1 exactly when no item has the id; otherwise it is an in-range index whose item has the id, and no earlier item has it |
| GenericService.FindItemById | todo-ara-project/src/services/GenericService.ts:10-12 | None exactly when no item has the id; otherwise an item of the array with that id, namely the item at the first matching index |
| GenericService.GenerateNewId | todo-ara-project/src/services/GenericService.ts:31-37 | the returned id is not the id of any item, and it is the first draw of the random source that is fresh; every earlier draw collided |
| GenericService.Updated | todo-ara-project/src/services/GenericService.ts:49-60 | same length; with the id absent the items are unchanged; otherwise the first item with the id is replaced by the setter applied to it and every other position is unchanged |
| GenericService.UpdatedKeepsIds | todo-ara-project/src/services/GenericService.ts:55-58 | a setter that keeps the id keeps the sequence of ids |
| GenericService.UpdateItem | todo-ara-project/src/services/GenericService.ts:49-60 | the result is a fresh array whose contents are `Updated` of the input; the input array is not modified |
| TaskService.SetTaskProperty | todo-ara-project/src/services/GenericService.ts:55-58 | the object spread on a task: the named field holds the new value and every other field is unchanged |
| TaskService.Siblings | todo-ara-project/src/components/task/TaskLine.tsx:30-37 | the `filter` by parent id of the task view: every task in the group has that parent id, and the group is never longer than the task array |
| TaskService.SiblingsMembers | todo-ara-project/src/components/task/TaskLine.tsx:30 | a task is in the sibling group of a parent exactly when it is in the array with that parent id |
| TaskService.SiblingsAppend | todo-ara-project/src/components/task/TaskLine.tsx:30-37 | the sibling group of a concatenation is the concatenation of the groups, so array order is kept |
| TaskService.SiblingsOfOneGroup | todo-ara-project/src/components/task/TaskLine.tsx:30-37 | tasks that all share one parent form that parent's whole group |
| TaskService.SiblingsOfOtherGroups | todo-ara-project/src/components/task/TaskLine.tsx:30-37 | a parent that no task names has an empty group |
| TaskService.SiblingsSameShape | todo-ara-project/src/components/task/TaskLine.tsx:48-50 | sibling groups depend only on id, parent, completion and order, so a rename leaves them alike |
| TaskService.SameShapeInvariants | todo-ara-project/src/components/task/TaskLine.tsx:48-50 | tasks that agree on id, parent, completion and order have the same dense-order and completion invariants, so a rename keeps them |
| TaskService.RenameTask | todo-ara-project/src/components/task/TaskLine.tsx:48-50 | `updateItem(id, "name", …)` on tasks renames only the first task with the id, keeps every other field and task, and keeps dense sibling orders and completion consistency |
| ListService.SetListProperty | todo-ara-project/src/services/GenericService.ts:55-58 | the object spread on a list: the named field holds the new value and every other field is unchanged |
| ListService.UpdateListProperty | todo-ara-project/src/services/GenericService.ts:49-60 | `updateItem` on lists keeps the length; with the id absent nothing changes; otherwise only the first matching list changes, and only in the named field; unless that field is `id`, the ids are unchanged |
| ListService.CreateNewList | todo-ara-project/src/services/ListService.ts:86-93 | the new list is named "Nouvelle liste", has colour "#21c8d8" and no tasks, and its id is one of the draws and no existing list has it |
| ListService.AddList | todo-ara-project/src/services/ListService.ts:101-105 | the result is a fresh array holding the old lists followed by the new one; the input is not modified |
| ListService.Removed | todo-ara-project/src/services/ListService.ts:113-121 | with the id absent the lists are unchanged; otherwise one shorter, with the lists before the first match unchanged and the lists after it shifted down by one |
| ListService.RemoveList | todo-ara-project/src/services/ListService.ts:113-121 | the result is a fresh array whose contents are `Removed` of the input; the input is not modified |
| ListService.RemoveUndoesAdd | todo-ara-project/src/services/ListService.ts:101-121 | removing a list just added under an unused id gives back the original lists |
| ListService.RemovedIsComplete | todo-ara-project/src/services/ListService.ts:113-121 | with distinct ids, no list with the id is left after removal, so a second removal is a no-op |
| ListService.SeedTopLevelGroup | todo-ara-project/src/services/ListService.ts:25-45 | the top-level seed tasks are the first three |
| ListService.SeedSubtaskGroup | todo-ara-project/src/services/ListService.ts:46-69 | the children of "XyZ1wV4tYu8QpLm" are the last three seed tasks |
| ListService.SeedGroupOrders | todo-ara-project/src/services/ListService.ts:24-70 | the top-level seed orders are 1, 0, 2 and the subtask orders are 0, 1, 2 |
| ListService.SeedSiblingOrders | todo-ara-project/src/services/ListService.ts:24-70 | every sibling group of the seed tasks is ranked densely from 0 |
| ListService.SeedCompletion | todo-ara-project/src/services/ListService.ts:39-69 | the seed parent has an incomplete child and is itself incomplete; the seed tasks are completion-consistent |
| ListService.GetLists | todo-ara-project/src/services/ListService.ts:18-79 | the seed constant `getLists` returns: two lists with distinct ids, each of whose task arrays has dense sibling orders and consistent completion |
| StyleUtilities.Kept | todo-ara-project/src/utils/StyleUtilities.ts:2 | every kept string is non-empty and was an argument; every defined non-empty argument is kept |
| StyleUtilities.KeptAppend | todo-ara-project/src/utils/StyleUtilities.ts:2 | filtering keeps argument order: the kept arguments of a concatenation are the concatenation of the kept arguments |
| StyleUtilities.KeptNone | todo-ara-project/src/utils/StyleUtilities.ts:2 | when every argument is undefined or empty, nothing is kept |
| StyleUtilities.GenerateClassName | todo-ara-project/src/utils/StyleUtilities.ts:1-3 | with no arguments, or only undefined or empty ones, the class name is "" |
| StyleUtilities.JoinWithSpaces | todo-ara-project/src/utils/StyleUtilities.ts:2 | the `join(" ")`: k >= 1 joined parts have their total length plus k - 1; `JoinLayout` places each part and each single space |
| StyleUtilities.JoinLayout | todo-ara-project/src/utils/StyleUtilities.ts:2 | each part appears at its offset in the joined string, and each part but the last is followed by exactly one space |
| StyleUtilities.SingleClassName | todo-ara-project/src/utils/StyleUtilities.ts:1-3 | with exactly one defined non-empty argument, the class name is that argument |
| StyleUtilities.GenerateClassNameLength | todo-ara-project/src/utils/StyleUtilities.ts:1-3 | with k >= 1 kept arguments, the class name is their total length plus k - 1 |

## Left out

- The random generator (`generateRandomString`, from `StringUtilities`) is not part of this model. Its results are the `draws` parameter.
- GenerateNewId: the source loops for ever when no draw is fresh. The model requires a fresh draw among `draws` and does not model the non-terminating run.
- `formatDate` (from `DateUtilities`) is not part of this model. `creationDate` is an integer number of milliseconds.
- The task operations `createNewTask`, `addTask`, `removeTask`, `swapOrder`, `updateTaskCompletion` and `getJSONUrlFromTasksList` are not part of this model; their source files are not part of this model either. The dense-order and completion invariants are stated as predicates and proved for the seed data and under renaming.
- `TaskService.ts` declares an older nested `Task` shape (with `subtasks` and a `Date`). The model follows the flat shape of the seed data instead.
- `updateItem` takes a field name and a value of any type. The model uses a setter function, plus one property datatype each for lists and tasks. It does not model writing a field name the record lacks, or a value of the wrong type.
- `push` and `splice` on the copied array are not modelled step by step. The fresh result array is built with its final contents.
- Numbers are unbounded integers. `order` and `creationDate` are JavaScript floating-point numbers in the source.
- React components, hooks and context, file import and export (`FileReader`, `JSON.parse`, `alert`), display sorting and styling tables are view code and are not modelled.
