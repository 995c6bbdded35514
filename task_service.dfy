/**
 * The task record, in the shape the seed data of `getLists` uses: an id, an
 * optional parent id (absent for a top-level task), a name, a completion flag,
 * a creation date in milliseconds since the epoch and a rank among siblings.
 */
module TaskService {
  import opened Wrappers
  import opened GenericService

  datatype Task = Task(
    id: string,
    parentId: Option<string>,
    name: string,
    isCompleted: bool,
    creationDate: int,
    order: int)

  function TaskId(t: Task): string { t.id }

  /** One field of a task together with the new value `updateItem` writes into it. */
  datatype TaskProperty =
    | Id(id: string)
    | ParentId(parentId: Option<string>)
    | Name(name: string)
    | IsCompleted(isCompleted: bool)
    | CreationDate(creationDate: int)
    | Order(order: int)

  /** `t` holds the value `p` carries in the field `p` names. */
  predicate Holds(t: Task, p: TaskProperty) {
    match p
    case Id(v) => t.id == v
    case ParentId(v) => t.parentId == v
    case Name(v) => t.name == v
    case IsCompleted(v) => t.isCompleted == v
    case CreationDate(v) => t.creationDate == v
    case Order(v) => t.order == v
  }

  /** `a` and `b` agree on every field except the one `p` names. */
  predicate AgreeOutside(a: Task, b: Task, p: TaskProperty) {
    && (p.Id? || a.id == b.id)
    && (p.ParentId? || a.parentId == b.parentId)
    && (p.Name? || a.name == b.name)
    && (p.IsCompleted? || a.isCompleted == b.isCompleted)
    && (p.CreationDate? || a.creationDate == b.creationDate)
    && (p.Order? || a.order == b.order)
  }

  /** The object spread `{ ...task, [propertyName]: newValue }`. */
  function SetTaskProperty(t: Task, p: TaskProperty): (r: Task)
    ensures Holds(r, p) && AgreeOutside(r, t, p)
  {
    match p
    case Id(v) => t.(id := v)
    case ParentId(v) => t.(parentId := v)
    case Name(v) => t.(name := v)
    case IsCompleted(v) => t.(isCompleted := v)
    case CreationDate(v) => t.(creationDate := v)
    case Order(v) => t.(order := v)
  }

  /** The direct children of `parent` (the top-level tasks when `parent` is None), in array order. */
  function Siblings(tasks: seq<Task>, parent: Option<string>): (r: seq<Task>)
    ensures |r| <= |tasks|
    ensures forall k :: 0 <= k < |r| ==> r[k].parentId == parent
  {
    if tasks == [] then []
    else if tasks[0].parentId == parent then [tasks[0]] + Siblings(tasks[1..], parent)
    else Siblings(tasks[1..], parent)
  }

  function Orders(tasks: seq<Task>): seq<int> {
    seq(|tasks|, k requires 0 <= k < |tasks| => tasks[k].order)
  }

  /** The ranks are exactly 0, 1, ..., n-1 in some order: each is in range and no two are equal. */
  predicate IsDenseRanking(orders: seq<int>) {
    && (forall k :: 0 <= k < |orders| ==> 0 <= orders[k] < |orders|)
    && (forall k, l :: 0 <= k < l < |orders| ==> orders[k] != orders[l])
  }

  /**
   * Every sibling group, the top level included, is ranked densely from 0.
   * Only the groups of parent ids that occur can be non-empty, so those are the ones checked.
   */
  predicate DenseSiblingOrders(tasks: seq<Task>) {
    forall k :: 0 <= k < |tasks| ==> IsDenseRanking(Orders(Siblings(tasks, tasks[k].parentId)))
  }

  predicate AllCompleted(tasks: seq<Task>) {
    forall k :: 0 <= k < |tasks| ==> tasks[k].isCompleted
  }

  /** Every task with at least one child is completed exactly when all its children are. */
  predicate CompletionConsistent(tasks: seq<Task>) {
    forall k :: 0 <= k < |tasks| && Siblings(tasks, Some(tasks[k].id)) != [] ==>
      tasks[k].isCompleted == AllCompleted(Siblings(tasks, Some(tasks[k].id)))
  }

  /** Taking the siblings commutes with concatenation: the filter keeps array order. */
  lemma {:induction false} SiblingsAppend(a: seq<Task>, b: seq<Task>, parent: Option<string>)
    ensures Siblings(a + b, parent) == Siblings(a, parent) + Siblings(b, parent)
  {
    if a == [] {
      assert a + b == b;
    } else {
      assert (a + b)[1..] == a[1..] + b;
      SiblingsAppend(a[1..], b, parent);
    }
  }

  /** A run of tasks that all have the same parent is its own sibling group. */
  lemma {:induction false} SiblingsOfOneGroup(tasks: seq<Task>, parent: Option<string>)
    requires forall k :: 0 <= k < |tasks| ==> tasks[k].parentId == parent
    ensures Siblings(tasks, parent) == tasks
  {
    if tasks != [] {
      SiblingsOfOneGroup(tasks[1..], parent);
    }
  }

  /** A parent none of the tasks names has no children among them. */
  lemma {:induction false} SiblingsOfOtherGroups(tasks: seq<Task>, parent: Option<string>)
    requires forall k :: 0 <= k < |tasks| ==> tasks[k].parentId != parent
    ensures Siblings(tasks, parent) == []
  {
    if tasks != [] {
      SiblingsOfOtherGroups(tasks[1..], parent);
    }
  }

  /** The sibling group of `parent` holds exactly the tasks whose parent id is `parent`. */
  lemma {:induction false} SiblingsMembers(tasks: seq<Task>, parent: Option<string>)
    ensures forall t :: t in Siblings(tasks, parent) <==> t in tasks && t.parentId == parent
  {
    if tasks != [] {
      SiblingsMembers(tasks[1..], parent);
      assert forall t :: t in tasks <==> t == tasks[0] || t in tasks[1..];
    }
  }

  /** `a` and `b` are the same tasks up to names and creation dates. */
  predicate SameShape(a: seq<Task>, b: seq<Task>) {
    && |a| == |b|
    && forall k :: 0 <= k < |a| ==>
         a[k].id == b[k].id && a[k].parentId == b[k].parentId &&
         a[k].isCompleted == b[k].isCompleted && a[k].order == b[k].order
  }

  /** Sibling groups only look at the fields `SameShape` compares. */
  lemma {:induction false} SiblingsSameShape(a: seq<Task>, b: seq<Task>, parent: Option<string>)
    requires SameShape(a, b)
    ensures SameShape(Siblings(a, parent), Siblings(b, parent))
  {
    if a != [] {
      SiblingsSameShape(a[1..], b[1..], parent);
    }
  }

  /** Tasks of the same shape keep the same invariants. */
  lemma SameShapeInvariants(a: seq<Task>, b: seq<Task>)
    requires SameShape(a, b)
    ensures DenseSiblingOrders(a) ==> DenseSiblingOrders(b)
    ensures CompletionConsistent(a) ==> CompletionConsistent(b)
  {
    forall k | 0 <= k < |b| ensures
      && Orders(Siblings(b, b[k].parentId)) == Orders(Siblings(a, a[k].parentId))
      && (Siblings(b, Some(b[k].id)) == [] <==> Siblings(a, Some(a[k].id)) == [])
      && AllCompleted(Siblings(b, Some(b[k].id))) == AllCompleted(Siblings(a, Some(a[k].id)))
    {
      SiblingsSameShape(a, b, a[k].parentId);
      SiblingsSameShape(a, b, Some(a[k].id));
      var sa, sb := Siblings(a, a[k].parentId), Siblings(b, b[k].parentId);
      assert Orders(sb) == Orders(sa);
    }
  }

  /**
   * `updateItem(taskId, "name", newName, tasks)`, the rename of a task: the
   * first task with that id is renamed and nothing else changes, and the
   * dense sibling order and completion consistency of the tasks are kept.
   */
  lemma RenameTask(taskId: string, newName: string, tasks: seq<Task>)
    ensures var r := Updated(taskId, t => SetTaskProperty(t, Name(newName)), tasks, TaskId);
      && SameShape(tasks, r)
      && (forall k :: 0 <= k < |r| ==> r[k].creationDate == tasks[k].creationDate)
      && (forall i :: 0 <= i < |tasks| && tasks[i].id == taskId && (forall j :: 0 <= j < i ==> tasks[j].id != taskId) ==>
            r[i].name == newName && forall j :: 0 <= j < |tasks| && j != i ==> r[j] == tasks[j])
      && (DenseSiblingOrders(tasks) ==> DenseSiblingOrders(r))
      && (CompletionConsistent(tasks) ==> CompletionConsistent(r))
  {
    var setter := t => SetTaskProperty(t, Name(newName));
    var r := Updated(taskId, setter, tasks, TaskId);
    forall k | 0 <= k < |r| ensures
      && r[k].id == tasks[k].id && r[k].parentId == tasks[k].parentId
      && r[k].isCompleted == tasks[k].isCompleted && r[k].order == tasks[k].order
      && r[k].creationDate == tasks[k].creationDate
    {
      assert r[k] == tasks[k] || r[k] == setter(tasks[k]);
    }
    forall i | 0 <= i < |tasks| && tasks[i].id == taskId && (forall j :: 0 <= j < i ==> tasks[j].id != taskId)
      ensures r[i].name == newName
    {
      assert TaskId(tasks[i]) == taskId;
    }
    SameShapeInvariants(tasks, r);
  }
}
