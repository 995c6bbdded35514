/**
 * The collection of lists: seed data, creation of a list with a fresh id, and
 * the copy-on-write add and remove operations.
 */
module ListService {
  import opened Wrappers
  import TaskService
  import opened GenericService

  /** A named, coloured list owning a flat array of tasks. */
  datatype List = List(id: string, name: string, color: string, tasks: seq<TaskService.Task>)

  function ListId(l: List): string { l.id }

  function ListIds(lists: seq<List>): seq<string> { Ids(lists, ListId) }

  /** One field of a list together with the new value `updateItem` writes into it. */
  datatype ListProperty =
    | Id(id: string)
    | Name(name: string)
    | Color(color: string)
    | Tasks(tasks: seq<TaskService.Task>)

  /** `l` holds the value `p` carries in the field `p` names. */
  predicate Holds(l: List, p: ListProperty) {
    match p
    case Id(v) => l.id == v
    case Name(v) => l.name == v
    case Color(v) => l.color == v
    case Tasks(v) => l.tasks == v
  }

  /** `a` and `b` agree on every field except the one `p` names. */
  predicate AgreeOutside(a: List, b: List, p: ListProperty) {
    && (p.Id? || a.id == b.id)
    && (p.Name? || a.name == b.name)
    && (p.Color? || a.color == b.color)
    && (p.Tasks? || a.tasks == b.tasks)
  }

  /** The object spread `{ ...list, [propertyName]: newValue }`. */
  function SetListProperty(l: List, p: ListProperty): (r: List)
    ensures Holds(r, p) && AgreeOutside(r, l, p)
  {
    match p
    case Id(v) => l.(id := v)
    case Name(v) => l.(name := v)
    case Color(v) => l.(color := v)
    case Tasks(v) => l.(tasks := v)
  }

  /**
   * `updateItem(listId, propertyName, newValue, lists)` on lists, as a value:
   * the first list with that id gets the new value in the named field and in
   * no other; every other list is unchanged; and unless the field is the id,
   * the ids of the collection are unchanged.
   */
  lemma UpdateListProperty(listId: string, p: ListProperty, lists: seq<List>)
    ensures var r := Updated(listId, l => SetListProperty(l, p), lists, ListId);
      && |r| == |lists|
      && (listId !in ListIds(lists) ==> r == lists)
      && (forall i :: 0 <= i < |lists| && lists[i].id == listId && (forall j :: 0 <= j < i ==> lists[j].id != listId) ==>
            Holds(r[i], p) && AgreeOutside(r[i], lists[i], p) && forall j :: 0 <= j < |lists| && j != i ==> r[j] == lists[j])
      && (!p.Id? ==> ListIds(r) == ListIds(lists))
  {
    var setter := l => SetListProperty(l, p);
    var r := Updated(listId, setter, lists, ListId);
    forall i | 0 <= i < |lists| && lists[i].id == listId && (forall j :: 0 <= j < i ==> lists[j].id != listId)
      ensures Holds(r[i], p) && AgreeOutside(r[i], lists[i], p)
    {
      assert ListId(lists[i]) == listId;
      assert r[i] == setter(lists[i]);
    }
    if !p.Id? {
      UpdatedKeepsIds(listId, setter, lists, ListId);
    }
  }

  /**
   * The seed collection `getLists` returns: two lists with distinct ids, each
   * of whose task arrays has dense sibling orders and consistent completion.
   */
  function GetLists(): (r: seq<List>)
    ensures |r| == 2 && DistinctIds(r)
    ensures forall l :: l in r ==> TaskService.DenseSiblingOrders(l.tasks) && TaskService.CompletionConsistent(l.tasks)
  {
    SeedSiblingOrders();
    SeedCompletion();
    assert "b875AErf1Cdpmq9"[0] != "A8efgtHB54o6PaZ"[0];
    [
      List("b875AErf1Cdpmq9", "Soirée à thème", "#b83aa0", SeedTasks()),
      List("A8efgtHB54o6PaZ", "Cadeaux", "#1a2b8c", [])
    ]
  }

  /** The tasks of the first seed list, in the order `getLists` gives them. */
  function SeedTasks(): seq<TaskService.Task> { SeedTopLevel() + SeedSubtasks() }

  /** The first three seed tasks: the top-level ones. */
  function SeedTopLevel(): seq<TaskService.Task> {
    [
      TaskService.Task("aBcD3FgHiJkLmNo", None, "Manger de la choucroute", false, 1727974236002, 1),
      TaskService.Task("PqRsTuVwXyZaBcD", None, "Caresser le chat", true, 1728055330008, 0),
      TaskService.Task("XyZ1wV4tYu8QpLm", None, "Regarder Harry Potter 3", false, 1728055246008, 2)
    ]
  }

  /** The last three seed tasks: the subtasks of "XyZ1wV4tYu8QpLm". */
  function SeedSubtasks(): seq<TaskService.Task> {
    [
      TaskService.Task("MnOpQr2StUvWxYz", Some("XyZ1wV4tYu8QpLm"), "Brancher la télé", true, 1728055330008, 0),
      TaskService.Task("C7D8EfGhIjKlMnO", Some("XyZ1wV4tYu8QpLm"), "Trouver la télécommande", true, 1728062914020, 1),
      TaskService.Task("C7D8AcF3IjKlMnO", Some("XyZ1wV4tYu8QpLm"), "Allumer les enceintes", false, 1728235714020, 2)
    ]
  }

  const DefaultName := "Nouvelle liste"
  const DefaultColor := "#21c8d8"

  /**
   * `createNewList`: a list with the default name and colour, no tasks, and
   * an id drawn by `generateNewId` that no list of `allLists` has.
   */
  method CreateNewList(allLists: seq<List>, draws: seq<string>) returns (list: List)
    requires exists k :: 0 <= k < |draws| && draws[k] !in ListIds(allLists)
    ensures list.name == "Nouvelle liste" && list.color == "#21c8d8" && list.tasks == []
    ensures list.id !in ListIds(allLists)
    ensures list.id in draws
  {
    var id := GenerateNewId(allLists, ListId, draws);
    list := List(id, DefaultName, DefaultColor, []);
  }

  /**
   * `addList`: a fresh array holding the lists of `allLists` followed by
   * `list`; `allLists` itself is not modified.
   */
  method AddList(list: List, allLists: array<List>) returns (lists: array<List>)
    ensures fresh(lists)
    ensures lists[..] == allLists[..] + [list]
  {
    lists := new List[allLists.Length + 1](k requires 0 <= k <= allLists.Length reads allLists =>
      if k < allLists.Length then allLists[k] else list);
  }

  /** What `removeList` returns, as a value: the lists without the first one whose id is `listId`. */
  function Removed(listId: string, lists: seq<List>): (r: seq<List>)
    ensures listId !in ListIds(lists) ==> r == lists
    ensures forall i :: 0 <= i < |lists| && lists[i].id == listId && (forall j :: 0 <= j < i ==> lists[j].id != listId) ==>
      |r| == |lists| - 1 && r[..i] == lists[..i] && forall j :: i <= j < |r| ==> r[j] == lists[j + 1]
  {
    var i := FindItemIndexById(listId, lists, ListId);
    if i == -1 then lists else lists[..i] + lists[i + 1..]
  }

  /**
   * `removeList`: a fresh array holding `allLists` without its first list
   * whose id is `listId` (the copy, unchanged, when there is none);
   * `allLists` itself is not modified.
   */
  method RemoveList(listId: string, allLists: array<List>) returns (lists: array<List>)
    ensures fresh(lists)
    ensures lists[..] == Removed(listId, allLists[..])
  {
    ghost var before := allLists[..];
    var listIndex := FindItemIndexById(listId, allLists[..], ListId);
    if listIndex == -1 {
      lists := new List[allLists.Length](k requires 0 <= k < allLists.Length reads allLists => allLists[k]);
      assert lists[..] == before;
      return;
    }
    lists := new List[allLists.Length - 1](k requires 0 <= k < allLists.Length - 1 reads allLists =>
      if k < listIndex then allLists[k] else allLists[k + 1]);
    assert lists[..] == before[..listIndex] + before[listIndex + 1..];
  }

  /** Removing a list just added under an id no other list has gives the collection back. */
  lemma RemoveUndoesAdd(list: List, lists: seq<List>)
    requires list.id !in ListIds(lists)
    ensures Removed(list.id, lists + [list]) == lists
  {
    var all := lists + [list];
    var i := |lists|;
    assert all[i].id == list.id;
    forall j | 0 <= j < i ensures all[j].id != list.id {
      assert ListIds(lists)[j] == lists[j].id;
    }
    assert all[..i] == lists;
  }

  predicate DistinctIds(lists: seq<List>) {
    forall i, j :: 0 <= i < j < |lists| ==> lists[i].id != lists[j].id
  }

  /**
   * With distinct ids, removing `listId` leaves no list with that id, so a
   * second removal with the same id changes nothing.
   */
  lemma RemovedIsComplete(listId: string, lists: seq<List>)
    requires DistinctIds(lists)
    ensures listId !in ListIds(Removed(listId, lists))
    ensures Removed(listId, Removed(listId, lists)) == Removed(listId, lists)
  {
    var i := FindItemIndexById(listId, lists, ListId);
    var r := Removed(listId, lists);
    if i != -1 {
      forall k | 0 <= k < |r| ensures r[k].id != listId {
        if k < i {
          assert r[k] == lists[k];
        } else {
          assert r[k] == lists[k + 1];
        }
      }
    }
  }

  /** The top-level group of the seed tasks is their first three tasks. */
  lemma SeedTopLevelGroup()
    ensures TaskService.Siblings(SeedTasks(), None) == SeedTopLevel()
  {
    TaskService.SiblingsAppend(SeedTopLevel(), SeedSubtasks(), None);
    TaskService.SiblingsOfOneGroup(SeedTopLevel(), None);
    TaskService.SiblingsOfOtherGroups(SeedSubtasks(), None);
  }

  /** The children of "XyZ1wV4tYu8QpLm" in the seed tasks are their last three tasks. */
  lemma SeedSubtaskGroup()
    ensures TaskService.Siblings(SeedTasks(), Some("XyZ1wV4tYu8QpLm")) == SeedSubtasks()
  {
    TaskService.SiblingsAppend(SeedTopLevel(), SeedSubtasks(), Some("XyZ1wV4tYu8QpLm"));
    TaskService.SiblingsOfOneGroup(SeedSubtasks(), Some("XyZ1wV4tYu8QpLm"));
    TaskService.SiblingsOfOtherGroups(SeedTopLevel(), Some("XyZ1wV4tYu8QpLm"));
  }

  /**
   * The seed sibling groups: the top level holds orders 1, 0, 2 and the
   * children of "XyZ1wV4tYu8QpLm" hold 0, 1, 2.
   */
  lemma SeedGroupOrders()
    ensures TaskService.Orders(TaskService.Siblings(SeedTasks(), None)) == [1, 0, 2]
    ensures TaskService.Orders(TaskService.Siblings(SeedTasks(), Some("XyZ1wV4tYu8QpLm"))) == [0, 1, 2]
  {
    SeedTopLevelGroup();
    SeedSubtaskGroup();
    var top, sub := TaskService.Orders(SeedTopLevel()), TaskService.Orders(SeedSubtasks());
    assert top[0] == 1 && top[1] == 0 && top[2] == 2;
    assert sub[0] == 0 && sub[1] == 1 && sub[2] == 2;
  }

  /** Each sibling group of the seed tasks is ranked densely from 0. */
  lemma SeedSiblingOrders()
    ensures TaskService.DenseSiblingOrders(SeedTasks())
  {
    SeedGroupOrders();
    var ts := SeedTasks();
    forall k | 0 <= k < |ts| ensures TaskService.IsDenseRanking(TaskService.Orders(TaskService.Siblings(ts, ts[k].parentId))) {
      if k < 3 {
        assert ts[k].parentId == None;
      } else {
        assert ts[k].parentId == Some("XyZ1wV4tYu8QpLm");
      }
    }
  }

  /**
   * In the seed tasks the one parent, "XyZ1wV4tYu8QpLm", has an incomplete
   * child and is itself incomplete; no other task has children.
   */
  lemma SeedCompletion()
    ensures !SeedTasks()[2].isCompleted && !TaskService.AllCompleted(TaskService.Siblings(SeedTasks(), Some(SeedTasks()[2].id)))
    ensures TaskService.CompletionConsistent(SeedTasks())
  {
    var ts := SeedTasks();
    SeedSubtaskGroup();
    assert !SeedSubtasks()[2].isCompleted;
    forall k | 0 <= k < |ts| && k != 2 ensures TaskService.Siblings(ts, Some(ts[k].id)) == [] {
      assert ts[k].id[0] != 'X';
      TaskService.SiblingsOfOtherGroups(ts, Some(ts[k].id));
    }
  }
}
