/** The state of TodoListsService (its array of lists) as a value, and each of
    its operations as a function from the old array to what the operation
    returns and the array it leaves behind. ListService's methods are proved
    to produce exactly these outcomes; ListLemmas proves what they guarantee. */
module ListStore {
  import opened ArrayOps
  import opened IdAllocation

  datatype TodoItem = TodoItem(itemId: nat, description: string, completed: bool)

  datatype TodoList = TodoList(id: nat, name: string, items: seq<TodoItem>)

  /** The `{ error: ... }` values: "todolist-does-not-exist",
      "todolist-already-exists" and "todoitem-does-not-exist". */
  datatype ErrorCode = TodolistDoesNotExist | TodolistAlreadyExists | TodoitemDoesNotExist

  /** An entity, or the `{ error: code }` value returned in its place. */
  datatype Result<T> = Ok(value: T) | Err(error: ErrorCode)

  /** What an operation returns, and the array of lists it leaves behind. */
  datatype Outcome<T> = Outcome(result: Result<T>, lists: seq<TodoList>)

  function ListIds(lists: seq<TodoList>): (ids: seq<nat>)
    ensures |ids| == |lists|
    ensures forall k :: 0 <= k < |lists| ==> ids[k] == lists[k].id
  {
    seq(|lists|, k requires 0 <= k < |lists| => lists[k].id)
  }

  function ItemIds(items: seq<TodoItem>): (ids: seq<nat>)
    ensures |ids| == |items|
    ensures forall k :: 0 <= k < |items| ==> ids[k] == items[k].itemId
  {
    seq(|items|, k requires 0 <= k < |items| => items[k].itemId)
  }

  /** `todolists.find(list => list.id == id)`, as an index: the first list with that id. */
  function FindList(lists: seq<TodoList>, id: nat): (r: Option<nat>)
    ensures r.Some? ==> r.value < |lists| && lists[r.value].id == id
    ensures r.Some? ==> forall j :: 0 <= j < r.value ==> lists[j].id != id
    ensures r.None? <==> forall j :: 0 <= j < |lists| ==> lists[j].id != id
  {
    FindIndex(lists, (l: TodoList) => l.id == id)
  }

  /** `items.find(i => i.itemId == itemId)`, as an index: the first item with that id. */
  function FindItem(items: seq<TodoItem>, itemId: nat): (r: Option<nat>)
    ensures r.Some? ==> r.value < |items| && items[r.value].itemId == itemId
    ensures r.Some? ==> forall j :: 0 <= j < r.value ==> items[j].itemId != itemId
    ensures r.None? <==> forall j :: 0 <= j < |items| ==> items[j].itemId != itemId
  {
    FindIndex(items, (i: TodoItem) => i.itemId == itemId)
  }

  /** Some list already has this name: the test `create` makes with `find`. */
  predicate NameTaken(lists: seq<TodoList>, name: string)
    ensures NameTaken(lists, name) <==> FindIndex(lists, (l: TodoList) => l.name == name).Some?
  {
    exists k :: 0 <= k < |lists| && lists[k].name == name
  }

  /** `nextId()`: allocation over the ids of all lists. */
  function NextListId(lists: seq<TodoList>): (r: nat)
    ensures r >= 1
    ensures SortAgreesWithMax(ListIds(lists)) ==> forall k :: 0 <= k < |lists| ==> lists[k].id < r
  {
    if SortAgreesWithMax(ListIds(lists)) then NextIdFresh(ListIds(lists)); NextId(ListIds(lists))
    else NextId(ListIds(lists))
  }

  /** `nextItemId(todoList)`: allocation scoped to one list's items. */
  function NextItemId(list: TodoList): (r: nat)
    ensures r >= 1
    ensures SortAgreesWithMax(ItemIds(list.items)) ==> forall k :: 0 <= k < |list.items| ==> list.items[k].itemId < r
  {
    if SortAgreesWithMax(ItemIds(list.items)) then NextIdFresh(ItemIds(list.items)); NextId(ItemIds(list.items))
    else NextId(ItemIds(list.items))
  }

  /** `after` differs from `before` at most in the list at index k. */
  predicate SameExcept(before: seq<TodoList>, after: seq<TodoList>, k: nat)
  {
    |after| == |before| && k < |before| &&
    forall j :: 0 <= j < |before| && j != k ==> after[j] == before[j]
  }

  /** `after` is `before` with only item i of list k replaced by `item`. */
  predicate ItemReplaced(before: seq<TodoList>, after: seq<TodoList>, k: nat, i: nat, item: TodoItem)
  {
    SameExcept(before, after, k) &&
    after[k].id == before[k].id && after[k].name == before[k].name &&
    |after[k].items| == |before[k].items| && i < |before[k].items| &&
    after[k].items[i] == item &&
    forall j :: 0 <= j < |before[k].items| && j != i ==> after[k].items[j] == before[k].items[j]
  }

  /** `get(todoListId)`. */
  function Get(lists: seq<TodoList>, todoListId: nat): (r: Result<TodoList>)
    ensures r.Err? <==> forall k :: 0 <= k < |lists| ==> lists[k].id != todoListId
    ensures r.Err? ==> r.error == TodolistDoesNotExist
    ensures r.Ok? ==> r.value.id == todoListId &&
                      exists k :: 0 <= k < |lists| && r.value == lists[k] &&
                                  forall j :: 0 <= j < k ==> lists[j].id != todoListId
  {
    match FindList(lists, todoListId)
    case None => Err(TodolistDoesNotExist)
    case Some(k) => Ok(lists[k])
  }

  /** `create(dto)`: refuses a name some list already has, otherwise appends a new,
      empty list. */
  function Create(lists: seq<TodoList>, name: string): (o: Outcome<TodoList>)
    ensures NameTaken(lists, name) ==> o == Outcome(Err(TodolistAlreadyExists), lists)
    ensures !NameTaken(lists, name) ==>
              o.result == Ok(TodoList(NextListId(lists), name, [])) &&
              o.lists == lists + [o.result.value]
  {
    match FindIndex(lists, (l: TodoList) => l.name == name)
    case Some(_) => Outcome(Err(TodolistAlreadyExists), lists)
    case None =>
      var todoList := TodoList(NextListId(lists), name, []);
      Outcome(Ok(todoList), lists + [todoList])
  }

  /** `update(todoListId, dto)`: renames the first list with that id. */
  function Update(lists: seq<TodoList>, todoListId: nat, name: string): (o: Outcome<TodoList>)
    ensures FindList(lists, todoListId).None? ==> o == Outcome(Err(TodolistDoesNotExist), lists)
    ensures FindList(lists, todoListId).Some? ==>
              var k := FindList(lists, todoListId).value;
              o.result.Ok? && SameExcept(lists, o.lists, k) && o.result.value == o.lists[k] &&
              o.lists[k].name == name && o.lists[k].id == lists[k].id && o.lists[k].items == lists[k].items
  {
    match FindList(lists, todoListId)
    case None => Outcome(Err(TodolistDoesNotExist), lists)
    case Some(k) =>
      var renamed := lists[k].(name := name);
      Outcome(Ok(renamed), lists[k := renamed])
  }

  /** `setCompletionStateItem(dto)`: sets `completed` of the first matching item. */
  function SetCompletionStateItem(lists: seq<TodoList>, todoListId: nat, todoItemId: nat, state: bool): (o: Outcome<TodoItem>)
    ensures FindList(lists, todoListId).None? ==> o == Outcome(Err(TodolistDoesNotExist), lists)
    ensures FindList(lists, todoListId).Some? ==>
              var k := FindList(lists, todoListId).value;
              match FindItem(lists[k].items, todoItemId)
              case None => o == Outcome(Err(TodoitemDoesNotExist), lists)
              case Some(i) =>
                o.result.Ok? && ItemReplaced(lists, o.lists, k, i, o.result.value) &&
                o.result.value.completed == state &&
                o.result.value.itemId == lists[k].items[i].itemId &&
                o.result.value.description == lists[k].items[i].description
  {
    match FindList(lists, todoListId)
    case None => Outcome(Err(TodolistDoesNotExist), lists)
    case Some(k) =>
      match FindItem(lists[k].items, todoItemId)
      case None => Outcome(Err(TodoitemDoesNotExist), lists)
      case Some(i) =>
        var item := lists[k].items[i].(completed := state);
        Outcome(Ok(item), lists[k := lists[k].(items := lists[k].items[i := item])])
  }

  /** `setDescriptionStateItem(dto)`: sets `description` of the first matching item. */
  function SetDescriptionStateItem(lists: seq<TodoList>, todoListId: nat, todoItemId: nat, description: string): (o: Outcome<TodoItem>)
    ensures FindList(lists, todoListId).None? ==> o == Outcome(Err(TodolistDoesNotExist), lists)
    ensures FindList(lists, todoListId).Some? ==>
              var k := FindList(lists, todoListId).value;
              match FindItem(lists[k].items, todoItemId)
              case None => o == Outcome(Err(TodoitemDoesNotExist), lists)
              case Some(i) =>
                o.result.Ok? && ItemReplaced(lists, o.lists, k, i, o.result.value) &&
                o.result.value.description == description &&
                o.result.value.itemId == lists[k].items[i].itemId &&
                o.result.value.completed == lists[k].items[i].completed
  {
    match FindList(lists, todoListId)
    case None => Outcome(Err(TodolistDoesNotExist), lists)
    case Some(k) =>
      match FindItem(lists[k].items, todoItemId)
      case None => Outcome(Err(TodoitemDoesNotExist), lists)
      case Some(i) =>
        var item := lists[k].items[i].(description := description);
        Outcome(Ok(item), lists[k := lists[k].(items := lists[k].items[i := item])])
  }

  /** `delete(todoListId)`: removes the first list with that id, items and all. */
  function Delete(lists: seq<TodoList>, todoListId: nat): (o: Outcome<()>)
    ensures FindList(lists, todoListId).None? ==> o == Outcome(Err(TodolistDoesNotExist), lists)
    ensures FindList(lists, todoListId).Some? ==>
              var k := FindList(lists, todoListId).value;
              o.result.Ok? && |o.lists| == |lists| - 1 &&
              (forall j :: 0 <= j < k ==> o.lists[j] == lists[j]) &&
              (forall j :: k < j < |lists| ==> o.lists[j - 1] == lists[j])
  {
    match FindList(lists, todoListId)
    case None => Outcome(Err(TodolistDoesNotExist), lists)
    case Some(k) => Outcome(Ok(()), RemoveAt(lists, k))
  }

  /** `createTodoItem(dto)`: appends a new, not completed item with the next
      list-scoped id. */
  function CreateTodoItem(lists: seq<TodoList>, todoListId: nat, description: string): (o: Outcome<TodoItem>)
    ensures FindList(lists, todoListId).None? ==> o == Outcome(Err(TodolistDoesNotExist), lists)
    ensures FindList(lists, todoListId).Some? ==>
              var k := FindList(lists, todoListId).value;
              o.result == Ok(TodoItem(NextItemId(lists[k]), description, false)) &&
              SameExcept(lists, o.lists, k) &&
              o.lists[k] == lists[k].(items := lists[k].items + [o.result.value])
  {
    match FindList(lists, todoListId)
    case None => Outcome(Err(TodolistDoesNotExist), lists)
    case Some(k) =>
      var newItem := TodoItem(NextItemId(lists[k]), description, false);
      Outcome(Ok(newItem), lists[k := lists[k].(items := lists[k].items + [newItem])])
  }

  /** `deleteItemList(todoListId, todoItemId)`: removes the first matching item. */
  function DeleteItemList(lists: seq<TodoList>, todoListId: nat, todoItemId: nat): (o: Outcome<()>)
    ensures FindList(lists, todoListId).None? ==> o == Outcome(Err(TodolistDoesNotExist), lists)
    ensures FindList(lists, todoListId).Some? ==>
              var k := FindList(lists, todoListId).value;
              match FindItem(lists[k].items, todoItemId)
              case None => o == Outcome(Err(TodoitemDoesNotExist), lists)
              case Some(i) =>
                o.result.Ok? && SameExcept(lists, o.lists, k) &&
                o.lists[k] == lists[k].(items := RemoveAt(lists[k].items, i))
  {
    match FindList(lists, todoListId)
    case None => Outcome(Err(TodolistDoesNotExist), lists)
    case Some(k) =>
      match FindItem(lists[k].items, todoItemId)
      case None => Outcome(Err(TodoitemDoesNotExist), lists)
      case Some(i) => Outcome(Ok(()), lists[k := lists[k].(items := RemoveAt(lists[k].items, i))])
  }

  /** Marks the first item with that id completed (no item: unchanged). */
  function MarkCompleted(items: seq<TodoItem>, itemId: nat): (r: seq<TodoItem>)
    ensures |r| == |items|
    ensures forall j :: 0 <= j < |items| ==>
              r[j].itemId == items[j].itemId && r[j].description == items[j].description
    ensures forall j :: 0 <= j < |items| && FindItem(items, itemId) != Some(j) ==> r[j] == items[j]
    ensures FindItem(items, itemId).Some? ==> r[FindItem(items, itemId).value].completed
  {
    match FindItem(items, itemId)
    case None => items
    case Some(j) => items[j := items[j].(completed := true)]
  }

  /** The array with item i of list s removed. */
  function WithoutItem(lists: seq<TodoList>, s: nat, i: nat): (r: seq<TodoList>)
    requires s < |lists| && i < |lists[s].items|
    ensures SameExcept(lists, r, s) && r[s].id == lists[s].id && r[s].name == lists[s].name
    ensures r[s].items == RemoveAt(lists[s].items, i)
  {
    lists[s := lists[s].(items := RemoveAt(lists[s].items, i))]
  }

  /** The array with the items of list d replaced. */
  function WithItems(lists: seq<TodoList>, d: nat, items: seq<TodoItem>): (r: seq<TodoList>)
    requires d < |lists|
    ensures SameExcept(lists, r, d) && r[d].id == lists[d].id && r[d].name == lists[d].name
    ensures r[d].items == items
  {
    lists[d := lists[d].(items := items)]
  }

  /** The destination's items after the copy was appended: the copy's id marked
      completed when the original was. */
  function Restored(destItems: seq<TodoItem>, completed: bool): (r: seq<TodoItem>)
    requires |destItems| > 0
    ensures |r| == |destItems|
    ensures forall j :: 0 <= j < |destItems| ==>
              r[j].itemId == destItems[j].itemId && r[j].description == destItems[j].description
  {
    if completed then MarkCompleted(destItems, Last(destItems).itemId) else destItems
  }

  /** `setItemList(dto)`, the move, stated on the resulting array rather than as
      the steps the service takes: the original item is gone from the source
      list, the destination list ends with an item carrying the original's
      description under the destination's next item id, and when the original
      was completed, the first destination item with that new id is marked
      completed. The item returned is the one at the destination's end. */
  function Move(lists: seq<TodoList>, todoListId: nat, newTodoListId: nat, todoItemId: nat): (o: Outcome<TodoItem>)
    ensures FindList(lists, todoListId).None? ==> o == Outcome(Err(TodolistDoesNotExist), lists)
    ensures FindList(lists, todoListId).Some? && FindList(lists, newTodoListId).None? ==>
              o == Outcome(Err(TodolistDoesNotExist), lists)
    ensures FindList(lists, todoListId).Some? && FindList(lists, newTodoListId).Some? &&
            FindItem(lists[FindList(lists, todoListId).value].items, todoItemId).None? ==>
              o == Outcome(Err(TodoitemDoesNotExist), lists)
  {
    match FindList(lists, todoListId)
    case None => Outcome(Err(TodolistDoesNotExist), lists)
    case Some(s) =>
      match FindList(lists, newTodoListId)
      case None => Outcome(Err(TodolistDoesNotExist), lists)
      case Some(d) =>
        match FindItem(lists[s].items, todoItemId)
        case None => Outcome(Err(TodoitemDoesNotExist), lists)
        case Some(i) =>
          var original := lists[s].items[i];
          var moved := TodoItem(NextItemId(lists[d]), original.description, false);
          var removed := WithoutItem(lists, s, i);
          var finalItems := Restored(removed[d].items + [moved], original.completed);
          Outcome(Ok(Last(finalItems)), WithItems(removed, d, finalItems))
  }

  /** Number of items held by all lists together. */
  function TotalItems(lists: seq<TodoList>): (n: nat)
  {
    if |lists| == 0 then 0 else TotalItems(lists[..|lists| - 1]) + |lists[|lists| - 1].items|
  }
}
