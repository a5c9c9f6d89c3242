/** TodoListsService: the object that owns the array of lists and changes it in
    place. Each method takes the steps the service takes and is proved to
    return, and to leave behind, exactly what the ListStore function of the
    same name describes; ListLemmas states what those functions guarantee. */
module ListService {
  import opened ArrayOps
  import opened ListStore
  import ListLemmas

  class TodoListsService {
    var todolists: seq<TodoList>

    constructor (todoLists: seq<TodoList> := [])
      ensures todolists == todoLists
    {
      todolists := todoLists;
    }

    /** `all()`: the current lists. */
    method All() returns (r: seq<TodoList>)
      ensures r == todolists
    {
      r := todolists;
    }

    /** `get(todoListId)`; reads only. */
    method Get(todoListId: nat) returns (r: Result<TodoList>)
      ensures r == ListStore.Get(todolists, todoListId)
    {
      var k := FindList(todolists, todoListId);
      if k.None? {
        return Err(TodolistDoesNotExist);
      }
      r := Ok(todolists[k.value]);
    }

    /** `create(dto)`. */
    method Create(name: string) returns (r: Result<TodoList>)
      modifies this
      ensures Outcome(r, todolists) == ListStore.Create(old(todolists), name)
    {
      var existing := FindIndex(todolists, (l: TodoList) => l.name == name);
      if existing.Some? {
        return Err(TodolistAlreadyExists);
      }
      var todoList := TodoList(NextListId(todolists), name, []);
      todolists := todolists + [todoList];
      r := Ok(todoList);
    }

    /** `update(todoListId, dto)`. */
    method Update(todoListId: nat, name: string) returns (r: Result<TodoList>)
      modifies this
      ensures Outcome(r, todolists) == ListStore.Update(old(todolists), todoListId, name)
    {
      var k := FindList(todolists, todoListId);
      if k.None? {
        return Err(TodolistDoesNotExist);
      }
      var todolist := todolists[k.value].(name := name);
      todolists := todolists[k.value := todolist];
      r := Ok(todolist);
    }

    /** `setCompletionStateItem(dto)`. */
    method SetCompletionStateItem(todoListId: nat, todoItemId: nat, state: bool) returns (r: Result<TodoItem>)
      modifies this
      ensures Outcome(r, todolists) == ListStore.SetCompletionStateItem(old(todolists), todoListId, todoItemId, state)
    {
      var k := FindList(todolists, todoListId);
      if k.None? {
        return Err(TodolistDoesNotExist);
      }
      var todoList := todolists[k.value];
      var i := FindItem(todoList.items, todoItemId);
      if i.None? {
        return Err(TodoitemDoesNotExist);
      }
      var item := todoList.items[i.value].(completed := state);
      todolists := todolists[k.value := todoList.(items := todoList.items[i.value := item])];
      r := Ok(item);
    }

    /** `setDescriptionStateItem(dto)`. */
    method SetDescriptionStateItem(todoListId: nat, todoItemId: nat, description: string) returns (r: Result<TodoItem>)
      modifies this
      ensures Outcome(r, todolists) == ListStore.SetDescriptionStateItem(old(todolists), todoListId, todoItemId, description)
    {
      var k := FindList(todolists, todoListId);
      if k.None? {
        return Err(TodolistDoesNotExist);
      }
      var todoList := todolists[k.value];
      var i := FindItem(todoList.items, todoItemId);
      if i.None? {
        return Err(TodoitemDoesNotExist);
      }
      var item := todoList.items[i.value].(description := description);
      todolists := todolists[k.value := todoList.(items := todoList.items[i.value := item])];
      r := Ok(item);
    }

    /** `setItemList(dto)`: look up both lists and the item, create the copy in
        the destination, delete the original, then restore completion. */
    method SetItemList(todoListId: nat, newTodoListId: nat, todoItemId: nat) returns (r: Result<TodoItem>)
      modifies this
      ensures Outcome(r, todolists) == Move(old(todolists), todoListId, newTodoListId, todoItemId)
    {
      var source := FindList(todolists, todoListId);
      if source.None? {
        return Err(TodolistDoesNotExist);
      }
      var dest := FindList(todolists, newTodoListId);
      if dest.None? {
        return Err(TodolistDoesNotExist);
      }
      var found := FindItem(todolists[source.value].items, todoItemId);
      if found.None? {
        return Err(TodoitemDoesNotExist);
      }
      var item := todolists[source.value].items[found.value];
      ListLemmas.MoveIsSequence(todolists, todoListId, newTodoListId, todoItemId, source.value, dest.value, found.value);

      var newItem := CreateTodoItem(newTodoListId, item.description);
      if newItem.Err? {
        return newItem;
      }
      var itemCompletionState := item.completed;
      var deletedItem := DeleteItemList(todoListId, todoItemId);
      match deletedItem {
        case Err(error) => return Err(error);
        case Ok(_) =>
      }
      if itemCompletionState {
        var completed := SetCompletionStateItem(newTodoListId, newItem.value.itemId, true);
      }
      // `newItem` is the object pushed onto the destination; it is returned as
      // the steps above left it, which is the destination's last item.
      r := Ok(Last(todolists[dest.value].items));
    }

    /** `delete(todoListId)`. */
    method Delete(todoListId: nat) returns (r: Result<()>)
      modifies this
      ensures Outcome(r, todolists) == ListStore.Delete(old(todolists), todoListId)
    {
      var todoListIndex := FindList(todolists, todoListId);
      if todoListIndex.Some? {
        todolists := RemoveAt(todolists, todoListIndex.value);
        r := Ok(());
      } else {
        r := Err(TodolistDoesNotExist);
      }
    }

    /** `createTodoItem(dto)`. */
    method CreateTodoItem(todoListId: nat, description: string) returns (r: Result<TodoItem>)
      modifies this
      ensures Outcome(r, todolists) == ListStore.CreateTodoItem(old(todolists), todoListId, description)
    {
      var k := FindList(todolists, todoListId);
      if k.None? {
        return Err(TodolistDoesNotExist);
      }
      var todoList := todolists[k.value];
      var newItem := TodoItem(NextItemId(todoList), description, false);
      todolists := todolists[k.value := todoList.(items := todoList.items + [newItem])];
      r := Ok(newItem);
    }

    /** `deleteItemList(todoListId, todoItemId)`. */
    method DeleteItemList(todoListId: nat, todoItemId: nat) returns (r: Result<()>)
      modifies this
      ensures Outcome(r, todolists) == ListStore.DeleteItemList(old(todolists), todoListId, todoItemId)
    {
      var k := FindList(todolists, todoListId);
      if k.None? {
        return Err(TodolistDoesNotExist);
      }
      var todoList := todolists[k.value];
      var itemIndex := FindItem(todoList.items, todoItemId);
      if itemIndex.Some? {
        todolists := todolists[k.value := todoList.(items := RemoveAt(todoList.items, itemIndex.value))];
        r := Ok(());
      } else {
        r := Err(TodoitemDoesNotExist);
      }
    }
  }
}
