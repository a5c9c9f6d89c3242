/** TodoItemService: the object that owns the flat array of items and changes
    it in place; each method is proved to match the ItemStore function of the
    same name. */
module ItemService {
  import opened ArrayOps
  import opened ItemStore

  class TodoItemService {
    var todoItems: seq<TodoItem>

    constructor ()
      ensures todoItems == []
    {
      todoItems := [];
    }

    /** `all()`: the current items. */
    method All() returns (r: seq<TodoItem>)
      ensures r == todoItems
    {
      r := todoItems;
    }

    /** `get(id)`; reads only. */
    method Get(id: nat) returns (r: Option<TodoItem>)
      ensures r == ItemStore.Get(todoItems, id)
    {
      var k := FindById(todoItems, id);
      if k.None? {
        return None;
      }
      r := Some(todoItems[k.value]);
    }

    /** `create(item)`. */
    method Create(descripcion: string, idLista: int) returns (r: TodoItem)
      modifies this
      ensures Outcome(r, todoItems) == ItemStore.Create(old(todoItems), descripcion, idLista)
    {
      r := TodoItem(NextItemId(todoItems), descripcion, false, idLista);
      todoItems := todoItems + [r];
    }

    /** `update(id, dto)`: looks the item up with `get`, then assigns its fields. */
    method Update(id: nat, descripcion: string, finalizada: bool, idLista: int) returns (r: Option<TodoItem>)
      modifies this
      ensures Outcome(r, todoItems) == ItemStore.Update(old(todoItems), id, descripcion, finalizada, idLista)
    {
      var item := Get(id);
      if item.None? {
        return None;
      }
      var k := FindById(todoItems, id).value;
      var updated := item.value.(descripcion := descripcion, finalizada := finalizada, idLista := idLista);
      todoItems := todoItems[k := updated];
      r := Some(updated);
    }

    /** `delete(id)`. */
    method Delete(id: nat)
      modifies this
      ensures todoItems == ItemStore.Delete(old(todoItems), id)
    {
      var i := FindById(todoItems, id);
      if i.Some? {
        todoItems := RemoveAt(todoItems, i.value);
      }
    }
  }
}
