/** The state of TodoItemService (one flat array of items with globally
    allocated ids) as a value, its operations as functions, and what they
    guarantee. ItemService's methods are proved to match these functions. */
module ItemStore {
  import opened ArrayOps
  import opened IdAllocation

  datatype TodoItem = TodoItem(id: nat, descripcion: string, finalizada: bool, idLista: int)

  /** What an operation returns, and the array of items it leaves behind. */
  datatype Outcome<T> = Outcome(result: T, items: seq<TodoItem>)

  function Ids(items: seq<TodoItem>): (ids: seq<nat>)
    ensures |ids| == |items|
    ensures forall k :: 0 <= k < |items| ==> ids[k] == items[k].id
  {
    seq(|items|, k requires 0 <= k < |items| => items[k].id)
  }

  /** `todoItems.findIndex(item => item.id == id)`, None for -1. */
  function FindById(items: seq<TodoItem>, id: nat): (r: Option<nat>)
    ensures r.Some? ==> r.value < |items| && items[r.value].id == id
    ensures r.Some? ==> forall j :: 0 <= j < r.value ==> items[j].id != id
    ensures r.None? <==> forall j :: 0 <= j < |items| ==> items[j].id != id
  {
    FindIndex(items, (i: TodoItem) => i.id == id)
  }

  /** `nextId()`. */
  function NextItemId(items: seq<TodoItem>): (r: nat)
    ensures r >= 1
    ensures SortAgreesWithMax(Ids(items)) ==> forall k :: 0 <= k < |items| ==> items[k].id < r
  {
    if SortAgreesWithMax(Ids(items)) then NextIdFresh(Ids(items)); NextId(Ids(items))
    else NextId(Ids(items))
  }

  /** `get(id)`: the first item with that id; None stands for `undefined`. */
  function Get(items: seq<TodoItem>, id: nat): (r: Option<TodoItem>)
    ensures r.None? <==> forall k :: 0 <= k < |items| ==> items[k].id != id
    ensures r.Some? ==> r.value.id == id &&
                        exists k :: 0 <= k < |items| && r.value == items[k] &&
                                    forall j :: 0 <= j < k ==> items[j].id != id
  {
    match FindById(items, id)
    case None => None
    case Some(k) => Some(items[k])
  }

  /** `create(dto)`: appends a new, not finished item under the next id. */
  function Create(items: seq<TodoItem>, descripcion: string, idLista: int): (o: Outcome<TodoItem>)
    ensures o.result == TodoItem(NextItemId(items), descripcion, false, idLista)
    ensures o.items == items + [o.result]
  {
    var todoItem := TodoItem(NextItemId(items), descripcion, false, idLista);
    Outcome(todoItem, items + [todoItem])
  }

  /** `update(id, dto)`: overwrites the three fields of the first item with that id. */
  function Update(items: seq<TodoItem>, id: nat, descripcion: string, finalizada: bool, idLista: int): (o: Outcome<Option<TodoItem>>)
    ensures FindById(items, id).None? ==> o == Outcome(None, items)
    ensures FindById(items, id).Some? ==>
              var k := FindById(items, id).value;
              o.result == Some(TodoItem(id, descripcion, finalizada, idLista)) &&
              |o.items| == |items| && o.items[k] == o.result.value &&
              forall j :: 0 <= j < |items| && j != k ==> o.items[j] == items[j]
  {
    match FindById(items, id)
    case None => Outcome(None, items)
    case Some(k) =>
      var item := items[k].(descripcion := descripcion, finalizada := finalizada, idLista := idLista);
      Outcome(Some(item), items[k := item])
  }

  /** `delete(id)`: removes the first item with that id; nothing when there is none. */
  function Delete(items: seq<TodoItem>, id: nat): (r: seq<TodoItem>)
    ensures FindById(items, id).None? ==> r == items
    ensures FindById(items, id).Some? ==>
              var k := FindById(items, id).value;
              |r| == |items| - 1 &&
              (forall j :: 0 <= j < k ==> r[j] == items[j]) &&
              (forall j :: k < j < |items| ==> r[j - 1] == items[j])
  {
    match FindById(items, id)
    case None => items
    case Some(k) => RemoveAt(items, k)
  }

  predicate IdsUnique(items: seq<TodoItem>)
  {
    forall j, k :: 0 <= j < k < |items| ==> items[j].id != items[k].id
  }

  /** While the string order of the ids agrees with their numeric order, a new
      item's id is fresh and the ids stay unique. */
  lemma CreateKeepsIdsUnique(items: seq<TodoItem>, descripcion: string, idLista: int)
    requires IdsUnique(items)
    requires SortAgreesWithMax(Ids(items))
    ensures forall k :: 0 <= k < |items| ==> items[k].id < Create(items, descripcion, idLista).result.id
    ensures IdsUnique(Create(items, descripcion, idLista).items)
  {
    NextIdFresh(Ids(items));
    var after := Create(items, descripcion, idLista).items;
    forall j, m | 0 <= j < m < |after| ensures after[j].id != after[m].id {
      if m == |items| {
        assert after[j].id == Ids(items)[j];
      }
    }
  }

  /** Once items 9 and 10 exist (and no id reaches 90), `create` hands out id 10
      again. */
  lemma CreateIdRepeats(items: seq<TodoItem>, descripcion: string, idLista: int)
    requires 9 in Ids(items) && 10 in Ids(items)
    requires forall k :: 0 <= k < |items| ==> 1 <= items[k].id <= 89
    ensures Create(items, descripcion, idLista).result.id == 10
    ensures !IdsUnique(Create(items, descripcion, idLista).items)
  {
    NextIdStuckAtTen(Ids(items));
    var after := Create(items, descripcion, idLista).items;
    var k :| 0 <= k < |items| && Ids(items)[k] == 10;
    assert after[k].id == after[|items|].id;
  }

  /** A created item is found by its id, while ids are fresh. */
  lemma CreateThenGet(items: seq<TodoItem>, descripcion: string, idLista: int)
    requires SortAgreesWithMax(Ids(items))
    ensures var o := Create(items, descripcion, idLista);
            Get(o.items, o.result.id) == Some(o.result)
  {
    NextIdFresh(Ids(items));
    var o := Create(items, descripcion, idLista);
    assert forall j :: 0 <= j < |items| ==> o.items[j].id == Ids(items)[j] < o.result.id;
    assert o.items[|items|] == o.result;
    assert FindById(o.items, o.result.id) == Some(|items|);
  }

  /** After a successful update, `get` returns the updated item. */
  lemma UpdateThenGet(items: seq<TodoItem>, id: nat, descripcion: string, finalizada: bool, idLista: int)
    ensures var o := Update(items, id, descripcion, finalizada, idLista);
            Get(o.items, id) == o.result
  {
    var o := Update(items, id, descripcion, finalizada, idLista);
    if FindById(items, id).Some? {
      FindIndexAgrees(items, (i: TodoItem) => i.id == id, o.items, (i: TodoItem) => i.id == id);
    }
  }

  /** Deleting twice is deleting once, provided at most one item has that id. */
  lemma DeleteTwice(items: seq<TodoItem>, id: nat)
    requires forall j, k :: 0 <= j < k < |items| && items[j].id == id ==> items[k].id != id
    ensures Delete(Delete(items, id), id) == Delete(items, id)
  {
    var once := Delete(items, id);
    if FindById(items, id).Some? {
      var k := FindById(items, id).value;
      forall j | 0 <= j < |once| ensures once[j].id != id {
        if j >= k {
          assert once[j] == items[j + 1];
        }
      }
    }
  }

  /** With two items sharing an id, a second delete removes the second one. */
  lemma DeleteTwiceRemovesTwin()
    ensures var items := [TodoItem(10, "a", false, 1), TodoItem(10, "b", false, 1)];
            Delete(items, 10) == [TodoItem(10, "b", false, 1)] &&
            Delete(Delete(items, 10), 10) == []
  {
    var items := [TodoItem(10, "a", false, 1), TodoItem(10, "b", false, 1)];
    assert FindById(items, 10) == Some(0);
    assert Delete(items, 10) == [TodoItem(10, "b", false, 1)];
    assert FindById([TodoItem(10, "b", false, 1)], 10) == Some(0);
  }
}
