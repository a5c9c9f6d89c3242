/** What the operations of TodoListsService guarantee, and where id allocation
    by string order breaks the guarantees one would expect. */
module ListLemmas {
  import opened ArrayOps
  import opened IdAllocation
  import opened ListStore

  /** Lookups by id only look at ids. */
  lemma FindListSameIds(a: seq<TodoList>, b: seq<TodoList>, id: nat)
    requires |a| == |b| && forall j :: 0 <= j < |a| ==> a[j].id == b[j].id
    ensures FindList(a, id) == FindList(b, id)
  {
  }

  lemma FindItemSameIds(a: seq<TodoItem>, b: seq<TodoItem>, itemId: nat)
    requires |a| == |b| && forall j :: 0 <= j < |a| ==> a[j].itemId == b[j].itemId
    ensures FindItem(a, itemId) == FindItem(b, itemId)
  {
  }

  lemma {:induction false} TotalItemsUpdate(lists: seq<TodoList>, k: nat, l: TodoList)
    requires k < |lists|
    ensures TotalItems(lists[k := l]) == TotalItems(lists) - |lists[k].items| + |l.items|
  {
    var n := |lists|;
    if k == n - 1 {
      assert lists[k := l][..n - 1] == lists[..n - 1];
    } else {
      assert lists[k := l][..n - 1] == lists[..n - 1][k := l];
      TotalItemsUpdate(lists[..n - 1], k, l);
    }
  }

  lemma {:induction false} TotalItemsRemove(lists: seq<TodoList>, k: nat)
    requires k < |lists|
    ensures TotalItems(RemoveAt(lists, k)) == TotalItems(lists) - |lists[k].items|
  {
    var n := |lists|;
    if k == n - 1 {
      assert RemoveAt(lists, k) == lists[..n - 1];
    } else {
      assert RemoveAt(lists, k)[..n - 2] == RemoveAt(lists[..n - 1], k);
      TotalItemsRemove(lists[..n - 1], k);
    }
  }

  // ---------------------------------------------------------------- lists

  predicate NamesUnique(lists: seq<TodoList>)
  {
    forall j, k :: 0 <= j < k < |lists| ==> lists[j].name != lists[k].name
  }

  /** `create` keeps list names unique. */
  lemma CreateKeepsNamesUnique(lists: seq<TodoList>, name: string)
    requires NamesUnique(lists)
    ensures NamesUnique(Create(lists, name).lists)
  {
    var after := Create(lists, name).lists;
    if !NameTaken(lists, name) {
      forall j, k | 0 <= j < k < |after| ensures after[j].name != after[k].name {
        if k == |lists| {
          assert after[j] == lists[j];
        }
      }
    }
  }

  /** `update` does not check names, so a rename can duplicate one. */
  lemma UpdateMayDuplicateName()
    ensures var lists := [TodoList(1, "a", []), TodoList(2, "b", [])];
            NamesUnique(lists) && !NamesUnique(Update(lists, 2, "a").lists)
  {
    var lists := [TodoList(1, "a", []), TodoList(2, "b", [])];
    assert FindList(lists, 2) == Some(1);
    assert Update(lists, 2, "a").lists[0].name == Update(lists, 2, "a").lists[1].name;
  }

  /** While the string order of the list ids agrees with their numeric order, a
      new list's id exceeds every existing one. */
  lemma CreateListIdFresh(lists: seq<TodoList>, name: string)
    requires !NameTaken(lists, name)
    requires SortAgreesWithMax(ListIds(lists))
    ensures forall k :: 0 <= k < |lists| ==> lists[k].id < Create(lists, name).result.value.id
  {
    NextIdFresh(ListIds(lists));
  }

  /** Once lists 9 and 10 exist (and no id reaches 90), `create` hands out id 10
      again, to a second live list. */
  lemma CreateListIdRepeats(lists: seq<TodoList>, name: string)
    requires !NameTaken(lists, name)
    requires 9 in ListIds(lists) && 10 in ListIds(lists)
    requires forall k :: 0 <= k < |lists| ==> 1 <= lists[k].id <= 89
    ensures Create(lists, name).result.value.id == 10
    ensures Create(lists, name).result.value.id in ListIds(lists)
  {
    NextIdStuckAtTen(ListIds(lists));
  }

  /** `delete` drops the list with all its items. */
  lemma DeleteDropsItems(lists: seq<TodoList>, todoListId: nat, k: nat)
    requires FindList(lists, todoListId) == Some(k)
    ensures TotalItems(Delete(lists, todoListId).lists) == TotalItems(lists) - |lists[k].items|
  {
    TotalItemsRemove(lists, k);
  }

  /** After `delete`, looking the id up again fails, provided only one list had
      that id. */
  lemma DeleteThenGet(lists: seq<TodoList>, todoListId: nat)
    requires forall j, k :: 0 <= j < k < |lists| && lists[j].id == todoListId ==> lists[k].id != todoListId
    ensures Get(Delete(lists, todoListId).lists, todoListId) == Err(TodolistDoesNotExist)
  {
    var after := Delete(lists, todoListId).lists;
    if FindList(lists, todoListId).Some? {
      var k := FindList(lists, todoListId).value;
      forall j | 0 <= j < |after| ensures after[j].id != todoListId {
        if j >= k {
          assert after[j] == lists[j + 1];
        }
      }
    }
  }

  /** With two lists sharing an id, `delete` removes only the first, and `get`
      then finds the second. */
  lemma DeleteLeavesTwin()
    ensures var lists := [TodoList(10, "a", []), TodoList(10, "b", [])];
            Get(Delete(lists, 10).lists, 10) == Ok(TodoList(10, "b", []))
  {
    var lists := [TodoList(10, "a", []), TodoList(10, "b", [])];
    assert FindList(lists, 10) == Some(0);
    assert Delete(lists, 10).lists == [TodoList(10, "b", [])];
  }

  // ---------------------------------------------------------------- items

  predicate ItemIdsUnique(items: seq<TodoItem>)
  {
    forall j, k :: 0 <= j < k < |items| ==> items[j].itemId != items[k].itemId
  }

  /** `createTodoItem` keeps the item ids of a list unique while their string
      order agrees with their numeric order. */
  lemma CreateTodoItemKeepsIdsUnique(lists: seq<TodoList>, todoListId: nat, description: string, k: nat)
    requires FindList(lists, todoListId) == Some(k)
    requires ItemIdsUnique(lists[k].items)
    requires SortAgreesWithMax(ItemIds(lists[k].items))
    ensures ItemIdsUnique(CreateTodoItem(lists, todoListId, description).lists[k].items)
  {
    var items := lists[k].items;
    NextIdFresh(ItemIds(items));
    var after := CreateTodoItem(lists, todoListId, description).lists[k].items;
    assert after == items + [TodoItem(NextItemId(lists[k]), description, false)];
    forall j, m | 0 <= j < m < |after| ensures after[j].itemId != after[m].itemId {
      if m == |items| {
        assert after[j].itemId == ItemIds(items)[j];
      }
    }
  }

  /** Setting completion twice: the second value wins, whatever the first was. */
  lemma SetCompletionLastWriteWins(lists: seq<TodoList>, todoListId: nat, todoItemId: nat, first: bool, second: bool)
    ensures SetCompletionStateItem(SetCompletionStateItem(lists, todoListId, todoItemId, first).lists,
                                   todoListId, todoItemId, second)
         == SetCompletionStateItem(lists, todoListId, todoItemId, second)
  {
    var once := SetCompletionStateItem(lists, todoListId, todoItemId, first);
    if FindList(lists, todoListId).Some? {
      var k := FindList(lists, todoListId).value;
      FindListSameIds(lists, once.lists, todoListId);
      if FindItem(lists[k].items, todoItemId).Some? {
        var i := FindItem(lists[k].items, todoItemId).value;
        FindItemSameIds(lists[k].items, once.lists[k].items, todoItemId);
        var item := lists[k].items[i].(completed := second);
        assert once.lists[k].(items := once.lists[k].items[i := item]) == lists[k].(items := lists[k].items[i := item]);
        assert once.lists[k := once.lists[k].(items := once.lists[k].items[i := item])]
            == lists[k := lists[k].(items := lists[k].items[i := item])];
      }
    }
  }

  /** Setting the same completion value twice is the same as setting it once. */
  lemma SetCompletionIdempotent(lists: seq<TodoList>, todoListId: nat, todoItemId: nat, state: bool)
    ensures var once := SetCompletionStateItem(lists, todoListId, todoItemId, state);
            SetCompletionStateItem(once.lists, todoListId, todoItemId, state) == once
  {
    SetCompletionLastWriteWins(lists, todoListId, todoItemId, state, state);
  }

  // ---------------------------------------------------------------- move

  lemma MoveUnfold(lists: seq<TodoList>, todoListId: nat, newTodoListId: nat, todoItemId: nat, s: nat, d: nat, i: nat)
    requires FindList(lists, todoListId) == Some(s)
    requires FindList(lists, newTodoListId) == Some(d)
    requires FindItem(lists[s].items, todoItemId) == Some(i)
    ensures var original := lists[s].items[i];
            var removed := WithoutItem(lists, s, i);
            var finalItems := Restored(removed[d].items + [TodoItem(NextItemId(lists[d]), original.description, false)],
                                       original.completed);
            Move(lists, todoListId, newTodoListId, todoItemId) == Outcome(Ok(Last(finalItems)), WithItems(removed, d, finalItems))
  {
  }

  /** Step one of the move: the copy is appended to the destination. */
  lemma CreateStep(lists: seq<TodoList>, newTodoListId: nat, d: nat, description: string)
    requires FindList(lists, newTodoListId) == Some(d)
    ensures var moved := TodoItem(NextItemId(lists[d]), description, false);
            CreateTodoItem(lists, newTodoListId, description) == Outcome(Ok(moved), WithItems(lists, d, lists[d].items + [moved]))
  {
  }

  /** Step two: deleting by the original's id still finds the original, even
      when the copy went to the end of the same list. */
  lemma DeleteStep(lists: seq<TodoList>, todoListId: nat, todoItemId: nat, s: nat, i: nat, d: nat, moved: TodoItem)
    requires FindList(lists, todoListId) == Some(s)
    requires FindItem(lists[s].items, todoItemId) == Some(i)
    requires d < |lists|
    ensures var removed := WithoutItem(lists, s, i);
            DeleteItemList(WithItems(lists, d, lists[d].items + [moved]), todoListId, todoItemId)
              == Outcome(Ok(()), WithItems(removed, d, removed[d].items + [moved]))
  {
    var created := WithItems(lists, d, lists[d].items + [moved]);
    var removed := WithoutItem(lists, s, i);
    FindListSameIds(lists, created, todoListId);
    if s == d {
      assert created[s].items == lists[s].items + [moved];
      assert forall j :: 0 <= j <= i ==> created[s].items[j] == lists[s].items[j];
      assert FindItem(created[s].items, todoItemId) == Some(i);
      RemoveAtAppend(lists[s].items, i, moved);
      assert created[s := created[s].(items := RemoveAt(created[s].items, i))]
          == WithItems(removed, d, removed[d].items + [moved]);
    } else {
      assert created[s] == lists[s];
      assert created[s := created[s].(items := RemoveAt(created[s].items, i))]
          == WithItems(removed, d, removed[d].items + [moved]);
    }
  }

  /** Step three: marking the copy's id completed in the destination. */
  lemma RestoreStep(removed: seq<TodoList>, newTodoListId: nat, d: nat, destItems: seq<TodoItem>)
    requires FindList(removed, newTodoListId) == Some(d)
    requires |destItems| > 0
    ensures SetCompletionStateItem(WithItems(removed, d, destItems), newTodoListId, Last(destItems).itemId, true).lists
         == WithItems(removed, d, Restored(destItems, true))
  {
    var w := WithItems(removed, d, destItems);
    FindListSameIds(removed, w, newTodoListId);
    var id := Last(destItems).itemId;
    assert destItems[|destItems| - 1].itemId == id;
    var j := FindItem(destItems, id).value;
    assert w[d := w[d].(items := destItems[j := destItems[j].(completed := true)])]
        == WithItems(removed, d, MarkCompleted(destItems, id));
  }

  /** The move is what the service's steps produce: create the copy in the
      destination (which cannot fail, the destination was found), delete the
      original from the source (which cannot fail, the item was found, and the
      copy went to the end), then mark the copy's id completed in the
      destination if the original was completed; the copy, as it is at the end,
      is returned. */
  lemma MoveIsSequence(lists: seq<TodoList>, todoListId: nat, newTodoListId: nat, todoItemId: nat, s: nat, d: nat, i: nat)
    requires FindList(lists, todoListId) == Some(s)
    requires FindList(lists, newTodoListId) == Some(d)
    requires FindItem(lists[s].items, todoItemId) == Some(i)
    ensures var item := lists[s].items[i];
            var created := CreateTodoItem(lists, newTodoListId, item.description);
            created.result.Ok? &&
            var deleted := DeleteItemList(created.lists, todoListId, todoItemId);
            deleted.result.Ok? &&
            var restored := if item.completed
                            then SetCompletionStateItem(deleted.lists, newTodoListId, created.result.value.itemId, true).lists
                            else deleted.lists;
            |restored| == |lists| && |restored[d].items| > 0 &&
            Move(lists, todoListId, newTodoListId, todoItemId) == Outcome(Ok(Last(restored[d].items)), restored)
  {
    var item := lists[s].items[i];
    var moved := TodoItem(NextItemId(lists[d]), item.description, false);
    CreateStep(lists, newTodoListId, d, item.description);
    DeleteStep(lists, todoListId, todoItemId, s, i, d, moved);
    var removed := WithoutItem(lists, s, i);
    var destItems := removed[d].items + [moved];
    MoveUnfold(lists, todoListId, newTodoListId, todoItemId, s, d, i);
    if item.completed {
      FindListSameIds(lists, removed, newTodoListId);
      RestoreStep(removed, newTodoListId, d, destItems);
    }
  }

  /** On success: the copy is last in the destination, under the destination's
      next item id, with the original's description; the items before it are
      the destination's (without the original when moving within one list);
      the source no longer holds the original; list ids and names and every
      other list are unchanged. */
  lemma MoveResult(lists: seq<TodoList>, todoListId: nat, newTodoListId: nat, todoItemId: nat, s: nat, d: nat, i: nat)
    requires FindList(lists, todoListId) == Some(s)
    requires FindList(lists, newTodoListId) == Some(d)
    requires FindItem(lists[s].items, todoItemId) == Some(i)
    ensures var o := Move(lists, todoListId, newTodoListId, todoItemId);
            var kept := if s == d then RemoveAt(lists[d].items, i) else lists[d].items;
            o.result.Ok? &&
            |o.lists| == |lists| &&
            (forall j :: 0 <= j < |lists| ==> o.lists[j].id == lists[j].id && o.lists[j].name == lists[j].name) &&
            (forall j :: 0 <= j < |lists| && j != s && j != d ==> o.lists[j] == lists[j]) &&
            (s != d ==> o.lists[s].items == RemoveAt(lists[s].items, i)) &&
            |o.lists[d].items| == |kept| + 1 &&
            (forall j :: 0 <= j < |kept| ==> o.lists[d].items[j].itemId == kept[j].itemId &&
                                             o.lists[d].items[j].description == kept[j].description) &&
            Last(o.lists[d].items) == o.result.value &&
            o.result.value.itemId == NextItemId(lists[d]) &&
            o.result.value.description == lists[s].items[i].description
  {
    MoveUnfold(lists, todoListId, newTodoListId, todoItemId, s, d, i);
    var original := lists[s].items[i];
    var moved := TodoItem(NextItemId(lists[d]), original.description, false);
    var removed := WithoutItem(lists, s, i);
    var kept := if s == d then RemoveAt(lists[d].items, i) else lists[d].items;
    assert removed[d].items == kept;
    var appended := kept + [moved];
    var finalItems := Restored(appended, original.completed);
    var after := WithItems(removed, d, finalItems);
    assert after[d].items == finalItems;
    assert finalItems[|kept|].itemId == moved.itemId && finalItems[|kept|].description == moved.description;
  }

  /** A successful move neither loses nor duplicates an item. */
  lemma MoveConservesItemCount(lists: seq<TodoList>, todoListId: nat, newTodoListId: nat, todoItemId: nat)
    ensures TotalItems(Move(lists, todoListId, newTodoListId, todoItemId).lists) == TotalItems(lists)
  {
    var o := Move(lists, todoListId, newTodoListId, todoItemId);
    if o.result.Ok? {
      var s, d := FindList(lists, todoListId).value, FindList(lists, newTodoListId).value;
      var i := FindItem(lists[s].items, todoItemId).value;
      MoveUnfold(lists, todoListId, newTodoListId, todoItemId, s, d, i);
      var removed := WithoutItem(lists, s, i);
      TotalItemsUpdate(lists, s, removed[s]);
      assert removed == lists[s := removed[s]];
      TotalItemsUpdate(removed, d, o.lists[d]);
      assert o.lists == removed[d := o.lists[d]];
    }
  }

  /** While the string order of the destination's item ids agrees with their
      numeric order, the copy's id is fresh there, so the copy keeps the
      original's completion and the destination is its old items plus the copy. */
  lemma MoveKeepsCompletion(lists: seq<TodoList>, todoListId: nat, newTodoListId: nat, todoItemId: nat, s: nat, d: nat, i: nat)
    requires FindList(lists, todoListId) == Some(s)
    requires FindList(lists, newTodoListId) == Some(d)
    requires FindItem(lists[s].items, todoItemId) == Some(i)
    requires SortAgreesWithMax(ItemIds(lists[d].items))
    ensures var o := Move(lists, todoListId, newTodoListId, todoItemId);
            var original := lists[s].items[i];
            var kept := if s == d then RemoveAt(lists[d].items, i) else lists[d].items;
            o.result == Ok(TodoItem(NextItemId(lists[d]), original.description, original.completed)) &&
            o.lists[d].items == kept + [o.result.value]
  {
    var original := lists[s].items[i];
    var nid := NextItemId(lists[d]);
    NextIdFresh(ItemIds(lists[d].items));
    assert forall j :: 0 <= j < |lists[d].items| ==> lists[d].items[j].itemId != nid by {
      forall j | 0 <= j < |lists[d].items| ensures lists[d].items[j].itemId != nid {
        assert lists[d].items[j].itemId == ItemIds(lists[d].items)[j];
      }
    }
    MoveUnfold(lists, todoListId, newTodoListId, todoItemId, s, d, i);
    KeptFresh(lists, s, d, i, nid);
    RestoredFresh(WithoutItem(lists, s, i)[d].items, TodoItem(nid, original.description, false), original.completed);
  }

  /** Removing an item from a list adds no id to it. */
  lemma KeptFresh(lists: seq<TodoList>, s: nat, d: nat, i: nat, nid: nat)
    requires s < |lists| && d < |lists| && i < |lists[s].items|
    requires forall j :: 0 <= j < |lists[d].items| ==> lists[d].items[j].itemId != nid
    ensures forall j :: 0 <= j < |WithoutItem(lists, s, i)[d].items| ==> WithoutItem(lists, s, i)[d].items[j].itemId != nid
  {
    var kept := WithoutItem(lists, s, i)[d].items;
    if s == d {
      forall j | 0 <= j < |kept| ensures kept[j].itemId != nid {
        if j >= i {
          assert kept[j] == lists[d].items[j + 1];
        }
      }
    }
  }

  /** With the copy's id fresh, restoring completion touches the copy alone. */
  lemma RestoredFresh(kept: seq<TodoItem>, moved: TodoItem, completed: bool)
    requires !moved.completed
    requires forall j :: 0 <= j < |kept| ==> kept[j].itemId != moved.itemId
    ensures Restored(kept + [moved], completed) == kept + [moved.(completed := completed)]
  {
    var destItems := kept + [moved];
    assert forall j :: 0 <= j < |kept| ==> destItems[j].itemId != moved.itemId;
    assert destItems[|kept|].itemId == moved.itemId;
    if completed {
      assert FindItem(destItems, moved.itemId) == Some(|kept|);
    }
  }

  /** Moving within one list, while the string order of the list's item ids
      agrees with their numeric order: the original leaves its place and the
      copy, under a new id and with the original's completion, goes to the end.
      Without that hypothesis the new id can collide and completion lands on the
      older item (MoveCompletesWrongItem); MoveResult with s == d states the
      unconditional part. */
  lemma MoveWithinOneList(lists: seq<TodoList>, todoListId: nat, todoItemId: nat, s: nat, i: nat)
    requires FindList(lists, todoListId) == Some(s)
    requires FindItem(lists[s].items, todoItemId) == Some(i)
    requires SortAgreesWithMax(ItemIds(lists[s].items))
    ensures var o := Move(lists, todoListId, todoListId, todoItemId);
            var original := lists[s].items[i];
            o.lists[s].items == RemoveAt(lists[s].items, i) + [original.(itemId := NextItemId(lists[s]))]
  {
    MoveKeepsCompletion(lists, todoListId, todoListId, todoItemId, s, s, i);
  }

  /** When the copy's id collides with an item already in the destination (item
      ids 9 and 10 there make the next id 10 again), restoring completion marks
      that older item completed and the copy, returned, stays not completed. */
  lemma MoveCompletesWrongItem()
    ensures var lists := [TodoList(1, "a", [TodoItem(1, "x", true)]),
                          TodoList(2, "b", [TodoItem(9, "p", false), TodoItem(10, "q", false)])];
            var o := Move(lists, 1, 2, 1);
            o.result == Ok(TodoItem(10, "x", false)) &&
            o.lists[1].items == [TodoItem(9, "p", false), TodoItem(10, "q", true), TodoItem(10, "x", false)]
  {
    var lists := [TodoList(1, "a", [TodoItem(1, "x", true)]),
                  TodoList(2, "b", [TodoItem(9, "p", false), TodoItem(10, "q", false)])];
    assert FindList(lists, 1) == Some(0);
    assert FindList(lists, 2) == Some(1);
    assert FindItem(lists[0].items, 1) == Some(0);
    var ids := ItemIds(lists[1].items);
    assert ids[0] == 9;
    NextIdStuckAtTen(ids);
    var destItems := lists[1].items + [TodoItem(10, "x", false)];
    assert destItems[0].itemId == 9 && destItems[1].itemId == 10;
    assert FindItem(destItems, 10) == Some(1);
  }
}
