# Todo lists service — a Dafny model

This project models the in-memory domain layer of a small NestJS todo service.

`TodoListsService` owns an array of lists. Each list has an `id`, a `name` and
an array of items `{itemId, description, completed}`. The service offers these
operations:

- `get`, `create`, `update` (rename) and `delete` for lists;
- `createTodoItem`, `deleteItemList`, `setCompletionStateItem` and
  `setDescriptionStateItem` for items;
- `setItemList`, which moves an item to another list.

Every operation returns the entity or an `{error: code}` value and never
throws. The codes are `todolist-does-not-exist`, `todolist-already-exists` and
`todoitem-does-not-exist`. The older `TodoItemService` keeps one flat array of
items `{id, descripcion, finalizada, idLista}`, with `get`, `create`, `update`
and `delete`.

Layout:

- `array_ops.dfy` (`ArrayOps`): the two JavaScript array built-ins the services
  use. `find`/`findIndex` become `FindIndex`, which gives the first match.
  `splice(i, 1)` becomes `RemoveAt`.
- `id_allocation.dfy` (`IdAllocation`): id allocation,
  `ids.sort().reverse()[0]`, then `last ? last + 1 : 1`. A `sort()` with no
  comparator compares the ids' decimal strings. The "last" id is therefore the
  lexicographically largest (`LexMax` over `Decimal`), not the numeric maximum.
  An empty array, or a last id of 0 (which is falsy), gives 1.
- `list_store.dfy` (`ListStore`): the lists array as a value. Each operation of
  `TodoListsService` is a function from the old array to an `Outcome`: the
  returned value (`Ok` or `Err`) and the array left behind.
- `list_lemmas.dfy` (`ListLemmas`): what those operations guarantee, including
  the move.
- `list_service.dfy` (`ListService`): class `TodoListsService`. Its field
  `todolists: seq<TodoList>` is reassigned in place. Each method takes the
  source's steps and is proved to produce exactly the `ListStore` outcome.
  `SetItemList` calls `CreateTodoItem`, `DeleteItemList` and
  `SetCompletionStateItem`, as the source does.
- `item_store.dfy` (`ItemStore`) and `item_service.dfy` (`ItemService`): the
  same structure for `TodoItemService`.

Where the intended design and the code disagree, the model follows the code:

- **Ids can repeat.** Once ids 9 and 10 exist and no id reaches 90, the "9"
  string sorts last, so every new list or item gets id 10 again
  (`NextIdStuckAtTen`). Freshness and uniqueness are proved only while the
  string order agrees with the numeric order, for example while all ids are
  below 10.
- **A move can lose completion.** If the copy's new id collides with an item
  already in the destination, restoring completion finds that older item
  first. The older item is marked completed, and the returned copy stays not
  completed (`MoveCompletesWrongItem`).
- **Rename does not check names.** Only `create` refuses a duplicate name, so
  `update` can give two lists the same name (`UpdateMayDuplicateName`).
- **Duplicate ids change delete.** When two entries share an id, `delete`
  removes only the first one. A later lookup then finds the second
  (`DeleteLeavesTwin`), and deleting twice removes both (`DeleteTwiceRemovesTwin`).

## Model

| member | source | states |
|---|---|---|
| ArrayOps.FindIndex | src/todo_lists/todo_lists.service.ts:146 | the index of the first element satisfying the predicate; None exactly when no element satisfies it |
| ArrayOps.RemoveAt | src/todo_lists/todo_lists.service.ts:149 | `splice(i, 1)`: one element shorter; elements before i are kept, elements after i shift down by one |
| IdAllocation.Decimal | src/todo_lists/todo_lists.service.ts:191 | the string `sort()` compares: non-empty decimal digits, a leading '0' only for 0, one digit exactly below 10 |
| IdAllocation.ValueOfDecimal | src/todo_lists/todo_lists.service.ts:191 | reading the decimal string back gives the id, so distinct ids compare as distinct strings |
| IdAllocation.LexLess | src/todo_lists/todo_lists.service.ts:191 | the order of `sort()` with no comparator: code unit by code unit, no string before itself, a proper prefix first |
| IdAllocation.LexLessIrreflexive | src/todo_lists/todo_lists.service.ts:191 | no id string sorts before itself |
| IdAllocation.LexLessTransitive | src/todo_lists/todo_lists.service.ts:191 | the string order is transitive |
| IdAllocation.LexLessTotal | src/todo_lists/todo_lists.service.ts:191 | any two distinct strings are ordered one way or the other |
| IdAllocation.LexMax | src/todo_lists/todo_lists.service.ts:189-192 | `sort().reverse()[0]` on a non-empty array is one of its ids |
| IdAllocation.LexMaxIsGreatest | src/todo_lists/todo_lists.service.ts:189-192 | no id of the array sorts after LexMax in string order |
| IdAllocation.LexMaxUnique | src/todo_lists/todo_lists.service.ts:189-192 | any id that nothing sorts after is LexMax, so the sort's tie-breaking cannot change the result |
| IdAllocation.NextId | src/todo_lists/todo_lists.service.ts:194 | the next id is at least 1 |
| IdAllocation.NextIdFresh | src/todo_lists/todo_lists.service.ts:188-195 | when the id that sorts last is also the numeric maximum, the next id exceeds every id and is not among them |
| IdAllocation.SingleDigitIdsAgree | src/todo_lists/todo_lists.service.ts:188-195 | with all ids below 10, the string order agrees with the numeric maximum |
| IdAllocation.NextIdStuckAtTen | src/todo_lists/todo_lists.service.ts:188-195 | with 9 among the ids and all ids in 1..89, the next id is 10 |
| IdAllocation.NextIdRepeatsAfterTen | src/todo_item/todo_item.service.ts:53-60 | ids 1..10 give next id 10 again; the string order disagrees with the numeric maximum there |
| ListStore.FindList | src/todo_lists/todo_lists.service.ts:27 | `find` on the lists by id: the first list with that id, None exactly when no list has it |
| ListStore.FindItem | src/todo_lists/todo_lists.service.ts:71 | `find` on a list's items by itemId: the first item with that id, None exactly when none has it |
| ListStore.NameTaken | src/todo_lists/todo_lists.service.ts:36-38 | a list already has the name exactly when `find` by name finds one |
| ListStore.NextListId | src/todo_lists/todo_lists.service.ts:188-195 | the next list id is at least 1, and exceeds every list id while their string order agrees with the numeric maximum |
| ListStore.NextItemId | src/todo_lists/todo_lists.service.ts:198-205 | the next item id of a list is at least 1, and exceeds every item id of that list while their string order agrees with the numeric maximum |
| ListStore.Get | src/todo_lists/todo_lists.service.ts:26-32 | an error exactly when no list has the id, and then `todolist-does-not-exist`; otherwise a list of the array with that id, and no list with that id comes before it |
| ListStore.Create | src/todo_lists/todo_lists.service.ts:35-50 | a taken name gives `todolist-already-exists` and an unchanged array; otherwise one list with that name, no items and id `nextId()` is appended at the end and returned |
| ListStore.Update | src/todo_lists/todo_lists.service.ts:53-61 | a missing id gives the list error with the array unchanged; otherwise only the first matching list changes, only its name, and the renamed list is returned |
| ListStore.SetCompletionStateItem | src/todo_lists/todo_lists.service.ts:64-79 | missing list, then missing item, give their errors with the array unchanged; otherwise only that item's `completed` changes, and the item is returned |
| ListStore.SetDescriptionStateItem | src/todo_lists/todo_lists.service.ts:82-97 | the same as the completion setter, with only the item's `description` changing |
| ListStore.Delete | src/todo_lists/todo_lists.service.ts:145-153 | a missing id gives the list error with the array unchanged; otherwise the first matching list is removed and the others keep their order |
| ListStore.CreateTodoItem | src/todo_lists/todo_lists.service.ts:156-169 | a missing list gives the list error with the array unchanged; otherwise only that list changes: one item with the description, `completed` false and id `nextItemId(list)` is appended and returned |
| ListStore.DeleteItemList | src/todo_lists/todo_lists.service.ts:172-186 | missing list, then missing item, give their errors with the array unchanged; otherwise only that list changes, losing its first item with that id |
| ListStore.MarkCompleted | src/todo_lists/todo_lists.service.ts:133-139 | restoring completion marks only the first item with that id completed; ids and descriptions are untouched |
| ListStore.Restored | src/todo_lists/todo_lists.service.ts:137-139 | restoring completion keeps the destination's length |
| ListStore.WithoutItem | src/todo_lists/todo_lists.service.ts:182 | removing an item changes only that list's items |
| ListStore.WithItems | src/todo_lists/todo_lists.service.ts:167 | replacing a list's items changes nothing else |
| ListStore.Move | src/todo_lists/todo_lists.service.ts:100-112 | a missing source list, then a missing destination list, give `todolist-does-not-exist`, and a missing item gives `todoitem-does-not-exist`; in each case the array is unchanged |
| ListLemmas.FindListSameIds | src/todo_lists/todo_lists.service.ts:27 | the lookup by id depends only on the ids, so changing items never moves a list's position |
| ListLemmas.FindItemSameIds | src/todo_lists/todo_lists.service.ts:71 | the item lookup depends only on item ids |
| ListLemmas.TotalItemsUpdate | src/todo_lists/todo_lists.service.ts:167 | replacing one list changes the total item count by the difference in that list's size |
| ListLemmas.TotalItemsRemove | src/todo_lists/todo_lists.service.ts:149 | removing a list removes its items from the total count |
| ListLemmas.CreateKeepsNamesUnique | src/todo_lists/todo_lists.service.ts:36-40 | if list names are unique, they stay unique after `create` |
| ListLemmas.UpdateMayDuplicateName | src/todo_lists/todo_lists.service.ts:53-61 | renaming list 2 to "a" beside list "a" makes the names not unique: rename does not check names |
| ListLemmas.CreateListIdFresh | src/todo_lists/todo_lists.service.ts:43 | when the list ids' string order agrees with the numeric maximum, a new list's id exceeds every existing id |
| ListLemmas.CreateListIdRepeats | src/todo_lists/todo_lists.service.ts:43 | with lists 9 and 10 present and ids in 1..89, a new list gets id 10, an id a live list already has |
| ListLemmas.DeleteDropsItems | src/todo_lists/todo_lists.service.ts:145-153 | deleting a list removes all of its items from the store |
| ListLemmas.DeleteThenGet | src/todo_lists/todo_lists.service.ts:145-153 | when at most one list has the id, `get` on it after `delete` gives `todolist-does-not-exist` |
| ListLemmas.DeleteLeavesTwin | src/todo_lists/todo_lists.service.ts:146-149 | with two lists sharing id 10, `get(10)` after `delete(10)` returns the second list |
| ListLemmas.CreateTodoItemKeepsIdsUnique | src/todo_lists/todo_lists.service.ts:162-167 | when a list's item ids are unique and their string order agrees with the numeric maximum, they stay unique after `createTodoItem` |
| ListLemmas.SetCompletionLastWriteWins | src/todo_lists/todo_lists.service.ts:64-79 | two completion writes to the same item equal the second write alone (true then false restores false) |
| ListLemmas.SetCompletionIdempotent | src/todo_lists/todo_lists.service.ts:64-79 | writing the same completion value twice gives the same result and array as writing it once |
| ListLemmas.MoveUnfold | src/todo_lists/todo_lists.service.ts:114-141 | after the three lookups succeed, the move is the source without the item, plus the copy at the destination's end with completion restored |
| ListLemmas.CreateStep | src/todo_lists/todo_lists.service.ts:115-118 | the move's first step appends the copy, under the destination's next item id and not completed, and it cannot fail |
| ListLemmas.DeleteStep | src/todo_lists/todo_lists.service.ts:127 | the move's delete step removes the original, never the copy, even when source and destination are the same list, and it cannot fail |
| ListLemmas.RestoreStep | src/todo_lists/todo_lists.service.ts:133-139 | the move's completion step marks the first destination item with the copy's id |
| ListLemmas.MoveIsSequence | src/todo_lists/todo_lists.service.ts:114-141 | once the lookups succeed, the create and delete steps always succeed, so the early returns at lines 120-122 and 128-130 are unreachable; create, delete and optional completion produce exactly Move's outcome, returning the copy as the steps left it |
| ListLemmas.MoveResult | src/todo_lists/todo_lists.service.ts:100-142 | on success: the source no longer holds the original; the copy is last in the destination, under `nextItemId(dest)`, with the original's description; the items before it keep their ids and descriptions; list ids, names and every other list are unchanged |
| ListLemmas.MoveConservesItemCount | src/todo_lists/todo_lists.service.ts:100-142 | a move never changes the total number of items: nothing is lost or duplicated |
| ListLemmas.KeptFresh | src/todo_lists/todo_lists.service.ts:127 | removing the original adds no id to the destination |
| ListLemmas.RestoredFresh | src/todo_lists/todo_lists.service.ts:133-139 | with the copy's id fresh, restoring completion touches only the copy |
| ListLemmas.MoveKeepsCompletion | src/todo_lists/todo_lists.service.ts:114-141 | when the destination's item ids sort by their numeric maximum, the returned copy has the new id and the original's description and completion, and the destination is its old items plus the copy |
| ListLemmas.MoveWithinOneList | src/todo_lists/todo_lists.service.ts:114-141 | while the list's item ids sort by their numeric maximum, moving within one list removes the original from its place and appends it at the end under the list's next item id, with its description and completion |
| ListLemmas.MoveCompletesWrongItem | src/todo_lists/todo_lists.service.ts:133-139 | moving a completed item into a list holding ids 9 and 10 gives the copy id 10, marks the older item 10 completed, and returns the copy not completed |
| ListService.TodoListsService.constructor | src/todo_lists/todo_lists.service.ts:16-18 | the service starts with the array it is given |
| ListService.TodoListsService.All | src/todo_lists/todo_lists.service.ts:21-23 | returns the current lists |
| ListService.TodoListsService.Get | src/todo_lists/todo_lists.service.ts:26-32 | returns ListStore.Get of the current array and changes nothing |
| ListService.TodoListsService.Create | src/todo_lists/todo_lists.service.ts:35-50 | result and new array are ListStore.Create of the old array |
| ListService.TodoListsService.Update | src/todo_lists/todo_lists.service.ts:53-61 | result and new array are ListStore.Update of the old array |
| ListService.TodoListsService.SetCompletionStateItem | src/todo_lists/todo_lists.service.ts:64-79 | result and new array are ListStore.SetCompletionStateItem of the old array |
| ListService.TodoListsService.SetDescriptionStateItem | src/todo_lists/todo_lists.service.ts:82-97 | result and new array are ListStore.SetDescriptionStateItem of the old array |
| ListService.TodoListsService.SetItemList | src/todo_lists/todo_lists.service.ts:100-142 | calling create, delete and the completion setter in sequence yields exactly ListStore.Move of the old array |
| ListService.TodoListsService.Delete | src/todo_lists/todo_lists.service.ts:145-153 | result and new array are ListStore.Delete of the old array |
| ListService.TodoListsService.CreateTodoItem | src/todo_lists/todo_lists.service.ts:156-169 | result and new array are ListStore.CreateTodoItem of the old array |
| ListService.TodoListsService.DeleteItemList | src/todo_lists/todo_lists.service.ts:172-186 | result and new array are ListStore.DeleteItemList of the old array |
| ItemStore.FindById | src/todo_item/todo_item.service.ts:47 | the first item with that id, None (for -1) exactly when no item has it |
| ItemStore.NextItemId | src/todo_item/todo_item.service.ts:53-60 | the next item id is at least 1, and exceeds every item id while their string order agrees with the numeric maximum |
| ItemStore.Get | src/todo_item/todo_item.service.ts:16-18 | None (`undefined`) exactly when no item has the id; otherwise an item of the array with that id, and no item with that id comes before it |
| ItemStore.Create | src/todo_item/todo_item.service.ts:20-31 | appends and returns one item with `finalizada` false, the given `descripcion` and `idLista`, and id `nextId()` |
| ItemStore.Update | src/todo_item/todo_item.service.ts:33-44 | a missing id returns None with the array unchanged; otherwise only the first matching item changes, to the given three fields under the same id, and it is returned |
| ItemStore.Delete | src/todo_item/todo_item.service.ts:46-51 | removes the first item with the id and keeps the others in order; a missing id leaves the array unchanged |
| ItemStore.CreateKeepsIdsUnique | src/todo_item/todo_item.service.ts:20-31 | when the ids' string order agrees with the numeric maximum, the new id exceeds every id and unique ids stay unique |
| ItemStore.CreateIdRepeats | src/todo_item/todo_item.service.ts:53-60 | with items 9 and 10 present and ids in 1..89, `create` gives id 10 again and the ids are no longer unique |
| ItemStore.CreateThenGet | src/todo_item/todo_item.service.ts:16-31 | while ids are fresh, `get` on a created item's id returns that item |
| ItemStore.UpdateThenGet | src/todo_item/todo_item.service.ts:16-44 | `get` after `update` returns what `update` returned: the updated item, or None for a missing id |
| ItemStore.DeleteTwice | src/todo_item/todo_item.service.ts:46-51 | when at most one item has the id, deleting twice equals deleting once |
| ItemStore.DeleteTwiceRemovesTwin | src/todo_item/todo_item.service.ts:46-51 | with two items sharing id 10, the first delete removes one and the second delete removes the other |
| ItemService.TodoItemService.constructor | src/todo_item/todo_item.service.ts:8-10 | the service starts with no items |
| ItemService.TodoItemService.All | src/todo_item/todo_item.service.ts:12-14 | returns the current items |
| ItemService.TodoItemService.Get | src/todo_item/todo_item.service.ts:16-18 | returns ItemStore.Get of the current array and changes nothing |
| ItemService.TodoItemService.Create | src/todo_item/todo_item.service.ts:20-31 | result and new array are ItemStore.Create of the old array |
| ItemService.TodoItemService.Update | src/todo_item/todo_item.service.ts:33-44 | looks the item up with `get`, then assigns its fields; result and new array are ItemStore.Update of the old array |
| ItemService.TodoItemService.Delete | src/todo_item/todo_item.service.ts:46-51 | the new array is ItemStore.Delete of the old array |

## Left out

- Value semantics instead of aliasing: entities are values. A returned list or item is a snapshot, and later changes made through a returned JavaScript reference are not modelled. `all()` returns the current sequence. One case depends on the reference: `setItemList` returns the `newItem` object after the completion step has run. The model returns the destination's last item, which is that object in its final state.
- `Number(...)` casts and loose `==`: ids are `nat`, and parameters are already-parsed ids.
- JavaScript numbers are doubles. Ids above 2^53, and the exponent form `String()` uses from 1e21 up, are not modelled. Neither is `sort()` on negative or non-integer ids.
- The DTO classes and their validation are not modelled. Each operation takes the DTO's fields as parameters.
- The HTTP controllers, the Nest module wiring and the MCP tool wrapper have no domain logic and are not part of this model. The MCP wrapper only issues HTTP calls.
- IdAllocation.NextId: its own contract says only that the result is at least 1. What the id is, and when it is fresh, is stated by NextIdFresh, NextIdStuckAtTen and LexMaxUnique.
- ListStore.Move: its own contract covers only the error paths. The success case is stated by MoveResult, MoveIsSequence, MoveConservesItemCount and MoveKeepsCompletion.
- ListLemmas.MoveKeepsCompletion: preserving completion is proved only while the destination's item ids sort by their numeric maximum. Otherwise it fails (MoveCompletesWrongItem).
- ListLemmas.MoveWithinOneList: proved only while the list's item ids sort by their numeric maximum. Otherwise the copy's id can collide, and completion lands on the older item (MoveCompletesWrongItem). MoveResult with the source equal to the destination states what holds unconditionally: the original is removed, and the copy is appended last under NextItemId with the original's description.
- ListStore.NextListId, ListStore.NextItemId, ItemStore.NextItemId: their freshness clause is conditional, because ids do repeat (IdAllocation.NextIdStuckAtTen).
- ListLemmas.DeleteThenGet: proved only when at most one list has the id. Otherwise it fails (DeleteLeavesTwin).
- ItemStore.DeleteTwice: proved only when at most one item has the id. Otherwise it fails (DeleteTwiceRemovesTwin).
- ListLemmas.CreateListIdFresh: freshness of list ids is conditional, because ids do repeat (CreateListIdRepeats). The same holds for ListLemmas.CreateTodoItemKeepsIdsUnique and ItemStore.CreateKeepsIdsUnique.
