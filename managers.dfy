/**
 * The managers: thin business-logic layers between the screens and the
 * database proxy, one for to-do lists and one for their items.
 */
module Managers {
  import opened Wrappers
  import opened Models
  import opened Proxies

  /** Which ids the list manager passes on to the database: only positive ones. */
  predicate LooksUp(id: Option<int>) {
    id.Some? && id.value > 0
  }

  class ListManager {
    const db: DbProxy

    constructor(db: DbProxy)
      ensures this.db == db
    {
      this.db := db;
    }

    /** All lists, each with its items, in ascending id order. */
    method GetLists() returns (r: seq<TodoList>)
      modifies db`calls
      ensures r == AllLists(db.store)
      ensures db.calls == old(db.calls) + [GetAllCall(TodoListType)]
    {
      r := db.GetAllLists();
    }

    /**
     * The list with the given id. A missing or non-positive id yields no list
     * without a database call; a positive id not in the database is an error
     * raised by the database lookup.
     */
    method GetList(id: Option<int>) returns (r: Result<Option<TodoList>>)
      modifies db`calls
      ensures !LooksUp(id) ==> r == Success(None) && db.calls == old(db.calls)
      ensures LooksUp(id) ==> db.calls == old(db.calls) + [GetCall(TodoListType, id.value)]
      ensures LooksUp(id) ==> (r.Success? <==> id.value in db.store.lists)
      ensures LooksUp(id) && r.Success? ==> r.value == Some(LoadList(db.store, id.value))
      ensures LooksUp(id) && r.Failure? ==> r.error == FindList(db.store, id.value).error
    {
      if LooksUp(id) {
        var found := db.GetList(id.value);
        if found.Failure? {
          return Failure(found.error);
        }
        return Success(Some(found.value));
      }
      return Success(None);
    }

    /** Inserts or replaces the list and relinks its items; reports success unconditionally. */
    method SaveList(l: TodoList) returns (ok: bool)
      requires db.Valid()
      modifies db`store, db`calls
      ensures db.Valid()
      ensures ok
      ensures db.store == SaveListIn(old(db.store), l).0
      ensures db.calls == old(db.calls) + [SaveCall(TodoListType)]
    {
      var _ := db.SaveList(l);
      return true;
    }

    /** Deletes the list's row; true exactly when a row was deleted. */
    method DeleteList(l: TodoList) returns (ok: bool)
      requires db.Valid()
      modifies db`store, db`calls
      ensures db.Valid()
      ensures ok <==> l.id.Some? && l.id.value in old(db.store).lists
      ensures db.store == DeleteListIn(old(db.store), l).0
      ensures db.calls == old(db.calls) + [DeleteCall(TodoListType, l.id)]
    {
      var n := db.DeleteList(l);
      return n > 0;
    }
  }

  class ItemManager {
    const db: DbProxy

    constructor(db: DbProxy)
      ensures this.db == db
    {
      this.db := db;
    }

    /** Inserts or replaces the item. */
    method SaveItem(item: TodoItem)
      requires db.Valid()
      modifies db`store, db`calls
      ensures db.Valid()
      ensures db.store == SaveItemIn(old(db.store), item).0
      ensures db.calls == old(db.calls) + [SaveCall(TodoItemType)]
    {
      var _ := db.SaveItem(item);
    }

    /** Deletes the item's row; the number of rows deleted is not reported. */
    method DeleteItem(item: TodoItem)
      requires db.Valid()
      modifies db`store, db`calls
      ensures db.Valid()
      ensures db.store == DeleteItemIn(old(db.store), item).0
      ensures db.calls == old(db.calls) + [DeleteCall(TodoItemType, item.id)]
    {
      var _ := db.DeleteItem(item);
    }
  }
}
