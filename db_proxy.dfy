/**
 * DbProxy over an in-memory model of the SQLite database: one table per
 * entity as a map from primary key to row, each with its AUTOINCREMENT
 * sequence value. TodoList's `Items` are not a column: they are the
 * TodoItem rows whose ListId foreign key names the list, attached on reads
 * and re-linked on saves. The connection and the table-creation latch are
 * static in the source, so one DbProxy object stands for the whole process.
 */
module Proxies {
  import opened Wrappers
  import opened Models

  datatype EntityType = EntityBaseType | TodoListType | TodoItemType

  /** The stored columns of each entity (besides the key). */
  datatype ListRow = ListRow(title: Option<string>, subtitle: Option<string>, color: Option<string>)
  /** An item row; a `listId` of None is a NULL foreign key, which no `ListId = ?` query matches. */
  datatype ItemRow = ItemRow(listId: Option<int>, isCompleted: bool, name: Option<string>)

  /** The two tables and their sqlite_sequence entries. */
  datatype Store = Store(lists: map<int, ListRow>, items: map<int, ItemRow>, lastListId: int, lastItemId: int)

  /** AUTOINCREMENT: the sequence value is never below a key of its table. */
  predicate ValidStore(s: Store)
  {
    (forall k :: k in s.lists ==> k <= s.lastListId) && (forall k :: k in s.items ==> k <= s.lastItemId)
  }

  /** A record of each call the proxy makes on the connection, in order. */
  datatype StoreCall =
    | CreateTablesCall(types: seq<EntityType>)
    | GetAllCall(entity: EntityType)
    | GetCall(entity: EntityType, id: int)
    | SaveCall(entity: EntityType)
    | DeleteCall(entity: EntityType, key: Option<int>)

  /** The entity types found by scanning for EntityBase and its subclasses. */
  const ModelTypes: seq<EntityType> := [EntityBaseType, TodoListType, TodoItemType]

  lemma {:induction false} MinExists(s: set<int>)
    requires s != {}
    ensures exists m :: m in s && forall y :: y in s ==> m <= y
    decreases |s|
  {
    if forall z :: z !in s {
      assert false;
    }
    var x :| x in s;
    if forall y :: y in s ==> x <= y {
      assert x in s && forall y :: y in s ==> x <= y;
    } else {
      var z :| z in s && z < x;
      var rest := s - {x};
      assert z in rest;
      MinExists(rest);
      var m :| m in rest && forall y :: y in rest ==> m <= y;
      forall y | y in s
        ensures m <= y
      {
        if y != x {
          assert y in rest;
        }
      }
      assert m in s && forall y :: y in s ==> m <= y;
    }
  }

  function Min(s: set<int>): (m: int)
    requires s != {}
    ensures m in s && forall y :: y in s ==> m <= y
  {
    MinExists(s);
    var m :| m in s && forall y :: y in s ==> m <= y;
    m
  }

  /** The keys of a table in ascending order: the order rows come back in. */
  function SortedKeys(s: set<int>): (r: seq<int>)
    ensures |r| == |s|
    ensures forall k :: k in r <==> k in s
    ensures forall i, j :: 0 <= i < j < |r| ==> r[i] < r[j]
    decreases |s|
  {
    if s == {} then []
    else
      var m := Min(s);
      [m] + SortedKeys(s - {m})
  }

  ghost predicate Increasing(r: seq<int>)
  {
    forall i, j :: 0 <= i < j < |r| ==> r[i] < r[j]
  }

  lemma HeadIsElement(s: seq<int>)
    ensures s != [] ==> s[0] in s
  {
  }

  lemma HeadIsLeast(s: seq<int>, j: nat)
    requires Increasing(s) && j < |s|
    ensures s[0] <= s[j]
  {
    if j > 0 {
      assert s[0] < s[j];
    }
  }

  /** Key order is determined by the keys alone: two ascending sequences with the same elements are equal. */
  lemma {:induction false} AscendingUnique(a: seq<int>, b: seq<int>)
    requires Increasing(a) && Increasing(b)
    requires forall k :: k in a <==> k in b
    ensures a == b
    decreases |a|
  {
    if a == [] || b == [] {
      HeadIsElement(a);
      HeadIsElement(b);
    } else {
      assert a[0] in b && b[0] in a;
      var i :| 0 <= i < |b| && b[i] == a[0];
      var j :| 0 <= j < |a| && a[j] == b[0];
      HeadIsLeast(a, j);
      HeadIsLeast(b, i);
      forall k
        ensures k in a[1..] <==> k in b[1..]
      {
        assert k in a[1..] <==> k in a && k != a[0];
        assert k in b[1..] <==> k in b && k != b[0];
      }
      AscendingUnique(a[1..], b[1..]);
    }
  }

  /** Taking one element out of an ascending sequence leaves it ascending, without just that element. */
  lemma AscendingWithout(r: seq<int>, i: nat)
    requires Increasing(r) && i < |r|
    ensures Increasing(r[..i] + r[i + 1..])
    ensures forall k :: k in r[..i] + r[i + 1..] <==> k in r && k != r[i]
  {
    var t := r[..i] + r[i + 1..];
    assert forall p :: 0 <= p < i ==> t[p] == r[p];
    assert forall p :: i <= p < |t| ==> t[p] == r[p + 1];
    forall p, p' | 0 <= p < p' < |t|
      ensures t[p] < t[p']
    {
      var a := if p < i then p else p + 1;
      var b := if p' < i then p' else p' + 1;
      assert t[p] == r[a] && t[p'] == r[b] && a < b;
    }
    forall k
      ensures k in t <==> k in r && k != r[i]
    {
      if k in t {
        var p :| 0 <= p < |t| && t[p] == k;
        var a := if p < i then p else p + 1;
        assert k == r[a] && a != i;
      }
      if k in r && k != r[i] {
        var a :| 0 <= a < |r| && r[a] == k;
        assert k == t[if a < i then a else a - 1];
      }
    }
  }

  /** Deleting a key takes exactly that key out of the key order, leaving the rest in place. */
  lemma SortedKeysWithout(s: set<int>, i: nat)
    requires i < |SortedKeys(s)|
    ensures var r := SortedKeys(s);
      SortedKeys(s - {r[i]}) == r[..i] + r[i + 1..]
  {
    var r := SortedKeys(s);
    AscendingWithout(r, i);
    AscendingUnique(r[..i] + r[i + 1..], SortedKeys(s - {r[i]}));
  }

  /** The children of list `owner` among the rows with keys `keys`, in that order. */
  function ChildrenAmong(items: map<int, ItemRow>, keys: seq<int>, owner: int): (r: seq<TodoItem>)
    requires forall k :: k in keys ==> k in items
    ensures forall x :: x in r <==> exists k :: k in keys && items[k].listId == Some(owner)
                                         && x == TodoItem(Some(k), owner, items[k].isCompleted, items[k].name)
    decreases |keys|
  {
    if keys == [] then []
    else
      var k := keys[0];
      var rest := ChildrenAmong(items, keys[1..], owner);
      assert forall j :: j in keys <==> j == k || j in keys[1..];
      if items[k].listId == Some(owner) then [TodoItem(Some(k), owner, items[k].isCompleted, items[k].name)] + rest
      else rest
  }

  /** GetChildren for the one-to-many Items: every item row whose ListId is the list's id, by ascending id. */
  function Children(items: map<int, ItemRow>, owner: int): seq<TodoItem>
  {
    ChildrenAmong(items, SortedKeys(items.Keys), owner)
  }

  /** The children of a list are exactly the item rows pointing at it, each read back with its key. */
  lemma ChildrenExactly(items: map<int, ItemRow>, owner: int)
    ensures forall x :: x in Children(items, owner) <==>
      exists k :: k in items && items[k].listId == Some(owner) && x == TodoItem(Some(k), owner, items[k].isCompleted, items[k].name)
  {
    var ks := SortedKeys(items.Keys);
    assert forall k :: k in ks <==> k in items;
  }

  /** A stored list row read back as a TodoList with its children attached. */
  function LoadList(s: Store, id: int): (l: TodoList)
    requires id in s.lists
    ensures l.id == Some(id) && l.items == Some(Children(s.items, id))
    ensures ListRow(l.title, l.subtitle, l.color) == s.lists[id]
  {
    var row := s.lists[id];
    TodoList(Some(id), row.title, row.subtitle, row.color, Some(Children(s.items, id)))
  }

  /**
   * GetWithChildren<TodoList>(id): Get throws InvalidOperationException
   * ("Sequence contains no elements") when no row has that key.
   */
  function FindList(s: Store, id: int): (r: Result<TodoList>)
    ensures r.Success? <==> id in s.lists
    ensures r.Success? ==> r.value == LoadList(s, id)
    ensures r.Failure? ==> r.error.InvalidOperation?
  {
    if id in s.lists then Success(LoadList(s, id)) else Failure(InvalidOperation("Sequence contains no elements"))
  }

  function LoadAll(s: Store, keys: seq<int>): (r: seq<TodoList>)
    requires forall k :: k in keys ==> k in s.lists
    ensures |r| == |keys|
    ensures forall i :: 0 <= i < |keys| ==> r[i] == LoadList(s, keys[i])
    decreases |keys|
  {
    if keys == [] then [] else [LoadList(s, keys[0])] + LoadAll(s, keys[1..])
  }

  /** GetAllWithChildren<TodoList>: every list row, each with its children, in key order. */
  function AllLists(s: Store): (r: seq<TodoList>)
    ensures |r| == |s.lists|
  {
    LoadAll(s, SortedKeys(s.lists.Keys))
  }

  /** GetAllWithChildren returns every list exactly once, unfiltered, by ascending id, as a get of its id would. */
  lemma AllListsComplete(s: Store)
    ensures var r := AllLists(s);
      forall i :: 0 <= i < |r| ==> r[i].id.Some? && FindList(s, r[i].id.value) == Success(r[i])
    ensures var r := AllLists(s);
      forall i, j :: 0 <= i < j < |r| ==> r[i].id.value < r[j].id.value
    ensures var r := AllLists(s);
      forall k :: k in s.lists ==> exists i :: 0 <= i < |r| && r[i].id == Some(k)
  {
    var ks := SortedKeys(s.lists.Keys);
    var r := AllLists(s);
    forall i | 0 <= i < |r|
      ensures r[i].id == Some(ks[i]) && FindList(s, ks[i]) == Success(r[i])
    {
      assert r[i] == LoadList(s, ks[i]);
    }
    forall k | k in s.lists
      ensures exists i :: 0 <= i < |r| && r[i].id == Some(k)
    {
      var i :| 0 <= i < |ks| && ks[i] == k;
      assert r[i].id == Some(k);
    }
  }

  /**
   * The key an INSERT OR REPLACE writes: the given id, or for a null id the
   * next AUTOINCREMENT value.
   */
  function NewKey(last: int, id: Option<int>): (k: int)
    ensures id.Some? ==> k == id.value
    ensures id.None? ==> k > last
  {
    if id.None? then last + 1 else id.value
  }

  function Max(a: int, b: int): int { if a < b then b else a }

  /** The ids of the list's children as the relationship writer reads them; a null Items counts as none. */
  function ChildIds(l: TodoList): (r: set<int>)
    ensures forall k :: k in r <==> l.items.Some? && exists c :: c in l.items.value && c.id == Some(k)
  {
    if l.items.None? then {} else set c | c in l.items.value && c.id.Some? :: c.id.value
  }

  /**
   * The one-to-many update after saving list `owner`: the listed children
   * point at it, and the rows that pointed at it but are no longer listed
   * get a NULL foreign key.
   */
  function Relink(items: map<int, ItemRow>, owner: int, childIds: set<int>): (r: map<int, ItemRow>)
    ensures r.Keys == items.Keys
    ensures forall k :: k in items ==> r[k].isCompleted == items[k].isCompleted && r[k].name == items[k].name
    ensures forall k :: k in items && k in childIds ==> r[k].listId == Some(owner)
    ensures forall k :: k in items && k !in childIds && items[k].listId == Some(owner) ==> r[k].listId.None?
    ensures forall k :: k in items && k !in childIds && items[k].listId != Some(owner) ==> r[k] == items[k]
  {
    map k | k in items ::
      if k in childIds then items[k].(listId := Some(owner))
      else if items[k].listId == Some(owner) then items[k].(listId := None)
      else items[k]
  }

  /**
   * InsertOrReplaceWithChildren of a list: writes its row under its id (a
   * fresh one when null), advances the sequence, re-links its children and
   * writes the id back into the object and its children's ListId.
   */
  function SaveListIn(s: Store, l: TodoList): (r: (Store, TodoList))
    ensures var id := NewKey(s.lastListId, l.id);
      && r.0.lists == s.lists[id := ListRow(l.title, l.subtitle, l.color)]
      && r.0.items == Relink(s.items, id, ChildIds(l))
      && r.0.lastListId == Max(s.lastListId, id) && r.0.lastItemId == s.lastItemId
      && r.1.id == Some(id) && r.1.title == l.title && r.1.subtitle == l.subtitle && r.1.color == l.color
      && (l.items.None? <==> r.1.items.None?)
      && (l.items.Some? ==>
            |r.1.items.value| == |l.items.value|
            && forall i :: 0 <= i < |l.items.value| ==> r.1.items.value[i] == l.items.value[i].(listId := id))
    ensures ValidStore(s) ==> ValidStore(r.0)
  {
    var id := NewKey(s.lastListId, l.id);
    var items := if l.items.None? then None
                 else Some(seq(|l.items.value|, i requires 0 <= i < |l.items.value| => l.items.value[i].(listId := id)));
    (Store(s.lists[id := ListRow(l.title, l.subtitle, l.color)], Relink(s.items, id, ChildIds(l)), Max(s.lastListId, id), s.lastItemId),
     l.(id := Some(id), items := items))
  }

  /** InsertOrReplace of an item (it has no relationship to write): its row under its id, or a fresh one. */
  function SaveItemIn(s: Store, item: TodoItem): (r: (Store, TodoItem))
    ensures var id := NewKey(s.lastItemId, item.id);
      && r.0.items == s.items[id := ItemRow(Some(item.listId), item.isCompleted, item.name)]
      && r.0.lists == s.lists && r.0.lastListId == s.lastListId && r.0.lastItemId == Max(s.lastItemId, id)
      && r.1 == item.(id := Some(id))
    ensures ValidStore(s) ==> ValidStore(r.0)
  {
    var id := NewKey(s.lastItemId, item.id);
    (s.(items := s.items[id := ItemRow(Some(item.listId), item.isCompleted, item.name)], lastItemId := Max(s.lastItemId, id)),
     item.(id := Some(id)))
  }

  /** Delete by primary key; a null key matches no row. Returns the rows affected. Children are not deleted. */
  function DeleteListIn(s: Store, l: TodoList): (r: (Store, int))
    ensures r.1 == 1 <==> l.id.Some? && l.id.value in s.lists
    ensures r.1 == 0 <==> !(l.id.Some? && l.id.value in s.lists)
    ensures r.0.lists == (if l.id.Some? then s.lists - {l.id.value} else s.lists)
    ensures r.0.items == s.items && r.0.lastListId == s.lastListId && r.0.lastItemId == s.lastItemId
  {
    if l.id.Some? && l.id.value in s.lists then (s.(lists := s.lists - {l.id.value}), 1)
    else (s, 0)
  }

  function DeleteItemIn(s: Store, item: TodoItem): (r: (Store, int))
    ensures r.1 == 1 <==> item.id.Some? && item.id.value in s.items
    ensures r.1 == 0 <==> !(item.id.Some? && item.id.value in s.items)
    ensures r.0.items == (if item.id.Some? then s.items - {item.id.value} else s.items)
    ensures r.0.lists == s.lists && r.0.lastListId == s.lastListId && r.0.lastItemId == s.lastItemId
  {
    if item.id.Some? && item.id.value in s.items then (s.(items := s.items - {item.id.value}), 1)
    else (s, 0)
  }

  /** A list saved without an id gets a key no row had. */
  lemma SavedListKeyIsFresh(s: Store, l: TodoList)
    requires ValidStore(s) && l.id.None?
    ensures SaveListIn(s, l).1.id.value !in s.lists
    ensures forall k :: k in s.lists ==> k < SaveListIn(s, l).1.id.value
  {
  }

  /** Save then get: the row reads back with the saved fields, under the id written back. */
  lemma {:induction false} GetAfterSaveList(s: Store, l: TodoList)
    ensures var (s', saved) := SaveListIn(s, l);
      && FindList(s', saved.id.value).Success?
      && FindList(s', saved.id.value).value.title == l.title
      && FindList(s', saved.id.value).value.subtitle == l.subtitle
      && FindList(s', saved.id.value).value.color == l.color
  {
  }

  /** An item row is among a list's children exactly when its foreign key names that list. */
  lemma IsChild(items: map<int, ItemRow>, owner: int, k: int)
    requires k in items
    ensures (exists x :: x in Children(items, owner) && x.id == Some(k)) <==> items[k].listId == Some(owner)
  {
    ChildrenExactly(items, owner);
    if items[k].listId == Some(owner) {
      var x := TodoItem(Some(k), owner, items[k].isCompleted, items[k].name);
      assert x in Children(items, owner);
    } else {
      forall x | x in Children(items, owner)
        ensures x.id != Some(k)
      {
        var j :| j in items && items[j].listId == Some(owner) && x == TodoItem(Some(j), owner, items[j].isCompleted, items[j].name);
        assert j != k;
      }
    }
  }

  /** After re-linking, an item row is a child of `owner` iff it was listed. */
  lemma ChildrenAfterRelink(items: map<int, ItemRow>, owner: int, childIds: set<int>, k: int)
    requires k in items
    ensures (exists x :: x in Children(Relink(items, owner, childIds), owner) && x.id == Some(k))
            <==> k in childIds
  {
    IsChild(Relink(items, owner, childIds), owner, k);
  }

  /** Save then get: the children read back are exactly the listed ones that exist as rows. */
  lemma SavedChildrenReadBack(s: Store, l: TodoList, k: int)
    requires k in s.items
    ensures var (s', saved) := SaveListIn(s, l);
      var loaded := FindList(s', saved.id.value).value;
      (exists x :: x in loaded.items.value && x.id == Some(k))
      <==> k in ChildIds(l)
  {
    ChildrenAfterRelink(s.items, SaveListIn(s, l).1.id.value, ChildIds(l), k);
  }

  /** Saving an item with an existing id replaces that row and leaves every other row alone. */
  lemma SaveItemReplaces(s: Store, item: TodoItem, k: int)
    requires item.id.Some? && k in s.items && k != item.id.value
    ensures SaveItemIn(s, item).0.items[k] == s.items[k]
    ensures item.id.value in SaveItemIn(s, item).0.items
  {
  }

  /** Delete removes the row outright: a later get of that id fails. */
  lemma GetAfterDeleteList(s: Store, l: TodoList)
    requires l.id.Some?
    ensures FindList(DeleteListIn(s, l).0, l.id.value).Failure?
  {
  }

  /** A list loads the same from two stores that agree on its row and on every item row. */
  lemma LoadListSame(s: Store, s': Store, k: int)
    requires k in s.lists && k in s'.lists && s'.lists[k] == s.lists[k] && s'.items == s.items
    ensures LoadList(s', k) == LoadList(s, k)
  {
  }

  /** Position `j` of a sequence with position `i` taken out. */
  lemma ElementWithout<T>(r: seq<T>, i: nat, j: nat)
    requires i < |r| && j < |r| - 1
    ensures (r[..i] + r[i + 1..])[j] == r[if j < i then j else j + 1]
  {
  }

  /** Loading all but one of some distinct keys, from a store without that one list row. */
  lemma LoadAllWithout(s: Store, s': Store, keys: seq<int>, i: nat)
    requires i < |keys| && forall k :: k in keys ==> k in s.lists
    requires s'.items == s.items && s'.lists == s.lists - {keys[i]}
    requires forall j :: 0 <= j < |keys| && j != i ==> keys[j] != keys[i]
    ensures forall k :: k in keys[..i] + keys[i + 1..] ==> k in s'.lists
    ensures var all := LoadAll(s, keys);
      LoadAll(s', keys[..i] + keys[i + 1..]) == all[..i] + all[i + 1..]
  {
    var rest := keys[..i] + keys[i + 1..];
    forall k | k in rest
      ensures k in s'.lists
    {
      var j :| 0 <= j < |rest| && rest[j] == k;
      ElementWithout(keys, i, j);
    }
    var all := LoadAll(s, keys);
    var after := LoadAll(s', rest);
    forall j | 0 <= j < |rest|
      ensures after[j] == (all[..i] + all[i + 1..])[j]
    {
      var a := if j < i then j else j + 1;
      ElementWithout(keys, i, j);
      ElementWithout(all, i, j);
      LoadListSame(s, s', keys[a]);
    }
  }

  /** After a list is deleted, a full load is the previous full load without that list, the rest in the same order. */
  lemma AllListsAfterDelete(s: Store, l: TodoList, i: nat)
    requires i < |SortedKeys(s.lists.Keys)| && l.id == Some(SortedKeys(s.lists.Keys)[i])
    ensures var all := AllLists(s);
      AllLists(DeleteListIn(s, l).0) == all[..i] + all[i + 1..]
  {
    var ks := SortedKeys(s.lists.Keys);
    var s' := DeleteListIn(s, l).0;
    assert SortedKeys(s'.lists.Keys) == ks[..i] + ks[i + 1..] by {
      assert s'.lists.Keys == s.lists.Keys - {ks[i]};
      SortedKeysWithout(s.lists.Keys, i);
    }
    LoadAllWithout(s, s', ks, i);
  }

  /** Removing a loaded list from a full load, by its id, takes out exactly its position. */
  lemma RemoveFromAllLists(s: Store, l: TodoList, i: nat)
    requires i < |SortedKeys(s.lists.Keys)| && l.id == Some(SortedKeys(s.lists.Keys)[i])
    ensures var all := AllLists(s);
      RemoveList(all, l) == all[..i] + all[i + 1..]
  {
    var ks := SortedKeys(s.lists.Keys);
    var all := AllLists(s);
    forall j | 0 <= j < i
      ensures all[j].id != l.id
    {
      assert all[j].id == Some(ks[j]) && ks[j] < ks[i];
    }
    RemoveListAt(all, l, i);
  }

  class DbProxy {
    var store: Store
    /** The static flag: tables have been created in this process. */
    var initialized: bool
    var calls: seq<StoreCall>

    ghost predicate Valid()
      reads this
    {
      ValidStore(store)
    }

    /** The empty database of a new process; the constructor's fire-and-forget table creation is a separate CreateTables call. */
    constructor()
      ensures Valid() && store == Store(map[], map[], 0, 0) && !initialized && calls == []
    {
      store := Store(map[], map[], 0, 0);
      initialized := false;
      calls := [];
    }

    /**
     * CreateTablesAsync(types): a null array is an argument error before
     * anything else; otherwise the tables are created once per process.
     * `engineSucceeds` is whether the database call completes; when it
     * throws, the flag stays unset and a later call tries again.
     */
    method CreateTables(types: Option<seq<EntityType>>, engineSucceeds: bool) returns (r: Outcome)
      modifies this`initialized, this`calls
      ensures types.None? ==> r == Fail(ArgumentNull("types")) && initialized == old(initialized) && calls == old(calls)
      ensures types.Some? && old(initialized) ==> r == Pass && initialized && calls == old(calls)
      ensures types.Some? && !old(initialized) ==>
        calls == old(calls) + [CreateTablesCall(types.value)]
        && (engineSucceeds ==> r == Pass && initialized)
        && (!engineSucceeds ==> r == Fail(StorageFault) && !initialized)
    {
      if types.None? {
        return Fail(ArgumentNull("types"));
      }
      if !initialized {
        calls := calls + [CreateTablesCall(types.value)];
        if !engineSucceeds {
          return Fail(StorageFault);
        }
        initialized := true;
      }
      return Pass;
    }

    method GetAllLists() returns (r: seq<TodoList>)
      modifies this`calls
      ensures r == AllLists(store)
      ensures calls == old(calls) + [GetAllCall(TodoListType)]
    {
      calls := calls + [GetAllCall(TodoListType)];
      r := AllLists(store);
    }

    method GetList(id: int) returns (r: Result<TodoList>)
      modifies this`calls
      ensures r == FindList(store, id)
      ensures calls == old(calls) + [GetCall(TodoListType, id)]
    {
      calls := calls + [GetCall(TodoListType, id)];
      r := FindList(store, id);
    }

    /** SaveAsync<TodoList>: returns the list as the call leaves it (id and children's ListId written back). */
    method SaveList(l: TodoList) returns (saved: TodoList)
      requires Valid()
      modifies this`store, this`calls
      ensures Valid()
      ensures (store, saved) == SaveListIn(old(store), l)
      ensures calls == old(calls) + [SaveCall(TodoListType)]
    {
      calls := calls + [SaveCall(TodoListType)];
      var (s, written) := SaveListIn(store, l);
      store := s;
      saved := written;
    }

    /** DeleteAsync<TodoList>: returns the number of rows removed. */
    method DeleteList(l: TodoList) returns (n: int)
      requires Valid()
      modifies this`store, this`calls
      ensures Valid()
      ensures (store, n) == DeleteListIn(old(store), l)
      ensures calls == old(calls) + [DeleteCall(TodoListType, l.id)]
    {
      calls := calls + [DeleteCall(TodoListType, l.id)];
      var (s, count) := DeleteListIn(store, l);
      store := s;
      n := count;
    }

    method SaveItem(item: TodoItem) returns (saved: TodoItem)
      requires Valid()
      modifies this`store, this`calls
      ensures Valid()
      ensures (store, saved) == SaveItemIn(old(store), item)
      ensures calls == old(calls) + [SaveCall(TodoItemType)]
    {
      calls := calls + [SaveCall(TodoItemType)];
      var (s, written) := SaveItemIn(store, item);
      store := s;
      saved := written;
    }

    method DeleteItem(item: TodoItem) returns (n: int)
      requires Valid()
      modifies this`store, this`calls
      ensures Valid()
      ensures (store, n) == DeleteItemIn(old(store), item)
      ensures calls == old(calls) + [DeleteCall(TodoItemType, item.id)]
    {
      calls := calls + [DeleteCall(TodoItemType, item.id)];
      var (s, count) := DeleteItemIn(store, item);
      store := s;
      n := count;
    }
  }
}
