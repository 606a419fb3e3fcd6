/**
 * The list-detail screen's view model: the selected list (a plain
 * property, not notified), its name and an observable collection of its
 * items, and the task operations that save through the item manager and
 * then reload the list.
 */
module ListDetailScreen {
  import opened Wrappers
  import opened Text
  import opened Models
  import opened ViewModels
  import opened Proxies
  import opened Managers

  const ListNameProperty := "ListName"
  const ItemsProperty := "Items"

  /**
   * The methods the view model declares, its loading methods then its task
   * operations; none follows the Execute_ convention.
   */
  const Declared: seq<string> := ["InitializeAsync", "RefreshData"] + ["UpdateTask", "DeleteTask", "CreateNewTask"]

  /** The screen registers no command. */
  lemma NoCommandsDeclared()
    ensures MakeCommandTable(Declared) == Success(CommandTable([], map[]))
  {
    forall m | m in Declared
      ensures !StartsWith(m, ExecutePrefix)
    {
      assert m[0] != ExecutePrefix[0];
    }
    NoCommands(Declared);
  }

  /** `id ?? 0`. */
  function IdOrZero(id: Option<int>): int {
    if id.Some? then id.value else 0
  }

  /**
   * What a refresh of `listId` finds: the list manager answers null for a
   * non-positive id, which the refresh then dereferences; a positive id is
   * looked up, and a missing one is the lookup's error.
   */
  function Refreshed(s: Store, listId: int): (r: Result<TodoList>)
    ensures r.Success? <==> listId > 0 && listId in s.lists
    ensures listId <= 0 ==> r == Failure(NullReference)
    ensures listId > 0 && listId !in s.lists ==> r.error.InvalidOperation?
    ensures r.Success? ==> r.value == LoadList(s, listId) && r.value.items.Some?
  {
    if listId <= 0 then Failure(NullReference) else FindList(s, listId)
  }

  /**
   * The refresh's effect on the dictionary: a new Items collection with
   * the list's items, then the list's title as ListName.
   */
  function ShowListEffect(st: VmState, keys: seq<string>, coll: nat, l: TodoList): (r: VmState)
    requires l.items.Some?
    ensures var held := GetValue(st.properties, ItemsProperty, ItemsProp);
      !(held.ItemsV? && held.coll == coll) ==>
        r.properties == st.properties[ItemsProperty := ItemsV(coll, l.items.value)][ListNameProperty := AsValue(l.title)] &&
        PropertyChanged(ItemsProperty) in r.events
    ensures st.events <= r.events
  {
    var st1 := SetValueEffect(st, keys, ItemsV(coll, l.items.value), ItemsProperty, ItemsProp);
    SetValueEffect(st1, keys, AsValue(l.title), ListNameProperty, StringProp)
  }

  /**
   * Collection<TodoItem>.IndexOf then the indexer's set: the first item
   * with the given item's id is replaced by it; nothing changes when no
   * item has that id.
   */
  function ReplaceItem(s: seq<TodoItem>, item: TodoItem): (r: seq<TodoItem>)
    ensures |r| == |s|
    ensures (forall j :: 0 <= j < |s| ==> s[j].id != item.id) ==> r == s
    ensures forall j :: 0 <= j < |s| ==>
      r[j] == if s[j].id == item.id && (forall k :: 0 <= k < j ==> s[k].id != item.id) then item else s[j]
  {
    var i := IndexOfItem(s, item);
    if i >= 0 then s[i := item] else s
  }

  /** A new task shows up on the next refresh of its list, and every task already there stays. */
  lemma NewTaskAppears(s: Store, listId: int, task: Option<string>)
    requires ValidStore(s) && listId > 0 && listId in s.lists
    ensures var s' := SaveItemIn(s, TodoItem(None, listId, false, task)).0;
      && Refreshed(s', listId).Success?
      && TodoItem(Some(s.lastItemId + 1), listId, false, task) in Refreshed(s', listId).value.items.value
      && forall x :: x in Refreshed(s, listId).value.items.value ==> x in Refreshed(s', listId).value.items.value
  {
    var s' := SaveItemIn(s, TodoItem(None, listId, false, task)).0;
    var k := s.lastItemId + 1;
    assert k !in s.items;
    assert s'.items[k] == ItemRow(Some(listId), false, task);
    forall x | x in Refreshed(s, listId).value.items.value
      ensures x in Refreshed(s', listId).value.items.value
    {
      var j :| j in s.items && s.items[j].listId == Some(listId) && x == TodoItem(Some(j), listId, s.items[j].isCompleted, s.items[j].name);
      assert s'.items[j] == s.items[j];
    }
  }

  /** A deleted task is gone on the next refresh, and every other task stays. */
  lemma DeletedTaskDisappears(s: Store, listId: int, item: TodoItem)
    requires item.id.Some? && listId > 0 && listId in s.lists
    ensures var s' := DeleteItemIn(s, item).0;
      && Refreshed(s', listId).Success?
      && (forall x :: x in Refreshed(s', listId).value.items.value ==> x.id != item.id)
      && forall x :: x in Refreshed(s, listId).value.items.value && x.id != item.id ==> x in Refreshed(s', listId).value.items.value
  {
    var s' := DeleteItemIn(s, item).0;
    forall x | x in Refreshed(s, listId).value.items.value && x.id != item.id
      ensures x in Refreshed(s', listId).value.items.value
    {
      var j :| j in s.items && s.items[j].listId == Some(listId) && x == TodoItem(Some(j), listId, s.items[j].isCompleted, s.items[j].name);
      assert j in s'.items && s'.items[j] == s.items[j];
    }
  }

  class ListDetailViewModel {
    const base: ViewModelBase
    const lists: ListManager
    const items: ItemManager
    /** SelectedList: an auto-property, so setting it raises nothing. */
    var selectedList: Option<TodoList>
    /** How many Items collections the view model has created; each has its own identity. */
    var collections: nat

    ghost predicate Valid()
      reads this, base, lists.db
    {
      && ItemsProperty in base.properties && base.properties[ItemsProperty].ItemsV?
      && base.properties[ItemsProperty].coll < collections
      && lists.db == items.db && lists.db.Valid()
    }

    function State(): VmState
      reads base
    {
      VmState(base.properties, base.events)
    }

    /** Both managers share the one database proxy; Items starts as an empty collection. */
    constructor(lists: ListManager, items: ItemManager)
      requires lists.db == items.db && lists.db.Valid()
      ensures Valid() && fresh(base) && base.declared == Declared
      ensures base.properties == map[ItemsProperty := ItemsV(0, [])] && base.events == [PropertyChanged(ItemsProperty)]
      ensures selectedList == None && collections == 1 && this.lists == lists && this.items == items
    {
      var declared := Declared;
      NoCommandsDeclared();
      base := new ViewModelBase(declared);
      this.lists := lists;
      this.items := items;
      selectedList := None;
      collections := 1;
      new;
      base.SetValue(ItemsV(0, []), ItemsProperty, ItemsProp);
    }

    /** The outcome of a refresh of `listId` against `s`, from the given earlier state. */
    ghost predicate ShowsRefresh(s: Store, listId: int, selected: Option<TodoList>, st: VmState, coll: nat, r: Outcome)
      reads this, base
    {
      match Refreshed(s, listId)
      case Failure(e) =>
        r == Fail(e) && State() == st && collections == coll && selectedList == (if listId <= 0 then None else selected)
      case Success(l) =>
        r == Pass && selectedList == Some(l) && collections == coll + 1 && State() == ShowListEffect(st, base.table.keys, coll, l)
    }

    /** Loads the list, shows its items in a new collection and its title as ListName. */
    method RefreshData(listId: int) returns (r: Outcome)
      requires Valid()
      modifies this`selectedList, this`collections, base`properties, base`events, lists.db`calls
      ensures Valid()
      ensures lists.db.calls == old(lists.db.calls) + (if listId > 0 then [GetCall(TodoListType, listId)] else [])
      ensures ShowsRefresh(lists.db.store, listId, old(selectedList), old(State()), old(collections), r)
    {
      var found := lists.GetList(Some(listId));
      if found.Failure? {
        return Fail(found.error);
      }
      selectedList := found.value;
      if selectedList.None? {
        return Fail(NullReference);
      }
      var l := selectedList.value;
      base.SetValue(ItemsV(collections, l.items.value), ItemsProperty, ItemsProp);
      collections := collections + 1;
      base.SetValue(AsValue(l.title), ListNameProperty, StringProp);
      return Pass;
    }

    /** A positive integer parameter is the list to show; anything else leaves the screen as it is. */
    method InitializeAsync(parameter: Object) returns (r: Outcome)
      requires Valid()
      modifies this`selectedList, this`collections, base`properties, base`events, lists.db`calls
      ensures Valid()
      ensures parameter.IntObj? && parameter.i > 0 ==>
        lists.db.calls == old(lists.db.calls) + [GetCall(TodoListType, parameter.i)] &&
        ShowsRefresh(lists.db.store, parameter.i, old(selectedList), old(State()), old(collections), r)
      ensures !(parameter.IntObj? && parameter.i > 0) ==>
        r == Pass && lists.db.calls == old(lists.db.calls) && State() == old(State()) &&
        selectedList == old(selectedList) && collections == old(collections)
    {
      if parameter.IntObj? && parameter.i > 0 {
        r := RefreshData(parameter.i);
      } else {
        r := Pass;
      }
    }

    /** Saves the item, first replacing it in the shown collection when asked to. */
    method UpdateTask(item: TodoItem, updateInMemory: bool)
      requires Valid()
      modifies base`properties, items.db`store, items.db`calls
      ensures Valid()
      ensures items.db.store == SaveItemIn(old(items.db.store), item).0
      ensures items.db.calls == old(items.db.calls) + [SaveCall(TodoItemType)]
      ensures var held := old(base.properties[ItemsProperty]);
        base.properties == old(base.properties)[ItemsProperty := ItemsV(held.coll, if updateInMemory then ReplaceItem(held.items, item) else held.items)]
      ensures base.events == old(base.events)
    {
      var held := base.properties[ItemsProperty];
      if updateInMemory {
        base.Mutate(ItemsProperty, ItemsV(held.coll, ReplaceItem(held.items, item)));
      }
      items.SaveItem(item);
    }

    /** Deletes the item, then reloads the selected list; with no list selected the reload fails. */
    method DeleteTask(item: TodoItem) returns (r: Outcome)
      requires Valid()
      modifies this`selectedList, this`collections, base`properties, base`events, items.db`store, items.db`calls
      ensures Valid()
      ensures items.db.store == DeleteItemIn(old(items.db.store), item).0
      ensures old(selectedList).None? ==>
        r == Fail(NullReference) && State() == old(State()) && selectedList == None && collections == old(collections) &&
        items.db.calls == old(items.db.calls) + [DeleteCall(TodoItemType, item.id)]
      ensures old(selectedList).Some? ==>
        var id := IdOrZero(old(selectedList).value.id);
        items.db.calls == old(items.db.calls) + [DeleteCall(TodoItemType, item.id)] + (if id > 0 then [GetCall(TodoListType, id)] else []) &&
        ShowsRefresh(items.db.store, id, old(selectedList), old(State()), old(collections), r)
    {
      items.DeleteItem(item);
      if selectedList.None? {
        return Fail(NullReference);
      }
      r := RefreshData(IdOrZero(selectedList.value.id));
    }

    /**
     * Saves a new incomplete task on the selected list, then reloads it;
     * with no list selected nothing is saved.
     */
    method CreateNewTask(task: Option<string>) returns (r: Outcome)
      requires Valid()
      modifies this`selectedList, this`collections, base`properties, base`events, items.db`store, items.db`calls
      ensures Valid()
      ensures old(selectedList).None? ==>
        r == Fail(NullReference) && State() == old(State()) && selectedList == None && collections == old(collections) &&
        items.db.store == old(items.db.store) && items.db.calls == old(items.db.calls)
      ensures old(selectedList).Some? ==>
        var id := IdOrZero(old(selectedList).value.id);
        items.db.store == SaveItemIn(old(items.db.store), TodoItem(None, id, false, task)).0 &&
        items.db.calls == old(items.db.calls) + [SaveCall(TodoItemType)] + (if id > 0 then [GetCall(TodoListType, id)] else []) &&
        ShowsRefresh(items.db.store, id, old(selectedList), old(State()), old(collections), r)
    {
      if selectedList.None? {
        return Fail(NullReference);
      }
      var id := IdOrZero(selectedList.value.id);
      items.SaveItem(TodoItem(None, id, false, task));
      r := RefreshData(id);
    }
  }
}
