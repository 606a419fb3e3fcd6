/**
 * The main screen's view model: an observable collection of every to-do
 * list, deletion of a list, and navigation to the other two screens,
 * including the CreateList command registered by naming convention.
 */
module MainPageScreen {
  import opened Wrappers
  import opened Text
  import opened Models
  import opened ViewModels
  import opened Proxies
  import opened Managers
  import opened Navigation

  const ListsProperty := "Lists"

  /** The methods the view model declares besides its command: loading, then deletion and navigation. */
  const OtherMethods: seq<string> := ["InitializeAsync", "RefreshData"] + ["DeleteList", "GoToListDetail", "GoToListCreateOrEdit"]

  function Declared(): seq<string>
  {
    OtherMethods + [ExecutePrefix + "CreateList"]
  }

  /** Execute_CreateList is registered as the always-enabled CreateList command, and nothing else is. */
  lemma CreateListIsTheOnlyCommand()
    ensures MakeCommandTable(Declared()) ==
      Success(CommandTable(["CreateList"], map["CreateList" := Command(ExecutePrefix + "CreateList", None)]))
  {
    forall m | m in OtherMethods
      ensures !StartsWith(m, ExecutePrefix) && m != CanExecutePrefix + "CreateList"
    {
      assert m[0] != ExecutePrefix[0] && m[0] != (CanExecutePrefix + "CreateList")[0];
    }
    NoFirstCharNoMatch("CreateList", ExecutePrefix);
    OneCommand(OtherMethods, "CreateList", false);
    assert Declared() == OtherMethods + [ExecutePrefix + "CreateList"] + [];
  }

  /**
   * Removing a deleted list from the shown lists gives what a reload
   * would show: the lists in ascending id order, each with its items.
   */
  lemma DeleteMatchesReload(s: Store, l: TodoList)
    requires l.id.Some? && l.id.value in s.lists
    ensures RemoveList(AllLists(s), l) == AllLists(DeleteListIn(s, l).0)
  {
    var ks := SortedKeys(s.lists.Keys);
    assert l.id.value in ks;
    var i :| 0 <= i < |ks| && ks[i] == l.id.value;
    RemoveFromAllLists(s, l, i);
    AllListsAfterDelete(s, l, i);
  }

  /**
   * Collections compare by reference, so showing a new collection always
   * replaces the old one and raises PropertyChanged, whatever it holds.
   */
  lemma NewCollectionNotifies(st: VmState, keys: seq<string>, coll: nat, all: seq<TodoList>)
    requires ListsProperty in st.properties && st.properties[ListsProperty].ListsV?
    requires st.properties[ListsProperty].coll < coll
    ensures var r := SetValueEffect(st, keys, ListsV(coll, all), ListsProperty, ListsProp);
      && r.properties == st.properties[ListsProperty := ListsV(coll, all)]
      && r.events == st.events + [PropertyChanged(ListsProperty)] + Notified(keys, None)
  {
  }

  /** The view model's base part, with the CreateList command registered. */
  method NewBase() returns (base: ViewModelBase)
    ensures fresh(base) && base.declared == Declared()
    ensures base.table == CommandTable(["CreateList"], map["CreateList" := Command(ExecutePrefix + "CreateList", None)])
    ensures base.properties == map[] && base.events == []
  {
    CreateListIsTheOnlyCommand();
    base := new ViewModelBase(Declared());
  }

  class MainPageViewModel {
    const base: ViewModelBase
    const lists: ListManager
    const nav: NavigationService
    /** How many Lists collections the view model has created; each has its own identity. */
    var collections: nat

    /** Lists holds a collection, and a newer collection is never equal to it. */
    ghost predicate Valid()
      reads this, base
    {
      && ListsProperty in base.properties && base.properties[ListsProperty].ListsV?
      && base.properties[ListsProperty].coll < collections
    }

    function State(): VmState
      reads base
    {
      VmState(base.properties, base.events)
    }

    /** Lists starts as an empty collection. */
    constructor(lists: ListManager, nav: NavigationService)
      ensures Valid() && fresh(base) && base.declared == Declared()
      ensures base.table == CommandTable(["CreateList"], map["CreateList" := Command(ExecutePrefix + "CreateList", None)])
      ensures base.properties == map[ListsProperty := ListsV(0, [])]
      ensures base.events == [PropertyChanged(ListsProperty), CanExecuteChanged("CreateList")]
      ensures collections == 1 && this.lists == lists && this.nav == nav
    {
      var b := NewBase();
      base := b;
      this.lists := lists;
      this.nav := nav;
      collections := 1;
      new;
      assert Notified(["CreateList"], None) == [CanExecuteChanged("CreateList")] by {
        assert ["CreateList"][..0] == [];
      }
      base.SetValue(ListsV(0, []), ListsProperty, ListsProp);
    }

    /** Shows every list, with its items, in a new collection. */
    method RefreshData()
      requires Valid()
      modifies this`collections, base`properties, base`events, lists.db`calls
      ensures Valid()
      ensures lists.db.calls == old(lists.db.calls) + [GetAllCall(TodoListType)]
      ensures collections == old(collections) + 1
      ensures base.properties == old(base.properties)[ListsProperty := ListsV(old(collections), AllLists(lists.db.store))]
      ensures base.events == old(base.events) + [PropertyChanged(ListsProperty)] + Notified(base.table.keys, None)
    {
      var all := lists.GetLists();
      NewCollectionNotifies(State(), base.table.keys, collections, all);
      base.SetValue(ListsV(collections, all), ListsProperty, ListsProp);
      collections := collections + 1;
    }

    /** The navigation parameter is ignored; the screen loads every list. */
    method InitializeAsync(parameter: Object)
      requires Valid()
      modifies this`collections, base`properties, base`events, lists.db`calls
      ensures Valid()
      ensures lists.db.calls == old(lists.db.calls) + [GetAllCall(TodoListType)]
      ensures collections == old(collections) + 1
      ensures base.properties == old(base.properties)[ListsProperty := ListsV(old(collections), AllLists(lists.db.store))]
      ensures base.events == old(base.events) + [PropertyChanged(ListsProperty)] + Notified(base.table.keys, None)
    {
      RefreshData();
    }

    /**
     * Deletes the list; when a row was deleted the list is also removed
     * from the shown collection, which then agrees with a reload if it did
     * before.
     */
    method DeleteList(l: TodoList) returns (ok: bool)
      requires Valid() && lists.db.Valid()
      modifies base`properties, lists.db`store, lists.db`calls
      ensures Valid() && lists.db.Valid()
      ensures ok <==> l.id.Some? && l.id.value in old(lists.db.store).lists
      ensures lists.db.store == DeleteListIn(old(lists.db.store), l).0
      ensures lists.db.calls == old(lists.db.calls) + [DeleteCall(TodoListType, l.id)]
      ensures var held := old(base.properties[ListsProperty]);
        base.properties == old(base.properties)[ListsProperty := if ok then ListsV(held.coll, RemoveList(held.lists, l)) else held]
      ensures base.events == old(base.events)
      ensures old(base.properties[ListsProperty].lists) == AllLists(old(lists.db.store)) ==>
        base.properties[ListsProperty].lists == AllLists(lists.db.store)
    {
      var held := base.properties[ListsProperty];
      ok := lists.DeleteList(l);
      if ok {
        base.Mutate(ListsProperty, ListsV(held.coll, RemoveList(held.lists, l)));
        if held.lists == AllLists(old(lists.db.store)) {
          DeleteMatchesReload(old(lists.db.store), l);
        }
      }
    }

    /** What navigating to `screen` with `parameter` did, from the given earlier navigation state. */
    ghost predicate Navigated(screen: string, parameter: Object, stack0: Option<seq<Page>>, created0: nat, init0: seq<Initialization>, r: Outcome)
      reads nav
    {
      var p := Page(created0, PageTypeOf(screen), ViewModelTypeOf(screen));
      && (r.Pass? <==> PageTypeOf(screen) in nav.pageTypes)
      && (r.Pass? ==>
            nav.stack == Some(if stack0.None? then [p] else stack0.value + [p]) &&
            nav.pagesCreated == created0 + 1 && nav.initialized == init0 + [Initialize(p.Context(), parameter)])
      && (r.Fail? ==> nav.stack == stack0 && nav.pagesCreated == created0 && nav.initialized == init0)
    }

    /** Opens the detail screen of a list; a non-positive id does nothing. */
    method GoToListDetail(listId: int) returns (r: Outcome)
      requires nav.Valid()
      modifies nav`stack, nav`pagesCreated, nav`initialized
      ensures nav.Valid()
      ensures listId <= 0 ==>
        r == Pass && nav.stack == old(nav.stack) && nav.pagesCreated == old(nav.pagesCreated) && nav.initialized == old(nav.initialized)
      ensures listId > 0 ==> Navigated("ListDetail", IntObj(listId), old(nav.stack), old(nav.pagesCreated), old(nav.initialized), r)
    {
      if listId > 0 {
        ScreensFollowConvention("ListDetail");
        OnlyMainPageIsRoot("ListDetail");
        r := nav.NavigateTo(ViewModelTypeOf("ListDetail"), IntObj(listId));
      } else {
        r := Pass;
      }
    }

    /** Opens the form screen, editing the list with the given id or creating one for id 0. */
    method GoToListCreateOrEdit(listId: int) returns (r: Outcome)
      requires nav.Valid()
      modifies nav`stack, nav`pagesCreated, nav`initialized
      ensures nav.Valid()
      ensures Navigated("CreateOrEditList", IntObj(listId), old(nav.stack), old(nav.pagesCreated), old(nav.initialized), r)
    {
      ScreensFollowConvention("CreateOrEditList");
      OnlyMainPageIsRoot("CreateOrEditList");
      r := nav.NavigateTo(ViewModelTypeOf("CreateOrEditList"), IntObj(listId));
    }

    /** The CreateList command: opens the form screen to create a list. */
    method ExecuteCreateList() returns (r: Outcome)
      requires nav.Valid()
      modifies nav`stack, nav`pagesCreated, nav`initialized
      ensures nav.Valid()
      ensures Navigated("CreateOrEditList", IntObj(0), old(nav.stack), old(nav.pagesCreated), old(nav.initialized), r)
    {
      r := GoToListCreateOrEdit(0);
    }
  }
}
