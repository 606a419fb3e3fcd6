# BusyList core, modelled in Dafny

BusyList is a Xamarin.Forms to-do application: the user keeps several to-do
lists, each with a title, a subtitle, an indicator colour and a set of tasks.
Under its three screens (the main page listing every list, the detail page of
one list, and the form that creates or edits a list) sits a small sequential
core, which this project models and proves properties of:

- **ViewModelBase** (`view_model_base.dfy`, module `ViewModels`): the
  name-keyed property dictionary behind every view model. `SetValue` stores a
  value only when the default comparer finds it different, raises one
  property-changed event and re-evaluates every command. The command table is
  discovered by the `Execute_<Name>` / `CanExecute_<Name>` naming convention.
  Reflection over declared methods is replaced by the list of their names, and
  notifications are appended to an event log.
- **Entities** (`models.dfy`, module `Models`): `TodoList` and `TodoItem`
  records with their id-only `Equals`, and the by-id `IndexOf`/`Remove` that
  collections derive from it.
- **Persistence** (`db_proxy.dfy`, module `Proxies`; `managers.dfy`, module
  `Managers`): `DbProxy` over an in-memory database of two tables (a map per
  table plus its AUTOINCREMENT sequence value), with the one-shot table
  creation latch. Children are attached through the `ListId` foreign key.
  `ListManager` and `ItemManager` sit on top of it.
- **Screens** (`create_or_edit_list.dfy`, `list_detail.dfy`, `main_page.dfy`):
  each view model is a class over a `ViewModelBase` object, the managers and
  the navigation service.
- **Navigation** (`navigation.dfy`, module `Navigation`): the view-model to
  page name mapping (string replacement) and the navigation stack, including
  the back-stack clearing loop as written and a corrected version.
- **Validation** (`validators.dfy`, `validation_behavior.dfy`,
  `error_style.dfy`): the two rules, the behaviour that runs a view's rules
  and shows or hides an error label, and the group whose `IsValid` is the
  short-circuit conjunction of its members.
- **Converters** (`converters.dfy`): the two XAML value converters.
- `text.dfy` holds the few `System.String` operations used (whitespace tests,
  ordinal `Replace`, `StartsWith`, case-insensitive comparison).
  `wrappers.dfy` holds `Option`, `Result` and the .NET exceptions the core
  raises.

Exceptions are values: a method that throws in the source returns
`Fail(...)`/`Failure(...)` with the exception, and leaves the state as the
source leaves it at that point. `async` calls are awaited one after the other.
Calls into the database are recorded in `DbProxy.calls`, so contracts can say
which calls an operation makes and in what order.

Where the documentation comments and the code disagree, the model follows the
code:

- `ListManager.GetList` is documented to return null when no list has the id.
  The code hands a positive id to `GetWithChildren`, which throws
  `InvalidOperationException` for a missing row. `Managers.ListManager.GetList`
  returns that error.
- `INavigationService.ClearBackStackAsync` is documented to remove every page
  of the back stack. The loop does not (see Findings).
  `Navigation.NavigationService.ClearBackStack` models the loop as written.

## Model

| member | source | states |
|---|---|---|
| Models.NewTodoList | BusyList/Models/TodoList.cs:26 | a new list has no id, title, subtitle or items, and the colour `#8c7ae6` |
| Models.ListEquals | BusyList/Models/TodoList.cs:33-41 | equal to another TodoList iff the ids are equal; never equal to null or to a non-list |
| Models.ListEqualsIgnoresFields | BusyList/Models/TodoList.cs:33-41 | list equality depends on the id alone, is reflexive, symmetric and transitive, makes two unsaved lists equal, and is false for null |
| Models.ItemEquals | BusyList/Models/TodoItem.cs:28-35 | equal to another TodoItem iff the ids are equal; never equal to null or to a non-item |
| Models.ItemEqualsIgnoresFields | BusyList/Models/TodoItem.cs:28-35 | item equality depends on the id alone, is an equivalence, makes two unsaved items equal, and is false for null |
| Models.IndexOfItem | BusyList/ViewModels/ListDetailViewModel.cs:90 | the first index whose item has the given item's id, or -1 exactly when no item has it |
| Models.RemoveList | BusyList/ViewModels/MainPageViewModel.cs:68 | removing a list no element equals leaves the collection unchanged; otherwise at most one element goes |
| Models.RemoveListAt | BusyList/ViewModels/MainPageViewModel.cs:68 | removal takes out exactly the first element with the same id; the elements before it stay and those after it shift down |
| ViewModels.Default | BusyList/ViewModels/ViewModelBase.cs:113-118 | default(T) is the zero colour for Color and null for every reference type |
| ViewModels.ValueEqualsIsEquivalence | BusyList/ViewModels/ViewModelBase.cs:99 | the default comparer is reflexive, symmetric and transitive, and null equals only null |
| ViewModels.GetValue | BusyList/ViewModels/ViewModelBase.cs:113-123 | a name never set reads as default(T); a stored name reads as its stored value |
| ViewModels.Kept | BusyList/ViewModels/ViewModelBase.cs:98-104 | the value SetValue leaves under the name always compares equal to the value given |
| ViewModels.SetValueEffect | BusyList/ViewModels/ViewModelBase.cs:91-105 | after SetValue the name reads as a value equal to the one given, other names are unchanged, and the log only grows. An equal value raises nothing. A different value is stored and raises one PropertyChanged for the name, then CanExecuteChanged for every command |
| ViewModels.NotifiedOnlyMatching | BusyList/ViewModels/ViewModelBase.cs:157-164 | a can-execute notification reaches only registered commands, and with a name only those whose key equals it ignoring case |
| ViewModels.NotifiedAll | BusyList/ViewModels/ViewModelBase.cs:157-164 | with no name every command is notified once, in table order |
| ViewModels.NotifiedMatching | BusyList/ViewModels/ViewModelBase.cs:157-164 | with a name, a command is notified iff it is registered and its key equals the name ignoring case |
| ViewModels.CommandNameOf | BusyList/ViewModels/ViewModelBase.cs:131-134 | the command name of `Execute_<Name>` is `<Name>` exactly when `<Name>` holds no further `Execute_` |
| ViewModels.Enabled | BusyList/ViewModels/ViewModelBase.cs:144-146 | a command without a CanExecute_ method is always enabled; otherwise the method decides |
| ViewModels.GetCommand | BusyList/ViewModels/ViewModelBase.cs:142-148 | pairs the Execute_ method with `CanExecute_<Name>` when declared once, with none when not declared, and fails with an ambiguous match when it is declared twice |
| ViewModels.ExecuteMethods | BusyList/ViewModels/ViewModelBase.cs:74 | exactly the declared methods whose name starts with `Execute_` |
| ViewModels.BuildTable | BusyList/ViewModels/ViewModelBase.cs:74 | a built table has one distinct key per method, the key being the command name and the value its GetCommand; two methods with the same command name make it fail |
| ViewModels.CommandTableContents | BusyList/ViewModels/ViewModelBase.cs:72-75 | the table's keys are exactly the command names of the declared Execute_ methods; each entry runs such a method and is always enabled when no CanExecute_ method is declared |
| ViewModels.NoCommands | BusyList/ViewModels/ViewModelBase.cs:74 | a view model without Execute_ methods has an empty command table |
| ViewModels.OneCommand | BusyList/ViewModels/ViewModelBase.cs:72-75 | a view model with one `Execute_<Name>` method has exactly the command `<Name>`, enabled by `CanExecute_<Name>` when that is declared |
| ViewModels.DuplicateCommandFails | BusyList/ViewModels/ViewModelBase.cs:74 | two Execute_ methods with the same command name make table construction fail |
| ViewModels.ViewModelBase.constructor | BusyList/ViewModels/ViewModelBase.cs:72-75 | builds the command table from the declared methods; the dictionary and the log start empty |
| ViewModels.ViewModelBase.SetValue | BusyList/ViewModels/ViewModelBase.cs:91-105 | the new dictionary and log are those of SetValueEffect |
| ViewModels.ViewModelBase.NotifyCanExecuteChanged | BusyList/ViewModels/ViewModelBase.cs:157-164 | the loop over the table appends exactly the notifications Notified describes, in table order |
| ViewModels.ViewModelBase.CommandAt | BusyList/ViewModels/ViewModelBase.cs:171-177 | the indexer succeeds iff the root name is a key. On success it returns the command GetCommand builds for a declared `Execute_` method of that command name, with its `CanExecute_` pairing. Otherwise it fails with KeyNotFound |
| Proxies.ChildrenExactly | BusyList/Proxies/DbProxy.cs:88-92 | a list's attached children are exactly the item rows whose ListId is the list's id, each read back with its key |
| Proxies.LoadList | BusyList/Proxies/DbProxy.cs:88-92 | a list read back has its id, the stored columns and its children attached |
| Proxies.FindList | BusyList/Proxies/DbProxy.cs:88-92 | a get succeeds iff a row has the id, returning that row with its children; otherwise it is an InvalidOperation error |
| Proxies.AllListsComplete | BusyList/Proxies/DbProxy.cs:76-80 | get-all returns every list row exactly once, unfiltered, by ascending id, each as a get of its id returns it |
| Proxies.NewKey | BusyList/Proxies/DbProxy.cs:104-108 | a save writes under the entity's id, or for a null id under a key above every key used |
| Proxies.Relink | BusyList/Proxies/DbProxy.cs:104-108 | saving a list points its listed children at it and sets the foreign key of children no longer listed to NULL; no other item row changes |
| Proxies.SaveListIn | BusyList/Proxies/DbProxy.cs:104-108 | the list row is inserted or replaced under its (possibly new) id, the sequence advances, the children are relinked, and the id is written back into the object and its children's ListId. The sequence invariant is kept |
| Proxies.SaveItemIn | BusyList/Proxies/DbProxy.cs:104-108 | the item row is inserted or replaced under its (possibly new) id and nothing else changes; the id is written back |
| Proxies.DeleteListIn | BusyList/Proxies/DbProxy.cs:116-120 | removes the row with the list's id and returns 1, or returns 0 and changes nothing when there is none; children and other rows are untouched |
| Proxies.DeleteItemIn | BusyList/Proxies/DbProxy.cs:116-120 | removes the row with the item's id and returns 1, or returns 0 and changes nothing |
| Proxies.SavedListKeyIsFresh | BusyList/Proxies/DbProxy.cs:104-108 | a list saved without an id gets a key greater than every existing key |
| Proxies.GetAfterSaveList | BusyList/Proxies/DbProxy.cs:104-108 | after a save, a get of the written-back id finds the saved title, subtitle and colour |
| Proxies.IsChild | BusyList/Proxies/DbProxy.cs:88-92 | an item row is a child of a list exactly when its foreign key is that list's id; a NULL key matches no list |
| Proxies.ChildrenAfterRelink | BusyList/Proxies/DbProxy.cs:104-108 | after relinking, an item is a child of the list iff it was listed |
| Proxies.SavedChildrenReadBack | BusyList/Proxies/DbProxy.cs:104-108 | after a save, a get of the list returns as children exactly the listed items that exist as rows |
| Proxies.SaveItemReplaces | BusyList/Proxies/DbProxy.cs:104-108 | saving an item with an id keeps every other item row unchanged |
| Proxies.GetAfterDeleteList | BusyList/Proxies/DbProxy.cs:116-120 | after a delete, a get of that id fails: the delete is not soft |
| Proxies.AllListsAfterDelete | BusyList/Proxies/DbProxy.cs:116-120 | after a delete, get-all returns the previous result without the deleted list, the rest in the same order |
| Proxies.RemoveFromAllLists | BusyList/ViewModels/MainPageViewModel.cs:64-70 | removing a loaded list by id from a get-all result takes out exactly its position |
| Proxies.DbProxy.constructor | BusyList/Proxies/DbProxy.cs:32-38 | a new process has an empty database and the creation flag unset |
| Proxies.DbProxy.CreateTables | BusyList/Proxies/DbProxy.cs:58-69 | a null type array fails with ArgumentNull before any database call. Once the flag is set, nothing happens. Otherwise the tables are created and the flag set, except that a failing creation leaves the flag unset |
| Proxies.DbProxy.GetAllLists | BusyList/Proxies/DbProxy.cs:76-80 | returns every list with its children (AllLists) and records the call |
| Proxies.DbProxy.GetList | BusyList/Proxies/DbProxy.cs:88-92 | returns FindList of the id and records the call |
| Proxies.DbProxy.SaveList | BusyList/Proxies/DbProxy.cs:104-108 | the store becomes SaveListIn of the old store and the list is returned with its id written back |
| Proxies.DbProxy.DeleteList | BusyList/Proxies/DbProxy.cs:116-120 | the store becomes DeleteListIn of the old store and the rows-affected count is returned |
| Proxies.DbProxy.SaveItem | BusyList/Proxies/DbProxy.cs:104-108 | the store becomes SaveItemIn of the old store |
| Proxies.DbProxy.DeleteItem | BusyList/Proxies/DbProxy.cs:116-120 | the store becomes DeleteItemIn of the old store and the rows-affected count is returned |
| Managers.ListManager.GetLists | BusyList/Managers/ListManager.cs:24-27 | returns exactly the database's full set of lists |
| Managers.ListManager.GetList | BusyList/Managers/ListManager.cs:35-41 | a null or non-positive id yields null without any database call. A positive id is looked up and succeeds iff a row has it, returning that list; otherwise the database's error |
| Managers.ListManager.SaveList | BusyList/Managers/ListManager.cs:50-55 | inserts or replaces the list and always returns true |
| Managers.ListManager.DeleteList | BusyList/Managers/ListManager.cs:63-67 | deletes the list's row and returns true iff a row was removed |
| Managers.ItemManager.SaveItem | BusyList/Managers/ItemManager.cs:26-29 | every item goes to the database without an id guard: inserted when it has no id, replaced otherwise |
| Managers.ItemManager.DeleteItem | BusyList/Managers/ItemManager.cs:36-39 | every item goes to the database; its row is removed outright and the count is discarded |
| CreateOrEditListScreen.SaveIsTheOnlyCommand | BusyList/ViewModels/CreateOrEditListViewModel.cs:161-179 | the screen's only command is Save, run by Execute_Save and enabled by CanExecute_Save |
| CreateOrEditListScreen.ColorSetterEffect | BusyList/ViewModels/CreateOrEditListViewModel.cs:38-42 | the ListColor setter stores the colour and then its hex rendering as ListColorHex |
| CreateOrEditListScreen.SetColorEffect | BusyList/ViewModels/CreateOrEditListViewModel.cs:93-97 | SetColor(Color) has the same effect as the ListColor setter alone: the second hex assignment raises nothing |
| CreateOrEditListScreen.SetColorHexEffect | BusyList/ViewModels/CreateOrEditListViewModel.cs:103-107 | SetColor(hex) stores the parsed colour and ends with ListColorHex equal to the hex text given |
| CreateOrEditListScreen.TextFieldEffect | BusyList/ViewModels/CreateOrEditListViewModel.cs:71-74 | a list's title or subtitle is copied into the form only when it is not blank |
| CreateOrEditListScreen.ColorFieldEffect | BusyList/ViewModels/CreateOrEditListViewModel.cs:75-78 | the list's colour is used when not blank, the random colour otherwise |
| CreateOrEditListScreen.OriginalListEffect | BusyList/ViewModels/CreateOrEditListViewModel.cs:68-79 | the OriginalList setter leaves the dictionary LoadedForm describes, and the log only grows |
| CreateOrEditListScreen.LoadedFormFields | BusyList/ViewModels/CreateOrEditListViewModel.cs:68-79 | after assigning a list: OriginalList holds it; each non-blank title or subtitle replaces the form's and a blank one keeps it. The colour hex is the list's exact colour string when non-blank, else the random colour's. No other property changes |
| CreateOrEditListScreen.LoadedFormCanSave | BusyList/ViewModels/CreateOrEditListViewModel.cs:174-179 | after loading a list, Save is enabled iff the title and the subtitle are each non-blank in the list or already in the form |
| CreateOrEditListScreen.NewFormNeedsTitle | BusyList/ViewModels/CreateOrEditListViewModel.cs:174-179 | a new form whose colour has been picked cannot be saved while it has no title |
| CreateOrEditListScreen.SavedFormReadsBack | BusyList/ViewModels/CreateOrEditListViewModel.cs:135-152 | after a save, the row read back holds the form's title, subtitle and colour hex. Creating adds one row under a fresh key; editing keeps the edited list's id |
| CreateOrEditListScreen.CreateOrEditListViewModel.constructor | BusyList/ViewModels/CreateOrEditListViewModel.cs:82-87 | a new form has the Save command registered and an empty dictionary |
| CreateOrEditListScreen.CreateOrEditListViewModel.SetListColor | BusyList/ViewModels/CreateOrEditListViewModel.cs:38-42 | the state becomes ColorSetterEffect of the old one |
| CreateOrEditListScreen.CreateOrEditListViewModel.SetColor | BusyList/ViewModels/CreateOrEditListViewModel.cs:93-97 | the state becomes SetColorEffect of the old one |
| CreateOrEditListScreen.CreateOrEditListViewModel.SetColorHex | BusyList/ViewModels/CreateOrEditListViewModel.cs:103-107 | the state becomes SetColorHexEffect of the old one, with the colour parsed from the hex |
| CreateOrEditListScreen.CreateOrEditListViewModel.SetOriginalList | BusyList/ViewModels/CreateOrEditListViewModel.cs:68-79 | the state becomes OriginalListEffect of the old one |
| CreateOrEditListScreen.CreateOrEditListViewModel.InitializeAsync | BusyList/ViewModels/CreateOrEditListViewModel.cs:114-126 | an int parameter > 0 loads that list through GetList and assigns it as OriginalList, failing with the lookup's error when it is missing. Any other parameter makes no database call and only picks the random colour |
| CreateOrEditListScreen.CreateOrEditListViewModel.SaveList | BusyList/ViewModels/CreateOrEditListViewModel.cs:135-152 | saves ListToSave of the form and reports true. Without an OriginalList that is a new list with no id and empty items; otherwise it is the held list, overwritten in place with the form's fields |
| CreateOrEditListScreen.CreateOrEditListViewModel.ExecuteSave | BusyList/ViewModels/CreateOrEditListViewModel.cs:161-165 | the save completes first, with exactly one save call and the held list overwritten in place; then a new main page (exactly one page created) becomes the one-page stack and is initialised with a null parameter |
| ListDetailScreen.NoCommandsDeclared | BusyList/ViewModels/ListDetailViewModel.cs:45-53 | the detail screen registers no command |
| ListDetailScreen.Refreshed | BusyList/ViewModels/ListDetailViewModel.cs:73-78 | a refresh finds a list iff the id is positive and stored. A non-positive id yields null and a null dereference; a missing positive id is the lookup's error |
| ListDetailScreen.ShowListEffect | BusyList/ViewModels/ListDetailViewModel.cs:76-77 | Items becomes a new collection holding the list's items in order, with a PropertyChanged for it, and ListName becomes the list's title |
| ListDetailScreen.ReplaceItem | BusyList/ViewModels/ListDetailViewModel.cs:88-93 | the first item with the same id is replaced by the given item; all others stay, and nothing changes without a match |
| ListDetailScreen.NewTaskAppears | BusyList/ViewModels/ListDetailViewModel.cs:114-119 | after creating a task, the next refresh shows it (fresh id, not completed, on the list) and still shows every earlier task |
| ListDetailScreen.DeletedTaskDisappears | BusyList/ViewModels/ListDetailViewModel.cs:102-106 | after deleting a task, the next refresh no longer shows it and still shows every other task |
| ListDetailScreen.ListDetailViewModel.constructor | BusyList/ViewModels/ListDetailViewModel.cs:45-53 | Items starts as an empty collection, with its PropertyChanged; no list is selected |
| ListDetailScreen.ListDetailViewModel.RefreshData | BusyList/ViewModels/ListDetailViewModel.cs:73-78 | looks the list up. On success it selects it and shows its items and title (ShowListEffect); on failure it returns the error and leaves the screen unchanged, with the selection cleared when the manager returned null |
| ListDetailScreen.ListDetailViewModel.InitializeAsync | BusyList/ViewModels/ListDetailViewModel.cs:60-66 | an int parameter > 0 refreshes that list; any other parameter changes nothing and makes no call |
| ListDetailScreen.ListDetailViewModel.UpdateTask | BusyList/ViewModels/ListDetailViewModel.cs:86-95 | the item is always saved. With the flag set, the first shown item with its id is replaced in place; otherwise Items is unchanged. No event is raised |
| ListDetailScreen.ListDetailViewModel.DeleteTask | BusyList/ViewModels/ListDetailViewModel.cs:102-106 | the item is deleted before the selected list (`Id ?? 0`) is reloaded; with no selection the reload is a null dereference |
| ListDetailScreen.ListDetailViewModel.CreateNewTask | BusyList/ViewModels/ListDetailViewModel.cs:114-119 | saves a new item (no id, not completed, the given name, ListId the selected list's id or 0), then reloads that list; with no selection nothing is saved |
| MainPageScreen.CreateListIsTheOnlyCommand | BusyList/ViewModels/MainPageViewModel.cs:104-107 | the main page's only command is the always-enabled CreateList |
| MainPageScreen.DeleteMatchesReload | BusyList/ViewModels/MainPageViewModel.cs:64-70 | removing a deleted list from a full load gives exactly what a reload after the delete gives |
| MainPageScreen.NewCollectionNotifies | BusyList/ViewModels/MainPageViewModel.cs:54-57 | assigning a new Lists collection always stores it and raises PropertyChanged, whatever it holds |
| MainPageScreen.MainPageViewModel.constructor | BusyList/ViewModels/MainPageViewModel.cs:32-38 | Lists starts as an empty collection; the CreateList command is registered |
| MainPageScreen.MainPageViewModel.RefreshData | BusyList/ViewModels/MainPageViewModel.cs:54-57 | Lists becomes a new collection holding exactly what GetLists returns |
| MainPageScreen.MainPageViewModel.InitializeAsync | BusyList/ViewModels/MainPageViewModel.cs:45-48 | ignores the parameter and refreshes the lists |
| MainPageScreen.MainPageViewModel.DeleteList | BusyList/ViewModels/MainPageViewModel.cs:64-70 | returns the manager's success flag. Only on success is the first list with the same id removed from Lists, which then still matches the database if it did before |
| MainPageScreen.MainPageViewModel.GoToListDetail | BusyList/ViewModels/MainPageViewModel.cs:76-80 | navigates to the detail page with the id only when it is positive |
| MainPageScreen.MainPageViewModel.GoToListCreateOrEdit | BusyList/ViewModels/MainPageViewModel.cs:90-93 | navigates to the form page with the id as parameter |
| MainPageScreen.MainPageViewModel.ExecuteCreateList | BusyList/ViewModels/MainPageViewModel.cs:104-107 | navigates to the form page with parameter 0 (create mode) |
| Navigation.ModelsPass | BusyList/Navigation/NavigationService.cs:118 | the first replacement turns only the namespace's `ViewModels` into `Views` |
| Navigation.ViewModelPass | BusyList/Navigation/NavigationService.cs:119 | the second replacement drops the trailing `ViewModel` |
| Navigation.Convention | BusyList/Navigation/NavigationService.cs:116-124 | `<ns>.ViewModels.<Page>ViewModel` maps to the page type `<ns>.Views.<Page>` |
| Navigation.ScreensFollowConvention | BusyList/Navigation/NavigationService.cs:116-124 | each of the three screens' view models maps to its page, e.g. `BusyList.ViewModels.MainPageViewModel` to `BusyList.Views.MainPage` |
| Navigation.OnlyMainPageIsRoot | BusyList/Navigation/NavigationService.cs:84-87 | the detail and form pages are not main pages, so they are pushed |
| Navigation.RemovePageAt | BusyList/Navigation/NavigationService.cs:51-52 | on a stack of distinct pages, removing the page found at an index removes that index |
| Navigation.ClearLoopSkips | BusyList/Navigation/NavigationService.cs:64-68 | the clearing loop keeps the top page and, of the pages below it, exactly those at odd positions |
| Navigation.ClearLoopLeaves | BusyList/Navigation/NavigationService.cs:64-68 | clearing a stack of n pages leaves (n - 1) / 2 + 1 of them, the top page last |
| Navigation.ClearBackStackLeavesBackPage | BusyList/Navigation/NavigationService.cs:58-72 | clearing the stack [a, b, c] leaves [b, c]: a back page remains |
| Navigation.NavigationService.constructor | BusyList/Navigation/NavigationService.cs:30-32 | no navigation page and no page created yet |
| Navigation.NavigationService.Start | BusyList/App.xaml.cs:31-32 | the application starts with a navigation page whose only page is a main page |
| Navigation.NavigationService.PreviousPageViewModel | BusyList/Navigation/NavigationService.cs:17-25 | the binding context of the page at Count-2. It is a null dereference without a navigation page, and out of range with fewer than two pages |
| Navigation.NavigationService.NavigateTo | BusyList/Navigation/NavigationService.cs:80-102 | fails with "Cannot locate page type" iff no page type has the mapped name. Otherwise a new page is created; a main page replaces the stack, any other is pushed (or starts a stack when there is none). The page's view model is then initialised with the parameter |
| Navigation.NavigationService.RemoveLastFromBackStack | BusyList/Navigation/NavigationService.cs:45-56 | removes exactly the page at Count-2 and keeps the top page; does nothing without a navigation page and is out of range with fewer than two pages |
| Navigation.NavigationService.ClearBackStack | BusyList/Navigation/NavigationService.cs:58-72 | the stack becomes ClearLoop of the old stack (the loop as written) |
| Navigation.NavigationService.ClearBackStackFully | BusyList/Navigation/INavigationService.cs:61-66 | every page below the top one is removed, leaving only the visible page |
| Validators.NewRequired | BusyList/Utilities/Validation/RequiredValidator.cs:8 | the default message is "This field is required" |
| Validators.NewFormat | BusyList/Utilities/Validation/FormatValidator.cs:10 | the default message is "Invalid format" |
| Validators.RequiredCheck | BusyList/Utilities/Validation/RequiredValidator.cs:10-13 | the required rule accepts exactly the non-null strings holding a non-whitespace character |
| Validators.FormatCheck | BusyList/Utilities/Validation/FormatValidator.cs:13-25 | the format rule rejects null and empty without consulting the pattern; otherwise the pattern decides |
| Validators.WhitespaceReachesPattern | BusyList/Utilities/Validation/FormatValidator.cs:15 | a whitespace-only string is never "required"-valid but is handed to the pattern; null and empty fail both rules |
| Validators.FirstFailureMeaning | BusyList/Utilities/Validation/Behaviors/ValidationBehavior.cs:44-57 | no failure iff every rule accepts; a reported message is that of a rejecting rule all of whose predecessors accept |
| Validators.FirstFailureStopsEarly | BusyList/Utilities/Validation/Behaviors/ValidationBehavior.cs:52-56 | rules after the first failing one never change the reported message |
| ValidationBehaviors.ValidateEffect | BusyList/Utilities/Validation/Behaviors/ValidationBehavior.cs:59-68 | validation changes only the view's parent layout |
| ValidationBehaviors.GroupStopsAtFailure | BusyList/Utilities/Validation/Behaviors/ValidationGroupBehaviour.cs:55-58 | once a member fails, the group is invalid and no later member is validated |
| ValidationBehaviors.EmptyGroupIsValid | BusyList/Utilities/Validation/Behaviors/ValidationGroupBehaviour.cs:51-61 | an empty group becomes valid and touches nothing |
| ValidationBehaviors.RemoveFirst | BusyList/Utilities/Validation/Behaviors/ValidationGroupBehaviour.cs:43-46 | removes one occurrence when there is one; otherwise the list is unchanged |
| ValidationBehaviors.ValidationGroup.constructor | BusyList/Utilities/Validation/Behaviors/ValidationGroupBehaviour.cs:17-26 | a new group has no members and IsValid false |
| ValidationBehaviors.ValidationGroup.Add | BusyList/Utilities/Validation/Behaviors/ValidationGroupBehaviour.cs:33-36 | appends the behaviour; the other members are untouched |
| ValidationBehaviors.ValidationGroup.Remove | BusyList/Utilities/Validation/Behaviors/ValidationGroupBehaviour.cs:43-46 | removes one occurrence of the behaviour |
| ValidationBehaviors.ValidationGroup.Update | BusyList/Utilities/Validation/Behaviors/ValidationGroupBehaviour.cs:51-61 | members validate in order until one fails (GroupEffect); IsValid becomes true iff every member's rules pass |
| ValidationBehaviors.ValidationBehavior.constructor | BusyList/Utilities/Validation/Behaviors/ValidationBehavior.cs:18-26 | the property name, group, rules and view are those given |
| ValidationBehaviors.ValidationBehavior.Validate | BusyList/Utilities/Validation/Behaviors/ValidationBehavior.cs:39-70 | returns true iff every rule accepts the property value. On failure it shows the first failing rule's message; on success it removes the error |
| ValidationBehaviors.ValidationBehavior.OnAttachedTo | BusyList/Utilities/Validation/Behaviors/ValidationBehavior.cs:72-84 | attaching appends the behaviour to its group, if any; the group's IsValid is unchanged |
| ValidationBehaviors.ValidationBehavior.OnDetachingFrom | BusyList/Utilities/Validation/Behaviors/ValidationBehavior.cs:86-97 | detaching removes the behaviour from its group, if any; the group's IsValid is unchanged |
| ValidationBehaviors.ValidationBehavior.OnUnfocused | BusyList/Utilities/Validation/Behaviors/ValidationBehavior.cs:99-107 | losing focus validates the view and does not update the group |
| ValidationBehaviors.ValidationBehavior.OnPropertyChanged | BusyList/Utilities/Validation/Behaviors/ValidationBehavior.cs:109-119 | a change of the validated property validates, then updates the group; any other property changes nothing (layouts, group members and IsValid are all kept) |
| ErrorStyle.IndexOfRef | BusyList/Utilities/Validation/BasicErrorStyle.cs:17 | the first position holding the view, or -1 exactly when it is absent |
| ErrorStyle.ShowErrorIn | BusyList/Utilities/Validation/BasicErrorStyle.cs:14-40 | an error label already after the view gets the message and becomes visible, inserting nothing. Otherwise one visible label with the message and the view's id is inserted right after the view, the other children keeping their order |
| ErrorStyle.RemoveErrorIn | BusyList/Utilities/Validation/BasicErrorStyle.cs:42-57 | never changes the child count. It only hides the view's error label when that is the next sibling, and otherwise changes nothing |
| ErrorStyle.ShownHasLabel | BusyList/Utilities/Validation/BasicErrorStyle.cs:14-40 | after ShowError the view keeps its position and is followed by its error label |
| ErrorStyle.ShowErrorTwice | BusyList/Utilities/Validation/BasicErrorStyle.cs:14-40 | two ShowError calls in a row leave one error label after the view, carrying the second message |
| ErrorStyle.ShowError | BusyList/Utilities/Validation/BasicErrorStyle.cs:14-40 | the parent layout becomes ShowErrorIn of its children; a new identity is used only when a label is inserted |
| ErrorStyle.RemoveError | BusyList/Utilities/Validation/BasicErrorStyle.cs:42-57 | the parent layout becomes RemoveErrorIn of its children, with the same number of children |
| Converters.IsCompletedConvert | BusyList/Utilities/Converters/IsCompletedToTextDecoration.cs:13-18 | Strikethrough exactly for a boxed true; false, null and non-bool values give None |
| Converters.IsCompletedConvertBack | BusyList/Utilities/Converters/IsCompletedToTextDecoration.cs:19-22 | returns a NotImplementedException object rather than throwing it |
| Converters.TitleConvert | BusyList/Utilities/Converters/CreateOrEditTitleConverter.cs:13-20 | "Edit List" exactly for a TodoList with a non-blank title; "Create New List" for anything else |
| Converters.TitleConvertBack | BusyList/Utilities/Converters/CreateOrEditTitleConverter.cs:22-25 | always fails with NotImplementedException |
| Converters.TitleConvertCases | BusyList/Utilities/Converters/CreateOrEditTitleConverter.cs:15-19 | a null or empty title and a null value give "Create New List"; a title with a visible character gives "Edit List" |

## Left out

- Reflection: method discovery, delegate creation and `Type.GetType`/`Activator`
  are replaced by a list of declared method names, commands that name their
  methods, and the set `NavigationService.pageTypes` of existing page types.
  The delegate signature checks of `CreateDelegate` are not modelled.
- Model type discovery in `DbProxy.GetModelTypes` is the constant
  `ModelTypes`. The constructor's fire-and-forget table creation is a separate
  `CreateTables` call. Other database calls are modelled as if the tables
  exist.
- The SQLite engine and SQLiteNetExtensions: the database is two in-memory
  maps. Only `CreateTables` models a failing engine call; the other calls
  cannot fail except as the library documents (a get of a missing id).
  Connection opening, the database path and the open flags are not modelled.
- The static connection and latch: one `DbProxy` object stands for the
  process-wide state, and both managers are given the same object.
- `async`/`await` scheduling, `SafeFireAndForget` and `async void`: awaited
  calls run one after the other.
- Xamarin `Color`, `Color.FromHex`, `ToHex` and `ColorUtil.RandomFlatColor`:
  a colour is opaque and carries its hex rendering; parsing and the random
  colour are parameters (floating point and randomness).
- The regular expression engine: a format rule carries an uninterpreted
  `isMatch` predicate.
- Validators.FormatCheck: a format rule whose `Format` is null (a `Regex`
  constructor error) is not modelled.
- ValidationBehaviors.ValidationBehavior.Validate: a `PropertyName` the view
  does not have (a null dereference in the source) reads as a null value.
- ErrorStyle.ShowError: a next sibling whose StyleId matches but which is not
  a Label (a null dereference in the source) is treated as the error label.
  Its requires also takes the view's parent to be a StackLayout in the
  tree, so a view with no parent or with another kind of parent is
  excluded; in the source `view.Parent as StackLayout` is then null and
  reading its children throws a NullReferenceException. Label font size and
  colour are not modelled.
- ErrorStyle.RemoveError: likewise requires the view's parent to be a
  StackLayout in the tree; a view with no parent or another kind of parent
  (a null dereference in the source) is excluded.
- ValidationBehaviors.ValidationBehavior.Validate, OnUnfocused,
  OnPropertyChanged and ValidationBehaviors.ValidationGroup.Update carry the
  same requires on every validated view's parent, so the model does not
  cover a validation that throws because a view is not inside a StackLayout.
- ViewModels.ViewModelBase.constructor: requires a command table that builds.
  The source throws from the constructor when two Execute_ methods share a
  command name or a CanExecute_ method is declared twice;
  `ViewModels.DuplicateCommandFails` and `ViewModels.GetCommand` state when
  that happens.
- Text.EqualsIgnoreCase: case folding covers ASCII letters only, not the
  invariant culture's full Unicode table.
- Property-changed and can-execute-changed events are appended to a log; the
  listeners (bindings, buttons) are not modelled. `ObservableCollection`'s
  `CollectionChanged` events on in-place edits are not modelled either.
- `Navigation.NavigationService.NavigateTo` records each view model
  initialisation with its parameter instead of running the screen's
  `InitializeAsync`. Page construction, page bindings and `PushAsync`
  animation are not modelled.
- CreateOrEditListScreen.CreateOrEditListViewModel.SaveList: the id the
  database writes back into the held `OriginalList` object is not kept in the
  dictionary. Only the database row is modelled after the save.
- Logging (`ILogger`, `DateTime.Now`), page code-behind, dialogs, context
  menus, dependency-injection wiring and the platform projects are not part of
  this model.

## Findings

| source | as written | input that shows it | evidently intended | confidence | as-written member | corrected member |
|---|---|---|---|---|---|---|
| BusyList/Navigation/NavigationService.cs:58-72 | the loop removes `NavigationStack[i]` while `i` counts up and the stack shrinks, so each pass skips the page that moved into the freed slot | a navigation stack of three pages [a, b, c] is left as [b, c] | every page below the visible one is removed, leaving [c], as the interface documents | not executed | Navigation.ClearBackStackLeavesBackPage | Navigation.NavigationService.ClearBackStackFully |
