/**
 * The create-or-edit screen's view model: the form fields of one list
 * (title, subtitle, colour as a Color and as hex text), the list being
 * edited if any, and the Save command with its enabling rule.
 *
 * Color.FromHex is the parameter `fromHex` and ColorUtil.RandomFlatColor the
 * parameter `random`: parsing colours and drawing random numbers are outside
 * the model.
 */
module CreateOrEditListScreen {
  import opened Wrappers
  import opened Text
  import opened Models
  import opened ViewModels
  import opened Proxies
  import opened Managers
  import opened Navigation

  const ListColorHexName := "ListColorHex"
  const ListColorName := "ListColor"
  const ListTitleName := "ListTitle"
  const ListSubtitleName := "ListSubtitle"
  const OriginalListName := "OriginalList"

  /** The methods the view model declares besides its command methods. */
  const OtherMethods: seq<string> := ["SetColor", "SetColor", "InitializeAsync", "SaveList"]

  /** The declared methods the command table scans; property accessors and inherited methods, none starting with Execute_, are left out. */
  function Declared(): seq<string> {
    OtherMethods + [ExecutePrefix + "Save"] + [CanExecutePrefix + "Save"]
  }

  /** The screen has one command, Save, enabled by CanExecute_Save. */
  lemma SaveIsTheOnlyCommand()
    ensures MakeCommandTable(Declared()) ==
      Success(CommandTable(["Save"], map["Save" := Command(ExecutePrefix + "Save", Some(CanExecutePrefix + "Save"))]))
  {
    forall m | m in OtherMethods
      ensures !StartsWith(m, ExecutePrefix) && m != CanExecutePrefix + "Save"
    {
      assert m[0] != ExecutePrefix[0] && m[0] != (CanExecutePrefix + "Save")[0];
    }
    NoFirstCharNoMatch("Save", ExecutePrefix);
    OneCommand(OtherMethods, "Save", true);
  }

  /** The form's property names are pairwise different. */
  lemma NamesDistinct()
    ensures OriginalListName != ListTitleName && OriginalListName != ListSubtitleName
    ensures OriginalListName != ListColorName && OriginalListName != ListColorHexName
    ensures ListTitleName != ListSubtitleName && ListTitleName != ListColorName && ListTitleName != ListColorHexName
    ensures ListSubtitleName != ListColorName && ListSubtitleName != ListColorHexName
    ensures ListColorName != ListColorHexName
  {
    assert ListTitleName[4] != ListColorName[4];
  }

  /** The form properties the OriginalList setter can write. */
  predicate FormProperty(n: string) {
    n == OriginalListName || n == ListTitleName || n == ListSubtitleName || n == ListColorName || n == ListColorHexName
  }

  /** The ListColor setter: the colour is stored, then its hex rendering. */
  function ColorSetterEffect(st: VmState, keys: seq<string>, c: Color): (r: VmState)
    ensures r.properties == st.properties[ListColorName := ColorV(c)][ListColorHexName := Str(c.hex)]
    ensures st.events <= r.events
  {
    var st1 := SetValueEffect(st, keys, ColorV(c), ListColorName, ColorProp);
    SetValueEffect(st1, keys, Str(c.hex), ListColorHexName, StringProp)
  }

  /** SetColor(Color): the setter already stored the hex, so assigning it again raises nothing. */
  function SetColorEffect(st: VmState, keys: seq<string>, c: Color): (r: VmState)
    ensures r == ColorSetterEffect(st, keys, c)
  {
    SetValueEffect(ColorSetterEffect(st, keys, c), keys, Str(c.hex), ListColorHexName, StringProp)
  }

  /**
   * SetColor(string): the parsed colour goes through the setter, then the
   * hex text is stored as given, replacing the parsed colour's rendering.
   */
  function SetColorHexEffect(st: VmState, keys: seq<string>, hex: string, parsed: Color): (r: VmState)
    ensures r.properties == st.properties[ListColorName := ColorV(parsed)][ListColorHexName := Str(hex)]
    ensures st.events <= r.events
    ensures parsed.hex == hex ==> r == ColorSetterEffect(st, keys, parsed)
  {
    SetValueEffect(ColorSetterEffect(st, keys, parsed), keys, Str(hex), ListColorHexName, StringProp)
  }

  /** Whether the field has a non-blank value; the setter copies only those. */
  predicate Visible(s: Option<string>) {
    !IsNullOrWhiteSpace(s)
  }

  /** Copies one text field into the form when it is non-blank. */
  function TextFieldEffect(st: VmState, keys: seq<string>, field: Option<string>, name: string): (r: VmState)
    ensures r.properties == if Visible(field) then st.properties[name := Str(field.value)] else st.properties
    ensures st.events <= r.events
  {
    if Visible(field) then SetValueEffect(st, keys, Str(field.value), name, StringProp) else st
  }

  /** The setter's colour step: the list's own colour when non-blank, otherwise the random one. */
  function ColorFieldEffect(st: VmState, keys: seq<string>, color: Option<string>, fromHex: string -> Color, random: Color): (r: VmState)
    ensures Visible(color) ==>
      r.properties == st.properties[ListColorName := ColorV(fromHex(color.value))][ListColorHexName := Str(color.value)]
    ensures !Visible(color) ==>
      r.properties == st.properties[ListColorName := ColorV(random)][ListColorHexName := Str(random.hex)]
    ensures st.events <= r.events
  {
    if Visible(color) then SetColorHexEffect(st, keys, color.value, fromHex(color.value))
    else SetColorEffect(st, keys, random)
  }

  /** `value?.Title`, `value?.Subtitle`, `value?.Color`: null when the list is. */
  function TitleOf(value: Option<TodoList>): Option<string> {
    if value.Some? then value.value.title else None
  }

  function SubtitleOf(value: Option<TodoList>): Option<string> {
    if value.Some? then value.value.subtitle else None
  }

  function ColorOf(value: Option<TodoList>): Option<string> {
    if value.Some? then value.value.color else None
  }

  /** The form the OriginalList setter leaves, written as one dictionary. */
  function LoadedForm(properties: map<string, Value>, value: Option<TodoList>, fromHex: string -> Color, random: Color): map<string, Value> {
    var v := if value.None? then Value.Null else ListV(value.value);
    var p1 := properties[OriginalListName := Kept(properties, OriginalListName, ListProp, v)];
    var title := TitleOf(value);
    var p2 := if Visible(title) then p1[ListTitleName := Str(title.value)] else p1;
    var subtitle := SubtitleOf(value);
    var p3 := if Visible(subtitle) then p2[ListSubtitleName := Str(subtitle.value)] else p2;
    var color := ColorOf(value);
    if Visible(color) then p3[ListColorName := ColorV(fromHex(color.value))][ListColorHexName := Str(color.value)]
    else p3[ListColorName := ColorV(random)][ListColorHexName := Str(random.hex)]
  }

  /**
   * The OriginalList setter: the list is stored, its non-blank title and
   * subtitle are copied into the form, and the colour is its own when
   * non-blank and otherwise a random one. A null list copies nothing.
   */
  function OriginalListEffect(st: VmState, keys: seq<string>, value: Option<TodoList>, fromHex: string -> Color, random: Color): (r: VmState)
    ensures r.properties == LoadedForm(st.properties, value, fromHex, random)
    ensures st.events <= r.events
  {
    var v := if value.None? then Value.Null else ListV(value.value);
    var st1 := SetValueEffect(st, keys, v, OriginalListName, ListProp);
    var st2 := TextFieldEffect(st1, keys, TitleOf(value), ListTitleName);
    var st3 := TextFieldEffect(st2, keys, SubtitleOf(value), ListSubtitleName);
    ColorFieldEffect(st3, keys, ColorOf(value), fromHex, random)
  }

  /**
   * What the loaded form shows: the list is held, each non-blank text field
   * of it replaces the form's, the colour is the list's when non-blank and
   * the random one otherwise, and no other property changes.
   */
  lemma LoadedFormFields(properties: map<string, Value>, value: Option<TodoList>, fromHex: string -> Color, random: Color)
    ensures var r := LoadedForm(properties, value, fromHex, random);
      && ValueEquals(GetValue(r, OriginalListName, ListProp), if value.None? then Value.Null else ListV(value.value))
      && GetValue(r, ListTitleName, StringProp) ==
           (if Visible(TitleOf(value)) then AsValue(TitleOf(value)) else GetValue(properties, ListTitleName, StringProp))
      && GetValue(r, ListSubtitleName, StringProp) ==
           (if Visible(SubtitleOf(value)) then AsValue(SubtitleOf(value)) else GetValue(properties, ListSubtitleName, StringProp))
      && (Visible(ColorOf(value)) ==>
            GetValue(r, ListColorHexName, StringProp) == AsValue(ColorOf(value)) &&
            GetValue(r, ListColorName, ColorProp) == ColorV(fromHex(ColorOf(value).value)))
      && (!Visible(ColorOf(value)) ==>
            GetValue(r, ListColorHexName, StringProp) == Str(random.hex) && GetValue(r, ListColorName, ColorProp) == ColorV(random))
      && (forall n :: !FormProperty(n) ==> (n in r <==> n in properties))
      && (forall n :: !FormProperty(n) && n in properties ==> r[n] == properties[n])
  {
    NamesDistinct();
  }

  /** CanExecute_Save: title, subtitle and colour hex are all non-blank. */
  predicate CanSave(properties: map<string, Value>) {
    Visible(AsString(GetValue(properties, ListTitleName, StringProp))) &&
    Visible(AsString(GetValue(properties, ListSubtitleName, StringProp))) &&
    Visible(AsString(GetValue(properties, ListColorHexName, StringProp)))
  }

  /**
   * After loading a list for editing, Save is enabled exactly when each
   * field is non-blank in the list or was already non-blank in the form;
   * the colour always is when the random colour renders non-blank.
   */
  lemma LoadedFormCanSave(properties: map<string, Value>, l: TodoList, fromHex: string -> Color, random: Color)
    requires Visible(Some(random.hex))
    ensures CanSave(LoadedForm(properties, Some(l), fromHex, random)) <==>
      (Visible(l.title) || Visible(AsString(GetValue(properties, ListTitleName, StringProp)))) &&
      (Visible(l.subtitle) || Visible(AsString(GetValue(properties, ListSubtitleName, StringProp))))
  {
    LoadedFormFields(properties, Some(l), fromHex, random);
  }

  /** A new form, after its random colour is picked, cannot be saved until a title is entered. */
  lemma NewFormNeedsTitle(st: VmState, keys: seq<string>, random: Color)
    requires ListTitleName !in st.properties
    ensures !CanSave(SetColorEffect(st, keys, random).properties)
  {
  }

  /**
   * What Save writes: the list being edited, or a new list with an empty
   * items collection, carrying the form's title, subtitle and colour hex.
   */
  function ListToSave(properties: map<string, Value>): TodoList {
    var held := GetValue(properties, OriginalListName, ListProp);
    var l := if held.ListV? then held.list else NewTodoList().(items := Some([]));
    l.(title := AsString(GetValue(properties, ListTitleName, StringProp)),
       subtitle := AsString(GetValue(properties, ListSubtitleName, StringProp)),
       color := AsString(GetValue(properties, ListColorHexName, StringProp)))
  }

  /**
   * Save, then read back: the row holds the form's title, subtitle and
   * colour. Creating adds a row under a key no row had; editing overwrites
   * the edited list's row.
   */
  lemma SavedFormReadsBack(s: Store, properties: map<string, Value>)
    requires ValidStore(s)
    ensures var held := GetValue(properties, OriginalListName, ListProp);
      var (s', saved) := SaveListIn(s, ListToSave(properties));
      && FindList(s', saved.id.value).Success?
      && FindList(s', saved.id.value).value.title == AsString(GetValue(properties, ListTitleName, StringProp))
      && FindList(s', saved.id.value).value.subtitle == AsString(GetValue(properties, ListSubtitleName, StringProp))
      && FindList(s', saved.id.value).value.color == AsString(GetValue(properties, ListColorHexName, StringProp))
      && (!held.ListV? ==> saved.id.value !in s.lists && |s'.lists| == |s.lists| + 1)
      && (held.ListV? && held.list.id.Some? ==> saved.id == held.list.id)
  {
    var l := ListToSave(properties);
    GetAfterSaveList(s, l);
    if !GetValue(properties, OriginalListName, ListProp).ListV? {
      SavedListKeyIsFresh(s, l);
    }
  }

  /** The view model's base part, with the Save command registered. */
  method NewBase() returns (base: ViewModelBase)
    ensures fresh(base) && base.declared == Declared()
    ensures base.table == CommandTable(["Save"], map["Save" := Command(ExecutePrefix + "Save", Some(CanExecutePrefix + "Save"))])
    ensures base.properties == map[] && base.events == []
  {
    SaveIsTheOnlyCommand();
    base := new ViewModelBase(Declared());
  }

  class CreateOrEditListViewModel {
    const base: ViewModelBase
    const lists: ListManager
    const nav: NavigationService

    constructor(lists: ListManager, nav: NavigationService)
      ensures fresh(base) && base.declared == Declared()
      ensures base.table == CommandTable(["Save"], map["Save" := Command(ExecutePrefix + "Save", Some(CanExecutePrefix + "Save"))])
      ensures base.properties == map[] && base.events == []
      ensures this.lists == lists && this.nav == nav
    {
      var b := NewBase();
      base := b;
      this.lists := lists;
      this.nav := nav;
    }

    function State(): VmState
      reads base
    {
      VmState(base.properties, base.events)
    }

    /** The ListColor property setter. */
    method SetListColor(c: Color)
      modifies base`properties, base`events
      ensures State() == ColorSetterEffect(old(State()), base.table.keys, c)
    {
      base.SetValue(ColorV(c), ListColorName, ColorProp);
      base.SetValue(Str(c.hex), ListColorHexName, StringProp);
    }

    method SetColor(c: Color)
      modifies base`properties, base`events
      ensures State() == SetColorEffect(old(State()), base.table.keys, c)
    {
      SetListColor(c);
      base.SetValue(Str(c.hex), ListColorHexName, StringProp);
    }

    method SetColorHex(hex: string, fromHex: string -> Color)
      modifies base`properties, base`events
      ensures State() == SetColorHexEffect(old(State()), base.table.keys, hex, fromHex(hex))
    {
      SetListColor(fromHex(hex));
      base.SetValue(Str(hex), ListColorHexName, StringProp);
    }

    /** The OriginalList property setter. */
    method SetOriginalList(value: Option<TodoList>, fromHex: string -> Color, random: Color)
      modifies base`properties, base`events
      ensures State() == OriginalListEffect(old(State()), base.table.keys, value, fromHex, random)
    {
      base.SetValue(if value.None? then Value.Null else ListV(value.value), OriginalListName, ListProp);
      var title := TitleOf(value);
      if Visible(title) {
        base.SetValue(Str(title.value), ListTitleName, StringProp);
      }
      var subtitle := SubtitleOf(value);
      if Visible(subtitle) {
        base.SetValue(Str(subtitle.value), ListSubtitleName, StringProp);
      }
      var color := ColorOf(value);
      if Visible(color) {
        SetColorHex(color.value, fromHex);
      } else {
        SetColor(random);
      }
    }

    /**
     * A positive integer parameter is the id of the list to edit; anything
     * else starts a new list with a random colour. A missing list is the
     * lookup's error.
     */
    method InitializeAsync(parameter: Object, fromHex: string -> Color, random: Color) returns (r: Outcome)
      modifies base`properties, base`events, lists.db`calls
      ensures parameter.IntObj? && parameter.i > 0 ==>
        && lists.db.calls == old(lists.db.calls) + [GetCall(TodoListType, parameter.i)]
        && (r.Pass? <==> parameter.i in lists.db.store.lists)
        && (r.Pass? ==> State() == OriginalListEffect(old(State()), base.table.keys, Some(LoadList(lists.db.store, parameter.i)), fromHex, random))
        && (r.Fail? ==> r.error.InvalidOperation? && State() == old(State()))
      ensures !(parameter.IntObj? && parameter.i > 0) ==>
        r == Pass && lists.db.calls == old(lists.db.calls) && State() == SetColorEffect(old(State()), base.table.keys, random)
    {
      if parameter.IntObj? && parameter.i > 0 {
        var found := lists.GetList(Some(parameter.i));
        if found.Failure? {
          return Fail(found.error);
        }
        SetOriginalList(found.value, fromHex, random);
        return Pass;
      }
      SetColor(random);
      return Pass;
    }

    /**
     * Copies the form into the list being edited (the object held as
     * OriginalList, changed in place without notification) or into a new
     * list, and saves it.
     */
    method SaveList() returns (ok: bool)
      requires lists.db.Valid()
      modifies base`properties, lists.db`store, lists.db`calls
      ensures lists.db.Valid() && ok
      ensures lists.db.store == SaveListIn(old(lists.db.store), ListToSave(old(base.properties))).0
      ensures lists.db.calls == old(lists.db.calls) + [SaveCall(TodoListType)]
      ensures GetValue(old(base.properties), OriginalListName, ListProp).ListV? ==>
        base.properties == old(base.properties)[OriginalListName := ListV(ListToSave(old(base.properties)))]
      ensures !GetValue(old(base.properties), OriginalListName, ListProp).ListV? ==> base.properties == old(base.properties)
    {
      var l := ListToSave(base.properties);
      if GetValue(base.properties, OriginalListName, ListProp).ListV? {
        base.Mutate(OriginalListName, ListV(l));
      }
      ok := lists.SaveList(l);
    }

    /** Execute_Save: save, then return to a fresh main page, which drops the back stack. */
    method ExecuteSave() returns (r: Outcome)
      requires lists.db.Valid() && nav.Valid()
      modifies base`properties, lists.db`store, lists.db`calls, nav`stack, nav`pagesCreated, nav`initialized
      ensures lists.db.Valid() && nav.Valid()
      ensures lists.db.store == SaveListIn(old(lists.db.store), ListToSave(old(base.properties))).0
      ensures lists.db.calls == old(lists.db.calls) + [SaveCall(TodoListType)]
      ensures GetValue(old(base.properties), OriginalListName, ListProp).ListV? ==>
        base.properties == old(base.properties)[OriginalListName := ListV(ListToSave(old(base.properties)))]
      ensures !GetValue(old(base.properties), OriginalListName, ListProp).ListV? ==> base.properties == old(base.properties)
      ensures nav.pagesCreated == old(nav.pagesCreated) + (if r.Pass? then 1 else 0)
      ensures r.Pass? <==> MainPageType in nav.pageTypes
      ensures r.Pass? ==>
        var page := Page(old(nav.pagesCreated), MainPageType, ViewModelTypeOf("MainPage"));
        nav.stack == Some([page]) && nav.initialized == old(nav.initialized) + [Initialize(page.Context(), Object.Null)]
      ensures r.Fail? ==> nav.stack == old(nav.stack) && nav.initialized == old(nav.initialized)
    {
      var _ := SaveList();
      ScreensFollowConvention("MainPage");
      r := nav.NavigateTo(ViewModelTypeOf("MainPage"), Object.Null);
    }

    /** CanExecute_Save. */
    predicate CanExecuteSave()
      reads base
    {
      CanSave(base.properties)
    }
  }
}
