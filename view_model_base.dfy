/**
 * ViewModelBase: a name-keyed property dictionary with change notification,
 * and a command table found by the `Execute_<Name>` / `CanExecute_<Name>`
 * naming convention. Reflection over the view model's declared methods is
 * replaced by the list of their names; property-changed and
 * can-execute-changed notifications are appended to an event log.
 */
module ViewModels {
  import opened Wrappers
  import opened Text
  import Models

  /** A Xamarin Color, opaque; `hex` is what its ToHex() renders. */
  datatype Color = Color(hex: string)

  /** default(Color): all components zero. */
  const DefaultColor: Color := Color("#00000000")

  /** The CLR types the view models store in the dictionary. */
  datatype PropType = StringProp | ColorProp | ListProp | ItemsProp | ListsProp

  /**
   * A stored value. `Null` is the null reference. The two observable
   * collections are reference types without an Equals override, so they
   * carry an identity `coll` besides their contents.
   */
  datatype Value =
    | Null
    | Str(s: string)
    | ColorV(c: Color)
    | ListV(list: Models.TodoList)
    | ItemsV(coll: nat, items: seq<Models.TodoItem>)
    | ListsV(coll: nat, lists: seq<Models.TodoList>)

  /** default(T): the zero colour for the Color struct, null for every reference type. */
  function Default(t: PropType): (v: Value)
    ensures t == ColorProp <==> v.ColorV?
    ensures t != ColorProp <==> v.Null?
  {
    if t == ColorProp then ColorV(DefaultColor) else Null
  }

  /**
   * EqualityComparer<T>.Default.Equals(a, b): strings and colours by value,
   * TodoList by its Equals override (same id), collections by reference.
   */
  predicate ValueEquals(a: Value, b: Value)
  {
    match (a, b)
    case (Null, Null) => true
    case (Str(x), Str(y)) => x == y
    case (ColorV(x), ColorV(y)) => x == y
    case (ListV(x), ListV(y)) => Models.ListEquals(x, Models.ListObj(y))
    case (ItemsV(c, _), ItemsV(d, _)) => c == d
    case (ListsV(c, _), ListsV(d, _)) => c == d
    case _ => false
  }

  /** The comparer is an equivalence on every value the dictionary can hold. */
  lemma ValueEqualsIsEquivalence(a: Value, b: Value, c: Value)
    ensures ValueEquals(a, a)
    ensures ValueEquals(a, b) ==> ValueEquals(b, a)
    ensures ValueEquals(a, b) && ValueEquals(b, c) ==> ValueEquals(a, c)
    ensures a.Null? ==> (ValueEquals(a, b) <==> b.Null?)
  {
  }

  /** GetValue<T>(name): the stored value, or default(T) for a name never set. */
  function GetValue(properties: map<string, Value>, name: string, t: PropType): (v: Value)
    ensures name !in properties ==> v == Default(t)
    ensures name in properties ==> v == properties[name]
  {
    if name !in properties then Default(t) else properties[name]
  }

  /** A value read through GetValue<string>: the string, or null. */
  function AsString(v: Value): (r: Option<string>)
    ensures r.Some? <==> v.Str?
  {
    if v.Str? then Some(v.s) else None
  }

  /** A nullable string as a stored value. */
  function AsValue(s: Option<string>): (v: Value)
    ensures AsString(v) == s
    ensures v.Null? || v.Str?
  {
    if s.Some? then Str(s.value) else Null
  }

  datatype Event = PropertyChanged(name: string) | CanExecuteChanged(command: string)

  /** Whether a notification for `name` reaches the command `key`. */
  predicate Reaches(name: Option<string>, key: string) {
    name.None? || EqualsIgnoreCase(key, name.value)
  }

  /**
   * NotifyCanExecuteChanged(name): one CanExecuteChanged per command key, in
   * table order, for every key when `name` is null and otherwise for the keys
   * equal to `name` ignoring case.
   */
  function Notified(keys: seq<string>, name: Option<string>): (r: seq<Event>)
    ensures |r| <= |keys|
    decreases |keys|
  {
    if keys == [] then []
    else
      var key := keys[|keys| - 1];
      Notified(keys[..|keys| - 1], name)
        + (if Reaches(name, key) then [CanExecuteChanged(key)] else [])
  }

  /** One more key notifies that key after the earlier ones, when it matches. */
  lemma NotifiedStep(keys: seq<string>, i: nat, name: Option<string>)
    requires i < |keys|
    ensures Notified(keys[..i + 1], name) ==
      Notified(keys[..i], name) + if Reaches(name, keys[i]) then [CanExecuteChanged(keys[i])] else []
  {
    assert keys[..i + 1][..i] == keys[..i];
  }

  /** Only registered commands are notified, and with a name only those matching it ignoring case. */
  lemma {:induction false} NotifiedOnlyMatching(keys: seq<string>, name: Option<string>)
    ensures forall e :: e in Notified(keys, name) ==> e.CanExecuteChanged? && e.command in keys
    ensures name.Some? ==> forall e :: e in Notified(keys, name) ==> EqualsIgnoreCase(e.command, name.value)
    decreases |keys|
  {
    if keys != [] {
      NotifiedOnlyMatching(keys[..|keys| - 1], name);
    }
  }

  /** With no name, every registered command is notified, once, in table order. */
  lemma {:induction false} NotifiedAll(keys: seq<string>)
    ensures |Notified(keys, None)| == |keys|
    ensures forall i :: 0 <= i < |keys| ==> Notified(keys, None)[i] == CanExecuteChanged(keys[i])
    decreases |keys|
  {
    if keys != [] {
      NotifiedAll(keys[..|keys| - 1]);
    }
  }

  /** A named notification reaches exactly the commands whose key matches the name ignoring case. */
  lemma {:induction false} NotifiedMatching(keys: seq<string>, name: string, key: string)
    ensures CanExecuteChanged(key) in Notified(keys, Some(name)) <==> key in keys && EqualsIgnoreCase(key, name)
    decreases |keys|
  {
    if keys != [] {
      var init := keys[..|keys| - 1];
      NotifiedMatching(init, name, key);
      assert keys == init + [keys[|keys| - 1]];
    }
  }

  const ExecutePrefix: string := "Execute_"
  const CanExecutePrefix: string := "CanExecute_"

  /** GetCommandName: the method name with every `Execute_` removed. */
  function CommandName(methodName: string): string
  {
    Replace(methodName, ExecutePrefix, "")
  }

  /**
   * The convention's round trip: `Execute_<Name>` is the command `<Name>`
   * exactly when the name holds no second `Execute_`.
   */
  lemma CommandNameOf(name: string)
    ensures CommandName(ExecutePrefix + name) == name <==> !Contains(name, ExecutePrefix)
  {
    ReplaceLeading(name, ExecutePrefix, "");
    if Contains(name, ExecutePrefix) {
      ReplaceDeleteShortens(name, ExecutePrefix);
    } else {
      ReplaceAbsent(name, ExecutePrefix, "");
    }
  }

  /** A command: the Execute_ method it runs and, when declared, its CanExecute_ method (otherwise always enabled). */
  datatype Command = Command(execute: string, canExecute: Option<string>)

  /** Whether a command may run, given what its CanExecute_ method answers. */
  function Enabled(c: Command, canExecute: string -> bool): (r: bool)
    ensures c.canExecute.None? ==> r
    ensures c.canExecute.Some? ==> (r <==> canExecute(c.canExecute.value))
  {
    match c.canExecute
    case None => true
    case Some(m) => canExecute(m)
  }

  /**
   * GetCommand: pairs an Execute_ method with the CanExecute_ method of the
   * same command name. GetDeclaredMethod fails when that name is declared
   * more than once.
   */
  function GetCommand(declared: seq<string>, methodName: string): (r: Result<Command>)
    ensures r.Success? <==> multiset(declared)[CanExecutePrefix + CommandName(methodName)] <= 1
    ensures r.Success? ==> r.value.execute == methodName
    ensures r.Success? ==> (r.value.canExecute.None? <==> CanExecutePrefix + CommandName(methodName) !in declared)
    ensures r.Success? && r.value.canExecute.Some? ==> r.value.canExecute.value == CanExecutePrefix + CommandName(methodName)
  {
    var name := CanExecutePrefix + CommandName(methodName);
    var n := multiset(declared)[name];
    if n > 1 then Failure(AmbiguousMatch(name))
    else Success(Command(methodName, if n == 1 then Some(name) else None))
  }

  /** The declared methods whose name starts with `Execute_`, in declaration order. */
  function ExecuteMethods(declared: seq<string>): (r: seq<string>)
    ensures forall m :: m in r <==> m in declared && StartsWith(m, ExecutePrefix)
  {
    if declared == [] then []
    else
      (if StartsWith(declared[0], ExecutePrefix) then [declared[0]] else []) + ExecuteMethods(declared[1..])
  }

  /** The commands dictionary; `keys` is its enumeration (insertion) order. */
  datatype CommandTable = CommandTable(keys: seq<string>, commands: map<string, Command>)

  /**
   * ToDictionary over `methods`: each key is the command name, each value
   * the command; the first failing GetCommand or repeated key aborts.
   */
  function BuildTable(declared: seq<string>, methods: seq<string>): (r: Result<CommandTable>)
    ensures r.Success? ==> |r.value.keys| == |methods|
    ensures r.Success? ==> r.value.commands.Keys == set k | k in r.value.keys
    ensures r.Success? ==> forall i, j :: 0 <= i < j < |methods| ==> r.value.keys[i] != r.value.keys[j]
    ensures r.Success? ==> forall i :: 0 <= i < |methods| ==>
      r.value.keys[i] == CommandName(methods[i]) && GetCommand(declared, methods[i]) == Success(r.value.commands[r.value.keys[i]])
    ensures (exists i, j :: 0 <= i < j < |methods| && CommandName(methods[i]) == CommandName(methods[j])) ==> r.Failure?
    decreases |methods|
  {
    if methods == [] then Success(CommandTable([], map[]))
    else
      var init := methods[..|methods| - 1];
      match BuildTable(declared, init)
      case Failure(e) => Failure(e)
      case Success(t) =>
        var m := methods[|methods| - 1];
        var key := CommandName(m);
        match GetCommand(declared, m)
        case Failure(e) => Failure(e)
        case Success(c) =>
          if key in t.commands then Failure(DuplicateKey(key))
          else
            assert methods == init + [m];
            Success(CommandTable(t.keys + [key], t.commands[key := c]))
  }

  /** The constructor's command table. */
  function MakeCommandTable(declared: seq<string>): Result<CommandTable>
  {
    BuildTable(declared, ExecuteMethods(declared))
  }

  /**
   * The table holds exactly the commands named after a declared Execute_
   * method, each running that method; a command whose CanExecute_ method is
   * not declared is always enabled.
   */
  lemma CommandTableContents(declared: seq<string>, key: string, canExecute: string -> bool)
    requires MakeCommandTable(declared).Success?
    ensures key in MakeCommandTable(declared).value.commands
            <==> exists m :: m in declared && StartsWith(m, ExecutePrefix) && CommandName(m) == key
    ensures key in MakeCommandTable(declared).value.commands ==>
      var c := MakeCommandTable(declared).value.commands[key];
      c.execute in declared && StartsWith(c.execute, ExecutePrefix) && CommandName(c.execute) == key
      && GetCommand(declared, c.execute) == Success(c)
      && (CanExecutePrefix + key !in declared ==> Enabled(c, canExecute))
  {
    var ms := ExecuteMethods(declared);
    var t := MakeCommandTable(declared).value;
    if key in t.commands {
      var i :| 0 <= i < |t.keys| && t.keys[i] == key;
      assert ms[i] in ms;
      assert GetCommand(declared, ms[i]) == Success(t.commands[key]);
    }
    if m :| m in declared && StartsWith(m, ExecutePrefix) && CommandName(m) == key {
      assert m in ms;
      var i :| 0 <= i < |ms| && ms[i] == m;
      assert t.keys[i] == key;
    }
  }

  lemma {:induction false} ExecuteMethodsAppend(a: seq<string>, b: seq<string>)
    ensures ExecuteMethods(a + b) == ExecuteMethods(a) + ExecuteMethods(b)
    decreases |a|
  {
    if a == [] {
      assert a + b == b;
    } else {
      assert (a + b)[0] == a[0];
      assert (a + b)[1..] == a[1..] + b;
      ExecuteMethodsAppend(a[1..], b);
    }
  }

  /** Methods that do not follow the convention contribute no command. */
  lemma {:induction false} NoExecuteMethods(others: seq<string>)
    requires forall m :: m in others ==> !StartsWith(m, ExecutePrefix)
    ensures ExecuteMethods(others) == []
    decreases |others|
  {
    if others != [] {
      assert others[0] in others;
      NoExecuteMethods(others[1..]);
    }
  }

  /** A view model declaring no Execute_ method has an empty command table. */
  lemma NoCommands(declared: seq<string>)
    requires forall m :: m in declared ==> !StartsWith(m, ExecutePrefix)
    ensures MakeCommandTable(declared) == Success(CommandTable([], map[]))
  {
    NoExecuteMethods(declared);
  }

  /** A table built from one Execute_ method holds just its command, unless GetCommand fails. */
  lemma TableOfOne(declared: seq<string>, m: string)
    ensures GetCommand(declared, m).Success? ==>
      BuildTable(declared, [m]) == Success(CommandTable([CommandName(m)], map[CommandName(m) := GetCommand(declared, m).value]))
  {
    assert [m][..0] == [] && [m][|[m]| - 1] == m;
    assert BuildTable(declared, []) == Success(CommandTable([], map[]));
    assert [] + [CommandName(m)] == [CommandName(m)];
  }

  /**
   * A view model declaring `Execute_<Name>` as its only command method,
   * and `CanExecute_<Name>` at most once, has exactly the command `<Name>`,
   * enabled by `CanExecute_<Name>` when it is declared.
   */
  lemma OneCommand(others: seq<string>, name: string, withCanExecute: bool)
    requires !Contains(name, ExecutePrefix)
    requires forall m :: m in others ==> !StartsWith(m, ExecutePrefix) && m != CanExecutePrefix + name
    ensures var declared := others + [ExecutePrefix + name] + (if withCanExecute then [CanExecutePrefix + name] else []);
      MakeCommandTable(declared) ==
        Success(CommandTable([name], map[name := Command(ExecutePrefix + name, if withCanExecute then Some(CanExecutePrefix + name) else None)]))
  {
    var exec := ExecutePrefix + name;
    var can := CanExecutePrefix + name;
    var tail := if withCanExecute then [can] else [];
    var declared := others + [exec] + tail;
    assert ExecuteMethods(declared) == [exec] by {
      assert !StartsWith(can, ExecutePrefix) by { assert can[0] != ExecutePrefix[0]; }
      assert StartsWith(exec, ExecutePrefix) by { assert exec[..|ExecutePrefix|] == ExecutePrefix; }
      ExecuteMethodsAppend(others + [exec], tail);
      ExecuteMethodsAppend(others, [exec]);
      NoExecuteMethods(others);
      NoExecuteMethods(tail);
    }
    assert CommandName(exec) == name by { CommandNameOf(name); }
    assert GetCommand(declared, exec) == Success(Command(exec, if withCanExecute then Some(can) else None)) by {
      CommandNameOf(name);
      assert multiset(declared)[can] == if withCanExecute then 1 else 0 by {
        assert exec != can by { assert exec[0] != can[0]; }
        assert multiset(declared) == multiset(others) + multiset([exec]) + multiset(tail);
        assert can !in others;
      }
    }
    TableOfOne(declared, exec);
  }

  /** Two Execute_ methods with the same command name make construction fail. */
  lemma DuplicateCommandFails(declared: seq<string>, m1: string, m2: string)
    requires m1 != m2 && m1 in declared && m2 in declared
    requires StartsWith(m1, ExecutePrefix) && StartsWith(m2, ExecutePrefix) && CommandName(m1) == CommandName(m2)
    ensures MakeCommandTable(declared).Failure?
  {
    var ms := ExecuteMethods(declared);
    assert m1 in ms && m2 in ms;
    var i :| 0 <= i < |ms| && ms[i] == m1;
    var j :| 0 <= j < |ms| && ms[j] == m2;
    if i < j {
      assert CommandName(ms[i]) == CommandName(ms[j]);
    } else {
      assert CommandName(ms[j]) == CommandName(ms[i]);
    }
  }

  /** The dictionary and the notification log. */
  datatype VmState = VmState(properties: map<string, Value>, events: seq<Event>)

  /** What SetValue leaves under `name`: the current value when the comparer finds it equal, else the new one. */
  function Kept(properties: map<string, Value>, name: string, t: PropType, value: Value): (v: Value)
    ensures ValueEquals(v, value)
  {
    var current := GetValue(properties, name, t);
    ValueEqualsIsEquivalence(current, value, value);
    if ValueEquals(current, value) then current else value
  }

  /**
   * SetValue(value, name): an unseen name first gets default(T); if the
   * value then differs from the current one it is stored, one
   * PropertyChanged(name) is raised and every command is re-evaluated.
   */
  function SetValueEffect(st: VmState, keys: seq<string>, value: Value, name: string, t: PropType): (r: VmState)
    ensures name in r.properties && ValueEquals(GetValue(r.properties, name, t), value)
    ensures st.events <= r.events
    ensures r.properties == st.properties[name := Kept(st.properties, name, t, value)]
    ensures ValueEquals(GetValue(st.properties, name, t), value) ==> r.events == st.events
    ensures !ValueEquals(GetValue(st.properties, name, t), value) ==>
      r.properties == st.properties[name := value] && r.events == st.events + [PropertyChanged(name)] + Notified(keys, None)
    ensures value.Null? || value.Str? || value.ColorV? ==> r.properties == st.properties[name := value]
  {
    var properties := if name in st.properties then st.properties else st.properties[name := Default(t)];
    var current := GetValue(properties, name, t);
    if ValueEquals(current, value) then VmState(properties, st.events)
    else VmState(properties[name := value], st.events + [PropertyChanged(name)] + Notified(keys, None))
  }

  /** A reference type's identity: a mutation through a held reference keeps it. */
  predicate SameObject(a: Value, b: Value)
  {
    match (a, b)
    case (ListV(x), ListV(y)) => x.id == y.id
    case (ItemsV(c, _), ItemsV(d, _)) => c == d
    case (ListsV(c, _), ListsV(d, _)) => c == d
    case _ => false
  }

  class ViewModelBase {
    var properties: map<string, Value>
    var events: seq<Event>
    /** The names of the view model's declared methods, standing in for reflection. */
    const declared: seq<string>
    const table: CommandTable

    ghost predicate Valid()
    {
      MakeCommandTable(declared) == Success(table)
    }

    /** Builds the command table from the declared methods; the dictionary starts empty. */
    constructor(declared: seq<string>)
      requires MakeCommandTable(declared).Success?
      ensures Valid() && this.declared == declared
      ensures properties == map[] && events == []
    {
      this.declared := declared;
      this.table := MakeCommandTable(declared).value;
      properties := map[];
      events := [];
    }

    method SetValue(value: Value, name: string, t: PropType)
      modifies this`properties, this`events
      ensures VmState(properties, events) == SetValueEffect(VmState(old(properties), old(events)), table.keys, value, name, t)
    {
      if name !in properties {
        properties := properties[name := Default(t)];
      }
      var oldValue := GetValue(properties, name, t);
      if !ValueEquals(oldValue, value) {
        properties := properties[name := value];
        events := events + [PropertyChanged(name)];
        NotifyCanExecuteChanged(None);
      }
    }

    /** Raises CanExecuteChanged for every command, or for those matching `name` ignoring case. */
    method NotifyCanExecuteChanged(name: Option<string>)
      modifies this`events
      ensures events == old(events) + Notified(table.keys, name)
    {
      var i := 0;
      while i < |table.keys|
        invariant 0 <= i <= |table.keys|
        invariant events == old(events) + Notified(table.keys[..i], name)
      {
        var key := table.keys[i];
        NotifiedStep(table.keys, i, name);
        if Reaches(name, key) {
          events := events + [CanExecuteChanged(key)];
        }
        i := i + 1;
      }
      assert table.keys[..i] == table.keys;
    }

    /** The indexer `this[name]`: the command stored under exactly that root name; KeyNotFound otherwise. */
    function CommandAt(name: string): (r: Result<Command>)
      requires Valid()
      ensures r.Success? <==> name in table.commands
      ensures r.Failure? ==> r.error == KeyNotFound(name)
      ensures r.Success? ==> r.value.execute in declared && StartsWith(r.value.execute, ExecutePrefix)
      ensures r.Success? ==> CommandName(r.value.execute) == name && GetCommand(declared, r.value.execute) == Success(r.value)
    {
      CommandTableContents(declared, name, _ => true);
      if name in table.commands then Success(table.commands[name]) else Failure(KeyNotFound(name))
    }

    /**
     * A change made through a reference the view model handed out (a
     * collection edited in place, a list's fields overwritten): the stored
     * object changes and no notification is raised.
     */
    method Mutate(name: string, value: Value)
      requires name in properties && SameObject(properties[name], value)
      modifies this`properties
      ensures properties == old(properties)[name := value]
    {
      properties := properties[name := value];
    }
  }
}
