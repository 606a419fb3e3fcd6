/**
 * The two persisted entities, TodoList and TodoItem, as records. `id` is the
 * nullable auto-incremented primary key (`None` before the first save).
 * Both entities override Equals so that two records are "the same" exactly
 * when their ids are equal; the screens rely on this for Remove and IndexOf.
 */
module Models {
  import opened Wrappers
  import Text

  /** A task on a list. `listId` is the foreign key to the owning list. */
  datatype TodoItem = TodoItem(id: Option<int>, listId: int, isCompleted: bool, name: Option<string>)

  /** A to-do list; `items` is the one-to-many child collection (null until set or loaded). */
  datatype TodoList = TodoList(
    id: Option<int>,
    title: Option<string>,
    subtitle: Option<string>,
    color: Option<string>,
    items: Option<seq<TodoItem>>)

  /** The indicator colour every new list starts with. */
  const DefaultListColor: string := "#8c7ae6"

  /** `new TodoList()`: no id, no title or subtitle, the default colour, no items collection. */
  function NewTodoList(): (l: TodoList)
    ensures l.id.None? && l.title.None? && l.subtitle.None? && l.items.None?
    ensures l.color == Some(DefaultListColor)
  {
    TodoList(None, None, None, Some(DefaultListColor), None)
  }

  /** The `object` arguments the core receives: navigation parameters, converter inputs, Equals arguments. */
  datatype Object =
    | Null
    | BoolObj(b: bool)
    | IntObj(i: int)
    | StrObj(s: string)
    | ListObj(list: TodoList)
    | ItemObj(item: TodoItem)
    | ExceptionObj(typeName: string)

  /**
   * TodoList.Equals(obj): another TodoList is equal iff the ids are equal
   * (two null ids are equal); anything else falls back to reference
   * equality, which a non-list or null never satisfies.
   */
  function ListEquals(self: TodoList, obj: Object): (r: bool)
    ensures obj.ListObj? ==> (r <==> obj.list.id == self.id)
    ensures !obj.ListObj? ==> !r
  {
    match obj
    case ListObj(other) => other.id == self.id
    case _ => false
  }

  /** TodoItem.Equals(obj): same shape as ListEquals, by id only. */
  function ItemEquals(self: TodoItem, obj: Object): (r: bool)
    ensures obj.ItemObj? ==> (r <==> obj.item.id == self.id)
    ensures !obj.ItemObj? ==> !r
  {
    match obj
    case ItemObj(other) => other.id == self.id
    case _ => false
  }

  /** List equality ignores every field but the id, and is an equivalence relation. */
  lemma ListEqualsIgnoresFields(a: TodoList, b: TodoList, c: TodoList)
    ensures ListEquals(a, ListObj(b)) <==> a.id == b.id
    ensures ListEquals(a, ListObj(a))
    ensures ListEquals(a, ListObj(b)) ==> ListEquals(b, ListObj(a))
    ensures ListEquals(a, ListObj(b)) && ListEquals(b, ListObj(c)) ==> ListEquals(a, ListObj(c))
    ensures a.id.None? && b.id.None? ==> ListEquals(a, ListObj(b))
    ensures !ListEquals(a, Null)
  {
  }

  /** Item equality ignores every field but the id, and is an equivalence relation. */
  lemma ItemEqualsIgnoresFields(a: TodoItem, b: TodoItem, c: TodoItem)
    ensures ItemEquals(a, ItemObj(b)) <==> a.id == b.id
    ensures ItemEquals(a, ItemObj(a))
    ensures ItemEquals(a, ItemObj(b)) ==> ItemEquals(b, ItemObj(a))
    ensures ItemEquals(a, ItemObj(b)) && ItemEquals(b, ItemObj(c)) ==> ItemEquals(a, ItemObj(c))
    ensures a.id.None? && b.id.None? ==> ItemEquals(a, ItemObj(b))
    ensures !ItemEquals(a, Null)
  {
  }

  /**
   * Collection<TodoItem>.IndexOf(x): the first position whose element Equals
   * x, i.e. has x's id; -1 when there is none.
   */
  function IndexOfItem(s: seq<TodoItem>, x: TodoItem): (r: int)
    ensures -1 <= r < |s|
    ensures r >= 0 ==> ItemEquals(s[r], ItemObj(x)) && forall j :: 0 <= j < r ==> s[j].id != x.id
    ensures r == -1 <==> forall j :: 0 <= j < |s| ==> s[j].id != x.id
  {
    if s == [] then -1
    else if ItemEquals(s[0], ItemObj(x)) then 0
    else
      var k := IndexOfItem(s[1..], x);
      if k == -1 then -1 else k + 1
  }

  /**
   * Collection<TodoList>.Remove(x): removes the first element that Equals x
   * (same id); the collection is unchanged when none does.
   */
  function RemoveList(s: seq<TodoList>, x: TodoList): (r: seq<TodoList>)
    ensures (forall j :: 0 <= j < |s| ==> s[j].id != x.id) ==> r == s
    ensures |s| - 1 <= |r| <= |s|
  {
    if s == [] then []
    else if ListEquals(s[0], ListObj(x)) then s[1..]
    else [s[0]] + RemoveList(s[1..], x)
  }

  /** RemoveList takes out exactly the first match: what precedes it stays and what follows it shifts down by one. */
  lemma {:induction false} RemoveListAt(s: seq<TodoList>, x: TodoList, i: nat)
    requires i < |s| && s[i].id == x.id && forall j :: 0 <= j < i ==> s[j].id != x.id
    ensures RemoveList(s, x) == s[..i] + s[i + 1..]
  {
    if i == 0 {
      assert s[..0] + s[1..] == s[1..];
    } else {
      assert !ListEquals(s[0], ListObj(x));
      RemoveListAt(s[1..], x, i - 1);
      ConsWithout(s, i);
    }
  }

  /** Putting the head back in front of the tail without its element i - 1 gives the sequence without element i. */
  lemma ConsWithout<T>(s: seq<T>, i: nat)
    requires 0 < i < |s|
    ensures [s[0]] + (s[1..][..i - 1] + s[1..][i..]) == s[..i] + s[i + 1..]
  {
    assert s[1..][..i - 1] + s[1..][i..] == s[1..i] + s[i + 1..];
    assert [s[0]] + (s[1..i] + s[i + 1..]) == s[..i] + s[i + 1..];
  }
}
