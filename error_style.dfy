/**
 * BasicErrorStyle: shows a validation message as a label placed right after
 * the invalid view in its parent StackLayout, and hides it again once the
 * view is valid.
 *
 * The visual tree is one object holding every StackLayout's child list.
 * Elements are identified by `ref` (object identity). A label's StyleId is
 * modelled by `styleOf`, the ref of the view whose Id it spells.
 */
module ErrorStyle {
  import opened Wrappers

  /** A child of a StackLayout; `text` is a label's Text. */
  datatype Element = Element(ref: nat, styleOf: Option<nat>, text: Option<string>, visible: bool)

  /** A view and the StackLayout it sits in (its Parent). */
  datatype ViewHandle = ViewHandle(ref: nat, parent: nat)

  /** IList.IndexOf by reference: the first position holding `ref`, or -1. */
  function IndexOfRef(children: seq<Element>, ref: nat): (r: int)
    ensures -1 <= r < |children|
    ensures r >= 0 ==> children[r].ref == ref && forall j :: 0 <= j < r ==> children[j].ref != ref
    ensures r == -1 ==> forall j :: 0 <= j < |children| ==> children[j].ref != ref
  {
    if children == [] then -1
    else if children[0].ref == ref then 0
    else
      var k := IndexOfRef(children[1..], ref);
      if k == -1 then -1 else k + 1
  }

  /** The element after the view already is the view's error label. */
  predicate HasErrorLabel(children: seq<Element>, viewRef: nat)
  {
    var vi := IndexOfRef(children, viewRef);
    vi + 1 < |children| && children[vi + 1].styleOf == Some(viewRef)
  }

  /**
   * ShowError on the parent's children: an existing error label right after
   * the view gets the message and becomes visible; otherwise a new visible
   * label carrying the message and the view's id is inserted right after
   * the view (at the front when the view is not found). `newRef` is the new
   * label's identity.
   */
  function ShowErrorIn(children: seq<Element>, viewRef: nat, message: string, newRef: nat): (r: seq<Element>)
    ensures var vi := IndexOfRef(children, viewRef);
      if HasErrorLabel(children, viewRef) then
        |r| == |children| && r[vi + 1] == children[vi + 1].(text := Some(message), visible := true)
        && forall j :: 0 <= j < |r| && j != vi + 1 ==> r[j] == children[j]
      else
        |r| == |children| + 1 && r[vi + 1] == Element(newRef, Some(viewRef), Some(message), true)
        && r[..vi + 1] == children[..vi + 1] && r[vi + 2..] == children[vi + 1..]
  {
    var vi := IndexOfRef(children, viewRef);
    if HasErrorLabel(children, viewRef) then
      children[vi + 1 := children[vi + 1].(text := Some(message), visible := true)]
    else
      children[..vi + 1] + [Element(newRef, Some(viewRef), Some(message), true)] + children[vi + 1..]
  }

  /**
   * RemoveError on the parent's children: hides the view's error label when
   * it is the next sibling; never adds or removes a child.
   */
  function RemoveErrorIn(children: seq<Element>, viewRef: nat): (r: seq<Element>)
    ensures |r| == |children|
    ensures !HasErrorLabel(children, viewRef) ==> r == children
    ensures var vi := IndexOfRef(children, viewRef);
      HasErrorLabel(children, viewRef) ==>
        r[vi + 1] == children[vi + 1].(visible := false)
        && forall j :: 0 <= j < |r| && j != vi + 1 ==> r[j] == children[j]
  {
    var vi := IndexOfRef(children, viewRef);
    if HasErrorLabel(children, viewRef) then children[vi + 1 := children[vi + 1].(visible := false)]
    else children
  }

  /** After showing an error the view is where it was and is followed by its error label. */
  lemma ShownHasLabel(children: seq<Element>, viewRef: nat, m: string, f: nat)
    requires IndexOfRef(children, viewRef) >= 0 && f != viewRef
    ensures IndexOfRef(ShowErrorIn(children, viewRef, m, f), viewRef) == IndexOfRef(children, viewRef)
    ensures HasErrorLabel(ShowErrorIn(children, viewRef, m, f), viewRef)
  {
    var vi := IndexOfRef(children, viewRef);
    var once := ShowErrorIn(children, viewRef, m, f);
    assert forall j :: 0 <= j <= vi ==> once[j] == children[j] by {
      if !HasErrorLabel(children, viewRef) {
        forall j | 0 <= j <= vi ensures once[j] == children[j] {
          assert once[..vi + 1][j] == children[..vi + 1][j];
        }
      }
    }
  }

  /**
   * Showing an error twice in a row leaves one error label after the view,
   * carrying the second message: the second call finds the label the first
   * inserted.
   */
  lemma ShowErrorTwice(children: seq<Element>, viewRef: nat, m1: string, m2: string, f1: nat, f2: nat)
    requires IndexOfRef(children, viewRef) >= 0 && f1 != viewRef
    ensures ShowErrorIn(ShowErrorIn(children, viewRef, m1, f1), viewRef, m2, f2)
            == ShowErrorIn(children, viewRef, m2, f1)
    ensures var r := ShowErrorIn(ShowErrorIn(children, viewRef, m1, f1), viewRef, m2, f2);
            |r| <= |children| + 1
  {
    var vi := IndexOfRef(children, viewRef);
    var once := ShowErrorIn(children, viewRef, m1, f1);
    ShownHasLabel(children, viewRef, m1, f1);
    var twice := ShowErrorIn(once, viewRef, m2, f2);
    var direct := ShowErrorIn(children, viewRef, m2, f1);
    assert |twice| == |direct|;
    forall j | 0 <= j < |twice| ensures twice[j] == direct[j] {
      if HasErrorLabel(children, viewRef) {
      } else if j > vi + 1 {
        assert twice[j] == once[j] == once[vi + 2..][j - vi - 2] == children[vi + 1..][j - vi - 2];
        assert direct[j] == direct[vi + 2..][j - vi - 2];
      } else if j <= vi {
        assert twice[j] == once[j] == once[..vi + 1][j] == children[..vi + 1][j];
        assert direct[j] == direct[..vi + 1][j];
      }
    }
  }

  /**
   * The visual tree: each StackLayout's children, each view's bindable
   * property values (as read back `as string`), and the next free identity.
   */
  class VisualTree {
    var layouts: map<nat, seq<Element>>
    var values: map<(nat, string), Option<string>>
    var nextRef: nat

    constructor(layouts: map<nat, seq<Element>>, values: map<(nat, string), Option<string>>, nextRef: nat)
      ensures this.layouts == layouts && this.values == values && this.nextRef == nextRef
    {
      this.layouts := layouts;
      this.values := values;
      this.nextRef := nextRef;
    }

    /** The named property of the view, read by reflection and cast `as string`. */
    function PropertyValue(viewRef: nat, name: string): Option<string>
      reads this
    {
      if (viewRef, name) in values then values[(viewRef, name)] else None
    }
  }

  /** BasicErrorStyle.ShowError, applied to the view's parent layout in the tree. */
  method ShowError(tree: VisualTree, view: ViewHandle, message: string)
    requires view.parent in tree.layouts
    modifies tree`layouts, tree`nextRef
    ensures tree.layouts == old(tree.layouts)[view.parent := ShowErrorIn(old(tree.layouts)[view.parent], view.ref, message, old(tree.nextRef))]
    ensures tree.nextRef == if HasErrorLabel(old(tree.layouts)[view.parent], view.ref) then old(tree.nextRef) else old(tree.nextRef) + 1
  {
    var children := tree.layouts[view.parent];
    var viewIndex := IndexOfRef(children, view.ref);
    if viewIndex + 1 < |children| {
      var sibling := children[viewIndex + 1];
      if sibling.styleOf == Some(view.ref) {
        tree.layouts := tree.layouts[view.parent := children[viewIndex + 1 := sibling.(text := Some(message), visible := true)]];
        return;
      }
    }
    var errorLabel := Element(tree.nextRef, Some(view.ref), Some(message), true);
    tree.nextRef := tree.nextRef + 1;
    tree.layouts := tree.layouts[view.parent := children[..viewIndex + 1] + [errorLabel] + children[viewIndex + 1..]];
  }

  /** BasicErrorStyle.RemoveError, applied to the view's parent layout in the tree. */
  method RemoveError(tree: VisualTree, view: ViewHandle)
    requires view.parent in tree.layouts
    modifies tree`layouts
    ensures tree.layouts == old(tree.layouts)[view.parent := RemoveErrorIn(old(tree.layouts)[view.parent], view.ref)]
    ensures |tree.layouts[view.parent]| == |old(tree.layouts)[view.parent]|
  {
    var children := tree.layouts[view.parent];
    var viewIndex := IndexOfRef(children, view.ref);
    if viewIndex + 1 < |children| {
      var sibling := children[viewIndex + 1];
      if sibling.styleOf == Some(view.ref) {
        tree.layouts := tree.layouts[view.parent := children[viewIndex + 1 := sibling.(visible := false)]];
      }
    }
  }
}
