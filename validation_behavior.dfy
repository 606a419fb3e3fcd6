/**
 * ValidationBehavior (rules attached to one view) and ValidationGroupBehavior
 * (a set of behaviours validated together, e.g. to enable a button).
 * Event subscriptions become explicit calls: OnPropertyChanged and
 * OnUnfocused are invoked with the visual tree the view lives in.
 */
module ValidationBehaviors {
  import opened Wrappers
  import opened Validators
  import opened ErrorStyle

  /** The part of the visual tree that validation changes. */
  datatype Layouts = Layouts(children: map<nat, seq<Element>>, nextRef: nat)

  /** The value a behaviour validates: its view's property, read from the tree's property values. */
  function ValueOf(values: map<(nat, string), Option<string>>, b: ValidationBehavior): Option<string>
  {
    if (b.view.ref, b.propertyName) in values then values[(b.view.ref, b.propertyName)] else None
  }

  /**
   * What one Validate does to the layouts: show the first failure's
   * message, or remove the error when every rule passed.
   */
  function ValidateEffect(ls: Layouts, view: ViewHandle, failure: Option<string>): (r: Layouts)
    requires view.parent in ls.children
    ensures r.children.Keys == ls.children.Keys
    ensures forall p :: p in ls.children && p != view.parent ==> r.children[p] == ls.children[p]
  {
    var children := ls.children[view.parent];
    match failure
    case Some(message) =>
      Layouts(ls.children[view.parent := ShowErrorIn(children, view.ref, message, ls.nextRef)],
              if HasErrorLabel(children, view.ref) then ls.nextRef else ls.nextRef + 1)
    case None =>
      Layouts(ls.children[view.parent := RemoveErrorIn(children, view.ref)], ls.nextRef)
  }

  predicate Passes(values: map<(nat, string), Option<string>>, b: ValidationBehavior)
  {
    FirstFailure(b.validators, ValueOf(values, b)).None?
  }

  /**
   * ValidationGroupBehavior.Update as a function: members validate in list
   * order while all have passed (`&&` short-circuits); the result pairs the
   * layouts with the conjunction.
   */
  function GroupEffect(ls: Layouts, values: map<(nat, string), Option<string>>, ms: seq<ValidationBehavior>): (r: (Layouts, bool))
    requires forall b :: b in ms ==> b.view.parent in ls.children
    ensures r.0.children.Keys == ls.children.Keys
    decreases |ms|
  {
    if ms == [] then (ls, true)
    else
      var prev := GroupEffect(ls, values, ms[..|ms| - 1]);
      var b := ms[|ms| - 1];
      if !prev.1 then (prev.0, false)
      else
        var failure := FirstFailure(b.validators, ValueOf(values, b));
        (ValidateEffect(prev.0, b.view, failure), failure.None?)
  }

  /** One more member: validated after the others, unless one of them already failed. */
  lemma GroupEffectStep(ls: Layouts, values: map<(nat, string), Option<string>>, ms: seq<ValidationBehavior>, i: nat)
    requires forall b :: b in ms ==> b.view.parent in ls.children
    requires i < |ms|
    ensures forall b :: b in ms[..i] ==> b.view.parent in ls.children
    ensures var prev := GroupEffect(ls, values, ms[..i]);
      var failure := FirstFailure(ms[i].validators, ValueOf(values, ms[i]));
      GroupEffect(ls, values, ms[..i + 1])
        == if !prev.1 then (prev.0, false) else (ValidateEffect(prev.0, ms[i].view, failure), failure.None?)
  {
    assert forall b :: b in ms[..i] ==> b in ms;
    assert ms[..i + 1][..i] == ms[..i];
  }

  /** All of the first i + 1 members pass exactly when the first i do and member i does. */
  lemma AllPassStep(values: map<(nat, string), Option<string>>, ms: seq<ValidationBehavior>, i: nat)
    requires i < |ms|
    ensures (forall j :: 0 <= j < i + 1 ==> Passes(values, ms[j]))
            <==> (forall j :: 0 <= j < i ==> Passes(values, ms[j])) && Passes(values, ms[i])
  {
  }

  /**
   * Short circuit: once member k fails, the members after it are never
   * validated, so the layouts are exactly those after the first k + 1.
   */
  lemma {:induction false} GroupStopsAtFailure(ls: Layouts, values: map<(nat, string), Option<string>>,
                                               ms: seq<ValidationBehavior>, k: nat)
    requires forall b :: b in ms ==> b.view.parent in ls.children
    requires k < |ms| && !Passes(values, ms[k])
    ensures GroupEffect(ls, values, ms) == (GroupEffect(ls, values, ms[..k + 1]).0, false)
    decreases |ms|
  {
    if |ms| == k + 1 {
      assert ms[..k + 1] == ms;
    } else {
      assert ms[..|ms| - 1][..k + 1] == ms[..k + 1];
      GroupStopsAtFailure(ls, values, ms[..|ms| - 1], k);
    }
  }

  /** An empty group is valid and touches nothing. */
  lemma EmptyGroupIsValid(ls: Layouts, values: map<(nat, string), Option<string>>)
    ensures GroupEffect(ls, values, []) == (ls, true)
  {
  }

  /** List<T>.Remove: drops the first occurrence, if any. */
  function RemoveFirst<T(==)>(s: seq<T>, x: T): (r: seq<T>)
    ensures x !in s ==> r == s
    ensures x in s ==> |r| == |s| - 1 && multiset(r) == multiset(s) - multiset{x}
  {
    if s == [] then []
    else
      assert s == [s[0]] + s[1..];
      if s[0] == x then s[1..]
      else [s[0]] + RemoveFirst(s[1..], x)
  }

  class ValidationGroup {
    var members: seq<ValidationBehavior>
    var isValid: bool

    /** A new group has no members and is not valid until its first Update. */
    constructor()
      ensures members == [] && !isValid
    {
      members := [];
      isValid := false;
    }

    method Add(b: ValidationBehavior)
      modifies this`members
      ensures members == old(members) + [b]
    {
      members := members + [b];
    }

    method Remove(b: ValidationBehavior)
      modifies this`members
      ensures members == RemoveFirst(old(members), b)
    {
      members := RemoveFirst(members, b);
    }

    /** Re-validates the members in order, stopping at the first failure, and records the conjunction in IsValid. */
    method Update(tree: VisualTree)
      requires forall b :: b in members ==> b.view.parent in tree.layouts
      modifies this`isValid, tree`layouts, tree`nextRef
      ensures (Layouts(tree.layouts, tree.nextRef), isValid)
              == GroupEffect(Layouts(old(tree.layouts), old(tree.nextRef)), tree.values, members)
      ensures isValid <==> forall i :: 0 <= i < |members| ==> Passes(tree.values, members[i])
    {
      ghost var start := Layouts(tree.layouts, tree.nextRef);
      ghost var values := tree.values;
      var valid := true;
      var i := 0;
      while i < |members|
        invariant 0 <= i <= |members|
        invariant tree.values == values
        invariant tree.layouts.Keys == start.children.Keys
        invariant (Layouts(tree.layouts, tree.nextRef), valid) == GroupEffect(start, values, members[..i])
        invariant valid <==> forall j :: 0 <= j < i ==> Passes(values, members[j])
      {
        GroupEffectStep(start, values, members, i);
        AllPassStep(values, members, i);
        if valid {
          var result := members[i].Validate(tree);
          valid := result;
        }
        i := i + 1;
      }
      assert members[..i] == members;
      isValid := valid;
    }
  }

  class ValidationBehavior {
    const propertyName: string
    const group: ValidationGroup?
    const validators: seq<Validator>
    /** The view this behaviour is attached to and its parent layout. */
    const view: ViewHandle

    constructor(propertyName: string, group: ValidationGroup?, validators: seq<Validator>, view: ViewHandle)
      ensures this.propertyName == propertyName && this.group == group
      ensures this.validators == validators && this.view == view
    {
      this.propertyName := propertyName;
      this.group := group;
      this.validators := validators;
      this.view := view;
    }

    /**
     * Runs the rules in order until one fails; on failure shows that rule's
     * message and answers false, otherwise removes the error and answers true.
     */
    method Validate(tree: VisualTree) returns (valid: bool)
      requires view.parent in tree.layouts
      modifies tree`layouts, tree`nextRef
      ensures valid <==> FirstFailure(validators, ValueOf(tree.values, this)).None?
      ensures Layouts(tree.layouts, tree.nextRef)
              == ValidateEffect(Layouts(old(tree.layouts), old(tree.nextRef)), view, FirstFailure(validators, ValueOf(tree.values, this)))
    {
      var value := tree.PropertyValue(view.ref, propertyName);
      var isValid := true;
      var errorMessage := "";
      var i := 0;
      while i < |validators|
        invariant 0 <= i <= |validators|
        invariant isValid
        invariant tree.layouts == old(tree.layouts) && tree.nextRef == old(tree.nextRef)
        invariant FirstFailure(validators[..i], value).None?
      {
        var result := Check(validators[i], value);
        isValid := isValid && result;
        if !result {
          errorMessage := validators[i].message;
          FirstFailureSnoc(validators[..i], validators[i], value);
          assert validators[..i] + [validators[i]] == validators[..i + 1];
          FirstFailureStopsEarly(validators[..i + 1], validators[i + 1..], value);
          assert validators[..i + 1] + validators[i + 1..] == validators;
          break;
        }
        FirstFailureSnoc(validators[..i], validators[i], value);
        assert validators[..i] + [validators[i]] == validators[..i + 1];
        i := i + 1;
      }
      if !isValid {
        ShowError(tree, view, errorMessage);
        return false;
      } else {
        assert validators[..i] == validators;
        RemoveError(tree, view);
        return true;
      }
    }

    /** Attaching joins the group, if there is one. */
    method OnAttachedTo()
      modifies if group == null then {} else {group}
      ensures group != null ==> group.members == old(group.members) + [this] && group.isValid == old(group.isValid)
    {
      if group != null {
        group.Add(this);
      }
    }

    /** Detaching leaves the group, if there is one. */
    method OnDetachingFrom()
      modifies if group == null then {} else {group}
      ensures group != null ==> group.members == RemoveFirst(old(group.members), this) && group.isValid == old(group.isValid)
    {
      if group != null {
        group.Remove(this);
      }
    }

    /** Losing focus validates this view only; the group is not updated. */
    method OnUnfocused(tree: VisualTree)
      requires view.parent in tree.layouts
      modifies tree`layouts, tree`nextRef
      ensures Layouts(tree.layouts, tree.nextRef)
              == ValidateEffect(Layouts(old(tree.layouts), old(tree.nextRef)), view, FirstFailure(validators, ValueOf(tree.values, this)))
    {
      var _ := Validate(tree);
    }

    /**
     * A change of the validated property validates this view and then
     * updates the group; a change of any other property does nothing.
     */
    method OnPropertyChanged(tree: VisualTree, changed: string)
      requires view.parent in tree.layouts
      requires group != null ==> forall b :: b in group.members ==> b.view.parent in tree.layouts
      modifies tree`layouts, tree`nextRef, if group == null then {} else {group}
      ensures changed != propertyName ==> tree.layouts == old(tree.layouts) && tree.nextRef == old(tree.nextRef)
      ensures changed != propertyName && group != null ==> group.members == old(group.members) && group.isValid == old(group.isValid)
      ensures changed == propertyName && group == null ==>
        Layouts(tree.layouts, tree.nextRef)
        == ValidateEffect(Layouts(old(tree.layouts), old(tree.nextRef)), view, FirstFailure(validators, ValueOf(tree.values, this)))
      ensures changed == propertyName && group != null ==>
        group.members == old(group.members) &&
        (Layouts(tree.layouts, tree.nextRef), group.isValid)
        == GroupEffect(ValidateEffect(Layouts(old(tree.layouts), old(tree.nextRef)), view, FirstFailure(validators, ValueOf(tree.values, this))),
                       tree.values, group.members)
    {
      if changed == propertyName {
        var _ := Validate(tree);
        if group != null {
          group.Update(tree);
        }
      }
    }
  }
}
