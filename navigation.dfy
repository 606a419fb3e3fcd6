/**
 * View-model-first navigation: a view model type name is mapped to the page
 * type by naming convention, a page of that type is created and placed on the
 * application's navigation stack, and the page's view model is initialised
 * with the navigation parameter.
 *
 * The application's main page is `stack`: `Some(pages)` when it is a
 * navigation page holding `pages` (bottom first, the visible page last),
 * `None` when it is not a navigation page.
 */
module Navigation {
  import opened Wrappers
  import opened Text
  import Models

  const AppNamespace := "BusyList"

  /** The three screens of the application, by page name. */
  const ScreenPages: set<string> := {"MainPage", "ListDetail", "CreateOrEditList"}

  function ViewModelTypeOf(page: string): string {
    AppNamespace + ".ViewModels." + page + "ViewModel"
  }

  function PageTypeOf(page: string): string {
    AppNamespace + ".Views." + page
  }

  const MainPageType := PageTypeOf("MainPage")

  /** The page type name looked up for a view model type name. */
  function ViewName(viewModelType: string): string {
    Replace(Replace(viewModelType, "Models", "s"), "ViewModel", "")
  }

  lemma Regroup<T>(ns: seq<T>, a: seq<T>, b: seq<T>, c: seq<T>, page: seq<T>, suffix: seq<T>)
    ensures ns + (a + b + c) + page + suffix == (ns + a) + (b + (c + (page + suffix)))
  {
  }

  /** A page name with no "Models" in it, followed by "ViewModel", has nothing for the first pass to replace. */
  lemma PageKeepsName(page: string)
    requires |page| > 0 && 'M' !in page[1..] && !StartsWith(page + "ViewModel", "Models")
    ensures Replace(page + "ViewModel", "Models", "s") == page + "ViewModel"
  {
    var p := "Models";
    var tail := page[1..] + "ViewModel";
    SplitHead(page, "ViewModel");
    ReplaceMismatch(page[0], tail, p, "s");
    ViewModelSplits();
    Regroup3(page[1..], "View", "Model");
    ReplaceSkipsShort(page[1..] + "View", "Model", p, "s");
  }

  lemma ViewModelSplits()
    ensures "ViewModel" == "View" + "Model"
  {
  }

  lemma SplitHead<T>(s: seq<T>, t: seq<T>)
    requires |s| > 0
    ensures s + t == [s[0]] + (s[1..] + t)
  {
    assert s == [s[0]] + s[1..];
  }

  lemma Regroup3<T>(a: seq<T>, b: seq<T>, c: seq<T>)
    ensures a + (b + c) == (a + b) + c
  {
  }

  /** First pass of the naming convention: only the namespace's "Models" becomes "s". */
  lemma ModelsPass(ns: string, page: string)
    requires 'M' !in ns && |page| > 0 && 'M' !in page[1..] && !StartsWith(page + "ViewModel", "Models")
    ensures Replace(ns + ".ViewModels." + page + "ViewModel", "Models", "s") == ns + ".Views." + page + "ViewModel"
  {
    var p := "Models";
    var named := page + "ViewModel";
    var rest := "." + named;
    var head := ns + ".View";
    calc {
      Replace(ns + ".ViewModels." + page + "ViewModel", p, "s");
      { assert ".ViewModels." == ".View" + p + ".";
        Regroup(ns, ".View", p, ".", page, "ViewModel"); }
      Replace(head + (p + rest), p, "s");
      { ReplaceSkipsPrefix(head, p + rest, p, "s"); }
      head + Replace(p + rest, p, "s");
      { ReplaceLeading(rest, p, "s"); }
      head + ("s" + Replace(rest, p, "s"));
      { ReplaceSkipsPrefix(".", named, p, "s"); }
      head + ("s" + ("." + Replace(named, p, "s")));
      { PageKeepsName(page); }
      head + ("s" + ("." + named));
      { assert ".Views." == ".View" + "s" + ".";
        Regroup(ns, ".View", "s", ".", page, "ViewModel"); }
      ns + ".Views." + page + "ViewModel";
    }
  }

  /** Second pass: the one "ViewModel", at the end, is dropped. */
  lemma ViewModelPass(ns: string, page: string)
    requires 'V' !in ns && 'V' !in page
    ensures Replace(ns + ".Views." + page + "ViewModel", "ViewModel", "") == ns + ".Views." + page
  {
    var q := "ViewModel";
    var inner := "iews." + page;
    var head := ns + ".";
    var w := ['V'] + (inner + q);
    assert Replace(inner + q, q, "") == inner by {
      ReplaceAtEnd(inner, q, "");
    }
    assert Replace(head + w, q, "") == head + (['V'] + Replace(inner + q, q, "")) by {
      assert !StartsWith(w, q) by { assert w[4] != q[4]; }
      ReplaceSkipsPrefix(head, w, q, "");
      ReplaceMismatch('V', inner + q, q, "");
    }
    ViewsSplits();
    RegroupSuffix(ns, ".", ['V'], "iews.", page, q);
  }

  lemma ViewsSplits()
    ensures ".Views." == "." + ['V'] + "iews."
  {
  }

  lemma RegroupSuffix<T>(ns: seq<T>, a: seq<T>, b: seq<T>, c: seq<T>, page: seq<T>, suffix: seq<T>)
    ensures ns + (a + b + c) + page == (ns + a) + (b + (c + page))
    ensures ns + (a + b + c) + page + suffix == (ns + a) + (b + ((c + page) + suffix))
  {
  }

  /**
   * The naming convention: the view model `<ns>.ViewModels.<Page>ViewModel`
   * is shown by the page `<ns>.Views.<Page>`, provided neither name has a
   * stray "Models" or "ViewModel" in it.
   */
  lemma Convention(ns: string, page: string)
    requires 'M' !in ns && 'V' !in ns && 'V' !in page
    requires |page| > 0 && 'M' !in page[1..] && !StartsWith(page + "ViewModel", "Models")
    ensures ViewName(ns + ".ViewModels." + page + "ViewModel") == ns + ".Views." + page
  {
    ModelsPass(ns, page);
    ViewModelPass(ns, page);
  }

  /** Every screen of the application follows the convention. */
  lemma ScreensFollowConvention(page: string)
    requires page in ScreenPages
    ensures ViewName(ViewModelTypeOf(page)) == PageTypeOf(page)
  {
    var named := page + "ViewModel";
    assert !StartsWith(named, "Models") by { assert named[1] != "Models"[1]; }
    ScreenPageLetters(page);
    Convention(AppNamespace, page);
  }

  /** No screen name holds a 'V', nor an 'M' after its first letter. */
  lemma ScreenPageLetters(page: string)
    requires page in ScreenPages
    ensures |page| > 0 && 'V' !in page && 'M' !in page[1..]
  {
    if page == "MainPage" {
    } else if page == "ListDetail" {
    } else {
      assert page == "CreateOrEditList";
    }
  }

  /** Of the application's screens only the main page replaces the navigation stack. */
  lemma OnlyMainPageIsRoot(page: string)
    requires page in ScreenPages && page != "MainPage"
    ensures PageTypeOf(page) != MainPageType
  {
    assert PageTypeOf(page)[15] == page[0];
    assert MainPageType[15] == 'M';
  }

  /** What a page's binding context is: the view model of one page instance. */
  datatype BindingContext = BindingContext(page: nat, viewModelType: string)

  /** A created page; `instance` tells apart pages of the same type. */
  datatype Page = Page(instance: nat, pageType: string, viewModelType: string)
  {
    function Context(): BindingContext {
      BindingContext(instance, viewModelType)
    }
  }

  /** A call of a view model's initialisation with its navigation parameter. */
  datatype Initialization = Initialize(context: BindingContext, parameter: Models.Object)

  /** Pages are listed in creation order, each created before `created`. */
  ghost predicate Ordered(s: seq<Page>, created: nat) {
    (forall i, j :: 0 <= i < j < |s| ==> s[i].instance < s[j].instance) &&
    (forall i :: 0 <= i < |s| ==> s[i].instance < created)
  }

  /** The sequence without its element at index `i`. */
  function RemoveAt<T>(s: seq<T>, i: nat): (r: seq<T>)
    requires i < |s|
    ensures |r| == |s| - 1
    ensures forall k :: 0 <= k < i ==> r[k] == s[k]
    ensures forall k :: i <= k < |r| ==> r[k] == s[k + 1]
  {
    s[..i] + s[i + 1..]
  }

  lemma RemoveAtKeepsOrder(s: seq<Page>, i: nat, created: nat)
    requires i < |s| && Ordered(s, created)
    ensures Ordered(RemoveAt(s, i), created)
  {
    var r := RemoveAt(s, i);
    forall a, b | 0 <= a < b < |r|
      ensures r[a].instance < r[b].instance
    {
      var a' := if a < i then a else a + 1;
      var b' := if b < i then b else b + 1;
      assert r[a] == s[a'] && r[b] == s[b'];
    }
  }

  /** Removal of a page object: its first occurrence leaves the stack. */
  function RemovePage(s: seq<Page>, page: Page): seq<Page> {
    if s == [] then []
    else if s[0] == page then s[1..]
    else [s[0]] + RemovePage(s[1..], page)
  }

  /** On a stack of distinct pages, removing the page found at `i` removes index `i`. */
  lemma {:induction false} RemovePageAt(s: seq<Page>, i: nat, created: nat)
    requires i < |s| && Ordered(s, created)
    ensures RemovePage(s, s[i]) == RemoveAt(s, i)
  {
    if i > 0 {
      assert s[0].instance < s[i].instance;
      assert Ordered(s[1..], created);
      assert s[1..][i - 1] == s[i];
      RemovePageAt(s[1..], i - 1, created);
      assert RemoveAt(s[1..], i - 1) == RemoveAt(s, i)[1..];
    }
  }

  /** The stack left by the back-stack clearing loop, from index `i` on, as written. */
  function ClearLoop(s: seq<Page>, i: nat): seq<Page>
    decreases |s| - i
  {
    if i + 1 < |s| then ClearLoop(RemoveAt(s, i), i + 1) else s
  }

  /** The elements at odd indices. */
  function Odds<T>(r: seq<T>): seq<T> {
    if |r| < 2 then [] else [r[1]] + Odds(r[2..])
  }

  /** One pass of the loop: the page at the index goes and the index moves past the next one. */
  lemma ClearLoopStep(p: seq<Page>, r: seq<Page>)
    requires |r| >= 2
    ensures ClearLoop(p + r, |p|) == ClearLoop((p + [r[1]]) + r[2..], |p| + 1)
  {
    RemoveAtJoin(p, r);
  }

  /** Removing the first element after a prefix. */
  lemma RemoveAtJoin<T>(p: seq<T>, r: seq<T>)
    requires |r| >= 2
    ensures RemoveAt(p + r, |p|) == (p + [r[1]]) + r[2..]
  {
    var s := p + r;
    assert s[..|p|] == p;
    assert s[|p| + 1..] == r[1..];
    assert r[1..] == [r[1]] + r[2..];
  }

  /** Keeping the second of the remaining pages and skipping on: the odd positions of what is left. */
  lemma OddsStep(p: seq<Page>, r: seq<Page>)
    requires |r| >= 3
    ensures (p + [r[1]]) + Odds(r[2..][..|r| - 3]) + [r[2..][|r| - 3]] == p + Odds(r[..|r| - 1]) + [r[|r| - 1]]
  {
    assert r[2..][..|r| - 3] == r[..|r| - 1][2..];
    assert Odds(r[..|r| - 1]) == [r[1]] + Odds(r[..|r| - 1][2..]);
  }

  /**
   * Each pass of the loop removes one page and steps over the next, so of
   * the pages below the top only every second one goes.
   */
  lemma {:induction false} ClearLoopSkips(p: seq<Page>, r: seq<Page>)
    requires |r| >= 1
    ensures ClearLoop(p + r, |p|) == p + Odds(r[..|r| - 1]) + [r[|r| - 1]]
    decreases |r|
  {
    if |r| == 1 {
      assert p + r == p + Odds(r[..0]) + [r[0]];
    } else if |r| == 2 {
      ClearLoopStep(p, r);
      assert (p + [r[1]]) + r[2..] == p + Odds(r[..1]) + [r[1]] by {
        assert Odds(r[..1]) == [];
      }
    } else {
      ClearLoopStep(p, r);
      ClearLoopSkips(p + [r[1]], r[2..]);
      OddsStep(p, r);
    }
  }

  /** As written, clearing a stack of n >= 1 pages leaves (n - 1) / 2 + 1 of them. */
  lemma ClearLoopLeaves(s: seq<Page>)
    requires |s| >= 1
    ensures |ClearLoop(s, 0)| == (|s| - 1) / 2 + 1
    ensures ClearLoop(s, 0)[|ClearLoop(s, 0)| - 1] == s[|s| - 1]
  {
    ClearLoopSkips([], s);
    assert [] + s == s;
    OddsLength(s[..|s| - 1]);
  }

  lemma {:induction false} OddsLength<T>(r: seq<T>)
    ensures |Odds(r)| == |r| / 2
    decreases |r|
  {
    if |r| >= 2 {
      OddsLength(r[2..]);
    }
  }

  /** The smallest stack showing the defect: three pages, of which two remain. */
  lemma ClearBackStackLeavesBackPage(a: Page, b: Page, c: Page)
    ensures ClearLoop([a, b, c], 0) == [b, c]
  {
    ClearLoopSkips([], [a, b, c]);
    assert [] + [a, b, c] == [a, b, c];
    assert [a, b, c][..2] == [a, b];
  }

  class NavigationService {
    /** The page types that exist in the application. */
    const pageTypes: set<string>
    var stack: Option<seq<Page>>
    var pagesCreated: nat
    var initialized: seq<Initialization>

    ghost predicate Valid()
      reads this
    {
      stack.Some? ==> Ordered(stack.value, pagesCreated)
    }

    constructor(pageTypes: set<string>)
      ensures Valid()
      ensures this.pageTypes == pageTypes && stack == None && pagesCreated == 0 && initialized == []
    {
      this.pageTypes := pageTypes;
      stack := None;
      pagesCreated := 0;
      initialized := [];
    }

    /** The page type found for a view model type, if one exists. */
    function PageTypeFor(viewModelType: string): (r: Option<string>)
    {
      if ViewName(viewModelType) in pageTypes then Some(ViewName(viewModelType)) else None
    }

    /** The application start: a navigation page whose root is the main page. */
    method Start()
      requires Valid()
      modifies this`stack, this`pagesCreated
      ensures Valid()
      ensures stack == Some([Page(old(pagesCreated), MainPageType, ViewModelTypeOf("MainPage"))])
      ensures pagesCreated == old(pagesCreated) + 1
    {
      stack := Some([Page(pagesCreated, MainPageType, ViewModelTypeOf("MainPage"))]);
      pagesCreated := pagesCreated + 1;
    }

    /** The view model of the page below the visible one. */
    function PreviousPageViewModel(): (r: Result<BindingContext>)
      reads this
      ensures stack.None? ==> r == Failure(NullReference)
      ensures stack.Some? && |stack.value| < 2 ==> r == Failure(ArgumentOutOfRange)
      ensures r.Success? <==> stack.Some? && |stack.value| >= 2
      ensures r.Success? ==> r.value == stack.value[|stack.value| - 2].Context()
    {
      if stack.None? then Failure(NullReference)
      else if |stack.value| < 2 then Failure(ArgumentOutOfRange)
      else Success(stack.value[|stack.value| - 2].Context())
    }

    /**
     * Creates a page for the view model type and shows it: a main page
     * becomes the root of a new navigation stack; any other page is pushed,
     * or becomes a new root when the application has no navigation page.
     * Its view model is then initialised with `parameter`.
     */
    method NavigateTo(viewModelType: string, parameter: Models.Object) returns (r: Outcome)
      requires Valid()
      modifies this`stack, this`pagesCreated, this`initialized
      ensures Valid()
      ensures r.Fail? <==> PageTypeFor(viewModelType).None?
      ensures r.Fail? ==>
        r.error == Raised("Cannot locate page type for " + viewModelType) &&
        stack == old(stack) && pagesCreated == old(pagesCreated) && initialized == old(initialized)
      ensures r.Pass? ==>
        var page := Page(old(pagesCreated), ViewName(viewModelType), viewModelType);
        pagesCreated == old(pagesCreated) + 1 &&
        stack == Some(if page.pageType == MainPageType || old(stack).None? then [page] else old(stack).value + [page]) &&
        initialized == old(initialized) + [Initialize(page.Context(), parameter)]
      ensures r.Pass? && ViewName(viewModelType) != MainPageType && old(stack).Some? && |old(stack).value| > 0 ==>
        PreviousPageViewModel() == Success(old(stack).value[|old(stack).value| - 1].Context())
    {
      var pageType := PageTypeFor(viewModelType);
      if pageType.None? {
        return Fail(Raised("Cannot locate page type for " + viewModelType));
      }
      var page := Page(pagesCreated, pageType.value, viewModelType);
      pagesCreated := pagesCreated + 1;
      if page.pageType == MainPageType {
        stack := Some([page]);
      } else if stack.Some? {
        stack := Some(stack.value + [page]);
      } else {
        stack := Some([page]);
      }
      initialized := initialized + [Initialize(page.Context(), parameter)];
      return Pass;
    }

    /** Removes the page below the visible one, leaving the visible page in place. */
    method RemoveLastFromBackStack() returns (r: Outcome)
      requires Valid()
      modifies this`stack
      ensures Valid()
      ensures old(stack).None? ==> r == Pass && stack == None
      ensures old(stack).Some? && |old(stack).value| < 2 ==> r == Fail(ArgumentOutOfRange) && stack == old(stack)
      ensures old(stack).Some? && |old(stack).value| >= 2 ==>
        r == Pass && stack.Some? && |stack.value| == |old(stack).value| - 1 &&
        stack.value[|stack.value| - 1] == old(stack).value[|old(stack).value| - 1] &&
        stack.value[..|stack.value| - 1] == old(stack).value[..|old(stack).value| - 2]
    {
      if stack.None? {
        return Pass;
      }
      var s := stack.value;
      if |s| < 2 {
        return Fail(ArgumentOutOfRange);
      }
      RemovePageAt(s, |s| - 2, pagesCreated);
      RemoveAtKeepsOrder(s, |s| - 2, pagesCreated);
      stack := Some(RemovePage(s, s[|s| - 2]));
      assert stack.value[..|stack.value| - 1] == s[..|s| - 2];
      return Pass;
    }

    /**
     * The back-stack clearing loop as written: index `i` walks up while the
     * stack shrinks under it. See ClearLoopLeaves for what it leaves.
     */
    method ClearBackStack()
      requires Valid()
      modifies this`stack
      ensures Valid()
      ensures stack == if old(stack).None? then None else Some(ClearLoop(old(stack).value, 0))
    {
      if stack.None? {
        return;
      }
      var i := 0;
      while i < |stack.value| - 1
        invariant stack.Some? && Valid()
        invariant ClearLoop(stack.value, i) == ClearLoop(old(stack).value, 0)
        decreases |stack.value| - i
      {
        var s := stack.value;
        var page := s[i];
        RemovePageAt(s, i, pagesCreated);
        RemoveAtKeepsOrder(s, i, pagesCreated);
        stack := Some(RemovePage(s, page));
        i := i + 1;
      }
    }

    /** The corrected clearing: every page below the visible one is removed. */
    method ClearBackStackFully()
      requires Valid()
      modifies this`stack
      ensures Valid()
      ensures old(stack).None? ==> stack == None
      ensures old(stack).Some? && old(stack).value == [] ==> stack == old(stack)
      ensures old(stack).Some? && old(stack).value != [] ==>
        stack == Some([old(stack).value[|old(stack).value| - 1]])
    {
      if stack.None? {
        return;
      }
      while |stack.value| > 1
        invariant stack.Some? && Valid()
        invariant old(stack).value != [] ==>
          stack.value != [] && stack.value[|stack.value| - 1] == old(stack).value[|old(stack).value| - 1]
        invariant old(stack).value == [] ==> stack == old(stack)
        decreases |stack.value|
      {
        var s := stack.value;
        RemovePageAt(s, 0, pagesCreated);
        RemoveAtKeepsOrder(s, 0, pagesCreated);
        stack := Some(RemovePage(s, s[0]));
      }
      if stack.value != [] {
        assert stack.value == [stack.value[|stack.value| - 1]];
      }
    }
  }
}
