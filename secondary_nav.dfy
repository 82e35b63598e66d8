/** The storefront's secondary navigation bar: the top-level categories,
    collapsed to the first six until "Listar todas" is pressed, each with
    a hover submenu of its children. */
module SecondaryNav {

  import opened Wrappers
  import opened Catalog
  import opened CategoryTree

  /** How many top-level categories the collapsed bar shows. */
  const CollapsedCount: nat := 6

  function Min(a: nat, b: nat): nat {
    if a <= b then a else b
  }

  /** `showAll ? categories : categories.slice(0, 6)`. */
  function VisibleCategories(categories: seq<Node>, showAll: bool): (r: seq<Node>)
    ensures showAll ==> r == categories
    ensures !showAll ==> |r| == Min(CollapsedCount, |categories|) && r <= categories
  {
    if showAll then categories else categories[..Min(CollapsedCount, |categories|)]
  }

  /** The "Listar todas" button: more than six categories and not yet
      expanded. */
  predicate ShowsListAllButton(categories: seq<Node>, showAll: bool) {
    |categories| > CollapsedCount && !showAll
  }

  /** The button is on screen exactly when some category is hidden, and
      whatever is hidden comes after what is shown. */
  lemma ButtonIffSomeHidden(categories: seq<Node>, showAll: bool)
    ensures ShowsListAllButton(categories, showAll) <==>
            |VisibleCategories(categories, showAll)| < |categories|
    ensures VisibleCategories(categories, showAll) + categories[|VisibleCategories(categories, showAll)|..] == categories
  {
    var v := VisibleCategories(categories, showAll);
    assert categories[..|v|] == v;
  }

  /** The bar's one piece of state. `showAll` starts false and the only
      transition sets it, so the bar never collapses again. */
  class NavBar {
    var showAll: bool

    constructor()
      ensures !showAll
    {
      showAll := false;
    }

    /** The button's click handler, `setShowAll(true)`. */
    method ListAll()
      modifies this
      ensures showAll
    {
      showAll := true;
    }

    /** What the bar renders for the current state. */
    function Visible(categories: seq<Node>): (r: seq<Node>)
      reads this
      ensures |r| <= |categories|
      ensures showAll ==> r == categories
      ensures !showAll ==> r == categories[..Min(CollapsedCount, |categories|)]
    {
      VisibleCategories(categories, showAll)
    }
  }

  // ----- CategoryItem

  /** One rendered menu entry: the category's name, whether the chevron
      shows, and the submenu when it is open. */
  datatype MenuItem = MenuItem(name: string, chevron: bool, submenu: Option<seq<MenuItem>>)

  /** `CategoryItem` for a node, where `isOpen` says which items are
      currently hovered open. The chevron shows when there are children;
      the submenu only when the item is also open, and it renders every
      child as a `CategoryItem` of its own, in order. */
  function RenderItem(n: Node, isOpen: Category -> bool): (r: MenuItem)
    decreases n
  {
    MenuItem(
      n.record.name,
      |n.children| > 0,
      if isOpen(n.record) && |n.children| > 0 then Some(RenderItems(n.children, isOpen)) else None)
  }

  function RenderItems(ns: seq<Node>, isOpen: Category -> bool): (r: seq<MenuItem>)
    decreases ns
  {
    if ns == [] then [] else [RenderItem(ns[0], isOpen)] + RenderItems(ns[1..], isOpen)
  }

  /** Rendering a list keeps its length, order and names. */
  lemma {:induction false} RenderItemsInOrder(ns: seq<Node>, isOpen: Category -> bool)
    ensures |RenderItems(ns, isOpen)| == |ns|
    ensures forall k :: 0 <= k < |ns| ==> RenderItems(ns, isOpen)[k] == RenderItem(ns[k], isOpen)
    decreases ns
  {
    if ns != [] {
      RenderItemsInOrder(ns[1..], isOpen);
    }
  }

  /** A submenu appears exactly when the item is open and has children;
      it then lists every child, in order, by name. */
  lemma SubmenuRule(n: Node, isOpen: Category -> bool)
    ensures RenderItem(n, isOpen).chevron <==> n.children != []
    ensures RenderItem(n, isOpen).submenu.Some? <==> isOpen(n.record) && n.children != []
    ensures RenderItem(n, isOpen).submenu.Some? ==>
      |RenderItem(n, isOpen).submenu.value| == |n.children| &&
      forall k :: 0 <= k < |n.children| ==>
        RenderItem(n, isOpen).submenu.value[k].name == n.children[k].record.name
  {
    RenderItemsInOrder(n.children, isOpen);
  }

  /** The bar itself: one item per visible top-level category. */
  function RenderBar(categories: seq<Node>, showAll: bool, isOpen: Category -> bool): (r: seq<MenuItem>)
  {
    RenderItems(VisibleCategories(categories, showAll), isOpen)
  }

  /** Collapsed, the bar shows the first min(6, n) categories by name and in
      order; expanded, it shows them all. */
  lemma BarShowsPrefix(categories: seq<Node>, showAll: bool, isOpen: Category -> bool)
    ensures |RenderBar(categories, showAll, isOpen)| ==
            (if showAll then |categories| else Min(CollapsedCount, |categories|))
    ensures forall k :: 0 <= k < |RenderBar(categories, showAll, isOpen)| ==>
              RenderBar(categories, showAll, isOpen)[k].name == categories[k].record.name
  {
    var v := VisibleCategories(categories, showAll);
    RenderItemsInOrder(v, isOpen);
    forall k | 0 <= k < |v| ensures v[k] == categories[k] {
    }
  }
}
