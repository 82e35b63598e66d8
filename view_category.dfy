/** The category page: finding the route's category in the category
    forest, its breadcrumb trail and subcategories, and the page state that
    `loadCategoryData` writes. */
module CategoryView {

  import opened Wrappers
  import opened Catalog
  import opened CategoryTree

  /** The nodes of a forest in depth-first preorder: a node, its subtree,
      then its later siblings. */
  function Preorder(forest: seq<Node>): seq<Node>
    decreases forest
  {
    if forest == [] then []
    else [forest[0]] + Preorder(forest[0].children) + Preorder(forest[1..])
  }

  /** The first node of a flat list with id `target`. */
  function FirstWithId(s: seq<Node>, target: string): (r: Option<Node>)
    ensures r.None? <==> forall k :: 0 <= k < |s| ==> s[k].record.id != target
    ensures r.Some? ==> exists k :: 0 <= k < |s| && s[k] == r.value && r.value.record.id == target &&
                                    forall j :: 0 <= j < k ==> s[j].record.id != target
  {
    if s == [] then None
    else if s[0].record.id == target then Some(s[0])
    else
      var r := FirstWithId(s[1..], target);
      assert r.Some? ==> exists k :: 0 <= k < |s| && s[k] == r.value && r.value.record.id == target &&
                                     forall j :: 0 <= j < k ==> s[j].record.id != target by {
        if r.Some? {
          var k :| 0 <= k < |s[1..]| && s[1..][k] == r.value && r.value.record.id == target &&
                   forall j :: 0 <= j < k ==> s[1..][j].record.id != target;
          assert s[k + 1] == r.value;
          assert forall j :: 0 <= j < k + 1 ==> s[j].record.id != target by {
            forall j | 0 <= j < k + 1 ensures s[j].record.id != target {
              if j > 0 { assert s[j] == s[1..][j - 1]; }
            }
          }
        }
      }
      r
  }

  lemma {:induction false} FirstWithIdConcat(a: seq<Node>, b: seq<Node>, target: string)
    ensures FirstWithId(a + b, target) ==
            (if FirstWithId(a, target).Some? then FirstWithId(a, target) else FirstWithId(b, target))
    decreases |a|
  {
    if a == [] {
      assert a + b == b;
    } else {
      assert (a + b)[1..] == a[1..] + b;
      FirstWithIdConcat(a[1..], b, target);
    }
  }

  /** `findCategoryById` (and the identical `findCategoryInTree`): the
      depth-first search that checks a node, then its children when it has
      any, then its later siblings. */
  function FindCategory(forest: seq<Node>, target: string): (r: Option<Node>)
    ensures r.Some? ==> r.value.record.id == target
    decreases forest
  {
    if forest == [] then None
    else if forest[0].record.id == target then Some(forest[0])
    else
      var found := if |forest[0].children| > 0 then FindCategory(forest[0].children, target) else None;
      if found.Some? then found else FindCategory(forest[1..], target)
  }

  /** The search returns the first node in preorder with the target id, and
      nothing exactly when no node has it. */
  lemma {:induction false} FindIsFirstInPreorder(forest: seq<Node>, target: string)
    ensures FindCategory(forest, target) == FirstWithId(Preorder(forest), target)
    decreases forest
  {
    if forest != [] {
      var n := forest[0];
      assert Preorder(forest) == [n] + (Preorder(n.children) + Preorder(forest[1..]));
      FindIsFirstInPreorder(n.children, target);
      FindIsFirstInPreorder(forest[1..], target);
      FirstWithIdConcat([n], Preorder(n.children) + Preorder(forest[1..]), target);
      FirstWithIdConcat(Preorder(n.children), Preorder(forest[1..]), target);
    }
  }

  lemma PathCons(forest: seq<Node>, n: Node, p: seq<Node>)
    requires n in forest && IsForestPath(n.children, p)
    ensures IsForestPath(forest, [n] + p)
  {
    var q := [n] + p;
    forall k | 0 < k < |q| ensures q[k] in q[k - 1].children {
      if k > 1 { assert q[k] == p[k - 1] && q[k - 1] == p[k - 2]; }
    }
  }

  /** `buildBreadcrumbs`: the nodes from a root down to the target, found
      with the same traversal as the search. It is empty exactly when the
      search finds nothing; otherwise it is a root-to-node path ending at
      the node the search returns. */
  function Breadcrumbs(forest: seq<Node>, target: string): (r: seq<Node>)
    ensures r == [] <==> FindCategory(forest, target).None?
    ensures r != [] ==> IsForestPath(forest, r) && FindCategory(forest, target) == Some(r[|r| - 1])
    decreases forest
  {
    if forest == [] then []
    else if forest[0].record.id == target then [forest[0]]
    else
      var trail := if |forest[0].children| > 0 then Breadcrumbs(forest[0].children, target) else [];
      if |trail| > 0 then
        PathCons(forest, forest[0], trail);
        [forest[0]] + trail
      else
        var rest := Breadcrumbs(forest[1..], target);
        assert rest != [] ==> rest[0] in forest;
        rest
  }

  /** The trail is empty exactly when no node of the forest has the id. */
  lemma BreadcrumbsEmptyIff(forest: seq<Node>, target: string)
    ensures Breadcrumbs(forest, target) == [] <==>
            forall k :: 0 <= k < |Preorder(forest)| ==> Preorder(forest)[k].record.id != target
  {
    FindIsFirstInPreorder(forest, target);
  }

  /** The subcategory list: the children of the node the search finds for
      `id || ''`, or nothing. */
  function Subcategories(forest: seq<Node>, id: Option<string>): seq<Node> {
    match FindCategory(forest, id.GetOr(""))
    case Some(n) => n.children
    case None => []
  }

  /** On the forest built from the category list, the subcategories of a
      category are exactly the records naming it as parent, in list order;
      for an id no record has there are none. */
  lemma SubcategoriesOfBuiltForest(cats: seq<Category>, id: string)
    requires UniqueIds(cats)
    ensures var subs := Records(Subcategories(BuildCategoryTree(cats), Some(id)));
      if exists k :: 0 <= k < |cats| && cats[k].id == id && (exists q :: RootChain(cats, q, cats[k])) then
        (forall k :: 0 <= k < |subs| ==> subs[k] in cats && ParentKey(subs[k]) == Some(id)) &&
        (forall k :: 0 <= k < |cats| && ParentKey(cats[k]) == Some(id) ==> cats[k] in subs) &&
        Arrays.IsSubsequence(subs, cats)
      else subs == []
  {
    var forest := BuildCategoryTree(cats);
    var trail := Breadcrumbs(forest, id);
    if trail != [] {
      ChildrenAreItsChildren(cats, trail);
      PathsAreChains(cats, trail);
      assert RootChain(cats, Records(trail), trail[|trail| - 1].record);
      var j :| 0 <= j < |cats| && cats[j] == trail[|trail| - 1].record;
      assert cats[j].id == id && exists q :: RootChain(cats, q, cats[j]);
    } else {
      forall k | 0 <= k < |cats| && cats[k].id == id ensures !exists q :: RootChain(cats, q, cats[k]) {
        InForestIffRooted(cats, cats[k]);
        NotFoundNotFlattened(forest, id, cats[k]);
      }
    }
  }

  /** On the forest built from the category list, searching for a listed
      record's id finds that very record when a chain of parents reaches
      it from a root, and finds nothing otherwise. */
  lemma FindOnBuiltForest(cats: seq<Category>, c: Category)
    requires UniqueIds(cats) && c in cats
    ensures var r := FindCategory(BuildCategoryTree(cats), c.id);
      if exists q :: RootChain(cats, q, c) then r.Some? && r.value.record == c else r.None?
  {
    var forest := BuildCategoryTree(cats);
    var trail := Breadcrumbs(forest, c.id);
    InForestIffRooted(cats, c);
    if trail != [] {
      PathsAreChains(cats, trail);
      var e := trail[|trail| - 1].record;
      assert RootChain(cats, Records(trail), e);
      SameIdSameRecord(cats, e, c);
    } else {
      NotFoundNotFlattened(forest, c.id, c);
    }
  }

  /** On the built forest, the trail for a listed record's id is non-empty
      exactly when a chain of parents reaches the record from a root, and
      then its records are that chain: a parentless record first, each
      later record a child of the one before, the record itself last. */
  lemma BreadcrumbsOnBuiltForest(cats: seq<Category>, c: Category)
    requires UniqueIds(cats) && c in cats
    ensures var t := Breadcrumbs(BuildCategoryTree(cats), c.id);
      (t != [] <==> exists q :: RootChain(cats, q, c)) &&
      (t != [] ==> RootChain(cats, Records(t), c))
  {
    var t := Breadcrumbs(BuildCategoryTree(cats), c.id);
    FindOnBuiltForest(cats, c);
    if t != [] {
      PathsAreChains(cats, t);
    }
  }

  /** A record with the target id is not in the preorder of a forest in
      which the search finds nothing. */
  lemma {:induction false} NotFoundNotFlattened(forest: seq<Node>, target: string, c: Category)
    requires FindCategory(forest, target).None? && c.id == target
    ensures c !in Flatten(forest)
    decreases forest
  {
    if forest != [] {
      assert Flatten(forest) == [forest[0].record] + Flatten(forest[0].children) + Flatten(forest[1..]);
      if |forest[0].children| > 0 {
        NotFoundNotFlattened(forest[0].children, target, c);
      } else {
        assert Flatten(forest[0].children) == [];
      }
      NotFoundNotFlattened(forest[1..], target, c);
    }
  }

  /** What `getProductsByCategory` produced: a response, or a thrown
      error. */
  datatype ProductsFetch = Responded(success: bool, data: Option<seq<Product>>) | Threw

  /** The category page's state. */
  class CategoryPage {
    var products: seq<Product>
    var currentCategory: Option<Node>
    var breadcrumbs: seq<Node>
    var isLoading: bool

    constructor()
      ensures products == [] && currentCategory == None && breadcrumbs == [] && isLoading
    {
      products := [];
      currentCategory := None;
      breadcrumbs := [];
      isLoading := true;
    }

    /** `loadCategoryData` for the route `id` over the category forest;
        `fetch` is what the product request produced. */
    method LoadCategoryData(id: Option<string>, allCategories: seq<Node>, fetch: ProductsFetch)
      modifies this
      ensures !isLoading
      ensures !Truthy(id) || allCategories == [] ==>
        products == old(products) && currentCategory == old(currentCategory) && breadcrumbs == old(breadcrumbs)
      ensures Truthy(id) && allCategories != [] ==>
        currentCategory == FindCategory(allCategories, id.value) &&
        breadcrumbs == Breadcrumbs(allCategories, id.value) &&
        products == (if currentCategory.Some? && fetch.Responded? && fetch.success && fetch.data.Some?
                     then fetch.data.value else [])
    {
      if !Truthy(id) || |allCategories| == 0 {
        isLoading := false;
        return;
      }
      isLoading := true;
      var target := id.value;
      var found := FindCategory(allCategories, target);
      if found.Some? {
        currentCategory := found;
        breadcrumbs := Breadcrumbs(allCategories, target);
        if fetch.Responded? && fetch.success && fetch.data.Some? {
          products := fetch.data.value;
        } else {
          products := [];
        }
      } else {
        currentCategory := None;
        products := [];
        breadcrumbs := [];
      }
      isLoading := false;
    }
  }
}
