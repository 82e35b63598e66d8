/** The admin product list and its search box: a case-insensitive
    substring filter on the product name alone. */
module ProductList {

  import opened Wrappers
  import opened Catalog
  import opened Strings
  import Arrays

  /** The search callback for the lower-cased term `term`. The
      description is not searched. */
  predicate ProductMatches(p: Product, term: string) {
    Contains(ToLower(p.name), term)
  }

  function MatchTest(term: string): Product -> bool {
    p => ProductMatches(p, term)
  }

  /** `products.filter(...)` for the search text `search`. */
  function SearchProducts(products: seq<Product>, search: string): seq<Product> {
    Arrays.Filter(products, MatchTest(ToLower(search)))
  }

  /** The result is the products whose name matches and only those, in
      their order; two products with the same name are kept or dropped
      together, whatever their descriptions. */
  lemma SearchMeaning(products: seq<Product>, search: string)
    ensures forall p :: p in SearchProducts(products, search) <==> p in products && ProductMatches(p, ToLower(search))
    ensures Arrays.IsSubsequence(SearchProducts(products, search), products)
    ensures forall p, q :: p in products && q in products && p.name == q.name ==>
              (p in SearchProducts(products, search) <==> q in SearchProducts(products, search))
  {
    var r := SearchProducts(products, search);
    forall p | p in products && ProductMatches(p, ToLower(search)) ensures p in r {
      var k :| 0 <= k < |products| && products[k] == p;
      assert MatchTest(ToLower(search))(products[k]);
    }
    Arrays.FilterIsSubsequence(products, MatchTest(ToLower(search)));
  }

  /** An empty search keeps every product. */
  lemma EmptySearchKeepsAll(products: seq<Product>)
    ensures SearchProducts(products, "") == products
  {
    forall k | 0 <= k < |products| ensures MatchTest(ToLower(""))(products[k]) {
      ContainsEmpty(ToLower(products[k].name));
    }
    Arrays.FilterKeepsAll(products, MatchTest(ToLower("")));
  }

  /** Typing more narrows the list. */
  lemma LongerSearchNarrows(products: seq<Product>, t: string, t2: string)
    requires Contains(t2, t)
    ensures Arrays.IsSubsequence(SearchProducts(products, t2), SearchProducts(products, t))
  {
    ContainsToLower(t2, t);
    forall k | 0 <= k < |products| && MatchTest(ToLower(t2))(products[k])
      ensures MatchTest(ToLower(t))(products[k])
    {
      ContainsTransitive(ToLower(products[k].name), ToLower(t2), ToLower(t));
    }
    Arrays.FilterMonotone(products, MatchTest(ToLower(t2)), MatchTest(ToLower(t)));
  }

  /** What `getAllProducts` produced. */
  datatype ProductsFetch = Responded(success: bool, data: Option<seq<Product>>) | Threw

  /** The list page's state; `filtered` is the search over `products`
      after every handler and the effect it triggers. */
  class ProductListPage {
    var products: seq<Product>
    var filtered: seq<Product>
    var search: string

    predicate Valid()
      reads this
    {
      filtered == SearchProducts(products, search)
    }

    constructor()
      ensures products == [] && filtered == [] && search == "" && Valid()
    {
      products := [];
      filtered := [];
      search := "";
    }

    /** The loading effect, then the search effect on the new products. */
    method Load(fetch: ProductsFetch)
      requires Valid()
      modifies this
      ensures Valid() && search == old(search)
      ensures fetch.Responded? && fetch.success && fetch.data.Some? ==> products == fetch.data.value
      ensures !(fetch.Responded? && fetch.success && fetch.data.Some?) ==>
        products == old(products) && filtered == old(filtered)
      ensures search == "" ==> filtered == products
    {
      if fetch.Responded? && fetch.success && fetch.data.Some? {
        products := fetch.data.value;
        filtered := fetch.data.value;
        SearchEffect();
      }
      if search == "" {
        EmptySearchKeepsAll(products);
      }
    }

    method SetSearch(text: string)
      modifies this
      ensures search == text && products == old(products) && Valid()
    {
      search := text;
      SearchEffect();
    }

    /** The effect on `[search, products]`. */
    method SearchEffect()
      modifies this
      ensures products == old(products) && search == old(search) && Valid()
    {
      var term := ToLower(search);
      filtered := Arrays.Filter(products, MatchTest(term));
    }
  }
}
