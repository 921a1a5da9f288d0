/**
  The product catalogue page (src/pages/ProductsPage.tsx): the category filter over the
  loaded products and the page's four pieces of state.
 */
module Catalogue {
  import opened Wrappers
  import opened Records

  /** The selection value that stands for "no filter". */
  const AllCategories: string := "all"

  // ---------------------------------------------------------------------------
  // The filter
  // ---------------------------------------------------------------------------

  /** Position `k` holds the first category whose id is `id`. */
  predicate IsFirstMatch(categories: seq<Category>, id: string, k: int) {
    0 <= k < |categories| && categories[k].id == id &&
    forall j :: 0 <= j < k ==> categories[j].id != id
  }

  /** `categories.find(c => c.id === id)`: the first category carrying `id`, if any. */
  function FindCategory(categories: seq<Category>, id: string): (r: Option<Category>)
    ensures r.Some? ==> r.value in categories && r.value.id == id
    ensures r.Some? ==> exists k :: IsFirstMatch(categories, id, k) && categories[k] == r.value
    ensures r.None? <==> forall c :: c in categories ==> c.id != id
  {
    if categories == [] then None
    else if categories[0].id == id then
      assert IsFirstMatch(categories, id, 0);
      Some(categories[0])
    else
      var r := FindCategory(categories[1..], id);
      assert r.Some? ==> exists k :: IsFirstMatch(categories, id, k) && categories[k] == r.value by {
        if r.Some? {
          var k :| IsFirstMatch(categories[1..], id, k) && categories[1..][k] == r.value;
          assert IsFirstMatch(categories, id, k + 1);
        }
      }
      assert forall c :: c in categories ==> c == categories[0] || c in categories[1..];
      r
  }

  /** `category?.slug === selectedCategory`: the product's resolved category has that slug. */
  predicate InCategory(p: Product, categories: seq<Category>, selected: string) {
    var c := FindCategory(categories, p.categoryId);
    c.Some? && c.value.slug == selected
  }

  /** `products.filter(p => ...)`: the products whose resolved category slug is `selected`. */
  function KeepInCategory(products: seq<Product>, categories: seq<Category>, selected: string): (r: seq<Product>)
    ensures |r| <= |products|
    ensures forall p :: p in r ==> p in products && InCategory(p, categories, selected)
  {
    if products == [] then []
    else
      var rest := KeepInCategory(products[1..], categories, selected);
      if InCategory(products[0], categories, selected) then [products[0]] + rest else rest
  }

  /** `filteredProducts`: every product under "all", otherwise those of the selected category. */
  function FilteredProducts(products: seq<Product>, categories: seq<Category>, selected: string): seq<Product> {
    if selected == AllCategories then products else KeepInCategory(products, categories, selected)
  }

  /** `xs` is obtained from `ys` by deleting elements, keeping the order of the rest. */
  predicate IsSubsequence<T(==)>(xs: seq<T>, ys: seq<T>)
    decreases |ys|
  {
    if xs == [] then true
    else if ys == [] then false
    else (xs[0] == ys[0] && IsSubsequence(xs[1..], ys[1..])) || IsSubsequence(xs, ys[1..])
  }

  lemma {:induction false} SubsequenceReflexive<T>(xs: seq<T>)
    ensures IsSubsequence(xs, xs)
  {
    if xs != [] {
      SubsequenceReflexive(xs[1..]);
    }
  }

  /** Under "all" the filter is the identity. */
  lemma FilteredAllIsIdentity(products: seq<Product>, categories: seq<Category>)
    ensures FilteredProducts(products, categories, AllCategories) == products
  {
  }

  lemma {:induction false} KeepInCategoryIsSubsequence(products: seq<Product>, categories: seq<Category>, selected: string)
    ensures IsSubsequence(KeepInCategory(products, categories, selected), products)
  {
    if products != [] {
      KeepInCategoryIsSubsequence(products[1..], categories, selected);
    }
  }

  /** The filtered list keeps the products in their loaded order. */
  lemma FilteredIsSubsequence(products: seq<Product>, categories: seq<Category>, selected: string)
    ensures IsSubsequence(FilteredProducts(products, categories, selected), products)
  {
    if selected == AllCategories {
      SubsequenceReflexive(products);
    } else {
      KeepInCategoryIsSubsequence(products, categories, selected);
    }
  }

  lemma {:induction false} KeepInCategoryCounts(products: seq<Product>, categories: seq<Category>, selected: string, p: Product)
    ensures multiset(KeepInCategory(products, categories, selected))[p] ==
            if InCategory(p, categories, selected) then multiset(products)[p] else 0
  {
    if products != [] {
      KeepInCategoryCounts(products[1..], categories, selected, p);
      assert products == [products[0]] + products[1..];
    }
  }

  /**
    Under a category selection each product occurs in the filtered list exactly as often as
    in `products` when its resolved slug is the selection, and not at all otherwise.
   */
  lemma FilteredCounts(products: seq<Product>, categories: seq<Category>, selected: string, p: Product)
    requires selected != AllCategories
    ensures multiset(FilteredProducts(products, categories, selected))[p] ==
            if InCategory(p, categories, selected) then multiset(products)[p] else 0
  {
    KeepInCategoryCounts(products, categories, selected, p);
  }

  /** Soundness and completeness of a category selection. */
  lemma FilteredMembership(products: seq<Product>, categories: seq<Category>, selected: string)
    requires selected != AllCategories
    ensures forall p :: p in FilteredProducts(products, categories, selected) <==>
                        p in products && InCategory(p, categories, selected)
  {
    forall p ensures p in FilteredProducts(products, categories, selected) <==>
                     p in products && InCategory(p, categories, selected) {
      FilteredCounts(products, categories, selected, p);
    }
  }

  /** A product whose category id matches no category is listed only under "all". */
  lemma OrphanOnlyUnderAll(products: seq<Product>, categories: seq<Category>, selected: string, p: Product)
    requires forall c :: c in categories ==> c.id != p.categoryId
    requires p in FilteredProducts(products, categories, selected)
    ensures selected == AllCategories
  {
    if selected != AllCategories {
      FilteredMembership(products, categories, selected);
    }
  }

  /** Putting a product no later than all of a sorted list in front keeps it sorted. */
  lemma PrependInSortOrder(p: Product, ps: seq<Product>)
    requires ProductsInSortOrder(ps)
    requires forall q :: q in ps ==> p.sortOrder <= q.sortOrder
    ensures ProductsInSortOrder([p] + ps)
  {
    var r := [p] + ps;
    forall i, j | 0 <= i < j < |r| ensures r[i].sortOrder <= r[j].sortOrder {
      assert r[j] == ps[j - 1];
      if i > 0 {
        assert r[i] == ps[i - 1];
      }
    }
  }

  /** The first product of a sorted list is no later than any of the rest, which stay sorted. */
  lemma SplitInSortOrder(ps: seq<Product>)
    requires ProductsInSortOrder(ps) && ps != []
    ensures ProductsInSortOrder(ps[1..])
    ensures forall q :: q in ps[1..] ==> ps[0].sortOrder <= q.sortOrder
  {
    var tail := ps[1..];
    forall i, j | 0 <= i < j < |tail| ensures tail[i].sortOrder <= tail[j].sortOrder {
      assert tail[i] == ps[i + 1] && tail[j] == ps[j + 1];
    }
    forall q | q in tail ensures ps[0].sortOrder <= q.sortOrder {
      var k :| 0 <= k < |tail| && tail[k] == q;
      assert ps[k + 1] == q;
    }
  }

  lemma {:induction false} KeepInCategoryInSortOrder(products: seq<Product>, categories: seq<Category>, selected: string)
    requires ProductsInSortOrder(products)
    ensures ProductsInSortOrder(KeepInCategory(products, categories, selected))
  {
    if products != [] {
      SplitInSortOrder(products);
      KeepInCategoryInSortOrder(products[1..], categories, selected);
      var rest := KeepInCategory(products[1..], categories, selected);
      if InCategory(products[0], categories, selected) {
        PrependInSortOrder(products[0], rest);
      }
    }
  }

  /** The database's `sort_order` ordering survives the filter. */
  lemma FilteredInSortOrder(products: seq<Product>, categories: seq<Category>, selected: string)
    requires ProductsInSortOrder(products)
    ensures ProductsInSortOrder(FilteredProducts(products, categories, selected))
  {
    if selected != AllCategories {
      KeepInCategoryInSortOrder(products, categories, selected);
    }
  }

  /**
    A category whose slug is the literal "all" cannot be filtered on: its button selects
    every product, orphans included.
   */
  lemma AllSlugSelectsEverything(products: seq<Product>, categories: seq<Category>, c: Category)
    requires c in categories && c.slug == AllCategories
    ensures FilteredProducts(products, categories, c.slug) == products
  {
  }

  /** The worked example: a product pointing at a missing category is dropped. */
  lemma DoorsExample()
    ensures
      var doors := Category("1", "Doors", "doors");
      var p1 := Product("10", "1", "P1", "p1", "p1.jpg", None, 0);
      var p2 := Product("11", "99", "P2", "p2", "p2.jpg", None, 1);
      FilteredProducts([p1, p2], [doors], "doors") == [p1]
  {
    var doors := Category("1", "Doors", "doors");
    var p1 := Product("10", "1", "P1", "p1", "p1.jpg", None, 0);
    var p2 := Product("11", "99", "P2", "p2", "p2.jpg", None, 1);
    assert FindCategory([doors], "99") == None;
    assert [p1, p2][1..] == [p2];
  }

  // ---------------------------------------------------------------------------
  // Page state
  // ---------------------------------------------------------------------------

  /** The page's `useState` values. */
  datatype CatalogueState = CatalogueState(
    products: seq<Product>,
    categories: seq<Category>,
    selectedCategory: string,
    loading: bool)

  /** JavaScript truthiness of an optional string prop: present and non-empty. */
  predicate Truthy(s: Option<string>) {
    s.Some? && s.value != ""
  }

  /** `categorySlug || 'all'`. */
  function InitialSelection(categorySlug: Option<string>): (r: string)
    ensures r != ""
    ensures Truthy(categorySlug) ==> r == categorySlug.value
    ensures !Truthy(categorySlug) ==> r == AllCategories
  {
    if Truthy(categorySlug) then categorySlug.value else AllCategories
  }

  /** The state when the page mounts. */
  function Initial(categorySlug: Option<string>): CatalogueState {
    CatalogueState([], [], InitialSelection(categorySlug), true)
  }

  /** The `[categorySlug]` effect. */
  function SlugChanged(s: CatalogueState, categorySlug: Option<string>): CatalogueState {
    if Truthy(categorySlug) then s.(selectedCategory := categorySlug.value) else s
  }

  /** `loadData` once both query results have arrived. */
  function Loaded(s: CatalogueState, categoriesResult: Option<seq<Category>>, productsResult: Option<seq<Product>>): CatalogueState {
    s.(categories := if categoriesResult.Some? then categoriesResult.value else s.categories,
       products := if productsResult.Some? then productsResult.value else s.products,
       loading := false)
  }

  /** A filter button: `setSelectedCategory(...)`. */
  function Selected(s: CatalogueState, selection: string): CatalogueState {
    s.(selectedCategory := selection)
  }

  /** A truthy slug prop selects it; any other value leaves the state as it was. Neither reloads. */
  lemma SlugChangedEffect(s: CatalogueState, categorySlug: Option<string>)
    ensures var t := SlugChanged(s, categorySlug);
      && t.products == s.products && t.categories == s.categories && t.loading == s.loading
      && (Truthy(categorySlug) ==> t.selectedCategory == categorySlug.value)
      && (!Truthy(categorySlug) ==> t == s)
  {
  }

  /** After a load the spinner is gone and each list is replaced only by non-null data. */
  lemma LoadedEffect(s: CatalogueState, categoriesResult: Option<seq<Category>>, productsResult: Option<seq<Product>>)
    ensures var t := Loaded(s, categoriesResult, productsResult);
      && !t.loading
      && t.selectedCategory == s.selectedCategory
      && (categoriesResult.Some? ==> t.categories == categoriesResult.value)
      && (categoriesResult.None? ==> t.categories == s.categories)
      && (productsResult.Some? ==> t.products == productsResult.value)
      && (productsResult.None? ==> t.products == s.products)
  {
  }

  /** A filter button changes only the selection, and pressing it again changes nothing. */
  lemma SelectedEffect(s: CatalogueState, selection: string)
    ensures var t := Selected(s, selection);
      && t.selectedCategory == selection
      && t.products == s.products && t.categories == s.categories && t.loading == s.loading
      && Selected(t, selection) == t
  {
  }

  /** The "No products found" message (shown once loaded) appears iff no product passes the filter. */
  lemma NoProductsMessage(s: CatalogueState)
    ensures |FilteredProducts(s.products, s.categories, s.selectedCategory)| == 0 <==>
            forall p :: p in s.products ==> s.selectedCategory != AllCategories && !InCategory(p, s.categories, s.selectedCategory)
  {
    if s.selectedCategory != AllCategories {
      FilteredMembership(s.products, s.categories, s.selectedCategory);
      var r := FilteredProducts(s.products, s.categories, s.selectedCategory);
      if |r| != 0 {
        assert r[0] in r;
      }
    } else if |s.products| != 0 {
      assert s.products[0] in s.products;
    }
  }

  /** The page component with its state held in fields. */
  class ProductsPage {
    var products: seq<Product>
    var categories: seq<Category>
    var selectedCategory: string
    var loading: bool

    function State(): CatalogueState
      reads this
    {
      CatalogueState(products, categories, selectedCategory, loading)
    }

    /** Mounting the page with its `categorySlug` prop. */
    constructor (categorySlug: Option<string>)
      ensures State() == Initial(categorySlug)
    {
      products := [];
      categories := [];
      selectedCategory := InitialSelection(categorySlug);
      loading := true;
    }

    /** The `[categorySlug]` effect; it writes only the selection. */
    method CategorySlugChanged(categorySlug: Option<string>)
      modifies this`selectedCategory
      ensures State() == SlugChanged(old(State()), categorySlug)
    {
      if Truthy(categorySlug) {
        selectedCategory := categorySlug.value;
      }
    }

    /** `loadData`, taking the two joined query results as one step. */
    method LoadData(categoriesResult: Option<seq<Category>>, productsResult: Option<seq<Product>>)
      modifies this
      ensures State() == Loaded(old(State()), categoriesResult, productsResult)
    {
      loading := true;
      if categoriesResult.Some? {
        categories := categoriesResult.value;
      }
      if productsResult.Some? {
        products := productsResult.value;
      }
      loading := false;
    }

    /** The "All Products" button. */
    method ClickAll()
      modifies this`selectedCategory
      ensures State() == Selected(old(State()), AllCategories)
    {
      selectedCategory := AllCategories;
    }

    /** The button of one loaded category. */
    method ClickCategory(c: Category)
      requires c in categories
      modifies this`selectedCategory
      ensures State() == Selected(old(State()), c.slug)
    {
      selectedCategory := c.slug;
    }

    /** The products on screen. */
    function Visible(): seq<Product>
      reads this
    {
      FilteredProducts(products, categories, selectedCategory)
    }

    /** The "All Products" button is highlighted. */
    predicate AllHighlighted()
      reads this
    {
      selectedCategory == AllCategories
    }

    /** The button of `c` is highlighted. */
    predicate CategoryHighlighted(c: Category)
      reads this
    {
      selectedCategory == c.slug
    }
  }
}
