/**
  Row shapes of the three tables the pages read (src/lib/supabase.ts).
  Only the columns the page logic looks at are kept; the rest are display text.
 */
module Records {
  import opened Wrappers

  /** A row of the categories table. */
  datatype Category = Category(id: string, name: string, slug: string)

  /**
    A row of the products table. `galleryImages` is optional because the detail page
    guards it with `|| []`.
   */
  datatype Product = Product(
    id: string,
    categoryId: string,
    name: string,
    slug: string,
    imageUrl: string,
    galleryImages: Option<seq<string>>,
    sortOrder: int)

  /** A row of the kitchen-designs table. */
  datatype KitchenDesign = KitchenDesign(id: string, name: string, slug: string, imageUrl: string, sortOrder: int)

  /** The order the database returns products in: ascending `sort_order`. */
  predicate ProductsInSortOrder(ps: seq<Product>) {
    forall i, j :: 0 <= i < j < |ps| ==> ps[i].sortOrder <= ps[j].sortOrder
  }

  /** The order the database returns kitchen designs in: ascending `sort_order`. */
  predicate DesignsInSortOrder(ds: seq<KitchenDesign>) {
    forall i, j :: 0 <= i < j < |ds| ==> ds[i].sortOrder <= ds[j].sortOrder
  }
}
