# Page-state model of the AlumiFab marketing site

This project models the small layer of logic in the site that is more than static markup.
It covers four things:

- the product catalogue page: its category filter and its four pieces of state;
- the kitchen-design gallery: a load/select state machine;
- the product detail page: a load/select state machine and its image list;
- the nav bar: its one `activeSection` variable.

Database query results are inputs. A list query is an `Option<seq<T>>`, where `None` is the
`null` data of a failed query. The single-row lookup is an `Option<Product>`.

Each page is modelled twice, on purpose:

- a datatype snapshot of its `useState` values, with pure transition functions; these are the
  reference definitions, and the lemmas are stated about them;
- a class holding the same values as fields, whose methods are proved to move the snapshot
  exactly as the transition function says (`State() == F(old(State()), ...)`); the
  gallery, detail page and nav bar classes also keep a `Valid()` invariant.

Modules: `Wrappers` (Option), `Records` (row shapes from `src/lib/supabase.ts`),
`Catalogue` (`src/pages/ProductsPage.tsx`), `KitchenGallery` (`src/pages/KitchenDesignsPage.tsx`),
`ProductDetail` (`src/pages/ProductDetailPage.tsx`), `Navigation` (`src/App.tsx`).

Two behaviours of the code are stated as lemmas rather than treated as defects:

- a category whose slug is the literal `"all"` cannot be filtered on, because its button selects the "no filter" value (`Catalogue.AllSlugSelectsEverything`);
- on the detail page, a lookup miss after a hit keeps the earlier product on screen instead of "Product not found" (`ProductDetail.MissAfterHitKeepsProduct`).

## Model

| member | source | states |
|---|---|---|
| `Catalogue.FindCategory` | src/pages/ProductsPage.tsx:43 | the result is the category at the first position whose id matches; it is absent iff no category has that id |
| `Catalogue.KeepInCategory` | src/pages/ProductsPage.tsx:42-45 | every kept product comes from the list and its resolved category has the selected slug; the list never grows |
| `Catalogue.FilteredAllIsIdentity` | src/pages/ProductsPage.tsx:40-41 | under `'all'` the filtered list is `products` exactly |
| `Catalogue.KeepInCategoryIsSubsequence` | src/pages/ProductsPage.tsx:42-45 | the category filter deletes products and keeps the rest in their order |
| `Catalogue.FilteredIsSubsequence` | src/pages/ProductsPage.tsx:40-45 | under any selection the filtered list is an order-preserving subsequence of `products` |
| `Catalogue.KeepInCategoryCounts` | src/pages/ProductsPage.tsx:42-45 | each product occurs in the result as often as in the input if its resolved slug matches, otherwise never |
| `Catalogue.FilteredCounts` | src/pages/ProductsPage.tsx:40-45 | the same multiplicity law for `filteredProducts` under a category selection |
| `Catalogue.FilteredMembership` | src/pages/ProductsPage.tsx:42-45 | under a category selection a product is listed iff it is loaded and its first id-matching category has that slug (sound and complete) |
| `Catalogue.OrphanOnlyUnderAll` | src/pages/ProductsPage.tsx:43-44 | a product whose category id matches no category is listed only when the selection is `'all'` |
| `Catalogue.PrependInSortOrder` | src/pages/ProductsPage.tsx:31 | putting a product with the least `sort_order` in front of a sorted list keeps it sorted |
| `Catalogue.SplitInSortOrder` | src/pages/ProductsPage.tsx:31 | the tail of a list sorted by `sort_order` is sorted and no earlier than its head |
| `Catalogue.KeepInCategoryInSortOrder` | src/pages/ProductsPage.tsx:42-45 | the category filter keeps the database's `sort_order` ordering |
| `Catalogue.FilteredInSortOrder` | src/pages/ProductsPage.tsx:40-45 | products loaded in `sort_order` are still in `sort_order` after filtering |
| `Catalogue.AllSlugSelectsEverything` | src/pages/ProductsPage.tsx:79 | the button of a category whose slug is `"all"` shows every product |
| `Catalogue.DoorsExample` | src/pages/ProductsPage.tsx:40-45 | with one category "doors" (id 1), a product of category 99 is dropped and the product of category 1 is kept |
| `Catalogue.InitialSelection` | src/pages/ProductsPage.tsx:13 | the initial selection is never empty: it is the prop when that is present and non-empty, otherwise `'all'` |
| `Catalogue.SlugChangedEffect` | src/pages/ProductsPage.tsx:20-24 | a truthy slug prop becomes the selection; an absent or empty one changes nothing; neither touches products, categories or loading |
| `Catalogue.LoadedEffect` | src/pages/ProductsPage.tsx:26-38 | after the load `loading` is false, each list is replaced iff its own result is non-null, and the selection is kept |
| `Catalogue.SelectedEffect` | src/pages/ProductsPage.tsx:67 | a filter button sets only the selection, and pressing it again changes nothing |
| `Catalogue.NoProductsMessage` | src/pages/ProductsPage.tsx:91 | the "no products" message shows iff no loaded product passes the filter (never under `'all'` with products loaded) |
| `Catalogue.ProductsPage.constructor` | src/pages/ProductsPage.tsx:11-14 | the mounted page has no products, no categories, the initial selection and the spinner up |
| `Catalogue.ProductsPage.CategorySlugChanged` | src/pages/ProductsPage.tsx:20-24 | the effect writes only `selectedCategory`, as `SlugChanged` says |
| `Catalogue.ProductsPage.LoadData` | src/pages/ProductsPage.tsx:26-38 | the joined load moves the state as `Loaded` says |
| `Catalogue.ProductsPage.ClickAll` | src/pages/ProductsPage.tsx:67 | the "All Products" button writes only `selectedCategory := 'all'` |
| `Catalogue.ProductsPage.ClickCategory` | src/pages/ProductsPage.tsx:79 | a category button writes only `selectedCategory := slug` |
| `KitchenGallery.LoadedNonEmpty` | src/pages/KitchenDesignsPage.tsx:26-30 | non-null non-empty data becomes `designs` and its first row the selection |
| `KitchenGallery.LoadedEmpty` | src/pages/KitchenDesignsPage.tsx:26-28 | non-null empty data empties `designs` and keeps the selection |
| `KitchenGallery.LoadedNull` | src/pages/KitchenDesignsPage.tsx:26 | null data leaves everything but `loading` unchanged |
| `KitchenGallery.LoadedConsistent` | src/pages/KitchenDesignsPage.tsx:18-34 | from the mounted state any load ends with `loading` false and a selection present iff designs exist, and among them |
| `KitchenGallery.LoadedSelectsLeastSortOrder` | src/pages/KitchenDesignsPage.tsx:21-30 | with rows in `sort_order`, the initial selection has the least `sort_order` |
| `KitchenGallery.SelectedEffect` | src/pages/KitchenDesignsPage.tsx:72 | a click changes only the selection, is idempotent, and keeps the page consistent when the design is listed |
| `KitchenGallery.SelectedHighlight` | src/pages/KitchenDesignsPage.tsx:74 | after selecting `d`, a button is highlighted iff its id is `d`'s id |
| `KitchenGallery.EmptyMessageOrDetail` | src/pages/KitchenDesignsPage.tsx:62-84 | once loaded, "no designs" shows iff `designs` is empty, and exactly one of it and the detail panel shows |
| `KitchenGallery.KitchenDesignsPage.constructor` | src/pages/KitchenDesignsPage.tsx:10-12 | the mounted page has no designs, no selection and the spinner up |
| `KitchenGallery.KitchenDesignsPage.LoadDesigns` | src/pages/KitchenDesignsPage.tsx:18-34 | the one load moves the state as `Loaded` says and keeps the invariant |
| `KitchenGallery.KitchenDesignsPage.ClickDesign` | src/pages/KitchenDesignsPage.tsx:72 | a design button writes only `selectedDesign` and keeps the invariant |
| `ProductDetail.AllImages` | src/pages/ProductDetailPage.tsx:60 | the image list has at least one entry, starts with the main image and continues with the gallery (or nothing) in order |
| `ProductDetail.ShowsThumbnails` | src/pages/ProductDetailPage.tsx:83 | the thumbnail strip shows iff the product has a non-null, non-empty gallery |
| `ProductDetail.ReloadingEffect` | src/pages/ProductDetailPage.tsx:15-20 | a slug change raises `loading` and leaves product and hero image alone |
| `ProductDetail.LoadedEffect` | src/pages/ProductDetailPage.tsx:28-33 | `loading` ends false; a found product is shown with its main image; a miss keeps the previous product and image |
| `ProductDetail.LoadedHighlightsMainImage` | src/pages/ProductDetailPage.tsx:30 | after a found product the first thumbnail is the highlighted one |
| `ProductDetail.MissAfterHitKeepsProduct` | src/pages/ProductDetailPage.tsx:28-44 | a miss after a hit keeps the earlier product and does not show "Product not found" |
| `ProductDetail.MissOnMountShowsNotFound` | src/pages/ProductDetailPage.tsx:36-44 | a miss on the first load shows "Product not found" rather than failing |
| `ProductDetail.SelectedEffect` | src/pages/ProductDetailPage.tsx:88 | a thumbnail click sets the hero to one of `allImages`, changes nothing else and is idempotent |
| `ProductDetail.ProductDetailPage.constructor` | src/pages/ProductDetailPage.tsx:11-13 | the mounted page has no product, an empty hero image and the spinner up |
| `ProductDetail.ProductDetailPage.BeginLoad` | src/pages/ProductDetailPage.tsx:19-20 | the start of a load writes only `loading := true` |
| `ProductDetail.ProductDetailPage.CompleteLoad` | src/pages/ProductDetailPage.tsx:22-33 | the rest of a load moves the state as `Loaded` says and keeps the hero among the images |
| `ProductDetail.ProductDetailPage.ClickThumbnail` | src/pages/ProductDetailPage.tsx:88 | a thumbnail writes only `selectedImage` |
| `Navigation.LowerChar` | src/App.tsx:26 | an upper-case ASCII letter maps to its lower-case letter; any other character is kept |
| `Navigation.ToLower` | src/App.tsx:26 | lower-casing keeps the length and lower-cases each character |
| `Navigation.LowersTo` | src/App.tsx:26 | a string lower-cases to another when they agree character by character |
| `Navigation.SectionsOfButtons` | src/App.tsx:23-26 | the four buttons store "home", "products", "about" and "contact" |
| `Navigation.ClickStaysInSections` | src/App.tsx:23-26 | every click leaves `activeSection` among those four names |
| `Navigation.SomeButtonHighlighted` | src/App.tsx:27-28 | each of the four names highlights some button |
| `Navigation.ButtonsStoreDistinctSections` | src/App.tsx:23-26 | no two buttons store the same name |
| `Navigation.ExactlyOneHighlighted` | src/App.tsx:27-28 | while `activeSection` is one of the four names, exactly one button is highlighted |
| `Navigation.ClickHighlightsClicked` | src/App.tsx:26-28 | after clicking button `i`, button `j` is highlighted iff `j == i` |
| `Navigation.RenderedSections` | src/App.tsx:41-45 | all five sections are rendered, whatever `activeSection` holds |
| `Navigation.App.constructor` | src/App.tsx:9 | `activeSection` starts as "home" |
| `Navigation.App.ClickNav` | src/App.tsx:26 | a click stores the lower-cased label, whatever was there, so a second click on the same button changes nothing |

## Left out

- The backend client, its configuration check and the query builders (`src/lib/supabase.ts:3-10`) are foreign library calls. Each query result is an input value.
- The `name` ordering of categories is done by the database and no logic depends on it. It is not modelled.
- The `sort_order` ordering of products and designs is also the database's. It appears only as a hypothesis of the sort-order lemmas.
- The `error` field of query results is ignored by the code. It is not modelled, so a failed query and a missing row look the same.
- Asynchrony is not modelled. Each load is one atomic step; on the products page that step receives both joined results. A result that arrives after the page is gone, or out of order, is not modelled.
- `ProductDetail.ProductDetailPage.CompleteLoad` does not check that the row found has the requested slug; the lookup by slug is the database's.
- JSX, CSS classes, icons and images are left out. So are the static components (`Hero`, `About`, `Footer`, `ProductShowcase`, and `Contact`, whose form has no submit handler).
- `Navigation.ToLower` covers only ASCII letters, unlike JavaScript's full Unicode `toLowerCase`; the four labels are ASCII.
- Display-only columns (descriptions, features, specifications, price range, featured flag, timestamps) are not part of the row shapes.
- `Catalogue.ProductsPage.LoadData` runs whenever called. The code runs it once, from the mount effect, and no invariant of the catalogue page depends on that.
- `KitchenGallery.KitchenDesignsPage.LoadDesigns` requires `loading`. The code runs it once, from the mount effect, while the initial spinner is still up; this keeps the gallery's invariant.
- The page classes do not receive `onBack` or `onProductClick`. Those callbacks belong to a parent that mounts the pages, and no such parent is part of this model.
