/**
  The product detail page (src/pages/ProductDetailPage.tsx): a lookup of one product by
  slug, rerun whenever the slug changes, and a strip of thumbnails that picks the hero image.
 */
module ProductDetail {
  import opened Wrappers
  import opened Records

  /** The page's `useState` values. */
  datatype DetailState = DetailState(product: Option<Product>, selectedImage: string, loading: bool)

  /** The state when the page mounts. */
  const InitialDetail: DetailState := DetailState(None, "", true)

  /** `product.gallery_images || []`. */
  function GalleryOrEmpty(p: Product): seq<string> {
    if p.galleryImages.Some? then p.galleryImages.value else []
  }

  /** `allImages`: the main image, then the gallery in order. */
  function AllImages(p: Product): (r: seq<string>)
    ensures |r| >= 1 && r[0] == p.imageUrl
    ensures |r| == 1 + |GalleryOrEmpty(p)|
    ensures forall i :: 0 <= i < |GalleryOrEmpty(p)| ==> r[i + 1] == GalleryOrEmpty(p)[i]
  {
    [p.imageUrl] + GalleryOrEmpty(p)
  }

  /** The thumbnail strip is drawn (`allImages.length > 1`) iff the product has a non-empty gallery. */
  predicate ShowsThumbnails(p: Product)
    ensures ShowsThumbnails(p) <==> p.galleryImages.Some? && |p.galleryImages.value| > 0
  {
    |AllImages(p)| > 1
  }

  /** `selectedImage === image`: the thumbnail of `image` is highlighted. */
  predicate ThumbnailHighlighted(s: DetailState, image: string) {
    s.selectedImage == image
  }

  /** "Product not found" is on screen. */
  predicate ShowsNotFound(s: DetailState) {
    !s.loading && s.product.None?
  }

  /** The start of `loadProduct`, run on mount and whenever the slug changes. */
  function Reloading(s: DetailState): DetailState {
    s.(loading := true)
  }

  /** The rest of `loadProduct`, once the lookup result `data` has arrived. */
  function Loaded(s: DetailState, data: Option<Product>): DetailState {
    match data
    case None => s.(loading := false)
    case Some(p) => DetailState(Some(p), p.imageUrl, false)
  }

  /** A thumbnail: `setSelectedImage(image)`. */
  function Selected(s: DetailState, image: string): DetailState {
    s.(selectedImage := image)
  }

  /** The hero image is always one of the product's images. */
  predicate Consistent(s: DetailState) {
    s.product.Some? ==> s.selectedImage in AllImages(s.product.value)
  }

  /** A slug change only raises the spinner. */
  lemma ReloadingEffect(s: DetailState)
    ensures var t := Reloading(s);
      t.loading && t.product == s.product && t.selectedImage == s.selectedImage
    ensures Consistent(s) ==> Consistent(Reloading(s))
  {
  }

  /** A found product is shown with its main image as hero; a miss changes nothing but the spinner. */
  lemma LoadedEffect(s: DetailState, data: Option<Product>)
    ensures !Loaded(s, data).loading
    ensures data.Some? ==> Loaded(s, data).product == data && Loaded(s, data).selectedImage == data.value.imageUrl
    ensures data.None? ==> Loaded(s, data).product == s.product && Loaded(s, data).selectedImage == s.selectedImage
    ensures Consistent(s) ==> Consistent(Loaded(s, data))
  {
  }

  /** After a found product the first thumbnail is the highlighted one. */
  lemma LoadedHighlightsMainImage(s: DetailState, p: Product)
    ensures ThumbnailHighlighted(Loaded(s, Some(p)), AllImages(p)[0])
  {
  }

  /** A miss after a hit leaves the earlier product on screen rather than "Product not found". */
  lemma MissAfterHitKeepsProduct(s: DetailState, p: Product)
    ensures var t := Loaded(Reloading(Loaded(s, Some(p))), None);
      t.product == Some(p) && !ShowsNotFound(t)
  {
  }

  /** A miss from the mounted state shows "Product not found". */
  lemma MissOnMountShowsNotFound()
    ensures ShowsNotFound(Loaded(InitialDetail, None))
  {
  }

  /** A thumbnail click changes only the hero image, keeps it among the images, and is idempotent. */
  lemma SelectedEffect(s: DetailState, i: nat)
    requires s.product.Some? && i < |AllImages(s.product.value)|
    ensures var t := Selected(s, AllImages(s.product.value)[i]);
      && t.product == s.product && t.loading == s.loading
      && Consistent(t)
      && Selected(t, AllImages(s.product.value)[i]) == t
  {
  }

  /** The page component with its state held in fields. */
  class ProductDetailPage {
    var product: Option<Product>
    var selectedImage: string
    var loading: bool

    function State(): DetailState
      reads this
    {
      DetailState(product, selectedImage, loading)
    }

    predicate Valid()
      reads this
    {
      Consistent(State())
    }

    constructor ()
      ensures State() == InitialDetail && Valid()
    {
      product := None;
      selectedImage := "";
      loading := true;
    }

    /** `setLoading(true)` at the start of `loadProduct`, before the lookup is awaited. */
    method BeginLoad()
      requires Valid()
      modifies this`loading
      ensures State() == Reloading(old(State()))
      ensures Valid()
    {
      loading := true;
    }

    /** The remainder of `loadProduct` with the lookup result. */
    method CompleteLoad(data: Option<Product>)
      requires Valid()
      modifies this
      ensures State() == Loaded(old(State()), data)
      ensures Valid()
    {
      if data.Some? {
        product := data;
        selectedImage := data.value.imageUrl;
      }
      loading := false;
    }

    /** The thumbnail at position `i` of `allImages`. */
    method ClickThumbnail(i: nat)
      requires Valid() && product.Some? && i < |AllImages(product.value)|
      modifies this`selectedImage
      ensures State() == Selected(old(State()), AllImages(product.value)[i])
      ensures Valid()
    {
      selectedImage := AllImages(product.value)[i];
    }
  }
}
