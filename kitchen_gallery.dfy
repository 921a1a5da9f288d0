/**
  The kitchen-design gallery (src/pages/KitchenDesignsPage.tsx): one load of all designs
  on mount, then a row of buttons that pick the design shown in detail.
 */
module KitchenGallery {
  import opened Wrappers
  import opened Records

  /** The page's `useState` values. */
  datatype GalleryState = GalleryState(designs: seq<KitchenDesign>, selectedDesign: Option<KitchenDesign>, loading: bool)

  /** The state when the page mounts. */
  const InitialGallery: GalleryState := GalleryState([], None, true)

  /** `loadDesigns` once the query result `data` has arrived. */
  function Loaded(s: GalleryState, data: Option<seq<KitchenDesign>>): GalleryState {
    match data
    case None => s.(loading := false)
    case Some(rows) =>
      s.(designs := rows,
         selectedDesign := if |rows| > 0 then Some(rows[0]) else s.selectedDesign,
         loading := false)
  }

  /** A design button: `setSelectedDesign(design)`. */
  function Selected(s: GalleryState, d: KitchenDesign): GalleryState {
    s.(selectedDesign := Some(d))
  }

  /** `selectedDesign?.id === design.id`: the button of `d` is highlighted. */
  predicate Highlighted(s: GalleryState, d: KitchenDesign) {
    s.selectedDesign.Some? && s.selectedDesign.value.id == d.id
  }

  /** "No kitchen designs available." is on screen. */
  predicate ShowsEmptyMessage(s: GalleryState) {
    !s.loading && |s.designs| == 0
  }

  /** The detail panel of the selected design is on screen. */
  predicate ShowsDetail(s: GalleryState) {
    !s.loading && |s.designs| > 0 && s.selectedDesign.Some?
  }

  /**
    What the page keeps true: nothing is fetched yet while loading, and afterwards a design
    is selected exactly when there are designs, and it is one of them.
   */
  predicate Consistent(s: GalleryState) {
    && (s.loading ==> s.designs == [] && s.selectedDesign.None?)
    && (s.selectedDesign.Some? <==> |s.designs| > 0)
    && (s.selectedDesign.Some? ==> s.selectedDesign.value in s.designs)
  }

  /** Non-null, non-empty data replaces the list and selects its first row. */
  lemma LoadedNonEmpty(s: GalleryState, rows: seq<KitchenDesign>)
    requires |rows| > 0
    ensures var t := Loaded(s, Some(rows));
      t.designs == rows && t.selectedDesign == Some(rows[0]) && !t.loading
  {
  }

  /** Non-null empty data empties the list but keeps whatever was selected. */
  lemma LoadedEmpty(s: GalleryState)
    ensures var t := Loaded(s, Some([]));
      t.designs == [] && t.selectedDesign == s.selectedDesign && !t.loading
  {
  }

  /** Null data changes nothing but the spinner. */
  lemma LoadedNull(s: GalleryState)
    ensures Loaded(s, None) == s.(loading := false)
  {
  }

  /** The load from the mounted state keeps the page consistent, whatever the data. */
  lemma LoadedConsistent(s: GalleryState, data: Option<seq<KitchenDesign>>)
    requires Consistent(s) && s.loading
    ensures Consistent(Loaded(s, data))
    ensures !Loaded(s, data).loading
  {
    if data.Some? && |data.value| > 0 {
      assert data.value[0] in data.value;
    }
  }

  /** With rows in the database's order, the initial selection has the least `sort_order`. */
  lemma LoadedSelectsLeastSortOrder(s: GalleryState, rows: seq<KitchenDesign>)
    requires DesignsInSortOrder(rows) && |rows| > 0
    ensures var t := Loaded(s, Some(rows));
      t.selectedDesign.Some? && forall d :: d in rows ==> t.selectedDesign.value.sortOrder <= d.sortOrder
  {
    forall d | d in rows ensures rows[0].sortOrder <= d.sortOrder {
      var k :| 0 <= k < |rows| && rows[k] == d;
      if k > 0 {
        assert rows[0].sortOrder <= rows[k].sortOrder;
      }
    }
  }

  /** A click changes only the selection, is idempotent, and keeps the page consistent. */
  lemma SelectedEffect(s: GalleryState, d: KitchenDesign)
    ensures var t := Selected(s, d);
      && t.selectedDesign == Some(d) && t.designs == s.designs && t.loading == s.loading
      && Selected(t, d) == t
    ensures Consistent(s) && !s.loading && d in s.designs ==> Consistent(Selected(s, d))
  {
  }

  /** After a click on `d`, exactly the buttons carrying `d`'s id are highlighted. */
  lemma SelectedHighlight(s: GalleryState, d: KitchenDesign, e: KitchenDesign)
    ensures Highlighted(Selected(s, d), e) <==> e.id == d.id
  {
  }

  /** Once loaded, the empty message and the detail panel are alternatives: exactly one shows. */
  lemma EmptyMessageOrDetail(s: GalleryState)
    requires Consistent(s) && !s.loading
    ensures ShowsEmptyMessage(s) <==> |s.designs| == 0
    ensures ShowsEmptyMessage(s) <==> !ShowsDetail(s)
  {
  }

  /** The page component with its state held in fields. */
  class KitchenDesignsPage {
    var designs: seq<KitchenDesign>
    var selectedDesign: Option<KitchenDesign>
    var loading: bool

    function State(): GalleryState
      reads this
    {
      GalleryState(designs, selectedDesign, loading)
    }

    predicate Valid()
      reads this
    {
      Consistent(State())
    }

    constructor ()
      ensures State() == InitialGallery && Valid()
    {
      designs := [];
      selectedDesign := None;
      loading := true;
    }

    /** `loadDesigns`, run once by the mount effect while the spinner is still up. */
    method LoadDesigns(data: Option<seq<KitchenDesign>>)
      requires Valid() && loading
      modifies this
      ensures State() == Loaded(old(State()), data)
      ensures Valid()
    {
      LoadedConsistent(State(), data);
      loading := true;
      if data.Some? {
        designs := data.value;
        if |data.value| > 0 {
          selectedDesign := Some(data.value[0]);
        }
      }
      loading := false;
    }

    /** The button of a listed design. */
    method ClickDesign(d: KitchenDesign)
      requires Valid() && !loading && d in designs
      modifies this`selectedDesign
      ensures State() == Selected(old(State()), d)
      ensures Valid()
    {
      selectedDesign := Some(d);
    }
  }
}
