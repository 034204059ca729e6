/** The filter panel (`src/components/PropertyFilters.tsx`) and the filter
    it drives on the properties page (`src/pages/Properties.tsx`). */
module PropertyFilters {
  import opened Types
  import opened Seqs

  /** `priceRange: [number, number]`, both bounds inclusive. */
  datatype PriceRange = PriceRange(min: int, max: int)

  /** Which slot of `priceRange` a slider writes: index 0 or index 1. */
  datatype Bound = Min | Max

  /** The filter state. The furnishing and availability selections are the
      strings of the checked boxes, in the order they were checked. */
  datatype Filters = Filters(priceRange: PriceRange, furnishing: seq<string>, availability: seq<string>)

  /** The properties page starts from the whole slider range and no boxes
      checked. */
  const InitialFilters := Filters(PriceRange(0, 1000000), [], [])

  // ---------------------------------------------------------------------
  // Panel handlers
  // ---------------------------------------------------------------------

  /** `handlePriceChange(index, value)`: writes one bound of the price
      range; the other bound and both selections are kept. */
  function HandlePriceChange(f: Filters, b: Bound, value: int): (r: Filters)
    ensures b == Min ==> r.priceRange.min == value && r.priceRange.max == f.priceRange.max
    ensures b == Max ==> r.priceRange.max == value && r.priceRange.min == f.priceRange.min
    ensures r.furnishing == f.furnishing && r.availability == f.availability
  {
    match b
    case Min => f.(priceRange := f.priceRange.(min := value))
    case Max => f.(priceRange := f.priceRange.(max := value))
  }

  /** Checkbox toggle on a selection: a present value is removed wherever it
      occurs, an absent one is appended at the end. */
  function Toggle(xs: seq<string>, v: string): (r: seq<string>)
    ensures v in xs ==> v !in r && forall x :: x in r <==> x in xs && x != v
    ensures v in xs ==> IsSubsequence(r, xs) && |r| == CountWhere(xs, (x: string) => x != v)
    ensures v !in xs ==> r == xs + [v]
  {
    if v in xs then Filter(xs, (x: string) => x != v) else xs + [v]
  }

  /** `toggleFurnishing(value)`: only the furnishing selection changes. */
  function ToggleFurnishing(f: Filters, v: string): (r: Filters)
    ensures r.priceRange == f.priceRange && r.availability == f.availability
    ensures (v in r.furnishing) <==> (v !in f.furnishing)
    ensures forall x :: x != v ==> (x in r.furnishing <==> x in f.furnishing)
  {
    f.(furnishing := Toggle(f.furnishing, v))
  }

  /** `toggleAvailability(value)`: only the availability selection changes. */
  function ToggleAvailability(f: Filters, v: string): (r: Filters)
    ensures r.priceRange == f.priceRange && r.furnishing == f.furnishing
    ensures (v in r.availability) <==> (v !in f.availability)
    ensures forall x :: x != v ==> (x in r.availability <==> x in f.availability)
  {
    f.(availability := Toggle(f.availability, v))
  }

  /** Toggling an unchecked value twice restores the selection exactly. */
  lemma ToggleTwiceAbsent(xs: seq<string>, v: string)
    requires v !in xs
    ensures Toggle(Toggle(xs, v), v) == xs
  {
    var keep := (x: string) => x != v;
    FilterAppend(xs, [v], keep);
    FilterKeepsAll(xs, keep);
    assert Filter([v], keep) == [];
  }

  /** Toggling a checked value twice removes its repetitions and moves it
      to the end of the selection. */
  lemma ToggleTwicePresent(xs: seq<string>, v: string)
    requires v in xs
    ensures Toggle(Toggle(xs, v), v) == Filter(xs, (x: string) => x != v) + [v]
  {
  }

  /** Double toggling restores a whole filter state whose selection did not
      hold the value. */
  lemma ToggleFurnishingTwice(f: Filters, v: string)
    requires v !in f.furnishing
    ensures ToggleFurnishing(ToggleFurnishing(f, v), v) == f
  {
    ToggleTwiceAbsent(f.furnishing, v);
  }

  lemma ToggleAvailabilityTwice(f: Filters, v: string)
    requires v !in f.availability
    ensures ToggleAvailability(ToggleAvailability(f, v), v) == f
  {
    ToggleTwiceAbsent(f.availability, v);
  }

  // ---------------------------------------------------------------------
  // The properties page filter
  // ---------------------------------------------------------------------

  /** An empty selection admits every value; a non-empty one admits the
      values it lists. */
  predicate Admits(selection: seq<string>, value: string) {
    |selection| == 0 || value in selection
  }

  /** The predicate `filteredProperties` applies to each property. */
  predicate Matches(f: Filters, p: Property) {
    && f.priceRange.min <= p.listing.price <= f.priceRange.max
    && Admits(f.furnishing, FurnishingLabel(p.listing.furnishingStatus))
    && Admits(f.availability, AvailabilityLabel(p.listing.availability))
  }

  /** `filteredProperties`: the properties inside the price range (both
      bounds inclusive) whose furnishing and availability pass the
      selections, in collection order. */
  function FilteredProperties(ps: seq<Property>, f: Filters): (r: seq<Property>)
    ensures IsSubsequence(r, ps)
    ensures forall p :: p in r <==>
      && p in ps
      && f.priceRange.min <= p.listing.price <= f.priceRange.max
      && (f.furnishing == [] || FurnishingLabel(p.listing.furnishingStatus) in f.furnishing)
      && (f.availability == [] || AvailabilityLabel(p.listing.availability) in f.availability)
    ensures |r| == CountWhere(ps, (p: Property) => Matches(f, p))
  {
    Filter(ps, (p: Property) => Matches(f, p))
  }

  /** With nothing checked, only the price range filters. */
  lemma EmptySelectionsFilterOnlyByPrice(ps: seq<Property>, range: PriceRange)
    ensures var r := FilteredProperties(ps, Filters(range, [], []));
      forall p :: p in r <==> p in ps && range.min <= p.listing.price <= range.max
  {
  }

  /** On first display every property priced within `[0, 1000000]` is shown,
      and nothing else. */
  lemma InitialFiltersShowWholeRange(ps: seq<Property>)
    ensures forall p :: p in FilteredProperties(ps, InitialFilters) <==>
      p in ps && 0 <= p.listing.price <= 1000000
    ensures (forall p :: p in ps ==> 0 <= p.listing.price <= 1000000) ==>
      FilteredProperties(ps, InitialFilters) == ps
  {
    if forall p :: p in ps ==> 0 <= p.listing.price <= 1000000 {
      FilterKeepsAll(ps, (p: Property) => Matches(InitialFilters, p));
    }
  }

  /** Checking more boxes in a non-empty selection can only widen the
      result: a property that passed still passes. */
  lemma WiderSelectionKeepsMatches(f: Filters, v: string, p: Property)
    requires f.furnishing != [] && v !in f.furnishing
    requires Matches(f, p)
    ensures Matches(ToggleFurnishing(f, v), p)
  {
  }
}
