/** The equipment filter panel: one toggle per facet, the preset price
    bands, the search box, "clear" and the active-filter indicator. Each
    handler hands a new filter record to the page. */
module FilterPanel {
  import opened Wrappers
  import opened Text
  import opened Types
  import opened Registry

  /** The four facets whose handlers toggle a string field. */
  datatype Facet = CategoryFacet | LocationFacet | AvailabilityFacet | ConditionFacet

  function Field(f: EquipmentFilters, facet: Facet): Option<string> {
    match facet
    case CategoryFacet => f.category
    case LocationFacet => f.location
    case AvailabilityFacet => f.availabilityStatus
    case ConditionFacet => f.conditionStatus
  }

  function WithField(f: EquipmentFilters, facet: Facet, v: Option<string>): EquipmentFilters {
    match facet
    case CategoryFacet => f.(category := v)
    case LocationFacet => f.(location := v)
    case AvailabilityFacet => f.(availabilityStatus := v)
    case ConditionFacet => f.(conditionStatus := v)
  }

  /** `handleCategoryChange`, `handleLocationChange`,
      `handleAvailabilityChange`, `handleConditionChange`: picking the value
      the facet already holds clears it, any other value replaces it, and
      nothing else in the record changes. */
  function Toggle(f: EquipmentFilters, facet: Facet, value: string): (r: EquipmentFilters)
    ensures Field(f, facet) == Some(value) ==> Field(r, facet).None?
    ensures Field(f, facet) != Some(value) ==> Field(r, facet) == Some(value)
    ensures forall other: Facet :: other != facet ==> Field(r, other) == Field(f, other)
    ensures r.priceRange == f.priceRange && r.searchTerm == f.searchTerm
  {
    WithField(f, facet, if Field(f, facet) == Some(value) then None else Some(value))
  }

  /** Toggling the same value twice restores a facet that was unset or held
      that value. */
  lemma ToggleTwice(f: EquipmentFilters, facet: Facet, value: string)
    requires Field(f, facet).None? || Field(f, facet) == Some(value)
    ensures Toggle(Toggle(f, facet, value), facet, value) == f
  {
  }

  /** Toggling twice from any other value clears the facet instead. */
  lemma ToggleTwiceFromOtherValue(f: EquipmentFilters, facet: Facet, value: string)
    requires Field(f, facet).Some? && Field(f, facet) != Some(value)
    ensures Field(Toggle(Toggle(f, facet, value), facet, value), facet).None?
  {
  }

  /** `handlePriceRangeChange`: the band that is already selected (both ends
      equal) is cleared; any other band replaces the range. */
  function TogglePrice(f: EquipmentFilters, min: int, max: int): (r: EquipmentFilters)
    ensures r.priceRange.None? <==> f.priceRange == Some(PriceRange(min, max))
    ensures r.priceRange.Some? ==> r.priceRange.value == PriceRange(min, max)
    ensures r == f.(priceRange := r.priceRange)
  {
    f.(priceRange := if f.priceRange == Some(PriceRange(min, max)) then None else Some(PriceRange(min, max)))
  }

  /** Picking the same band twice restores a range that was unset or was
      that band; from any other range it clears the range instead. */
  lemma TogglePriceTwice(f: EquipmentFilters, min: int, max: int)
    ensures f.priceRange.None? || f.priceRange == Some(PriceRange(min, max)) ==>
              TogglePrice(TogglePrice(f, min, max), min, max) == f
    ensures f.priceRange.Some? && f.priceRange != Some(PriceRange(min, max)) ==>
              TogglePrice(TogglePrice(f, min, max), min, max) == f.(priceRange := None)
  {
  }

  /** `handleSearch`: a blank term clears the search; any other term is
      stored as typed, surrounding white space included. */
  function SubmitSearch(f: EquipmentFilters, term: string): (r: EquipmentFilters)
    ensures r.searchTerm.None? <==> forall i :: 0 <= i < |term| ==> IsSpace(term[i])
    ensures r.searchTerm.Some? ==> r.searchTerm.value == term
    ensures r == f.(searchTerm := r.searchTerm)
  {
    f.(searchTerm := if Trim(term) == "" then None else Some(term))
  }

  /** `clearFilters`: the empty record and an empty search box. */
  function ClearFilters(): (r: (EquipmentFilters, string))
    ensures !HasActiveFilters(r.0) && r.1 == ""
  {
    (NoFilters, "")
  }

  /** `hasActiveFilters`: some string facet is non-empty, a price range is
      set (any range object is truthy) or a search term is non-empty. */
  function HasActiveFilters(f: EquipmentFilters): (r: bool)
    ensures !r ==> forall e: Equipment {:trigger Matches(f, e)} :: Matches(f, e)
    ensures f == NoFilters ==> !r
    ensures f.priceRange.Some? ==> r
  {
    || Present(f.category) || Present(f.location)
    || Present(f.availabilityStatus) || Present(f.conditionStatus)
    || f.priceRange.Some? || Present(f.searchTerm)
  }

  /** Filters the indicator shows as inactive let every item through. */
  lemma {:induction false} InactiveFiltersKeepAll(eq: seq<Equipment>, f: EquipmentFilters)
    requires !HasActiveFilters(f)
    ensures FilterEquipment(eq, f) == eq
  {
    assert forall i :: 0 <= i < |eq| ==> MatchesFn(f)(eq[i]);
  }

  /** After "clear" the list shows every item. */
  lemma ClearShowsAll(eq: seq<Equipment>)
    ensures FilterEquipment(eq, ClearFilters().0) == eq
  {
    InactiveFiltersKeepAll(eq, ClearFilters().0);
  }

  /** A submitted non-blank search term lights the indicator. */
  lemma SearchActivates(f: EquipmentFilters, term: string)
    requires Trim(term) != ""
    ensures HasActiveFilters(SubmitSearch(f, term))
  {
  }

  datatype PriceBand = PriceBand(id: string, name: string, min: int, max: int)

  /** The preset price bands, cheapest first. */
  const PriceBands: seq<PriceBand> := [
    PriceBand("0-50", "Under $50", 0, 50),
    PriceBand("50-100", "$50 - $100", 50, 100),
    PriceBand("100-200", "$100 - $200", 100, 200),
    PriceBand("200-500", "$200 - $500", 200, 500),
    PriceBand("500-1000", "Over $500", 500, 99999)
  ]

  /** The bands run upwards from zero, each starting where the previous
      one ends, so every price from 0 to 99999 falls in some band. */
  lemma {:induction false} PriceBandsCover(price: int)
    requires 0 <= price <= 99999
    ensures PriceBands[0].min == 0 && PriceBands[|PriceBands| - 1].max == 99999
    ensures forall i :: 0 <= i < |PriceBands| ==> PriceBands[i].min < PriceBands[i].max
    ensures forall i :: 0 <= i < |PriceBands| - 1 ==> PriceBands[i].max == PriceBands[i + 1].min
    ensures exists i :: 0 <= i < |PriceBands| && PriceBands[i].min <= price <= PriceBands[i].max
  {
    if price <= 50 { assert PriceBands[0].min <= price <= PriceBands[0].max; }
    else if price <= 100 { assert PriceBands[1].min <= price <= PriceBands[1].max; }
    else if price <= 200 { assert PriceBands[2].min <= price <= PriceBands[2].max; }
    else if price <= 500 { assert PriceBands[3].min <= price <= PriceBands[3].max; }
    else { assert PriceBands[4].min <= price <= PriceBands[4].max; }
  }

  /** An item passes the filter that selects only this band. */
  predicate InBand(e: Equipment, b: PriceBand) {
    Matches(TogglePrice(NoFilters, b.min, b.max), e)
  }

  /** Neighbouring bands share their common endpoint, and since the price
      filter is inclusive at both ends a price equal to that endpoint passes
      both bands. */
  lemma {:induction false} SharedEndpointInBothBands(e: Equipment, i: nat)
    requires i + 1 < |PriceBands|
    requires e.pricePerDay == PriceBands[i].max
    ensures PriceBands[i].max == PriceBands[i + 1].min
    ensures InBand(e, PriceBands[i]) && InBand(e, PriceBands[i + 1])
  {
    assert PriceBands[i].min <= PriceBands[i].max;
    assert PriceBands[i + 1].max >= PriceBands[i + 1].min;
  }
}
