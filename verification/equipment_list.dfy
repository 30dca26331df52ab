/** The public equipment list page: filters read from the query string,
    the filtered list kept in step with the filters, and the result count. */
module EquipmentListPage {
  import opened Wrappers
  import opened Seqs
  import opened Types
  import opened Registry

  /** A decoded query string, parameters in order of appearance. */
  type Query = seq<(string, string)>

  function KeyFn(key: string): ((string, string)) -> bool {
    (kv: (string, string)) => kv.0 == key
  }

  /** `URLSearchParams.get`: the value of the first parameter with that name. */
  function Get(q: Query, key: string): (r: Option<string>)
    ensures r.None? <==> forall i :: 0 <= i < |q| ==> q[i].0 != key
    ensures r.Some? ==> exists i :: 0 <= i < |q| && q[i] == (key, r.value)
                          && forall j :: 0 <= j < i ==> q[j].0 != key
  {
    match FindIndex(KeyFn(key), q)
    case None => None
    case Some(i) => Some(q[i].1)
  }

  /** The parameter as a filter field: present only when non-empty. */
  function FromParam(q: Query, key: string): (r: Option<string>)
    ensures r.Some? <==> Present(Get(q, key))
    ensures r.Some? ==> r == Get(q, key)
  {
    if Present(Get(q, key)) then Get(q, key) else None
  }

  /** The filters the page derives from its query string: category, location
      and search only, each when its parameter is present and non-empty. */
  function ParseFilters(q: Query): (r: EquipmentFilters)
    ensures r.availabilityStatus.None? && r.conditionStatus.None? && r.priceRange.None?
    ensures r.category.Some? <==> Present(Get(q, "category"))
    ensures r.location.Some? <==> Present(Get(q, "location"))
    ensures r.searchTerm.Some? <==> Present(Get(q, "search"))
    ensures r.category.Some? ==> r.category == Get(q, "category")
    ensures r.location.Some? ==> r.location == Get(q, "location")
    ensures r.searchTerm.Some? ==> r.searchTerm == Get(q, "search")
  {
    NoFilters.(category := FromParam(q, "category"),
               location := FromParam(q, "location"),
               searchTerm := FromParam(q, "search"))
  }

  /** The page's state: the current filters and the list on display. */
  datatype ListState = ListState(filters: EquipmentFilters, shown: seq<Equipment>)

  /** Before any effect runs: no filters, the whole registry on display. */
  function Initial(eq: seq<Equipment>): (r: ListState)
    ensures r.filters == NoFilters && r.shown == eq
  {
    ListState(NoFilters, eq)
  }

  /** A query-string change replaces the filter record wholesale. */
  function OnQueryChange(st: ListState, q: Query): (r: ListState)
    ensures r.filters == ParseFilters(q) && r.shown == st.shown
  {
    st.(filters := ParseFilters(q))
  }

  /** `handleFilterChange`: the panel's record becomes the page's filters. */
  function OnFilterChange(st: ListState, f: EquipmentFilters): (r: ListState)
    ensures r.filters == f && r.shown == st.shown
  {
    st.(filters := f)
  }

  /** "Clear all filters". */
  function ClearAll(st: ListState): (r: ListState)
    ensures r.filters == NoFilters && r.shown == st.shown
  {
    st.(filters := NoFilters)
  }

  /** The filter effect: once loading is over the display is recomputed
      from the registry; while loading it keeps what it had. */
  function Apply(st: ListState, eq: seq<Equipment>, isLoading: bool): (r: ListState)
    ensures r.filters == st.filters
    ensures isLoading ==> r == st
    ensures !isLoading ==> IsSubseq(r.shown, eq)
    ensures !isLoading ==> forall i :: 0 <= i < |eq| ==> (eq[i] in r.shown <==> Matches(st.filters, eq[i]))
    ensures !isLoading ==> forall x {:trigger multiset(r.shown)[x]} :: x in eq ==>
              multiset(r.shown)[x] == if Matches(st.filters, x) then multiset(eq)[x] else 0
    ensures r == st.(shown := r.shown)
  {
    if isLoading then st else st.(shown := FilterEquipment(eq, st.filters))
  }

  /** "result" for exactly one item, "results" otherwise. */
  function ResultLabel(n: nat): (r: string)
    ensures r == "result" <==> n == 1
    ensures r == "result" || r == "results"
  {
    if n == 1 then "result" else "results"
  }

  /** A query string without the three parameters leaves the list whole. */
  lemma EmptyQueryShowsAll(st: ListState, eq: seq<Equipment>, q: Query)
    requires !Present(Get(q, "category")) && !Present(Get(q, "location")) && !Present(Get(q, "search"))
    ensures Apply(OnQueryChange(st, q), eq, false).shown == eq
  {
    assert ParseFilters(q) == NoFilters;
  }

  /** After "Clear all filters" the display is the whole registry. */
  lemma ClearAllShowsAll(st: ListState, eq: seq<Equipment>)
    ensures Apply(ClearAll(st), eq, false).shown == eq
  {
  }

  /** A category taken from the query string shows exactly the category
      lookup's items, narrowed further by any location or search parameter. */
  lemma {:induction false} QueryCategoryWithinLookup(eq: seq<Equipment>, q: Query)
    requires Present(Get(q, "category"))
    ensures IsSubseq(FilterEquipment(eq, ParseFilters(q)), GetEquipmentByCategory(eq, Get(q, "category").value))
  {
    var c := Get(q, "category").value;
    CategoryLookupIsFilter(eq, c);
    FilterNarrowing(eq, NoFilters.(category := Some(c)), ParseFilters(q));
  }
}
