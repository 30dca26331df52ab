/** The equipment registry: the list of equipment items with lookups, add,
    partial update, delete and the multi-criteria filter. */
module Registry {
  import opened Wrappers
  import opened Seqs
  import opened Text
  import opened Types

  datatype PriceRange = PriceRange(min: int, max: int)

  /** Every field is optional; a string field filters only when it is a
      non-empty string. */
  datatype EquipmentFilters = EquipmentFilters(
    category: Option<string>,
    location: Option<string>,
    availabilityStatus: Option<string>,
    conditionStatus: Option<string>,
    priceRange: Option<PriceRange>,
    searchTerm: Option<string>)

  /** The empty filter record `{}`. */
  const NoFilters := EquipmentFilters(None, None, None, None, None, None)

  /** The fields a partial update may carry; absent fields are left alone. */
  datatype EquipmentPatch = EquipmentPatch(
    name: Option<string>,
    description: Option<string>,
    category: Option<string>,
    location: Option<string>,
    pricePerDay: Option<int>,
    availabilityStatus: Option<Availability>,
    conditionStatus: Option<Condition>,
    lastMaintenanceDate: Option<string>,
    images: Option<seq<string>>)

  const EmptyPatch := EquipmentPatch(None, None, None, None, None, None, None, None, None)

  /** `{ availabilityStatus: a }`. */
  function StatusPatch(a: Availability): EquipmentPatch {
    EmptyPatch.(availabilityStatus := Some(a))
  }

  predicate HasId(eq: seq<Equipment>, id: string) {
    exists i :: 0 <= i < |eq| && eq[i].id == id
  }

  /** The first item with that id, or none. */
  function GetEquipmentById(eq: seq<Equipment>, id: string): (r: Option<Equipment>)
    ensures r.Some? <==> HasId(eq, id)
    ensures r.Some? ==> r.value.id == id
    ensures r.Some? ==> exists i :: 0 <= i < |eq| && eq[i] == r.value && forall j :: 0 <= j < i ==> eq[j].id != id
  {
    match FindIndex((e: Equipment) => e.id == id, eq)
    case None => None
    case Some(i) => Some(eq[i])
  }

  function CategoryFn(c: string): Equipment -> bool {
    (e: Equipment) => e.category == c
  }

  function GetEquipmentByCategory(eq: seq<Equipment>, c: string): (r: seq<Equipment>)
    ensures IsSubseq(r, eq)
    ensures forall i :: 0 <= i < |r| ==> r[i].category == c
    ensures forall i :: 0 <= i < |eq| && eq[i].category == c ==> eq[i] in r
    ensures forall x {:trigger multiset(r)[x]} :: x in eq ==> multiset(r)[x] == if x.category == c then multiset(eq)[x] else 0
  {
    Filter(CategoryFn(c), eq)
  }

  function LocationFn(l: string): Equipment -> bool {
    (e: Equipment) => e.location == l
  }

  function GetEquipmentByLocation(eq: seq<Equipment>, l: string): (r: seq<Equipment>)
    ensures IsSubseq(r, eq)
    ensures forall i :: 0 <= i < |r| ==> r[i].location == l
    ensures forall i :: 0 <= i < |eq| && eq[i].location == l ==> eq[i] in r
    ensures forall x {:trigger multiset(r)[x]} :: x in eq ==> multiset(r)[x] == if x.location == l then multiset(eq)[x] else 0
  {
    Filter(LocationFn(l), eq)
  }

  /** The added item: the draft's fields with a fresh id and both timestamps
      set to the same clock reading. */
  function AddEquipment(eq: seq<Equipment>, draft: Equipment, newId: string, now: int): (r: seq<Equipment>)
    ensures |r| == |eq| + 1 && r[..|eq|] == eq
    ensures r[|eq|].id == newId && r[|eq|].createdAt == r[|eq|].updatedAt == now
    ensures r[|eq|].(id := draft.id, createdAt := draft.createdAt, updatedAt := draft.updatedAt) == draft
  {
    eq + [draft.(id := newId, createdAt := now, updatedAt := now)]
  }

  /** `{ ...item, ...updates, updatedAt: now }`. */
  function Merge(e: Equipment, p: EquipmentPatch, now: int): Equipment {
    e.(name := p.name.GetOr(e.name),
       description := p.description.GetOr(e.description),
       category := p.category.GetOr(e.category),
       location := p.location.GetOr(e.location),
       pricePerDay := p.pricePerDay.GetOr(e.pricePerDay),
       availabilityStatus := p.availabilityStatus.GetOr(e.availabilityStatus),
       conditionStatus := p.conditionStatus.GetOr(e.conditionStatus),
       lastMaintenanceDate := p.lastMaintenanceDate.GetOr(e.lastMaintenanceDate),
       images := p.images.GetOr(e.images),
       updatedAt := now)
  }

  /** Every item with that id gets the patch merged in and a new `updatedAt`;
      every other item is unchanged. */
  function UpdateEquipment(eq: seq<Equipment>, id: string, p: EquipmentPatch, now: int): (r: seq<Equipment>)
    ensures |r| == |eq|
    ensures forall i :: 0 <= i < |eq| && eq[i].id != id ==> r[i] == eq[i]
    ensures forall i :: 0 <= i < |eq| && eq[i].id == id ==>
      && r[i].id == id && r[i].updatedAt == now && r[i].createdAt == eq[i].createdAt
      && r[i].features == eq[i].features && r[i].specifications == eq[i].specifications
      && (p.name.Some? ==> r[i].name == p.name.value)
      && (p.name.None? ==> r[i].name == eq[i].name)
      && (p.description.Some? ==> r[i].description == p.description.value)
      && (p.description.None? ==> r[i].description == eq[i].description)
      && (p.category.Some? ==> r[i].category == p.category.value)
      && (p.category.None? ==> r[i].category == eq[i].category)
      && (p.location.Some? ==> r[i].location == p.location.value)
      && (p.location.None? ==> r[i].location == eq[i].location)
      && (p.pricePerDay.Some? ==> r[i].pricePerDay == p.pricePerDay.value)
      && (p.pricePerDay.None? ==> r[i].pricePerDay == eq[i].pricePerDay)
      && (p.availabilityStatus.Some? ==> r[i].availabilityStatus == p.availabilityStatus.value)
      && (p.availabilityStatus.None? ==> r[i].availabilityStatus == eq[i].availabilityStatus)
      && (p.conditionStatus.Some? ==> r[i].conditionStatus == p.conditionStatus.value)
      && (p.conditionStatus.None? ==> r[i].conditionStatus == eq[i].conditionStatus)
      && (p.lastMaintenanceDate.Some? ==> r[i].lastMaintenanceDate == p.lastMaintenanceDate.value)
      && (p.lastMaintenanceDate.None? ==> r[i].lastMaintenanceDate == eq[i].lastMaintenanceDate)
      && (p.images.Some? ==> r[i].images == p.images.value)
      && (p.images.None? ==> r[i].images == eq[i].images)
      && (p.availabilityStatus.Some? && p == StatusPatch(p.availabilityStatus.value) ==>
            r[i] == eq[i].(availabilityStatus := p.availabilityStatus.value, updatedAt := now))
  {
    seq(|eq|, i requires 0 <= i < |eq| => if eq[i].id == id then Merge(eq[i], p, now) else eq[i])
  }

  /** An update naming an id no item has is a silent no-op, not an error. */
  lemma UpdateUnknownIdIsNoOp(eq: seq<Equipment>, id: string, p: EquipmentPatch, now: int)
    requires !HasId(eq, id)
    ensures UpdateEquipment(eq, id, p, now) == eq
  {
  }

  /** Setting the same availability twice is the same as setting it once. */
  lemma StatusUpdateTwice(eq: seq<Equipment>, id: string, a: Availability, now: int)
    ensures UpdateEquipment(UpdateEquipment(eq, id, StatusPatch(a), now), id, StatusPatch(a), now)
            == UpdateEquipment(eq, id, StatusPatch(a), now)
  {
  }

  function OtherIdFn(id: string): Equipment -> bool {
    (e: Equipment) => e.id != id
  }

  /** Removes every item with that id, keeping the others in order. */
  function DeleteEquipment(eq: seq<Equipment>, id: string): (r: seq<Equipment>)
    ensures IsSubseq(r, eq)
    ensures forall i :: 0 <= i < |r| ==> r[i].id != id
    ensures forall i :: 0 <= i < |eq| && eq[i].id != id ==> eq[i] in r
    ensures forall x {:trigger multiset(r)[x]} :: x in eq ==> multiset(r)[x] == if x.id != id then multiset(eq)[x] else 0
    ensures !HasId(eq, id) ==> r == eq
  {
    Filter(OtherIdFn(id), eq)
  }

  /** Adding an item under a fresh id makes it findable by that id, and
      deleting that id restores the list. */
  lemma {:induction false} AddThenGetAndDelete(eq: seq<Equipment>, draft: Equipment, newId: string, now: int)
    requires !HasId(eq, newId)
    ensures GetEquipmentById(AddEquipment(eq, draft, newId, now), newId)
            == Some(draft.(id := newId, createdAt := now, updatedAt := now))
    ensures DeleteEquipment(AddEquipment(eq, draft, newId, now), newId) == eq
  {
    var added := AddEquipment(eq, draft, newId, now);
    var item := draft.(id := newId, createdAt := now, updatedAt := now);
    assert added == eq + [item];
    assert Filter(OtherIdFn(newId), [item]) == [];
    FilterAppend(OtherIdFn(newId), eq, [item]);
  }

  /** One item passes the filter: the source's chain of early returns, one
      per present field. */
  predicate Matches(f: EquipmentFilters, e: Equipment) {
    if Present(f.category) && e.category != f.category.value then false
    else if Present(f.location) && e.location != f.location.value then false
    else if Present(f.availabilityStatus) && AvailabilityName(e.availabilityStatus) != f.availabilityStatus.value then false
    else if Present(f.conditionStatus) && ConditionName(e.conditionStatus) != f.conditionStatus.value then false
    else if f.priceRange.Some? && (e.pricePerDay < f.priceRange.value.min || e.pricePerDay > f.priceRange.value.max) then false
    else if Present(f.searchTerm)
            && !ContainsFold(e.name, f.searchTerm.value) && !ContainsFold(e.description, f.searchTerm.value) then false
    else true
  }

  function MatchesFn(f: EquipmentFilters): Equipment -> bool {
    (e: Equipment) => Matches(f, e)
  }

  /** The items passing every present filter, in registry order. */
  function FilterEquipment(eq: seq<Equipment>, f: EquipmentFilters): (r: seq<Equipment>)
    ensures IsSubseq(r, eq)
    ensures forall i :: 0 <= i < |r| ==>
      && (Present(f.category) ==> r[i].category == f.category.value)
      && (Present(f.location) ==> r[i].location == f.location.value)
      && (Present(f.availabilityStatus) ==> AvailabilityName(r[i].availabilityStatus) == f.availabilityStatus.value)
      && (Present(f.conditionStatus) ==> ConditionName(r[i].conditionStatus) == f.conditionStatus.value)
      && (f.priceRange.Some? ==> f.priceRange.value.min <= r[i].pricePerDay <= f.priceRange.value.max)
      && (Present(f.searchTerm) ==>
            ContainsFold(r[i].name, f.searchTerm.value) || ContainsFold(r[i].description, f.searchTerm.value))
    ensures forall i :: 0 <= i < |eq| && Matches(f, eq[i]) ==> eq[i] in r
    ensures forall x {:trigger multiset(r)[x]} :: x in eq ==> multiset(r)[x] == if Matches(f, x) then multiset(eq)[x] else 0
    ensures f == NoFilters ==> r == eq
  {
    Filter(MatchesFn(f), eq)
  }

  /** `f2` keeps every filter `f1` sets and may set more. */
  predicate Narrows(f2: EquipmentFilters, f1: EquipmentFilters) {
    && (Present(f1.category) ==> f2.category == f1.category)
    && (Present(f1.location) ==> f2.location == f1.location)
    && (Present(f1.availabilityStatus) ==> f2.availabilityStatus == f1.availabilityStatus)
    && (Present(f1.conditionStatus) ==> f2.conditionStatus == f1.conditionStatus)
    && (f1.priceRange.Some? ==> f2.priceRange == f1.priceRange)
    && (Present(f1.searchTerm) ==> f2.searchTerm == f1.searchTerm)
  }

  /** Setting additional filter fields never adds items to the result. */
  lemma FilterNarrowing(eq: seq<Equipment>, f1: EquipmentFilters, f2: EquipmentFilters)
    requires Narrows(f2, f1)
    ensures IsSubseq(FilterEquipment(eq, f2), FilterEquipment(eq, f1))
  {
    FilterMonotone(MatchesFn(f2), MatchesFn(f1), eq);
  }

  /** For a non-empty category the category lookup is the filter with only
      that field set. */
  lemma CategoryLookupIsFilter(eq: seq<Equipment>, c: string)
    requires c != ""
    ensures GetEquipmentByCategory(eq, c) == FilterEquipment(eq, NoFilters.(category := Some(c)))
  {
    FilterAgree(CategoryFn(c), MatchesFn(NoFilters.(category := Some(c))), eq);
  }

  /** Likewise for a non-empty location. */
  lemma LocationLookupIsFilter(eq: seq<Equipment>, l: string)
    requires l != ""
    ensures GetEquipmentByLocation(eq, l) == FilterEquipment(eq, NoFilters.(location := Some(l)))
  {
    FilterAgree(LocationFn(l), MatchesFn(NoFilters.(location := Some(l))), eq);
  }
}
