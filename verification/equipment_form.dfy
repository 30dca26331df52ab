/** The add/edit equipment form: field edits that clear their own error,
    image list edits, validation with its per-field messages, and the
    submit guard. */
module EquipmentFormPage {
  import opened Wrappers
  import opened Text
  import opened Dates

  /** The result of `Number(s)`: `NaN` or a number. */
  datatype NumValue = NaN | Num(value: real)

  datatype Specifications = Specifications(
    weight: string,
    dimensions: string,
    enginePower: string,
    fuelType: string,
    maxDiggingDepth: string,
    maxReach: string)

  datatype FormData = FormData(
    name: string,
    description: string,
    category: string,
    status: string,
    dailyRate: string,
    location: string,
    manufacturer: string,
    model: string,
    serialNumber: string,
    purchaseDate: Option<Instant>,
    purchasePrice: string,
    lastMaintenance: Option<Instant>,
    nextMaintenanceDue: Option<Instant>,
    images: seq<string>,
    specifications: Specifications)

  /** One message per validated field; `""` means no error. */
  datatype FormErrors = FormErrors(
    name: string,
    category: string,
    dailyRate: string,
    location: string,
    manufacturer: string,
    model: string,
    serialNumber: string)

  const NoErrors := FormErrors("", "", "", "", "", "", "")

  /** The text inputs and selects of the form. */
  datatype TextField =
    | NameField | DescriptionField | CategoryField | StatusField | DailyRateField
    | LocationField | ManufacturerField | ModelField | SerialNumberField | PurchasePriceField

  function Get(d: FormData, f: TextField): string {
    match f
    case NameField => d.name
    case DescriptionField => d.description
    case CategoryField => d.category
    case StatusField => d.status
    case DailyRateField => d.dailyRate
    case LocationField => d.location
    case ManufacturerField => d.manufacturer
    case ModelField => d.model
    case SerialNumberField => d.serialNumber
    case PurchasePriceField => d.purchasePrice
  }

  function Set(d: FormData, f: TextField, v: string): FormData {
    match f
    case NameField => d.(name := v)
    case DescriptionField => d.(description := v)
    case CategoryField => d.(category := v)
    case StatusField => d.(status := v)
    case DailyRateField => d.(dailyRate := v)
    case LocationField => d.(location := v)
    case ManufacturerField => d.(manufacturer := v)
    case ModelField => d.(model := v)
    case SerialNumberField => d.(serialNumber := v)
    case PurchasePriceField => d.(purchasePrice := v)
  }

  /** The message shown under a field; fields that are never validated have
      none. */
  function ErrorOf(e: FormErrors, f: TextField): string {
    match f
    case NameField => e.name
    case CategoryField => e.category
    case DailyRateField => e.dailyRate
    case LocationField => e.location
    case ManufacturerField => e.manufacturer
    case ModelField => e.model
    case SerialNumberField => e.serialNumber
    case _ => ""
  }

  function ClearError(e: FormErrors, f: TextField): FormErrors {
    match f
    case NameField => e.(name := "")
    case CategoryField => e.(category := "")
    case DailyRateField => e.(dailyRate := "")
    case LocationField => e.(location := "")
    case ManufacturerField => e.(manufacturer := "")
    case ModelField => e.(model := "")
    case SerialNumberField => e.(serialNumber := "")
    case _ => e
  }

  datatype FormState = FormState(
    data: FormData,
    errors: FormErrors,
    submitting: bool,
    error: Option<string>)

  /** `handleInputChange` and `handleSelectChange`: the field takes the new
      value and loses its error message; every other field and message is
      kept. */
  function FieldChange(st: FormState, f: TextField, v: string): (r: FormState)
    ensures Get(r.data, f) == v && ErrorOf(r.errors, f) == ""
    ensures forall g: TextField :: g != f ==> Get(r.data, g) == Get(st.data, g)
    ensures forall g: TextField :: g != f ==> ErrorOf(r.errors, g) == ErrorOf(st.errors, g)
    ensures r.data.images == st.data.images && r.data.specifications == st.data.specifications
    ensures r.submitting == st.submitting && r.error == st.error
  {
    var errors := if ErrorOf(st.errors, f) != "" then ClearError(st.errors, f) else st.errors;
    st.(data := Set(st.data, f, v), errors := errors)
  }

  /** Editing a field leaves every other field's validation message as it
      was: only the edited field's verdict can change. */
  lemma {:induction false} EditAffectsOnlyItsOwnMessage(st: FormState, f: TextField, v: string, toNumber: string -> NumValue)
    ensures forall g: TextField :: g != f ==>
              ErrorOf(ValidateForm(FieldChange(st, f, v).data, toNumber).1, g)
                == ErrorOf(ValidateForm(st.data, toNumber).1, g)
  {
    var d := FieldChange(st, f, v).data;
    forall g: TextField | g != f
      ensures ErrorOf(ValidateForm(d, toNumber).1, g) == ErrorOf(ValidateForm(st.data, toNumber).1, g)
    {
      MessageDependsOnField(d, st.data, g, toNumber);
    }
  }

  /** A field's validation message depends on that field's text alone. */
  lemma MessageDependsOnField(d1: FormData, d2: FormData, g: TextField, toNumber: string -> NumValue)
    requires Get(d1, g) == Get(d2, g)
    ensures ErrorOf(ValidateForm(d1, toNumber).1, g) == ErrorOf(ValidateForm(d2, toNumber).1, g)
  {
    match g
    case NameField => assert d1.name == d2.name;
    case CategoryField => assert d1.category == d2.category;
    case DailyRateField => assert d1.dailyRate == d2.dailyRate;
    case LocationField => assert d1.location == d2.location;
    case ManufacturerField => assert d1.manufacturer == d2.manufacturer;
    case ModelField => assert d1.model == d2.model;
    case SerialNumberField => assert d1.serialNumber == d2.serialNumber;
    case _ =>
  }

  /** The three date pickers. */
  datatype DateField = PurchaseDateField | LastMaintenanceField | NextMaintenanceDueField

  /** `handleDateChange`: the picker's date is stored; no message is
      cleared, and since no date is validated the verdict stays the same. */
  function DateChange(st: FormState, f: DateField, d: Option<Instant>): (r: FormState)
    ensures f == PurchaseDateField ==> r.data == st.data.(purchaseDate := d)
    ensures f == LastMaintenanceField ==> r.data == st.data.(lastMaintenance := d)
    ensures f == NextMaintenanceDueField ==> r.data == st.data.(nextMaintenanceDue := d)
    ensures r == st.(data := r.data)
    ensures forall toNumber: string -> NumValue {:trigger ValidateForm(r.data, toNumber)} ::
              ValidateForm(r.data, toNumber) == ValidateForm(st.data, toNumber)
  {
    var data := match f
      case PurchaseDateField => st.data.(purchaseDate := d)
      case LastMaintenanceField => st.data.(lastMaintenance := d)
      case NextMaintenanceDueField => st.data.(nextMaintenanceDue := d);
    st.(data := data)
  }

  /** The specification inputs. */
  datatype SpecField = WeightField | DimensionsField | EnginePowerField | FuelTypeField
                     | MaxDiggingDepthField | MaxReachField

  function SetSpec(sp: Specifications, f: SpecField, v: string): Specifications {
    match f
    case WeightField => sp.(weight := v)
    case DimensionsField => sp.(dimensions := v)
    case EnginePowerField => sp.(enginePower := v)
    case FuelTypeField => sp.(fuelType := v)
    case MaxDiggingDepthField => sp.(maxDiggingDepth := v)
    case MaxReachField => sp.(maxReach := v)
  }

  /** `handleSpecificationChange`: one specification takes the value and the
      others are kept; messages and the verdict are unaffected. */
  function SpecificationChange(st: FormState, f: SpecField, v: string): (r: FormState)
    ensures r == st.(data := st.data.(specifications := r.data.specifications))
    ensures f == WeightField ==> r.data.specifications == st.data.specifications.(weight := v)
    ensures f == DimensionsField ==> r.data.specifications == st.data.specifications.(dimensions := v)
    ensures f == EnginePowerField ==> r.data.specifications == st.data.specifications.(enginePower := v)
    ensures f == FuelTypeField ==> r.data.specifications == st.data.specifications.(fuelType := v)
    ensures f == MaxDiggingDepthField ==> r.data.specifications == st.data.specifications.(maxDiggingDepth := v)
    ensures f == MaxReachField ==> r.data.specifications == st.data.specifications.(maxReach := v)
    ensures forall toNumber: string -> NumValue {:trigger ValidateForm(r.data, toNumber)} ::
              ValidateForm(r.data, toNumber) == ValidateForm(st.data, toNumber)
  {
    st.(data := st.data.(specifications := SetSpec(st.data.specifications, f, v)))
  }

  const PlaceholderImage := "https://via.placeholder.com/800x600"

  /** `handleAddImage`: one placeholder appended. */
  function AddImage(d: FormData): (r: FormData)
    ensures r.images == d.images + [PlaceholderImage]
    ensures r == d.(images := r.images)
  {
    d.(images := d.images + [PlaceholderImage])
  }

  /** `images.filter((_, i) => i !== index)`. */
  function RemoveAt(s: seq<string>, index: int): (r: seq<string>)
    ensures 0 <= index < |s| ==> |r| == |s| - 1
    ensures 0 <= index < |s| ==> forall k :: 0 <= k < index ==> r[k] == s[k]
    ensures 0 <= index < |s| ==> forall k :: index <= k < |r| ==> r[k] == s[k + 1]
    ensures !(0 <= index < |s|) ==> r == s
  {
    if 0 <= index < |s| then s[..index] + s[index + 1..] else s
  }

  /** `handleRemoveImage`. */
  function RemoveImage(d: FormData, index: int): (r: FormData)
    ensures r.images == RemoveAt(d.images, index)
    ensures r == d.(images := r.images)
  {
    d.(images := RemoveAt(d.images, index))
  }

  /** Removing the image just added restores the list. */
  lemma RemoveUndoesAdd(d: FormData)
    ensures RemoveImage(AddImage(d), |d.images|) == d
  {
    assert (d.images + [PlaceholderImage])[..|d.images|] == d.images;
  }

  /** The message for the daily rate: required when blank, otherwise it
      must parse to a number above zero. */
  function RateError(rate: string, toNumber: string -> NumValue): (r: string)
    ensures r == "" <==> !IsBlank(rate) && toNumber(rate).Num? && toNumber(rate).value > 0.0
    ensures IsBlank(rate) ==> r == "Daily rate is required"
    ensures !IsBlank(rate) && r != "" ==> r == "Daily rate must be a positive number"
  {
    if IsBlank(rate) then "Daily rate is required"
    else if toNumber(rate).NaN? || toNumber(rate).value <= 0.0 then "Daily rate must be a positive number"
    else ""
  }

  function Required(s: string, message: string): string {
    if IsBlank(s) then message else ""
  }

  /** The form passes when every required text is non-blank, a category is
      chosen and the daily rate is a positive number. */
  predicate Valid(d: FormData, toNumber: string -> NumValue) {
    && !IsBlank(d.name)
    && d.category != ""
    && !IsBlank(d.dailyRate) && toNumber(d.dailyRate).Num? && toNumber(d.dailyRate).value > 0.0
    && !IsBlank(d.location)
    && !IsBlank(d.manufacturer)
    && !IsBlank(d.model)
    && !IsBlank(d.serialNumber)
  }

  /** `validateForm`: the verdict and the full set of messages, which are all
      empty exactly when the form passes. */
  function ValidateForm(d: FormData, toNumber: string -> NumValue): (r: (bool, FormErrors))
    ensures r.0 <==> Valid(d, toNumber)
    ensures r.0 <==> r.1 == NoErrors
    ensures r.1.name == (if IsBlank(d.name) then "Name is required" else "")
    ensures r.1.category == (if d.category == "" then "Category is required" else "")
    ensures r.1.dailyRate == RateError(d.dailyRate, toNumber)
    ensures r.1.location == (if IsBlank(d.location) then "Location is required" else "")
    ensures r.1.manufacturer == (if IsBlank(d.manufacturer) then "Manufacturer is required" else "")
    ensures r.1.model == (if IsBlank(d.model) then "Model is required" else "")
    ensures r.1.serialNumber == (if IsBlank(d.serialNumber) then "Serial number is required" else "")
  {
    var errors := FormErrors(
      Required(d.name, "Name is required"),
      if d.category == "" then "Category is required" else "",
      RateError(d.dailyRate, toNumber),
      Required(d.location, "Location is required"),
      Required(d.manufacturer, "Manufacturer is required"),
      Required(d.model, "Model is required"),
      Required(d.serialNumber, "Serial number is required"));
    (errors == NoErrors, errors)
  }

  /** Description, purchase data, dates, specifications and images never
      affect validation. */
  lemma UnvalidatedFieldsIrrelevant(d1: FormData, d2: FormData, toNumber: string -> NumValue)
    requires d1.name == d2.name && d1.category == d2.category && d1.dailyRate == d2.dailyRate
    requires d1.location == d2.location && d1.manufacturer == d2.manufacturer
    requires d1.model == d2.model && d1.serialNumber == d2.serialNumber
    ensures ValidateForm(d1, toNumber) == ValidateForm(d2, toNumber)
  {
  }

  /** `handleSubmit` up to the save request: an invalid form only shows its
      messages; a valid one clears them, starts submitting and clears the
      page error. */
  function Submit(st: FormState, toNumber: string -> NumValue): (r: FormState)
    ensures r.data == st.data && r.errors == ValidateForm(st.data, toNumber).1
    ensures !Valid(st.data, toNumber) ==> r.submitting == st.submitting && r.error == st.error
    ensures Valid(st.data, toNumber) ==> r.submitting && r.error.None? && r.errors == NoErrors
  {
    var (ok, errors) := ValidateForm(st.data, toNumber);
    if !ok then st.(errors := errors)
    else st.(errors := errors, submitting := true, error := None)
  }

  /** Submitting again without editing changes nothing more. */
  lemma SubmitIdempotent(st: FormState, toNumber: string -> NumValue)
    ensures Submit(Submit(st, toNumber), toNumber) == Submit(st, toNumber)
  {
  }

  /** After a rejected submit, an edit that makes the form valid lets the
      next submit through; an edit that leaves it invalid keeps every other
      field's message from the rejected submit. */
  lemma {:induction false} ResubmitAfterEdit(st: FormState, f: TextField, v: string, toNumber: string -> NumValue)
    requires !Valid(st.data, toNumber)
    ensures var st1 := FieldChange(Submit(st, toNumber), f, v);
            && (Valid(st1.data, toNumber) ==> Submit(st1, toNumber).submitting)
            && forall g: TextField :: g != f ==> ErrorOf(Submit(st1, toNumber).errors, g)
                                                 == ErrorOf(Submit(st, toNumber).errors, g)
  {
    EditAffectsOnlyItsOwnMessage(Submit(st, toNumber), f, v, toNumber);
  }

  /** `isEditMode`: a non-empty id in the route; an empty id, like a missing
      one, means a new item. */
  function IsEditMode(equipmentId: Option<string>): (r: bool)
    ensures r ==> equipmentId.Some?
    ensures equipmentId == Some("") ==> !r
    ensures equipmentId.Some? && |equipmentId.value| > 0 ==> r
  {
    Present(equipmentId)
  }

  /** The message carried to the list page after a save. */
  function SavedMessage(equipmentId: Option<string>): (r: string)
    ensures IsEditMode(equipmentId) <==> r == "Equipment updated successfully"
    ensures !IsEditMode(equipmentId) ==> r == "Equipment created successfully"
  {
    if IsEditMode(equipmentId) then "Equipment updated successfully" else "Equipment created successfully"
  }

  /** Editing a field that is never validated leaves the verdict as it was. */
  lemma {:induction false} UnvalidatedEditKeepsVerdict(st: FormState, f: TextField, v: string, toNumber: string -> NumValue)
    requires f == DescriptionField || f == StatusField || f == PurchasePriceField
    ensures Valid(FieldChange(st, f, v).data, toNumber) <==> Valid(st.data, toNumber)
  {
    UnvalidatedFieldsIrrelevant(FieldChange(st, f, v).data, st.data, toNumber);
  }
}
