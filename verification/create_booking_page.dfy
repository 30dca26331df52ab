/** The customer's booking wizard: the booking-details step and its
    validation, moving between steps, field edits, and the day and cost
    summary. Dates are the date pickers' values in milliseconds. */
module CreateBookingPage {
  import opened Wrappers
  import opened Text
  import opened Dates
  import Ledger

  datatype BookingForm = BookingForm(
    startDate: Option<int>,
    endDate: Option<int>,
    purpose: string,
    location: string,
    notes: string)

  datatype StepErrors = StepErrors(startDate: string, endDate: string, purpose: string, location: string)

  const NoErrors := StepErrors("", "", "", "")

  /** The wizard's state; it opens on step 1, the equipment being chosen. */
  datatype WizardState = WizardState(activeStep: int, form: BookingForm, errors: StepErrors)

  /** The messages the details step produces; `now` is the clock reading. */
  function DetailErrors(form: BookingForm, now: int): (r: StepErrors)
    ensures r.startDate == "" <==> form.startDate.Some? && form.startDate.value >= now
    ensures r.endDate == "" <==> form.endDate.Some? && (form.startDate.Some? ==> form.endDate.value >= form.startDate.value)
    ensures r.purpose == "" <==> !IsBlank(form.purpose)
    ensures r.location == "" <==> !IsBlank(form.location)
  {
    StepErrors(
      if form.startDate.None? then "Start date is required"
      else if form.startDate.value < now then "Start date cannot be in the past"
      else "",
      if form.endDate.None? then "End date is required"
      else if form.startDate.Some? && form.endDate.value < form.startDate.value then "End date must be after start date"
      else "",
      if IsBlank(form.purpose) then "Purpose is required" else "",
      if IsBlank(form.location) then "Location is required" else "")
  }

  /** The details step passes: both dates chosen, the start not in the past,
      the end not before the start (the same day passes), and a purpose and
      location that are not blank. */
  predicate DetailsValid(form: BookingForm, now: int) {
    && form.startDate.Some? && form.startDate.value >= now
    && form.endDate.Some? && form.endDate.value >= form.startDate.value
    && !IsBlank(form.purpose) && !IsBlank(form.location)
  }

  /** `handleNext`: on step 1 an invalid form shows its messages and stays;
      otherwise the wizard moves one step on, keeping the old messages. */
  function HandleNext(st: WizardState, now: int): (r: WizardState)
    ensures r.form == st.form
    ensures st.activeStep != 1 ==> r.activeStep == st.activeStep + 1 && r.errors == st.errors
    ensures st.activeStep == 1 && DetailsValid(st.form, now) ==>
              r.activeStep == 2 && r.errors == st.errors
    ensures st.activeStep == 1 && !DetailsValid(st.form, now) ==>
              r.activeStep == 1 && r.errors == DetailErrors(st.form, now) && r.errors != NoErrors
  {
    if st.activeStep == 1 then
      var errors := DetailErrors(st.form, now);
      if errors != NoErrors then st.(errors := errors)
      else st.(activeStep := st.activeStep + 1)
    else st.(activeStep := st.activeStep + 1)
  }

  /** `handleBack`: one step back, with no lower bound. */
  function HandleBack(st: WizardState): (r: WizardState)
    ensures r.activeStep == st.activeStep - 1 && r == st.(activeStep := r.activeStep)
  {
    st.(activeStep := st.activeStep - 1)
  }

  /** Leaving step 1 and coming back restores the step. */
  lemma BackUndoesNext(st: WizardState, now: int)
    requires st.activeStep != 1 || DetailsValid(st.form, now)
    ensures HandleBack(HandleNext(st, now)) == st
  {
  }

  /** A booking that starts and ends on the same instant passes the step. */
  lemma SameDayPasses(form: BookingForm, now: int)
    requires form.startDate.Some? && form.startDate.value >= now && form.endDate == form.startDate
    requires !IsBlank(form.purpose) && !IsBlank(form.location)
    ensures DetailErrors(form, now) == NoErrors
  {
  }

  datatype TextInput = PurposeInput | LocationInput | NotesInput

  /** `handleInputChange`: the text takes the value; its message, if any,
      is cleared and the others are kept. */
  function InputChange(st: WizardState, f: TextInput, v: string): (r: WizardState)
    ensures f == PurposeInput ==> r.form == st.form.(purpose := v) && r.errors == st.errors.(purpose := "")
    ensures f == LocationInput ==> r.form == st.form.(location := v) && r.errors == st.errors.(location := "")
    ensures f == NotesInput ==> r.form == st.form.(notes := v) && r.errors == st.errors
    ensures r.activeStep == st.activeStep
  {
    match f
    case PurposeInput =>
      st.(form := st.form.(purpose := v), errors := if st.errors.purpose != "" then st.errors.(purpose := "") else st.errors)
    case LocationInput =>
      st.(form := st.form.(location := v), errors := if st.errors.location != "" then st.errors.(location := "") else st.errors)
    case NotesInput =>
      st.(form := st.form.(notes := v))
  }

  datatype DateInput = StartInput | EndInput

  /** `handleDateChange`: likewise for the two date pickers. */
  function DateChange(st: WizardState, f: DateInput, d: Option<int>): (r: WizardState)
    ensures f == StartInput ==> r.form == st.form.(startDate := d) && r.errors == st.errors.(startDate := "")
    ensures f == EndInput ==> r.form == st.form.(endDate := d) && r.errors == st.errors.(endDate := "")
    ensures r.activeStep == st.activeStep
  {
    match f
    case StartInput =>
      st.(form := st.form.(startDate := d), errors := if st.errors.startDate != "" then st.errors.(startDate := "") else st.errors)
    case EndInput =>
      st.(form := st.form.(endDate := d), errors := if st.errors.endDate != "" then st.errors.(endDate := "") else st.errors)
  }

  /** Editing a text changes at most that text's verdict: the dates' and
      the other text's messages from a fresh validation are as before, and
      notes affect nothing. */
  lemma InputChangeKeepsOtherVerdicts(st: WizardState, f: TextInput, v: string, now: int)
    ensures var before := DetailErrors(st.form, now);
            var after := DetailErrors(InputChange(st, f, v).form, now);
            && after.startDate == before.startDate && after.endDate == before.endDate
            && (f != PurposeInput ==> after.purpose == before.purpose)
            && (f != LocationInput ==> after.location == before.location)
            && (f == NotesInput ==> after == before && InputChange(st, f, v).errors == st.errors)
  {
  }

  /** Moving a date leaves the text fields' verdicts alone; moving the end
      date leaves the start date's verdict alone too, while moving the start
      date can change the end date's, which is checked against it. */
  lemma DateChangeKeepsOtherVerdicts(st: WizardState, f: DateInput, d: Option<int>, now: int)
    ensures var before := DetailErrors(st.form, now);
            var after := DetailErrors(DateChange(st, f, d).form, now);
            && after.purpose == before.purpose && after.location == before.location
            && (f == EndInput ==> after.startDate == before.startDate)
  {
  }

  /** A later start date can turn a valid end date into one before the
      start: editing one picker can change the other's verdict. */
  lemma StartChangeCanInvalidateEnd()
    ensures var st := WizardState(1, BookingForm(Some(0), Some(5), "p", "l", ""), NoErrors);
            && DetailErrors(st.form, 0).endDate == ""
            && DetailErrors(DateChange(st, StartInput, Some(10)).form, 0).endDate != ""
  {
  }

  /** `calculateTotalDays`: zero until both dates are chosen, otherwise the
      whole days between them (any part counting) plus one, so that both
      the first and the last day are counted. */
  function TotalDays(startDate: Option<int>, endDate: Option<int>): (r: int)
    ensures r == 0 <==> startDate.None? || endDate.None?
    ensures startDate.Some? && endDate.Some? ==>
              r >= 1 && DayMs * (r - 2) < Abs(endDate.value - startDate.value) <= DayMs * (r - 1)
  {
    if startDate.None? || endDate.None? then 0
    else CeilDiv(Abs(endDate.value - startDate.value), DayMs) + 1
  }

  /** The order of the two dates does not matter. */
  lemma TotalDaysSymmetric(a: Option<int>, b: Option<int>)
    ensures TotalDays(a, b) == TotalDays(b, a)
  {
  }

  /** Two dates on the same instant count as one day. */
  lemma SameInstantIsOneDay(t: int)
    ensures TotalDays(Some(t), Some(t)) == 1
  {
  }

  /** `calculateTotalCost`: the day count times the daily rate, or zero while
      the equipment is not loaded. */
  function TotalCost(startDate: Option<int>, endDate: Option<int>, dailyRate: Option<int>): (r: int)
    ensures dailyRate.None? ==> r == 0
    ensures startDate.None? || endDate.None? ==> r == 0
    ensures dailyRate.Some? ==> r == TotalDays(startDate, endDate) * dailyRate.value
  {
    TotalDays(startDate, endDate) * dailyRate.GetOr(0)
  }

  /** For a period the ledger would accept, the wizard counts one day more
      than the ledger charges for. */
  lemma PageCountsOneMoreDay(s: int, e: int)
    requires s < e
    ensures TotalDays(Some(s), Some(e)) == Ledger.LedgerDays(s, e) + 1
  {
  }
}
