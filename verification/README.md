# Equipment rental: a Dafny model

This project models the application logic of a single-page equipment-rental app: RentEquip, a React/TypeScript app from the Mark-hil/Equirement-rental-system repository. It has two state containers:

- the **booking ledger**: bookings, the availability check, booking creation, and the status update that re-derives an item's availability;
- the **equipment registry**: lookups, add, partial update, delete, and the multi-criteria filter.

It also models the small pieces of logic inside the pages:

- the filter panel's toggles;
- URL-parameter parsing on the catalogue page;
- search, filter and pagination on the customer and staff list pages;
- the menu → confirm-dialog flows on the staff pages;
- the booking wizard's step validation and day counts;
- the equipment form's validation;
- the sign-in and sign-up handlers;
- the demo accounts;
- the four route guards;
- the two layout frames' navigation helpers.

Every handler is a pure function from the component's state to its next state. Navigation and redirects are returned as values (`Routing.Navigation`), never performed.

## Conventions

- **Dates.** A date string parsed by `new Date(s).getTime()` is a `Dates.Instant`: a millisecond count, or `Invalid` for `NaN`. Every comparison involving `Invalid` is false. Day counts are integer ceiling divisions by 86 400 000.
- **Text.** Strings are `seq<char>`. `toLowerCase`/`toUpperCase` are modelled on ASCII letters, and `trim` on the JavaScript white-space set. Substring search is `Text.Contains`.
- **JavaScript truthiness.** The truthiness of an optional string is `Wrappers.Present`: neither `undefined` nor `''`.
- **Injected values.** Clock readings, generated ids and `Number()` parsing are parameters (`now`, `newId`, `toNumber`).

## Modules

| file | module | what it holds |
|---|---|---|
| wrappers.dfy | Wrappers | `Option`, `Result`, string truthiness |
| seqs.dfy | Seqs | `filter`, `some`, `findIndex`, `find`, order-preserving subsequence |
| text.dfy | Text | trim, case mapping, substring tests, capitalisation |
| dates.dfy | Dates | instants, `Le`, ceiling division |
| types.dfy | Types | users, equipment items, bookings and their status unions |
| registry.dfy | Registry | the equipment registry |
| ledger.dfy | Ledger | the booking ledger |
| routing.dfy | Routing | locations, location state, navigation requests |
| paging.dfy | Paging | the table pager and the visible slice |
| menu_flow.dfy | MenuFlow | the row menu and confirm dialog pair |
| filter_panel.dfy | FilterPanel | the catalogue's filter panel |
| equipment_list.dfy | EquipmentListPage | the public catalogue page |
| equipment_detail.dfy | EquipmentDetailPage | the item page: carousel, rental days, book button |
| create_booking_page.dfy | CreateBookingPage | the booking wizard |
| customer_bookings.dfy | CustomerBookingsPage | the customer's rentals list |
| admin_bookings.dfy | AdminBookingsPage | the staff bookings list |
| admin_users.dfy | AdminUsersPage | the staff users list |
| admin_equipment.dfy | AdminEquipmentListPage | the staff equipment list |
| equipment_form.dfy | EquipmentFormPage | the staff add/edit equipment form |
| auth.dfy | Auth | the session and demo accounts |
| login_page.dfy | LoginPage | the sign-in page |
| register_page.dfy | RegisterPage | the sign-up page |
| guards.dfy | Guards | the four route guards |
| dashboard_layout.dfy | DashboardLayout | the staff frame |
| main_layout.dfy | MainLayout | the public frame |

## Model

| member | source | states |
|---|---|---|
| Registry.GetEquipmentById | src/context/EquipmentContext.tsx:66-68 | finds an item exactly when some item has the id; the result has that id and no earlier item does |
| Registry.GetEquipmentByCategory | src/context/EquipmentContext.tsx:70-72 | an order-preserving subsequence holding exactly the items of that category |
| Registry.GetEquipmentByLocation | src/context/EquipmentContext.tsx:74-76 | an order-preserving subsequence holding exactly the items at that location |
| Registry.AddEquipment | src/context/EquipmentContext.tsx:86-96 | appends exactly one item; it has the fresh id, equal created/updated stamps, and the draft's other fields; earlier items are untouched |
| Registry.UpdateEquipment | src/context/EquipmentContext.tsx:98-106 | items with another id are unchanged; matching items take each field the patch gives, keep each field it omits, and get a new `updatedAt` |
| Registry.UpdateUnknownIdIsNoOp | src/context/EquipmentContext.tsx:98-106 | an update naming an id no item has leaves the list unchanged and is not an error |
| Registry.StatusUpdateTwice | src/context/EquipmentContext.tsx:98-106 | applying the same availability patch twice equals applying it once |
| Registry.DeleteEquipment | src/context/EquipmentContext.tsx:108-110 | removes exactly the items with that id, keeps the rest in order, and is a no-op for an unknown id |
| Registry.AddThenGetAndDelete | src/context/EquipmentContext.tsx:86-110 | an added item is found by its fresh id, and deleting that id restores the list |
| Registry.FilterEquipment | src/context/EquipmentContext.tsx:112-154 | an order-preserving subsequence; every kept item meets each present criterion; every matching item is kept; no filters keep everything |
| Registry.FilterNarrowing | src/context/EquipmentContext.tsx:112-154 | setting additional filter fields never adds items |
| Registry.CategoryLookupIsFilter | src/context/EquipmentContext.tsx:70-72 | for a non-empty category, the lookup equals the filter with only that field |
| Registry.LocationLookupIsFilter | src/context/EquipmentContext.tsx:74-76 | for a non-empty location, the lookup equals the filter with only that field |
| Ledger.BookingIndex | src/context/BookingContext.tsx:58-60 | the position of the first booking with the id, or none exactly when no booking has it |
| Ledger.GetBookingById | src/context/BookingContext.tsx:58-60 | finds a booking exactly when one has the id; the result has that id |
| Ledger.GetBookingsByCustomerId | src/context/BookingContext.tsx:62-64 | an order-preserving subsequence holding exactly that customer's bookings |
| Ledger.GetBookingsByEquipmentId | src/context/BookingContext.tsx:66-68 | an order-preserving subsequence holding exactly that item's bookings |
| Ledger.Overlaps | src/context/BookingContext.tsx:88-98 | an unparseable stored date never conflicts; for well-ordered dates the three-clause test is closed-interval intersection, so touching endpoints conflict |
| Ledger.IsEquipmentAvailable | src/context/BookingContext.tsx:70-99 | available iff no booking on the item that is not cancelled and not excluded overlaps the request |
| Ledger.LedgerDays | src/context/BookingContext.tsx:133 | the ceiling of the interval in days, at least 1 for a start before the end |
| Ledger.CreateBooking | src/context/BookingContext.tsx:101-167 | succeeds iff every check passes; rejections come in source order, ending with unavailable exactly when a blocking booking overlaps an otherwise valid request; success appends one pending booking priced at days × daily rate, keeps earlier bookings, and marks the item reserved; the booking is stamped with the first clock read and the item with the later one |
| Ledger.DeriveStatus | src/context/BookingContext.tsx:184-200 | never maintenance; active → rented; pending or confirmed → reserved; completed or cancelled → rented iff another outstanding booking is active, else reserved iff one exists, else available |
| Ledger.SetStatus | src/context/BookingContext.tsx:175-181 | only bookings with the id change, and only their status and `updatedAt` |
| Ledger.UpdateBookingStatus | src/context/BookingContext.tsx:169-206 | fails with "Booking not found" and changes nothing iff no booking has the id; otherwise sets the status and re-derives the first matching booking's item status; the booking and the item each carry their own clock read |
| Ledger.CancelBooking | src/context/BookingContext.tsx:169-210 | fails with "Booking not found" iff no booking has the id; otherwise every booking with the id is cancelled and stamped with the first clock read, all other bookings unchanged; the first such booking's item takes the second clock read and becomes available iff no other booking on it is pending, confirmed or active, rented iff one of those is active, and never maintenance; every other item is unchanged |
| Ledger.CancelKeepsConsistency | src/context/BookingContext.tsx:208-210 | cancelling a booking in a store without double bookings keeps it so, with no condition on the booking |
| Ledger.DeriveAgrees | src/context/BookingContext.tsx:191-199 | the derived status depends only on the other outstanding bookings of the item |
| Ledger.SetStatusTwice | src/context/BookingContext.tsx:175-181 | setting the same status twice equals setting it once |
| Ledger.UpdateBookingStatusIdempotent | src/context/BookingContext.tsx:169-206 | repeating the same status update yields the same store |
| Ledger.CreateBookingPreservesConsistency | src/context/BookingContext.tsx:101-167 | from a store without double bookings, a successful creation keeps it so |
| Ledger.UpdateKeepsConsistency | src/context/BookingContext.tsx:169-181 | a status update that does not revive a cancelled booking keeps the store free of double bookings |
| Ledger.RevivingCancelledBookingDoubleBooks | src/context/BookingContext.tsx:169-181 | a concrete store where reviving a cancelled booking creates a double booking, since no transition is checked |
| FilterPanel.Toggle | src/components/equipment/EquipmentFilters.tsx:47-73 | clears the facet when it equals the value, else sets it; every other field is unchanged |
| FilterPanel.ToggleTwice | src/components/equipment/EquipmentFilters.tsx:47-73 | toggling the same value twice from unset or equal restores the filters |
| FilterPanel.ToggleTwiceFromOtherValue | src/components/equipment/EquipmentFilters.tsx:47-73 | from a different value, two toggles leave the facet unset, not restored |
| FilterPanel.TogglePrice | src/components/equipment/EquipmentFilters.tsx:75-82 | clears the range iff both bounds match the current range, else replaces it; nothing else changes |
| FilterPanel.TogglePriceTwice | src/components/equipment/EquipmentFilters.tsx:75-82 | picking a band twice restores a range that was unset or that band, and clears any other range |
| FilterPanel.SubmitSearch | src/components/equipment/EquipmentFilters.tsx:84-90 | stores no term iff the input is all white space, else the untrimmed input |
| FilterPanel.ClearFilters | src/components/equipment/EquipmentFilters.tsx:92-95 | the empty record, with no active filter, and an empty search box |
| FilterPanel.InactiveFiltersKeepAll | src/components/equipment/EquipmentFilters.tsx:97-106 | when no field is truthy, the registry filter keeps every item |
| FilterPanel.ClearShowsAll | src/components/equipment/EquipmentFilters.tsx:92-95 | after clearing, the registry filter keeps every item |
| FilterPanel.SearchActivates | src/components/equipment/EquipmentFilters.tsx:84-106 | a search with a non-blank term makes the filters active |
| FilterPanel.HasActiveFilters | src/components/equipment/EquipmentFilters.tsx:97-106 | inactive filters let every item through the registry filter; the empty record is inactive and any price range is active |
| FilterPanel.PriceBandsCover | src/components/equipment/EquipmentFilters.tsx:39-45 | the preset bands start at 0, end at 99999, each begins where the previous ends, and every price in between falls in one |
| FilterPanel.SharedEndpointInBothBands | src/components/equipment/EquipmentFilters.tsx:39-45 | adjacent preset bands share an endpoint, and an item priced exactly there matches both |
| EquipmentListPage.Get | src/pages/EquipmentListPage.tsx:17-20 | the first value under the key, or none exactly when the key is absent |
| EquipmentListPage.FromParam | src/pages/EquipmentListPage.tsx:20-33 | a parameter is taken iff it is present and non-empty |
| EquipmentListPage.ParseFilters | src/pages/EquipmentListPage.tsx:16-36 | sets only category, location and search term, each iff its parameter is non-empty; availability, condition and price are never set |
| EquipmentListPage.Initial | src/pages/EquipmentListPage.tsx:10 | starts with no filters |
| EquipmentListPage.OnQueryChange | src/pages/EquipmentListPage.tsx:35 | a URL change replaces the filters wholesale |
| EquipmentListPage.OnFilterChange | src/pages/EquipmentListPage.tsx:45-47 | the panel's filters replace the page's |
| EquipmentListPage.ClearAll | src/pages/EquipmentListPage.tsx:154 | resets the filters to the empty record |
| EquipmentListPage.Apply | src/pages/EquipmentListPage.tsx:39-43 | while loading, the shown list is kept; otherwise it is the subsequence of exactly the matching items, each as often as in the registry; the filters are never changed |
| EquipmentListPage.ResultLabel | src/pages/EquipmentListPage.tsx:81 | singular iff exactly one result |
| EquipmentListPage.EmptyQueryShowsAll | src/pages/EquipmentListPage.tsx:16-43 | a URL with none of the three parameters shows every item |
| EquipmentListPage.ClearAllShowsAll | src/pages/EquipmentListPage.tsx:39-43 | after "Clear all filters" every item is shown |
| EquipmentListPage.QueryCategoryWithinLookup | src/pages/EquipmentListPage.tsx:20-23 | a category parameter shows a subsequence of that category's lookup |
| Paging.Visible | src/pages/BookingsPage.tsx:170 | the rows of the current page: the list from page × rows-per-page, at most rows-per-page long, clipped to the list |
| Paging.ChangePage | src/pages/BookingsPage.tsx:75-77 | moves to the page, keeping the page size |
| Paging.ChangeRowsPerPage | src/pages/BookingsPage.tsx:79-82 | sets the size and returns to the first page |
| Paging.FirstPage | src/pages/BookingsPage.tsx:84-87 | returns to the first page, keeping the size |
| Paging.FirstPageIsPrefix | src/pages/BookingsPage.tsx:170 | the first page is the list's prefix |
| Paging.PageOfRow | src/pages/BookingsPage.tsx:170 | a row falls on exactly one page, its index divided by the page size |
| Paging.RowOnItsPage | src/pages/BookingsPage.tsx:170 | every row appears on its page at its remainder position |
| CustomerBookingsPage.Filtered | src/pages/BookingsPage.tsx:89-92 | an order-preserving subsequence of exactly the rows whose item name or status contains the term, ignoring case; an empty term keeps all |
| CustomerBookingsPage.Shown | src/pages/BookingsPage.tsx:169-170 | exactly the filtered rows from page × rows-per-page on, as many as fit on the page or remain, each a listed booking matching the search |
| CustomerBookingsPage.SearchChange | src/pages/BookingsPage.tsx:84-87 | sets the term and returns to the first page |
| CustomerBookingsPage.RowsPerPageChange | src/pages/BookingsPage.tsx:79-82 | sets the size and returns to the first page |
| CustomerBookingsPage.PageChange | src/pages/BookingsPage.tsx:75-77 | moves to the page |
| CustomerBookingsPage.SearchShowsLeadingMatches | src/pages/BookingsPage.tsx:84-170 | after a search, the shown rows are the leading matches |
| CustomerBookingsPage.LongerTermNarrows | src/pages/BookingsPage.tsx:89-92 | extending the term never adds rows |
| MenuFlow.MenuOpen | src/pages/admin/BookingsPage.tsx:136-139 | opens the menu on the row |
| MenuFlow.MenuClose | src/pages/admin/BookingsPage.tsx:141-144 | closes the menu and forgets the row |
| MenuFlow.Click | src/pages/admin/BookingsPage.tsx:146-150 | as written: the menu closes and forgets the row while the dialog opens with the action |
| MenuFlow.ClickKeepingSelection | src/pages/admin/BookingsPage.tsx:146-150 | the dialog opens with the action while the row stays selected |
| MenuFlow.ClickDisarms | src/pages/admin/BookingsPage.tsx:141-153 | after a click as written, a row and an action are never both selected |
| MenuFlow.ClickKeepingSelectionArms | src/pages/admin/BookingsPage.tsx:146-153 | with the selection kept, both are selected |
| AdminBookingsPage.ActionLabel | src/pages/admin/BookingsPage.tsx:166 | approve gives "Approved", cancel gives "Cancelled" |
| AdminBookingsPage.Filtered | src/pages/admin/BookingsPage.tsx:215-237 | an order-preserving subsequence of exactly the rows matching the search (name, user or id), the status when set, start ≥ from and end ≤ to when set; empty criteria keep all |
| AdminBookingsPage.SetRowStatus | src/pages/admin/BookingsPage.tsx:162-170 | only the row with the id gets the status, with no transition guard |
| AdminBookingsPage.StatusConfirm | src/pages/admin/BookingsPage.tsx:152-179 | without a selected row and action, nothing changes; otherwise that row gets the action's status and the dialog closes, and the menu, search term, pager and filters are left as they were |
| AdminBookingsPage.OpenMenu | src/pages/admin/BookingsPage.tsx:136-139 | selects the row and opens the menu; rows, dialog, search term, pager, filters and the filter dialog are unchanged |
| AdminBookingsPage.StatusClick | src/pages/admin/BookingsPage.tsx:146-150 | as written: opens the dialog with the action and forgets the row; nothing outside the menu and the dialog changes |
| AdminBookingsPage.StatusClickKeepingSelection | src/pages/admin/BookingsPage.tsx:146-150 | opens the dialog with the action and keeps the row; nothing outside the menu and the dialog changes |
| AdminBookingsPage.ConfirmAfterClickIsNoOp | src/pages/admin/BookingsPage.tsx:141-153 | after open menu then click, confirm changes nothing |
| AdminBookingsPage.ConfirmAfterCorrectedClick | src/pages/admin/BookingsPage.tsx:152-170 | with the selection kept, confirm sets the row's status |
| AdminBookingsPage.FilterChange | src/pages/admin/BookingsPage.tsx:195-200 | changes only the named filter field |
| AdminBookingsPage.ApplyFilters | src/pages/admin/BookingsPage.tsx:202-205 | closes the filter dialog and returns to the first page |
| AdminBookingsPage.ResetFilters | src/pages/admin/BookingsPage.tsx:207-213 | clears status and dates and does not touch the page |
| AdminBookingsPage.SearchChange | src/pages/admin/BookingsPage.tsx:190-193 | sets the term and returns to the first page |
| AdminBookingsPage.RowsPerPageChange | src/pages/admin/BookingsPage.tsx:185-188 | sets the size and returns to the first page |
| AdminBookingsPage.ResetLeavesOnlySearch | src/pages/admin/BookingsPage.tsx:207-237 | after a reset, a row is kept iff it matches the search |
| AdminBookingsPage.StatusFilterNarrows | src/pages/admin/BookingsPage.tsx:223 | setting a status filter never adds rows |
| AdminUsersPage.StatusLabel | src/pages/admin/UsersPage.tsx:172 | activate gives "Active", deactivate gives "Inactive" |
| AdminUsersPage.RoleLabel | src/pages/admin/UsersPage.tsx:201 | the action name with its first letter upper-cased, always one of the role filter's values |
| AdminUsersPage.RoleLabelInjective | src/pages/admin/UsersPage.tsx:320-322 | distinct role actions give distinct roles |
| AdminUsersPage.Filtered | src/pages/admin/UsersPage.tsx:240-255 | an order-preserving subsequence of exactly the users matching the search ("first last", email, department or position), the role and the status when set; empty criteria keep all |
| AdminUsersPage.GetInitials | src/pages/admin/UsersPage.tsx:283-285 | at most two characters: the upper-cased first letters of the non-empty names |
| AdminUsersPage.InitialsIgnoreCase | src/pages/admin/UsersPage.tsx:283-285 | lower-casing the names first gives the same initials |
| AdminUsersPage.SetUser | src/pages/admin/UsersPage.tsx:168-205 | only the user with the id changes, and only in the given fields |
| AdminUsersPage.StatusConfirm | src/pages/admin/UsersPage.tsx:158-185 | without a selected user and action, nothing changes; otherwise that user gets the status and the status dialog closes; the menu, search term, pager, role and status filters and the role dialog are left as they were |
| AdminUsersPage.RoleConfirm | src/pages/admin/UsersPage.tsx:187-214 | without a selected user and action, nothing changes; otherwise that user gets the capitalised role and the role dialog closes; the menu, search term, pager, role and status filters and the status dialog are left as they were |
| AdminUsersPage.OpenMenu | src/pages/admin/UsersPage.tsx:136-139 | selects the user and opens the menu |
| AdminUsersPage.StatusClick | src/pages/admin/UsersPage.tsx:146-150 | as written: opens the status dialog and forgets the user |
| AdminUsersPage.RoleClick | src/pages/admin/UsersPage.tsx:152-156 | as written: opens the role dialog and forgets the user |
| AdminUsersPage.StatusClickKeepingSelection | src/pages/admin/UsersPage.tsx:146-150 | opens the status dialog and keeps the user |
| AdminUsersPage.RoleClickKeepingSelection | src/pages/admin/UsersPage.tsx:152-156 | opens the role dialog and keeps the user |
| AdminUsersPage.ConfirmAfterClickIsNoOp | src/pages/admin/UsersPage.tsx:141-188 | after open menu then click, both confirms change nothing |
| AdminUsersPage.ConfirmAfterCorrectedClick | src/pages/admin/UsersPage.tsx:158-214 | with the selection kept, both confirms update the user |
| AdminUsersPage.RoleActionMatchesRoleFilter | src/pages/admin/UsersPage.tsx:197-205 | a user given a role by the corrected flow passes the role filter for that role's label |
| AdminUsersPage.SearchChange | src/pages/admin/UsersPage.tsx:225-228 | sets the term and returns to the first page |
| AdminUsersPage.RoleFilterChange | src/pages/admin/UsersPage.tsx:230-233 | sets the role filter and returns to the first page |
| AdminUsersPage.StatusFilterChange | src/pages/admin/UsersPage.tsx:235-238 | sets the status filter and returns to the first page |
| AdminUsersPage.RowsPerPageChange | src/pages/admin/UsersPage.tsx:220-223 | sets the size and returns to the first page |
| AdminEquipmentListPage.BasePath | src/pages/admin/EquipmentListPage.tsx:103-104 | "/admin" iff the path starts with "/admin", else "/manager" |
| AdminEquipmentListPage.Filtered | src/pages/admin/EquipmentListPage.tsx:162-166 | an order-preserving subsequence of exactly the items whose name, category or status contains the term, ignoring case |
| AdminEquipmentListPage.Shown | src/pages/admin/EquipmentListPage.tsx:248-249 | exactly the filtered items from page × rows-per-page on, as many as fit on the page or remain, each listed and matching the search |
| AdminEquipmentListPage.DeleteConfirm | src/pages/admin/EquipmentListPage.tsx:129-146 | without a selected item, nothing changes; otherwise exactly that id is removed, every other row kept as often as before and in order, and the dialog closes; the menu, search term and pager are left as they were |
| AdminEquipmentListPage.OpenMenu | src/pages/admin/EquipmentListPage.tsx:114-117 | selects the item and opens the menu |
| AdminEquipmentListPage.DeleteClick | src/pages/admin/EquipmentListPage.tsx:124-127 | as written: opens the dialog and forgets the item |
| AdminEquipmentListPage.DeleteClickKeepingSelection | src/pages/admin/EquipmentListPage.tsx:124-127 | opens the dialog and keeps the item |
| AdminEquipmentListPage.ConfirmAfterClickIsNoOp | src/pages/admin/EquipmentListPage.tsx:119-130 | after open menu then delete, confirm removes nothing |
| AdminEquipmentListPage.ConfirmAfterCorrectedClick | src/pages/admin/EquipmentListPage.tsx:129-139 | with the selection kept, confirm removes exactly the rows with that id and keeps every other row as often as before |
| AdminEquipmentListPage.SearchChange | src/pages/admin/EquipmentListPage.tsx:157-160 | sets the term and returns to the first page |
| AdminEquipmentListPage.RowsPerPageChange | src/pages/admin/EquipmentListPage.tsx:152-155 | sets the size and returns to the first page |
| AdminEquipmentListPage.PageChange | src/pages/admin/EquipmentListPage.tsx:148-150 | moves to the page |
| EquipmentFormPage.FieldChange | src/pages/admin/EquipmentFormPage.tsx:130-160 | sets one field and clears only that field's error |
| EquipmentFormPage.EditAffectsOnlyItsOwnMessage | src/pages/admin/EquipmentFormPage.tsx:130-160 | after editing one field, a fresh validation gives every other field the message it had before |
| EquipmentFormPage.MessageDependsOnField | src/pages/admin/EquipmentFormPage.tsx:196-248 | each field's validation message depends on that field's text alone |
| EquipmentFormPage.DateChange | src/pages/admin/EquipmentFormPage.tsx:162-167 | stores one picker's date, clears no message, and leaves the validation verdict and messages unchanged |
| EquipmentFormPage.SpecificationChange | src/pages/admin/EquipmentFormPage.tsx:169-178 | sets one specification and keeps the others, the rest of the form, and the validation outcome |
| EquipmentFormPage.AddImage | src/pages/admin/EquipmentFormPage.tsx:180-187 | appends exactly one placeholder image |
| EquipmentFormPage.RemoveAt | src/pages/admin/EquipmentFormPage.tsx:189-194 | removes exactly the i-th element, keeping order; an index out of range changes nothing |
| EquipmentFormPage.RemoveImage | src/pages/admin/EquipmentFormPage.tsx:189-194 | removes the i-th image and nothing else |
| EquipmentFormPage.RemoveUndoesAdd | src/pages/admin/EquipmentFormPage.tsx:180-194 | removing the image just added restores the form |
| EquipmentFormPage.RateError | src/pages/admin/EquipmentFormPage.tsx:219-225 | no error iff the rate is non-blank and parses to a positive number; "required" when blank, "must be a positive number" otherwise |
| EquipmentFormPage.ValidateForm | src/pages/admin/EquipmentFormPage.tsx:196-248 | valid iff no error is set iff the required fields are filled and the rate is positive, with each field's message |
| EquipmentFormPage.UnvalidatedFieldsIrrelevant | src/pages/admin/EquipmentFormPage.tsx:196-248 | forms agreeing on the validated fields get the same verdict and errors |
| EquipmentFormPage.UnvalidatedEditKeepsVerdict | src/pages/admin/EquipmentFormPage.tsx:196-248 | editing description, status or purchase price never changes the verdict |
| EquipmentFormPage.Submit | src/pages/admin/EquipmentFormPage.tsx:251-259 | an invalid form returns before the submitting flag is set |
| EquipmentFormPage.SubmitIdempotent | src/pages/admin/EquipmentFormPage.tsx:251-259 | submitting again without an edit changes nothing more |
| EquipmentFormPage.ResubmitAfterEdit | src/pages/admin/EquipmentFormPage.tsx:130-259 | after a rejected submit, an edit that makes the form valid lets the next submit start, and every other field keeps its message |
| EquipmentFormPage.IsEditMode | src/pages/admin/EquipmentFormPage.tsx:62 | edit mode needs a route id, and an empty id means a new item |
| EquipmentFormPage.SavedMessage | src/pages/admin/EquipmentFormPage.tsx:272 | "updated" iff an equipment id is present, else "created" |
| CreateBookingPage.DetailErrors | src/pages/CreateBookingPage.tsx:88-117 | each field's error is empty iff its check passes, with the source's messages |
| CreateBookingPage.HandleNext | src/pages/CreateBookingPage.tsx:88-125 | step 1 advances only when the details are valid, else sets the errors and stays; other steps advance by one |
| CreateBookingPage.HandleBack | src/pages/CreateBookingPage.tsx:127-129 | goes back one step, with no lower bound |
| CreateBookingPage.BackUndoesNext | src/pages/CreateBookingPage.tsx:88-129 | back after a successful next restores the wizard |
| CreateBookingPage.SameDayPasses | src/pages/CreateBookingPage.tsx:104-108 | an end on the start date passes, since the check is strict |
| CreateBookingPage.InputChange | src/pages/CreateBookingPage.tsx:131-145 | sets one text field and clears only its error |
| CreateBookingPage.DateChange | src/pages/CreateBookingPage.tsx:147-160 | sets one date and clears only its error |
| CreateBookingPage.InputChangeKeepsOtherVerdicts | src/pages/CreateBookingPage.tsx:131-145 | editing a text leaves the dates' and the other text's verdicts as they were; notes change no verdict and no message |
| CreateBookingPage.DateChangeKeepsOtherVerdicts | src/pages/CreateBookingPage.tsx:147-160 | moving a date leaves the text verdicts alone, and moving the end date leaves the start's verdict alone |
| CreateBookingPage.StartChangeCanInvalidateEnd | src/pages/CreateBookingPage.tsx:147-160 | a later start date can make an accepted end date fail, so editing one picker can change the other's verdict |
| CreateBookingPage.TotalDays | src/pages/CreateBookingPage.tsx:162-170 | 0 iff a date is missing, else the ceiling of the distance in days plus one |
| CreateBookingPage.TotalDaysSymmetric | src/pages/CreateBookingPage.tsx:162-170 | swapping the dates gives the same count |
| CreateBookingPage.SameInstantIsOneDay | src/pages/CreateBookingPage.tsx:162-170 | equal dates count as one day |
| CreateBookingPage.TotalCost | src/pages/CreateBookingPage.tsx:172-175 | days × daily rate, or 0 without equipment |
| CreateBookingPage.PageCountsOneMoreDay | src/pages/CreateBookingPage.tsx:169 | for start before end, the page counts one day more than the ledger prices |
| EquipmentDetailPage.Navigate | src/pages/EquipmentDetailPage.tsx:135-143 | no-op until loaded; prev wraps from 0 to the last image, next from the last to 0; the index stays within the images |
| EquipmentDetailPage.PrevUndoesNext | src/pages/EquipmentDetailPage.tsx:138-141 | prev and next undo each other within the images |
| EquipmentDetailPage.RentalDays | src/pages/EquipmentDetailPage.tsx:126-133 | unchanged until both dates are set; then the ceiling of the distance in days, at least 1 |
| EquipmentDetailPage.RentalDaysAgrees | src/pages/EquipmentDetailPage.tsx:126-133 | for a period the ledger accepts, the page's figure equals the ledger's charged days and the wizard counts one more |
| EquipmentDetailPage.RentalDaysSymmetric | src/pages/EquipmentDetailPage.tsx:126-133 | the figure does not depend on which date comes first |
| EquipmentDetailPage.InitialRentalDays | src/pages/EquipmentDetailPage.tsx:31-34 | for the dates the page sets once on mount, two clock reads apart, the figure is 3 when both reads agree and 4 when the clock moved between them |
| EquipmentDetailPage.BookLabel | src/pages/EquipmentDetailPage.tsx:446-452 | "Book Now" iff the button is enabled iff the item is available |
| EquipmentDetailPage.BookNow | src/pages/EquipmentDetailPage.tsx:149-155 | as written: signed in, to the booking form; otherwise to sign-in with the item path as a plain string |
| EquipmentDetailPage.BookNowWithLocation | src/pages/EquipmentDetailPage.tsx:149-155 | as `BookNow`, but passing a location to come back to |
| Auth.WithoutPassword | src/context/AuthContext.tsx:79-81 | the session user carries the account's id, name, email and role and no password |
| Auth.Login | src/context/AuthContext.tsx:62-90 | signs in iff some demo account has exactly that email and password; failure keeps the user and sets the error, and loading always ends |
| Auth.Register | src/context/AuthContext.tsx:92-122 | a demo account's email is refused; otherwise the new user is a customer |
| Auth.Logout | src/context/AuthContext.tsx:124-127 | clears the user, so the session is no longer authenticated |
| Auth.IsAuthenticated | src/context/AuthContext.tsx:131 | authenticated exactly when a user is stored |
| Auth.AuthenticationFollowsSession | src/context/AuthContext.tsx:62-131 | signing in authenticates iff the credentials match a demo account, else keeps the flag; registering authenticates iff the email is new, else keeps it; signing out clears it |
| Auth.MockEmailsDistinct | src/context/AuthContext.tsx:17-42 | no two demo accounts share an email |
| Auth.LoginGivesAccountRole | src/context/AuthContext.tsx:71-83 | signing in with an account's credentials gives a session with that account's role and id |
| Auth.RegisteredCannotLogIn | src/context/AuthContext.tsx:92-122 | after registering, signing in with the same credentials fails |
| LoginPage.RedirectTarget | src/pages/LoginPage.tsx:17 | the remembered location's path when one was passed and is non-empty, else "/" |
| LoginPage.Submit | src/pages/LoginPage.tsx:19-35 | an empty field sets the message and skips sign-in; otherwise sign-in runs and the page navigates to the target with replace |
| LoginPage.WrongCredentialsStillNavigate | src/pages/LoginPage.tsx:28-30 | with wrong credentials, the page still navigates, and the session keeps its user and records the failure |
| LoginPage.DemoCredentials | src/pages/LoginPage.tsx:42-51 | each role's pair belongs to a demo account of that role |
| LoginPage.DemoLogin | src/pages/LoginPage.tsx:37-59 | each demo button signs in with its role and navigates to the target |
| LoginPage.GuardRedirectRoundTrip | src/components/auth/RequireAuth.tsx:21-24 | a guard's redirect remembers the page, and signing in returns to it |
| LoginPage.BookNowLosesItem | src/pages/EquipmentDetailPage.tsx:153 | after "Book Now" while signed out, sign-in lands on "/" |
| LoginPage.BookNowWithLocationReturnsToItem | src/pages/LoginPage.tsx:17 | passing a location brings the visitor back to the item |
| RegisterPage.Submit | src/pages/RegisterPage.tsx:25-56 | the required error comes first, then the mismatch; success sets loading and goes to sign-in with the success message |
| RegisterPage.BlankFieldsAccepted | src/pages/RegisterPage.tsx:25-56 | any four non-empty fields, white space only included, with a matching confirmation are accepted and lead to sign-in |
| RegisterPage.SubmitDependsOnlyOnForm | src/pages/RegisterPage.tsx:25-56 | the outcome depends on the form alone, and resubmitting a rejected form repeats the same rejection |
| RegisterPage.EmptyConfirmationIsMismatch | src/pages/RegisterPage.tsx:30-38 | an empty confirmation is reported as a mismatch |
| Guards.RequireAuth | src/components/auth/RequireAuth.tsx:13-26 | spinner while loading, sign-in redirect remembering the page when signed out, else the page, whatever the role |
| Guards.RequireAdmin | src/components/auth/RequireAdmin.tsx:13-31 | the page iff loaded, signed in and an administrator; other roles go home |
| Guards.RequireManager | src/components/auth/RequireManager.tsx:13-31 | the page iff loaded, signed in and an administrator or equipment manager; customers go home |
| Guards.RequireCustomer | src/components/auth/RequireCustomer.tsx:13-31 | as written: never renders the page; every signed-in user is sent home |
| Guards.RequireCustomerRole | src/components/auth/RequireCustomer.tsx:13-31 | the page iff loaded, signed in and a customer |
| Guards.GuardsNest | src/components/auth/RequireManager.tsx:26 | whoever the admin guard admits, the manager guard admits, and whoever that admits, the sign-in guard admits |
| Guards.CustomerGuardsDifferOnlyOnCustomers | src/components/auth/RequireCustomer.tsx:26-29 | the two customer guards differ exactly on signed-in customers |
| DashboardLayout.BasePath | src/layouts/DashboardLayout.tsx:26-28 | "/admin" iff the user is an administrator, else "/manager" |
| DashboardLayout.NavigationItems | src/layouts/DashboardLayout.tsx:55-87 | Dashboard, Equipment and Bookings under the base path, then Users and Reports under "/admin" iff administrator |
| DashboardLayout.ActiveIsPrefix | src/layouts/DashboardLayout.tsx:51-53 | a highlighted item's path is a prefix of the current path |
| DashboardLayout.SectionActivatesBase | src/layouts/DashboardLayout.tsx:51-53 | a page below a section is below the base path too |
| DashboardLayout.ItemActivatesBase | src/layouts/DashboardLayout.tsx:51-87 | wherever any later item is highlighted, Dashboard is too |
| DashboardLayout.HeaderTitle | src/layouts/DashboardLayout.tsx:219 | as written: the first highlighted item's name, or "Dashboard" |
| DashboardLayout.HeaderAlwaysDashboard | src/layouts/DashboardLayout.tsx:219 | the heading as written is "Dashboard" on every path |
| DashboardLayout.SectionTitle | src/layouts/DashboardLayout.tsx:219 | the first highlighted section after Dashboard, else "Dashboard" |
| DashboardLayout.PrefixesAgree | src/layouts/DashboardLayout.tsx:51-53 | two paths that are both prefixes of a path agree where they overlap |
| DashboardLayout.SectionsExclusive | src/layouts/DashboardLayout.tsx:51-87 | no path highlights two sections |
| DashboardLayout.SectionTitleNamesSection | src/layouts/DashboardLayout.tsx:219 | inside a section, the section heading names it |
| DashboardLayout.RoleCaption | src/layouts/DashboardLayout.tsx:251 | "Administrator" iff administrator, else "Equipment Manager" |
| DashboardLayout.HandleLogout | src/layouts/DashboardLayout.tsx:46-49 | signs out and goes home |
| MainLayout.DashboardLink | src/layouts/MainLayout.tsx:42-46 | "/admin" for administrators, "/manager" for equipment managers, "/profile" otherwise |
| MainLayout.MenuEntryLabel | src/layouts/MainLayout.tsx:118-128 | "Dashboard" iff administrator or equipment manager, else "Profile" |
| MainLayout.MenuEntryMatchesLink | src/layouts/MainLayout.tsx:113-128 | the entry reads "Dashboard" iff it leads off the profile page, and then to the staff frame's base path |
| MainLayout.HeaderLinks | src/layouts/MainLayout.tsx:62-80 | Home and Equipment always; "My Rentals" iff signed in |
| MainLayout.ExactVersusPrefixHighlight | src/layouts/MainLayout.tsx:36-40 | for every link path and non-empty rest, the link's own page is highlighted in both frames, and the page below it only in the staff frame |
| MainLayout.HandleLogout | src/layouts/MainLayout.tsx:30-34 | signs out, closes the user menu, goes home |
| MainLayout.LogoutHidesRentals | src/layouts/MainLayout.tsx:72-79 | after signing out, "My Rentals" is gone |

## Left out

- **Rendering.** JSX rendering, styles, colour helpers, charts and icons have no behaviour to state.
- **Asynchrony and storage.** These are not modelled:
  - `setTimeout` delays, promises and React effects and batching;
  - `localStorage`;
  - loading the mock data;
  - `console` logging.

  Each handler is one synchronous transition. The mock data is built from `Math.random` and the clock, so it is not modelled.

  One consequence matters for the ledger. The bookings effect in `src/context/BookingContext.tsx:37-56` depends on the equipment list. Every booking write also updates an item, so 800 ms later the bookings are replaced by freshly generated mock data. The consistency lemmas (`Ledger.CreateBookingPreservesConsistency`, `Ledger.UpdateKeepsConsistency`, `Ledger.CancelKeepsConsistency`) therefore hold between reloads only; the regenerated data is not checked for double bookings.
- **Generated values.** Generated ids, clock readings and ISO timestamp strings are parameters. Timestamps are integers.
- **Case mapping.** `toLowerCase`/`toUpperCase` are modelled on ASCII letters only. Unicode case mapping is not modelled.
- **Number parsing.** `Number()` in the equipment form is a parameter. `parseInt` of the rows-per-page selector is not modelled; the selector's options are numbers.
- **Pricing extras.** The service fee, insurance and `toFixed` formatting on the detail page are floating-point presentation.
- **Date pickers.** On the booking wizard the date pickers hold `Date | null` values. They are modelled as optional millisecond counts, so a picker's invalid `Date` is not represented there. The item page has no picker: it sets its two dates once on mount, from the clock, and never changes them (`EquipmentDetailPage.InitialRentalDays`). `EquipmentDetailPage.RentalDays` is stated for any pair of dates, which covers those. The staff bookings filter keeps `Option<Instant>`, which does represent an invalid date.
- **Prices.** `pricePerDay` and `totalPrice` are `number` in the source and the booking total is a floating-point product. The model uses whole numbers, as the app's data and price bands do; fractional rates are not modelled.
- **Registry.UpdateEquipment:** the patch covers the editable fields. A `Partial<Equipment>` in the source may also carry `id`, `createdAt`, `features` and `specifications`; the model's patch cannot, so those are always kept.
- **Registry.UpdateEquipment: unknown ids.** The code maps over the list and silently does nothing, and the model follows the code.
- **Ledger.DeriveStatus: fallback.** The source's fallback of `'available'` for an unlisted status is unreachable, because the status union is total.
- **Auth.Register:** the password is accepted and ignored, as in the source.
- **RegisterPage.Submit:** the one-second delay before navigating is folded into the submit. The `catch` branch is unreachable and is not modelled. So is the per-field `handleChange`, a generic record update.
- **AdminBookingsPage.StatusConfirm:** the in-progress flag is not modelled. The same holds for the users and equipment confirms.
- **Registration message.** The sign-in page never reads the success message it is sent. That is stated through `LoginPage.RedirectTarget`, whose only input from the state is `from`.

## Findings

| source | as written | input that shows it | evidently intended | confidence | as-written member | corrected member |
|---|---|---|---|---|---|---|
| src/pages/admin/BookingsPage.tsx:141-153 | `handleStatusClick` calls `handleMenuClose`, which nulls `selectedBooking`, so `handleStatusConfirm` always returns early | open the menu on any booking, choose Approve, confirm | the row chosen in the menu is updated | high; not executed | AdminBookingsPage.ConfirmAfterClickIsNoOp | AdminBookingsPage.ConfirmAfterCorrectedClick |
| src/pages/admin/UsersPage.tsx:141-159 | `handleStatusClick` and `handleRoleClick` null `selectedUser`, so both confirms return early | open the menu on any user, choose Activate or Make Admin, confirm | the chosen user is updated | high; not executed | AdminUsersPage.ConfirmAfterClickIsNoOp | AdminUsersPage.ConfirmAfterCorrectedClick |
| src/pages/admin/EquipmentListPage.tsx:119-130 | `handleDeleteClick` nulls `selectedEquipment`, so `handleDeleteConfirm` removes nothing | open the menu on any item, choose Delete, confirm | the chosen item is removed | high; not executed | AdminEquipmentListPage.ConfirmAfterClickIsNoOp | AdminEquipmentListPage.ConfirmAfterCorrectedClick |
| src/components/auth/RequireCustomer.tsx:26 | compares the role with `'user'`, which no role is stored as | a signed-in customer opening `/bookings` | customers reach their bookings | high; not executed | Guards.RequireCustomer | Guards.RequireCustomerRole |
| src/pages/EquipmentDetailPage.tsx:153 | passes `from` as a string, but the sign-in page reads `from.pathname` | signed out, "Book Now" on item 5, then sign in | return to `/equipment/5` | medium; not executed | LoginPage.BookNowLosesItem | LoginPage.BookNowWithLocationReturnsToItem |
| src/layouts/DashboardLayout.tsx:219 | the heading is the first highlighted item, and Dashboard is highlighted on every path below the base path | an administrator on `/admin/users` | heading "Users" | medium; not executed | DashboardLayout.HeaderAlwaysDashboard | DashboardLayout.SectionTitleNamesSection |
