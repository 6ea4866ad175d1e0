# Trip booking wizard — a Dafny model

This project models the core of a single-page trip booking wizard for chauffeured
vehicles. The wizard has four screens:

- **create-trip form**: a trip name, a start location, a destination, fixed or flexible dates and a passenger count;
- **vehicle selection**: the editable route list, the multi-trip tabs, the vehicle picker and in-place editors for passengers and dates;
- **booking**: price summary, route stops and map markers, and the confirm button;
- **dashboard**: every trip with a status filter, per-status counts and badges, and a "Continue" action.

The screens hand data to each other through a session store. Here that store is a set of `Option`
slots, and navigation is the `Screen` a handler asks for.

Modules:

| module | file | models |
|---|---|---|
| `Wrappers` | wrappers.dfy | `Option` |
| `Text` | text.dfy | JavaScript whitespace, `trim()` and the decimal rendering of a number |
| `TripModel` | trip_model.dfy | `TripData`, date ranges, screens, the load-or-redirect outcome of a screen mount |
| `LocationList` | location_list.dfy | the route list: remove, move, relabel, the rebuild from trip data, and the save of an edited list |
| `VehicleMap` | vehicle_map.dfy | the vehicle selection map: checkbox, quantity steps, the details dialog |
| `TripTabs` | trip_tabs.dfy | the tab state as a value, every tab action as a function, and the invariant the actions keep |
| `VehicleSelection` | vehicle_selection.dfy | the vehicle-selection screen as a class whose fields are its React state and whose methods are its handlers |
| `Booking` | booking.dfy | pricing, line subtotals, the fee/tax/total summary, route stops, marker letters and positions, loading and confirming |
| `CreateTripForm` | create_trip_form.dfy | form validity and submit |
| `Dashboard` | dashboard.dfy | the trip list, the status filter and counts, badge labels, Continue |

A handler and the effect it triggers run as one step. The vehicle-selection screen rebuilds
its route list from the trip data and the extra destinations. It also refreshes the list's
snapshot when not in edit mode. This happens whenever the trip-data object, the extras array
or the edit-mode flag changes, and React compares the two objects by identity, not by value.
The class therefore gives every trip-data object and extras array a number when it is
created (`ids`), and a tab record keeps the numbers of the objects it holds. A handler that
sets a new object, or flips edit mode, ends with the rebuild (`SyncRoute`). Switching to a tab
whose record holds the very objects that are live sets the same objects again. Then the
rebuild does not run, and the list, edits included, stays as it is (`ReclickKeepsDrag`).

Each tab handler of the class is proved equal to its counterpart in `TripTabs`, read off the
handler's fields (`TabView`). Each such handler also keeps the tab invariant
(`Valid` / `TripTabs.Inv`):

- at most one confirmation dialog is open;
- the delete confirmation is open only on a deletable tab;
- the discard confirmation is open only on a draft;
- no vehicle quantity, live or stored, is below one.

## Model

| member | source | states |
|---|---|---|
| Text.TrimStart | src/app/components/CreateTripForm.tsx:44 | a suffix of the input; what it drops is all whitespace and what it keeps does not start with whitespace |
| Text.TrimEnd | src/app/components/CreateTripForm.tsx:44 | a prefix of the input; what it drops is all whitespace and what it keeps does not end with whitespace |
| Text.Trim | src/app/components/CreateTripForm.tsx:44 | `trim()`: never longer than the input, and the result neither starts nor ends with whitespace |
| Text.TrimIsSlice | src/app/components/CreateTripForm.tsx:44 | what `trim()` leaves is a slice of the input with only whitespace before and after it |
| Text.TrimEmptyIffBlank | src/app/components/VehicleSelection.tsx:442 | trimming yields "" exactly when the string is all whitespace |
| Text.TrimOfTrimmed | src/app/components/CreateTripForm.tsx:44 | trimming is idempotent |
| Text.NatToString | src/app/components/VehicleSelection.tsx:576 | `${n}` (and `toString()` at BookingPage.tsx:141): at least one decimal digit, a single digit exactly below 10, no leading zero |
| Text.NatToStringInjective | src/app/components/BookingPage.tsx:141 | distinct numbers render as distinct decimal strings |
| Text.NatToStringLength | src/app/components/BookingPage.tsx:141 | a number below 10^k has at most k decimal digits |
| LocationList.RemoveAt | src/app/components/VehicleSelection.tsx:419-422 | removing index i drops exactly that element (length, positions, multiset); an out-of-range index changes nothing |
| LocationList.Move | src/app/components/VehicleSelection.tsx:411-417 | the dragged element lands at the hover index, the list is a permutation of the old one, and removing the moved element from both lists gives the same rest |
| LocationList.MoveRoundTrip | src/app/components/VehicleSelection.tsx:411-417 | dragging back from the hover index to the drag index restores the list |
| LocationList.MoveInPlace | src/app/components/VehicleSelection.tsx:411-417 | a drag onto its own position changes nothing |
| LocationList.Relabel | src/app/components/VehicleSelection.tsx:444-446 | ids and length unchanged; items with the id get the new address, all others are untouched |
| LocationList.RelabelOne | src/app/components/VehicleSelection.tsx:444-446 | with distinct ids, relabelling item k's id changes item k only |
| LocationList.RelabelAbsent | src/app/components/VehicleSelection.tsx:444-446 | relabelling an id not in the list changes nothing |
| LocationList.RouteLocations | src/app/components/VehicleSelection.tsx:334-346 | the rebuilt list has 2 + extras items whose labels are start, destination, then the extras in order |
| LocationList.AdditionalLocations | src/app/components/VehicleSelection.tsx:341-344 | extra destination k becomes the item "additional-k" carrying that address |
| LocationList.AdditionalIdsDistinct | src/app/components/VehicleSelection.tsx:341-344 | "additional-k" ids are distinct for distinct k and never "start" or "destination" |
| LocationList.RouteLocationsWellFormed | src/app/components/VehicleSelection.tsx:334-346 | a rebuilt list has distinct ids, only its first item is the start and only its second the main destination |
| LocationList.SaveEdits | src/app/components/VehicleSelection.tsx:452-476 | an empty list saves nothing; otherwise the first label is the start, the second (or the first again) the destination, the rest the extras, and no other trip field changes |
| LocationList.SaveThenRebuild | src/app/components/VehicleSelection.tsx:452-484 | after a save, the rebuilt list has the saved labels in the saved order; a one-item list comes back as that address twice |
| LocationList.SaveRebuiltIsIdentity | src/app/components/VehicleSelection.tsx:452-484 | saving an unedited rebuilt list gives back the same trip data and extras |
| VehicleMap.SetChecked | src/app/components/VehicleSelection.tsx:355-365 | checking sets quantity 1, unchecking deletes the key, no other key changes, quantities stay positive |
| VehicleMap.ChangeQuantity | src/app/components/VehicleSelection.tsx:367-379 | the quantity becomes max(0, q + delta) and the key is deleted when that is 0; no other key changes, quantities stay positive |
| VehicleMap.SetQuantity | src/app/components/VehicleSelection.tsx:386-394 | the details dialog writes its quantity under the vehicle's key; nothing else changes |
| VehicleMap.DetailsStart | src/app/components/VehicleSelection.tsx:381-384 | the dialog opens with the selected quantity, or 1 for an unselected vehicle; never below 1 |
| VehicleMap.DetailsDecrement | src/app/components/VehicleSelection.tsx:1248 | the minus button takes one off a quantity above 1 and leaves 1 otherwise, never going below 1 |
| VehicleMap.DetailsIncrement | src/app/components/VehicleSelection.tsx:1257 | the plus button adds exactly one, at least 1 from a non-negative start, and the minus button takes it back from a quantity of one or more |
| VehicleMap.QuantityStepsCancel | src/app/components/VehicleSelection.tsx:367-379 | a plus then a minus on a positive selection restores it |
| VehicleMap.CheckUncheck | src/app/components/VehicleSelection.tsx:355-365 | check then uncheck removes the vehicle whatever its earlier quantity |
| TripTabs.CreateTrip | src/app/components/VehicleSelection.tsx:560-594 | a new draft tab becomes active with blank drafts and default trip data; a non-draft active trip is flushed into the records, a draft is not |
| TripTabs.SaveDraft | src/app/components/VehicleSelection.tsx:596-621 | disabled unless both draft strings are non-empty; otherwise the draft becomes a saved record named by its strings and the session slot is overwritten |
| TripTabs.SavedDraftRoute | src/app/components/VehicleSelection.tsx:596-621 | a saved draft shows exactly its start and destination |
| TripTabs.ReturnToTrip1 | src/app/components/VehicleSelection.tsx:635-661 | the active record is dropped, "trip-1" becomes active and reloads trip data from the session slot when present; other records and live extras and vehicles are kept |
| TripTabs.RequestDiscard | src/app/components/VehicleSelection.tsx:623-633 | the dialog opens exactly when both draft strings are non-blank after trimming; otherwise the discard happens at once |
| TripTabs.ConfirmDiscard | src/app/components/VehicleSelection.tsx:635-661 | leaves the draft state with blank drafts and no discard dialog |
| TripTabs.ConfirmDelete | src/app/components/VehicleSelection.tsx:688-710 | closes the delete dialog, keeps the draft flag and the discard dialog |
| TripTabs.SwitchTab | src/app/components/VehicleSelection.tsx:663-682 | the live trip is flushed under the old tab; the target's record is loaded when it has one; other records, the draft flag, the draft strings, both dialogs and the session slot are kept |
| TripTabs.SwitchRoundTrip | src/app/components/VehicleSelection.tsx:663-682 | switching away and back restores the live trip |
| TripTabs.SwitchToActiveReloadsRecord | src/app/components/VehicleSelection.tsx:663-682 | clicking the active tab reloads its stored record over unflushed edits |
| TripTabs.TabLabel | src/app/components/VehicleSelection.tsx:740 | a tab shows its record's name when that is non-empty; with no record, or a record whose name is "", it shows the live trip's name |
| TripTabs.TabIds | src/app/components/VehicleSelection.tsx:712-720 | the tab list starts with "trip-1", has no duplicates, holds exactly "trip-1" and the record keys, and keeps their order |
| TripTabs.WithoutDistinct | src/app/components/VehicleSelection.tsx:712-720 | dropping one value from a duplicate-free list keeps it duplicate-free |
| TripTabs.DefaultTripDataBlank | src/app/components/VehicleSelection.tsx:574-584 | a new draft's trip data has no start, destination, dates, month or days, one passenger, and a name other than "Trip 1" |
| TripTabs.DefaultNamesDistinct | src/app/components/VehicleSelection.tsx:576 | drafts created at different record counts get different names |
| TripTabs.HasBothLocationsNonBlank | src/app/components/VehicleSelection.tsx:624 | the discard confirmation is asked for exactly when neither draft string is all whitespace |
| TripTabs.CreateTripKeepsInv | src/app/components/VehicleSelection.tsx:560-594 | creating a trip with no dialog open keeps the tab invariant |
| TripTabs.SaveDraftKeepsInv | src/app/components/VehicleSelection.tsx:596-621 | saving a draft with the discard confirmation closed keeps the tab invariant |
| TripTabs.SwitchTabKeepsInv | src/app/components/VehicleSelection.tsx:663-682 | switching tabs with no dialog open keeps the tab invariant |
| TripTabs.StepKeepsInv | src/app/components/VehicleSelection.tsx:560-710 | every tab action that is offered keeps the tab invariant |
| TripTabs.DeleteSparesTrip1 | src/app/components/VehicleSelection.tsx:688-710 | a confirmed delete never removes or alters the record of "trip-1" |
| TripTabs.CreateThenDiscard | src/app/components/VehicleSelection.tsx:560-661 | creating a trip and discarding the untouched draft leaves only the flushed record of the previous trip |
| TripTabs.DraftSwitchThenDiscardDropsTrip1 | src/app/components/VehicleSelection.tsx:623-682 | from a draft, switching to "trip-1" keeps the draft flag, so Discard then deletes the record of "trip-1" |
| VehicleSelection.Mount | src/app/components/VehicleSelection.tsx:315-331 | the screen shows the session trip data, or redirects to the form when there is none |
| VehicleSelection.VehicleSelectionScreen.constructor | src/app/components/VehicleSelection.tsx:274-331 | the initial state after mounting with trip data: the rebuilt two-item route, no tabs, no selection |
| VehicleSelection.VehicleSelectionScreen.NewTripData | src/app/components/VehicleSelection.tsx:334-349 | `setTripData` with a new object: the trip data takes the value, under a number no live object or record holds |
| VehicleSelection.VehicleSelectionScreen.NewExtras | src/app/components/VehicleSelection.tsx:334-349 | `setAdditionalDestinations` with a new array: the extras take the value, under a number no live object or record holds |
| VehicleSelection.VehicleSelectionScreen.SyncRoute | src/app/components/VehicleSelection.tsx:334-349 | the list becomes the committed route; the snapshot follows it outside edit mode |
| VehicleSelection.VehicleSelectionScreen.EditClick | src/app/components/VehicleSelection.tsx:424-427 | enters edit mode and snapshots the list as it was |
| VehicleSelection.VehicleSelectionScreen.MoveLocation | src/app/components/VehicleSelection.tsx:411-417 | the list becomes `Move` of the old list |
| VehicleSelection.VehicleSelectionScreen.RemoveLocation | src/app/components/VehicleSelection.tsx:419-422 | the list becomes `RemoveAt` of the old list |
| VehicleSelection.VehicleSelectionScreen.StartEditLocation | src/app/components/VehicleSelection.tsx:436-439 | the item's id and current address go into the inline editor |
| VehicleSelection.VehicleSelectionScreen.EditingValueChange | src/app/components/VehicleSelection.tsx:883 | typing replaces the editor text |
| VehicleSelection.VehicleSelectionScreen.CancelInlineEdit | src/app/components/VehicleSelection.tsx:881 | cancelling closes the editor and leaves its text |
| VehicleSelection.VehicleSelectionScreen.SaveInlineEdit | src/app/components/VehicleSelection.tsx:441-450 | blank input changes nothing; otherwise the item is relabelled and the editor cleared |
| VehicleSelection.VehicleSelectionScreen.LeaveEditMode | src/app/components/VehicleSelection.tsx:429-434 | turning edit mode off rebuilds the list and its snapshot from the committed route; when it was already off nothing changes |
| VehicleSelection.VehicleSelectionScreen.ApplyListEdit | src/app/components/VehicleSelection.tsx:411-450 | one drag, relabel or removal changes the list as `EditedList` says |
| VehicleSelection.VehicleSelectionScreen.CancelEdit | src/app/components/VehicleSelection.tsx:429-434 | leaves edit mode with the list rebuilt from the committed route, which is the snapshot whenever the snapshot was taken of it |
| VehicleSelection.VehicleSelectionScreen.SaveEdit | src/app/components/VehicleSelection.tsx:452-484 | an empty list only leaves edit mode; otherwise trip data and extras become `SaveEdits` of the list, the session slot is written and the list is rebuilt |
| VehicleSelection.EditSessionRollback | src/app/components/VehicleSelection.tsx:411-434 | entering edit mode, making any sequence of drags, relabels and removals, then cancelling restores the list |
| VehicleSelection.VehicleSelectionScreen.OpenAddDestination | src/app/components/VehicleSelection.tsx:889-896 | opens the add-destination dialog |
| VehicleSelection.VehicleSelectionScreen.SetNewDestination | src/app/components/VehicleSelection.tsx:1299-1303 | the dialog's text is replaced |
| VehicleSelection.VehicleSelectionScreen.CancelAddDestination | src/app/components/VehicleSelection.tsx:1327-1330 | the dialog closes and its text is cleared |
| VehicleSelection.VehicleSelectionScreen.SaveAddDestination | src/app/components/VehicleSelection.tsx:1334-1342 | disabled on empty text; otherwise the text is appended to the extras, the dialog closes and clears, and the list is rebuilt |
| VehicleSelection.VehicleSelectionScreen.StartEditPassengerDetails | src/app/components/VehicleSelection.tsx:486-490 | the editor opens with the committed passengers and luggage |
| VehicleSelection.VehicleSelectionScreen.SetTempPassengers | src/app/components/VehicleSelection.tsx:998-1006 | a choice among 1..15 is stored as its decimal string |
| VehicleSelection.VehicleSelectionScreen.SetTempLuggage | src/app/components/VehicleSelection.tsx:1017-1025 | a choice among 0..19 is stored |
| VehicleSelection.VehicleSelectionScreen.SavePassengerDetails | src/app/components/VehicleSelection.tsx:492-498 | only the passenger field of the trip data changes, the luggage is committed, the session slot written, the route unchanged |
| VehicleSelection.VehicleSelectionScreen.CancelPassengerDetails | src/app/components/VehicleSelection.tsx:500-504 | the editor closes and its values are reset to the committed ones |
| VehicleSelection.VehicleSelectionScreen.CommittedRange | src/app/components/VehicleSelection.tsx:508-515 | the editor starts from the trip's range only when both ends are set; otherwise from no dates |
| VehicleSelection.VehicleSelectionScreen.StartEditDate | src/app/components/VehicleSelection.tsx:506-520 | the date editor opens with the committed range, flexibility, month and days |
| VehicleSelection.VehicleSelectionScreen.SelectDateRange | src/app/components/VehicleSelection.tsx:941-946 | picking a range stores it and turns flexibility off |
| VehicleSelection.VehicleSelectionScreen.Undecided | src/app/components/VehicleSelection.tsx:554-558 | clears the range and turns flexibility on |
| VehicleSelection.VehicleSelectionScreen.SaveDate | src/app/components/VehicleSelection.tsx:522-536 | only the four date fields of the trip data change; the session slot is written; the route is unchanged |
| VehicleSelection.VehicleSelectionScreen.CancelDate | src/app/components/VehicleSelection.tsx:538-552 | the editor closes and is reset to the committed values |
| VehicleSelection.VehicleSelectionScreen.CheckboxChange | src/app/components/VehicleSelection.tsx:355-365 | the selection becomes `SetChecked` of the old one; the invariant is kept |
| VehicleSelection.VehicleSelectionScreen.QuantityChange | src/app/components/VehicleSelection.tsx:367-379 | the selection becomes `ChangeQuantity` of the old one; the invariant is kept |
| VehicleSelection.VehicleSelectionScreen.OpenDetails | src/app/components/VehicleSelection.tsx:381-384 | the dialog opens on the vehicle with `DetailsStart`, at least 1 |
| VehicleSelection.VehicleSelectionScreen.DetailsMinus | src/app/components/VehicleSelection.tsx:1248 | the dialog's quantity becomes DetailsDecrement of the old one: one less above 1, else 1 |
| VehicleSelection.VehicleSelectionScreen.DetailsPlus | src/app/components/VehicleSelection.tsx:1257 | the dialog's quantity becomes DetailsIncrement of the old one: exactly one more |
| VehicleSelection.VehicleSelectionScreen.CloseDetails | src/app/components/VehicleSelection.tsx:1269 | the dialog closes |
| VehicleSelection.VehicleSelectionScreen.UpdateVehicle | src/app/components/VehicleSelection.tsx:386-394 | the dialog's quantity is written under its vehicle, and the dialog closes; quantities stay positive |
| VehicleSelection.VehicleSelectionScreen.ContinueToBooking | src/app/components/VehicleSelection.tsx:1159-1168 | shown only with a non-empty selection; writes the selection and the extras to the session and asks for the booking screen |
| VehicleSelection.VehicleSelectionScreen.FlushActive | src/app/components/VehicleSelection.tsx:664-671 | the live trip is stored under the active tab id as `TripTabs.Flush` says, together with the numbers of its objects |
| VehicleSelection.VehicleSelectionScreen.OpenDraft | src/app/components/VehicleSelection.tsx:585-593 | the new id becomes the active draft with blank strings, new trip data and a new empty extras array, no vehicles, and the rebuilt route |
| VehicleSelection.VehicleSelectionScreen.CreateNewTrip | src/app/components/VehicleSelection.tsx:560-594 | the screen's tab state becomes `TripTabs.CreateTrip` of the old one, and the route becomes the empty two-stop list |
| VehicleSelection.VehicleSelectionScreen.SetDraftStartLocation | src/app/components/VehicleSelection.tsx:795 | the draft start string is replaced |
| VehicleSelection.VehicleSelectionScreen.SetDraftDestination | src/app/components/VehicleSelection.tsx:816 | the draft destination string is replaced |
| VehicleSelection.VehicleSelectionScreen.CommitDraft | src/app/components/VehicleSelection.tsx:597-620 | an enabled save stores a new trip-data object with the draft strings, as `TripTabs.SaveDraft` says, and the record holds the live objects |
| VehicleSelection.VehicleSelectionScreen.SaveDraftTrip | src/app/components/VehicleSelection.tsx:596-621 | tab state becomes `TripTabs.SaveDraft` of the old one; a disabled save changes nothing; an enabled one rebuilds the route |
| VehicleSelection.VehicleSelectionScreen.ReturnToTrip1 | src/app/components/VehicleSelection.tsx:637-652 | the active record is dropped and "trip-1" made active; with trip data in the session slot, that becomes a new live object and the route and snapshot are rebuilt, else the route stays |
| VehicleSelection.VehicleSelectionScreen.DiscardDraft | src/app/components/VehicleSelection.tsx:635-661 | tab state becomes `TripTabs.ConfirmDiscard` of the old one; the route is rebuilt exactly when the session holds trip data |
| VehicleSelection.VehicleSelectionScreen.OpenDiscardDialog | src/app/components/VehicleSelection.tsx:627-629 | the discard confirmation opens and the tab invariant is kept |
| VehicleSelection.VehicleSelectionScreen.DiscardDraftTrip | src/app/components/VehicleSelection.tsx:623-633 | tab state becomes `TripTabs.RequestDiscard` of the old one; opening the dialog leaves the route alone |
| VehicleSelection.VehicleSelectionScreen.ConfirmDiscardDraftTrip | src/app/components/VehicleSelection.tsx:635-661 | tab state becomes `TripTabs.ConfirmDiscard` of the old one |
| VehicleSelection.VehicleSelectionScreen.CancelDiscardDialog | src/app/components/VehicleSelection.tsx:1366-1368 | only the discard dialog closes |
| VehicleSelection.VehicleSelectionScreen.DeleteTrip | src/app/components/VehicleSelection.tsx:684-686 | only the delete dialog opens |
| VehicleSelection.VehicleSelectionScreen.ConfirmDeleteTrip | src/app/components/VehicleSelection.tsx:688-710 | tab state becomes `TripTabs.ConfirmDelete` of the old one; the route is rebuilt from the session's trip data when present |
| VehicleSelection.VehicleSelectionScreen.CancelDeleteDialog | src/app/components/VehicleSelection.tsx:1399-1401 | only the delete dialog closes |
| VehicleSelection.VehicleSelectionScreen.LoadRecord | src/app/components/VehicleSelection.tsx:672-678 | the record's trip data, extras and vehicles become live with the record's object numbers; the route is rebuilt unless both objects are the ones already live, in which case list and snapshot stay |
| VehicleSelection.VehicleSelectionScreen.ActivateTab | src/app/components/VehicleSelection.tsx:672-681 | the tab becomes active and the selected record, if any, is loaded as `LoadRecord` says |
| VehicleSelection.VehicleSelectionScreen.SwitchTab | src/app/components/VehicleSelection.tsx:663-682 | tab state becomes `TripTabs.SwitchTab` of the old one; the old tab's record keeps the numbers of the live objects; the route is rebuilt only when the target's record holds objects other than the live ones, otherwise the list and snapshot stay |
| VehicleSelection.ReclickKeepsDrag | src/app/components/VehicleSelection.tsx:663-682 | mount, click "trip-1", Edit, drag item 0 onto item 1, click "trip-1" again: the dragged list stays on screen in edit mode and differs from the committed route |
| Booking.Find | src/app/components/BookingPage.tsx:123-125 | `find` by id: None exactly when no vehicle has the id; otherwise the first vehicle with it |
| Booking.UnitRate | src/app/components/BookingPage.tsx:127-131 | the full-day rate from 5 hours on, the hourly rate times the hours below that; never negative for non-negative rates and hours |
| Booking.LineAmount | src/app/components/BookingPage.tsx:121-133 | an unknown id adds 0; otherwise the first catalog vehicle with the id, at its unit rate, times the quantity |
| Booking.Subtotal | src/app/components/BookingPage.tsx:119-137 | the sum of the line amounts; 0 when no entry names a catalog vehicle |
| Booking.EstimatedHoursChargeFullDay | src/app/components/BookingPage.tsx:93 | at the fixed 8 hours every vehicle charges its full-day rate |
| Booking.CatalogIdsDistinct | src/app/components/BookingPage.tsx:42-79 | the four catalog ids are distinct |
| Booking.CalculateTotalPrice | src/app/components/BookingPage.tsx:119-137 | the loop's total is the subtotal of the entries |
| Booking.SubtotalNonNegative | src/app/components/BookingPage.tsx:119-137 | non-negative rates, quantities and hours give a non-negative subtotal |
| Booking.SubtotalAppend | src/app/components/BookingPage.tsx:119-137 | the subtotal of a concatenation is the sum of the subtotals |
| Booking.SubtotalPermutation | src/app/components/BookingPage.tsx:119-137 | reordering the entries does not change the subtotal |
| Booking.SubtotalOfSelection | src/app/components/BookingPage.tsx:121 | any two enumerations of the same selection map give the same subtotal |
| Booking.Lines | src/app/components/BookingPage.tsx:418-432 | each listed line names a catalog vehicle and shows its unit rate times its quantity |
| Booking.LinesSumToSubtotal | src/app/components/BookingPage.tsx:418-432 | the listed line subtotals add up to the calculated subtotal |
| Booking.LinesComeFromEntries | src/app/components/BookingPage.tsx:418-451 | each listed line shows the vehicle `find` gives for some selected entry, with that entry's quantity |
| Booking.EntriesHaveLines | src/app/components/BookingPage.tsx:418-451 | each selected entry whose id is in the catalog is shown by some listed line with its quantity |
| Booking.LinesMatchEntries | src/app/components/BookingPage.tsx:418-451 | every listed line shows the vehicle `find` gives for some selected entry with that entry's quantity, and every entry whose id is in the catalog has such a line |
| Booking.Summary | src/app/components/BookingPage.tsx:546-575 | fee and tax are each 10% of the subtotal, the total is subtotal + fee + tax, and fee ≤ subtotal ≤ total |
| Booking.TwoComfortVans | src/app/components/BookingPage.tsx:42-79 | two comfort vans cost 840, with 84 fee, 84 tax and 1008 total |
| Booking.AllLocations | src/app/components/BookingPage.tsx:150-154 | 2 + extras stops ending in the extras, equal to the labels of the route editor's rebuilt list |
| Booking.RoleAt | src/app/components/BookingPage.tsx:196-200 | the dot colour's ternary: the first stop starts, the last (if not the first) is final, the ones between are intermediate, each in both directions |
| Booking.AllLocationsIsEditorRoute | src/app/components/BookingPage.tsx:150-154 | the booking page's stop list is the labels of the route editor's rebuilt list, with 2 + extras stops |
| Booking.RolesOfRoute | src/app/components/BookingPage.tsx:195-222 | stop 0 is the start, the last stop the end, every other stop a waypoint |
| Booking.MarkerCode | src/app/components/BookingPage.tsx:377 | the marker character code is a UTF-16 unit; markers 0..25 are A..Z in order |
| Booking.MarkerLetters | src/app/components/BookingPage.tsx:377 | up to 65536 markers get distinct characters |
| Booking.PositionTable | src/app/components/BookingPage.tsx:329-347 | the table for a route of two or three stops has one entry per stop; any other length gets the four-entry table |
| Booking.MarkerPosition | src/app/components/BookingPage.tsx:329-351 | a marker's position comes from the table for the route length, the last entry for indices past its end |
| Booking.MarkerPositions | src/app/components/BookingPage.tsx:329-351 | routes of up to 4 stops get distinct positions; from 5 stops on, stops 3 onwards share one position |
| Booking.LoadBookingPage | src/app/components/BookingPage.tsx:95-113 | the page shows exactly when trip data and a selection are stored; extras default to none; otherwise it redirects to the form |
| Booking.LastEight | src/app/components/BookingPage.tsx:141 | the last eight characters, or the whole string when shorter |
| Booking.BookingReference | src/app/components/BookingPage.tsx:141 | "BK" followed by 1 to 8 digits |
| Booking.BookingReferenceSmallClock | src/app/components/BookingPage.tsx:141 | below 10^8 ms the reference is "BK" and the whole clock reading |
| Booking.ConfirmBooking | src/app/components/BookingPage.tsx:139-148 | confirming is possible exactly with the terms agreed; it stores the reference and the requests and asks for the confirmation screen |
| CreateTripForm.IsFormValid | src/app/components/CreateTripForm.tsx:36-39 | a destination is required; with fixed dates both ends of the range, with flexible dates a month and a number of days |
| CreateTripForm.FinalTripName | src/app/components/CreateTripForm.tsx:44 | the trimmed name, or "Trip 1" exactly when the name is all whitespace |
| CreateTripForm.Submit | src/app/components/CreateTripForm.tsx:36-60 | submits exactly when the form is valid, copies every field, and asks for vehicle selection |
| CreateTripForm.InitialFormInvalid | src/app/components/CreateTripForm.tsx:27-40 | the form as first shown cannot be submitted |
| CreateTripForm.ValidityIgnoresNameStartAndPassengers | src/app/components/CreateTripForm.tsx:36-40 | validity depends on neither the name, the start location nor the passengers |
| CreateTripForm.StoredNameIsTrimmedAndNonBlank | src/app/components/CreateTripForm.tsx:44 | the stored name is never blank and already trimmed |
| CreateTripForm.SubmitThenSelectVehicle | src/app/components/CreateTripForm.tsx:41-60 | a submitted trip mounts the vehicle screen with its start and destination as the route |
| Dashboard.InitialTrips | src/app/components/Dashboard.tsx:193-199 | the saved trips come first, then the five sample trips, nothing dropped |
| Dashboard.MergeKeepsDuplicateIds | src/app/components/Dashboard.tsx:193-199 | a saved trip sharing a sample trip's id appears twice |
| Dashboard.ByStatus | src/app/components/Dashboard.tsx:203-205 | `filter` by status: never longer than the list |
| Dashboard.FilteredTrips | src/app/components/Dashboard.tsx:203-205 | "all" shows the list; a status shows only trips of the list with that status |
| Dashboard.StatusCount | src/app/components/Dashboard.tsx:302 | at most the list length, and 0 exactly when no trip has the status |
| Dashboard.ByStatusKeeps | src/app/components/Dashboard.tsx:203-205 | the filter keeps exactly the trips with the status, each as often as it occurs |
| Dashboard.FilterPositions | src/app/components/Dashboard.tsx:203-205 | the filtered trips sit at increasing positions of the list |
| Dashboard.FilterMeaning | src/app/components/Dashboard.tsx:203-205 | "All" shows the list; a status shows a subsequence holding exactly the trips with it |
| Dashboard.ByStatusAppend | src/app/components/Dashboard.tsx:203-205 | filtering distributes over concatenation |
| Dashboard.KnownCountsPartition | src/app/components/Dashboard.tsx:300-302 | the six counts add up to the list length exactly when every status is known |
| Dashboard.CountOfInitialTrips | src/app/components/Dashboard.tsx:193-302 | each count is the saved trips' count plus the sample trips' count |
| Dashboard.StatusConfig | src/app/components/Dashboard.tsx:144-208 | `statusConfig[status]` finds an own entry with a non-empty label exactly for the six known statuses, an inherited member exactly for the twelve names a plain object inherits ("constructor", "toString", "__proto__" and the rest), and nothing otherwise |
| Dashboard.LabelsDistinct | src/app/components/Dashboard.tsx:144-187 | the six labels differ from each other and from "All" |
| Dashboard.BadgeLabel | src/app/components/Dashboard.tsx:207-245 | a known status shows its table label; an inherited name skips the `!config` fallback and shows no text, `config.label` being undefined; any other status shows its own text |
| Dashboard.FilterLabel | src/app/components/Dashboard.tsx:319 | `config?.label` or else the status: "All" for the all tab, the badge's label for a known status, the status itself for every other one, inherited names included |
| Dashboard.EmptyBadges | src/app/components/Dashboard.tsx:207-245 | a badge is empty exactly for the empty status and the inherited names, while the tab-label expression shows an inherited name as itself |
| Dashboard.UnknownStatusShownVerbatim | src/app/components/Dashboard.tsx:207-216 | a status the table neither holds nor inherits is shown as its own text on the badge, and the tab label (its table label, else the status, Dashboard.tsx:319) gives its own text too; the filter bar itself lists only "all" and the six known statuses |
| Dashboard.ContinueTrip | src/app/components/Dashboard.tsx:260-279 | copies the eight trip fields; a draft goes to vehicle selection, in-progress and changes-requested to the booking screen, any other status nowhere |
| Dashboard.ContinueNavigatesExactlyWhenShown | src/app/components/Dashboard.tsx:420-437 | the Continue button is shown exactly when pressing it navigates, and the stored data ignores id, status, reference and price |
| Dashboard.ContinueShown | src/app/components/Dashboard.tsx:420-437 | the Continue, Update Details or Complete Details button is on the card exactly for draft, in-progress and changes-requested |
| Dashboard.ContinueSampleTrips | src/app/components/Dashboard.tsx:48-142 | the sample draft continues to vehicle selection, the in-progress one to booking, the approved one nowhere |

## Left out

- Session storage, JSON parsing and `navigate` are modelled as `Option` slots and the returned `Screen`. Malformed JSON in the store is not modelled.
- React's scheduling is not modelled. A handler and the route-rebuild effect it triggers run as one atomic step, and batched state updates are applied in order.
- Drag-and-drop geometry (the hover-middle test in `DraggableLocation`) is not modelled. `MoveLocation` takes the two indices the drag reports.
- `Date.now()` is a parameter: the new tab id (`CreateNewTrip`) and the clock reading (`BookingReference`).
- Calendar `Date` objects and `toISOString` are treated as opaque strings, so the conversion round trip is taken as the identity.
- Prices are exact integers and reals. Floating-point rounding and `toFixed(2)` formatting are not modelled.
- `Object.entries` / `Object.keys` enumeration order is a parameter sequence that enumerates the map. `SubtotalOfSelection` shows that the order does not matter.
- The trip cards' layout, icons, colours and the map's SVG paths are not modelled.
- Components outside the wizard's core are not part of this model: ProfilePage.tsx, ConfirmationPage.tsx, Header.tsx and GooglePlacesAutocomplete.tsx.
- Dashboard `handleCreateNewTrip` and `handleEditTrip`: left out. They only clear the session store and navigate to the form.
- The create-trip form's field setters are plain assignments to a `TripForm` value and have no members of their own.
- The route item field `label` is called `address`, because `label` is a reserved word in Dafny.
- Two behaviours of the source that may look unintended are modelled as written:
  - Saving a draft accepts whitespace-only strings: the Save button checks only that both draft strings are non-empty (VehicleSelection.tsx:775), while discard trims them (VehicleSelection.tsx:624).
  - The dashboard merge keeps duplicate ids, despite the comment at Dashboard.tsx:196 saying it avoids them.
- VehicleSelection.VehicleSelectionScreen.SaveDraftTrip: its intermediate `setLocations` of a two-item list is not modelled separately. The rebuild effect that follows overwrites it with the same two items.
- Object identity is a number given to each trip-data object and extras array when it is created. `RefsValid` proves that a new number differs from every number in use. The model does not prove that equal numbers hold equal values; the handlers keep this by construction.
- Dashboard.ContinueTrip: stores the trip's fields as they are. A missing field in a stored trip is not modelled.
