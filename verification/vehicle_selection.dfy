/**
 * The state of the vehicle-selection screen (VehicleSelectionContent) as one object whose
 * fields are the component's state variables and whose methods are its event handlers.
 * A handler and the route-rebuild effect it triggers (SyncRoute) run as one step.
 * Tab handlers are proved against the pure state machine in TripTabs, list handlers
 * against the functions of LocationList, vehicle handlers against those of VehicleMap.
 */
module VehicleSelection {
  import opened Wrappers
  import opened Text
  import opened TripModel
  import opened LocationList
  import opened VehicleMap
  import TripTabs

  /** The mount effect: the screen shows the session's trip data, or sends the user to the start. */
  function Mount(session: Option<TripData>): (r: PageLoad<TripData>)
    ensures r.Show? <==> session.Some?
    ensures session.Some? ==> r.data == session.value
    ensures session.None? ==> r.target == CreateTrip
  {
    if session.Some? then Show(session.value) else Redirect(CreateTrip)
  }

  /** One change to the list in edit mode: a drag onto another item, an inline relabel or a removal. */
  datatype ListEdit =
    | Drag(dragIndex: nat, hoverIndex: nat)
    | Rename(locationId: string, newAddress: string)
    | Remove(index: int)

  /**
   * The list after one edit: a drag between two items on screen moves the dragged one, a
   * relabel to a non-blank address renames the item, and a removal drops the item at the index.
   */
  function EditedList(s: seq<LocationItem>, e: ListEdit): seq<LocationItem> {
    match e
    case Drag(dragIndex, hoverIndex) =>
      if dragIndex < |s| && hoverIndex < |s| then Move(s, dragIndex, hoverIndex) else s
    case Rename(locationId, newAddress) =>
      if Trim(newAddress) == "" then s else Relabel(s, locationId, newAddress)
    case Remove(index) => RemoveAt(s, index)
  }

  /**
   * Object identities: the numbers of the live trip-data object and the live extras array,
   * the pair of numbers of the objects each record holds, and how many objects have been
   * created (the number the next one gets).
   */
  datatype Identities = Identities(tripData: nat, extras: nat, records: map<string, (nat, nat)>, created: nat)

  class VehicleSelectionScreen {
    // The trip shown in the active tab.
    var tripData: TripData
    var selectedVehicles: Selection
    var additionalDestinations: seq<string>

    // The vehicle details dialog: the vehicle shown (by id) and its quantity buffer.
    var detailsVehicle: Option<string>
    var detailsQuantity: int

    // The add-destination dialog.
    var isAddDestinationOpen: bool
    var newDestination: string

    // Route editing.
    var isEditMode: bool
    var originalLocations: seq<LocationItem>
    var locations: seq<LocationItem>
    var editingLocationId: Option<string>
    var editingLocationValue: string

    // Passenger details and their edit buffers.
    var luggageCount: int
    var isEditingPassengerDetails: bool
    var tempPassengers: string
    var tempLuggage: int

    // Date edit buffers.
    var isEditingDate: bool
    var tempDateRange: DateRange
    var tempIsFlexibleDates: bool
    var tempSelectedMonth: string
    var tempNumberOfDays: string

    // Tabs.
    var activeTabId: string
    var tripRecords: map<string, TripTabs.TripRecord>
    var isDraftTab: bool
    var isDiscardDialogOpen: bool
    var isDeleteDialogOpen: bool
    var draftStartLocation: string
    var draftDestination: string

    // The session store slots this screen writes.
    var sessionTripData: Option<TripData>
    var sessionSelectedVehicles: Option<Selection>
    var sessionAdditionalDestinations: Option<seq<string>>

    // Object identity. React re-runs the rebuild effect only when `tripData` or
    // `additionalDestinations` is a different object from the one it last ran with, and a
    // record keeps the very objects that were live when it was written. Each object gets a
    // number when it is created.
    var ids: Identities

    /** The tab-manager part of the state, as the pure model sees it. */
    ghost function TabView(): TripTabs.Tabs
      reads this`activeTabId, this`tripRecords, this`tripData, this`additionalDestinations,
        this`selectedVehicles, this`isDraftTab, this`draftStartLocation, this`draftDestination,
        this`isDiscardDialogOpen, this`isDeleteDialogOpen, this`sessionTripData
    {
      TripTabs.Tabs(activeTabId, tripRecords,
        TripTabs.TripRecord(tripData, additionalDestinations, selectedVehicles),
        isDraftTab, draftStartLocation, draftDestination,
        isDiscardDialogOpen, isDeleteDialogOpen, sessionTripData)
    }

    /** The location list the committed trip data and extra destinations give. */
    ghost function CommittedRoute(): seq<LocationItem>
      reads this`tripData, this`additionalDestinations
    {
      TripLocations(tripData, additionalDestinations)
    }

    /** The tab invariant of TripTabs (Inv(TabView()) is this by definition) and a details quantity of at least one. */
    ghost predicate Valid()
      reads this`activeTabId, this`tripRecords, this`selectedVehicles, this`isDraftTab,
        this`isDiscardDialogOpen, this`isDeleteDialogOpen, this`detailsQuantity
    {
      && TripTabs.InvParts(activeTabId, tripRecords, selectedVehicles, isDraftTab, isDiscardDialogOpen, isDeleteDialogOpen)
      && detailsQuantity >= 1
    }

    /**
     * Every record has the pair of identities of the objects it holds, and every identity in
     * use is below `ids.created`, so a newly created object is different from all of them.
     */
    ghost predicate RefsValid()
      reads this`tripRecords, this`ids
    {
      && ids.tripData < ids.created && ids.extras < ids.created
      && forall k :: k in tripRecords ==> k in ids.records && ids.records[k].0 < ids.created && ids.records[k].1 < ids.created
    }

    /** The record of `tabId` holds the live trip-data object and the live extras object. */
    ghost predicate HoldsLiveObjects(tabId: string)
      reads this`ids
    {
      tabId in ids.records && ids.records[tabId] == (ids.tripData, ids.extras)
    }

    /** The screen right after mounting with `session` in the session store. */
    constructor (session: TripData)
      ensures Valid() && RefsValid()
      ensures tripData == session && sessionTripData == Some(session)
      ensures additionalDestinations == [] && selectedVehicles == map[]
      ensures locations == TripLocations(session, []) && originalLocations == locations && !isEditMode
      ensures activeTabId == TripTabs.Trip1 && tripRecords == map[] && !isDraftTab
      ensures !isDiscardDialogOpen && !isDeleteDialogOpen
      ensures luggageCount == 2 && tempPassengers == "1" && tempLuggage == 2
    {
      tripData := session;
      selectedVehicles := map[];
      additionalDestinations := [];
      detailsVehicle := None;
      detailsQuantity := 1;
      isAddDestinationOpen := false;
      newDestination := "";
      isEditMode := false;
      locations := BaseLocations(session.startLocation, session.destination);
      originalLocations := BaseLocations(session.startLocation, session.destination);
      editingLocationId := None;
      editingLocationValue := "";
      luggageCount := 2;
      isEditingPassengerDetails := false;
      tempPassengers := "1";
      tempLuggage := 2;
      isEditingDate := false;
      tempDateRange := NoDates;
      tempIsFlexibleDates := false;
      tempSelectedMonth := "";
      tempNumberOfDays := "";
      activeTabId := TripTabs.Trip1;
      tripRecords := map[];
      isDraftTab := false;
      isDiscardDialogOpen := false;
      isDeleteDialogOpen := false;
      draftStartLocation := "";
      draftDestination := "";
      sessionTripData := Some(session);
      sessionSelectedVehicles := None;
      sessionAdditionalDestinations := None;
      ids := Identities(0, 1, map[], 2);
    }

    /** `tripData` becomes a newly created object holding `t`. */
    method NewTripData(t: TripData)
      requires RefsValid()
      modifies this`tripData, this`ids
      ensures RefsValid() && tripData == t
      ensures ids == old(ids).(tripData := old(ids.created), created := old(ids.created) + 1)
    {
      tripData := t;
      ids := ids.(tripData := ids.created, created := ids.created + 1);
    }

    /** `additionalDestinations` becomes a newly created array holding `extras`. */
    method NewExtras(extras: seq<string>)
      requires RefsValid()
      modifies this`additionalDestinations, this`ids
      ensures RefsValid() && additionalDestinations == extras
      ensures ids == old(ids).(extras := old(ids.created), created := old(ids.created) + 1)
    {
      additionalDestinations := extras;
      ids := ids.(extras := ids.created, created := ids.created + 1);
    }

    /**
     * The route-rebuild effect: the list becomes the committed route, and outside edit
     * mode the rollback snapshot follows it.
     */
    method SyncRoute()
      modifies this`locations, this`originalLocations
      ensures locations == CommittedRoute()
      ensures originalLocations == if isEditMode then old(originalLocations) else locations
    {
      locations := TripLocations(tripData, additionalDestinations);
      if !isEditMode {
        originalLocations := locations;
      }
    }

    // -------------------------------------------------------------------------
    // Route editing

    /** handleEditClick: snapshot the list and enter edit mode. */
    method EditClick()
      modifies this`originalLocations, this`isEditMode, this`locations
      ensures isEditMode
      ensures originalLocations == old(locations)
      ensures locations == if old(isEditMode) then old(locations) else CommittedRoute()
    {
      originalLocations := locations;
      if !isEditMode {
        isEditMode := true;
        SyncRoute();
      }
    }

    /** moveLocation, issued by a drag over another item of the list. */
    method MoveLocation(dragIndex: nat, hoverIndex: nat)
      requires isEditMode
      requires dragIndex < |locations| && hoverIndex < |locations|
      modifies this`locations
      ensures locations == Move(old(locations), dragIndex, hoverIndex)
    {
      var dragLocation := locations[dragIndex];
      var rest := locations[..dragIndex] + locations[dragIndex + 1..];
      locations := rest[..hoverIndex] + [dragLocation] + rest[hoverIndex..];
    }

    /** removeLocation, the red cross on an item in edit mode. */
    method RemoveLocation(index: int)
      requires isEditMode
      modifies this`locations
      ensures locations == RemoveAt(old(locations), index)
    {
      if 0 <= index < |locations| {
        locations := locations[..index] + locations[index + 1..];
      }
    }

    /** handleStartEditLocation: a click on an item's address in edit mode. */
    method StartEditLocation(locationId: string, currentValue: string)
      requires isEditMode
      modifies this`editingLocationId, this`editingLocationValue
      ensures editingLocationId == Some(locationId) && editingLocationValue == currentValue
    {
      editingLocationId := Some(locationId);
      editingLocationValue := currentValue;
    }

    /** Typing in the inline editor. */
    method EditingValueChange(value: string)
      modifies this`editingLocationValue
      ensures editingLocationValue == value
    {
      editingLocationValue := value;
    }

    /** The inline editor's Cancel: closes the editor and keeps the typed value. */
    method CancelInlineEdit()
      modifies this`editingLocationId
      ensures editingLocationId == None
    {
      editingLocationId := None;
    }

    /** onSaveEdit: a value that trims to nothing is refused; otherwise the item(s) with that id take the new address. */
    method SaveInlineEdit(locationId: string, newValue: string)
      modifies this`locations, this`editingLocationId, this`editingLocationValue
      ensures Trim(newValue) == "" ==>
        && locations == old(locations)
        && editingLocationId == old(editingLocationId) && editingLocationValue == old(editingLocationValue)
      ensures Trim(newValue) != "" ==>
        && locations == Relabel(old(locations), locationId, newValue)
        && editingLocationId == None && editingLocationValue == ""
    {
      if Trim(newValue) == "" {
        return;
      }
      locations := Relabel(locations, locationId, newValue);
      editingLocationId := None;
      editingLocationValue := "";
    }

    /** Leaving edit mode re-runs the rebuild effect when edit mode was on. */
    method LeaveEditMode()
      modifies this`isEditMode, this`locations, this`originalLocations
      ensures !isEditMode
      ensures old(isEditMode) ==> locations == CommittedRoute() && originalLocations == locations
      ensures !old(isEditMode) ==> locations == old(locations) && originalLocations == old(originalLocations)
    {
      if isEditMode {
        isEditMode := false;
        SyncRoute();
      }
    }

    /** One edit of the list in edit mode, through the handler the list item calls for it. */
    method ApplyListEdit(e: ListEdit)
      requires isEditMode
      modifies this`locations, this`editingLocationId, this`editingLocationValue
      ensures locations == EditedList(old(locations), e)
      ensures e.Rename? && Trim(e.newAddress) != "" ==> editingLocationId == None && editingLocationValue == ""
      ensures !(e.Rename? && Trim(e.newAddress) != "") ==>
        editingLocationId == old(editingLocationId) && editingLocationValue == old(editingLocationValue)
    {
      match e
      case Drag(dragIndex, hoverIndex) =>
        if dragIndex < |locations| && hoverIndex < |locations| {
          MoveLocation(dragIndex, hoverIndex);
        }
      case Rename(locationId, newAddress) =>
        SaveInlineEdit(locationId, newAddress);
      case Remove(index) =>
        RemoveLocation(index);
    }

    /**
     * handleCancelEdit: put the snapshot back and leave edit mode. Leaving edit mode
     * re-runs the rebuild, so the list ends as the committed route, which is the snapshot
     * whenever the snapshot was taken of the committed route.
     */
    method CancelEdit()
      modifies this`locations, this`originalLocations, this`isEditMode,
        this`editingLocationId, this`editingLocationValue
      ensures !isEditMode && editingLocationId == None && editingLocationValue == ""
      ensures old(isEditMode) ==> locations == CommittedRoute() && originalLocations == locations
      ensures !old(isEditMode) ==> locations == old(originalLocations) && originalLocations == old(originalLocations)
      ensures old(originalLocations) == old(CommittedRoute()) ==> locations == old(originalLocations)
    {
      locations := originalLocations;
      editingLocationId := None;
      editingLocationValue := "";
      LeaveEditMode();
    }

    /**
     * handleSaveEdit: an empty list only leaves edit mode; otherwise the trip data and extra
     * destinations are re-derived from the list (SaveEdits), written to the session slot,
     * and the list is rebuilt from them.
     */
    method SaveEdit()
      requires RefsValid()
      modifies this`tripData, this`additionalDestinations, this`sessionTripData,
        this`ids,
        this`isEditMode, this`locations, this`originalLocations
      ensures !isEditMode && RefsValid()
      ensures old(|locations|) == 0 ==>
        && tripData == old(tripData) && additionalDestinations == old(additionalDestinations)
        && sessionTripData == old(sessionTripData)
        && (old(isEditMode) ==> locations == CommittedRoute() && originalLocations == locations)
        && (!old(isEditMode) ==> locations == old(locations) && originalLocations == old(originalLocations))
      ensures old(|locations|) > 0 ==>
        && SavedRoute(tripData, additionalDestinations) == SaveEdits(old(tripData), old(additionalDestinations), old(locations))
        && sessionTripData == Some(tripData)
        && locations == CommittedRoute() && originalLocations == locations
    {
      if |locations| == 0 {
        LeaveEditMode();
        return;
      }
      var saved := SaveEdits(tripData, additionalDestinations, locations);
      NewTripData(saved.tripData);
      NewExtras(saved.extras);
      sessionTripData := Some(saved.tripData);
      isEditMode := false;
      SyncRoute();
    }

    // -------------------------------------------------------------------------
    // Adding a destination

    /** The "Add destination" button, shown outside edit mode on a saved tab. */
    method OpenAddDestination()
      requires !isEditMode && !isDraftTab
      modifies this`isAddDestinationOpen
      ensures isAddDestinationOpen
    {
      isAddDestinationOpen := true;
    }

    method SetNewDestination(value: string)
      modifies this`newDestination
      ensures newDestination == value
    {
      newDestination := value;
    }

    /** The add-destination dialog's Cancel. */
    method CancelAddDestination()
      modifies this`isAddDestinationOpen, this`newDestination
      ensures !isAddDestinationOpen && newDestination == ""
    {
      isAddDestinationOpen := false;
      newDestination := "";
    }

    /**
     * The add-destination dialog's Save, disabled only for the empty string: the new address
     * is appended to the extra destinations and the list is rebuilt.
     */
    method SaveAddDestination()
      requires isAddDestinationOpen && RefsValid()
      modifies this`additionalDestinations, this`ids,
        this`isAddDestinationOpen, this`newDestination,
        this`locations, this`originalLocations
      ensures RefsValid()
      ensures old(newDestination) == "" ==> unchanged(this)
      ensures old(newDestination) != "" ==>
        && additionalDestinations == old(additionalDestinations) + [old(newDestination)]
        && !isAddDestinationOpen && newDestination == ""
        && locations == CommittedRoute()
        && originalLocations == (if isEditMode then old(originalLocations) else locations)
    {
      if newDestination == "" {
        return;
      }
      NewExtras(additionalDestinations + [newDestination]);
      isAddDestinationOpen := false;
      newDestination := "";
      SyncRoute();
    }

    // -------------------------------------------------------------------------
    // Passenger details

    method StartEditPassengerDetails()
      modifies this`tempPassengers, this`tempLuggage, this`isEditingPassengerDetails
      ensures isEditingPassengerDetails
      ensures tempPassengers == tripData.passengers && tempLuggage == luggageCount
    {
      tempPassengers := tripData.passengers;
      tempLuggage := luggageCount;
      isEditingPassengerDetails := true;
    }

    /** The passengers drop-down offers 1 to 15. */
    method SetTempPassengers(count: nat)
      requires 1 <= count <= 15
      modifies this`tempPassengers
      ensures tempPassengers == NatToString(count)
    {
      tempPassengers := NatToString(count);
    }

    /** The luggage drop-down offers 0 to 19. */
    method SetTempLuggage(count: nat)
      requires count <= 19
      modifies this`tempLuggage
      ensures tempLuggage == count
    {
      tempLuggage := count;
    }

    /** handleSavePassengerDetails: commit both buffers and write the session slot. */
    method SavePassengerDetails()
      requires RefsValid()
      modifies this`tripData, this`ids, this`luggageCount, this`sessionTripData,
        this`isEditingPassengerDetails, this`locations, this`originalLocations
      ensures !isEditingPassengerDetails && RefsValid()
      ensures tripData == old(tripData).(passengers := tempPassengers)
      ensures luggageCount == tempLuggage && sessionTripData == Some(tripData)
      ensures locations == CommittedRoute() && CommittedRoute() == old(CommittedRoute())
      ensures originalLocations == if isEditMode then old(originalLocations) else locations
    {
      NewTripData(tripData.(passengers := tempPassengers));
      luggageCount := tempLuggage;
      sessionTripData := Some(tripData);
      isEditingPassengerDetails := false;
      SyncRoute();
    }

    /** handleCancelPassengerDetails: reset both buffers to the committed values. */
    method CancelPassengerDetails()
      modifies this`tempPassengers, this`tempLuggage, this`isEditingPassengerDetails
      ensures !isEditingPassengerDetails
      ensures tempPassengers == tripData.passengers && tempLuggage == luggageCount
    {
      tempPassengers := tripData.passengers;
      tempLuggage := luggageCount;
      isEditingPassengerDetails := false;
    }

    // -------------------------------------------------------------------------
    // Dates

    /** The fixed range the date buffers start from: kept only when both ends are set. */
    function CommittedRange(): (r: DateRange)
      reads this`tripData
      ensures r == tripData.dateRange || r == NoDates
      ensures r.from.Some? <==> r.to.Some?
    {
      if tripData.dateRange.from.Some? && tripData.dateRange.to.Some? then tripData.dateRange else NoDates
    }

    method StartEditDate()
      modifies this`tempDateRange, this`tempIsFlexibleDates, this`tempSelectedMonth,
        this`tempNumberOfDays, this`isEditingDate
      ensures isEditingDate
      ensures tempDateRange == CommittedRange() && tempIsFlexibleDates == tripData.isFlexibleDates
      ensures tempSelectedMonth == tripData.selectedMonth && tempNumberOfDays == tripData.numberOfDays
    {
      tempDateRange := CommittedRange();
      tempIsFlexibleDates := tripData.isFlexibleDates;
      tempSelectedMonth := tripData.selectedMonth;
      tempNumberOfDays := tripData.numberOfDays;
      isEditingDate := true;
    }

    /** Picking a range in the calendar switches the buffer to fixed dates. */
    method SelectDateRange(from: Option<string>, to: Option<string>)
      requires isEditingDate
      modifies this`tempDateRange, this`tempIsFlexibleDates
      ensures tempDateRange == DateRange(from, to) && !tempIsFlexibleDates
    {
      tempDateRange := DateRange(from, to);
      tempIsFlexibleDates := false;
    }

    /** handleUndecided: clear the range and switch the buffer to flexible dates. */
    method Undecided()
      requires isEditingDate
      modifies this`tempDateRange, this`tempIsFlexibleDates
      ensures tempDateRange == NoDates && tempIsFlexibleDates
    {
      tempDateRange := NoDates;
      tempIsFlexibleDates := true;
    }

    /** handleSaveDate: commit the four date buffers and write the session slot. */
    method SaveDate()
      requires RefsValid()
      modifies this`tripData, this`ids, this`sessionTripData, this`isEditingDate,
        this`locations, this`originalLocations
      ensures !isEditingDate && RefsValid()
      ensures tripData == old(tripData).(dateRange := tempDateRange, isFlexibleDates := tempIsFlexibleDates,
        selectedMonth := tempSelectedMonth, numberOfDays := tempNumberOfDays)
      ensures sessionTripData == Some(tripData)
      ensures locations == CommittedRoute() && CommittedRoute() == old(CommittedRoute())
      ensures originalLocations == if isEditMode then old(originalLocations) else locations
    {
      NewTripData(tripData.(dateRange := tempDateRange, isFlexibleDates := tempIsFlexibleDates,
        selectedMonth := tempSelectedMonth, numberOfDays := tempNumberOfDays));
      sessionTripData := Some(tripData);
      isEditingDate := false;
      SyncRoute();
    }

    /** handleCancelDate: reset the buffers to the committed values. */
    method CancelDate()
      modifies this`tempDateRange, this`tempIsFlexibleDates, this`tempSelectedMonth,
        this`tempNumberOfDays, this`isEditingDate
      ensures !isEditingDate
      ensures tempDateRange == CommittedRange() && tempIsFlexibleDates == tripData.isFlexibleDates
      ensures tempSelectedMonth == tripData.selectedMonth && tempNumberOfDays == tripData.numberOfDays
    {
      tempDateRange := CommittedRange();
      tempIsFlexibleDates := tripData.isFlexibleDates;
      tempSelectedMonth := tripData.selectedMonth;
      tempNumberOfDays := tripData.numberOfDays;
      isEditingDate := false;
    }

    // -------------------------------------------------------------------------
    // Vehicles

    /** handleCheckboxChange. */
    method CheckboxChange(vehicleId: string, checked: bool)
      requires Valid()
      modifies this`selectedVehicles
      ensures Valid()
      ensures selectedVehicles == SetChecked(old(selectedVehicles), vehicleId, checked)
    {
      if checked {
        selectedVehicles := selectedVehicles[vehicleId := 1];
      } else {
        selectedVehicles := selectedVehicles - {vehicleId};
      }
    }

    /** handleQuantityChange, the minus (-1) and plus (+1) buttons on a vehicle card. */
    method QuantityChange(vehicleId: string, delta: int)
      requires Valid()
      modifies this`selectedVehicles
      ensures Valid()
      ensures selectedVehicles == ChangeQuantity(old(selectedVehicles), vehicleId, delta)
    {
      var currentQty := if vehicleId in selectedVehicles then selectedVehicles[vehicleId] else 0;
      var newQty := if currentQty + delta >= 0 then currentQty + delta else 0;
      if newQty == 0 {
        selectedVehicles := selectedVehicles - {vehicleId};
      } else {
        selectedVehicles := selectedVehicles[vehicleId := newQty];
      }
    }

    /** openDetails: show a vehicle and start its quantity buffer from the selection. */
    method OpenDetails(vehicleId: string)
      requires Valid()
      modifies this`detailsVehicle, this`detailsQuantity
      ensures Valid()
      ensures detailsVehicle == Some(vehicleId) && detailsQuantity == DetailsStart(selectedVehicles, vehicleId)
    {
      detailsVehicle := Some(vehicleId);
      detailsQuantity := DetailsStart(selectedVehicles, vehicleId);
    }

    /** The details dialog's minus button. */
    method DetailsMinus()
      requires Valid() && detailsVehicle.Some?
      modifies this`detailsQuantity
      ensures Valid() && detailsQuantity == DetailsDecrement(old(detailsQuantity))
    {
      detailsQuantity := if detailsQuantity - 1 >= 1 then detailsQuantity - 1 else 1;
    }

    /** The details dialog's plus button. */
    method DetailsPlus()
      requires Valid() && detailsVehicle.Some?
      modifies this`detailsQuantity
      ensures Valid() && detailsQuantity == DetailsIncrement(old(detailsQuantity))
    {
      detailsQuantity := detailsQuantity + 1;
    }

    /** The details dialog's Cancel (or closing it). */
    method CloseDetails()
      modifies this`detailsVehicle
      ensures detailsVehicle == None
    {
      detailsVehicle := None;
    }

    /** handleUpdateVehicle: store the dialog's quantity (always at least one) and close it. */
    method UpdateVehicle()
      requires Valid()
      modifies this`selectedVehicles, this`detailsVehicle
      ensures Valid() && detailsVehicle == None
      ensures old(detailsVehicle).Some? ==>
        selectedVehicles == SetQuantity(old(selectedVehicles), old(detailsVehicle).value, detailsQuantity)
      ensures old(detailsVehicle).None? ==> selectedVehicles == old(selectedVehicles)
    {
      if detailsVehicle.Some? {
        selectedVehicles := selectedVehicles[detailsVehicle.value := detailsQuantity];
        detailsVehicle := None;
      }
    }

    /** "Continue to Booking", shown once a vehicle is selected: hand the selection over to the booking screen. */
    method ContinueToBooking() returns (next: Screen)
      requires |selectedVehicles| > 0
      modifies this`sessionSelectedVehicles, this`sessionAdditionalDestinations
      ensures next == Booking
      ensures sessionSelectedVehicles == Some(selectedVehicles)
      ensures sessionAdditionalDestinations == Some(additionalDestinations)
    {
      sessionSelectedVehicles := Some(selectedVehicles);
      sessionAdditionalDestinations := Some(additionalDestinations);
      next := Booking;
    }

    // -------------------------------------------------------------------------
    // Tabs

    /** The second half of handleCreateNewTrip: make `newTripId` the active, empty draft. */
    method OpenDraft(newTripId: string, initial: TripData)
      requires RefsValid()
      modifies this`activeTabId, this`tripData, this`additionalDestinations, this`ids,
        this`selectedVehicles, this`locations, this`originalLocations, this`isDraftTab,
        this`draftStartLocation, this`draftDestination
      ensures RefsValid()
      ensures activeTabId == newTripId && tripData == initial
      ensures additionalDestinations == [] && selectedVehicles == map[]
      ensures isDraftTab && draftStartLocation == "" && draftDestination == ""
      ensures locations == CommittedRoute()
      ensures originalLocations == if isEditMode then old(originalLocations) else locations
    {
      activeTabId := newTripId;
      selectedVehicles := map[];
      locations := [];
      isDraftTab := true;
      draftStartLocation := "";
      draftDestination := "";
      NewTripData(initial);
      NewExtras([]);
      SyncRoute();
    }

    /**
     * Make `record`, whose objects have the identities `refs`, the live trip. The rebuild
     * effect follows unless both objects are the ones already live.
     */
    method LoadRecord(record: TripTabs.TripRecord, refs: (nat, nat))
      requires RefsValid() && refs.0 < ids.created && refs.1 < ids.created
      modifies this`tripData, this`additionalDestinations, this`selectedVehicles,
        this`ids, this`locations, this`originalLocations
      ensures RefsValid()
      ensures TripTabs.TripRecord(tripData, additionalDestinations, selectedVehicles) == record
      ensures ids == old(ids).(tripData := refs.0, extras := refs.1)
      ensures refs != old((ids.tripData, ids.extras)) ==>
        && locations == CommittedRoute()
        && originalLocations == (if isEditMode then old(originalLocations) else locations)
      ensures refs == old((ids.tripData, ids.extras)) ==>
        && locations == old(locations) && originalLocations == old(originalLocations)
    {
      var rerun := refs != (ids.tripData, ids.extras);
      tripData := record.tripData;
      additionalDestinations := record.additionalDestinations;
      selectedVehicles := record.selectedVehicles;
      ids := ids.(tripData := refs.0, extras := refs.1);
      if rerun {
        SyncRoute();
      }
    }

    /** Make `tabId` active and load `selected`, a record with its identities, when there is one. */
    method ActivateTab(tabId: string, selected: Option<(TripTabs.TripRecord, (nat, nat))>)
      requires RefsValid() && (selected.Some? ==> selected.value.1.0 < ids.created && selected.value.1.1 < ids.created)
      modifies this`activeTabId, this`tripData, this`additionalDestinations, this`selectedVehicles,
        this`ids, this`locations, this`originalLocations
      ensures RefsValid()
      ensures TabView() == old(TabView()).(activeTabId := tabId, live := if selected.Some? then selected.value.0 else old(TabView().live))
      ensures ids == if selected.Some? then old(ids).(tripData := selected.value.1.0, extras := selected.value.1.1) else old(ids)
      ensures selected.Some? && selected.value.1 != old((ids.tripData, ids.extras)) ==>
        && locations == CommittedRoute()
        && originalLocations == (if isEditMode then old(originalLocations) else locations)
      ensures selected.None? || selected.value.1 == old((ids.tripData, ids.extras)) ==>
        && locations == old(locations) && originalLocations == old(originalLocations)
    {
      activeTabId := tabId;
      if selected.Some? {
        LoadRecord(selected.value.0, selected.value.1);
      }
    }

    /** Write the live trip, with the identities of its objects, under the active tab id. */
    method FlushActive()
      requires RefsValid()
      modifies this`tripRecords, this`ids
      ensures RefsValid()
      ensures TabView() == old(TabView()).(tripRecords := TripTabs.Flush(old(TabView())))
      ensures ids == old(ids).(records := old(ids.records)[activeTabId := (ids.tripData, ids.extras)])
    {
      tripRecords := tripRecords[activeTabId := TripTabs.TripRecord(tripData, additionalDestinations, selectedVehicles)];
      ids := ids.(records := ids.records[activeTabId := (ids.tripData, ids.extras)]);
    }

    /** handleCreateNewTrip, with the timestamp-based id of the new tab as a parameter. */
    method CreateNewTrip(newTripId: string)
      requires Valid() && RefsValid() && TripTabs.Offered(TabView(), TripTabs.NewTrip(newTripId))
      modifies this`tripRecords, this`ids, this`activeTabId, this`tripData, this`additionalDestinations,
        this`selectedVehicles, this`locations, this`originalLocations, this`isDraftTab,
        this`draftStartLocation, this`draftDestination
      ensures Valid() && RefsValid()
      ensures TabView() == TripTabs.CreateTrip(old(TabView()), newTripId)
      ensures locations == CommittedRoute() == BaseLocations("", "")
      ensures originalLocations == if isEditMode then old(originalLocations) else locations
    {
      ghost var before := TabView();
      var recordCount := |tripRecords|;
      if !isDraftTab {
        FlushActive();
      }
      ghost var records := tripRecords;
      assert records == if before.isDraftTab then before.tripRecords else TripTabs.Flush(before);
      OpenDraft(newTripId, TripTabs.DefaultTripData(recordCount));
      assert TabView() == TripTabs.CreateTrip(before, newTripId);
      assert AdditionalLocations([]) == [];
      TripTabs.CreateTripKeepsInv(before, newTripId);
    }

    /** Typing in the draft's start field. */
    method SetDraftStartLocation(value: string)
      requires TripTabs.Offered(TabView(), TripTabs.EditDraftStart(value))
      modifies this`draftStartLocation
      ensures TabView() == TripTabs.Step(old(TabView()), TripTabs.EditDraftStart(value))
    {
      draftStartLocation := value;
    }

    /** Typing in the draft's destination field. */
    method SetDraftDestination(value: string)
      requires TripTabs.Offered(TabView(), TripTabs.EditDraftDestination(value))
      modifies this`draftDestination
      ensures TabView() == TripTabs.Step(old(TabView()), TripTabs.EditDraftDestination(value))
    {
      draftDestination := value;
    }

    /**
     * The enabled Save of a draft, without the rebuild: a new trip-data object takes the
     * draft strings and is stored under the draft's id and in the session slot.
     */
    method CommitDraft()
      requires RefsValid() && TripTabs.SaveDraftEnabled(TabView())
      modifies this`tripRecords, this`ids, this`tripData, this`isDraftTab, this`sessionTripData
      ensures RefsValid() && HoldsLiveObjects(activeTabId)
      ensures TabView() == TripTabs.SaveDraft(old(TabView()))
    {
      var updated := tripData.(startLocation := draftStartLocation, destination := draftDestination);
      NewTripData(updated);
      tripRecords := tripRecords[activeTabId := TripTabs.TripRecord(updated, additionalDestinations, selectedVehicles)];
      ids := ids.(records := ids.records[activeTabId := (ids.tripData, ids.extras)]);
      isDraftTab := false;
      sessionTripData := Some(updated);
    }

    /** The draft's Save button (handleSaveDraftTrip), inert while either draft string is empty. */
    method SaveDraftTrip()
      requires Valid() && RefsValid() && TripTabs.Offered(TabView(), TripTabs.SaveDraftClick)
      modifies this`tripRecords, this`ids, this`tripData,
        this`locations, this`originalLocations, this`isDraftTab, this`sessionTripData
      ensures Valid() && RefsValid()
      ensures TabView() == TripTabs.SaveDraft(old(TabView()))
      ensures !TripTabs.SaveDraftEnabled(old(TabView())) ==> unchanged(this)
      ensures TripTabs.SaveDraftEnabled(old(TabView())) ==>
        && locations == CommittedRoute()
        && originalLocations == (if isEditMode then old(originalLocations) else locations)
        && HoldsLiveObjects(activeTabId)
    {
      ghost var before := TabView();
      if draftStartLocation == "" || draftDestination == "" {
        return;
      }
      CommitDraft();
      // The two-item list the handler sets is replaced by the rebuild in the same step.
      SyncRoute();
      TripTabs.SaveDraftKeepsInv(before);
    }

    /**
     * The part confirmDiscardDraftTrip and confirmDeleteTrip share: drop the active record,
     * make "trip-1" active and reload the trip data from the session slot when it holds one.
     */
    method ReturnToTrip1()
      requires RefsValid()
      modifies this`tripRecords, this`ids, this`activeTabId, this`tripData,
        this`locations, this`originalLocations
      ensures RefsValid()
      ensures tripRecords == old(tripRecords) - {old(activeTabId)} && activeTabId == TripTabs.Trip1
      ensures tripData == if sessionTripData.Some? then sessionTripData.value else old(tripData)
      ensures sessionTripData.Some? ==>
        && locations == CommittedRoute()
        && originalLocations == (if isEditMode then TripLocations(tripData, []) else locations)
      ensures sessionTripData.None? ==> locations == old(locations) && originalLocations == old(originalLocations)
    {
      tripRecords := tripRecords - {activeTabId};
      ids := ids.(records := ids.records - {activeTabId});
      activeTabId := TripTabs.Trip1;
      if sessionTripData.Some? {
        NewTripData(sessionTripData.value);
        locations := BaseLocations(tripData.startLocation, tripData.destination);
        originalLocations := locations;
        assert AdditionalLocations([]) == [];
        SyncRoute();
      }
    }

    /**
     * confirmDiscardDraftTrip: drop the active record, return to "trip-1" and reload its
     * trip data from the session slot when there is one.
     */
    method DiscardDraft()
      requires Valid() && RefsValid() && !isDeleteDialogOpen
      modifies this`tripRecords, this`ids, this`activeTabId, this`tripData,
        this`locations, this`originalLocations,
        this`isDraftTab, this`isDiscardDialogOpen, this`draftStartLocation, this`draftDestination
      ensures Valid() && RefsValid()
      ensures TabView() == TripTabs.ConfirmDiscard(old(TabView()))
      ensures old(sessionTripData).Some? ==>
        && locations == CommittedRoute()
        && originalLocations == (if isEditMode then TripLocations(tripData, []) else locations)
      ensures old(sessionTripData).None? ==> locations == old(locations) && originalLocations == old(originalLocations)
    {
      ghost var before := TabView();
      ReturnToTrip1();
      isDraftTab := false;
      isDiscardDialogOpen := false;
      draftStartLocation := "";
      draftDestination := "";
      assert TabView() == TripTabs.ConfirmDiscard(before);
    }

    /** Opens the discard confirmation on a draft tab. */
    method OpenDiscardDialog()
      requires Valid() && isDraftTab && !isDeleteDialogOpen
      modifies this`isDiscardDialogOpen
      ensures Valid() && isDiscardDialogOpen
    {
      isDiscardDialogOpen := true;
    }

    /** The draft's Discard button (handleDiscardDraftTrip). */
    method DiscardDraftTrip()
      requires Valid() && RefsValid() && TripTabs.Offered(TabView(), TripTabs.DiscardClick)
      modifies this`tripRecords, this`ids, this`activeTabId, this`tripData,
        this`locations, this`originalLocations,
        this`isDraftTab, this`isDiscardDialogOpen, this`draftStartLocation, this`draftDestination
      ensures Valid() && RefsValid()
      ensures TabView() == TripTabs.RequestDiscard(old(TabView()))
      ensures isDiscardDialogOpen ==> locations == old(locations) && originalLocations == old(originalLocations)
    {
      ghost var before := TabView();
      var hasBothLocations := Trim(draftStartLocation) != "" && Trim(draftDestination) != "";
      assert hasBothLocations == TripTabs.HasBothLocations(before);
      if hasBothLocations {
        OpenDiscardDialog();
      } else {
        DiscardDraft();
      }
    }

    /** The discard dialog's Discard button. */
    method ConfirmDiscardDraftTrip()
      requires Valid() && RefsValid() && TripTabs.Offered(TabView(), TripTabs.DiscardConfirm)
      modifies this`tripRecords, this`ids, this`activeTabId, this`tripData,
        this`locations, this`originalLocations,
        this`isDraftTab, this`isDiscardDialogOpen, this`draftStartLocation, this`draftDestination
      ensures Valid() && RefsValid()
      ensures TabView() == TripTabs.ConfirmDiscard(old(TabView()))
    {
      DiscardDraft();
    }

    /** The discard dialog's Cancel: nothing but the dialog changes. */
    method CancelDiscardDialog()
      requires Valid() && TripTabs.Offered(TabView(), TripTabs.DiscardCancel)
      modifies this`isDiscardDialogOpen
      ensures Valid() && TabView() == TripTabs.Step(old(TabView()), TripTabs.DiscardCancel)
    {
      isDiscardDialogOpen := false;
    }

    /** handleDeleteTrip, the trash button of a saved tab other than "trip-1". */
    method DeleteTrip()
      requires Valid() && TripTabs.Offered(TabView(), TripTabs.DeleteClick)
      modifies this`isDeleteDialogOpen
      ensures Valid() && TabView() == TripTabs.Step(old(TabView()), TripTabs.DeleteClick)
    {
      isDeleteDialogOpen := true;
    }

    /** confirmDeleteTrip, the delete dialog's Delete button. */
    method ConfirmDeleteTrip()
      requires Valid() && RefsValid() && TripTabs.Offered(TabView(), TripTabs.DeleteConfirm)
      modifies this`tripRecords, this`ids, this`activeTabId, this`tripData,
        this`locations, this`originalLocations,
        this`isDeleteDialogOpen
      ensures Valid() && RefsValid()
      ensures TabView() == TripTabs.ConfirmDelete(old(TabView()))
      ensures old(sessionTripData).Some? ==>
        && locations == CommittedRoute()
        && originalLocations == (if isEditMode then TripLocations(tripData, []) else locations)
      ensures old(sessionTripData).None? ==> locations == old(locations) && originalLocations == old(originalLocations)
    {
      ghost var before := TabView();
      ReturnToTrip1();
      isDeleteDialogOpen := false;
      assert TabView() == TripTabs.ConfirmDelete(before);
    }

    /** The delete dialog's Cancel: nothing but the dialog changes. */
    method CancelDeleteDialog()
      requires Valid() && TripTabs.Offered(TabView(), TripTabs.DeleteCancel)
      modifies this`isDeleteDialogOpen
      ensures Valid() && TabView() == TripTabs.Step(old(TabView()), TripTabs.DeleteCancel)
    {
      isDeleteDialogOpen := false;
    }

    /**
     * handleSwitchTab: flush the live trip, then load the target's record if it had one.
     * The rebuild effect runs only when the loaded record's objects are not the live ones:
     * a second click on the tab just flushed brings back the same objects and leaves the
     * list, edits included, as it is.
     */
    method SwitchTab(tabId: string)
      requires Valid() && RefsValid() && TripTabs.Offered(TabView(), TripTabs.SwitchTo(tabId))
      modifies this`tripRecords, this`ids, this`tripData, this`additionalDestinations, this`selectedVehicles,
        this`activeTabId, this`locations, this`originalLocations
      ensures Valid() && RefsValid()
      ensures TabView() == TripTabs.SwitchTab(old(TabView()), tabId)
      ensures ids.records == old(ids.records)[old(activeTabId) := old((ids.tripData, ids.extras))]
        && ids.created == old(ids.created)
      ensures (ids.tripData, ids.extras) == if tabId in old(tripRecords) then old(ids.records)[tabId] else old((ids.tripData, ids.extras))
      ensures tabId in old(tripRecords) && !old(HoldsLiveObjects(tabId)) ==>
        && locations == CommittedRoute()
        && originalLocations == (if isEditMode then old(originalLocations) else locations)
      ensures tabId !in old(tripRecords) || old(HoldsLiveObjects(tabId)) ==>
        && locations == old(locations) && originalLocations == old(originalLocations)
    {
      ghost var before := TabView();
      var selected := if tabId in tripRecords then Some((tripRecords[tabId], ids.records[tabId])) else None;
      FlushActive();
      ActivateTab(tabId, selected);
      assert TabView() == TripTabs.SwitchTab(before, tabId);
      TripTabs.SwitchTabKeepsInv(before, tabId);
    }
  }

  /**
   * An edit session rolled back: from a screen whose list is the committed route, entering
   * edit mode, making any sequence of changes to the list and then cancelling gives back
   * exactly the list the session started from. (A drag needs both items on screen, hence
   * the bounds test.)
   */
  method EditSessionRollback(screen: VehicleSelectionScreen, edits: seq<ListEdit>)
    requires !screen.isEditMode && screen.locations == screen.CommittedRoute()
    modifies screen
    ensures !screen.isEditMode
    ensures screen.locations == old(screen.locations)
  {
    ghost var route := screen.CommittedRoute();
    screen.EditClick();
    for n := 0 to |edits|
      invariant screen.isEditMode
      invariant screen.originalLocations == route && screen.CommittedRoute() == route
    {
      screen.ApplyListEdit(edits[n]);
    }
    screen.CancelEdit();
  }

  /** Mount with `session` and click "trip-1": the live objects are stored under "trip-1". */
  method ClickTrip1(session: TripData) returns (screen: VehicleSelectionScreen)
    ensures fresh(screen) && screen.Valid() && screen.RefsValid()
    ensures !screen.isDiscardDialogOpen && !screen.isDeleteDialogOpen
    ensures screen.activeTabId == TripTabs.Trip1 && !screen.isEditMode
    ensures TripTabs.Trip1 in screen.tripRecords && screen.HoldsLiveObjects(TripTabs.Trip1)
    ensures screen.tripRecords[TripTabs.Trip1] == TripTabs.TripRecord(session, [], map[])
    ensures screen.locations == screen.CommittedRoute() == TripLocations(session, [])
  {
    screen := new VehicleSelectionScreen(session);
    screen.SwitchTab(TripTabs.Trip1);
  }

  /** After ClickTrip1, enter edit mode: the list is still the committed route. */
  method EditAfterClick(session: TripData) returns (screen: VehicleSelectionScreen)
    ensures fresh(screen) && screen.Valid() && screen.RefsValid()
    ensures !screen.isDiscardDialogOpen && !screen.isDeleteDialogOpen
    ensures screen.activeTabId == TripTabs.Trip1 && screen.isEditMode
    ensures TripTabs.Trip1 in screen.tripRecords && screen.HoldsLiveObjects(TripTabs.Trip1)
    ensures screen.tripRecords[TripTabs.Trip1] == TripTabs.TripRecord(session, [], map[])
    ensures screen.locations == TripLocations(session, [])
  {
    screen := ClickTrip1(session);
    screen.EditClick();
  }

  /** After EditAfterClick, drag the first item onto the second. */
  method DragAfterClick(session: TripData) returns (screen: VehicleSelectionScreen)
    ensures fresh(screen) && screen.Valid() && screen.RefsValid()
    ensures !screen.isDiscardDialogOpen && !screen.isDeleteDialogOpen
    ensures screen.activeTabId == TripTabs.Trip1 && screen.isEditMode
    ensures TripTabs.Trip1 in screen.tripRecords && screen.HoldsLiveObjects(TripTabs.Trip1)
    ensures screen.tripRecords[TripTabs.Trip1] == TripTabs.TripRecord(session, [], map[])
    ensures screen.locations == Move(TripLocations(session, []), 0, 1)
  {
    screen := EditAfterClick(session);
    screen.MoveLocation(0, 1);
  }

  /**
   * A second click on the tab just clicked keeps an edit in progress: the drag that
   * follows the first click changes only the list, so the second click brings back the
   * very same objects, the rebuild effect does not run, and the dragged list stays on
   * screen in edit mode, different from the committed route.
   */
  method ReclickKeepsDrag(session: TripData) returns (screen: VehicleSelectionScreen)
    ensures screen.isEditMode && screen.activeTabId == TripTabs.Trip1
    ensures screen.locations == Move(TripLocations(session, []), 0, 1)
    ensures screen.locations != screen.CommittedRoute()
  {
    ghost var route := TripLocations(session, []);
    assert route[0].id == StartId != DestinationId == route[1].id;
    screen := DragAfterClick(session);
    screen.SwitchTab(TripTabs.Trip1);
    assert screen.tripData == session && screen.additionalDestinations == [];
    assert screen.locations[1] == route[0];
  }
}
