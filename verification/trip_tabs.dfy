/**
 * The multi-trip tab manager of the vehicle-selection screen, as a pure state machine.
 * Each function computes the state a handler leaves behind from the state it started in
 * (a React handler reads the state as it was before it ran). The class in
 * vehicle_selection.dfy runs these transitions in place and is proved against them.
 */
module TripTabs {
  import opened Wrappers
  import opened Text
  import opened TripModel
  import opened VehicleMap
  import LocationList

  const Trip1 := "trip-1"

  /** What a tab keeps: its trip data, its extra destinations and its vehicle selection. */
  datatype TripRecord = TripRecord(tripData: TripData, additionalDestinations: seq<string>, selectedVehicles: Selection)

  /**
   * The tab state: the active tab id, the saved records, the live trip of the active tab,
   * the draft flag and draft strings, the two confirmation dialogs, and the `tripData`
   * slot of the session store.
   */
  datatype Tabs = Tabs(
    activeTabId: string,
    tripRecords: map<string, TripRecord>,
    live: TripRecord,
    isDraftTab: bool,
    draftStartLocation: string,
    draftDestination: string,
    isDiscardDialogOpen: bool,
    isDeleteDialogOpen: bool,
    sessionTripData: Option<TripData>)

  /** The trip a new draft starts from, named after the number of records before the click. */
  function DefaultTripData(recordCount: nat): TripData {
    TripData("Trip " + NatToString(recordCount + 2), "", "", NoDates, false, "", "", "1")
  }

  /**
   * A new draft starts with nothing filled in but one passenger, and its name is never
   * "Trip 1", the name of the first tab.
   */
  lemma DefaultTripDataBlank(recordCount: nat)
    ensures var r := DefaultTripData(recordCount);
      && r.tripName != "Trip 1"
      && r.startLocation == "" && r.destination == "" && r.dateRange == NoDates && !r.isFlexibleDates
      && r.selectedMonth == "" && r.numberOfDays == "" && r.passengers == "1"
  {
    var name := DefaultTripData(recordCount).tripName;
    assert name[5..] == NatToString(recordCount + 2);
  }

  /** Different record counts give drafts different default names. */
  lemma DefaultNamesDistinct(a: nat, b: nat)
    requires a != b
    ensures DefaultTripData(a).tripName != DefaultTripData(b).tripName
  {
    var na, nb := DefaultTripData(a).tripName, DefaultTripData(b).tripName;
    assert na[5..] == NatToString(a + 2) && nb[5..] == NatToString(b + 2);
    if na == nb {
      NatToStringInjective(a + 2, b + 2);
    }
  }

  /** The records with the live trip written under the active tab id. */
  function Flush(s: Tabs): map<string, TripRecord> {
    s.tripRecords[s.activeTabId := s.live]
  }

  // ---------------------------------------------------------------------------
  // handleCreateNewTrip

  /**
   * handleCreateNewTrip: flush the live trip unless the active tab is a draft, then make
   * `newTripId` the active draft with empty strings, no vehicles and no extra destinations.
   */
  function CreateTrip(s: Tabs, newTripId: string): (r: Tabs)
    ensures r.activeTabId == newTripId && r.isDraftTab
    ensures r.draftStartLocation == "" && r.draftDestination == ""
    ensures r.live == TripRecord(DefaultTripData(|s.tripRecords|), [], map[])
    ensures !s.isDraftTab ==> s.activeTabId in r.tripRecords && r.tripRecords[s.activeTabId] == s.live
    ensures forall k :: k != s.activeTabId ==>
      (k in r.tripRecords <==> k in s.tripRecords) && (k in s.tripRecords ==> r.tripRecords[k] == s.tripRecords[k])
    ensures s.isDraftTab ==> r.tripRecords == s.tripRecords
    ensures r.sessionTripData == s.sessionTripData
    ensures r.isDiscardDialogOpen == s.isDiscardDialogOpen && r.isDeleteDialogOpen == s.isDeleteDialogOpen
  {
    s.(tripRecords := if s.isDraftTab then s.tripRecords else Flush(s),
       activeTabId := newTripId,
       live := TripRecord(DefaultTripData(|s.tripRecords|), [], map[]),
       isDraftTab := true,
       draftStartLocation := "",
       draftDestination := "")
  }

  // ---------------------------------------------------------------------------
  // handleSaveDraftTrip

  /** The Save button of a draft is disabled unless both draft strings are non-empty. */
  predicate SaveDraftEnabled(s: Tabs) {
    s.draftStartLocation != "" && s.draftDestination != ""
  }

  /**
   * A click on the draft's Save button: when enabled, the live trip takes the two draft
   * strings as start and destination, is stored under the draft's id and in the session
   * slot, and the tab stops being a draft; when disabled nothing happens.
   */
  function SaveDraft(s: Tabs): (r: Tabs)
    ensures !SaveDraftEnabled(s) ==> r == s
    ensures SaveDraftEnabled(s) ==>
      && !r.isDraftTab
      && r.live.tripData == s.live.tripData.(startLocation := s.draftStartLocation, destination := s.draftDestination)
      && r.live.additionalDestinations == s.live.additionalDestinations
      && r.live.selectedVehicles == s.live.selectedVehicles
      && r.tripRecords == s.tripRecords[s.activeTabId := r.live]
      && r.sessionTripData == Some(r.live.tripData)
      && r.activeTabId == s.activeTabId
      && r.draftStartLocation == s.draftStartLocation && r.draftDestination == s.draftDestination
      && r.isDiscardDialogOpen == s.isDiscardDialogOpen && r.isDeleteDialogOpen == s.isDeleteDialogOpen
  {
    if !SaveDraftEnabled(s) then s
    else
      var updated := s.live.tripData.(startLocation := s.draftStartLocation, destination := s.draftDestination);
      var record := s.live.(tripData := updated);
      s.(tripRecords := s.tripRecords[s.activeTabId := record],
         live := record,
         isDraftTab := false,
         sessionTripData := Some(updated))
  }

  /** The route list a saved draft shows: exactly its start and its destination. */
  lemma SavedDraftRoute(s: Tabs)
    requires SaveDraftEnabled(s) && s.live.additionalDestinations == []
    ensures var r := SaveDraft(s);
      LocationList.Labels(LocationList.TripLocations(r.live.tripData, r.live.additionalDestinations))
        == [s.draftStartLocation, s.draftDestination]
  {
  }

  // ---------------------------------------------------------------------------
  // Discard and delete

  /** handleDiscardDraftTrip asks for confirmation only when both draft strings are non-blank. */
  predicate HasBothLocations(s: Tabs) {
    Trim(s.draftStartLocation) != "" && Trim(s.draftDestination) != ""
  }

  /** The confirmation is asked for exactly when neither draft string is all whitespace. */
  lemma HasBothLocationsNonBlank(s: Tabs)
    ensures HasBothLocations(s) <==> !IsBlank(s.draftStartLocation) && !IsBlank(s.draftDestination)
  {
    TrimEmptyIffBlank(s.draftStartLocation);
    TrimEmptyIffBlank(s.draftDestination);
  }

  /**
   * The part confirmDiscardDraftTrip and confirmDeleteTrip share: drop the active tab's
   * record, make "trip-1" active and, when the session slot holds trip data, load it as
   * the live trip data (the live extra destinations and vehicles stay as they are).
   */
  function ReturnToTrip1(s: Tabs): (r: Tabs)
    ensures r.activeTabId == Trip1
    ensures s.activeTabId !in r.tripRecords
    ensures forall k :: k != s.activeTabId ==>
      (k in r.tripRecords <==> k in s.tripRecords) && (k in s.tripRecords ==> r.tripRecords[k] == s.tripRecords[k])
    ensures r.live.tripData == (if s.sessionTripData.Some? then s.sessionTripData.value else s.live.tripData)
    ensures r.live.additionalDestinations == s.live.additionalDestinations
    ensures r.live.selectedVehicles == s.live.selectedVehicles
    ensures r.isDraftTab == s.isDraftTab && r.sessionTripData == s.sessionTripData
    ensures r.draftStartLocation == s.draftStartLocation && r.draftDestination == s.draftDestination
    ensures r.isDiscardDialogOpen == s.isDiscardDialogOpen && r.isDeleteDialogOpen == s.isDeleteDialogOpen
  {
    s.(tripRecords := s.tripRecords - {s.activeTabId},
       activeTabId := Trip1,
       live := if s.sessionTripData.Some? then s.live.(tripData := s.sessionTripData.value) else s.live)
  }

  /** confirmDiscardDraftTrip. */
  function ConfirmDiscard(s: Tabs): (r: Tabs)
    ensures !r.isDraftTab && !r.isDiscardDialogOpen
    ensures r.draftStartLocation == "" && r.draftDestination == ""
    ensures r.isDeleteDialogOpen == s.isDeleteDialogOpen && r.sessionTripData == s.sessionTripData
  {
    ReturnToTrip1(s).(isDraftTab := false, isDiscardDialogOpen := false, draftStartLocation := "", draftDestination := "")
  }

  /** handleDiscardDraftTrip: open the confirmation when both strings are non-blank, else discard at once. */
  function RequestDiscard(s: Tabs): (r: Tabs)
    ensures HasBothLocations(s) <==> r.isDiscardDialogOpen
    ensures HasBothLocations(s) ==> r == s.(isDiscardDialogOpen := true)
    ensures !HasBothLocations(s) ==> r == ConfirmDiscard(s)
  {
    if HasBothLocations(s) then s.(isDiscardDialogOpen := true) else ConfirmDiscard(s)
  }

  /** The trash button is shown only on a saved tab other than "trip-1". */
  predicate Deletable(activeTabId: string, isDraftTab: bool) {
    activeTabId != Trip1 && !isDraftTab
  }

  predicate DeleteOffered(s: Tabs) {
    Deletable(s.activeTabId, s.isDraftTab)
  }

  /** confirmDeleteTrip. */
  function ConfirmDelete(s: Tabs): (r: Tabs)
    ensures !r.isDeleteDialogOpen
    ensures r.isDraftTab == s.isDraftTab && r.isDiscardDialogOpen == s.isDiscardDialogOpen
    ensures r.draftStartLocation == s.draftStartLocation && r.draftDestination == s.draftDestination
    ensures r.sessionTripData == s.sessionTripData
  {
    ReturnToTrip1(s).(isDeleteDialogOpen := false)
  }

  // ---------------------------------------------------------------------------
  // handleSwitchTab

  /**
   * handleSwitchTab: write the live trip under the active id, then load the target's
   * record if it had one before the click (otherwise the live trip stays), and make the
   * target active. The draft flag is left as it was.
   */
  function SwitchTab(s: Tabs, tabId: string): (r: Tabs)
    ensures r.activeTabId == tabId
    ensures s.activeTabId in r.tripRecords && r.tripRecords[s.activeTabId] == s.live
    ensures forall k :: k != s.activeTabId ==>
      (k in r.tripRecords <==> k in s.tripRecords) && (k in s.tripRecords ==> r.tripRecords[k] == s.tripRecords[k])
    ensures r.live == if tabId in s.tripRecords then s.tripRecords[tabId] else s.live
    ensures r.isDraftTab == s.isDraftTab && r.sessionTripData == s.sessionTripData
    ensures r.draftStartLocation == s.draftStartLocation && r.draftDestination == s.draftDestination
    ensures r.isDiscardDialogOpen == s.isDiscardDialogOpen && r.isDeleteDialogOpen == s.isDeleteDialogOpen
  {
    s.(tripRecords := Flush(s),
       live := if tabId in s.tripRecords then s.tripRecords[tabId] else s.live,
       activeTabId := tabId)
  }

  /** Switching to another tab and back restores the live trip and leaves the other tab's record as loaded. */
  lemma SwitchRoundTrip(s: Tabs, other: string)
    requires other != s.activeTabId
    ensures var r := SwitchTab(SwitchTab(s, other), s.activeTabId);
      && r.live == s.live
      && r.activeTabId == s.activeTabId
      && r.tripRecords == s.tripRecords[s.activeTabId := s.live][other := SwitchTab(s, other).live]
      && r.isDraftTab == s.isDraftTab
  {
  }

  /**
   * Clicking the tab that is already active, when it has a record, brings back that record
   * and stores the live trip in its place: edits made since the last flush disappear
   * from view.
   */
  lemma SwitchToActiveReloadsRecord(s: Tabs)
    requires s.activeTabId in s.tripRecords
    ensures var r := SwitchTab(s, s.activeTabId);
      r.live == s.tripRecords[s.activeTabId] && r.tripRecords[s.activeTabId] == s.live
  {
  }

  // ---------------------------------------------------------------------------
  // The tab bar

  /** `tripRecords[id]?.tripData.tripName || tripData.tripName`. */
  function TabLabel(s: Tabs, tabId: string): (name: string)
    ensures tabId !in s.tripRecords ==> name == s.live.tripData.tripName
    ensures tabId in s.tripRecords && s.tripRecords[tabId].tripData.tripName != "" ==>
      name == s.tripRecords[tabId].tripData.tripName
    ensures tabId in s.tripRecords && s.tripRecords[tabId].tripData.tripName == "" ==> name == s.live.tripData.tripName
  {
    if tabId in s.tripRecords && s.tripRecords[tabId].tripData.tripName != "" then s.tripRecords[tabId].tripData.tripName
    else s.live.tripData.tripName
  }

  /** `s` with every occurrence of `x` dropped, order kept. */
  function Without(s: seq<string>, x: string): (r: seq<string>)
    ensures forall y :: y in r <==> y in s && y != x
    ensures |r| <= |s|
  {
    if |s| == 0 then [] else Without(s[..|s| - 1], x) + (if s[|s| - 1] == x then [] else [s[|s| - 1]])
  }

  predicate Distinct(s: seq<string>) {
    forall i, j :: 0 <= i < j < |s| ==> s[i] != s[j]
  }

  lemma {:induction false} WithoutDistinct(s: seq<string>, x: string)
    requires Distinct(s)
    ensures Distinct(Without(s, x))
  {
    if |s| > 0 {
      var init := s[..|s| - 1];
      WithoutDistinct(init, x);
      assert s[|s| - 1] !in init;
    }
  }

  /**
   * The `tabIds` construction: "trip-1" first, then each record key in enumeration order
   * unless it is already listed. `keys` is the order `Object.keys` enumerates.
   */
  method TabIds(keys: seq<string>) returns (ids: seq<string>)
    ensures |ids| >= 1 && ids[0] == Trip1
    ensures Distinct(ids)
    ensures forall k :: k in ids <==> k == Trip1 || k in keys
    ensures Distinct(keys) ==> ids == [Trip1] + Without(keys, Trip1)
  {
    ids := [Trip1];
    var i := 0;
    while i < |keys|
      invariant 0 <= i <= |keys|
      invariant |ids| >= 1 && ids[0] == Trip1
      invariant Distinct(ids)
      invariant forall k :: k in ids <==> k == Trip1 || k in keys[..i]
      invariant Distinct(keys) ==> ids == [Trip1] + Without(keys[..i], Trip1)
    {
      var id := keys[i];
      assert keys[..i + 1] == keys[..i] + [id];
      if id !in ids {
        ids := ids + [id];
      }
      i := i + 1;
    }
    assert keys[..i] == keys;
  }

  // ---------------------------------------------------------------------------
  // The tab state machine as a whole

  datatype TabAction =
    | NewTrip(newTripId: string)
    | EditDraftStart(value: string)
    | EditDraftDestination(value: string)
    | SaveDraftClick
    | DiscardClick
    | DiscardConfirm
    | DiscardCancel
    | DeleteClick
    | DeleteConfirm
    | DeleteCancel
    | SwitchTo(tabId: string)

  predicate DialogOpen(s: Tabs) {
    s.isDiscardDialogOpen || s.isDeleteDialogOpen
  }

  /**
   * Whether the control behind an action is on screen and reachable: a modal dialog covers
   * the page, the draft controls exist only on a draft tab, the trash button only where
   * DeleteOffered holds, a tab button only for "trip-1" and record keys, and a new tab id
   * (a timestamp) is never one already in use.
   */
  predicate Offered(s: Tabs, a: TabAction) {
    match a
    case NewTrip(id) => !DialogOpen(s) && id != Trip1 && id != s.activeTabId && id !in s.tripRecords
    case EditDraftStart(_) => !DialogOpen(s) && s.isDraftTab
    case EditDraftDestination(_) => !DialogOpen(s) && s.isDraftTab
    case SaveDraftClick => !DialogOpen(s) && s.isDraftTab
    case DiscardClick => !DialogOpen(s) && s.isDraftTab
    case DiscardConfirm => s.isDiscardDialogOpen
    case DiscardCancel => s.isDiscardDialogOpen
    case DeleteClick => !DialogOpen(s) && DeleteOffered(s)
    case DeleteConfirm => s.isDeleteDialogOpen
    case DeleteCancel => s.isDeleteDialogOpen
    case SwitchTo(t) => !DialogOpen(s) && (t == Trip1 || t in s.tripRecords)
  }

  function Step(s: Tabs, a: TabAction): Tabs {
    match a
    case NewTrip(id) => CreateTrip(s, id)
    case EditDraftStart(v) => s.(draftStartLocation := v)
    case EditDraftDestination(v) => s.(draftDestination := v)
    case SaveDraftClick => SaveDraft(s)
    case DiscardClick => RequestDiscard(s)
    case DiscardConfirm => ConfirmDiscard(s)
    case DiscardCancel => s.(isDiscardDialogOpen := false)
    case DeleteClick => s.(isDeleteDialogOpen := true)
    case DeleteConfirm => ConfirmDelete(s)
    case DeleteCancel => s.(isDeleteDialogOpen := false)
    case SwitchTo(t) => SwitchTab(s, t)
  }

  /**
   * The tab invariant: at most one confirmation dialog is open, the delete confirmation only
   * on a deletable tab, the discard confirmation only on a draft, and no vehicle selection
   * (live or stored) holds a quantity below one.
   */
  ghost predicate Inv(s: Tabs) {
    InvParts(s.activeTabId, s.tripRecords, s.live.selectedVehicles, s.isDraftTab,
      s.isDiscardDialogOpen, s.isDeleteDialogOpen)
  }

  /** Inv over the only parts of the state it depends on. */
  ghost predicate InvParts(activeTabId: string, tripRecords: map<string, TripRecord>, liveVehicles: Selection,
    isDraftTab: bool, isDiscardDialogOpen: bool, isDeleteDialogOpen: bool)
  {
    && !(isDiscardDialogOpen && isDeleteDialogOpen)
    && (isDeleteDialogOpen ==> Deletable(activeTabId, isDraftTab))
    && (isDiscardDialogOpen ==> isDraftTab)
    && AllPositive(liveVehicles)
    && forall k :: k in tripRecords ==> AllPositive(tripRecords[k].selectedVehicles)
  }

  /** Creating a trip with no dialog open keeps the tab invariant. */
  lemma CreateTripKeepsInv(s: Tabs, newTripId: string)
    requires Inv(s) && !DialogOpen(s)
    ensures Inv(CreateTrip(s, newTripId))
  {
    var r := CreateTrip(s, newTripId);
    assert r.tripRecords == if s.isDraftTab then s.tripRecords else Flush(s);
  }

  /** Switching tabs with no dialog open keeps the tab invariant. */
  lemma SwitchTabKeepsInv(s: Tabs, tabId: string)
    requires Inv(s) && !DialogOpen(s)
    ensures Inv(SwitchTab(s, tabId))
  {
    var r := SwitchTab(s, tabId);
    assert r.tripRecords == Flush(s);
  }

  /** Saving a draft with the discard confirmation closed keeps the tab invariant. */
  lemma SaveDraftKeepsInv(s: Tabs)
    requires Inv(s) && !s.isDiscardDialogOpen
    ensures Inv(SaveDraft(s))
  {
    if SaveDraftEnabled(s) {
      assert forall k :: k in SaveDraft(s).tripRecords ==> k == s.activeTabId || k in s.tripRecords;
    }
  }

  /** Every offered action keeps the tab invariant. */
  lemma StepKeepsInv(s: Tabs, a: TabAction)
    requires Inv(s) && Offered(s, a)
    ensures Inv(Step(s, a))
  {
    match a
    case NewTrip(id) => CreateTripKeepsInv(s, id);
    case SwitchTo(t) => SwitchTabKeepsInv(s, t);
    case SaveDraftClick => SaveDraftKeepsInv(s);
    case DiscardClick =>
    case DiscardConfirm =>
    case DeleteConfirm =>
    case _ =>
  }

  /** A confirmed deletion never removes or changes the record of "trip-1". */
  lemma DeleteSparesTrip1(s: Tabs)
    requires Inv(s) && Offered(s, DeleteConfirm)
    ensures var r := Step(s, DeleteConfirm);
      r.activeTabId == Trip1
      && (Trip1 in r.tripRecords <==> Trip1 in s.tripRecords)
      && (Trip1 in s.tripRecords ==> r.tripRecords[Trip1] == s.tripRecords[Trip1])
  {
  }

  /** Creating a trip from a saved tab and discarding the untouched draft leaves only the flushed record behind. */
  lemma CreateThenDiscard(s: Tabs, newTripId: string)
    requires !s.isDraftTab && Offered(s, NewTrip(newTripId))
    ensures var r := Step(Step(s, NewTrip(newTripId)), DiscardClick);
      && r.tripRecords == Flush(s)
      && r.activeTabId == Trip1 && !r.isDraftTab && !r.isDiscardDialogOpen
      && r.live.tripData == (if s.sessionTripData.Some? then s.sessionTripData.value else DefaultTripData(|s.tripRecords|))
  {
    var c := CreateTrip(s, newTripId);
    assert !HasBothLocations(c);
    assert c.tripRecords - {newTripId} == Flush(s);
  }

  /**
   * Switching from a draft to "trip-1" keeps the draft flag, so the draft's Discard button
   * then deletes the record of "trip-1" (here with both draft strings blank, so at once).
   */
  lemma DraftSwitchThenDiscardDropsTrip1(s: Tabs, newTripId: string)
    requires !s.isDraftTab && s.activeTabId == Trip1 && Offered(s, NewTrip(newTripId))
    ensures var c := Step(s, NewTrip(newTripId));
      var w := Step(c, SwitchTo(Trip1));
      var r := Step(w, DiscardClick);
      && Offered(c, SwitchTo(Trip1)) && Offered(w, DiscardClick)
      && w.isDraftTab && Trip1 in w.tripRecords
      && Trip1 !in r.tripRecords
  {
    var c := Step(s, NewTrip(newTripId));
    var w := Step(c, SwitchTo(Trip1));
    assert !HasBothLocations(w);
  }
}
