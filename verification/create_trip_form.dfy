/**
 * The create-trip form: when it may be submitted and the trip data it hands to the
 * vehicle-selection screen.
 */
module CreateTripForm {
  import opened Wrappers
  import opened Text
  import opened TripModel
  import LocationList
  import VehicleSelection

  /** The form's fields as typed; the trip name is still untrimmed. */
  datatype TripForm = TripForm(
    tripName: string,
    startLocation: string,
    destination: string,
    dateRange: DateRange,
    isFlexibleDates: bool,
    selectedMonth: string,
    numberOfDays: string,
    passengers: string)

  /** The form as it first appears. */
  const InitialForm := TripForm("", "Tokyo Station Hotel", "", NoDates, false, "Feb", "2 days", "1")

  /** The name a trip gets when the name field is left blank. */
  const DefaultTripName := "Trip 1"

  /**
   * isFormValid: a destination, and either both ends of a fixed range or, with flexible
   * dates, a month and a number of days.
   */
  predicate IsFormValid(f: TripForm): (b: bool)
    ensures b ==> f.destination != ""
    ensures !f.isFlexibleDates ==> (b <==> f.destination != "" && f.dateRange.from.Some? && f.dateRange.to.Some?)
    ensures f.isFlexibleDates ==> (b <==> f.destination != "" && f.selectedMonth != "" && f.numberOfDays != "")
  {
    && f.destination != ""
    && ((!f.isFlexibleDates && f.dateRange.from.Some? && f.dateRange.to.Some?)
        || (f.isFlexibleDates && f.selectedMonth != "" && f.numberOfDays != ""))
  }

  /** The stored trip name: the trimmed input, or DefaultTripName when nothing is left. */
  function FinalTripName(tripName: string): (r: string)
    ensures !IsBlank(tripName) ==> r == Trim(tripName)
    ensures IsBlank(tripName) ==> r == DefaultTripName
  {
    TrimEmptyIffBlank(tripName);
    if Trim(tripName) != "" then Trim(tripName) else DefaultTripName
  }

  /** What a submit stores in the session slot and the screen it asks for. */
  datatype Submission = Submission(tripData: TripData, next: Screen)

  /** handleSubmit: nothing on an invalid form; otherwise the trip data, and on to vehicle selection. */
  function Submit(f: TripForm): (r: Option<Submission>)
    ensures r.Some? <==> IsFormValid(f)
    ensures r.Some? ==> r.value.next == SelectVehicle
    ensures r.Some? ==> r.value.tripData == TripData(FinalTripName(f.tripName), f.startLocation, f.destination,
      f.dateRange, f.isFlexibleDates, f.selectedMonth, f.numberOfDays, f.passengers)
  {
    if IsFormValid(f) then
      Some(Submission(TripData(FinalTripName(f.tripName), f.startLocation, f.destination,
        f.dateRange, f.isFlexibleDates, f.selectedMonth, f.numberOfDays, f.passengers), SelectVehicle))
    else None
  }

  /** The form as first shown cannot be submitted: it has no destination. */
  lemma InitialFormInvalid()
    ensures !IsFormValid(InitialForm) && Submit(InitialForm) == None
  {
  }

  /** Validity ignores the trip name, the start location and the passenger count; an empty start location can be submitted. */
  lemma ValidityIgnoresNameStartAndPassengers(f: TripForm, name: string, start: string, passengers: string)
    ensures IsFormValid(f) == IsFormValid(f.(tripName := name, startLocation := start, passengers := passengers))
  {
  }

  /** A stored trip name is never blank and never carries surrounding whitespace. */
  lemma StoredNameIsTrimmedAndNonBlank(tripName: string)
    ensures !IsBlank(FinalTripName(tripName))
    ensures Trim(FinalTripName(tripName)) == FinalTripName(tripName)
  {
    var name := FinalTripName(tripName);
    if Trim(tripName) != "" {
      TrimEmptyIffBlank(name);
      TrimOfTrimmed(name);
    } else {
      assert !IsWhitespace(name[0]);
      TrimOfTrimmed(name);
      TrimEmptyIffBlank(name);
    }
  }

  /**
   * A submitted trip opens the vehicle-selection screen on a route of exactly the form's
   * start and destination.
   */
  lemma SubmitThenSelectVehicle(f: TripForm)
    requires IsFormValid(f)
    ensures var t := Submit(f).value.tripData;
      && VehicleSelection.Mount(Some(t)) == Show(t)
      && LocationList.Labels(LocationList.TripLocations(t, [])) == [f.startLocation, f.destination]
  {
  }
}
