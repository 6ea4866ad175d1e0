/**
 * The trip record that the screens hand to each other through the session store
 * (the `TripData` type declared in VehicleSelection.tsx, BookingPage.tsx and, as an
 * object literal, in CreateTripForm.tsx and Dashboard.tsx).
 */
module TripModel {
  import opened Wrappers

  /** A fixed date range; each end is an ISO timestamp or absent. Dates are opaque here. */
  datatype DateRange = DateRange(from: Option<string>, to: Option<string>)

  const NoDates := DateRange(None, None)

  datatype TripData = TripData(
    tripName: string,
    startLocation: string,
    destination: string,
    dateRange: DateRange,
    isFlexibleDates: bool,
    selectedMonth: string,
    numberOfDays: string,
    passengers: string)

  /** The screens of the wizard; navigation is modelled as the screen a handler asks for. */
  datatype Screen = CreateTrip | SelectVehicle | Booking | Confirmation | TripDashboard

  /** What a screen does when it mounts: render with the loaded data, or redirect to the start. */
  datatype PageLoad<T> = Show(data: T) | Redirect(target: Screen)
}
