/**
 * The trip dashboard: the trip list it starts from, the status filter and its counts,
 * the status labels, and where "Continue" leads.
 */
module Dashboard {
  import opened Wrappers
  import opened TripModel

  /** A trip card. Saved trips come from storage, so the status is any string. */
  datatype Trip = Trip(
    id: string,
    bookingReference: Option<string>,
    tripName: string,
    startLocation: string,
    destination: string,
    dateRange: DateRange,
    isFlexibleDates: bool,
    selectedMonth: string,
    numberOfDays: string,
    passengers: string,
    vehicleCount: int,
    status: string,
    createdAt: string,
    totalPrice: Option<int>)

  const Draft := "draft"
  const InProgress := "in-progress"
  const ChangesRequested := "changes-requested"
  const Approved := "approved"
  const Cancelled := "cancelled"
  const Done := "done"

  /** The statuses that have an entry in the status table, in filter-bar order. */
  const KnownStatuses := [Draft, InProgress, ChangesRequested, Approved, Cancelled, Done]

  function Fixed(day: string): DateRange {
    DateRange(Some(day), Some(day))
  }

  /** The five sample trips shown after the saved ones. */
  const MockTrips := [
    Trip("trip-1", Some("BK12345678"), "Tokyo Business Trip", "Tokyo Station Hotel", "Narita International Airport",
      Fixed("2026-03-15T00:00:00.000Z"), false, "", "", "3", 1, InProgress, "2026-02-20T10:30:00.000Z", Some(504)),
    Trip("trip-2", None, "Kyoto Sightseeing", "Kyoto Station", "Fushimi Inari Shrine",
      NoDates, true, "Apr", "Day 3-5", "2", 1, Draft, "2026-02-22T14:20:00.000Z", None),
    Trip("trip-3", Some("BK87654321"), "Osaka Conference", "Osaka International Airport", "Hilton Osaka Hotel",
      Fixed("2026-04-10T00:00:00.000Z"), false, "", "", "5", 2, ChangesRequested, "2026-02-18T09:15:00.000Z", Some(890)),
    Trip("trip-4", Some("BK11223344"), "Yokohama Day Tour", "Tokyo Station", "Yokohama Chinatown",
      Fixed("2026-03-25T00:00:00.000Z"), false, "", "", "4", 1, Approved, "2026-02-15T14:30:00.000Z", Some(650)),
    Trip("trip-5", Some("BK99887766"), "Mt. Fuji Excursion", "Shinjuku Station", "Mt. Fuji 5th Station",
      Fixed("2026-02-01T00:00:00.000Z"), false, "", "", "6", 1, Done, "2026-01-20T11:00:00.000Z", Some(780))
  ]

  // ---------------------------------------------------------------------------
  // The list

  /** The list the dashboard starts from: the saved trips, then the sample trips, nothing dropped. */
  function InitialTrips(saved: seq<Trip>): (r: seq<Trip>)
    ensures |r| == |saved| + |MockTrips|
    ensures r[..|saved|] == saved && r[|saved|..] == MockTrips
  {
    saved + MockTrips
  }

  /** A saved trip with a sample trip's id appears twice: the merge does not de-duplicate. */
  lemma MergeKeepsDuplicateIds(saved: seq<Trip>, k: nat)
    requires k < |saved| && saved[k].id == "trip-1"
    ensures var r := InitialTrips(saved);
      exists i, j :: 0 <= i < j < |r| && r[i].id == r[j].id == "trip-1"
  {
    var r := InitialTrips(saved);
    assert r[k].id == "trip-1" && r[|saved|].id == "trip-1";
  }

  /** `trips.filter(t => t.status === status)`. */
  function ByStatus(trips: seq<Trip>, status: string): (r: seq<Trip>)
    ensures |r| <= |trips|
  {
    if |trips| == 0 then []
    else
      var last := trips[|trips| - 1];
      ByStatus(trips[..|trips| - 1], status) + (if last.status == status then [last] else [])
  }

  /** The filter keeps exactly the trips with the status, each as often as it occurs. */
  lemma {:induction false} ByStatusKeeps(trips: seq<Trip>, status: string)
    ensures forall t :: t in ByStatus(trips, status) <==> t in trips && t.status == status
    ensures forall t: Trip :: t.status == status ==> multiset(ByStatus(trips, status))[t] == multiset(trips)[t]
    ensures forall t: Trip :: t.status != status ==> multiset(ByStatus(trips, status))[t] == 0
  {
    if |trips| > 0 {
      var init := trips[..|trips| - 1];
      var last := trips[|trips| - 1];
      assert trips == init + [last];
      ByStatusKeeps(init, status);
    }
  }

  /** `r` is `s` with some elements left out and the rest in their order. */
  ghost predicate IsSubsequence(r: seq<Trip>, s: seq<Trip>) {
    exists idx: seq<nat> ::
      && |idx| == |r|
      && (forall i :: 0 <= i < |idx| ==> idx[i] < |s| && s[idx[i]] == r[i])
      && (forall i, j :: 0 <= i < j < |idx| ==> idx[i] < idx[j])
  }

  /** The positions in `trips` that a status filter keeps, in increasing order. */
  lemma {:induction false} FilterPositions(trips: seq<Trip>, status: string) returns (idx: seq<nat>)
    ensures |idx| == |ByStatus(trips, status)|
    ensures forall i :: 0 <= i < |idx| ==> idx[i] < |trips| && trips[idx[i]] == ByStatus(trips, status)[i]
    ensures forall i, j :: 0 <= i < j < |idx| ==> idx[i] < idx[j]
  {
    if |trips| == 0 {
      idx := [];
    } else {
      var init := trips[..|trips| - 1];
      var prefix := FilterPositions(init, status);
      if trips[|trips| - 1].status == status {
        idx := prefix + [|trips| - 1];
      } else {
        idx := prefix;
      }
    }
  }

  /** The filter bar's choice: every trip, or one status. */
  datatype StatusFilter = All | OnlyStatus(status: string)

  /** filteredTrips. */
  function FilteredTrips(trips: seq<Trip>, filter: StatusFilter): (r: seq<Trip>)
    ensures |r| <= |trips|
    ensures filter.All? ==> r == trips
    ensures filter.OnlyStatus? ==> forall i :: 0 <= i < |r| ==> r[i] in trips && r[i].status == filter.status
  {
    match filter
    case All => trips
    case OnlyStatus(s) => ByStatusKeeps(trips, s); ByStatus(trips, s)
  }

  /**
   * "All" shows the whole list; a status shows exactly the trips with that status,
   * as often as they occur and in their original order.
   */
  lemma FilterMeaning(trips: seq<Trip>, filter: StatusFilter)
    ensures filter.All? ==> FilteredTrips(trips, filter) == trips
    ensures filter.OnlyStatus? ==>
      && IsSubsequence(FilteredTrips(trips, filter), trips)
      && (forall t :: t in FilteredTrips(trips, filter) <==> t in trips && t.status == filter.status)
  {
    if filter.OnlyStatus? {
      ByStatusKeeps(trips, filter.status);
      var idx := FilterPositions(trips, filter.status);
      assert |idx| == |FilteredTrips(trips, filter)|;
    }
  }

  /** ByStatus of a concatenation is the concatenation of the two filtered halves. */
  lemma {:induction false} ByStatusAppend(a: seq<Trip>, b: seq<Trip>, status: string)
    ensures ByStatus(a + b, status) == ByStatus(a, status) + ByStatus(b, status)
    decreases |b|
  {
    if |b| == 0 {
      assert a + b == a;
    } else {
      var b' := b[..|b| - 1];
      assert (a + b)[..|a + b| - 1] == a + b';
      ByStatusAppend(a, b', status);
    }
  }

  /** A status's filter-bar count: the number of trips carrying it. */
  function StatusCount(trips: seq<Trip>, status: string): (r: nat)
    ensures r <= |trips|
    ensures r == 0 <==> forall t :: t in trips ==> t.status != status
  {
    ByStatusKeeps(trips, status);
    |ByStatus(trips, status)|
  }

  /** The counts of the six known statuses added up. */
  function KnownCountsTotal(trips: seq<Trip>): nat {
    StatusCount(trips, Draft) + StatusCount(trips, InProgress) + StatusCount(trips, ChangesRequested)
    + StatusCount(trips, Approved) + StatusCount(trips, Cancelled) + StatusCount(trips, Done)
  }

  /** Appending one trip adds one to the known counts exactly when its status is known. */
  lemma KnownCountsSnoc(init: seq<Trip>, last: Trip)
    ensures KnownCountsTotal(init + [last]) == KnownCountsTotal(init) + if last.status in KnownStatuses then 1 else 0
  {
    assert (init + [last])[..|init|] == init;
  }

  /**
   * The six counts partition the list when every trip's status is a known one; a trip with
   * any other status is counted under no tab.
   */
  lemma {:induction false} KnownCountsPartition(trips: seq<Trip>)
    ensures KnownCountsTotal(trips) <= |trips|
    ensures (forall t :: t in trips ==> t.status in KnownStatuses) <==> KnownCountsTotal(trips) == |trips|
  {
    if |trips| > 0 {
      var init := trips[..|trips| - 1];
      var last := trips[|trips| - 1];
      assert trips == init + [last];
      KnownCountsPartition(init);
      KnownCountsSnoc(init, last);
      if forall t :: t in trips ==> t.status in KnownStatuses {
        assert forall t :: t in init ==> t.status in KnownStatuses by {
          forall t | t in init ensures t.status in KnownStatuses {
            assert t in trips;
          }
        }
        assert last in trips;
      }
      if last.status in KnownStatuses && forall t :: t in init ==> t.status in KnownStatuses {
        forall t | t in trips ensures t.status in KnownStatuses {
          assert t in init || t == last;
        }
      }
    }
  }

  /** Adding saved trips only raises a status's count, by exactly the saved trips with it. */
  lemma CountOfInitialTrips(saved: seq<Trip>, status: string)
    ensures StatusCount(InitialTrips(saved), status) == StatusCount(saved, status) + StatusCount(MockTrips, status)
  {
    ByStatusAppend(saved, MockTrips, status);
  }

  // ---------------------------------------------------------------------------
  // Labels

  /**
   * The names a plain JavaScript object inherits from `Object.prototype`. Looking one of
   * them up in the status table finds the inherited member (a function, or the prototype
   * itself for "__proto__"), which is truthy but has no `label`.
   */
  const InheritedNames: set<string> := {
    "constructor", "toString", "valueOf", "hasOwnProperty", "isPrototypeOf",
    "propertyIsEnumerable", "toLocaleString", "__proto__",
    "__defineGetter__", "__defineSetter__", "__lookupGetter__", "__lookupSetter__"
  }

  /** What `statusConfig[status]` finds: an own entry with its label, an inherited member, or nothing. */
  datatype ConfigLookup = Entry(text: string) | Inherited | Missing

  /** The status-table lookup. */
  function StatusConfig(status: string): (r: ConfigLookup)
    ensures r.Entry? <==> status in KnownStatuses
    ensures r.Inherited? <==> status in InheritedNames
    ensures r.Entry? ==> r.text != ""
  {
    if status == Draft then Entry("Draft")
    else if status == InProgress then Entry("In Progress")
    else if status == ChangesRequested then Entry("Changes Requested")
    else if status == Approved then Entry("Approved")
    else if status == Cancelled then Entry("Cancelled")
    else if status == Done then Entry("Done")
    else if status in InheritedNames then Inherited
    else Missing
  }

  /**
   * The text of a status badge: the table's label for an own entry; nothing for an inherited
   * member, since the `!config` fallback is skipped and `config.label` is undefined; the raw
   * status when the lookup finds nothing.
   */
  function BadgeLabel(status: string): (r: string)
    ensures status in KnownStatuses ==> r == StatusConfig(status).text
    ensures status in InheritedNames ==> r == ""
    ensures status !in KnownStatuses && status !in InheritedNames ==> r == status
  {
    match StatusConfig(status)
    case Entry(text) => text
    case Inherited => ""
    case Missing => status
  }

  /** The text of a filter tab: "All", else the table's label or, failing that, the status. */
  function FilterLabel(filter: StatusFilter): (r: string)
    ensures filter.All? ==> r == "All"
    ensures filter.OnlyStatus? && filter.status in KnownStatuses ==> r == BadgeLabel(filter.status)
    ensures filter.OnlyStatus? && filter.status !in KnownStatuses ==> r == filter.status
  {
    match filter
    case All => "All"
    case OnlyStatus(s) =>
      match StatusConfig(s)
      case Entry(text) => if text != "" then text else s
      case _ => s
  }

  /** The known statuses get six different labels, none of them "All". */
  lemma LabelsDistinct(s1: string, s2: string)
    requires s1 in KnownStatuses && s2 in KnownStatuses && s1 != s2
    ensures BadgeLabel(s1) != BadgeLabel(s2)
    ensures BadgeLabel(s1) != FilterLabel(All)
  {
  }

  /**
   * A status the table neither holds nor inherits is shown verbatim on the badge and by the
   * tab-label expression.
   */
  lemma UnknownStatusShownVerbatim(status: string)
    requires status !in KnownStatuses && status !in InheritedNames
    ensures BadgeLabel(status) == status && FilterLabel(OnlyStatus(status)) == status
  {
  }

  /**
   * A badge comes out empty exactly for the empty status and the inherited names; the
   * tab-label expression still shows an inherited name as itself.
   */
  lemma EmptyBadges(status: string)
    ensures BadgeLabel(status) == "" <==> status == "" || status in InheritedNames
    ensures status in InheritedNames ==> FilterLabel(OnlyStatus(status)) == status
  {
  }

  // ---------------------------------------------------------------------------
  // Continue

  /** The Continue (or Update/Complete Details) button is on the card: the first three statuses of the filter bar. */
  predicate ContinueShown(status: string): (r: bool)
    ensures r <==> status in KnownStatuses[..3]
  {
    assert KnownStatuses[..3] == [Draft, InProgress, ChangesRequested];
    status == Draft || status == InProgress || status == ChangesRequested
  }

  /** What handleContinueTrip stores in the session slot and the screen it asks for, if any. */
  datatype ContinueOutcome = ContinueOutcome(tripData: TripData, next: Option<Screen>)

  /** handleContinueTrip. */
  function ContinueTrip(trip: Trip): (r: ContinueOutcome)
    ensures r.tripData.tripName == trip.tripName && r.tripData.passengers == trip.passengers
    ensures r.tripData.startLocation == trip.startLocation && r.tripData.destination == trip.destination
    ensures r.tripData.dateRange == trip.dateRange && r.tripData.isFlexibleDates == trip.isFlexibleDates
    ensures r.tripData.selectedMonth == trip.selectedMonth && r.tripData.numberOfDays == trip.numberOfDays
    ensures r.next == Some(SelectVehicle) <==> trip.status == Draft
    ensures r.next == Some(Booking) <==> trip.status == InProgress || trip.status == ChangesRequested
    ensures r.next.Some? ==> r.next == Some(SelectVehicle) || r.next == Some(Booking)
  {
    var data := TripData(trip.tripName, trip.startLocation, trip.destination, trip.dateRange,
      trip.isFlexibleDates, trip.selectedMonth, trip.numberOfDays, trip.passengers);
    if trip.status == Draft then ContinueOutcome(data, Some(SelectVehicle))
    else if trip.status == InProgress || trip.status == ChangesRequested then ContinueOutcome(data, Some(Booking))
    else ContinueOutcome(data, None)
  }

  /**
   * Every card that shows the button navigates when it is pressed, and no other status would;
   * the trip's id, status, reference and price stay behind.
   */
  lemma ContinueNavigatesExactlyWhenShown(trip: Trip, other: Trip)
    requires other.tripName == trip.tripName && other.startLocation == trip.startLocation
    requires other.destination == trip.destination && other.dateRange == trip.dateRange
    requires other.isFlexibleDates == trip.isFlexibleDates && other.selectedMonth == trip.selectedMonth
    requires other.numberOfDays == trip.numberOfDays && other.passengers == trip.passengers
    ensures ContinueTrip(trip).next.Some? <==> ContinueShown(trip.status)
    ensures ContinueTrip(other).tripData == ContinueTrip(trip).tripData
  {
  }

  /** Continuing the sample draft opens vehicle selection with its flexible dates; the sample in-progress trip opens the booking. */
  lemma ContinueSampleTrips()
    ensures ContinueTrip(MockTrips[1]).next == Some(SelectVehicle)
    ensures ContinueTrip(MockTrips[1]).tripData.isFlexibleDates
    ensures ContinueTrip(MockTrips[0]).next == Some(Booking)
    ensures ContinueTrip(MockTrips[3]).next == None
  {
  }
}
