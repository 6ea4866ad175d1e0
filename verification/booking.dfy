/**
 * The booking screen: the price of the selected vehicles, the price summary, the route
 * as the booking screen lists it, the marker rules of its map sketch, when the screen
 * loads, and the confirmation.
 */
module Booking {
  import opened Wrappers
  import opened Text
  import opened TripModel
  import opened VehicleMap
  import LocationList

  /** A rentable vehicle; rates are whole dollars. */
  datatype Vehicle = Vehicle(id: string, name: string, hourlyRate: int, fullDayRate: int)

  /** The vehicle catalog the booking screen prices against. */
  const Catalog: seq<Vehicle> := [
    Vehicle("comfort-van", "Comfort Van", 95, 420),
    Vehicle("premium-van", "Premium Van", 110, 580),
    Vehicle("luxury-sedan", "Luxury Sedan", 125, 650),
    Vehicle("crossover-suv", "Crossover SUV", 85, 450)
  ]

  /** The hire length the screen assumes: a full day. */
  const EstimatedHours := 8

  /** From this many hours on, the full-day rate applies. */
  const FullDayHours := 5

  // ---------------------------------------------------------------------------
  // Rates

  /** Position `k` holds the first catalog vehicle with the id. */
  predicate FirstWithId(catalog: seq<Vehicle>, k: nat, id: string)
    requires k < |catalog|
  {
    catalog[k].id == id && forall j :: 0 <= j < k ==> catalog[j].id != id
  }

  /** `vehicles.find(v => v.id === id)`: the first catalog vehicle with that id. */
  function Find(catalog: seq<Vehicle>, id: string): (r: Option<Vehicle>)
    ensures r.None? <==> forall v :: v in catalog ==> v.id != id
    ensures r.Some? ==> r.value in catalog && r.value.id == id
    ensures r.Some? ==> exists k :: 0 <= k < |catalog| && catalog[k] == r.value && FirstWithId(catalog, k, id)
  {
    if |catalog| == 0 then None
    else if catalog[0].id == id then Some(catalog[0])
    else Find(catalog[1..], id)
  }

  /** The price of one vehicle for the hire: the full-day rate from FullDayHours on, else hourly. */
  function UnitRate(v: Vehicle, hours: int): (r: int)
    ensures hours >= FullDayHours ==> r == v.fullDayRate
    ensures hours < FullDayHours ==> r == v.hourlyRate * hours
    ensures 0 <= hours && v.hourlyRate >= 0 && v.fullDayRate >= 0 ==> r >= 0
  {
    if hours >= FullDayHours then v.fullDayRate else v.hourlyRate * hours
  }

  /** At the screen's fixed hire length every vehicle is charged its full-day rate. */
  lemma EstimatedHoursChargeFullDay(v: Vehicle)
    ensures UnitRate(v, EstimatedHours) == v.fullDayRate
  {
  }

  /** The catalog's ids are pairwise different, so the first match is the only match. */
  lemma CatalogIdsDistinct()
    ensures forall i, j :: 0 <= i < j < |Catalog| ==> Catalog[i].id != Catalog[j].id
  {
  }

  // ---------------------------------------------------------------------------
  // The subtotal

  /** One `[vehicleId, quantity]` pair of `Object.entries(selectedVehicles)`. */
  type Entry = (string, int)

  /** What one entry adds to the subtotal: nothing for an id missing from the catalog. */
  function LineAmount(catalog: seq<Vehicle>, e: Entry, hours: int): (r: int)
    ensures (forall v :: v in catalog ==> v.id != e.0) ==> r == 0
    ensures forall k :: 0 <= k < |catalog| && FirstWithId(catalog, k, e.0) ==> r == UnitRate(catalog[k], hours) * e.1
  {
    match Find(catalog, e.0)
    case None => 0
    case Some(v) => UnitRate(v, hours) * e.1
  }

  ghost predicate RatesNonNegative(catalog: seq<Vehicle>) {
    forall k :: 0 <= k < |catalog| ==> catalog[k].hourlyRate >= 0 && catalog[k].fullDayRate >= 0
  }

  ghost predicate QuantitiesNonNegative(entries: seq<Entry>) {
    forall k :: 0 <= k < |entries| ==> entries[k].1 >= 0
  }

  /** The sum, over the entries in order, of what each adds. */
  function Subtotal(catalog: seq<Vehicle>, entries: seq<Entry>, hours: int): (r: int)
    ensures (forall k :: 0 <= k < |entries| ==> Find(catalog, entries[k].0).None?) ==> r == 0
  {
    if |entries| == 0 then 0
    else Subtotal(catalog, entries[..|entries| - 1], hours) + LineAmount(catalog, entries[|entries| - 1], hours)
  }

  lemma MulNonNegative(x: int, y: int)
    requires x >= 0 && y >= 0
    ensures x * y >= 0
  {
  }

  /** With non-negative rates, quantity and hours one entry adds a non-negative amount. */
  lemma LineAmountNonNegative(catalog: seq<Vehicle>, e: Entry, hours: int)
    requires RatesNonNegative(catalog) && e.1 >= 0 && hours >= 0
    ensures LineAmount(catalog, e, hours) >= 0
  {
    match Find(catalog, e.0)
    case None =>
    case Some(v) =>
      var k :| 0 <= k < |catalog| && catalog[k] == v;
      MulNonNegative(v.hourlyRate, hours);
      MulNonNegative(UnitRate(v, hours), e.1);
  }

  /** With non-negative rates, quantities and hours the subtotal is never negative. */
  lemma {:induction false} SubtotalNonNegative(catalog: seq<Vehicle>, entries: seq<Entry>, hours: int)
    requires RatesNonNegative(catalog) && QuantitiesNonNegative(entries) && hours >= 0
    ensures Subtotal(catalog, entries, hours) >= 0
  {
    if |entries| > 0 {
      SubtotalNonNegative(catalog, entries[..|entries| - 1], hours);
      LineAmountNonNegative(catalog, entries[|entries| - 1], hours);
    }
  }

  /** calculateTotalPrice: the `forEach` loop accumulating `rate * quantity` over the catalog vehicles. */
  method CalculateTotalPrice(catalog: seq<Vehicle>, entries: seq<Entry>, hours: int) returns (total: int)
    ensures total == Subtotal(catalog, entries, hours)
  {
    total := 0;
    for i := 0 to |entries|
      invariant total == Subtotal(catalog, entries[..i], hours)
    {
      assert entries[..i + 1][..i] == entries[..i];
      var (vehicleId, quantity) := entries[i];
      var vehicle := Find(catalog, vehicleId);
      if vehicle.Some? {
        var rate := UnitRate(vehicle.value, hours);
        total := total + rate * quantity;
      }
    }
    assert entries[..|entries|] == entries;
  }

  /** The subtotal of two runs of entries is the sum of their subtotals. */
  lemma {:induction false} SubtotalAppend(catalog: seq<Vehicle>, a: seq<Entry>, b: seq<Entry>, hours: int)
    ensures Subtotal(catalog, a + b, hours) == Subtotal(catalog, a, hours) + Subtotal(catalog, b, hours)
  {
    if |b| == 0 {
      assert a + b == a;
    } else {
      assert (a + b)[..|a + b| - 1] == a + b[..|b| - 1];
      SubtotalAppend(catalog, a, b[..|b| - 1], hours);
    }
  }

  /** Dropping the entry at `k` drops one copy of it from the multiset. */
  lemma DropOne(b: seq<Entry>, k: nat)
    requires k < |b|
    ensures multiset(b[..k] + b[k + 1..]) == multiset(b) - multiset{b[k]}
  {
    assert b == b[..k] + [b[k]] + b[k + 1..];
    assert multiset(b) == multiset(b[..k]) + multiset{b[k]} + multiset(b[k + 1..]);
  }

  /** A position of `x` in `b`, and what dropping it leaves. */
  lemma PositionOf(b: seq<Entry>, x: Entry) returns (k: nat)
    requires x in multiset(b)
    ensures k < |b| && b[k] == x
    ensures multiset(b[..k] + b[k + 1..]) == multiset(b) - multiset{x}
  {
    assert x in b;
    k :| 0 <= k < |b| && b[k] == x;
    DropOne(b, k);
  }

  /** Taking the entry at `k` out of the enumeration takes its amount out of the subtotal. */
  lemma SubtotalDropOne(catalog: seq<Vehicle>, b: seq<Entry>, k: nat, hours: int)
    requires k < |b|
    ensures Subtotal(catalog, b, hours) == Subtotal(catalog, b[..k] + b[k + 1..], hours) + LineAmount(catalog, b[k], hours)
  {
    assert b == b[..k] + [b[k]] + b[k + 1..];
    SubtotalAppend(catalog, b[..k] + [b[k]], b[k + 1..], hours);
    SubtotalAppend(catalog, b[..k], [b[k]], hours);
    SubtotalAppend(catalog, b[..k], b[k + 1..], hours);
    assert [b[k]][..0] == [];
  }

  /** The order the entries are enumerated in does not change the subtotal. */
  lemma {:induction false} SubtotalPermutation(catalog: seq<Vehicle>, a: seq<Entry>, b: seq<Entry>, hours: int)
    requires multiset(a) == multiset(b)
    ensures Subtotal(catalog, a, hours) == Subtotal(catalog, b, hours)
  {
    if |a| == 0 {
      assert |b| == |multiset(b)| == 0;
    } else {
      var x := a[|a| - 1];
      var a' := a[..|a| - 1];
      DropOne(a, |a| - 1);
      assert a[..|a| - 1] + a[|a|..] == a';
      var k := PositionOf(b, x);
      SubtotalPermutation(catalog, a', b[..k] + b[k + 1..], hours);
      SubtotalDropOne(catalog, b, k, hours);
    }
  }

  /** `entries` is an `Object.entries` enumeration of the selection `m`: each key once, with its quantity. */
  ghost predicate Enumerates(entries: seq<Entry>, m: Selection) {
    && (forall i, j :: 0 <= i < j < |entries| ==> entries[i].0 != entries[j].0)
    && (forall e :: e in entries <==> e.0 in m && m[e.0] == e.1)
  }

  /** In a sequence without repetitions every element occurs once. */
  lemma {:induction false} DistinctMultiplicity(a: seq<Entry>, e: Entry)
    requires forall i, j :: 0 <= i < j < |a| ==> a[i] != a[j]
    ensures multiset(a)[e] == if e in a then 1 else 0
  {
    if |a| > 0 {
      var last := a[|a| - 1];
      var a' := a[..|a| - 1];
      assert a == a' + [last];
      DistinctMultiplicity(a', e);
    }
  }

  /** Two sequences without repetitions holding the same elements hold them equally often. */
  lemma SameElementsSameMultiset(a: seq<Entry>, b: seq<Entry>)
    requires forall i, j :: 0 <= i < j < |a| ==> a[i] != a[j]
    requires forall i, j :: 0 <= i < j < |b| ==> b[i] != b[j]
    requires forall e :: e in a <==> e in b
    ensures multiset(a) == multiset(b)
  {
    forall e ensures multiset(a)[e] == multiset(b)[e] {
      DistinctMultiplicity(a, e);
      DistinctMultiplicity(b, e);
    }
  }

  /** The subtotal is a function of the selection: every enumeration of it gives the same one. */
  lemma SubtotalOfSelection(catalog: seq<Vehicle>, m: Selection, a: seq<Entry>, b: seq<Entry>, hours: int)
    requires Enumerates(a, m) && Enumerates(b, m)
    ensures Subtotal(catalog, a, hours) == Subtotal(catalog, b, hours)
  {
    SameElementsSameMultiset(a, b);
    SubtotalPermutation(catalog, a, b, hours);
  }

  // ---------------------------------------------------------------------------
  // The "Selected Vehicles" lines

  /** One displayed line: the vehicle, its quantity and `rate * quantity`. */
  datatype Line = Line(vehicle: Vehicle, quantity: int, amount: int)

  /** The lines the screen lists: one per entry whose id is in the catalog, in entry order. */
  function Lines(catalog: seq<Vehicle>, entries: seq<Entry>, hours: int): (r: seq<Line>)
    ensures |r| <= |entries|
    ensures forall k :: 0 <= k < |r| ==> r[k].vehicle in catalog && r[k].amount == UnitRate(r[k].vehicle, hours) * r[k].quantity
  {
    if |entries| == 0 then []
    else
      var last := entries[|entries| - 1];
      var init := Lines(catalog, entries[..|entries| - 1], hours);
      match Find(catalog, last.0)
      case None => init
      case Some(v) => init + [Line(v, last.1, UnitRate(v, hours) * last.1)]
  }

  function LinesTotal(lines: seq<Line>): int {
    if |lines| == 0 then 0 else LinesTotal(lines[..|lines| - 1]) + lines[|lines| - 1].amount
  }

  /** Line `l` shows the vehicle `find` gives for entry `e`, with the entry's quantity. */
  predicate ShowsEntry(catalog: seq<Vehicle>, e: Entry, l: Line) {
    Find(catalog, e.0) == Some(l.vehicle) && l.quantity == e.1
  }

  /** Every line of `lines` shows some entry. */
  predicate ComeFromEntries(catalog: seq<Vehicle>, entries: seq<Entry>, lines: seq<Line>) {
    forall k :: 0 <= k < |lines| ==> exists i :: 0 <= i < |entries| && ShowsEntry(catalog, entries[i], lines[k])
  }

  /** Every entry whose id is in the catalog is shown by some line of `lines`. */
  predicate EntriesShown(catalog: seq<Vehicle>, entries: seq<Entry>, lines: seq<Line>) {
    forall i :: 0 <= i < |entries| && Find(catalog, entries[i].0).Some? ==>
      exists k :: 0 <= k < |lines| && ShowsEntry(catalog, entries[i], lines[k])
  }

  /** Every displayed line comes from some entry. */
  lemma {:induction false} LinesComeFromEntries(catalog: seq<Vehicle>, entries: seq<Entry>, hours: int)
    ensures ComeFromEntries(catalog, entries, Lines(catalog, entries, hours))
  {
    if |entries| > 0 {
      var n := |entries| - 1;
      var init := entries[..n];
      var r, li := Lines(catalog, entries, hours), Lines(catalog, init, hours);
      LinesComeFromEntries(catalog, init, hours);
      forall k | 0 <= k < |r| ensures exists i :: 0 <= i < |entries| && ShowsEntry(catalog, entries[i], r[k]) {
        if k < |li| {
          assert r[k] == li[k];
          var i :| 0 <= i < |init| && ShowsEntry(catalog, init[i], li[k]);
          assert entries[i] == init[i];
        } else {
          assert ShowsEntry(catalog, entries[n], r[k]);
        }
      }
    }
  }

  /** Every entry whose id is in the catalog has a displayed line. */
  lemma {:induction false} EntriesHaveLines(catalog: seq<Vehicle>, entries: seq<Entry>, hours: int)
    ensures EntriesShown(catalog, entries, Lines(catalog, entries, hours))
  {
    if |entries| > 0 {
      var n := |entries| - 1;
      var init := entries[..n];
      var r, li := Lines(catalog, entries, hours), Lines(catalog, init, hours);
      EntriesHaveLines(catalog, init, hours);
      forall i | 0 <= i < |entries| && Find(catalog, entries[i].0).Some?
        ensures exists k :: 0 <= k < |r| && ShowsEntry(catalog, entries[i], r[k])
      {
        if i < n {
          assert entries[i] == init[i];
          var k :| 0 <= k < |li| && ShowsEntry(catalog, init[i], li[k]);
          assert r[k] == li[k];
        } else {
          assert ShowsEntry(catalog, entries[n], r[|li|]);
        }
      }
    }
  }

  /**
   * Every displayed line shows the vehicle `find` gives for some entry and that entry's
   * quantity; every entry whose id is in the catalog has such a line.
   */
  lemma LinesMatchEntries(catalog: seq<Vehicle>, entries: seq<Entry>, hours: int)
    ensures var r := Lines(catalog, entries, hours);
      forall k :: 0 <= k < |r| ==>
        exists i :: 0 <= i < |entries| && Find(catalog, entries[i].0) == Some(r[k].vehicle) && r[k].quantity == entries[i].1
    ensures var r := Lines(catalog, entries, hours);
      forall i :: 0 <= i < |entries| && Find(catalog, entries[i].0).Some? ==>
        exists k :: 0 <= k < |r| && Some(r[k].vehicle) == Find(catalog, entries[i].0) && r[k].quantity == entries[i].1
  {
    LinesComeFromEntries(catalog, entries, hours);
    EntriesHaveLines(catalog, entries, hours);
  }

  /** The displayed line amounts add up to the subtotal. */
  lemma {:induction false} LinesSumToSubtotal(catalog: seq<Vehicle>, entries: seq<Entry>, hours: int)
    ensures LinesTotal(Lines(catalog, entries, hours)) == Subtotal(catalog, entries, hours)
  {
    if |entries| > 0 {
      var init := entries[..|entries| - 1];
      LinesSumToSubtotal(catalog, init, hours);
      var lines := Lines(catalog, entries, hours);
      if Find(catalog, entries[|entries| - 1].0).Some? {
        assert lines[..|lines| - 1] == Lines(catalog, init, hours);
      }
    }
  }

  // ---------------------------------------------------------------------------
  // The price summary

  /** The summary card: subtotal, a 10% service fee, 10% tax and a total of 120%. */
  datatype PriceSummary = PriceSummary(subtotal: real, serviceFee: real, tax: real, total: real)

  function Summary(subtotal: int): (r: PriceSummary)
    ensures r.subtotal == subtotal as real
    ensures r.serviceFee == r.tax
    ensures 10.0 * r.serviceFee == r.subtotal
    ensures r.total == r.subtotal + r.serviceFee + r.tax
    ensures subtotal >= 0 ==> 0.0 <= r.serviceFee <= r.subtotal <= r.total
  {
    var s := subtotal as real;
    PriceSummary(s, s * 0.1, s * 0.1, s * 1.2)
  }

  /** Two comfort vans for a full day: 840 plus 84 fee plus 84 tax is 1008. */
  lemma TwoComfortVans()
    ensures Subtotal(Catalog, [("comfort-van", 2)], EstimatedHours) == 840
    ensures Summary(840) == PriceSummary(840.0, 84.0, 84.0, 1008.0)
  {
    assert [("comfort-van", 2)][..0] == [];
  }

  // ---------------------------------------------------------------------------
  // The route as the booking screen lists it

  /** allLocations: the start, the main destination, then the extra destinations. */
  function AllLocations(t: TripData, extras: seq<string>): (r: seq<string>)
    ensures |r| == 2 + |extras| && r[2..] == extras
    ensures r == LocationList.Labels(LocationList.TripLocations(t, extras))
  {
    [t.startLocation, t.destination] + extras
  }

  /** The booking screen lists the same addresses, in the same order, as the route editor. */
  lemma AllLocationsIsEditorRoute(t: TripData, extras: seq<string>)
    ensures AllLocations(t, extras) == LocationList.Labels(LocationList.TripLocations(t, extras))
    ensures |AllLocations(t, extras)| == 2 + |extras|
  {
  }

  datatype StopRole = StartingPoint | Intermediate | FinalDestination

  /** The role (and dot colour) of the stop at `index` in a route of `n` stops. */
  function RoleAt(n: nat, index: nat): (r: StopRole)
    requires index < n
    ensures r == StartingPoint <==> index == 0
    ensures r == FinalDestination <==> 0 < index == n - 1
    ensures r == Intermediate <==> 0 < index < n - 1
  {
    if index == 0 then StartingPoint else if index == n - 1 then FinalDestination else Intermediate
  }

  /** In every route the first stop is the only starting point and the last the only final destination. */
  lemma {:induction false} RolesOfRoute(t: TripData, extras: seq<string>, index: nat)
    requires index < |AllLocations(t, extras)|
    ensures var n := |AllLocations(t, extras)|;
      && (RoleAt(n, index) == StartingPoint <==> index == 0)
      && (RoleAt(n, index) == FinalDestination <==> index == n - 1)
      && (RoleAt(n, index) == Intermediate <==> 0 < index < n - 1)
  {
    assert |AllLocations(t, extras)| >= 2;
  }

  /** `String.fromCharCode(65 + index)`: the UTF-16 code unit of the marker's letter. */
  function MarkerCode(index: nat): (r: int)
    ensures 0 <= r < 0x1_0000
    ensures index < 26 ==> 'A' as int <= r <= 'Z' as int && r - 'A' as int == index
  {
    (65 + index) % 0x1_0000
  }

  /** The first 26 stops are lettered A to Z, and no two of the first 65536 stops share a code unit. */
  lemma MarkerLetters(n: nat)
    requires n <= 0x1_0000
    ensures forall i, j :: 0 <= i < j < n ==> MarkerCode(i) != MarkerCode(j)
  {
    forall i, j | 0 <= i < j < n ensures MarkerCode(i) != MarkerCode(j) {
      if 65 + j < 0x1_0000 {
        assert MarkerCode(i) == 65 + i && MarkerCode(j) == 65 + j;
      } else if 65 + i < 0x1_0000 {
        assert MarkerCode(j) == 65 + j - 0x1_0000 < 65 <= MarkerCode(i);
      } else {
        assert MarkerCode(i) == 65 + i - 0x1_0000 && MarkerCode(j) == 65 + j - 0x1_0000;
      }
    }
  }

  /** The position table chosen by the route's length: two, three, or else four points. */
  function PositionTable(n: nat): (r: seq<(int, int)>)
    ensures 2 <= |r| <= 4
    ensures (n == 2 || n == 3) ==> |r| == n
    ensures n != 2 && n != 3 ==> |r| == 4
  {
    if n == 2 then [(100, 80), (300, 220)]
    else if n == 3 then [(80, 100), (200, 180), (320, 240)]
    else [(60, 80), (180, 150), (280, 200), (340, 250)]
  }

  /** `positions[Math.min(index, positions.length - 1)]`: always an entry of the table. */
  function MarkerPosition(n: nat, index: nat): (r: (int, int))
    ensures r in PositionTable(n)
    ensures index < |PositionTable(n)| ==> r == PositionTable(n)[index]
    ensures index >= |PositionTable(n)| ==> r == PositionTable(n)[|PositionTable(n)| - 1]
  {
    var positions := PositionTable(n);
    positions[if index < |positions| - 1 then index else |positions| - 1]
  }

  /** Up to four stops get pairwise different positions; from the fifth on, stops share the last one. */
  lemma MarkerPositions(n: nat)
    requires n >= 2
    ensures n <= 4 ==> forall i, j :: 0 <= i < j < n ==> MarkerPosition(n, i) != MarkerPosition(n, j)
    ensures n >= 5 ==> forall i :: 3 <= i < n ==> MarkerPosition(n, i) == MarkerPosition(n, 3)
  {
  }

  // ---------------------------------------------------------------------------
  // Loading and confirming

  /** What the booking screen shows once loaded. */
  datatype BookingView = BookingView(tripData: TripData, selectedVehicles: Selection, additionalDestinations: seq<string>)

  /**
   * The mount effect: the screen needs both the trip data and the vehicle selection from
   * the session store; the extra destinations are optional and default to none.
   */
  function LoadBookingPage(tripData: Option<TripData>, vehicles: Option<Selection>, extras: Option<seq<string>>)
    : (r: PageLoad<BookingView>)
    ensures r.Show? <==> tripData.Some? && vehicles.Some?
    ensures r.Redirect? ==> r.target == CreateTrip
    ensures r.Show? ==> && r.data.tripData == tripData.value && r.data.selectedVehicles == vehicles.value
                        && r.data.additionalDestinations == (if extras.Some? then extras.value else [])
  {
    if tripData.Some? && vehicles.Some? then
      Show(BookingView(tripData.value, vehicles.value, if extras.Some? then extras.value else []))
    else Redirect(CreateTrip)
  }

  /** `Date.now().toString().slice(-8)`: the last eight characters, or all of a shorter string. */
  function LastEight(s: string): (r: string)
    ensures |r| == if |s| <= 8 then |s| else 8
    ensures s == s[..|s| - |r|] + r
  {
    if |s| <= 8 then s else s[|s| - 8..]
  }

  /** The booking reference: "BK" and the last eight digits of the clock in milliseconds. */
  function BookingReference(now: nat): (r: string)
    ensures 3 <= |r| <= 10 && r[..2] == "BK"
    ensures forall i :: 2 <= i < |r| ==> '0' <= r[i] <= '9'
  {
    "BK" + LastEight(NatToString(now))
  }

  /** Before the clock passes 10^8 ms the reference holds the whole clock reading, so it differs for every instant. */
  lemma BookingReferenceSmallClock(now: nat)
    requires now < 100000000
    ensures BookingReference(now) == "BK" + NatToString(now)
  {
    assert Pow10(8) == 100000000 by {
      assert Pow10(4) == 10000;
    }
    NatToStringLength(now, 8);
  }

  /** What the confirm click stores before navigating to the confirmation screen. */
  datatype BookingConfirmation = BookingConfirmation(bookingReference: string, specialRequests: string, next: Screen)

  /** handleConfirmBooking behind the Confirm button, which is disabled until the terms are agreed to. */
  function ConfirmBooking(agreeToTerms: bool, now: nat, specialRequests: string): (r: Option<BookingConfirmation>)
    ensures r.Some? <==> agreeToTerms
    ensures r.Some? ==> && r.value.next == TripModel.Confirmation
                        && r.value.bookingReference == BookingReference(now)
                        && r.value.specialRequests == specialRequests
  {
    if agreeToTerms then Some(BookingConfirmation(BookingReference(now), specialRequests, TripModel.Confirmation)) else None
  }
}
