/**
 * The route-location list of the vehicle-selection screen: an ordered sequence of
 * `LocationItem`s and the pure transformations its handlers apply to it
 * (drag reorder, remove, inline relabel, save-edits and the list rebuild).
 */
module LocationList {
  import opened Text
  import opened TripModel

  datatype LocationItem = LocationItem(id: string, address: string, isStartLocation: bool, isMainDestination: bool)

  const StartId := "start"
  const DestinationId := "destination"
  const AdditionalPrefix := "additional-"

  function Labels(s: seq<LocationItem>): (r: seq<string>)
    ensures |r| == |s| && forall k :: 0 <= k < |s| ==> r[k] == s[k].address
  {
    seq(|s|, k requires 0 <= k < |s| => s[k].address)
  }

  function Ids(s: seq<LocationItem>): (r: seq<string>)
    ensures |r| == |s| && forall k :: 0 <= k < |s| ==> r[k] == s[k].id
  {
    seq(|s|, k requires 0 <= k < |s| => s[k].id)
  }

  predicate Distinct<T(==)>(s: seq<T>) {
    forall i, j :: 0 <= i < j < |s| ==> s[i] != s[j]
  }

  // ---------------------------------------------------------------------------
  // removeLocation and moveLocation

  /** `s.filter((_, k) => k !== i)`: drops the element at index `i`; any other index drops nothing. */
  function RemoveAt<T>(s: seq<T>, i: int): (r: seq<T>)
    ensures 0 <= i < |s| ==> |r| == |s| - 1
    ensures 0 <= i < |s| ==> forall k :: 0 <= k < |r| ==> r[k] == if k < i then s[k] else s[k + 1]
    ensures 0 <= i < |s| ==> multiset(r) + multiset{s[i]} == multiset(s)
    ensures !(0 <= i < |s|) ==> r == s
  {
    if 0 <= i < |s| then
      assert s == s[..i] + [s[i]] + s[i + 1..];
      s[..i] + s[i + 1..]
    else
      s
  }

  /** `t.splice(j, 0, x)`: `x` inserted so that it ends up at index `j`. */
  function InsertAt<T>(t: seq<T>, j: nat, x: T): (r: seq<T>)
    requires j <= |t|
    ensures |r| == |t| + 1 && r[j] == x
    ensures forall k :: 0 <= k < |r| && k != j ==> r[k] == if k < j then t[k] else t[k - 1]
    ensures multiset(r) == multiset(t) + multiset{x}
  {
    assert t == t[..j] + t[j..];
    t[..j] + [x] + t[j..]
  }

  /**
   * moveLocation(dragIndex, hoverIndex): the element at `from` is taken out and put back
   * so that it sits at `to`; every other element keeps its relative order.
   */
  function Move<T>(s: seq<T>, from: nat, to: nat): (r: seq<T>)
    requires from < |s| && to < |s|
    ensures |r| == |s| && r[to] == s[from]
    ensures multiset(r) == multiset(s)
    ensures RemoveAt(r, to) == RemoveAt(s, from)
  {
    var rest := RemoveAt(s, from);
    RemoveInserted(rest, to, s[from]);
    InsertAt(rest, to, s[from])
  }

  /** Removing the element just inserted gives back the list it was inserted into. */
  lemma RemoveInserted<T>(t: seq<T>, j: nat, x: T)
    requires j <= |t|
    ensures RemoveAt(InsertAt(t, j, x), j) == t
  {
    assert InsertAt(t, j, x) == t[..j] + [x] + t[j..];
  }

  /** Putting back at its old place the element just removed restores the list. */
  lemma InsertRemoved<T>(s: seq<T>, i: nat)
    requires i < |s|
    ensures InsertAt(RemoveAt(s, i), i, s[i]) == s
  {
  }

  /** A move is undone by the opposite move. */
  lemma MoveRoundTrip<T>(s: seq<T>, i: nat, j: nat)
    requires i < |s| && j < |s|
    ensures Move(Move(s, i, j), j, i) == s
  {
    var m := Move(s, i, j);
    calc {
      Move(m, j, i);
      InsertAt(RemoveAt(m, j), i, m[j]);
      InsertAt(RemoveAt(s, i), i, s[i]);
      { InsertRemoved(s, i); }
      s;
    }
  }

  /** Moving an element to its own place changes nothing. */
  lemma MoveInPlace<T>(s: seq<T>, i: nat)
    requires i < |s|
    ensures Move(s, i, i) == s
  {
    InsertRemoved(s, i);
  }

  // ---------------------------------------------------------------------------
  // onSaveEdit: inline relabel

  /** `locations.map(loc => loc.id === id ? { ...loc, label } : loc)`. */
  function Relabel(s: seq<LocationItem>, id: string, newAddress: string): (r: seq<LocationItem>)
    ensures |r| == |s| && Ids(r) == Ids(s)
    ensures forall k :: 0 <= k < |s| ==>
      && r[k].isStartLocation == s[k].isStartLocation
      && r[k].isMainDestination == s[k].isMainDestination
      && r[k].address == (if s[k].id == id then newAddress else s[k].address)
  {
    seq(|s|, k requires 0 <= k < |s| => if s[k].id == id then s[k].(address := newAddress) else s[k])
  }

  /** In a list with distinct ids, relabelling the item at `k` touches that item's label only. */
  lemma RelabelOne(s: seq<LocationItem>, k: nat, newAddress: string)
    requires k < |s| && Distinct(Ids(s))
    ensures Relabel(s, s[k].id, newAddress) == s[k := s[k].(address := newAddress)]
  {
    var r := Relabel(s, s[k].id, newAddress);
    forall m | 0 <= m < |s| ensures r[m] == s[k := s[k].(address := newAddress)][m] {
      if m != k {
        assert Ids(s)[m] != Ids(s)[k] by {
          if m < k { assert Ids(s)[m] != Ids(s)[k]; } else { assert Ids(s)[k] != Ids(s)[m]; }
        }
      }
    }
  }

  /** Relabelling with an id no item carries leaves the list as it was. */
  lemma RelabelAbsent(s: seq<LocationItem>, id: string, newAddress: string)
    requires id !in Ids(s)
    ensures Relabel(s, id, newAddress) == s
  {
    var r := Relabel(s, id, newAddress);
    forall m | 0 <= m < |s| ensures r[m] == s[m] {
      assert Ids(s)[m] == s[m].id;
    }
  }

  // ---------------------------------------------------------------------------
  // The rebuild effect (VehicleSelection.tsx:334-349) and handleSaveEdit

  function AdditionalId(k: nat): string {
    AdditionalPrefix + NatToString(k)
  }

  /** `additionalDestinations.map((dest, k) => ({ id: `additional-${k}`, label: dest }))`. */
  function AdditionalLocations(extras: seq<string>): (r: seq<LocationItem>)
    ensures |r| == |extras|
    ensures forall k :: 0 <= k < |r| ==> r[k] == LocationItem(AdditionalId(k), extras[k], false, false)
  {
    seq(|extras|, k requires 0 <= k < |extras| => LocationItem(AdditionalId(k), extras[k], false, false))
  }

  /** The two base locations: the start and the main destination. */
  function BaseLocations(start: string, destination: string): seq<LocationItem> {
    [LocationItem(StartId, start, true, false), LocationItem(DestinationId, destination, false, true)]
  }

  /** The list the effect rebuilds from the committed trip data and extra destinations. */
  function RouteLocations(start: string, destination: string, extras: seq<string>): (r: seq<LocationItem>)
    ensures |r| == 2 + |extras|
    ensures Labels(r) == [start, destination] + extras
  {
    BaseLocations(start, destination) + AdditionalLocations(extras)
  }

  /** The location list of a trip record. */
  function TripLocations(t: TripData, extras: seq<string>): seq<LocationItem> {
    RouteLocations(t.startLocation, t.destination, extras)
  }

  /** Two `additional-k` ids coincide only for the same `k`, and never equal the base ids. */
  lemma AdditionalIdsDistinct(a: nat, b: nat)
    ensures AdditionalId(a) == AdditionalId(b) ==> a == b
    ensures AdditionalId(a) != StartId && AdditionalId(a) != DestinationId
  {
    var p := AdditionalPrefix;
    assert AdditionalId(a)[0] == 'a';
    if AdditionalId(a) == AdditionalId(b) {
      assert NatToString(a) == AdditionalId(a)[|p|..] == AdditionalId(b)[|p|..] == NatToString(b);
      NatToStringInjective(a, b);
    }
  }

  /**
   * The rebuilt list is well-formed: its ids are distinct, the first item alone is the
   * start, the second alone is the main destination, and every later item is a waypoint.
   */
  lemma RouteLocationsWellFormed(start: string, destination: string, extras: seq<string>)
    ensures var r := RouteLocations(start, destination, extras);
      && Distinct(Ids(r))
      && r[0].id == StartId && r[0].isStartLocation && !r[0].isMainDestination
      && r[1].id == DestinationId && r[1].isMainDestination && !r[1].isStartLocation
      && forall k :: 2 <= k < |r| ==> !r[k].isStartLocation && !r[k].isMainDestination
  {
    var r := RouteLocations(start, destination, extras);
    var ids := Ids(r);
    forall i, j | 0 <= i < j < |ids| ensures ids[i] != ids[j] {
      if j >= 2 {
        AdditionalIdsDistinct(j - 2, j - 2);
        if i >= 2 {
          AdditionalIdsDistinct(i - 2, j - 2);
        }
      }
    }
  }

  /** `s.slice(start)`: the elements from `start` on, or nothing when `start` is past the end. */
  function SliceFrom<T>(s: seq<T>, start: nat): (r: seq<T>)
    ensures start <= |s| ==> r == s[start..]
    ensures start > |s| ==> r == []
  {
    if start <= |s| then s[start..] else []
  }

  /** The outcome of handleSaveEdit: the new trip data and the new extra destinations. */
  datatype SavedRoute = SavedRoute(tripData: TripData, extras: seq<string>)

  /**
   * handleSaveEdit: an empty list keeps the trip as it is; otherwise the first item becomes
   * the start, the second (or, in a one-item list, the first again) the destination and
   * the rest, in order, the extra destinations.
   */
  function SaveEdits(t: TripData, extras: seq<string>, locs: seq<LocationItem>): (r: SavedRoute)
    ensures |locs| == 0 ==> r == SavedRoute(t, extras)
    ensures |locs| > 0 ==> && r.tripData.startLocation == locs[0].address
                           && r.tripData.destination == (if |locs| > 1 then locs[1] else locs[0]).address
                           && r.extras == Labels(SliceFrom(locs, 2))
    ensures r.tripData == t.(startLocation := r.tripData.startLocation, destination := r.tripData.destination)
  {
    if |locs| == 0 then
      SavedRoute(t, extras)
    else
      var destination := if |locs| > 1 then locs[1].address else locs[0].address;
      SavedRoute(t.(startLocation := locs[0].address, destination := destination), Labels(SliceFrom(locs, 2)))
  }

  /**
   * Saving and rebuilding keeps the route: a list of two or more items comes back with the
   * same labels in the same order; a one-item list comes back as that label twice.
   */
  lemma SaveThenRebuild(t: TripData, extras: seq<string>, locs: seq<LocationItem>)
    requires |locs| > 0
    ensures var saved := SaveEdits(t, extras, locs);
      Labels(TripLocations(saved.tripData, saved.extras))
        == if |locs| >= 2 then Labels(locs) else [locs[0].address, locs[0].address]
  {
    var saved := SaveEdits(t, extras, locs);
    if |locs| >= 2 {
      assert SliceFrom(locs, 2) == locs[2..];
      assert Labels(locs) == [locs[0].address, locs[1].address] + Labels(SliceFrom(locs, 2));
    }
  }

  /** Saving a list that is already the rebuilt list changes neither the trip nor the extras. */
  lemma SaveRebuiltIsIdentity(t: TripData, extras: seq<string>)
    ensures SaveEdits(t, extras, TripLocations(t, extras)) == SavedRoute(t, extras)
  {
    var locs := TripLocations(t, extras);
    assert Labels(SliceFrom(locs, 2)) == extras by {
      assert Labels(locs) == [t.startLocation, t.destination] + extras;
      assert forall k :: 0 <= k < |extras| ==> Labels(SliceFrom(locs, 2))[k] == Labels(locs)[k + 2];
    }
  }
}
