/**
 * The vehicle selection of the vehicle-selection screen: a map from vehicle id to the
 * number of vehicles wanted, where a missing key means zero. The functions here are the
 * state updaters of handleCheckboxChange, handleQuantityChange and handleUpdateVehicle
 * and the quantity buffer of the details dialog.
 */
module VehicleMap {

  type Selection = map<string, int>

  /** `m[id] || 0`: the selected quantity, zero for an absent key. */
  function Quantity(m: Selection, id: string): int {
    if id in m then m[id] else 0
  }

  /** The map never holds a key whose quantity is zero or negative. */
  ghost predicate AllPositive(m: Selection) {
    forall k :: k in m ==> m[k] > 0
  }

  /** Every key other than `id` is present in both maps or in neither, with the same quantity. */
  ghost predicate SameExcept(m: Selection, r: Selection, id: string) {
    forall k :: k != id ==> (k in r <==> k in m) && (k in m ==> r[k] == m[k])
  }

  /** handleCheckboxChange: checking sets the quantity to one, unchecking removes the key. */
  function SetChecked(m: Selection, id: string, checked: bool): (r: Selection)
    ensures id in r <==> checked
    ensures checked ==> r[id] == 1
    ensures SameExcept(m, r, id)
    ensures AllPositive(m) ==> AllPositive(r)
  {
    if checked then m[id := 1] else m - {id}
  }

  function Max(a: int, b: int): int {
    if a >= b then a else b
  }

  /**
   * handleQuantityChange: the quantity becomes `max(0, current + delta)`, and a key whose
   * quantity drops to zero is removed.
   */
  function ChangeQuantity(m: Selection, id: string, delta: int): (r: Selection)
    ensures Quantity(r, id) == Max(0, Quantity(m, id) + delta)
    ensures id in r <==> Quantity(m, id) + delta > 0
    ensures SameExcept(m, r, id)
    ensures AllPositive(m) ==> AllPositive(r)
  {
    var newQty := Max(0, Quantity(m, id) + delta);
    if newQty == 0 then m - {id} else m[id := newQty]
  }

  /** handleUpdateVehicle: `{ ...prev, [id]: quantity }`. */
  function SetQuantity(m: Selection, id: string, quantity: int): (r: Selection)
    ensures id in r && Quantity(r, id) == quantity
    ensures SameExcept(m, r, id)
    ensures AllPositive(m) && quantity >= 1 ==> AllPositive(r)
  {
    m[id := quantity]
  }

  /** openDetails: `selectedVehicles[id] || 1`, the quantity the details dialog starts from. */
  function DetailsStart(m: Selection, id: string): (q: int)
    ensures AllPositive(m) ==> q >= 1
    ensures AllPositive(m) && id in m ==> q == m[id]
    ensures id !in m ==> q == 1
  {
    if id in m && m[id] != 0 then m[id] else 1
  }

  /** The dialog's minus button: `Math.max(1, q - 1)`. */
  function DetailsDecrement(q: int): (r: int)
    ensures r >= 1
    ensures q > 1 ==> r == q - 1
    ensures q <= 1 ==> r == 1
  {
    Max(1, q - 1)
  }

  /** The dialog's plus button: one more, which the minus button takes back from a quantity of one or more. */
  function DetailsIncrement(q: int): (r: int)
    ensures q >= 0 ==> r >= 1
    ensures r == q + 1
    ensures q >= 1 ==> DetailsDecrement(r) == q
  {
    q + 1
  }

  /** One plus and one minus on a quantity of one or more give the quantity back. */
  lemma QuantityStepsCancel(m: Selection, id: string)
    requires AllPositive(m)
    ensures ChangeQuantity(ChangeQuantity(m, id, 1), id, -1) == m
  {
    var r := ChangeQuantity(ChangeQuantity(m, id, 1), id, -1);
    assert r.Keys == m.Keys;
  }

  /** Unchecking after checking leaves the other selections untouched and `id` unselected. */
  lemma CheckUncheck(m: Selection, id: string)
    ensures SetChecked(SetChecked(m, id, true), id, false) == m - {id}
  {
  }
}
