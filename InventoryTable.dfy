/**
 * The inventory table component: the stock classifier, the three row
 * actions (use one, restock, delete) and the per-row buffer of pending
 * restock text.
 */
module InventoryTable {
  import opened Wrappers
  import opened JsNumber
  import opened JsText
  import opened InventoryTypes
  import opened InventoryManager

  // ---------------------------------------------------------------- classifier

  datatype Status = Out | Low | Good
  datatype BadgeVariant = Destructive | Default | Secondary
  datatype StockInfo = StockInfo(status: Status, caption: string, variant: BadgeVariant)

  /**
   * `getStockStatus`: out when the quantity is at most 0, low when it is at
   * most the threshold (the threshold itself counts as low), good otherwise.
   * Both comparisons are JavaScript ones, so a NaN quantity, or a NaN
   * threshold with a positive quantity, classifies as good.
   */
  function GetStockStatus(item: Item): (r: StockInfo)
    ensures r.status == Out <==> item.quantity.Finite? && item.quantity.value <= 0.0
    ensures r.status == Low <==>
      item.quantity.Finite? && item.lowStockThreshold.Finite?
      && 0.0 < item.quantity.value <= item.lowStockThreshold.value
    ensures r.status == Good <==>
      item.quantity.NaN?
      || (item.quantity.value > 0.0
          && (item.lowStockThreshold.NaN? || item.quantity.value > item.lowStockThreshold.value))
    ensures r.variant == Destructive <==> r.status == Out
  {
    if Le(item.quantity, Zero) then StockInfo(Out, "Out of Stock", Destructive)
    else if Le(item.quantity, item.lowStockThreshold) then StockInfo(Low, "Low Stock", Default)
    else StockInfo(Good, "In Stock", Secondary)
  }

  /** A quantity equal to a positive threshold is low, not good. */
  lemma ThresholdIsLow(item: Item)
    requires item.quantity.Finite? && item.quantity == item.lowStockThreshold && item.quantity.value > 0.0
    ensures GetStockStatus(item).status == Low
  {
  }

  /** An item whose threshold did not parse is never reported low. */
  lemma NaNThresholdNeverLow(item: Item)
    requires item.lowStockThreshold.NaN?
    ensures GetStockStatus(item).status != Low
  {
  }

  // ---------------------------------------------------------------- row actions

  /** The arguments of one `onUpdateQuantity(id, quantity)` call. */
  datatype UpdateRequest = UpdateRequest(id: string, quantity: Number)

  /**
   * `handleUse`: refused (no update) when the quantity is at most 0;
   * otherwise asks for `Math.max(0, quantity - 1)`.
   */
  function UseRequest(item: Item): (r: Option<UpdateRequest>)
    ensures r.None? <==> item.quantity.Finite? && item.quantity.value <= 0.0
    ensures r.Some? ==> r.value.id == item.id
    ensures r.Some? && item.quantity.Finite? ==>
      r.value.quantity.Finite? && 0.0 <= r.value.quantity.value < item.quantity.value
      && (item.quantity.value >= 1.0 ==> r.value.quantity.value + 1.0 == item.quantity.value)
      && (item.quantity.value < 1.0 ==> r.value.quantity.value == 0.0)
    ensures item.quantity.NaN? ==> r == Some(UpdateRequest(item.id, NaN))
  {
    if Le(item.quantity, Zero) then None
    else Some(UpdateRequest(item.id, Max(Zero, Sub(item.quantity, One))))
  }

  /** Use is refused exactly on the items the classifier calls out of stock. */
  lemma UseRefusedIffOut(item: Item)
    ensures UseRequest(item).None? <==> GetStockStatus(item).status == Out
  {
  }

  /** `restockAmounts[item.id] || "1"`: a missing or empty entry falls back to "1". */
  function RestockText(restockAmounts: map<string, string>, id: string): (t: string)
    ensures t != ""
    ensures id in restockAmounts && restockAmounts[id] != "" ==> t == restockAmounts[id]
  {
    if id in restockAmounts && restockAmounts[id] != "" then restockAmounts[id] else "1"
  }

  /**
   * `handleRestock`: the amount is `parseFloat` of the buffer text; a parsed
   * amount at most 0 is refused, anything else (NaN included) asks for
   * `quantity + amount`.
   */
  function RestockRequest(restockAmounts: map<string, string>, item: Item): (r: Option<UpdateRequest>)
    ensures var amount := ParseFloat(RestockText(restockAmounts, item.id));
      (r.None? <==> amount.Finite? && amount.value <= 0.0)
      && (r.Some? ==> r.value.id == item.id)
      && (r.Some? && item.quantity.Finite? && amount.Finite? ==>
            r.value.quantity.Finite? && r.value.quantity.value > item.quantity.value
            && r.value.quantity.value - item.quantity.value == amount.value)
      && (r.Some? && (item.quantity.NaN? || amount.NaN?) ==> r.value.quantity == NaN)
  {
    var amount := ParseFloat(RestockText(restockAmounts, item.id));
    if Le(amount, Zero) then None
    else Some(UpdateRequest(item.id, Add(item.quantity, amount)))
  }

  /** With no pending text for the row, a restock adds exactly one unit. */
  lemma RestockDefaultsToOne(restockAmounts: map<string, string>, item: Item)
    requires item.id !in restockAmounts || restockAmounts[item.id] == ""
    ensures RestockRequest(restockAmounts, item) == Some(UpdateRequest(item.id, Add(item.quantity, One)))
  {
    ParseLiterals();
  }

  /**
   * Pending text without a digit is not refused: its NaN amount fails the
   * `amount <= 0` test and the requested quantity is NaN.
   */
  lemma RestockUnparsableAccepted(restockAmounts: map<string, string>, item: Item)
    requires item.id in restockAmounts && restockAmounts[item.id] != ""
    requires forall i :: 0 <= i < |restockAmounts[item.id]| ==> !IsDigit(restockAmounts[item.id][i])
    ensures RestockRequest(restockAmounts, item) == Some(UpdateRequest(item.id, NaN))
  {
    ParseNoDigitIsNaN(restockAmounts[item.id]);
  }

  /**
   * Consuming an item read from the store and applying the request: the
   * item reads back with one unit less (clamped at 0) and the new time.
   */
  lemma UseThenRead(items: seq<Item>, item: Item, now: nat)
    requires Lookup(items, item.id) == Some(item) && item.quantity.Finite? && item.quantity.value > 0.0
    ensures var r := UseRequest(item).value;
      var after := Lookup(WithQuantity(items, r.id, r.quantity, now), item.id);
      after.Some? && after.value.quantity.Finite? && after.value.lastUpdated == now
      && 0.0 <= after.value.quantity.value < item.quantity.value
      && after.value.name == item.name && after.value.unit == item.unit
    ensures var r := UseRequest(item).value;
      Lookup(WithQuantity(items, r.id, r.quantity, now), item.id)
        == Some(item.(quantity := Max(Zero, Sub(item.quantity, One)), lastUpdated := now))
  {
    var r := UseRequest(item).value;
    LookupWithQuantity(items, r.id, r.quantity, now, item.id);
  }

  // ---------------------------------------------------------------- component state

  /**
   * The table's own state, the pending restock text per item id. The
   * `onUpdateQuantity` and `onDeleteItem` callbacks are the store's handlers,
   * so each action takes the store it reports to.
   */
  class TableView {
    var restockAmounts: map<string, string>

    /** `useState({})`: no pending restock text. */
    constructor ()
      ensures restockAmounts == map[]
    {
      restockAmounts := map[];
    }

    /** The restock field's `onChange`: record the typed text for this row. */
    method SetRestockAmount(id: string, text: string)
      modifies this
      ensures restockAmounts == old(restockAmounts)[id := text]
    {
      restockAmounts := restockAmounts[id := text];
    }

    /** `handleUse`: report the decremented quantity, or nothing when out of stock. */
    method HandleUse(item: Item, store: ItemStore, now: nat) returns (request: Option<UpdateRequest>)
      modifies store
      ensures request == UseRequest(item)
      ensures request.None? ==> store.items == old(store.items)
      ensures request.Some? ==>
        store.items == WithQuantity(old(store.items), item.id, request.value.quantity, now)
      ensures QuantitiesNotNegative(old(store.items)) ==> QuantitiesNotNegative(store.items)
    {
      request := UseRequest(item);
      if request.Some? {
        if QuantitiesNotNegative(store.items) {
          WithQuantityNotNegative(store.items, item.id, request.value.quantity, now);
        }
        store.HandleUpdateQuantity(item.id, request.value.quantity, now);
      }
    }

    /**
     * `handleRestock`: on a refused amount nothing changes; otherwise the
     * store gets `quantity + amount` and only this row's text is cleared.
     */
    method HandleRestock(item: Item, store: ItemStore, now: nat) returns (request: Option<UpdateRequest>)
      modifies this, store
      ensures request == RestockRequest(old(restockAmounts), item)
      ensures request.None? ==> store.items == old(store.items) && restockAmounts == old(restockAmounts)
      ensures request.Some? ==>
        store.items == WithQuantity(old(store.items), item.id, request.value.quantity, now)
        && restockAmounts == old(restockAmounts)[item.id := ""]
      ensures QuantitiesNotNegative(old(store.items)) && NotNegative(item.quantity) ==>
        QuantitiesNotNegative(store.items)
    {
      request := RestockRequest(restockAmounts, item);
      if request.Some? {
        if QuantitiesNotNegative(store.items) && NotNegative(item.quantity) {
          WithQuantityNotNegative(store.items, item.id, request.value.quantity, now);
        }
        store.HandleUpdateQuantity(item.id, request.value.quantity, now);
        restockAmounts := restockAmounts[item.id := ""];
      }
    }

    /** `handleDelete`: report the row's id to the store's delete handler. */
    method HandleDelete(item: Item, store: ItemStore)
      modifies store
      ensures store.items == Without(old(store.items), item.id)
      ensures QuantitiesNotNegative(old(store.items)) ==> QuantitiesNotNegative(store.items)
    {
      if QuantitiesNotNegative(store.items) {
        WithoutNotNegative(store.items, item.id);
      }
      store.HandleDeleteItem(item.id);
    }
  }
}
