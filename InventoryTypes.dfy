/** The item record and the add-item payload (`InventoryItem`, `CreateItemData`). */
module InventoryTypes {
  import opened JsNumber

  /**
   * One tracked inventory entry. `lastUpdated` is a millisecond clock
   * reading standing in for the JavaScript `Date`.
   */
  datatype Item = Item(
    id: string,
    name: string,
    quantity: Number,
    unit: string,
    lowStockThreshold: Number,
    lastUpdated: nat)

  /** An item without its identity and timestamp: what the add form hands over. */
  datatype CreateItemData = CreateItemData(
    name: string,
    quantity: Number,
    unit: string,
    lowStockThreshold: Number)
}
