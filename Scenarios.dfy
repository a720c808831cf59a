/** The manager's demonstration data and what the model says about it. */
module Scenarios {
  import opened JsNumber
  import opened JsText
  import opened InventoryTypes
  import opened InventoryManager
  import opened InventoryTable

  const Hour: nat := 60 * 60 * 1000
  const Day: nat := 24 * Hour

  /** `mockItems`, with each timestamp taken back from the clock reading `now`. */
  function MockItems(now: nat): (items: seq<Item>)
    requires now >= 3 * Day
    ensures |items| == 4 && DistinctIds(items)
  {
    [ Item("1", "Tomatoes", Finite(12.0), "pieces", Finite(5.0), now - 2 * Hour),
      Item("2", "Olive Oil", Finite(2.5), "liters", Finite(1.0), now - Day),
      Item("3", "Salt", Finite(0.0), "kg", Finite(0.5), now - 3 * Day),
      Item("4", "Pasta", Finite(3.0), "kg", Finite(2.0), now - 5 * Hour) ]
  }

  /** Of the demonstration items only the salt is out of stock; none is low. */
  lemma MockItemsClassified(now: nat)
    requires now >= 3 * Day
    ensures var items := MockItems(now);
      forall i :: 0 <= i < |items| ==>
        GetStockStatus(items[i]).status == (if items[i].name == "Salt" then Out else Good)
  {
  }

  /** The demonstration ids are the decimal renderings of 1 to 4. */
  lemma MockIdsDecimal(now: nat)
    requires now >= 3 * Day
    ensures forall i :: 0 <= i < 4 ==> MockItems(now)[i].id == NatToDecimal(i + 1)
  {
    assert NatToDecimal(1) == "1";
    assert NatToDecimal(2) == "2";
    assert NatToDecimal(3) == "3";
    assert NatToDecimal(4) == "4";
  }

  /**
   * The demonstration ids "1" to "4" are the renderings of clock readings long
   * past, so an item added by the manager at any later reading gets a fresh id.
   */
  lemma MockThenAddDistinct(now: nat, itemData: CreateItemData)
    requires now >= 3 * Day
    ensures DistinctIds(Appended(MockItems(now), itemData, TimestampId(now), now))
  {
    var items := MockItems(now);
    MockIdsDecimal(now);
    forall i | 0 <= i < |items| ensures items[i].id != TimestampId(now) {
      TimestampIdInjective(i + 1, now);
    }
    AppendedDistinct(items, itemData, TimestampId(now), now);
  }
}
