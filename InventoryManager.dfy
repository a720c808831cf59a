/**
 * The item store held by the inventory manager component: an ordered list of
 * items with add (append), update-quantity (map) and delete (filter).
 */
module InventoryManager {
  import opened Wrappers
  import opened JsNumber
  import opened JsText
  import opened InventoryTypes

  /** The identifier the manager gives a new item: `Date.now().toString()`. */
  function TimestampId(now: nat): (id: string)
    ensures ParseFloat(id) == Finite(now as real)
  {
    ParseNatToDecimal(now);
    NatToDecimal(now)
  }

  predicate HasId(items: seq<Item>, id: string) {
    exists i :: 0 <= i < |items| && items[i].id == id
  }

  /** No two positions of the list carry the same id. */
  predicate DistinctIds(items: seq<Item>) {
    forall i, j :: 0 <= i < |items| && 0 <= j < |items| && i != j ==> items[i].id != items[j].id
  }

  /**
   * Reading the list by id: the first item with id `k`, if any. The update
   * and delete lemmas below state what a later read finds.
   */
  function Lookup(items: seq<Item>, k: string): (r: Option<Item>)
    ensures r.Some? ==> r.value in items && r.value.id == k
    ensures r.Some? ==> exists i :: 0 <= i < |items| && items[i] == r.value && forall j :: 0 <= j < i ==> items[j].id != k
    ensures r.None? <==> !HasId(items, k)
  {
    if items == [] then None
    else if items[0].id == k then Some(items[0])
    else
      var r := Lookup(items[1..], k);
      assert HasId(items[1..], k) ==> HasId(items, k) by {
        if HasId(items[1..], k) {
          var i :| 0 <= i < |items[1..]| && items[1..][i].id == k;
          assert items[i + 1].id == k;
        }
      }
      assert HasId(items, k) ==> HasId(items[1..], k) by {
        if HasId(items, k) {
          var i :| 0 <= i < |items| && items[i].id == k;
          assert items[1..][i - 1].id == k;
        }
      }
      r
  }

  lemma HasIdCons(items: seq<Item>, id: string)
    requires items != []
    ensures HasId(items, id) <==> items[0].id == id || HasId(items[1..], id)
  {
    if HasId(items[1..], id) {
      var i :| 0 <= i < |items[1..]| && items[1..][i].id == id;
      assert items[i + 1].id == id;
    }
    if HasId(items, id) && items[0].id != id {
      var i :| 0 <= i < |items| && items[i].id == id;
      assert items[1..][i - 1].id == id;
    }
  }

  /** How many positions carry id `id`. */
  function CountId(items: seq<Item>, id: string): nat {
    if items == [] then 0
    else (if items[0].id == id then 1 else 0) + CountId(items[1..], id)
  }

  // ---------------------------------------------------------------- add

  /** The list after `handleAddItem`: the draft, stamped with `id` and `now`, appended. */
  function Appended(items: seq<Item>, itemData: CreateItemData, id: string, now: nat): (r: seq<Item>)
    ensures |r| == |items| + 1 && r[..|items|] == items
    ensures var x := r[|items|];
      x.id == id && x.lastUpdated == now && x.name == itemData.name && x.quantity == itemData.quantity
      && x.unit == itemData.unit && x.lowStockThreshold == itemData.lowStockThreshold
  {
    items + [Item(id, itemData.name, itemData.quantity, itemData.unit, itemData.lowStockThreshold, now)]
  }

  /** Appending an item whose id is not yet present keeps ids distinct. */
  lemma AppendedDistinct(items: seq<Item>, itemData: CreateItemData, id: string, now: nat)
    requires DistinctIds(items) && !HasId(items, id)
    ensures DistinctIds(Appended(items, itemData, id, now))
  {
    var r := Appended(items, itemData, id, now);
    forall i, j | 0 <= i < |r| && 0 <= j < |r| && i != j ensures r[i].id != r[j].id {
      if i < |items| { assert r[i] == items[i]; }
      if j < |items| { assert r[j] == items[j]; }
    }
  }

  /**
   * A clock-derived id is fresh when every id already in the list reads as
   * an earlier clock value.
   */
  lemma TimestampIdFresh(items: seq<Item>, now: nat)
    requires forall i :: 0 <= i < |items| ==> Lt(ParseFloat(items[i].id), Finite(now as real))
    ensures !HasId(items, TimestampId(now))
  {
    forall i | 0 <= i < |items| ensures items[i].id != TimestampId(now) {
      assert ParseFloat(TimestampId(now)) == Finite(now as real);
    }
  }

  /** Clock readings that differ give ids that differ. */
  lemma TimestampIdInjective(a: nat, b: nat)
    requires a != b
    ensures TimestampId(a) != TimestampId(b)
  {
    assert ParseFloat(TimestampId(a)) != ParseFloat(TimestampId(b));
  }

  /** Two adds within the same clock tick produce two items with the same id. */
  lemma SameTickAddsCollide(items: seq<Item>, first: CreateItemData, second: CreateItemData, now: nat)
    ensures var id := TimestampId(now);
      !DistinctIds(Appended(Appended(items, first, id, now), second, id, now))
  {
    var id := TimestampId(now);
    var r := Appended(Appended(items, first, id, now), second, id, now);
    assert r[|items|].id == r[|items| + 1].id;
  }

  // ---------------------------------------------------------------- update

  /** One step of the `map` in `handleUpdateQuantity`: only a matching item changes, and only in quantity and time. */
  function Refreshed(x: Item, id: string, quantity: Number, now: nat): (y: Item)
    ensures y.id == x.id && y.name == x.name && y.unit == x.unit && y.lowStockThreshold == x.lowStockThreshold
    ensures x.id == id ==> y.quantity == quantity && y.lastUpdated == now
    ensures x.id != id ==> y == x
  {
    if x.id == id then x.(quantity := quantity, lastUpdated := now) else x
  }

  /** The list after `handleUpdateQuantity(id, quantity)` at time `now`. */
  function WithQuantity(items: seq<Item>, id: string, quantity: Number, now: nat): (r: seq<Item>)
    ensures |r| == |items|
  {
    if items == [] then [] else [Refreshed(items[0], id, quantity, now)] + WithQuantity(items[1..], id, quantity, now)
  }

  /**
   * Position by position: a matching item gets exactly the new quantity and
   * timestamp and keeps id, name, unit and threshold; any other item is untouched.
   */
  lemma {:induction false} WithQuantityAt(items: seq<Item>, id: string, quantity: Number, now: nat, i: nat)
    requires i < |items|
    ensures var x, y := items[i], WithQuantity(items, id, quantity, now)[i];
      if x.id == id then
        y.quantity == quantity && y.lastUpdated == now && y.id == x.id && y.name == x.name
        && y.unit == x.unit && y.lowStockThreshold == x.lowStockThreshold
      else y == x
  {
    if i > 0 {
      WithQuantityAt(items[1..], id, quantity, now, i - 1);
    }
  }

  /** Updating an id that is not in the list leaves the list as it was. */
  lemma {:induction false} WithQuantityAbsent(items: seq<Item>, id: string, quantity: Number, now: nat)
    requires !HasId(items, id)
    ensures WithQuantity(items, id, quantity, now) == items
  {
    if items != [] {
      HasIdCons(items, id);
      WithQuantityAbsent(items[1..], id, quantity, now);
    }
  }

  /** An update keeps every id in its place, so distinct ids stay distinct. */
  lemma WithQuantityDistinct(items: seq<Item>, id: string, quantity: Number, now: nat)
    requires DistinctIds(items)
    ensures DistinctIds(WithQuantity(items, id, quantity, now))
  {
    var r := WithQuantity(items, id, quantity, now);
    forall i | 0 <= i < |items| ensures r[i].id == items[i].id {
      WithQuantityAt(items, id, quantity, now, i);
    }
  }

  /**
   * Read back by id after an update: another id reads as before, and `id`
   * reads as its old item with the new quantity and timestamp.
   */
  lemma {:induction false} LookupWithQuantity(items: seq<Item>, id: string, quantity: Number, now: nat, k: string)
    ensures var r := WithQuantity(items, id, quantity, now);
      Lookup(r, k) == if k != id then Lookup(items, k)
                      else match Lookup(items, k)
                           case None => None
                           case Some(x) => Some(x.(quantity := quantity, lastUpdated := now))
  {
    if items != [] {
      LookupWithQuantity(items[1..], id, quantity, now, k);
      var r := WithQuantity(items, id, quantity, now);
      assert r[1..] == WithQuantity(items[1..], id, quantity, now);
    }
  }

  /** A quantity that is not below zero; NaN is not below anything. */
  predicate NotNegative(n: Number) {
    n.NaN? || n.value >= 0.0
  }

  /** No item of the list holds a negative quantity. */
  predicate QuantitiesNotNegative(items: seq<Item>) {
    forall i :: 0 <= i < |items| ==> NotNegative(items[i].quantity)
  }

  /** Writing a quantity that is not negative keeps every quantity not negative. */
  lemma WithQuantityNotNegative(items: seq<Item>, id: string, quantity: Number, now: nat)
    requires QuantitiesNotNegative(items) && NotNegative(quantity)
    ensures QuantitiesNotNegative(WithQuantity(items, id, quantity, now))
  {
    forall i | 0 <= i < |items| ensures NotNegative(WithQuantity(items, id, quantity, now)[i].quantity) {
      WithQuantityAt(items, id, quantity, now, i);
    }
  }

  /** Appending a draft whose quantity is not negative keeps every quantity not negative. */
  lemma AppendedNotNegative(items: seq<Item>, itemData: CreateItemData, id: string, now: nat)
    requires QuantitiesNotNegative(items) && NotNegative(itemData.quantity)
    ensures QuantitiesNotNegative(Appended(items, itemData, id, now))
  {
    var r := Appended(items, itemData, id, now);
    forall i | 0 <= i < |r| ensures NotNegative(r[i].quantity) {
      if i < |items| { assert r[i] == items[i]; }
    }
  }

  // ---------------------------------------------------------------- delete

  /** The list after `handleDeleteItem(id)`: the `filter` keeping items whose id differs. */
  function Without(items: seq<Item>, id: string): (r: seq<Item>)
    ensures |r| <= |items|
  {
    if items == [] then [] else (if items[0].id == id then [] else [items[0]]) + Without(items[1..], id)
  }

  /** The items that survive are exactly those of the old list with a different id. */
  lemma {:induction false} WithoutMembers(items: seq<Item>, id: string, x: Item)
    ensures x in Without(items, id) <==> x in items && x.id != id
  {
    if items != [] {
      WithoutMembers(items[1..], id, x);
      assert items == [items[0]] + items[1..];
    }
  }

  /** The filter distributes over concatenation: survivors keep their relative order. */
  lemma {:induction false} WithoutConcat(a: seq<Item>, b: seq<Item>, id: string)
    ensures Without(a + b, id) == Without(a, id) + Without(b, id)
  {
    if a != [] {
      assert (a + b)[1..] == a[1..] + b;
      WithoutConcat(a[1..], b, id);
    } else {
      assert a + b == b;
    }
  }

  /** Deleting an id that is not in the list leaves the list as it was. */
  lemma {:induction false} WithoutAbsent(items: seq<Item>, id: string)
    requires !HasId(items, id)
    ensures Without(items, id) == items
  {
    if items != [] {
      HasIdCons(items, id);
      WithoutAbsent(items[1..], id);
    }
  }

  /** After a delete no item carries the deleted id. */
  lemma WithoutRemovesId(items: seq<Item>, id: string)
    ensures !HasId(Without(items, id), id)
  {
    var r := Without(items, id);
    if HasId(r, id) {
      var i :| 0 <= i < |r| && r[i].id == id;
      WithoutMembers(items, id, r[i]);
    }
  }

  /** Deleting the same id twice gives the list of deleting it once. */
  lemma WithoutIdempotent(items: seq<Item>, id: string)
    ensures Without(Without(items, id), id) == Without(items, id)
  {
    WithoutRemovesId(items, id);
    WithoutAbsent(Without(items, id), id);
  }

  /** A delete drops exactly the positions that carry the id. */
  lemma {:induction false} WithoutLength(items: seq<Item>, id: string)
    ensures |Without(items, id)| == |items| - CountId(items, id)
  {
    if items != [] {
      WithoutLength(items[1..], id);
    }
  }

  /** With distinct ids, an id that is present occurs exactly once, so a delete removes one item. */
  lemma {:induction false} DistinctCountOne(items: seq<Item>, id: string)
    requires DistinctIds(items) && HasId(items, id)
    ensures CountId(items, id) == 1
    ensures |Without(items, id)| == |items| - 1
  {
    var rest := items[1..];
    assert DistinctIds(rest) by {
      forall i, j | 0 <= i < |rest| && 0 <= j < |rest| && i != j ensures rest[i].id != rest[j].id {
        assert rest[i] == items[i + 1] && rest[j] == items[j + 1];
      }
    }
    if items[0].id == id {
      forall i | 0 <= i < |rest| ensures rest[i].id != id {
        assert rest[i] == items[i + 1];
      }
      CountAbsent(rest, id);
    } else {
      var i :| 0 <= i < |items| && items[i].id == id;
      assert rest[i - 1].id == id;
      DistinctCountOne(rest, id);
    }
    WithoutLength(items, id);
  }

  lemma {:induction false} CountAbsent(items: seq<Item>, id: string)
    requires !HasId(items, id)
    ensures CountId(items, id) == 0
  {
    if items != [] {
      HasIdCons(items, id);
      CountAbsent(items[1..], id);
    }
  }

  /** A delete keeps distinct ids distinct. */
  lemma {:induction false} WithoutDistinct(items: seq<Item>, id: string)
    requires DistinctIds(items)
    ensures DistinctIds(Without(items, id))
  {
    if items != [] {
      var rest := items[1..];
      assert DistinctIds(rest) by {
        forall i, j | 0 <= i < |rest| && 0 <= j < |rest| && i != j ensures rest[i].id != rest[j].id {
          assert rest[i] == items[i + 1] && rest[j] == items[j + 1];
        }
      }
      WithoutDistinct(rest, id);
      if items[0].id != id {
        var r := Without(items, id);
        var tail := Without(rest, id);
        assert r == [items[0]] + tail;
        forall j | 0 <= j < |tail| ensures tail[j].id != items[0].id {
          WithoutMembers(rest, id, tail[j]);
          var m :| 0 <= m < |rest| && rest[m] == tail[j];
          assert items[m + 1] == rest[m];
        }
        forall i, j | 0 <= i < |r| && 0 <= j < |r| && i != j ensures r[i].id != r[j].id {
          if i > 0 && j > 0 { assert r[i] == tail[i - 1] && r[j] == tail[j - 1]; }
          else if i == 0 { assert r[j] == tail[j - 1]; }
          else { assert r[i] == tail[i - 1]; }
        }
      }
    }
  }

  /** A delete keeps every quantity not negative. */
  lemma WithoutNotNegative(items: seq<Item>, id: string)
    requires QuantitiesNotNegative(items)
    ensures QuantitiesNotNegative(Without(items, id))
  {
    var r := Without(items, id);
    forall i | 0 <= i < |r| ensures NotNegative(r[i].quantity) {
      WithoutMembers(items, id, r[i]);
    }
  }

  /** Read back by id after a delete: the deleted id is gone, any other id reads as before. */
  lemma {:induction false} LookupWithout(items: seq<Item>, id: string, k: string)
    ensures Lookup(Without(items, id), k) == if k == id then None else Lookup(items, k)
  {
    if items != [] {
      var rest := items[1..];
      LookupWithout(rest, id, k);
      if items[0].id != id {
        var r := [items[0]] + Without(rest, id);
        assert Without(items, id) == r;
        assert r[1..] == Without(rest, id);
      } else {
        assert Without(items, id) == Without(rest, id);
      }
    }
  }

  // ---------------------------------------------------------------- the store

  /** The `items` state cell of the manager; each handler replaces it in one step. */
  class ItemStore {
    var items: seq<Item>

    /** `useState([])`: the list starts empty. */
    constructor ()
      ensures items == []
    {
      items := [];
    }

    /** `handleAddItem`: stamp the draft with a clock-derived id and the time, and append it. */
    method HandleAddItem(itemData: CreateItemData, now: nat)
      modifies this
      ensures items == Appended(old(items), itemData, TimestampId(now), now)
      ensures DistinctIds(old(items)) && !HasId(old(items), TimestampId(now)) ==> DistinctIds(items)
    {
      if DistinctIds(items) && !HasId(items, TimestampId(now)) {
        AppendedDistinct(items, itemData, TimestampId(now), now);
      }
      items := Appended(items, itemData, TimestampId(now), now);
    }

    /** `handleUpdateQuantity`: every item with this id gets the quantity and the time. */
    method HandleUpdateQuantity(id: string, quantity: Number, now: nat)
      modifies this
      ensures items == WithQuantity(old(items), id, quantity, now)
      ensures DistinctIds(old(items)) ==> DistinctIds(items)
    {
      if DistinctIds(items) {
        WithQuantityDistinct(items, id, quantity, now);
      }
      items := WithQuantity(items, id, quantity, now);
    }

    /** `handleDeleteItem`: keep only the items with another id. */
    method HandleDeleteItem(id: string)
      modifies this
      ensures items == Without(old(items), id)
      ensures DistinctIds(old(items)) ==> DistinctIds(items)
    {
      if DistinctIds(items) {
        WithoutDistinct(items, id);
      }
      items := Without(items, id);
    }
  }
}
