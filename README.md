# Kitchen inventory: a verified model

This project is a Dafny model of the core of a small kitchen-inventory
application. The application keeps a list of inventory items. Each item has
an id, a name, a quantity, a unit, a low-stock threshold and a last-updated
time. The model covers three parts:

- the **inventory manager**, which owns the item list. It adds an item with
  the id `Date.now().toString()`, sets the quantity of the items with a given
  id, and removes the items with a given id;
- the **inventory table**, which classifies each item as *Out of Stock*,
  *Low Stock* or *In Stock*. It turns the "use one" and "restock" buttons into
  quantity updates and keeps a per-item buffer of typed restock amounts;
- the **add-item form**, which holds four text fields. On submit it checks
  that the name, quantity and unit are filled in and that neither number is
  negative, builds the new item's data and
  resets itself.

Numbers behave as JavaScript numbers do where that matters. `JsNumber.Number`
is either a finite value or `NaN`. Every comparison with `NaN` is false, and
arithmetic on `NaN` gives `NaN`. So text that `parseFloat` cannot read gets
past the application's `amount <= 0` and `quantity < 0` guards, and the model
proves that it does. `JsText` models the `parseFloat` and `trim` that the
form and the table call, and the decimal rendering that `Date.now().toString()`
produces.

The models follow the code's own form:

- The manager's list is the field `items` of the class
  `InventoryManager.ItemStore`. Its three handlers are methods, each proved
  equal to a pure function (`Appended`, `WithQuantity`, `Without`). The
  properties are lemmas about those functions: fresh ids stay distinct,
  other items are left unchanged, lookups after the change, and
  non-negative quantities.
- The table's restock buffer is the field of `InventoryTable.TableView`.
- The form's text fields are the field of `AddItemForm.FormState`.
- The table's and the form's callbacks to the manager are the `ItemStore`
  passed to their handlers.
- The clock reading `Date.now()` is a parameter `now` (milliseconds, a
  `nat`).

Three behaviours of the code are worth stating, because a reader might expect
otherwise:

- Updating or deleting an id that is not in the list changes nothing. The
  code raises no not-found error (`InventoryManager.WithQuantityAbsent`,
  `InventoryManager.WithoutAbsent`).
- A quantity or threshold that does not parse as a number is kept as `NaN`.
  The code raises no validation error (`AddItemForm.EmptyThresholdAccepted`,
  `InventoryTable.RestockUnparsableAccepted`).
- Ids are unique only while no two items are added within the same
  millisecond. `InventoryManager.SameTickAddsCollide` shows two adds at one
  clock reading giving the same id.

## Model

| member | source | states |
|---|---|---|
| JsNumber.Add | src/components/inventory/InventoryTable.tsx:54 | the sum is NaN exactly when an operand is NaN; otherwise it is the real sum |
| JsNumber.Sub | src/components/inventory/InventoryTable.tsx:38 | the difference is NaN exactly when an operand is NaN; otherwise it is the real difference |
| JsNumber.Le | src/components/inventory/InventoryTable.tsx:24-25 | JavaScript `<=`: it holds exactly when `<` holds or both sides are the same finite number; on finite numbers it is the negation of the reversed `<`; it is false whenever a side is NaN |
| JsNumber.Lt | src/components/inventory/AddItemForm.tsx:40 | JavaScript `<`: it holds only between two different finite numbers |
| JsNumber.Negate | src/components/inventory/AddItemForm.tsx:37-38 | the sign `parseFloat` applies: NaN stays NaN, and a finite value is turned into its opposite |
| JsNumber.Max | src/components/inventory/InventoryTable.tsx:38 | `Math.max` is NaN exactly when an argument is NaN; otherwise it is one of the two arguments and no smaller than either |
| JsText.TrimStart | src/components/inventory/AddItemForm.tsx:50 | the result is a suffix of the text; everything removed is whitespace; the result does not start with whitespace |
| JsText.TrimEnd | src/components/inventory/AddItemForm.tsx:50 | the result is a prefix of the text; everything removed is whitespace; the result does not end with whitespace |
| JsText.TrimEmptyIff | src/components/inventory/AddItemForm.tsx:28 | a name trims to the empty string exactly when it is all whitespace, which is the form's "name missing" test |
| JsText.Trim | src/components/inventory/AddItemForm.tsx:50 | `trim()` is the slice of the text that starts after the leading whitespace and is followed only by whitespace; it neither starts nor ends with whitespace |
| JsText.TrimIdempotent | src/components/inventory/AddItemForm.tsx:50 | trimming an already trimmed name changes nothing |
| JsText.TrimUntouched | src/components/inventory/AddItemForm.tsx:50 | a name with no whitespace at either end is stored unchanged |
| JsText.DigitPrefix | src/components/inventory/AddItemForm.tsx:37-38 | the longest leading run of decimal digits: a prefix, all digits, and not extendable |
| JsText.FractionValue | src/components/inventory/AddItemForm.tsx:37-38 | the digits after the decimal point add a value in [0, 1) |
| JsText.ScanDecimal | src/components/inventory/AddItemForm.tsx:37-38 | an unsigned decimal reading is never negative |
| JsText.ParseFloat | src/components/inventory/AddItemForm.tsx:37-38 | `parseFloat` yields a negative number only when the text, after leading whitespace, starts with '-' |
| JsText.ParseNoDigitIsNaN | src/components/inventory/InventoryTable.tsx:45 | text containing no digit parses to NaN |
| JsText.NatToDecimal | src/components/inventory/InventoryManager.tsx:53 | `toString` of a whole number is a non-empty digit string without a leading zero |
| JsText.DecimalValueOfNatToDecimal | src/components/inventory/InventoryManager.tsx:53 | reading a rendered whole number's digits back gives the number |
| JsText.ParseDigitString | src/components/inventory/AddItemForm.tsx:37-38 | `parseFloat` of a non-empty digit string is the number those digits denote |
| JsText.ParseNatToDecimal | src/components/inventory/InventoryManager.tsx:53 | `parseFloat(n.toString())` is n |
| JsText.ParseLiterals | src/components/inventory/InventoryTable.tsx:45 | `parseFloat` of "" is NaN; of "1" it is 1; of "5" it is 5 |
| InventoryManager.TimestampId | src/components/inventory/InventoryManager.tsx:53 | the id given at clock reading `now` parses back to `now` |
| InventoryManager.Lookup | src/components/inventory/InventoryTable.tsx:107 | the read-by-id observer that the update and delete lemmas are stated with, for the row item the table gets from the list: the first item with the id sought, with no earlier item having that id; nothing is found exactly when no item has that id |
| InventoryManager.Appended | src/components/inventory/InventoryManager.tsx:50-57 | adding keeps every existing item in place and appends one item carrying the draft's fields, the new id and the clock reading |
| InventoryManager.AppendedDistinct | src/components/inventory/InventoryManager.tsx:53-56 | appending an item whose id is not in the list keeps all ids distinct |
| InventoryManager.TimestampIdFresh | src/components/inventory/InventoryManager.tsx:53 | if every existing id reads as an earlier clock value, the new timestamp id is not in the list |
| InventoryManager.TimestampIdInjective | src/components/inventory/InventoryManager.tsx:53 | adds at different clock readings get different ids |
| InventoryManager.SameTickAddsCollide | src/components/inventory/InventoryManager.tsx:53-56 | two adds at the same clock reading produce two items with the same id |
| InventoryManager.Refreshed | src/components/inventory/InventoryManager.tsx:61-63 | one step of the update's `map`: a matching item gets the new quantity and time and keeps its id, name, unit and threshold; any other item is returned unchanged |
| InventoryManager.WithQuantity | src/components/inventory/InventoryManager.tsx:59-65 | updating a quantity keeps the list's length |
| InventoryManager.WithQuantityAt | src/components/inventory/InventoryManager.tsx:60-64 | position by position, an item with the id gets the new quantity and clock reading and keeps its other fields; any other item is unchanged |
| InventoryManager.WithQuantityAbsent | src/components/inventory/InventoryManager.tsx:60-64 | updating an id no item has leaves the list unchanged |
| InventoryManager.WithQuantityDistinct | src/components/inventory/InventoryManager.tsx:60-64 | updating a quantity keeps ids distinct |
| InventoryManager.LookupWithQuantity | src/components/inventory/InventoryManager.tsx:60-64 | after the update, the first item with the updated id reads back with the new quantity and time; other ids read as before |
| InventoryManager.WithQuantityNotNegative | src/components/inventory/InventoryManager.tsx:60-64 | a non-negative quantity written into a list without negative quantities leaves none negative |
| InventoryManager.AppendedNotNegative | src/components/inventory/InventoryManager.tsx:56 | appending a draft with a non-negative quantity leaves no negative quantity |
| InventoryManager.Without | src/components/inventory/InventoryManager.tsx:68 | deleting never lengthens the list |
| InventoryManager.WithoutMembers | src/components/inventory/InventoryManager.tsx:68 | an item survives the delete exactly when it was in the list and has a different id |
| InventoryManager.WithoutConcat | src/components/inventory/InventoryManager.tsx:68 | the filter works piecewise over concatenation, so the order of the kept items is preserved |
| InventoryManager.WithoutAbsent | src/components/inventory/InventoryManager.tsx:68 | deleting an id no item has leaves the list unchanged |
| InventoryManager.WithoutRemovesId | src/components/inventory/InventoryManager.tsx:68 | after the delete no item has the id |
| InventoryManager.WithoutIdempotent | src/components/inventory/InventoryManager.tsx:68 | deleting the same id twice is the same as deleting it once |
| InventoryManager.WithoutLength | src/components/inventory/InventoryManager.tsx:68 | the delete removes exactly as many items as carry the id |
| InventoryManager.DistinctCountOne | src/components/inventory/InventoryManager.tsx:68 | with distinct ids, deleting a present id removes exactly one item |
| InventoryManager.CountAbsent | src/components/inventory/InventoryManager.tsx:68 | an id no item has is counted zero times |
| InventoryManager.WithoutDistinct | src/components/inventory/InventoryManager.tsx:68 | deleting keeps ids distinct |
| InventoryManager.WithoutNotNegative | src/components/inventory/InventoryManager.tsx:68 | deleting never introduces a negative quantity |
| InventoryManager.LookupWithout | src/components/inventory/InventoryManager.tsx:68 | after the delete the deleted id finds nothing, and every other id finds the same first match as before |
| InventoryManager.ItemStore.constructor | src/components/inventory/InventoryManager.tsx:43 | the manager starts with no items |
| InventoryManager.ItemStore.HandleAddItem | src/components/inventory/InventoryManager.tsx:50-57 | the list becomes `Appended` with the timestamp id of `now`; distinct ids stay distinct when that id is fresh |
| InventoryManager.ItemStore.HandleUpdateQuantity | src/components/inventory/InventoryManager.tsx:59-65 | the list becomes `WithQuantity`; distinct ids stay distinct |
| InventoryManager.ItemStore.HandleDeleteItem | src/components/inventory/InventoryManager.tsx:67-69 | the list becomes `Without`; distinct ids stay distinct |
| InventoryTable.GetStockStatus | src/components/inventory/InventoryTable.tsx:23-27 | Out exactly when the quantity is at most 0; Low exactly when it is above 0 and at most the threshold; Good otherwise, including every NaN case; the badge is destructive exactly when out |
| InventoryTable.ThresholdIsLow | src/components/inventory/InventoryTable.tsx:25 | a positive quantity equal to its threshold is Low |
| InventoryTable.NaNThresholdNeverLow | src/components/inventory/InventoryTable.tsx:25 | an item whose threshold is NaN is never Low |
| InventoryTable.UseRequest | src/components/inventory/InventoryTable.tsx:29-42 | "use one" is refused exactly when the quantity is at most 0; otherwise the item's id is sent with max(0, quantity − 1), which lies in [0, quantity); a NaN quantity sends NaN |
| InventoryTable.UseRefusedIffOut | src/components/inventory/InventoryTable.tsx:30 | "use one" is refused exactly for the items shown Out of Stock |
| InventoryTable.RestockText | src/components/inventory/InventoryTable.tsx:45 | the restock text is never empty, and is the typed text when something was typed |
| InventoryTable.RestockRequest | src/components/inventory/InventoryTable.tsx:44-54 | a restock is refused exactly when the amount parses to a number at most 0; otherwise the new quantity is the old one plus the amount, larger when both are finite; NaN propagates |
| InventoryTable.RestockDefaultsToOne | src/components/inventory/InventoryTable.tsx:45 | with nothing typed, a restock adds 1 |
| InventoryTable.RestockUnparsableAccepted | src/components/inventory/InventoryTable.tsx:45-46 | typed text without a digit passes the guard and sends a NaN quantity |
| InventoryTable.UseThenRead | src/components/inventory/InventoryTable.tsx:38 | after a "use one" on an in-stock item, reading it back finds the same item with quantity `max(0, quantity - 1)`, which lies in [0, quantity), and the new time |
| InventoryTable.TableView.constructor | src/components/inventory/InventoryTable.tsx:20 | the restock buffer starts empty |
| InventoryTable.TableView.SetRestockAmount | src/components/inventory/InventoryTable.tsx:162 | typing sets that item's buffer entry and no other |
| InventoryTable.TableView.HandleUse | src/components/inventory/InventoryTable.tsx:29-42 | sends `UseRequest` to the manager when it is a request, and changes nothing otherwise; no negative quantity is introduced |
| InventoryTable.TableView.HandleRestock | src/components/inventory/InventoryTable.tsx:44-59 | sends `RestockRequest` and, on success, resets only that item's buffer entry to ""; on refusal nothing changes; no negative quantity is introduced |
| InventoryTable.TableView.HandleDelete | src/components/inventory/InventoryTable.tsx:61-66 | the manager's list becomes `Without` the item's id; no negative quantity is introduced |
| AddItemForm.InitialFormData | src/components/inventory/AddItemForm.tsx:17-22 | the form's starting contents, which the submit also resets to: empty name, quantity and unit, and threshold "5" |
| AddItemForm.Validate | src/components/inventory/AddItemForm.tsx:25-54 | "missing information" exactly when the name is all whitespace or the quantity or unit is empty; "invalid values" exactly when otherwise a field parses to a negative number; else accepted with the trimmed name, the parsed numbers and the unit |
| AddItemForm.AcceptedDraftNamed | src/components/inventory/AddItemForm.tsx:49-54 | an accepted draft's name is non-empty and has no whitespace at either end |
| AddItemForm.AcceptedDraftNotNegative | src/components/inventory/AddItemForm.tsx:40-53 | an accepted draft's quantity and threshold are each NaN or at least 0 |
| AddItemForm.EmptyThresholdAccepted | src/components/inventory/AddItemForm.tsx:38-40 | any form with a name, a quantity that is not negative, a unit and an empty threshold is accepted with the trimmed name, the parsed quantity, the unit and a NaN threshold |
| AddItemForm.InitialFormRefused | src/components/inventory/AddItemForm.tsx:17-35 | submitting the untouched form reports missing information |
| AddItemForm.FormState.constructor | src/components/inventory/AddItemForm.tsx:17-22 | the form starts with empty fields and threshold "5" |
| AddItemForm.FormState.SetName | src/components/inventory/AddItemForm.tsx:79 | editing the name changes only the name |
| AddItemForm.FormState.SetQuantity | src/components/inventory/AddItemForm.tsx:93 | editing the quantity changes only the quantity |
| AddItemForm.FormState.SetUnit | src/components/inventory/AddItemForm.tsx:100 | choosing a unit changes only the unit |
| AddItemForm.FormState.SetLowStockThreshold | src/components/inventory/AddItemForm.tsx:124 | editing the threshold changes only the threshold |
| AddItemForm.FormState.HandleSubmit | src/components/inventory/AddItemForm.tsx:25-62 | the outcome is `Validate` of the fields; when accepted, the draft is appended to the manager's list and the form resets; when refused, nothing changes; no negative quantity is introduced |
| Scenarios.MockItems | src/components/inventory/InventoryManager.tsx:7-40 | the demonstration data holds four items with distinct ids |
| Scenarios.MockItemsClassified | src/components/inventory/InventoryManager.tsx:7-40 | of the demonstration items the salt is Out of Stock and the rest are Good |
| Scenarios.MockIdsDecimal | src/components/inventory/InventoryManager.tsx:7-40 | the demonstration ids are the renderings of 1 to 4 |
| Scenarios.MockThenAddDistinct | src/components/inventory/InventoryManager.tsx:47-56 | adding an item to the demonstration data at any later clock reading keeps ids distinct |

## Left out

- The database calls in src/components/inventory/fetchitems.ts, additem.ts and updatequantity.ts are not part of this model. The manager shown keeps its list in memory only and never calls them.
- Toast notifications: their titles and texts are output only. The model keeps the outcome that chooses them (`AddItemForm.SubmitOutcome`, the `None` of a refused request).
- Rendering is left out: the JSX markup, the empty-table message, the date formatting, the disabled state of the "use" button, and the list of suggested units. The unit is modelled as free text, because the select is the only constraint on it.
- The `useEffect` that loads the demonstration data is not modelled as a step. `Scenarios.MockItems` is that data, with timestamps given relative to a clock reading.
- React's deferred state updates and re-rendering are modelled as immediate assignments to the fields. Only one handler runs at a time, so concurrency and stale closures are not modelled.
- JsNumber.Number: numbers are exact reals or NaN. Floating-point rounding, infinities, negative zero and magnitudes beyond double precision are not modelled.
- JsText.ParseFloat: exponent notation ("1e3") and the text "Infinity" are not recognised. Such text is read as its leading decimal digits, or as NaN.
- `Date.now()` and `new Date()` are the parameter `now`. A single clock reading is used for every item one update touches, though the code builds a separate `Date` object per item.
- The browser's input constraints are not modelled. The form's quantity and threshold fields carry `type="number"` and `min="0"` (src/components/inventory/AddItemForm.tsx:86-95 and 116-125). Only the name field (line 80) and the quantity field (line 94) carry `required`; the threshold field does not. The restock field carries `type="number"` (src/components/inventory/InventoryTable.tsx:156-159). In a browser these hand the handlers only "" or a number string, block an empty name or quantity, and block a negative form submit. The handlers here accept any text, which covers every input the browser can hand them. So in the running application a NaN threshold arises from an emptied threshold field, as `AddItemForm.EmptyThresholdAccepted` shows. `InventoryTable.RestockUnparsableAccepted` and the other NaN cases of `AddItemForm.Validate` reach it only through a caller other than those inputs.
- InventoryManager.ItemStore.HandleAddItem: keeps distinct ids only when the new timestamp id is fresh. The code makes no such promise; `SameTickAddsCollide` shows the case where it fails.
- InventoryTable.TableView.HandleRestock: its no-negative-quantity guarantee also needs the item passed in to have a quantity that is not negative. The table only ever passes items from the list.
