/**
 * The add-item form: four text fields, the submit handler's validation, the
 * draft it hands to the store and the reset that follows.
 */
module AddItemForm {
  import opened JsNumber
  import opened JsText
  import opened InventoryTypes
  import opened InventoryManager

  /** The raw text of the four fields. */
  datatype FormData = FormData(name: string, quantity: string, unit: string, lowStockThreshold: string)

  /** The form's initial (and post-submit) contents: everything empty but a threshold of "5". */
  const InitialFormData: FormData := FormData("", "", "", "5")

  /** What a submit leads to; the two refusals are the two warning toasts. */
  datatype SubmitOutcome = Accepted(draft: CreateItemData) | MissingInformation | InvalidValues

  /**
   * The checks and the draft of `handleSubmit`. A blank name, an empty
   * quantity or no unit is missing information; a parsed quantity or
   * threshold below 0 is invalid. Both tests are JavaScript ones, so text
   * that parses to NaN passes them and is accepted with a NaN value.
   */
  function Validate(f: FormData): (r: SubmitOutcome)
    ensures r == MissingInformation <==> AllWhiteSpace(f.name) || f.quantity == "" || f.unit == ""
    ensures r == InvalidValues <==>
      !(AllWhiteSpace(f.name) || f.quantity == "" || f.unit == "")
      && ((ParseFloat(f.quantity).Finite? && ParseFloat(f.quantity).value < 0.0)
          || (ParseFloat(f.lowStockThreshold).Finite? && ParseFloat(f.lowStockThreshold).value < 0.0))
    ensures r.Accepted? ==>
      r.draft.name == Trim(f.name) && r.draft.unit == f.unit
      && r.draft.quantity == ParseFloat(f.quantity)
      && r.draft.lowStockThreshold == ParseFloat(f.lowStockThreshold)
  {
    TrimEmptyIff(f.name);
    if Trim(f.name) == "" || f.quantity == "" || f.unit == "" then MissingInformation
    else
      var quantity := ParseFloat(f.quantity);
      var threshold := ParseFloat(f.lowStockThreshold);
      if Lt(quantity, Zero) || Lt(threshold, Zero) then InvalidValues
      else Accepted(CreateItemData(Trim(f.name), quantity, f.unit, threshold))
  }

  /** An accepted draft has a non-blank, already trimmed name and a selected unit. */
  lemma AcceptedDraftNamed(f: FormData)
    requires Validate(f).Accepted?
    ensures var d := Validate(f).draft;
      d.name != "" && !AllWhiteSpace(d.name) && Trim(d.name) == d.name && d.unit != ""
  {
    TrimEmptyIff(f.name);
    TrimIdempotent(f.name);
    TrimEmptyIff(Trim(f.name));
  }

  /** Neither number of an accepted draft is negative: each is a value of at least 0, or NaN. */
  lemma AcceptedDraftNotNegative(f: FormData)
    requires Validate(f).Accepted?
    ensures Validate(f).draft.quantity.NaN? || Validate(f).draft.quantity.value >= 0.0
    ensures Validate(f).draft.lowStockThreshold.NaN? || Validate(f).draft.lowStockThreshold.value >= 0.0
  {
  }

  /**
   * An emptied threshold field is not refused: `parseFloat("")` is NaN, the
   * `threshold < 0` test is false, and the draft carries a NaN threshold.
   */
  lemma EmptyThresholdAccepted(f: FormData)
    requires !AllWhiteSpace(f.name) && f.quantity != "" && f.unit != ""
    requires !(ParseFloat(f.quantity).Finite? && ParseFloat(f.quantity).value < 0.0)
    requires f.lowStockThreshold == ""
    ensures Validate(f) == Accepted(CreateItemData(Trim(f.name), ParseFloat(f.quantity), f.unit, NaN))
  {
    ParseLiterals();
  }

  /** Submitting the untouched form is refused as missing information. */
  lemma InitialFormRefused()
    ensures Validate(InitialFormData) == MissingInformation
  {
    assert AllWhiteSpace(InitialFormData.name);
  }

  /** The form component's state: the `formData` cell. */
  class FormState {
    var formData: FormData

    constructor ()
      ensures formData == InitialFormData
    {
      formData := InitialFormData;
    }

    /** The name field's `onChange`. */
    method SetName(text: string)
      modifies this
      ensures formData == old(formData).(name := text)
    {
      formData := formData.(name := text);
    }

    /** The quantity field's `onChange`. */
    method SetQuantity(text: string)
      modifies this
      ensures formData == old(formData).(quantity := text)
    {
      formData := formData.(quantity := text);
    }

    /** The unit selector's `onValueChange`. */
    method SetUnit(value: string)
      modifies this
      ensures formData == old(formData).(unit := value)
    {
      formData := formData.(unit := value);
    }

    /** The threshold field's `onChange`. */
    method SetLowStockThreshold(text: string)
      modifies this
      ensures formData == old(formData).(lowStockThreshold := text)
    {
      formData := formData.(lowStockThreshold := text);
    }

    /**
     * `handleSubmit`: on a refusal neither the form nor the store changes; on
     * acceptance the draft goes to the store's add handler (`onAddItem`) and
     * the form returns to its initial contents.
     */
    method HandleSubmit(store: ItemStore, now: nat) returns (outcome: SubmitOutcome)
      modifies this, store
      ensures outcome == Validate(old(formData))
      ensures outcome.Accepted? ==>
        store.items == Appended(old(store.items), outcome.draft, TimestampId(now), now)
        && formData == InitialFormData
      ensures !outcome.Accepted? ==> store.items == old(store.items) && formData == old(formData)
      ensures QuantitiesNotNegative(old(store.items)) ==> QuantitiesNotNegative(store.items)
    {
      outcome := Validate(formData);
      if outcome.Accepted? {
        if QuantitiesNotNegative(store.items) {
          AcceptedDraftNotNegative(formData);
          AppendedNotNegative(store.items, outcome.draft, TimestampId(now), now);
        }
        store.HandleAddItem(outcome.draft, now);
        formData := InitialFormData;
      }
    }
  }
}
