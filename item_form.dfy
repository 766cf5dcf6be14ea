/** The add-item form (src/components/grocery/AddItemForm.tsx): three
    fields, an errors record filled by `validateForm`, and the handlers that
    submit, cancel and edit. The quantity is whole here (the form parses a
    float); the loading flag and the simulated 200 ms delay are not
    modelled. */
module ItemForm {
  import opened Text
  import opened Types
  import opened Helpers

  const NameRequired: string := "Le nom de l'article est requis"
  const QuantityPositive: string := "La quantité doit être supérieure à 0"

  /** The errors object: a message per failing field. */
  datatype ItemErrors = ItemErrors(name: Option<string>, quantity: Option<string>)

  const NoErrors: ItemErrors := ItemErrors(None, None)

  /** What `onAdd` receives. */
  datatype NewItemRequest = NewItemRequest(name: string, quantity: int, unit: string)

  /** The fields `validateForm` accepts. */
  predicate Acceptable(name: string, quantity: int) {
    !IsBlank(name) && quantity > 0
  }

  /** The submit button's `disabled`: blank name or non-positive quantity,
      exactly the fields `validateForm` rejects. */
  function SubmitDisabled(name: string, quantity: int): (disabled: bool)
    ensures disabled <==> !Acceptable(name, quantity)
  {
    Trim(name) == [] || quantity <= 0
  }

  /** The name a valid submit hands over is already trimmed, and the same
      request typed back into the form is accepted again. */
  lemma SubmittedRequestRevalidates(name: string, quantity: int)
    requires Acceptable(name, quantity)
    ensures Acceptable(Trim(name), quantity)
    ensures Trim(Trim(name)) == Trim(name)
  {
    TrimIdempotent(name);
  }

  class AddItemForm {
    var name: string
    var quantity: int
    var unit: string
    var errors: ItemErrors

    /** The initial fields: empty name, quantity 1, the default unit, no
      errors. */
    constructor()
      ensures name == "" && quantity == 1 && unit == DefaultUnit && errors == NoErrors
    {
      name := "";
      quantity := 1;
      unit := DefaultUnit;
      errors := NoErrors;
    }

    /** `validateForm`: the errors name exactly the failing fields, and the
      form is valid when there are none. */
    method ValidateForm() returns (ok: bool)
      modifies this
      ensures ok <==> Acceptable(name, quantity)
      ensures errors.name.Some? <==> IsBlank(name)
      ensures errors.quantity.Some? <==> quantity <= 0
      ensures errors.name.Some? ==> errors.name.value == NameRequired
      ensures errors.quantity.Some? ==> errors.quantity.value == QuantityPositive
      ensures name == old(name) && quantity == old(quantity) && unit == old(unit)
    {
      var newErrors := NoErrors;
      if Trim(name) == [] {
        newErrors := newErrors.(name := Some(NameRequired));
      }
      if quantity <= 0 {
        newErrors := newErrors.(quantity := Some(QuantityPositive));
      }
      errors := newErrors;
      ok := newErrors == NoErrors;
    }

    /** `handleSubmit`: an invalid form only shows its errors; a valid one
      hands over the trimmed name, the quantity and the unit, then resets. */
    method HandleSubmit() returns (added: Option<NewItemRequest>)
      modifies this
      ensures !Acceptable(old(name), old(quantity)) ==>
        && added == None
        && name == old(name) && quantity == old(quantity) && unit == old(unit)
        && errors.name.Some? == IsBlank(name) && errors.quantity.Some? == (quantity <= 0)
      ensures Acceptable(old(name), old(quantity)) ==>
        && added == Some(NewItemRequest(Trim(old(name)), old(quantity), old(unit)))
        && name == "" && quantity == 1 && unit == DefaultUnit && errors == NoErrors
    {
      var ok := ValidateForm();
      if !ok {
        return None;
      }
      added := Some(NewItemRequest(Trim(name), quantity, unit));
      name := "";
      quantity := 1;
      unit := DefaultUnit;
      errors := NoErrors;
    }

    /** `handleCancel`: back to the initial fields. */
    method HandleCancel()
      modifies this
      ensures name == "" && quantity == 1 && unit == DefaultUnit && errors == NoErrors
    {
      name := "";
      quantity := 1;
      unit := DefaultUnit;
      errors := NoErrors;
    }

    /** Typing a name clears the name error. */
    method ChangeName(value: string)
      modifies this
      ensures name == value && errors == old(errors).(name := None)
      ensures quantity == old(quantity) && unit == old(unit)
    {
      name := value;
      if errors.name.Some? {
        errors := errors.(name := None);
      }
    }

    /** Typing a quantity clears the quantity error only when it is positive. */
    method ChangeQuantity(value: int)
      modifies this
      ensures quantity == value
      ensures errors == if value > 0 then old(errors).(quantity := None) else old(errors)
      ensures name == old(name) && unit == old(unit)
    {
      quantity := value;
      if errors.quantity.Some? && value > 0 {
        errors := errors.(quantity := None);
      }
    }

    /** Picking a unit. */
    method ChangeUnit(value: string)
      modifies this
      ensures unit == value && name == old(name) && quantity == old(quantity) && errors == old(errors)
    {
      unit := value;
    }
  }
}
