/** The recipe form (src/components/recipes/RecipeForm.tsx): the recipe's
    fields, the ingredient list, a draft ingredient and three error
    messages, the empty string meaning no error. `generateId()` is an id
    parameter. */
module RecipeEditor {
  import opened Text
  import opened Types
  import opened Collections
  import opened Helpers

  const NameMissing: string := "Veuillez saisir un nom"
  const IngredientsMissing: string := "Ajoutez au moins un ingrédient"

  datatype RecipeErrors = RecipeErrors(name: string, ingredients: string, newIngredientName: string)

  /** What `onSave` receives. */
  datatype RecipeDraft = RecipeDraft(name: string, ingredients: seq<Ingredient>, instructions: string, image: string)

  function IngredientId(i: Ingredient): string { i.id }

  /** The empty draft ingredient. */
  const EmptyDraft: Ingredient := Ingredient("", "", 1, DefaultUnit)

  /** `value || ''` on an optional string. */
  function OrEmpty(s: Option<string>): string {
    if s.Some? then s.value else ""
  }

  /** `handleSubmit`'s errors: a message for a blank name and one for an
      empty ingredient list. */
  function SubmitErrors(name: string, ingredients: seq<Ingredient>): (e: RecipeErrors)
    ensures e.name != "" <==> IsBlank(name)
    ensures e.ingredients != "" <==> ingredients == []
    ensures e.newIngredientName == ""
  {
    RecipeErrors(if Trim(name) == [] then NameMissing else "",
                 if |ingredients| == 0 then IngredientsMissing else "",
                 "")
  }

  /** An ingredient added under an id no other ingredient carries can be
      removed again, which gives back the list as it was. */
  lemma AddedIngredientRemovable(ingredients: seq<Ingredient>, added: Ingredient)
    requires forall j :: 0 <= j < |ingredients| ==> ingredients[j].id != added.id
    ensures RemoveId(ingredients + [added], IngredientId, added.id) == ingredients
  {
    RemoveIdAppend(ingredients, [added], IngredientId, added.id);
    RemoveIdAbsent(ingredients, IngredientId, added.id);
    assert RemoveId([added], IngredientId, added.id) == RemoveId([], IngredientId, added.id) by {
      assert [added][..0] == [];
    }
  }

  class RecipeForm {
    var name: string
    var ingredients: seq<Ingredient>
    var instructions: string
    var image: string
    var draft: Ingredient
    var errors: RecipeErrors

    /** The fields start from `initialData` when there is one, else empty. */
    constructor(initialData: Option<Recipe>)
      ensures initialData.Some? ==>
        && name == initialData.value.name
        && ingredients == initialData.value.ingredients
        && instructions == OrEmpty(initialData.value.instructions)
        && image == OrEmpty(initialData.value.image)
      ensures initialData.None? ==> name == "" && ingredients == [] && instructions == "" && image == ""
      ensures draft == EmptyDraft && errors == RecipeErrors("", "", "")
    {
      if initialData.Some? {
        var r := initialData.value;
        name := r.name;
        ingredients := r.ingredients;
        instructions := OrEmpty(r.instructions);
        image := OrEmpty(r.image);
      } else {
        name := "";
        ingredients := [];
        instructions := "";
        image := "";
      }
      draft := EmptyDraft;
      errors := RecipeErrors("", "", "");
    }

    /** Editing the draft ingredient. */
    method EditDraft(value: Ingredient)
      modifies this
      ensures draft == value
      ensures name == old(name) && ingredients == old(ingredients) && errors == old(errors)
      ensures instructions == old(instructions) && image == old(image)
    {
      draft := value;
    }

    /** `addIngredient`: a blank draft name only sets its error; otherwise the
      draft, under a new id and with its name as typed, goes to the end of
      the list, the draft is emptied and its error cleared. */
    method AddIngredient(newId: string)
      modifies this
      ensures IsBlank(old(draft).name) ==>
        && ingredients == old(ingredients) && draft == old(draft)
        && errors == old(errors).(newIngredientName := NameMissing)
      ensures !IsBlank(old(draft).name) ==>
        && ingredients == old(ingredients) + [old(draft).(id := newId)]
        && draft == EmptyDraft
        && errors == old(errors).(newIngredientName := "")
      ensures name == old(name) && instructions == old(instructions) && image == old(image)
    {
      if Trim(draft.name) == [] {
        errors := errors.(newIngredientName := NameMissing);
        return;
      }
      ingredients := ingredients + [draft.(id := newId)];
      draft := EmptyDraft;
      errors := errors.(newIngredientName := "");
    }

    /** `removeIngredient`: drops the ingredients with the id, keeping the
      others in order. */
    method RemoveIngredient(id: string)
      modifies this
      ensures ingredients == RemoveId(old(ingredients), IngredientId, id)
      ensures name == old(name) && draft == old(draft) && errors == old(errors)
      ensures instructions == old(instructions) && image == old(image)
    {
      ingredients := RemoveId(ingredients, IngredientId, id);
    }

    /** `handleSubmit`: with a name and at least one ingredient, hands over
      the trimmed texts and the ingredients as they are; otherwise it only
      shows the errors. */
    method HandleSubmit() returns (saved: Option<RecipeDraft>)
      modifies this
      ensures saved.Some? <==> !IsBlank(name) && ingredients != []
      ensures saved.Some? ==>
        && saved.value == RecipeDraft(Trim(name), ingredients, Trim(instructions), Trim(image))
        && errors == old(errors)
      ensures saved.None? ==> errors == SubmitErrors(name, ingredients)
      ensures name == old(name) && ingredients == old(ingredients) && draft == old(draft)
      ensures instructions == old(instructions) && image == old(image)
    {
      var formErrors := SubmitErrors(name, ingredients);
      if formErrors.name != "" || formErrors.ingredients != "" {
        errors := formErrors;
        return None;
      }
      saved := Some(RecipeDraft(Trim(name), ingredients, Trim(instructions), Trim(image)));
    }
  }
}
