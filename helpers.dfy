/** Client helpers (src/utils/helpers.ts): the random id, the mapping from
    recipe ingredients to list items, and the unit vocabulary of the forms. */
module Helpers {
  import opened Types

  const Base36Alphabet: string := "0123456789abcdefghijklmnopqrstuvwxyz"

  /** `Number.prototype.toString(36)` of a number in [0, 1) given by its
      base-36 fraction digits: "0" for zero, else "0." and the digits. */
  function Base36Fraction(digits: seq<nat>): (s: string)
    requires forall i :: 0 <= i < |digits| ==> digits[i] < 36
    ensures digits == [] ==> s == "0"
    ensures digits != [] ==> |s| == |digits| + 2 && s[..2] == "0."
    ensures forall i :: 2 <= i < |s| ==> s[i] == Base36Alphabet[digits[i - 2]]
  {
    if digits == [] then "0"
    else "0." + seq(|digits|, i requires 0 <= i < |digits| => Base36Alphabet[digits[i]])
  }

  /** `Math.random().toString(36).substring(2, 15)`, the random number given
      by its base-36 fraction digits. */
  function GenerateId(digits: seq<nat>): (id: string)
    requires forall i :: 0 <= i < |digits| ==> digits[i] < 36
    ensures |id| <= 13
    ensures forall i :: 0 <= i < |id| ==> id[i] in Base36Alphabet
    ensures id == [] <==> digits == []
    ensures |id| == if |digits| < 13 then |digits| else 13
    ensures forall i :: 0 <= i < |id| ==> id[i] == Base36Alphabet[digits[i]]
  {
    var s := Base36Fraction(digits);
    var lo := if |s| < 2 then |s| else 2;
    var hi := if |s| < 15 then |s| else 15;
    s[lo..hi]
  }

  /** An ingredient as a new list item: unchecked, no category, a generated id. */
  function ToGroceryItem(ingredient: Ingredient, id: string): GroceryItem {
    GroceryItem(id, ingredient.name, ingredient.quantity, ingredient.unit, false, None)
  }

  /** `ingredientsToGroceryItems`: the i-th item gets the i-th generated id. */
  function IngredientsToGroceryItems(ingredients: seq<Ingredient>, newId: nat -> string): (items: seq<GroceryItem>)
    ensures |items| == |ingredients|
    ensures forall i :: 0 <= i < |items| ==>
      && items[i].id == newId(i)
      && items[i].name == ingredients[i].name
      && items[i].quantity == ingredients[i].quantity
      && items[i].unit == ingredients[i].unit
      && !items[i].checked
    decreases |ingredients|
  {
    if ingredients == [] then []
    else
      var n := |ingredients| - 1;
      IngredientsToGroceryItems(ingredients[..n], newId) + [ToGroceryItem(ingredients[n], newId(n))]
  }

  /** The units offered by the item and ingredient forms. */
  const CommonUnits: seq<string> :=
    ["g", "kg", "ml", "l", "pièce(s)", "tranche(s)", "boîte(s)", "bouteille(s)", "sachet(s)", "pot(s)"]

  /** The forms' default unit. */
  const DefaultUnit: string := "pièce(s)"

  /** Ten distinct units, the default among them. */
  lemma CommonUnitsSpec()
    ensures |CommonUnits| == 10
    ensures forall i, j :: 0 <= i < j < |CommonUnits| ==> CommonUnits[i] != CommonUnits[j]
    ensures DefaultUnit in CommonUnits
  {
    assert CommonUnits[4] == DefaultUnit;
  }
}
