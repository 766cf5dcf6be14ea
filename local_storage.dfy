/** The browser-storage helpers (src/utils/localStorage.ts): four storage
    keys, each holding a serialised array. A key that was never written reads
    as the empty array. Serialisation is taken to round-trip, so a key holds
    the sequence itself. */
module LocalStorage {
  import opened Types
  import opened Collections

  function TemplateId(t: Template): string { t.id }

  function RecipeId(r: Recipe): string { r.id }

  /** The history keeps the ten most recent lists. */
  const MaxHistoryItems: nat := 10

  function Stored<T>(slot: Option<seq<T>>): seq<T> {
    if slot.Some? then slot.value else []
  }

  /** The history after `unshift(list)` and `slice(0, 10)`: the new list
      first, then the previous history's most recent entries, ten at most. */
  function WithEntry(history: seq<ShoppingList>, list: ShoppingList): (r: seq<ShoppingList>)
    ensures |r| == if |history| < MaxHistoryItems then |history| + 1 else MaxHistoryItems
    ensures r[0] == list
    ensures forall i :: 1 <= i < |r| ==> r[i] == history[i - 1]
  {
    var h := [list] + history;
    h[..if |h| < MaxHistoryItems then |h| else MaxHistoryItems]
  }

  /** The history after saving each of `lists` in turn. */
  function SaveAll(history: seq<ShoppingList>, lists: seq<ShoppingList>): seq<ShoppingList>
    decreases |lists|
  {
    if lists == [] then history
    else WithEntry(SaveAll(history, lists[..|lists| - 1]), lists[|lists| - 1])
  }

  /** A saved list stays in the history, one place further back per later
      save, for nine more saves. */
  lemma {:induction false} SavedListMovesBack(history: seq<ShoppingList>, list: ShoppingList, later: seq<ShoppingList>)
    requires |later| < MaxHistoryItems
    ensures |SaveAll(WithEntry(history, list), later)| > |later|
    ensures SaveAll(WithEntry(history, list), later)[|later|] == list
    decreases |later|
  {
    if later != [] {
      SavedListMovesBack(history, list, later[..|later| - 1]);
    }
  }

  /** After ten saves the history is exactly those ten lists, newest first. */
  lemma {:induction false} HistoryHoldsLastTen(history: seq<ShoppingList>, lists: seq<ShoppingList>)
    requires |lists| >= MaxHistoryItems
    ensures |SaveAll(history, lists)| == MaxHistoryItems
    ensures forall i :: 0 <= i < MaxHistoryItems ==> SaveAll(history, lists)[i] == lists[|lists| - 1 - i]
    decreases |lists|
  {
    var p := lists[..|lists| - 1];
    if |p| >= MaxHistoryItems {
      HistoryHoldsLastTen(history, p);
    } else {
      SavedListsNewestFirst(history, p);
    }
  }

  /** Fewer than ten saves put those lists first, newest first. */
  lemma {:induction false} SavedListsNewestFirst(history: seq<ShoppingList>, lists: seq<ShoppingList>)
    requires |lists| < MaxHistoryItems
    ensures |SaveAll(history, lists)| >= |lists|
    ensures forall i :: 0 <= i < |lists| ==> SaveAll(history, lists)[i] == lists[|lists| - 1 - i]
    decreases |lists|
  {
    if lists != [] {
      SavedListsNewestFirst(history, lists[..|lists| - 1]);
    }
  }

  class KeyValueStore {
    var currentList: Option<seq<GroceryItem>>
    var templates: Option<seq<Template>>
    var recipes: Option<seq<Recipe>>
    var history: Option<seq<ShoppingList>>

    /** Empty storage: every getter reads the empty array. */
    constructor()
      ensures GetCurrentList() == [] && GetTemplates() == [] && GetRecipes() == [] && GetHistory() == []
    {
      currentList := None;
      templates := None;
      recipes := None;
      history := None;
    }

    function GetCurrentList(): seq<GroceryItem>
      reads this
    {
      Stored(currentList)
    }

    function GetTemplates(): seq<Template>
      reads this
    {
      Stored(templates)
    }

    function GetRecipes(): seq<Recipe>
      reads this
    {
      Stored(recipes)
    }

    function GetHistory(): seq<ShoppingList>
      reads this
    {
      Stored(history)
    }

    /** `saveCurrentList`: what `getCurrentList` then reads back. */
    method SaveCurrentList(items: seq<GroceryItem>)
      modifies this
      ensures GetCurrentList() == items
      ensures templates == old(templates) && recipes == old(recipes) && history == old(history)
    {
      currentList := Some(items);
    }

    /** `saveTemplate`. */
    method SaveTemplate(template: Template)
      modifies this
      ensures GetTemplates() == Upsert(old(GetTemplates()), TemplateId, template)
      ensures currentList == old(currentList) && recipes == old(recipes) && history == old(history)
    {
      var stored := GetTemplates();
      var index := FindIndex(stored, TemplateId, template.id);
      if 0 <= index {
        stored := stored[index := template];
      } else {
        stored := stored + [template];
      }
      templates := Some(stored);
    }

    /** `deleteTemplate`. */
    method DeleteTemplate(id: string)
      modifies this
      ensures GetTemplates() == RemoveId(old(GetTemplates()), TemplateId, id)
      ensures currentList == old(currentList) && recipes == old(recipes) && history == old(history)
    {
      templates := Some(RemoveId(GetTemplates(), TemplateId, id));
    }

    /** `saveRecipe`. */
    method SaveRecipe(recipe: Recipe)
      modifies this
      ensures GetRecipes() == Upsert(old(GetRecipes()), RecipeId, recipe)
      ensures currentList == old(currentList) && templates == old(templates) && history == old(history)
    {
      var stored := GetRecipes();
      var index := FindIndex(stored, RecipeId, recipe.id);
      if 0 <= index {
        stored := stored[index := recipe];
      } else {
        stored := stored + [recipe];
      }
      recipes := Some(stored);
    }

    /** `deleteRecipe`. */
    method DeleteRecipe(id: string)
      modifies this
      ensures GetRecipes() == RemoveId(old(GetRecipes()), RecipeId, id)
      ensures currentList == old(currentList) && templates == old(templates) && history == old(history)
    {
      recipes := Some(RemoveId(GetRecipes(), RecipeId, id));
    }

    /** `saveToHistory`. */
    method SaveToHistory(list: ShoppingList)
      modifies this
      ensures GetHistory() == WithEntry(old(GetHistory()), list)
      ensures currentList == old(currentList) && templates == old(templates) && recipes == old(recipes)
    {
      var stored := GetHistory();
      stored := [list] + stored;
      stored := stored[..if |stored| < MaxHistoryItems then |stored| else MaxHistoryItems];
      history := Some(stored);
    }
  }
}
