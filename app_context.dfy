/** The client's state container (src/context/AppContext.tsx): the current
    list, templates, recipes and history, and the update each action applies
    once its API call has answered. The server's answers are parameters:
    the item or record it returns, the list `getGroceryItems` returns, and
    for a save the function from the request to the saved record (`None`
    when the call fails). `nowIso` is the clock's `toISOString()`. */
module AppContext {
  import opened Types
  import opened Collections
  import opened CreatedAt
  import opened Helpers

  function ItemId(i: GroceryItem): string { i.id }

  function TemplateId(t: Template): string { t.id }

  function RecipeId(r: Recipe): string { r.id }

  function ListId(l: ShoppingList): string { l.id }

  /** `currentList.map(i => i.id)`. */
  function Ids(items: seq<GroceryItem>): (ids: seq<string>)
    ensures |ids| == |items| && forall i :: 0 <= i < |ids| ==> ids[i] == items[i].id
  {
    seq(|items|, i requires 0 <= i < |items| => items[i].id)
  }

  /** A template's entries as item ids (a bare id, or a snapshot's id). */
  function EntryIds(entries: seq<TemplateEntry>): (ids: seq<string>)
    ensures |ids| == |entries| && forall i :: 0 <= i < |ids| ==> ids[i] == entries[i].ItemId()
  {
    seq(|entries|, i requires 0 <= i < |entries| => entries[i].ItemId())
  }

  /** Each id looked up in the server's list (`find`), missing ones dropped
      (`filter(Boolean)`), in the order of the ids. */
  function Resolve(ids: seq<string>, server: seq<GroceryItem>): seq<GroceryItem>
    decreases |ids|
  {
    if ids == [] then []
    else
      var rest := Resolve(ids[..|ids| - 1], server);
      var i := IndexOf(server, ItemId, ids[|ids| - 1]);
      if 0 <= i then rest + [server[i]] else rest
  }

  /** Resolution keeps the order of the ids: it distributes over
      concatenation. */
  lemma {:induction false} ResolveAppend(a: seq<string>, b: seq<string>, server: seq<GroceryItem>)
    ensures Resolve(a + b, server) == Resolve(a, server) + Resolve(b, server)
    decreases |b|
  {
    if b == [] {
      assert a + b == a;
    } else {
      assert (a + b)[..|a + b| - 1] == a + b[..|b| - 1];
      ResolveAppend(a, b[..|b| - 1], server);
    }
  }

  /** Every resolved item is a server item carrying one of the ids, and
      there are no more items than ids. */
  lemma {:induction false} ResolveMembers(ids: seq<string>, server: seq<GroceryItem>)
    ensures |Resolve(ids, server)| <= |ids|
    ensures forall x :: x in Resolve(ids, server) ==> x in server && x.id in ids
    decreases |ids|
  {
    if ids != [] {
      var p := ids[..|ids| - 1];
      ResolveMembers(p, server);
      assert forall x :: x in p ==> x in ids;
    }
  }

  predicate OnServer(server: seq<GroceryItem>, id: string) {
    exists j :: 0 <= j < |server| && server[j].id == id
  }

  /** When every id is on the server, one item per id, in the order of the
      ids. */
  lemma {:induction false} ResolveAllPresent(ids: seq<string>, server: seq<GroceryItem>)
    requires forall i :: 0 <= i < |ids| ==> OnServer(server, ids[i])
    ensures |Resolve(ids, server)| == |ids|
    ensures forall i :: 0 <= i < |ids| ==> Resolve(ids, server)[i].id == ids[i]
    decreases |ids|
  {
    if ids != [] {
      var p := ids[..|ids| - 1];
      assert forall i :: 0 <= i < |p| ==> p[i] == ids[i];
      ResolveAllPresent(p, server);
      assert OnServer(server, ids[|ids| - 1]);
      var j :| 0 <= j < |server| && server[j].id == ids[|ids| - 1];
      assert ItemId(server[j]) == ids[|ids| - 1];
    }
  }

  /** Saving the list's ids and resolving them against a server that holds
      those very items (under unique ids) gives the list back. */
  lemma {:induction false} ResolveSavedIds(list: seq<GroceryItem>, server: seq<GroceryItem>)
    requires UniqueIds(server, ItemId)
    requires forall x :: x in list ==> x in server
    ensures Resolve(Ids(list), server) == list
    decreases |list|
  {
    if list != [] {
      var p := list[..|list| - 1];
      var last := list[|list| - 1];
      assert Ids(list)[..|list| - 1] == Ids(p);
      ResolveSavedIds(p, server);
      assert last in server;
      var j :| 0 <= j < |server| && server[j] == last;
      var k := IndexOf(server, ItemId, last.id);
      assert ItemId(server[j]) == last.id;
      assert k == j;
    }
  }

  /** A list item with its `checked` flag flipped. */
  function Flipped(item: GroceryItem): GroceryItem {
    item.(checked := !item.checked)
  }

  /** The list after toggling: every entry with the id becomes the first
      such entry flipped; nothing changes when the id is absent. */
  function Toggled(list: seq<GroceryItem>, id: string): seq<GroceryItem> {
    var i := IndexOf(list, ItemId, id);
    if i < 0 then list else ReplaceId(list, ItemId, Flipped(list[i]))
  }

  /** Toggling flips the entry's flag and nothing else; with unique ids,
      toggling twice restores the list. */
  lemma ToggleSpec(list: seq<GroceryItem>, id: string)
    ensures |Toggled(list, id)| == |list|
    ensures forall i :: 0 <= i < |list| && list[i].id != id ==> Toggled(list, id)[i] == list[i]
    ensures UniqueIds(list, ItemId) ==>
      (forall i :: 0 <= i < |list| && list[i].id == id ==> Toggled(list, id)[i] == Flipped(list[i]))
    ensures UniqueIds(list, ItemId) ==> Toggled(Toggled(list, id), id) == list
  {
    var i := IndexOf(list, ItemId, id);
    if 0 <= i && UniqueIds(list, ItemId) {
      var t := Toggled(list, id);
      assert forall j :: 0 <= j < |list| && j != i ==> t[j] == list[j];
      assert t[i] == Flipped(list[i]);
      assert IndexOf(t, ItemId, id) == i;
      assert Toggled(t, id) == list;
    }
  }

  /** The body `saveAsTemplate` posts. */
  datatype NewTemplate = NewTemplate(name: string, createdAt: string, items: seq<string>)

  /** The body `saveCurrentListToHistory` posts. */
  datatype NewShoppingList = NewShoppingList(createdAt: string, items: seq<string>)

  class AppState {
    var currentList: seq<GroceryItem>
    var templates: seq<Template>
    var recipes: seq<Recipe>
    var history: seq<ShoppingList>

    /** The state given to the first render: everything empty. */
    constructor()
      ensures currentList == [] && templates == [] && recipes == [] && history == []
    {
      currentList := [];
      templates := [];
      recipes := [];
      history := [];
    }

    /** `addItem`: the server's item goes at the end. */
    method AddItem(added: GroceryItem)
      modifies this
      ensures currentList == old(currentList) + [added]
      ensures templates == old(templates) && recipes == old(recipes) && history == old(history)
    {
      currentList := currentList + [added];
    }

    /** `updateItem`. */
    method UpdateItem(item: GroceryItem)
      modifies this
      ensures currentList == ReplaceId(old(currentList), ItemId, item)
      ensures templates == old(templates) && recipes == old(recipes) && history == old(history)
    {
      currentList := ReplaceId(currentList, ItemId, item);
    }

    /** `removeItem`. */
    method RemoveItem(id: string)
      modifies this
      ensures currentList == RemoveId(old(currentList), ItemId, id)
      ensures templates == old(templates) && recipes == old(recipes) && history == old(history)
    {
      currentList := RemoveId(currentList, ItemId, id);
    }

    /** `toggleItemCheck`: returns the item sent to the server, `None` when
        the id is absent and nothing is sent. */
    method ToggleItemCheck(id: string) returns (sent: Option<GroceryItem>)
      modifies this
      ensures sent.None? <==> forall i :: 0 <= i < |old(currentList)| ==> old(currentList)[i].id != id
      ensures sent.Some? ==> sent.value.id == id
      ensures currentList == Toggled(old(currentList), id)
      ensures templates == old(templates) && recipes == old(recipes) && history == old(history)
    {
      var index := FindIndex(currentList, ItemId, id);
      if index < 0 {
        sent := None;
      } else {
        var updated := Flipped(currentList[index]);
        sent := Some(updated);
        currentList := ReplaceId(currentList, ItemId, updated);
      }
    }

    /** `clearList`: one delete request per item, in list order, then the
        empty list. Returns the ids deleted. */
    method ClearList() returns (deleted: seq<string>)
      modifies this
      ensures deleted == Ids(old(currentList))
      ensures currentList == []
      ensures templates == old(templates) && recipes == old(recipes) && history == old(history)
    {
      deleted := [];
      for i := 0 to |currentList|
        invariant deleted == Ids(currentList[..i])
      {
        deleted := deleted + [currentList[i].id];
        assert Ids(currentList[..i + 1]) == Ids(currentList[..i]) + [currentList[i].id];
      }
      assert currentList[..|currentList|] == currentList;
      currentList := [];
    }

    /** `saveAsTemplate`: nothing for an empty list; otherwise posts the
        item ids and appends what the server saved, if it saved. */
    method SaveAsTemplate(name: string, nowIso: string, api: NewTemplate -> Option<Template>)
      returns (request: Option<NewTemplate>)
      modifies this
      ensures old(currentList) == [] ==> request.None? && templates == old(templates)
      ensures old(currentList) != [] ==>
        request == Some(NewTemplate(name, MySqlForm(nowIso), Ids(old(currentList))))
        && templates == old(templates) + (match api(request.value) case Some(t) => [t] case None => [])
      ensures currentList == old(currentList) && recipes == old(recipes) && history == old(history)
    {
      if |currentList| == 0 {
        request := None;
        return;
      }
      var body := NewTemplate(name, MySqlForm(nowIso), Ids(currentList));
      request := Some(body);
      match api(body)
      case Some(saved) => templates := templates + [saved];
      case None =>
    }

    /** `deleteTemplate`. */
    method DeleteTemplate(id: string)
      modifies this
      ensures templates == RemoveId(old(templates), TemplateId, id)
      ensures currentList == old(currentList) && recipes == old(recipes) && history == old(history)
    {
      templates := RemoveId(templates, TemplateId, id);
    }

    /** `loadTemplate`: the list becomes the template's items, as the
        server's list holds them. */
    method LoadTemplate(templateId: string, server: seq<GroceryItem>)
      modifies this
      ensures var t := IndexOf(old(templates), TemplateId, templateId);
        currentList == if t < 0 then old(currentList) else Resolve(EntryIds(old(templates)[t].items), server)
      ensures templates == old(templates) && recipes == old(recipes) && history == old(history)
    {
      var t := FindIndex(templates, TemplateId, templateId);
      if 0 <= t {
        currentList := Resolve(EntryIds(templates[t].items), server);
      }
    }

    /** `addTemplateToList`: the template's items go after the list. */
    method AddTemplateToList(templateId: string, server: seq<GroceryItem>)
      modifies this
      ensures var t := IndexOf(old(templates), TemplateId, templateId);
        currentList == if t < 0 then old(currentList)
                       else old(currentList) + Resolve(EntryIds(old(templates)[t].items), server)
      ensures templates == old(templates) && recipes == old(recipes) && history == old(history)
    {
      var t := FindIndex(templates, TemplateId, templateId);
      if 0 <= t {
        currentList := currentList + Resolve(EntryIds(templates[t].items), server);
      }
    }

    /** `addRecipe`: the server's recipe goes at the end. */
    method AddRecipe(added: Recipe)
      modifies this
      ensures recipes == old(recipes) + [added]
      ensures currentList == old(currentList) && templates == old(templates) && history == old(history)
    {
      recipes := recipes + [added];
    }

    /** `updateRecipe`: rewrites createdAt, then replaces the recipe of that
        id. Returns the recipe sent. */
    method UpdateRecipe(recipe: Recipe, iso: IsoOracle, nowIso: string) returns (sent: Recipe)
      modifies this
      ensures sent == recipe.(createdAt := ClientRewrite(recipe.createdAt, iso, nowIso))
      ensures recipes == ReplaceId(old(recipes), RecipeId, sent)
      ensures currentList == old(currentList) && templates == old(templates) && history == old(history)
    {
      sent := recipe;
      if sent.createdAt == "" {
        sent := sent.(createdAt := MySqlForm(nowIso));
      } else if LooksIso(sent.createdAt) {
        match iso(sent.createdAt)
        case Some(t) => sent := sent.(createdAt := MySqlForm(t));
        case None => sent := sent.(createdAt := MySqlForm(nowIso));
      }
      recipes := ReplaceId(recipes, RecipeId, sent);
    }

    /** `deleteRecipe`. */
    method DeleteRecipe(id: string)
      modifies this
      ensures recipes == RemoveId(old(recipes), RecipeId, id)
      ensures currentList == old(currentList) && templates == old(templates) && history == old(history)
    {
      recipes := RemoveId(recipes, RecipeId, id);
    }

    /** `addIngredientsToList`: one unchecked item per ingredient, after the
        list, with the ids the server gives them. */
    method AddIngredientsToList(recipeId: string, newId: nat -> string)
      modifies this
      ensures var r := IndexOf(old(recipes), RecipeId, recipeId);
        currentList == if r < 0 then old(currentList)
                       else old(currentList) + IngredientsToGroceryItems(old(recipes)[r].ingredients, newId)
      ensures templates == old(templates) && recipes == old(recipes) && history == old(history)
    {
      var r := FindIndex(recipes, RecipeId, recipeId);
      if 0 <= r {
        currentList := currentList + IngredientsToGroceryItems(recipes[r].ingredients, newId);
      }
    }

    /** `saveCurrentListToHistory`: nothing for an empty list; otherwise
        posts the item ids and puts the saved list first. */
    method SaveCurrentListToHistory(nowIso: string, api: NewShoppingList -> ShoppingList)
      returns (request: Option<NewShoppingList>)
      modifies this
      ensures old(currentList) == [] ==> request.None? && history == old(history)
      ensures old(currentList) != [] ==>
        request == Some(NewShoppingList(MySqlForm(nowIso), Ids(old(currentList))))
        && history == [api(request.value)] + old(history)
      ensures currentList == old(currentList) && templates == old(templates) && recipes == old(recipes)
    {
      if |currentList| == 0 {
        request := None;
        return;
      }
      var body := NewShoppingList(MySqlForm(nowIso), Ids(currentList));
      request := Some(body);
      history := [api(body)] + history;
    }

    /** `loadFromHistory`. */
    method LoadFromHistory(historyId: string, server: seq<GroceryItem>)
      modifies this
      ensures var h := IndexOf(old(history), ListId, historyId);
        currentList == if h < 0 then old(currentList) else Resolve(old(history)[h].items, server)
      ensures templates == old(templates) && recipes == old(recipes) && history == old(history)
    {
      var h := FindIndex(history, ListId, historyId);
      if 0 <= h {
        currentList := Resolve(history[h].items, server);
      }
    }
  }
}
