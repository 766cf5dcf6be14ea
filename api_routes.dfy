/** The Express handlers of api/routes/index.js over in-memory tables. Each
    handler's chain of SQL callbacks is one atomic step on the tables; a
    table is a sequence of rows, a `DELETE … WHERE c = ?` removes every row
    with that column value, an `UPDATE … WHERE id = ?` rewrites every row
    with that id, and an insert appends. `crypto.randomUUID()` is an id
    parameter that no row of its table carries yet.

    Request bodies are JSON: a field that may be absent is an `Option`, and
    JavaScript truthiness is spelled out (the empty string and the number
    0 are falsy). */
module ApiRoutes {
  import opened Types
  import opened Collections
  import opened CreatedAt
  import opened RowGrouping

  datatype TemplateRow = TemplateRow(id: string, name: string, createdAt: string)

  /** A `template_items` or `shopping_list_items` row: a parent id and an
      item id. */
  datatype Link = Link(parent: string, child: string)

  datatype RecipeRow = RecipeRow(
    id: string,
    name: string,
    instructions: Option<string>,
    image: Option<string>,
    createdAt: string)

  datatype IngredientRow = IngredientRow(id: string, recipeId: string, name: string, quantity: int, unit: string)

  datatype ListRow = ListRow(id: string, createdAt: string)

  function ItemId(g: GroceryItem): string { g.id }
  function TemplateRowId(t: TemplateRow): string { t.id }
  function RecipeRowId(r: RecipeRow): string { r.id }
  function ListRowId(l: ListRow): string { l.id }
  function LinkParent(l: Link): string { l.parent }
  function LinkChild(l: Link): string { l.child }
  function IngredientRecipeId(i: IngredientRow): string { i.recipeId }
  function IngredientSelf(i: IngredientRow): IngredientRow { i }

  /** The request bodies. */
  datatype ItemBody = ItemBody(
    name: Option<string>,
    quantity: Option<int>,
    unit: Option<string>,
    checked: Option<bool>,
    category: Option<string>)

  datatype TemplateBody = TemplateBody(name: Option<string>, createdAt: Option<string>, items: Option<seq<string>>)

  datatype RecipeBody = RecipeBody(
    name: Option<string>,
    instructions: Option<string>,
    image: Option<string>,
    createdAt: Option<string>,
    ingredients: Option<seq<Ingredient>>)

  datatype ListBody = ListBody(createdAt: Option<string>, items: Option<seq<string>>)

  /** What GET `/templates` answers per template. */
  datatype TemplateView = TemplateView(id: string, name: string, createdAt: string, items: seq<TemplateItem>)

  /** What GET `/recipes` answers per recipe: the row and its ingredient rows. */
  datatype RecipeView = RecipeView(row: RecipeRow, ingredients: seq<IngredientRow>)

  /** What GET `/shopping-lists` answers per list: the row and its item ids. */
  datatype ListView = ListView(row: ListRow, items: seq<string>)

  /** The failures of POST `/templates`' three queries that the model
      follows; the other handlers' database errors are not modelled. */
  datatype TemplateFault = NoFault | InsertTemplateFails | CheckFails | InsertLinksFails

  /** A string field is truthy when present and non-empty. */
  predicate Truthy(s: Option<string>) {
    s.Some? && s.value != ""
  }

  /** A number field is truthy when present and non-zero. */
  predicate TruthyNumber(n: Option<int>) {
    n.Some? && n.value != 0
  }

  /** `!name || !quantity || !unit` rejects the item. */
  predicate ValidItemBody(b: ItemBody) {
    Truthy(b.name) && TruthyNumber(b.quantity) && Truthy(b.unit)
  }

  /** `!name || !createdAt || !Array.isArray(items)` rejects the template. */
  predicate ValidTemplateBody(b: TemplateBody) {
    Truthy(b.name) && Truthy(b.createdAt) && b.items.Some?
  }

  /** `!name || !createdAt || !Array.isArray(ingredients)` rejects the recipe. */
  predicate ValidRecipeBody(b: RecipeBody) {
    Truthy(b.name) && Truthy(b.createdAt) && b.ingredients.Some?
  }

  /** `!createdAt || !Array.isArray(items)` rejects the list. */
  predicate ValidListBody(b: ListBody) {
    Truthy(b.createdAt) && b.items.Some?
  }

  /** The row POST `/grocery-items` stores and answers: `checked ?? false`,
      `category ?? null`. */
  function NewItem(id: string, b: ItemBody): GroceryItem
    requires ValidItemBody(b)
  {
    GroceryItem(id, b.name.value, b.quantity.value, b.unit.value,
      if b.checked.Some? then b.checked.value else false, b.category)
  }

  /** Some row of the table carries the id. */
  predicate HasItem(items: seq<GroceryItem>, id: string) {
    exists j :: 0 <= j < |items| && items[j].id == id
  }

  /** The first row carrying a present id. */
  function ItemWith(items: seq<GroceryItem>, id: string): (g: GroceryItem)
    requires HasItem(items, id)
    ensures g in items && g.id == id
  {
    items[IndexOf(items, ItemId, id)]
  }

  /** The item columns a template shows. */
  function Snapshot(g: GroceryItem): TemplateItem {
    TemplateItem(g.id, g.name, g.quantity, g.unit)
  }

  /** `SELECT * FROM grocery_items WHERE id IN (?)`, as the snapshots
      POST `/templates` answers with: table order, one per row. */
  function Found(items: seq<GroceryItem>, ids: seq<string>): (r: seq<TemplateItem>)
    ensures forall t :: t in r ==> exists j :: 0 <= j < |items| && items[j].id in ids && t == Snapshot(items[j])
    ensures forall j :: 0 <= j < |items| && items[j].id in ids ==> Snapshot(items[j]) in r
    decreases |items|
  {
    if items == [] then []
    else
      var n := |items| - 1;
      var g := items[n];
      var rest := Found(items[..n], ids);
      assert forall j :: 0 <= j < n ==> items[..n][j] == items[j];
      rest + (if g.id in ids then [Snapshot(g)] else [])
  }

  function SnapshotIds(found: seq<TemplateItem>): (r: seq<string>)
    ensures |r| == |found| && forall i :: 0 <= i < |found| ==> r[i] == found[i].id
  {
    seq(|found|, i requires 0 <= i < |found| => found[i].id)
  }

  /** `items.filter(id => !existingIds.includes(id))`, in request order. */
  function Missing(ids: seq<string>, existing: seq<string>): seq<string>
    decreases |ids|
  {
    if ids == [] then []
    else
      var n := |ids| - 1;
      Missing(ids[..n], existing) + (if ids[n] in existing then [] else [ids[n]])
  }

  /** The `missingIds` of a request. */
  function MissingIds(ids: seq<string>, items: seq<GroceryItem>): seq<string> {
    Missing(ids, SnapshotIds(Found(items, ids)))
  }

  /** The missing ids are exactly the requested ids no row carries. */
  lemma {:induction false} MissingIdsSpec(ids: seq<string>, items: seq<GroceryItem>)
    ensures forall x :: x in MissingIds(ids, items) <==> x in ids && !HasItem(items, x)
  {
    var existing := SnapshotIds(Found(items, ids));
    forall x | x in ids
      ensures x in existing <==> HasItem(items, x)
    {
      if x in existing {
        var k :| 0 <= k < |existing| && existing[k] == x;
        var t := Found(items, ids)[k];
        assert t in Found(items, ids);
        var j :| 0 <= j < |items| && items[j].id in ids && t == Snapshot(items[j]);
        assert items[j].id == x;
      }
      if HasItem(items, x) {
        var j :| 0 <= j < |items| && items[j].id == x;
        var t := Snapshot(items[j]);
        assert t in Found(items, ids);
        var k :| 0 <= k < |Found(items, ids)| && Found(items, ids)[k] == t;
        assert existing[k] == x;
      }
    }
    MissingMembers(ids, existing);
  }

  lemma {:induction false} MissingMembers(ids: seq<string>, existing: seq<string>)
    ensures forall x :: x in Missing(ids, existing) <==> x in ids && x !in existing
    decreases |ids|
  {
    if ids != [] {
      var n := |ids| - 1;
      MissingMembers(ids[..n], existing);
      assert ids == ids[..n] + [ids[n]];
    }
  }

  /** The template rows POST `/templates` links: `[templateId, itemId]`. */
  function Links(parent: string, ids: seq<string>): (r: seq<Link>)
    ensures |r| == |ids|
    ensures forall i :: 0 <= i < |r| ==> r[i].parent == parent && r[i].child == ids[i]
  {
    seq(|ids|, i requires 0 <= i < |ids| => Link(parent, ids[i]))
  }

  /** One joined row of GET `/templates`: the template id and the item's
      columns. */
  datatype JoinRow = JoinRow(templateId: string, item: TemplateItem)

  function JoinTemplateId(r: JoinRow): string { r.templateId }
  function JoinItem(r: JoinRow): TemplateItem { r.item }

  /** `template_items JOIN grocery_items ON item_id = id`, link by link. The
      `WHERE template_id IN (…)` restriction keeps the rows of existing
      templates, the only groups the handler reads. */
  function Join(links: seq<Link>, items: seq<GroceryItem>): seq<JoinRow>
    decreases |links|
  {
    if links == [] then []
    else Join(links[..|links| - 1], items) + JoinLink(links[|links| - 1], items)
  }

  /** The joined rows of one link: one per matching item, under the link's template. */
  function JoinLink(link: Link, items: seq<GroceryItem>): seq<JoinRow> {
    var matches := Children(items, ItemId, Snapshot, link.child);
    seq(|matches|, i requires 0 <= i < |matches| => JoinRow(link.parent, matches[i]))
  }

  lemma {:induction false} JoinAppend(a: seq<Link>, b: seq<Link>, items: seq<GroceryItem>)
    ensures Join(a + b, items) == Join(a, items) + Join(b, items)
    decreases |b|
  {
    if b == [] {
      assert a + b == a;
    } else {
      var n := |b| - 1;
      assert (a + b)[..|a + b| - 1] == a + b[..n];
      assert (a + b)[|a + b| - 1] == b[n];
      JoinAppend(a, b[..n], items);
      calc {
        Join(a + b, items);
        Join(a + b[..n], items) + JoinLink(b[n], items);
        Join(a, items) + Join(b[..n], items) + JoinLink(b[n], items);
      }
    }
  }

  /** Every joined row comes from a link of its template. */
  lemma {:induction false} JoinParents(links: seq<Link>, items: seq<GroceryItem>, key: string)
    requires forall i :: 0 <= i < |links| ==> links[i].parent != key
    ensures forall i :: 0 <= i < |Join(links, items)| ==> Join(links, items)[i].templateId != key
    decreases |links|
  {
    if links != [] {
      JoinParents(links[..|links| - 1], items, key);
    }
  }

  /** With unique item ids, an id that is present matches exactly one row. */
  lemma MatchUnique(items: seq<GroceryItem>, id: string)
    requires UniqueIds(items, ItemId)
    requires HasItem(items, id)
    ensures Children(items, ItemId, Snapshot, id) == [Snapshot(ItemWith(items, id))]
  {
    var k := IndexOf(items, ItemId, id);
    var before, after := items[..k], items[k + 1..];
    assert items == before + [items[k]] + after;
    assert forall j :: 0 <= j < |before| ==> ItemId(before[j]) != id by {
      forall j | 0 <= j < |before| ensures ItemId(before[j]) != id {
        assert before[j] == items[j];
      }
    }
    assert forall j :: 0 <= j < |after| ==> ItemId(after[j]) != id by {
      forall j | 0 <= j < |after| ensures ItemId(after[j]) != id {
        assert after[j] == items[k + 1 + j];
      }
    }
    ChildrenNone(before, ItemId, Snapshot, id);
    ChildrenNone(after, ItemId, Snapshot, id);
    assert [items[k]][..0] == [];
    assert Children([items[k]], ItemId, Snapshot, id) == [Snapshot(items[k])];
    ChildrenAppend(before, [items[k]], ItemId, Snapshot, id);
    ChildrenAppend(before + [items[k]], after, ItemId, Snapshot, id);
  }

  /** The items a template's links join to, when each linked id is present
      once: one snapshot per link, in link order. */
  lemma {:induction false} JoinedSnapshots(t: string, ids: seq<string>, items: seq<GroceryItem>)
    requires UniqueIds(items, ItemId)
    requires forall i :: 0 <= i < |ids| ==> HasItem(items, ids[i])
    ensures |Join(Links(t, ids), items)| == |ids|
    ensures forall i :: 0 <= i < |ids| ==> Join(Links(t, ids), items)[i] == JoinRow(t, Snapshot(ItemWith(items, ids[i])))
    decreases |ids|
  {
    if ids != [] {
      var n := |ids| - 1;
      assert Links(t, ids)[..n] == Links(t, ids[..n]);
      JoinedSnapshots(t, ids[..n], items);
      MatchUnique(items, ids[n]);
    }
  }

  /** Reading back a saved template: when every requested id is an item and
      item ids are unique, GET `/templates` shows the new template's items
      as the requested ids' snapshots, in request order and with repeats. */
  lemma PostedTemplateReadsBack(links: seq<Link>, items: seq<GroceryItem>, t: string, ids: seq<string>)
    requires forall i :: 0 <= i < |links| ==> links[i].parent != t
    requires UniqueIds(items, ItemId)
    requires forall i :: 0 <= i < |ids| ==> HasItem(items, ids[i])
    ensures Children(Join(links + Links(t, ids), items), JoinTemplateId, JoinItem, t) ==
      seq(|ids|, i requires 0 <= i < |ids| && HasItem(items, ids[i]) => Snapshot(ItemWith(items, ids[i])))
  {
    var added := Join(Links(t, ids), items);
    JoinAppend(links, Links(t, ids), items);
    ChildrenAppend(Join(links, items), added, JoinTemplateId, JoinItem, t);
    JoinParents(links, items, t);
    ChildrenNone(Join(links, items), JoinTemplateId, JoinItem, t);
    JoinedSnapshots(t, ids, items);
    ChildrenAllKeyed(added, JoinTemplateId, JoinItem, t);
  }

  /** The ingredient rows a POST or PUT of a recipe inserts: a fresh id per
      ingredient, the ingredient's id dropped. */
  function IngredientRows(recipeId: string, ingredients: seq<Ingredient>, newId: nat -> string): (r: seq<IngredientRow>)
    ensures |r| == |ingredients|
    ensures forall i :: 0 <= i < |r| ==> r[i].recipeId == recipeId
  {
    seq(|ingredients|, i requires 0 <= i < |ingredients| =>
      IngredientRow(newId(i), recipeId, ingredients[i].name, ingredients[i].quantity, ingredients[i].unit))
  }

  /** A DELETE answers 404 exactly when it removed nothing. */
  lemma DeleteStatus<T>(xs: seq<T>, idOf: T -> string, id: string)
    ensures |RemoveId(xs, idOf, id)| == |xs| <==> forall j :: 0 <= j < |xs| ==> idOf(xs[j]) != id
  {
    RemoveIdShrinks(xs, idOf, id);
  }

  // ---------------------------------------------------------------------
  // The JSON the GET handlers answer, as the client reads it.

  datatype Json = JText(s: string) | JNull | JIds(ids: seq<string>) | JIngredients(rows: seq<IngredientRow>)
                | JItems(items: seq<TemplateItem>)

  function OptionalText(o: Option<string>): Json {
    if o.Some? then JText(o.value) else JNull
  }

  /** `{ ...l, items }`: the row's columns under their column names, then
      the item ids. */
  function ListViewJson(v: ListView): map<string, Json> {
    map["id" := JText(v.row.id), "created_at" := JText(v.row.createdAt), "items" := JIds(v.items)]
  }

  /** `{ ...r, ingredients }`. */
  function RecipeViewJson(v: RecipeView): map<string, Json> {
    map["id" := JText(v.row.id), "name" := JText(v.row.name), "instructions" := OptionalText(v.row.instructions),
        "image" := OptionalText(v.row.image), "created_at" := JText(v.row.createdAt),
        "ingredients" := JIngredients(v.ingredients)]
  }

  /** GET `/templates` names its fields one by one, renaming the column:
      `createdAt: t.created_at`. */
  function TemplateViewJson(v: TemplateView): map<string, Json> {
    map["id" := JText(v.id), "name" := JText(v.name), "createdAt" := JText(v.createdAt), "items" := JItems(v.items)]
  }

  /** The list and recipe answers with the column renamed as GET
      `/templates` does it. */
  function CorrectedListViewJson(v: ListView): map<string, Json> {
    map["id" := JText(v.row.id), "createdAt" := JText(v.row.createdAt), "items" := JIds(v.items)]
  }

  function CorrectedRecipeViewJson(v: RecipeView): map<string, Json> {
    map["id" := JText(v.row.id), "name" := JText(v.row.name), "instructions" := OptionalText(v.row.instructions),
        "image" := OptionalText(v.row.image), "createdAt" := JText(v.row.createdAt),
        "ingredients" := JIngredients(v.ingredients)]
  }

  /** The client's `x.createdAt` on an answer object: `None` is `undefined`. */
  function ClientCreatedAt(o: map<string, Json>): Option<string> {
    if "createdAt" in o && o["createdAt"].JText? then Some(o["createdAt"].s) else None
  }

  /** The date as `updateRecipe` tests it: `undefined` is falsy, like "". */
  function DateOrFalsy(d: Option<string>): string {
    if d.Some? then d.value else ""
  }

  /** As written, a list or recipe read from GET `/shopping-lists` or GET
      `/recipes` has no `createdAt`: the date travels as `created_at`. A
      recipe read that way and then edited gets the current time as its
      date, whatever date it was stored with. */
  lemma AsWrittenViewsLackCreatedAt(l: ListView, r: RecipeView, iso: IsoOracle, nowIso: string)
    ensures ClientCreatedAt(ListViewJson(l)) == None
    ensures ClientCreatedAt(RecipeViewJson(r)) == None
    ensures ClientRewrite(DateOrFalsy(ClientCreatedAt(RecipeViewJson(r))), iso, nowIso) == MySqlForm(nowIso)
  {
  }

  /** A template read from GET `/templates` carries its stored date. */
  lemma TemplatesCarryCreatedAt(v: TemplateView)
    ensures ClientCreatedAt(TemplateViewJson(v)) == Some(v.createdAt)
  {
  }

  /** With the column renamed, the client reads back the stored date of a
      list or recipe, and editing a recipe keeps a stored MySQL date. */
  lemma CorrectedViewsCarryCreatedAt(l: ListView, r: RecipeView, iso: IsoOracle, nowIso: string)
    ensures ClientCreatedAt(CorrectedListViewJson(l)) == Some(l.row.createdAt)
    ensures ClientCreatedAt(CorrectedRecipeViewJson(r)) == Some(r.row.createdAt)
    ensures IsMySqlDateTime(r.row.createdAt) ==>
      ClientRewrite(DateOrFalsy(ClientCreatedAt(CorrectedRecipeViewJson(r))), iso, nowIso) == r.row.createdAt
  {
  }

  class Database {
    var groceryItems: seq<GroceryItem>
    var templates: seq<TemplateRow>
    var templateItems: seq<Link>
    var recipes: seq<RecipeRow>
    var ingredients: seq<IngredientRow>
    var shoppingLists: seq<ListRow>
    var shoppingListItems: seq<Link>

    constructor()
      ensures groceryItems == [] && templates == [] && templateItems == []
      ensures recipes == [] && ingredients == [] && shoppingLists == [] && shoppingListItems == []
    {
      groceryItems := [];
      templates := [];
      templateItems := [];
      recipes := [];
      ingredients := [];
      shoppingLists := [];
      shoppingListItems := [];
    }

    /** POST `/grocery-items`. */
    method PostGroceryItem(body: ItemBody, id: string) returns (status: int, created: Option<GroceryItem>)
      requires !HasItem(groceryItems, id)
      modifies this
      ensures !ValidItemBody(body) ==> status == 400 && created == None && groceryItems == old(groceryItems)
      ensures ValidItemBody(body) ==>
        status == 201 && created == Some(NewItem(id, body)) && groceryItems == old(groceryItems) + [NewItem(id, body)]
      ensures templates == old(templates) && templateItems == old(templateItems) && recipes == old(recipes)
      ensures ingredients == old(ingredients) && shoppingLists == old(shoppingLists)
      ensures shoppingListItems == old(shoppingListItems)
    {
      if !ValidItemBody(body) {
        return 400, None;
      }
      var item := NewItem(id, body);
      groceryItems := groceryItems + [item];
      return 201, Some(item);
    }

    /** DELETE `/grocery-items/:id`. */
    method DeleteGroceryItem(id: string) returns (status: int)
      modifies this
      ensures groceryItems == RemoveId(old(groceryItems), ItemId, id)
      ensures status == 404 <==> !HasItem(old(groceryItems), id)
      ensures status == 404 || status == 200
      ensures templates == old(templates) && templateItems == old(templateItems) && recipes == old(recipes)
      ensures ingredients == old(ingredients) && shoppingLists == old(shoppingLists)
      ensures shoppingListItems == old(shoppingListItems)
    {
      var before := groceryItems;
      groceryItems := RemoveId(groceryItems, ItemId, id);
      DeleteStatus(before, ItemId, id);
      status := if |groceryItems| == |before| then 404 else 200;
    }

    /** PUT `/grocery-items/:id`: every row with the id takes the body's
      columns; 404, and nothing changed, when there is none. */
    method PutGroceryItem(id: string, name: string, quantity: int, unit: string, checked: bool, category: Option<string>)
      returns (status: int)
      modifies this
      ensures var row := GroceryItem(id, name, quantity, unit, checked, category);
        groceryItems == ReplaceId(old(groceryItems), ItemId, row)
      ensures status == 404 <==> !HasItem(old(groceryItems), id)
      ensures status == 404 ==> groceryItems == old(groceryItems)
      ensures status == 404 || status == 200
      ensures templates == old(templates) && templateItems == old(templateItems) && recipes == old(recipes)
      ensures ingredients == old(ingredients) && shoppingLists == old(shoppingLists)
      ensures shoppingListItems == old(shoppingListItems)
    {
      var row := GroceryItem(id, name, quantity, unit, checked, category);
      var index := FindIndex(groceryItems, ItemId, id);
      groceryItems := ReplaceId(groceryItems, ItemId, row);
      status := if index < 0 then 404 else 200;
    }

    /** GET `/templates`: one view per template row, in row order, each with
      its joined items grouped under it. */
    method GetTemplates() returns (result: seq<TemplateView>)
      ensures |result| == |templates|
      ensures forall i :: 0 <= i < |result| ==>
        && result[i].id == templates[i].id
        && result[i].name == templates[i].name
        && result[i].createdAt == templates[i].createdAt
        && result[i].items == Children(Join(templateItems, groceryItems), JoinTemplateId, JoinItem, templates[i].id)
    {
      if |templates| == 0 {
        return [];
      }
      var groups := GroupBy(Join(templateItems, groceryItems), JoinTemplateId, JoinItem);
      result := seq(|templates|, i requires 0 <= i < |templates| reads this =>
        TemplateView(templates[i].id, templates[i].name, templates[i].createdAt, Lookup(groups, templates[i].id)));
    }

    /** POST `/templates`: insert the template, check the requested item ids,
      link them; any failure after the insert deletes the template again. */
    method PostTemplate(body: TemplateBody, templateId: string, iso: IsoOracle, fault: TemplateFault)
      returns (status: int, created: Option<TemplateView>, missingIds: seq<string>)
      requires forall i :: 0 <= i < |templates| ==> templates[i].id != templateId
      modifies this
      ensures status == 201 || status == 400 || status == 500
      ensures !ValidTemplateBody(body) ==> status == 400 && missingIds == []
      ensures status != 201 ==> created == None && templates == old(templates) && templateItems == old(templateItems)
      ensures ValidTemplateBody(body) && status == 400 ==>
        missingIds == MissingIds(body.items.value, groceryItems) && missingIds != []
      ensures ValidTemplateBody(body) && fault == NoFault ==>
        (status == 201 <==> MissingIds(body.items.value, groceryItems) == [])
      ensures status == 201 ==>
        && ValidTemplateBody(body)
        && templates == old(templates) + [TemplateRow(templateId, body.name.value, ServerRewrite(body.createdAt.value, iso))]
        && templateItems == old(templateItems) + Links(templateId, body.items.value)
        && created == Some(TemplateView(templateId, body.name.value, body.createdAt.value,
             Found(groceryItems, body.items.value)))
      ensures groceryItems == old(groceryItems) && recipes == old(recipes) && ingredients == old(ingredients)
      ensures shoppingLists == old(shoppingLists) && shoppingListItems == old(shoppingListItems)
    {
      if !ValidTemplateBody(body) {
        return 400, None, [];
      }
      var name, createdAt, ids := body.name.value, body.createdAt.value, body.items.value;
      var formatted := ServerRewrite(createdAt, iso);
      if fault == InsertTemplateFails {
        return 500, None, [];
      }
      var before := templates;
      templates := templates + [TemplateRow(templateId, name, formatted)];
      RemoveIdAppend(before, [TemplateRow(templateId, name, formatted)], TemplateRowId, templateId);
      RemoveIdAbsent(before, TemplateRowId, templateId);
      if |ids| == 0 {
        assert Links(templateId, ids) == [];
        assert Found(groceryItems, ids) == [] by {
          FoundNothing(groceryItems);
        }
        return 201, Some(TemplateView(templateId, name, createdAt, [])), [];
      }
      if fault == CheckFails {
        templates := RemoveId(templates, TemplateRowId, templateId);
        return 500, None, [];
      }
      var found := Found(groceryItems, ids);
      missingIds := Missing(ids, SnapshotIds(found));
      if |missingIds| > 0 {
        templates := RemoveId(templates, TemplateRowId, templateId);
        return 400, None, missingIds;
      }
      if fault == InsertLinksFails {
        templates := RemoveId(templates, TemplateRowId, templateId);
        return 500, None, [];
      }
      templateItems := templateItems + Links(templateId, ids);
      return 201, Some(TemplateView(templateId, name, createdAt, found)), [];
    }

    /** PUT `/templates/:id`: the row takes the body's name and createdAt as
      sent (this handler does not rewrite the date), and the template's
      links are replaced wholesale by the requested ids, none when `items`
      is not an array. It answers the ids it linked. */
    method PutTemplate(id: string, name: string, createdAt: string, items: Option<seq<string>>)
      returns (linked: seq<string>)
      modifies this
      ensures templates == ReplaceId(old(templates), TemplateRowId, TemplateRow(id, name, createdAt))
      ensures linked == if items.Some? then items.value else []
      ensures templateItems == RemoveId(old(templateItems), LinkParent, id) + Links(id, linked)
      ensures groceryItems == old(groceryItems) && recipes == old(recipes) && ingredients == old(ingredients)
      ensures shoppingLists == old(shoppingLists) && shoppingListItems == old(shoppingListItems)
    {
      templates := ReplaceId(templates, TemplateRowId, TemplateRow(id, name, createdAt));
      templateItems := RemoveId(templateItems, LinkParent, id);
      if items.None? || |items.value| == 0 {
        return [];
      }
      linked := items.value;
      templateItems := templateItems + Links(id, linked);
    }

    /** DELETE `/templates/:id`: 404 exactly when no row has the id. */
    method DeleteTemplate(id: string) returns (status: int)
      modifies this
      ensures templates == RemoveId(old(templates), TemplateRowId, id)
      ensures status == 404 <==> forall j :: 0 <= j < |old(templates)| ==> old(templates)[j].id != id
      ensures status == 404 || status == 200
      ensures templateItems == old(templateItems)
      ensures groceryItems == old(groceryItems) && recipes == old(recipes) && ingredients == old(ingredients)
      ensures shoppingLists == old(shoppingLists) && shoppingListItems == old(shoppingListItems)
    {
      var before := templates;
      templates := RemoveId(templates, TemplateRowId, id);
      DeleteStatus(before, TemplateRowId, id);
      status := if |templates| == |before| then 404 else 200;
    }

    /** GET `/recipes`: every recipe row, in row order, with its ingredient
      rows grouped under it. */
    method GetRecipes() returns (result: seq<RecipeView>)
      ensures |result| == |recipes|
      ensures forall i :: 0 <= i < |result| ==>
        result[i] == RecipeView(recipes[i], Children(ingredients, IngredientRecipeId, IngredientSelf, recipes[i].id))
    {
      if |recipes| == 0 {
        return [];
      }
      var groups := GroupBy(ingredients, IngredientRecipeId, IngredientSelf);
      result := seq(|recipes|, i requires 0 <= i < |recipes| reads this =>
        RecipeView(recipes[i], Lookup(groups, recipes[i].id)));
    }

    /** POST `/recipes`: insert the recipe, then its ingredients under fresh
      ids. A failed ingredient insert answers 500 and, unlike POST
      `/templates`, leaves the recipe row in place. */
    method PostRecipe(body: RecipeBody, recipeId: string, newId: nat -> string, iso: IsoOracle, ingredientsFail: bool)
      returns (status: int, created: Option<Recipe>)
      requires forall i :: 0 <= i < |recipes| ==> recipes[i].id != recipeId
      modifies this
      ensures !ValidRecipeBody(body) ==>
        status == 400 && created == None && recipes == old(recipes) && ingredients == old(ingredients)
      ensures ValidRecipeBody(body) ==>
        recipes == old(recipes) + [RecipeRow(recipeId, body.name.value, body.instructions, body.image,
          ServerRewrite(body.createdAt.value, iso))]
      ensures ValidRecipeBody(body) ==>
        (status == 201 <==> (body.ingredients.value == [] || !ingredientsFail))
      ensures status == 201 ==>
        && ValidRecipeBody(body)
        && ingredients == old(ingredients) + IngredientRows(recipeId, body.ingredients.value, newId)
        && created == Some(Recipe(recipeId, body.name.value, body.ingredients.value, body.instructions, body.image,
             body.createdAt.value))
      ensures status != 201 ==> created == None && ingredients == old(ingredients)
      ensures groceryItems == old(groceryItems) && templates == old(templates) && templateItems == old(templateItems)
      ensures shoppingLists == old(shoppingLists) && shoppingListItems == old(shoppingListItems)
    {
      if !ValidRecipeBody(body) {
        return 400, None;
      }
      var name, createdAt, sent := body.name.value, body.createdAt.value, body.ingredients.value;
      recipes := recipes + [RecipeRow(recipeId, name, body.instructions, body.image, ServerRewrite(createdAt, iso))];
      if |sent| == 0 {
        return 201, Some(Recipe(recipeId, name, [], body.instructions, body.image, createdAt));
      }
      if ingredientsFail {
        return 500, None;
      }
      ingredients := ingredients + IngredientRows(recipeId, sent, newId);
      return 201, Some(Recipe(recipeId, name, sent, body.instructions, body.image, createdAt));
    }

    /** PUT `/recipes/:id`: the row takes the body's columns with the date
      rewritten, and the recipe's ingredient rows are replaced wholesale by
      the sent ingredients under fresh ids. It answers the ingredients it
      stored, as sent. */
    method PutRecipe(id: string, name: string, instructions: Option<string>, image: Option<string>, createdAt: string,
                     sent: Option<seq<Ingredient>>, newId: nat -> string, iso: IsoOracle)
      returns (stored: seq<Ingredient>)
      modifies this
      ensures recipes == ReplaceId(old(recipes), RecipeRowId, RecipeRow(id, name, instructions, image, ServerRewrite(createdAt, iso)))
      ensures stored == if sent.Some? then sent.value else []
      ensures ingredients == RemoveId(old(ingredients), IngredientRecipeId, id) + IngredientRows(id, stored, newId)
      ensures groceryItems == old(groceryItems) && templates == old(templates) && templateItems == old(templateItems)
      ensures shoppingLists == old(shoppingLists) && shoppingListItems == old(shoppingListItems)
    {
      recipes := ReplaceId(recipes, RecipeRowId, RecipeRow(id, name, instructions, image, ServerRewrite(createdAt, iso)));
      ingredients := RemoveId(ingredients, IngredientRecipeId, id);
      if sent.None? || |sent.value| == 0 {
        return [];
      }
      stored := sent.value;
      ingredients := ingredients + IngredientRows(id, stored, newId);
    }

    /** DELETE `/recipes/:id`: 404 exactly when no row has the id. */
    method DeleteRecipe(id: string) returns (status: int)
      modifies this
      ensures recipes == RemoveId(old(recipes), RecipeRowId, id)
      ensures status == 404 <==> forall j :: 0 <= j < |old(recipes)| ==> old(recipes)[j].id != id
      ensures status == 404 || status == 200
      ensures ingredients == old(ingredients)
      ensures groceryItems == old(groceryItems) && templates == old(templates) && templateItems == old(templateItems)
      ensures shoppingLists == old(shoppingLists) && shoppingListItems == old(shoppingListItems)
    {
      var before := recipes;
      recipes := RemoveId(recipes, RecipeRowId, id);
      DeleteStatus(before, RecipeRowId, id);
      status := if |recipes| == |before| then 404 else 200;
    }

    /** GET `/shopping-lists`: every list row, in row order, with the item
      ids linked to it. */
    method GetShoppingLists() returns (result: seq<ListView>)
      ensures |result| == |shoppingLists|
      ensures forall i :: 0 <= i < |result| ==>
        result[i] == ListView(shoppingLists[i], Children(shoppingListItems, LinkParent, LinkChild, shoppingLists[i].id))
    {
      if |shoppingLists| == 0 {
        return [];
      }
      var groups := GroupBy(shoppingListItems, LinkParent, LinkChild);
      result := seq(|shoppingLists|, i requires 0 <= i < |shoppingLists| reads this =>
        ListView(shoppingLists[i], Lookup(groups, shoppingLists[i].id)));
    }

    /** POST `/shopping-lists`: insert the list, then link its item ids. */
    method PostShoppingList(body: ListBody, listId: string, iso: IsoOracle) returns (status: int, created: Option<ShoppingList>)
      requires forall i :: 0 <= i < |shoppingLists| ==> shoppingLists[i].id != listId
      modifies this
      ensures !ValidListBody(body) ==>
        status == 400 && created == None && shoppingLists == old(shoppingLists)
        && shoppingListItems == old(shoppingListItems)
      ensures ValidListBody(body) ==>
        && status == 201
        && shoppingLists == old(shoppingLists) + [ListRow(listId, ServerRewrite(body.createdAt.value, iso))]
        && shoppingListItems == old(shoppingListItems) + Links(listId, body.items.value)
        && created == Some(ShoppingList(listId, body.items.value, body.createdAt.value))
      ensures groceryItems == old(groceryItems) && templates == old(templates) && templateItems == old(templateItems)
      ensures recipes == old(recipes) && ingredients == old(ingredients)
    {
      if !ValidListBody(body) {
        return 400, None;
      }
      var createdAt, ids := body.createdAt.value, body.items.value;
      shoppingLists := shoppingLists + [ListRow(listId, ServerRewrite(createdAt, iso))];
      if |ids| == 0 {
        return 201, Some(ShoppingList(listId, [], createdAt));
      }
      shoppingListItems := shoppingListItems + Links(listId, ids);
      return 201, Some(ShoppingList(listId, ids, createdAt));
    }

    /** PUT `/shopping-lists/:id`: the date is rewritten and the list's item
      links are replaced wholesale. It answers the ids it linked. */
    method PutShoppingList(id: string, createdAt: string, items: Option<seq<string>>, iso: IsoOracle)
      returns (linked: seq<string>)
      modifies this
      ensures shoppingLists == ReplaceId(old(shoppingLists), ListRowId, ListRow(id, ServerRewrite(createdAt, iso)))
      ensures linked == if items.Some? then items.value else []
      ensures shoppingListItems == RemoveId(old(shoppingListItems), LinkParent, id) + Links(id, linked)
      ensures groceryItems == old(groceryItems) && templates == old(templates) && templateItems == old(templateItems)
      ensures recipes == old(recipes) && ingredients == old(ingredients)
    {
      shoppingLists := ReplaceId(shoppingLists, ListRowId, ListRow(id, ServerRewrite(createdAt, iso)));
      shoppingListItems := RemoveId(shoppingListItems, LinkParent, id);
      if items.None? || |items.value| == 0 {
        return [];
      }
      linked := items.value;
      shoppingListItems := shoppingListItems + Links(id, linked);
    }

    /** DELETE `/shopping-lists/:id`: 404 exactly when no row has the id. */
    method DeleteShoppingList(id: string) returns (status: int)
      modifies this
      ensures shoppingLists == RemoveId(old(shoppingLists), ListRowId, id)
      ensures status == 404 <==> forall j :: 0 <= j < |old(shoppingLists)| ==> old(shoppingLists)[j].id != id
      ensures status == 404 || status == 200
      ensures shoppingListItems == old(shoppingListItems)
      ensures groceryItems == old(groceryItems) && templates == old(templates) && templateItems == old(templateItems)
      ensures recipes == old(recipes) && ingredients == old(ingredients)
    {
      var before := shoppingLists;
      shoppingLists := RemoveId(shoppingLists, ListRowId, id);
      DeleteStatus(before, ListRowId, id);
      status := if |shoppingLists| == |before| then 404 else 200;
    }
  }

  /** Nothing is found for no requested id. */
  lemma {:induction false} FoundNothing(items: seq<GroceryItem>)
    ensures Found(items, []) == []
    decreases |items|
  {
    if items != [] {
      FoundNothing(items[..|items| - 1]);
    }
  }

  /** After a PUT of a template or a list, the parent's item ids read back
      as exactly the ids sent, and every other parent's are unchanged. */
  lemma LinksReplaced(rows: seq<Link>, id: string, ids: seq<string>, other: string)
    ensures Children(RemoveId(rows, LinkParent, id) + Links(id, ids), LinkParent, LinkChild, other) ==
      if other == id then ids else Children(rows, LinkParent, LinkChild, other)
  {
    ReplaceChildren(rows, Links(id, ids), LinkParent, LinkChild, id, other);
    var links := Links(id, ids);
    assert seq(|links|, i requires 0 <= i < |links| => LinkChild(links[i])) == ids;
  }

  /** After a PUT of a recipe, GET `/recipes` shows exactly the inserted
      ingredient rows under it, and every other recipe's rows unchanged. */
  lemma IngredientsReplaced(rows: seq<IngredientRow>, id: string, sent: seq<Ingredient>, newId: nat -> string, other: string)
    ensures Children(RemoveId(rows, IngredientRecipeId, id) + IngredientRows(id, sent, newId),
        IngredientRecipeId, IngredientSelf, other) ==
      if other == id then IngredientRows(id, sent, newId) else Children(rows, IngredientRecipeId, IngredientSelf, other)
  {
    var added := IngredientRows(id, sent, newId);
    ReplaceChildren(rows, added, IngredientRecipeId, IngredientSelf, id, other);
    assert seq(|added|, i requires 0 <= i < |added| => IngredientSelf(added[i])) == added;
  }
}
