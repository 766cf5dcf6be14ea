/** The records the client and the server exchange (src/types/index.ts).
    Quantities are whole numbers here; JavaScript numbers are floats. */
module Types {

  datatype Option<+T> = None | Some(value: T)

  datatype GroceryItem = GroceryItem(
    id: string,
    name: string,
    quantity: int,
    unit: string,
    checked: bool,
    category: Option<string>)

  datatype TemplateItem = TemplateItem(id: string, name: string, quantity: int, unit: string)

  /** A template lists its items either as bare item ids or as item snapshots. */
  datatype TemplateEntry = ItemRef(ref: string) | ItemSnapshot(snapshot: TemplateItem)
  {
    function ItemId(): string {
      match this
      case ItemRef(r) => r
      case ItemSnapshot(t) => t.id
    }
  }

  datatype Template = Template(id: string, name: string, items: seq<TemplateEntry>, createdAt: string)

  datatype Ingredient = Ingredient(id: string, name: string, quantity: int, unit: string)

  datatype Recipe = Recipe(
    id: string,
    name: string,
    ingredients: seq<Ingredient>,
    instructions: Option<string>,
    image: Option<string>,
    createdAt: string)

  /** A history entry: the ids of the items of a finished list. */
  datatype ShoppingList = ShoppingList(id: string, items: seq<string>, createdAt: string)
}
