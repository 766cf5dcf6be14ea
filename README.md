# todo-eat grocery list — a Dafny model

todo-eat is a household grocery-list application. It has three parts:

- a React client with a shared state container, forms, a home page and a PDF export;
- an Express/MySQL API;
- an older stand-alone page (`app.js`) that keeps its list in IndexedDB.

This project models the data rules those parts share and proves what they promise. One Dafny module corresponds to each source file, plus three shared modules:

- `Text`: JavaScript's `trim`, `toLowerCase`, `split`, `startsWith` and decimal printing.
- `Types`: the records of `src/types/index.ts`.
- `Collections`: the id-keyed `findIndex` / upsert / `filter` operations the client repeats.

The modules:

- **Merge** (`src/pages/HomePage.tsx`, `src/utils/pdfGenerator.ts`): the merge-by-identity reduce. `MergeList` is the dictionary loop, proved equal to the fold `Merged`. The lemmas prove the key, first-member copy, sum, AND, first-seen order, conservation and idempotence properties.
- **HomePage**: what the page renders, and when the finish button shows.
- **PdfExport**: the partition into "À acheter" and "Déjà acheté", the item lines, the page-break rule of the item loops, the footer and the file name. Drawing is a sequence of `DocOp` values.
- **LegacyStore** and **WeekLabels** (`app.js`): the IndexedDB store as a class over `map<nat, Record>` with its auto-increment counter, and the week-label helpers. Each IndexedDB callback chain is one atomic step over the snapshot it read.
- **LocalStorage** (`src/utils/localStorage.ts`): a class with one field per storage key.
- **AppContext** (`src/context/AppContext.tsx`): a class with the four state fields. Each API call is a parameter that answers with the value the server would return.
- **CreatedAt**: the createdAt rewrite rules of the API and of `updateRecipe`. `new Date(s).toISOString()` is an oracle that may throw (`None`).
- **RowGrouping**: the `forEach`/`push` grouping loop of the GET handlers.
- **ApiRoutes** (`api/routes/index.js`): the handlers over in-memory tables with plain table semantics, as a class `Database`.
- **ItemForm**, **RecipeEditor**, **Auth**: `AddItemForm.tsx`, `RecipeForm.tsx` and `AuthContext.tsx`. The cookie jar is read as the cookie-string of section 5.4 of RFC 6265.
- **Helpers** (`src/utils/helpers.ts`).

Quantities are mathematical integers. Strings are sequences of characters. `trim` and `toLowerCase` are modelled on ASCII and Latin-1.

## Model

| member | source | states |
|---|---|---|
| Collections.IndexOf | src/utils/localStorage.ts:16 | `findIndex`: -1 when no element carries the id, else the first index that does |
| Collections.FindIndex | src/utils/localStorage.ts:16 | the `findIndex` scan loop returns exactly `IndexOf` |
| Collections.UpsertSpec | src/utils/localStorage.ts:14-25 | an upsert stores the value: in place of the first element with its id (length and every other position unchanged), or appended when the id is new |
| Collections.UpsertMembers | src/utils/localStorage.ts:16-22 | an upsert brings in nothing but the saved value |
| Collections.UpsertKeepsUniqueIds | src/utils/localStorage.ts:14-25 | ids that were unique stay unique after an upsert |
| Collections.RemoveIdMembers | src/utils/localStorage.ts:32-38 | `filter` by id keeps exactly the elements with another id |
| Collections.RemoveIdAppend | src/utils/localStorage.ts:59-65 | removal distributes over concatenation, so the kept elements keep their order |
| Collections.RemoveIdAbsent | src/utils/localStorage.ts:32-38 | removing an id no element carries changes nothing |
| Collections.RemoveIdShrinks | api/routes/index.js:60-67 | removal shortens the table exactly when some row carries the id |
| Collections.RemoveAfterUpsert | src/utils/localStorage.ts:14-38 | deleting an id after saving under it leaves what deleting alone leaves |
| Collections.ReplaceIdIsUpsert | src/context/AppContext.tsx:62-65 | with unique ids, replace-by-id is the in-place branch of an upsert and keeps ids unique |
| Text.TrimIdempotent | src/components/grocery/AddItemForm.tsx:28 | trimming twice is trimming once |
| Text.SplitJoin | src/context/AuthContext.tsx:23 | `split` of two parts joined by the separator is the first part followed by the pieces of the second |
| Text.DigitsValueOfNatToString | app.js:298-300 | `parseInt` reads back the decimal a template literal prints |
| Merge.IdentifyIsConcatenation | src/pages/HomePage.tsx:42 | the group key is `lower(trim(name)) + "\|" + lower(trim(unit))` |
| Merge.KeySeparatorCollision | src/pages/HomePage.tsx:42 | `("a\|b", "c")` and `("a", "b\|c")` get the same key |
| Merge.MergedKeys | src/pages/HomePage.tsx:39-51 | no two merged records share a key, every input key has its record, and there are no more records than items |
| Merge.MergedGroups | src/pages/HomePage.tsx:43-47 | each merged record is the combination of its group's members: the first member with the summed quantity and the AND of the flags |
| Merge.MergedRecord | src/pages/HomePage.tsx:43-46 | each merged record copies id, name, unit and category of its group's first item and carries the group's total quantity |
| Merge.MergedChecked | src/pages/HomePage.tsx:47 | a merged record is checked exactly when every member of its group is |
| Merge.MergedOrder | src/pages/HomePage.tsx:40-51 | records come in the order their keys are first seen |
| Merge.MergeConservesQuantity | src/pages/HomePage.tsx:45-46 | the merged list holds exactly the input's total quantity |
| Merge.MergeOfDistinct | src/pages/HomePage.tsx:39-51 | a list whose keys are already distinct is its own merge |
| Merge.MergeIdempotent | src/pages/HomePage.tsx:39-51 | merging a merged list changes nothing |
| Merge.MergedEmpty | src/pages/HomePage.tsx:79 | the merged list is empty exactly when the list is |
| Merge.MergeList | src/utils/pdfGenerator.ts:37-49 | the dictionary reduce, with its insertion order, computes exactly the merged list |
| HomePage.FinishShownIff | src/pages/HomePage.tsx:95 | some merged record is checked exactly when some article has all of its entries checked |
| HomePage.Render | src/pages/HomePage.tsx:39-124 | the empty message shows exactly for an empty list, the rows are the merged list, and the finish button shows exactly when some article is fully checked |
| PdfExport.PartitionMembers | src/utils/pdfGenerator.ts:57-58 | each section holds merged records with its own flag only |
| PdfExport.PartitionCovers | src/utils/pdfGenerator.ts:57-58 | the two sections together hold every merged record exactly once (as multisets) |
| PdfExport.PartitionOrder | src/utils/pdfGenerator.ts:57-58 | each section is a subsequence of the merged list |
| PdfExport.SectionsShown | src/utils/pdfGenerator.ts:61-86 | "À acheter" has records exactly when some record is unchecked, "Déjà acheté" exactly when some is checked |
| PdfExport.TextsAppend | src/utils/pdfGenerator.ts:10-130 | the text of a document is the concatenation of the texts of its parts |
| PdfExport.WriteItems | src/utils/pdfGenerator.ts:70-80 | the item loop writes one `• quantity unit name` line per record, in order, and none lower than `pageHeight - 30` |
| PdfExport.WriteSection | src/utils/pdfGenerator.ts:61-83 | a section writes its header at the cursor, then its item lines |
| PdfExport.WriteToBuy | src/utils/pdfGenerator.ts:61-83 | the to-buy section writes its header and lines exactly when it has records |
| PdfExport.WriteBought | src/utils/pdfGenerator.ts:86-114 | the bought section writes its header and lines exactly when it has records, and starts a new page first when the cursor is below `pageHeight - 50` |
| PdfExport.WriteBody | src/utils/pdfGenerator.ts:55-130 | below the rule: the sections that have records, then the footer at `pageHeight - 20` |
| PdfExport.GenerateShoppingListPdf | src/utils/pdfGenerator.ts:10-133 | title, date, rule; then the empty message alone for an empty list, else the sections and footer; no item below `pageHeight - 30`; the file name from the ISO date |
| PdfExport.FooterCounts | src/utils/pdfGenerator.ts:116-125 | bought count ≤ total ≤ number of entries, and bought = total − to-buy |
| WeekLabels.WeekNumber | app.js:288 | `ceil((day + weekday of the 1st) / 7)` is between 1 and 6 |
| WeekLabels.Search | app.js:295-296 | whatever `match` finds has the shape `Semaine`, digits, letters of the class, digits |
| WeekLabels.MatchCurrentWeek | app.js:285-296 | a current-week label whose month is in the letter class matches at its start with its three parts as groups |
| WeekLabels.OnlyLeadingMatch | app.js:295-296 | a label matches nowhere but its start |
| WeekLabels.PreviousOfCurrentWeek | app.js:294-315 | from the second week of a month on, the previous week is the same label one week lower (corrected letter class) |
| WeekLabels.PreviousOfFirstWeek | app.js:302-310 | in the first week the month-rollover branch is taken (corrected letter class) |
| WeekLabels.PreviousOfLabel | app.js:294-315 | for either letter class, a label of week 2 to 6 whose month name lies in the class becomes the same label one week lower |
| WeekLabels.FirstWeekOfLabel | app.js:298-310 | for either letter class, a week-1 label whose month name lies in the class takes the rollover branch |
| WeekLabels.AsciiMonthName | app.js:289 | every month name but Février, Août and Décembre is made of ASCII letters |
| WeekLabels.AsWrittenPreviousWeek | app.js:294-315 | with `[A-Za-z]+`, on every label `getCurrentWeek` makes: Février, Août and Décembre come back unchanged; for the other months week 1 takes the rollover branch and a later week steps back by one |
| WeekLabels.AsWrittenAgreesOnAsciiMonths | app.js:294-315 | for the months with ASCII names the pattern as written and the corrected one give the same previous week |
| WeekLabels.PreviousWeekDiffers | app.js:294-315 | the corrected previous week of a week ≥ 2 differs from the current week |
| WeekLabels.AsWrittenKeepsAccentedMonths | app.js:295 | with `[A-Za-z]+`, the labels of Février, Août and Décembre come back unchanged |
| LegacyStore.AddOrUpdateSpec | app.js:84-123 | every record of the same name, unit and week gains the quantity; with none, one new record is added; other records are unchanged; no duplicate article appears |
| LegacyStore.ListStore.AddOrUpdate | app.js:84-123 | the store becomes the add-or-update result, template rows untouched |
| LegacyStore.ListStore.DeleteArticle | app.js:162-191 | exactly the records of the article in the current week are deleted; the others are unchanged |
| LegacyStore.ListStore.Import | app.js:193-221 | every imported record is put, then every imported template row |
| LegacyStore.PutAllLastWins | app.js:193-221 | the last put under an explicit key is what the key holds |
| LegacyStore.PutAllFrame | app.js:193-221 | puts remove no key and keep every key below the counter |
| LegacyStore.ListStore.AddTemplate | app.js:317-366 | a name in use writes nothing; otherwise every current-week record is copied, in key order, into rows of that name |
| LegacyStore.SavedTemplateRows | app.js:317-417 | the rows read back under a new template name are exactly the rows just saved, in order |
| LegacyStore.ListStore.LoadTemplate | app.js:368-417 | each row of the template accumulates into or copies into the current week, matched against the snapshot |
| LegacyStore.LoadRowsFrame | app.js:377-396 | loading a template changes no record of another week |
| LegacyStore.LoadRowsCovers | app.js:377-396 | after loading, each row's article has a record in the current week |
| LegacyStore.LoadRowsDoesNotMergeRows | app.js:382-394 | for any store, two rows of one article that no record read at the start matches create records at the next two keys, and every other key is unchanged |
| LegacyStore.ListStore.LoadWeek | app.js:519-557 | each previous-week record accumulates into or copies into the current week |
| LegacyStore.LoadIdsFrame | app.js:529-541 | loading the previous week changes no record of another week |
| LegacyStore.ListStore.LoadPreviousWeek | app.js:519-557 | the same, with the current week from the clock reading and the previous week from `getPreviousWeek` as written (`[A-Za-z]+`) |
| LegacyStore.AsWrittenLoadedWeek | app.js:519-557 | as written, the records loaded are those of the current week itself for Février, Août and Décembre, and those of the corrected previous week for the other months |
| LegacyStore.AsWrittenKeepsPreviousRecords | app.js:529-541 | as written, for the months with ASCII names, the previous week's records stay as they were from the second week on |
| LegacyStore.LoadPreviousWeekKeepsPreviousRecords | app.js:529-541 | with the corrected label, the previous week's records stay as they were, for every month |
| LegacyStore.AsWrittenDoublesFebruaryWeek | app.js:295-314 | as written, loading "the previous week" in February doubles the current week's quantities |
| LegacyStore.CorrectedKeepsFebruaryWeek | app.js:519-557 | with the corrected label the same store keeps its quantity |
| LegacyStore.DistinctSpec | app.js:440 | the template names listed are each name once, all names, in order of first appearance |
| LegacyStore.ListStore.DeleteTemplate | app.js:480-507 | exactly the rows of that template name are deleted |
| LocalStorage.WithEntry | src/utils/localStorage.ts:68-79 | the new list first, then the previous history's entries in order, ten at most |
| LocalStorage.SavedListMovesBack | src/utils/localStorage.ts:68-79 | a saved list moves one place back per later save and stays for nine more saves |
| LocalStorage.HistoryHoldsLastTen | src/utils/localStorage.ts:68-79 | after ten or more saves the history is exactly the last ten lists, newest first |
| LocalStorage.SavedListsNewestFirst | src/utils/localStorage.ts:68-79 | fewer than ten saves put those lists first, newest first |
| LocalStorage.KeyValueStore.constructor | src/utils/localStorage.ts:8-11 | every getter reads `[]` when its key is absent |
| LocalStorage.KeyValueStore.SaveCurrentList | src/utils/localStorage.ts:4-11 | `getCurrentList` reads back what was saved; other keys unchanged |
| LocalStorage.KeyValueStore.SaveTemplate | src/utils/localStorage.ts:14-30 | the templates become the upsert of the saved one; other keys unchanged |
| LocalStorage.KeyValueStore.DeleteTemplate | src/utils/localStorage.ts:32-38 | the templates lose exactly those with the id; other keys unchanged |
| LocalStorage.KeyValueStore.SaveRecipe | src/utils/localStorage.ts:41-57 | the recipes become the upsert of the saved one; other keys unchanged |
| LocalStorage.KeyValueStore.DeleteRecipe | src/utils/localStorage.ts:59-65 | the recipes lose exactly those with the id; other keys unchanged |
| LocalStorage.KeyValueStore.SaveToHistory | src/utils/localStorage.ts:68-83 | the history becomes `WithEntry` of the old one; other keys unchanged |
| AppContext.Ids | src/context/AppContext.tsx:188 | one id per list item, in order |
| AppContext.ResolveMembers | src/context/AppContext.tsx:120-124 | each resolved item is a server item whose id was asked for, no more items than ids |
| AppContext.ResolveAppend | src/context/AppContext.tsx:214-218 | resolution keeps the order of the ids |
| AppContext.ResolveAllPresent | src/context/AppContext.tsx:120-124 | when every id is on the server, one item per id in id order |
| AppContext.ResolveSavedIds | src/context/AppContext.tsx:186-208 | saving a list's ids and resolving them against a server holding those items gives the list back |
| AppContext.ToggleSpec | src/context/AppContext.tsx:72-78 | toggling flips only the matching entry's flag and keeps the length; with unique ids toggling twice restores the list |
| AppContext.AppState.constructor | src/context/AppContext.tsx:40-43 | every state field starts empty |
| AppContext.AppState.AddItem | src/context/AppContext.tsx:57-60 | the server's item is appended; nothing else changes |
| AppContext.AppState.UpdateItem | src/context/AppContext.tsx:62-65 | every entry with the id is replaced |
| AppContext.AppState.RemoveItem | src/context/AppContext.tsx:67-70 | exactly the entries with the id are dropped |
| AppContext.AppState.ToggleItemCheck | src/context/AppContext.tsx:72-78 | nothing is sent and nothing changes when the id is absent; otherwise the toggled item is sent and the list toggled |
| AppContext.AppState.ClearList | src/context/AppContext.tsx:80-85 | one delete per item in list order, then the list is empty |
| AppContext.AppState.SaveAsTemplate | src/context/AppContext.tsx:88-114 | nothing for an empty list; otherwise the ids are posted and a saved template appended, none on failure |
| AppContext.AppState.DeleteTemplate | src/context/AppContext.tsx:231-234 | exactly the templates with the id are dropped |
| AppContext.AppState.LoadTemplate | src/context/AppContext.tsx:116-126 | the list becomes the template's resolved items; unchanged when the template is absent |
| AppContext.AppState.AddTemplateToList | src/context/AppContext.tsx:211-220 | the template's resolved items are appended, with no merging |
| AppContext.AppState.AddRecipe | src/context/AppContext.tsx:129-136 | the server's recipe is appended |
| AppContext.AppState.UpdateRecipe | src/context/AppContext.tsx:138-165 | the createdAt is rewritten by the client rule, and only the recipe with the id is replaced |
| AppContext.AppState.DeleteRecipe | src/context/AppContext.tsx:167-170 | exactly the recipes with the id are dropped |
| AppContext.AppState.AddIngredientsToList | src/context/AppContext.tsx:172-183 | one unchecked item per ingredient is appended, in order, with no de-duplication |
| AppContext.AppState.SaveCurrentListToHistory | src/context/AppContext.tsx:186-200 | nothing for an empty list; otherwise the ids are posted and the saved list prepended |
| AppContext.AppState.LoadFromHistory | src/context/AppContext.tsx:202-208 | the list becomes the entry's resolved items; unchanged when the entry is absent |
| CreatedAt.MySqlFormOfIso | api/routes/index.js:175-187 | the MySQL form of a UTC timestamp is its date, a space and its time to the second, a MySQL datetime |
| CreatedAt.MySqlNotIso | api/routes/index.js:175-187 | a MySQL datetime contains neither `T` nor `Z`, so it is never rewritten again |
| CreatedAt.ServerRewriteOfUtc | api/routes/index.js:175-187 | a canonical UTC string becomes its MySQL form, and rewriting that changes nothing |
| CreatedAt.ServerRewriteCases | api/routes/index.js:350-362 | a string without `T`/`Z` or whose conversion throws is kept; otherwise the result is a MySQL datetime |
| CreatedAt.ClientRewriteCases | src/context/AppContext.tsx:143-164 | a non-empty string without `T`/`Z` is kept; otherwise the result is a MySQL datetime |
| RowGrouping.ChildrenMembers | api/routes/index.js:134-145 | a parent's children are exactly the projections of its rows |
| RowGrouping.ChildrenAppend | api/routes/index.js:327-332 | grouping keeps row order |
| RowGrouping.ChildrenNone | api/routes/index.js:150-155 | a parent with no rows gets `[]` |
| RowGrouping.ChildrenOfRemoved | api/routes/index.js:293-299 | deleting a parent's rows empties its group and leaves every other group as it was |
| RowGrouping.ReplaceChildren | api/routes/index.js:428-446 | after delete-then-insert a parent's children are exactly the inserted rows, others unchanged |
| RowGrouping.GroupBy | api/routes/index.js:473-478 | the `forEach`/`push` loop has one group per key that occurs, each equal to that key's children in row order |
| ApiRoutes.MissingIdsSpec | api/routes/index.js:234-245 | an id is missing exactly when it was requested and no item carries it |
| ApiRoutes.Found | api/routes/index.js:214-229 | the snapshots found are exactly those of the items whose id was requested |
| ApiRoutes.Links | api/routes/index.js:249-262 | one `[template, item]` link per requested id, in order |
| ApiRoutes.JoinParents | api/routes/index.js:106-119 | every joined row comes from a link of its template |
| ApiRoutes.MatchUnique | api/routes/index.js:106-119 | with unique item ids a present id joins exactly one item |
| ApiRoutes.PostedTemplateReadsBack | api/routes/index.js:164-281 | after a POST, GET shows the new template's items as the requested ids' snapshots, in request order and with repeats |
| ApiRoutes.IngredientRows | api/routes/index.js:380-391 | one row per ingredient under the recipe, with fresh ids and the ingredient's columns |
| ApiRoutes.DeleteStatus | api/routes/index.js:307-314 | a DELETE answers 404 exactly when it removed nothing |
| ApiRoutes.Database.PostGroceryItem | api/routes/index.js:43-57 | 400 and nothing stored exactly when name, quantity or unit is falsy; otherwise the row with `checked` false and `category` null by default is stored and answered with 201 |
| ApiRoutes.Database.DeleteGroceryItem | api/routes/index.js:60-67 | 404 exactly when no row has the id; the rows with the id are deleted |
| ApiRoutes.Database.PutGroceryItem | api/routes/index.js:70-82 | 404 and no change exactly when no row has the id; otherwise the rows with the id take the body's columns |
| ApiRoutes.Database.GetTemplates | api/routes/index.js:86-161 | one view per template row, in row order, with its joined item snapshots in link order |
| ApiRoutes.Database.PostTemplate | api/routes/index.js:164-281 | 400 on an invalid body; the template is inserted with a rewritten date; 400 with the missing ids, or 500, deletes it again; otherwise its links are added and 201 answers the found items |
| ApiRoutes.Database.PutTemplate | api/routes/index.js:284-304 | the row takes the name and date as sent and its links are replaced wholesale by the ids sent |
| ApiRoutes.Database.DeleteTemplate | api/routes/index.js:307-314 | 404 exactly when no template row has the id |
| ApiRoutes.Database.GetRecipes | api/routes/index.js:318-336 | one view per recipe row with its ingredient rows, in row order |
| ApiRoutes.Database.PostRecipe | api/routes/index.js:339-395 | 400 on an invalid body; otherwise the recipe and its ingredient rows are inserted; a failed ingredient insert answers 500 and keeps the recipe row |
| ApiRoutes.Database.PutRecipe | api/routes/index.js:398-451 | the row takes the body's columns with the date rewritten and its ingredient rows are replaced wholesale |
| ApiRoutes.Database.DeleteRecipe | api/routes/index.js:454-461 | 404 exactly when no recipe row has the id |
| ApiRoutes.Database.GetShoppingLists | api/routes/index.js:465-482 | one view per list row, in row order: the raw row and its linked item ids |
| ApiRoutes.AsWrittenViewsLackCreatedAt | api/routes/index.js:478 | a list or recipe answered as `{...row, …}` carries its date as `created_at`, so the client's `createdAt` is undefined, and editing such a recipe takes the current time as its date |
| ApiRoutes.TemplatesCarryCreatedAt | api/routes/index.js:150-155 | a template answered by GET `/templates` carries its stored date as `createdAt` |
| ApiRoutes.CorrectedViewsCarryCreatedAt | api/routes/index.js:478 | with the column renamed as GET `/templates` does it, the client reads back a list's or recipe's stored date, and editing a recipe keeps a stored MySQL date |
| ApiRoutes.Database.PostShoppingList | api/routes/index.js:485-534 | 400 on an invalid body; otherwise the list with a rewritten date and its links are inserted, 201 |
| ApiRoutes.Database.PutShoppingList | api/routes/index.js:537-589 | the date is rewritten and the list's links are replaced wholesale |
| ApiRoutes.Database.DeleteShoppingList | api/routes/index.js:592-599 | 404 exactly when no list row has the id |
| ApiRoutes.LinksReplaced | api/routes/index.js:566-584 | after a PUT the parent's item ids read back as exactly the ids sent, every other parent's unchanged |
| ApiRoutes.IngredientsReplaced | api/routes/index.js:428-446 | after a PUT of a recipe, GET shows exactly the inserted ingredient rows under it, others unchanged |
| ItemForm.SubmitDisabled | src/components/grocery/AddItemForm.tsx:138 | the button is disabled exactly when `validateForm` would reject the fields |
| ItemForm.SubmittedRequestRevalidates | src/components/grocery/AddItemForm.tsx:41-56 | the submitted name is already trimmed and would be accepted again |
| ItemForm.AddItemForm.constructor | src/components/grocery/AddItemForm.tsx:20-24 | empty name, quantity 1, unit `pièce(s)`, no errors |
| ItemForm.AddItemForm.ValidateForm | src/components/grocery/AddItemForm.tsx:26-39 | valid exactly when the trimmed name is non-empty and the quantity positive; each error is set exactly when its field fails |
| ItemForm.AddItemForm.HandleSubmit | src/components/grocery/AddItemForm.tsx:41-62 | an invalid form hands over nothing and keeps its fields; a valid one hands over the trimmed name, quantity and unit and resets |
| ItemForm.AddItemForm.HandleCancel | src/components/grocery/AddItemForm.tsx:64-70 | back to the initial fields with no errors |
| ItemForm.AddItemForm.ChangeName | src/components/grocery/AddItemForm.tsx:83-88 | typing a name clears the name error |
| ItemForm.AddItemForm.ChangeQuantity | src/components/grocery/AddItemForm.tsx:105-111 | the quantity error is cleared only for a positive value |
| ItemForm.AddItemForm.ChangeUnit | src/components/grocery/AddItemForm.tsx:118-124 | only the unit changes |
| RecipeEditor.SubmitErrors | src/components/recipes/RecipeForm.tsx:74-83 | a name error exactly for a blank name, an ingredients error exactly for no ingredients |
| RecipeEditor.AddedIngredientRemovable | src/components/recipes/RecipeForm.tsx:49-69 | removing an ingredient just added under a fresh id gives the list back |
| RecipeEditor.RecipeForm.constructor | src/components/recipes/RecipeForm.tsx:20-38 | fields from the initial recipe when there is one, else empty; empty draft and no errors |
| RecipeEditor.RecipeForm.EditDraft | src/components/recipes/RecipeForm.tsx:27-32 | only the draft changes |
| RecipeEditor.RecipeForm.AddIngredient | src/components/recipes/RecipeForm.tsx:40-65 | a blank draft name only sets its error; otherwise the draft with a new id and its untrimmed name is appended, the draft emptied and its error cleared |
| RecipeEditor.RecipeForm.RemoveIngredient | src/components/recipes/RecipeForm.tsx:67-69 | the ingredients with the id are removed, the rest keep their order |
| RecipeEditor.RecipeForm.HandleSubmit | src/components/recipes/RecipeForm.tsx:71-91 | saves exactly when the trimmed name is non-empty and there is an ingredient, with trimmed texts and the ingredients as they are; otherwise only sets the errors |
| Auth.FindAuthCookieSpec | src/context/AuthContext.tsx:24 | a cookie is found exactly when some trimmed piece starts with `todoeat_auth=` |
| Auth.SplitCookieString | src/context/AuthContext.tsx:23 | `split(';')` cuts a cookie-string into one piece per cookie |
| Auth.PairHasPrefix | src/context/AuthContext.tsx:24 | a pair starts with `todoeat_auth=` exactly when the cookie's name is `todoeat_auth`, whatever its value |
| Auth.AuthenticatedIff | src/context/AuthContext.tsx:22-31 | on mount the user is in exactly when the jar holds a cookie named `todoeat_auth` |
| Auth.BareNameRejected | src/context/AuthContext.tsx:24 | `todoeat_auth` without `=` does not authenticate |
| Auth.AuthState.constructor | src/context/AuthContext.tsx:22-31 | authenticated and prompt hidden exactly when the cookie is found, else the prompt shows |
| Auth.AuthState.Authenticate | src/context/AuthContext.tsx:36-50 | true exactly for the stored password; on success the user is in, the prompt hidden and the cookie set; on failure nothing changes |
| Auth.AuthenticationRemembered | src/context/AuthContext.tsx:36-50 | after a successful authenticate, the next mount finds the cookie |
| Helpers.GenerateId | src/utils/helpers.ts:4-6 | at most 13 characters, each from `[0-9a-z]` |
| Helpers.IngredientsToGroceryItems | src/utils/helpers.ts:18-26 | one unchecked item per ingredient, in order, with its name, quantity and unit and a generated id |
| Helpers.CommonUnitsSpec | src/utils/helpers.ts:41-51 | ten distinct units, the default `pièce(s)` among them |

## Left out

- Quantities are integers. JavaScript's floating-point addition, rounding and the NaN that `parseFloat` can give are not modelled.
- Clocks and locale are parameters:
  - the day, month, year and weekday of the 1st for `getCurrentWeek`;
  - the `toISOString` text;
  - the French date line of the PDF.
- The week < 1 branch of `getPreviousWeek` reads the clock for the current month (app.js:302-310). It is a parameter `rollover` giving the label the branch returns.
- General date parsing by `Date` is an oracle. The model states only the `T`/`Z` test, the keep-on-throw rule and the canonical UTC case.
- `Math.random`, `crypto.randomUUID` and the server's new ids are parameters. Their freshness is a precondition where a lemma needs it.
- Asynchrony is not modelled: IndexedDB transactions and callbacks, `Promise.all`, the `isLoading` flag and the 200 ms delay of the item form. Each operation is one atomic step, and every API call succeeds with the value given.
- The JSON answers are modelled only where their keys matter: the GET answers for templates, recipes and shopping lists as key-to-value maps. The other answers are datatypes.
- The client's initial load of recipes and history from the server is not modelled, so the client state never holds a recipe read from GET `/recipes`. ApiRoutes.AsWrittenViewsLackCreatedAt states what such a recipe's edit does.
- JSON serialisation, `localStorage` and the fetch wrapper (`src/utils/api.ts`) are not modelled. Storage keys are fields and are assumed to round-trip.
- jsPDF is not modelled: fonts, colours, page width and the saving of the file. Drawing is a sequence of texts, rules and page breaks at given positions.
- `toLowerCase` and `trim` cover ASCII and the Latin-1 letters and spaces, not all of Unicode.
- The MySQL driver is not modelled: the `IN` versus `=` query choice, foreign keys and cascades. Tables have plain semantics, and `affectedRows` is the number of rows removed or changed.
- Database errors are modelled only for POST `/templates` (its three queries) and for the ingredient insert of POST `/recipes`. Other 500 answers are not modelled.
- `null`, `undefined` and non-string fields in PUT bodies are not modelled. The PUT handlers take their columns as typed values.
- The read-only handlers GET `/`, GET `/ping` and GET `/grocery-items` only answer a query and are not modelled.
- `exporterDonnees`, `supprimerToutesLesDonnees`, `afficherItems` and the notification banner of app.js are DOM and export plumbing, not modelled.
- The cookie's expiry date and path are not modelled. The example `xtodoeat_auth=1` is covered in general by Auth.AuthenticatedIff: a cookie whose name is not `todoeat_auth` does not authenticate.
- The client keeps `checked` as `!!checked` when it loads the list from the server. This initial load is not modelled.
- `src/pages/RecipesPage.tsx:11` calls `addRecipeToList`, which the context does not provide. It is not modelled.
- The credentials hard-coded at api/routes/index.js:14 and src/context/AuthContext.tsx:12 are not modelled. The password is a constant.
- The UI components, `useConfirm`, the Express wiring (`api/app.js`) and the database bootstrap (`api/bin/init-db.js`) are not part of this model.
- Input items are not mutated by the merge. This holds trivially here, because records are values.

## Findings

| source | as written | input that shows it | evidently intended | confidence | as-written member | corrected member |
|---|---|---|---|---|---|---|
| app.js:295 | the month group of `getPreviousWeek`'s pattern is `[A-Za-z]+`, which cannot span `é` or `û` | `Semaine2Février2025`, and likewise the labels of Août and Décembre: no match, so the label comes back unchanged | `Semaine1Février2025`, the same label one week lower | not executed | WeekLabels.AsWrittenKeepsAccentedMonths | WeekLabels.PreviousOfCurrentWeek |
| api/routes/index.js:478 | GET `/shopping-lists` answers `{ ...l, items }`, so the date's key is the column name `created_at`; GET `/recipes` does the same at line 332. The client reads `createdAt` (`HistoryModal.tsx:44`, `updateRecipe`) | any stored list or recipe: its `createdAt` is undefined on the client, and editing the recipe replaces its date with the current time | `createdAt: l.created_at`, as GET `/templates` renames it at line 153 | not executed | ApiRoutes.AsWrittenViewsLackCreatedAt | ApiRoutes.CorrectedViewsCarryCreatedAt |
| app.js:519-557 | `chargerSemainePrecedente` loads the records of the label `getPreviousWeek` returns, which for those months is the current week | a store with `lait 2 L` in `Semaine2Février2025`, loaded on 8 February 2025: the record becomes 4 | the current week's records left alone when the previous week is empty | not executed | LegacyStore.AsWrittenDoublesFebruaryWeek | LegacyStore.CorrectedKeepsFebruaryWeek |
