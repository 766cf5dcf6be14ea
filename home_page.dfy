/** The home page's view of the current list (src/pages/HomePage.tsx): the
    merged list, the empty-list message, and the "Terminer les courses"
    button, shown when at least one merged record is checked. */
module HomePage {
  import opened Types
  import opened Merge

  datatype HomeView =
    | EmptyMessage
    | Rows(rows: seq<GroceryItem>, finishButton: bool)

  /** `mergedList.some(item => item.checked)`. */
  predicate SomeChecked(groups: seq<GroceryItem>) {
    exists j :: 0 <= j < |groups| && groups[j].checked
  }

  /** Some article of the list has every one of its entries checked. */
  predicate SomeArticleDone(items: seq<GroceryItem>) {
    exists i :: 0 <= i < |items| && ArticleDone(items, Key(items[i]))
  }

  predicate ArticleDone(items: seq<GroceryItem>, k: string) {
    forall i :: 0 <= i < |items| && Key(items[i]) == k ==> items[i].checked
  }

  /** The finish button is shown exactly when some article of the list has
      all of its entries checked: a single unchecked duplicate hides it. */
  lemma FinishShownIff(items: seq<GroceryItem>)
    ensures SomeChecked(Merged(items)) <==> SomeArticleDone(items)
  {
    var m := Merged(items);
    if SomeChecked(m) {
      var j :| 0 <= j < |m| && m[j].checked;
      MergedChecked(Identify, items, j);
      MergedRecord(Identify, items, j);
      var f := FirstIndex(Identify, items, KeyOf(Identify, m[j]));
      FirstIndexSpec(Identify, items, KeyOf(Identify, m[j]));
      assert Key(items[f]) == Key(m[j]);
      assert ArticleDone(items, Key(items[f]));
    }
    if SomeArticleDone(items) {
      var i :| 0 <= i < |items| && ArticleDone(items, Key(items[i]));
      MergedKeys(Identify, items);
      var g := FindKey(Identify, m, KeyOf(Identify, items[i]));
      MergedChecked(Identify, items, g);
      assert m[g].checked;
    }
  }

  /** What the page renders below the add-item form. */
  method Render(currentList: seq<GroceryItem>) returns (view: HomeView)
    ensures view.EmptyMessage? <==> currentList == []
    ensures view.Rows? ==> view.rows == Merged(currentList)
    ensures view.Rows? ==> (view.finishButton <==> SomeArticleDone(currentList))
  {
    var merged := MergeList(currentList);
    MergedEmpty(Identify, currentList);
    if |merged| == 0 {
      view := EmptyMessage;
    } else {
      FinishShownIff(currentList);
      view := Rows(merged, SomeChecked(merged));
    }
  }
}
