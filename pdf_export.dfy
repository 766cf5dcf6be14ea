/** The PDF export of the shopping list (src/utils/pdfGenerator.ts).

    The document is the sequence of drawing calls the exporter makes: texts
    (left-aligned at an abscissa, or centred), new pages and the separator
    rule. Fonts, colours and the page width are not part of the model; the
    page height is a parameter, as are the formatted date and the ISO
    timestamp the file name is cut from. */
module PdfExport {
  import opened Text
  import opened Types
  import opened Merge

  datatype Align = AtX(x: int) | Centered

  datatype DocOp =
    | Write(s: string, at: Align, y: int)
    | AddPage
    | Rule(y: int)

  const Margin: int := 20
  const LineHeight: int := 8
  const Title: string := "Liste de Courses"
  const EmptyListMessage: string := "Votre liste de courses est vide"
  const ToBuyHeader: string := "À acheter:"
  const BoughtHeader: string := "Déjà acheté:"

  /** `• ${quantity} ${unit} ${name}`. */
  function ItemLine(item: GroceryItem): string {
    "• " + IntToString(item.quantity) + " " + item.unit + " " + item.name
  }

  function ItemLines(items: seq<GroceryItem>): seq<string>
    decreases |items|
  {
    if items == [] then [] else ItemLines(items[..|items| - 1]) + [ItemLine(items[|items| - 1])]
  }

  /** The footer: `Total: n article(s) - Acheté(s): c/n`. */
  function FooterText(total: nat, bought: nat): string {
    "Total: " + NatToString(total) + " article" + (if total > 1 then "s" else "")
    + " - Acheté" + (if bought > 1 then "s" else "") + ": "
    + NatToString(bought) + "/" + NatToString(total)
  }

  /** The strings written, in order. */
  function Texts(ops: seq<DocOp>): seq<string>
    decreases |ops|
  {
    if ops == [] then []
    else
      var last := ops[|ops| - 1];
      Texts(ops[..|ops| - 1]) + (if last.Write? then [last.s] else [])
  }

  lemma {:induction false} TextsAppend(a: seq<DocOp>, b: seq<DocOp>)
    ensures Texts(a + b) == Texts(a) + Texts(b)
    decreases |b|
  {
    if b == [] {
      assert a + b == a;
    } else {
      TextsAppend(a, b[..|b| - 1]);
      assert (a + b)[..|a + b| - 1] == a + b[..|b| - 1];
    }
  }

  // ---------------------------------------------------------------------
  // The two sections.

  /** `mergedList.filter(item => !item.checked)`. */
  function ToBuy(groups: seq<GroceryItem>): seq<GroceryItem>
    decreases |groups|
  {
    if groups == [] then []
    else
      var last := groups[|groups| - 1];
      ToBuy(groups[..|groups| - 1]) + (if last.checked then [] else [last])
  }

  /** `mergedList.filter(item => item.checked)`. */
  function Bought(groups: seq<GroceryItem>): seq<GroceryItem>
    decreases |groups|
  {
    if groups == [] then []
    else
      var last := groups[|groups| - 1];
      Bought(groups[..|groups| - 1]) + (if last.checked then [last] else [])
  }

  /** `s` is `t` with some elements left out, order kept. */
  predicate SubsequenceOf(s: seq<GroceryItem>, t: seq<GroceryItem>)
    decreases |t|
  {
    if s == [] then true
    else if t == [] then false
    else if s[|s| - 1] == t[|t| - 1] then SubsequenceOf(s[..|s| - 1], t[..|t| - 1])
    else SubsequenceOf(s, t[..|t| - 1])
  }

  /** Each section holds records of the merged list with its own flag. */
  lemma {:induction false} PartitionMembers(groups: seq<GroceryItem>)
    ensures forall x :: x in ToBuy(groups) ==> x in groups && !x.checked
    ensures forall x :: x in Bought(groups) ==> x in groups && x.checked
    decreases |groups|
  {
    if groups != [] {
      var p := groups[..|groups| - 1];
      PartitionMembers(p);
      assert groups == p + [groups[|groups| - 1]];
    }
  }

  /** Together the sections hold every record of the merged list exactly once. */
  lemma {:induction false} PartitionCovers(groups: seq<GroceryItem>)
    ensures multiset(ToBuy(groups)) + multiset(Bought(groups)) == multiset(groups)
    ensures |ToBuy(groups)| + |Bought(groups)| == |groups|
    decreases |groups|
  {
    if groups != [] {
      var p := groups[..|groups| - 1];
      var x := groups[|groups| - 1];
      PartitionCovers(p);
      assert groups == p + [x];
      assert multiset(groups) == multiset(p) + multiset{x};
      if x.checked {
        assert multiset(Bought(groups)) == multiset(Bought(p)) + multiset{x};
      } else {
        assert multiset(ToBuy(groups)) == multiset(ToBuy(p)) + multiset{x};
      }
    }
  }

  /** Each section keeps the merged order. */
  lemma {:induction false} PartitionOrder(groups: seq<GroceryItem>)
    ensures SubsequenceOf(ToBuy(groups), groups) && SubsequenceOf(Bought(groups), groups)
    decreases |groups|
  {
    if groups != [] {
      var p := groups[..|groups| - 1];
      var x := groups[|groups| - 1];
      PartitionOrder(p);
      assert groups == p + [x];
      var u := ToBuy(groups);
      var b := Bought(groups);
      if x.checked {
        assert u == ToBuy(p);
        assert b[..|b| - 1] == Bought(p);
        SubsequenceDrop(u, p, x);
      } else {
        assert b == Bought(p);
        assert u[..|u| - 1] == ToBuy(p);
        SubsequenceDrop(b, p, x);
      }
    }
  }

  lemma {:induction false} SubsequenceDrop(s: seq<GroceryItem>, p: seq<GroceryItem>, x: GroceryItem)
    requires SubsequenceOf(s, p)
    ensures SubsequenceOf(s, p + [x])
    decreases |p|, 1
  {
    assert (p + [x])[..|p|] == p;
    if s != [] && s[|s| - 1] == x {
      SubsequenceButLast(s, p);
    }
  }

  lemma {:induction false} SubsequenceButLast(s: seq<GroceryItem>, t: seq<GroceryItem>)
    requires s != [] && SubsequenceOf(s, t)
    ensures SubsequenceOf(s[..|s| - 1], t)
    decreases |t|, 0
  {
    var s' := s[..|s| - 1];
    var t' := t[..|t| - 1];
    assert t == t' + [t[|t| - 1]];
    if s[|s| - 1] == t[|t| - 1] {
      SubsequenceDrop(s', t', t[|t| - 1]);
    } else {
      SubsequenceButLast(s, t');
      SubsequenceDrop(s', t', t[|t| - 1]);
    }
  }

  /** "À acheter" appears exactly when some record is unchecked, and "Déjà
      acheté" exactly when some record is checked. */
  lemma SectionsShown(groups: seq<GroceryItem>)
    ensures ToBuy(groups) != [] <==> exists j :: 0 <= j < |groups| && !groups[j].checked
    ensures Bought(groups) != [] <==> exists j :: 0 <= j < |groups| && groups[j].checked
  {
    ToBuyShown(groups);
    BoughtShown(groups);
  }

  lemma {:induction false} ToBuyShown(groups: seq<GroceryItem>)
    ensures ToBuy(groups) != [] <==> exists j :: 0 <= j < |groups| && !groups[j].checked
    decreases |groups|
  {
    if groups != [] {
      var n := |groups| - 1;
      var p := groups[..n];
      ToBuyShown(p);
      if exists j :: 0 <= j < |p| && !p[j].checked {
        var j :| 0 <= j < |p| && !p[j].checked;
        assert groups[j] == p[j];
      }
      if exists j :: 0 <= j < |groups| && !groups[j].checked {
        var j :| 0 <= j < |groups| && !groups[j].checked;
        if j < n {
          assert p[j] == groups[j];
        }
      }
    }
  }

  lemma {:induction false} BoughtShown(groups: seq<GroceryItem>)
    ensures Bought(groups) != [] <==> exists j :: 0 <= j < |groups| && groups[j].checked
    decreases |groups|
  {
    if groups != [] {
      var n := |groups| - 1;
      var p := groups[..n];
      BoughtShown(p);
      if exists j :: 0 <= j < |p| && p[j].checked {
        var j :| 0 <= j < |p| && p[j].checked;
        assert groups[j] == p[j];
      }
      if exists j :: 0 <= j < |groups| && groups[j].checked {
        var j :| 0 <= j < |groups| && groups[j].checked;
        if j < n {
          assert p[j] == groups[j];
        }
      }
    }
  }

  // ---------------------------------------------------------------------
  // Layout.

  lemma TextsSnoc(ops: seq<DocOp>, op: DocOp)
    ensures Texts(ops + [op]) == Texts(ops) + (if op.Write? then [op.s] else [])
  {
    assert (ops + [op])[..|ops|] == ops;
  }

  /** No item line sits lower than `pageHeight - 30`. */
  predicate ItemsFit(ops: seq<DocOp>, pageHeight: int) {
    forall i :: 0 <= i < |ops| && ops[i].Write? && ops[i].at == AtX(Margin + 5) ==> ops[i].y <= pageHeight - 30
  }

  lemma ItemsFitAppend(a: seq<DocOp>, b: seq<DocOp>, pageHeight: int)
    requires ItemsFit(a, pageHeight) && ItemsFit(b, pageHeight)
    ensures ItemsFit(a + b, pageHeight)
  {
    forall i | 0 <= i < |a + b| && (a + b)[i].Write? && (a + b)[i].at == AtX(Margin + 5)
      ensures (a + b)[i].y <= pageHeight - 30
    {
      if i >= |a| { assert (a + b)[i] == b[i - |a|]; }
    }
  }

  /** One section's item loop: before each line, when the cursor is below
      `pageHeight - 30`, a new page starts and the cursor returns to the
      margin. */
  lemma ItemLinesPrefix(items: seq<GroceryItem>, i: int)
    requires 0 <= i < |items|
    ensures ItemLines(items[..i + 1]) == ItemLines(items[..i]) + [ItemLine(items[i])]
  {
    assert items[..i + 1][..i] == items[..i];
  }

  method WriteItems(items: seq<GroceryItem>, y0: int, pageHeight: int) returns (ops: seq<DocOp>, y: int)
    ensures Texts(ops) == ItemLines(items)
    ensures Margin <= pageHeight - 30 ==> ItemsFit(ops, pageHeight)
  {
    ops := [];
    y := y0;
    for i := 0 to |items|
      invariant Texts(ops) == ItemLines(items[..i])
      invariant Margin <= pageHeight - 30 ==> ItemsFit(ops, pageHeight)
    {
      if y > pageHeight - 30 {
        TextsSnoc(ops, AddPage);
        assert ItemsFit([AddPage], pageHeight);
        if Margin <= pageHeight - 30 {
          ItemsFitAppend(ops, [AddPage], pageHeight);
        }
        ops := ops + [AddPage];
        y := Margin;
      }
      var line := Write(ItemLine(items[i]), AtX(Margin + 5), y);
      TextsSnoc(ops, line);
      if Margin <= pageHeight - 30 {
        assert ItemsFit([line], pageHeight);
        ItemsFitAppend(ops, [line], pageHeight);
      }
      ItemLinesPrefix(items, i);
      ops := ops + [line];
      y := y + LineHeight;
    }
    assert items[..|items|] == items;
  }

  /** A section: its header at the cursor, then its item lines. */
  method WriteSection(header: string, items: seq<GroceryItem>, y0: int, pageHeight: int)
    returns (ops: seq<DocOp>, y: int)
    ensures Texts(ops) == [header] + ItemLines(items)
    ensures |ops| >= 1 && ops[0] == Write(header, AtX(Margin), y0)
    ensures Margin <= pageHeight - 30 ==> ItemsFit(ops, pageHeight)
  {
    var lines;
    lines, y := WriteItems(items, y0 + 12, pageHeight);
    var head := [Write(header, AtX(Margin), y0)];
    TextsSnoc([], head[0]);
    assert [] + head == head;
    TextsAppend(head, lines);
    if Margin <= pageHeight - 30 {
      ItemsFitAppend(head, lines, pageHeight);
    }
    ops := head + lines;
  }

  /** The texts of a section: its header and item lines, or nothing when it
      has no records. */
  function SectionTexts(header: string, items: seq<GroceryItem>): seq<string> {
    if items == [] then [] else [header] + ItemLines(items)
  }

  /** The texts below the separator rule for a non-empty merged list: the
      unchecked records, the checked records, then the footer. */
  function BodyTexts(merged: seq<GroceryItem>): seq<string> {
    SectionTexts(ToBuyHeader, ToBuy(merged)) + SectionTexts(BoughtHeader, Bought(merged))
    + [FooterText(|merged|, |Bought(merged)|)]
  }

  /** The "À acheter" section, written when some record is unchecked. */
  method WriteToBuy(unchecked: seq<GroceryItem>, y0: int, pageHeight: int) returns (ops: seq<DocOp>, y: int)
    ensures Texts(ops) == SectionTexts(ToBuyHeader, unchecked)
    ensures Margin <= pageHeight - 30 ==> ItemsFit(ops, pageHeight)
  {
    ops, y := [], y0;
    if |unchecked| > 0 {
      ops, y := WriteSection(ToBuyHeader, unchecked, y, pageHeight);
      y := y + 10;
    }
  }

  /** The "Déjà acheté" section, written when some record is checked; it
      starts a new page when the cursor is below `pageHeight - 50`. */
  method WriteBought(checked: seq<GroceryItem>, y0: int, pageHeight: int) returns (ops: seq<DocOp>, y: int)
    ensures Texts(ops) == SectionTexts(BoughtHeader, checked)
    ensures Margin <= pageHeight - 30 ==> ItemsFit(ops, pageHeight)
    ensures checked != [] ==>
      || (y0 <= pageHeight - 50 && ops[0] == Write(BoughtHeader, AtX(Margin), y0))
      || (y0 > pageHeight - 50 && |ops| >= 2 && ops[0] == AddPage
          && ops[1] == Write(BoughtHeader, AtX(Margin), Margin))
  {
    ops, y := [], y0;
    if |checked| > 0 {
      var pageBreak: seq<DocOp> := [];
      if y > pageHeight - 50 {
        pageBreak := [AddPage];
        y := Margin;
      }
      var section;
      section, y := WriteSection(BoughtHeader, checked, y, pageHeight);
      TextsAppend(pageBreak, section);
      assert Texts(pageBreak) == [] by {
        if pageBreak != [] { TextsSnoc([], AddPage); assert [] + [AddPage] == pageBreak; }
      }
      if Margin <= pageHeight - 30 {
        ItemsFitAppend(pageBreak, section, pageHeight);
      }
      ops := pageBreak + section;
    }
  }

  /** The part after the separator rule for a non-empty merged list: the
      sections that have records, then the footer. */
  method WriteBody(merged: seq<GroceryItem>, y0: int, pageHeight: int) returns (ops: seq<DocOp>)
    ensures Texts(ops) == BodyTexts(merged)
    ensures |ops| >= 1 && ops[|ops| - 1] == Write(FooterText(|merged|, |Bought(merged)|), Centered, pageHeight - 20)
    ensures Margin <= pageHeight - 30 ==> ItemsFit(ops, pageHeight)
  {
    var toBuyOps, y := WriteToBuy(ToBuy(merged), y0, pageHeight);
    var boughtOps, _ := WriteBought(Bought(merged), y, pageHeight);
    var footer := Write(FooterText(|merged|, |Bought(merged)|), Centered, pageHeight - 20);
    TextsAppend(toBuyOps, boughtOps);
    TextsSnoc(toBuyOps + boughtOps, footer);
    if Margin <= pageHeight - 30 {
      ItemsFitAppend(toBuyOps, boughtOps, pageHeight);
      ItemsFitAppend(toBuyOps + boughtOps, [footer], pageHeight);
    }
    ops := toBuyOps + boughtOps + [footer];
  }

  lemma HeaderTexts(date: string)
    ensures Texts([Write(Title, Centered, Margin), Write(date, Centered, Margin + 15), Rule(Margin + 35)])
         == [Title, date]
  {
    var header := [Write(Title, Centered, Margin), Write(date, Centered, Margin + 15), Rule(Margin + 35)];
    TextsSnoc([], header[0]);
    assert [] + [header[0]] == header[..1];
    TextsSnoc(header[..1], header[1]);
    assert header[..1] + [header[1]] == header[..2];
    TextsSnoc(header[..2], header[2]);
    assert header[..2] + [header[2]] == header;
  }

  /** The whole export. `date` is the formatted current date and `nowIso`
      the current time as `toISOString` prints it. The merged list is empty
      exactly when the list is (Merge.MergedEmpty). */
  method GenerateShoppingListPdf(groceryList: seq<GroceryItem>, pageHeight: int, date: string, nowIso: string)
    returns (ops: seq<DocOp>, filename: string)
    ensures |ops| >= 4
    ensures ops[0] == Write(Title, Centered, Margin) && ops[1] == Write(date, Centered, Margin + 15)
      && ops[2] == Rule(Margin + 35)
    ensures Merged(groceryList) == [] ==> |ops| == 4 && ops[3] == Write(EmptyListMessage, Centered, Margin + 50)
    ensures Merged(groceryList) != [] ==>
      var m := Merged(groceryList);
      && Texts(ops) == [Title, date] + BodyTexts(m)
      && ops[|ops| - 1] == Write(FooterText(|m|, |Bought(m)|), Centered, pageHeight - 20)
    ensures Margin <= pageHeight - 30 ==> ItemsFit(ops, pageHeight)
    ensures filename == "liste-courses-" + Split(nowIso, 'T')[0] + ".pdf"
  {
    var header := [Write(Title, Centered, Margin), Write(date, Centered, Margin + 15), Rule(Margin + 35)];
    var y := Margin + 50;
    HeaderTexts(date);
    assert ItemsFit(header, pageHeight);

    var merged := MergeList(groceryList);
    if |merged| == 0 {
      var message := [Write(EmptyListMessage, Centered, y)];
      assert ItemsFit(message, pageHeight);
      ItemsFitAppend(header, message, pageHeight);
      ops := header + message;
    } else {
      var body := WriteBody(merged, y, pageHeight);
      TextsAppend(header, body);
      if Margin <= pageHeight - 30 {
        ItemsFitAppend(header, body, pageHeight);
      }
      ops := header + body;
      assert ops[|ops| - 1] == body[|body| - 1];
      assert ops[..3] == header;
    }
    filename := "liste-courses-" + Split(nowIso, 'T')[0] + ".pdf";
  }

  /** The footer's counts: the total is the number of merged records, at
      most the number of entries, and the bought count never exceeds it. */
  lemma FooterCounts(groceryList: seq<GroceryItem>)
    ensures var m := Merged(groceryList);
      |Bought(m)| <= |m| <= |groceryList|
      && |Bought(m)| == |m| - |ToBuy(m)|
  {
    PartitionCovers(Merged(groceryList));
    MergedKeys(Identify, groceryList);
  }
}
