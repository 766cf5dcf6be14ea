/** Merge-by-identity of grocery items, the `reduce` that the home page
    (src/pages/HomePage.tsx) and the PDF export (src/utils/pdfGenerator.ts)
    both run over the current list before showing it.

    Two items are the same article when their trimmed, lower-cased name and
    unit, joined by '|', are the same string. The first item of each group is
    copied; later members add their quantity to the copy and AND their
    `checked` flag into it. The groups come out in the order their keys were
    first seen (the merge keys always contain '|', so none of them is an
    array-index key, and Object.values keeps insertion order).

    The fold and its lemmas are stated for any identity function of name and
    unit (`ident`); the application's is `Identify`, and `Merged` is the fold
    with it. `MergeList` is the reduce as the source runs it, over a
    dictionary accumulator. */
module Merge {
  import opened Text
  import opened Types

  /** What makes two items the same article: a function of name and unit. */
  type Identity = (string, string) -> string

  function KeyOf(ident: Identity, item: GroceryItem): string {
    ident(item.name, item.unit)
  }

  /** The application's identity: `name.trim().toLowerCase() + '|' +
      unit.trim().toLowerCase()` (see IdentifyIsConcatenation). */
  function Identify(name: string, unit: string): string {
    JoinKey(Lower(Trim(name)), Lower(Trim(unit)))
  }

  function Key(item: GroceryItem): string {
    Identify(item.name, item.unit)
  }

  /** `a + "|" + b`, written out character by character. */
  function JoinKey(a: string, b: string): string
    decreases |a|
  {
    if a == [] then ['|'] + b else [a[0]] + JoinKey(a[1..], b)
  }

  lemma {:induction false} JoinKeyIsConcatenation(a: string, b: string)
    ensures JoinKey(a, b) == a + "|" + b
    decreases |a|
  {
    if a != [] {
      JoinKeyIsConcatenation(a[1..], b);
      assert [a[0]] + (a[1..] + "|" + b) == a + "|" + b;
    }
  }

  lemma IdentifyIsConcatenation(name: string, unit: string)
    ensures Identify(name, unit) == Lower(Trim(name)) + "|" + Lower(Trim(unit))
  {
    JoinKeyIsConcatenation(Lower(Trim(name)), Lower(Trim(unit)));
  }

  /** A later member of a group folded into the group's record. */
  function Absorb(group: GroceryItem, item: GroceryItem): GroceryItem {
    group.(quantity := group.quantity + item.quantity, checked := group.checked && item.checked)
  }

  /** Index of the group with key `k`, or -1 when there is none. */
  function FindKey(ident: Identity, groups: seq<GroceryItem>, k: string): (r: int)
    ensures -1 <= r < |groups|
    ensures 0 <= r ==> KeyOf(ident, groups[r]) == k
    ensures r < 0 ==> forall j :: 0 <= j < |groups| ==> KeyOf(ident, groups[j]) != k
  {
    if groups == [] then -1
    else if KeyOf(ident, groups[0]) == k then 0
    else
      var r := FindKey(ident, groups[1..], k);
      if r < 0 then -1 else r + 1
  }

  /** One step of the reduce: open a group for a new key, or fold the item
      into the group that already has its key. */
  function Step(ident: Identity, groups: seq<GroceryItem>, item: GroceryItem): seq<GroceryItem> {
    var j := FindKey(ident, groups, KeyOf(ident, item));
    if j < 0 then groups + [item] else groups[j := Absorb(groups[j], item)]
  }

  /** The reduce over the whole list. */
  function MergedBy(ident: Identity, items: seq<GroceryItem>): seq<GroceryItem>
    decreases |items|
  {
    if items == [] then []
    else Step(ident, MergedBy(ident, items[..|items| - 1]), items[|items| - 1])
  }

  /** The merged list the application shows. */
  function Merged(items: seq<GroceryItem>): seq<GroceryItem> {
    MergedBy(Identify, items)
  }

  // ---------------------------------------------------------------------
  // Reference notions, defined on the input list alone.

  /** The members of the group with key `k`, in list order. */
  function Members(ident: Identity, items: seq<GroceryItem>, k: string): seq<GroceryItem>
    decreases |items|
  {
    if items == [] then []
    else
      var last := items[|items| - 1];
      Members(ident, items[..|items| - 1], k) + (if KeyOf(ident, last) == k then [last] else [])
  }

  function SumQuantity(items: seq<GroceryItem>): int
    decreases |items|
  {
    if items == [] then 0 else SumQuantity(items[..|items| - 1]) + items[|items| - 1].quantity
  }

  predicate AllChecked(items: seq<GroceryItem>) {
    forall i :: 0 <= i < |items| ==> items[i].checked
  }

  /** Position of the first item with key `k`, or -1. */
  function FirstIndex(ident: Identity, items: seq<GroceryItem>, k: string): int
    decreases |items|
  {
    if items == [] then -1
    else
      var f := FirstIndex(ident, items[..|items| - 1], k);
      if 0 <= f then f else if KeyOf(ident, items[|items| - 1]) == k then |items| - 1 else -1
  }

  /** The record a group should have: its first member, with the summed
      quantity and the AND of the members' flags. */
  function Combine(members: seq<GroceryItem>): GroceryItem
    requires members != []
  {
    members[0].(quantity := SumQuantity(members), checked := AllChecked(members))
  }

  predicate DistinctKeys(ident: Identity, groups: seq<GroceryItem>) {
    forall j, j' :: 0 <= j < j' < |groups| ==> KeyOf(ident, groups[j]) != KeyOf(ident, groups[j'])
  }

  /** Same article record apart from quantity and flag. */
  predicate SameOrigin(group: GroceryItem, item: GroceryItem) {
    group.id == item.id && group.name == item.name && group.unit == item.unit
    && group.category == item.category
  }

  // ---------------------------------------------------------------------
  // Facts about the reference notions.

  lemma {:induction false} MembersSpec(ident: Identity, items: seq<GroceryItem>, k: string)
    ensures forall x :: x in Members(ident, items, k) <==> x in items && KeyOf(ident, x) == k
    decreases |items|
  {
    if items != [] {
      var p := items[..|items| - 1];
      MembersSpec(ident, p, k);
      assert items == p + [items[|items| - 1]];
    }
  }

  lemma {:induction false} MembersNone(ident: Identity, items: seq<GroceryItem>, k: string)
    requires forall i :: 0 <= i < |items| ==> KeyOf(ident, items[i]) != k
    ensures Members(ident, items, k) == []
    decreases |items|
  {
    if items != [] {
      MembersNone(ident, items[..|items| - 1], k);
    }
  }

  lemma {:induction false} FirstIndexSpec(ident: Identity, items: seq<GroceryItem>, k: string)
    ensures var f := FirstIndex(ident, items, k);
      && -1 <= f < |items|
      && (0 <= f ==>
            KeyOf(ident, items[f]) == k
            && Members(ident, items, k) != [] && Members(ident, items, k)[0] == items[f])
      && (forall i :: 0 <= i < |items| && KeyOf(ident, items[i]) == k ==> 0 <= f <= i)
      && (f < 0 <==> Members(ident, items, k) == [])
    decreases |items|
  {
    if items != [] {
      var p := items[..|items| - 1];
      FirstIndexSpec(ident, p, k);
      forall i | 0 <= i < |items| - 1
        ensures items[i] == p[i]
      {
      }
    }
  }

  lemma SumQuantitySingleton(x: GroceryItem)
    ensures SumQuantity([x]) == x.quantity
  {
    assert [x][..0] == [];
  }

  lemma {:induction false} CombineSnoc(members: seq<GroceryItem>, x: GroceryItem)
    requires members != []
    ensures Combine(members + [x]) == Absorb(Combine(members), x)
  {
    var s := members + [x];
    assert s[..|s| - 1] == members;
    assert AllChecked(s) == (AllChecked(members) && x.checked) by {
      if AllChecked(members) && x.checked {
        forall i | 0 <= i < |s| ensures s[i].checked {
          if i < |members| { assert s[i] == members[i]; }
        }
      }
      if AllChecked(s) {
        assert s[|s| - 1] == x;
        forall i | 0 <= i < |members| ensures members[i].checked {
          assert s[i] == members[i];
        }
      }
    }
  }

  lemma {:induction false} SumQuantityReplace(s: seq<GroceryItem>, j: nat, y: GroceryItem)
    requires j < |s|
    ensures SumQuantity(s[j := y]) == SumQuantity(s) - s[j].quantity + y.quantity
    decreases |s|
  {
    var t := s[j := y];
    if j == |s| - 1 {
      assert t[..|t| - 1] == s[..|s| - 1];
    } else {
      var p := s[..|s| - 1];
      SumQuantityReplace(p, j, y);
      assert t[..|t| - 1] == p[j := y];
    }
  }

  // ---------------------------------------------------------------------
  // What the merge computes.

  lemma FindKeyPresent(ident: Identity, groups: seq<GroceryItem>, j: nat)
    requires j < |groups|
    ensures 0 <= FindKey(ident, groups, KeyOf(ident, groups[j]))
  {
  }

  /** What one step does to the keys: the item's key ends up present, and
      the step either appends the item (its key was new) or keeps every key
      in place. */
  lemma StepKeys(ident: Identity, groups: seq<GroceryItem>, x: GroceryItem)
    ensures var m := Step(ident, groups, x);
      && |groups| <= |m| <= |groups| + 1
      && (forall j :: 0 <= j < |groups| ==> KeyOf(ident, m[j]) == KeyOf(ident, groups[j]))
      && 0 <= FindKey(ident, m, KeyOf(ident, x))
      && (|m| == |groups| + 1 ==> m[|groups|] == x && FindKey(ident, groups, KeyOf(ident, x)) < 0)
      && (|m| == |groups| ==> 0 <= FindKey(ident, groups, KeyOf(ident, x)))
  {
    var m := Step(ident, groups, x);
    var j0 := FindKey(ident, groups, KeyOf(ident, x));
    if j0 < 0 {
      assert KeyOf(ident, m[|groups|]) == KeyOf(ident, x);
    } else {
      assert KeyOf(ident, m[j0]) == KeyOf(ident, x);
    }
  }

  /** The merged list never has two records with one key, and every key of
      the input has its record. */
  lemma {:induction false} MergedKeys(ident: Identity, items: seq<GroceryItem>)
    ensures var m := MergedBy(ident, items);
      && |m| <= |items|
      && DistinctKeys(ident, m)
      && (forall i :: 0 <= i < |items| ==> 0 <= FindKey(ident, m, KeyOf(ident, items[i])))
    decreases |items|
  {
    if items != [] {
      var p := items[..|items| - 1];
      var x := items[|items| - 1];
      MergedKeys(ident, p);
      var mp := MergedBy(ident, p);
      var m := MergedBy(ident, items);
      StepKeys(ident, mp, x);
      forall j, j' | 0 <= j < j' < |m| ensures KeyOf(ident, m[j]) != KeyOf(ident, m[j']) {
        if j' == |mp| {
          assert KeyOf(ident, mp[j]) != KeyOf(ident, x);
        } else {
          assert KeyOf(ident, mp[j]) != KeyOf(ident, mp[j']);
        }
      }
      forall i | 0 <= i < |items|
        ensures 0 <= FindKey(ident, m, KeyOf(ident, items[i]))
      {
        if i < |p| {
          assert items[i] == p[i];
          var g := FindKey(ident, mp, KeyOf(ident, p[i]));
          assert KeyOf(ident, m[g]) == KeyOf(ident, items[i]);
          FindKeyPresent(ident, m, g);
        }
      }
    }
  }

  /** An item whose key has no record in the merge of `p` has no earlier
      member in `p`. */
  lemma NewKeyHasNoMembers(ident: Identity, p: seq<GroceryItem>, k: string)
    requires FindKey(ident, MergedBy(ident, p), k) < 0
    ensures Members(ident, p, k) == [] && FirstIndex(ident, p, k) < 0
  {
    var mp := MergedBy(ident, p);
    MergedKeys(ident, p);
    forall i | 0 <= i < |p| ensures KeyOf(ident, p[i]) != k {
      var g := FindKey(ident, mp, KeyOf(ident, p[i]));
      assert KeyOf(ident, mp[g]) == KeyOf(ident, p[i]);
    }
    MembersNone(ident, p, k);
    FirstIndexSpec(ident, p, k);
  }

  lemma MembersOfOtherKey(ident: Identity, items: seq<GroceryItem>, k: string)
    requires items != [] && KeyOf(ident, items[|items| - 1]) != k
    ensures Members(ident, items, k) == Members(ident, items[..|items| - 1], k)
  {
  }

  /** Each merged record is the combination of its group's members. */
  lemma {:induction false} MergedGroups(ident: Identity, items: seq<GroceryItem>)
    ensures var m := MergedBy(ident, items);
      forall j :: 0 <= j < |m| ==>
        Members(ident, items, KeyOf(ident, m[j])) != []
        && m[j] == Combine(Members(ident, items, KeyOf(ident, m[j])))
    decreases |items|
  {
    if items != [] {
      var p := items[..|items| - 1];
      var x := items[|items| - 1];
      var k := KeyOf(ident, x);
      MergedGroups(ident, p);
      var mp := MergedBy(ident, p);
      var m := MergedBy(ident, items);
      var j0 := FindKey(ident, mp, k);
      if j0 < 0 {
        assert m == mp + [x];
        NewKeyHasNoMembers(ident, p, k);
        assert Members(ident, items, k) == [x];
        SumQuantitySingleton(x);
        assert Combine([x]) == x;
        forall j | 0 <= j < |m|
          ensures Members(ident, items, KeyOf(ident, m[j])) != []
            && m[j] == Combine(Members(ident, items, KeyOf(ident, m[j])))
        {
          if j < |mp| {
            assert m[j] == mp[j];
            MembersOfOtherKey(ident, items, KeyOf(ident, mp[j]));
          }
        }
      } else {
        assert m == mp[j0 := Absorb(mp[j0], x)];
        MergedKeys(ident, p);
        CombineSnoc(Members(ident, p, k), x);
        forall j | 0 <= j < |m|
          ensures Members(ident, items, KeyOf(ident, m[j])) != []
            && m[j] == Combine(Members(ident, items, KeyOf(ident, m[j])))
        {
          if j != j0 {
            assert m[j] == mp[j];
            assert KeyOf(ident, mp[j]) != k;
            MembersOfOtherKey(ident, items, KeyOf(ident, mp[j]));
          }
        }
      }
    }
  }

  /** The records come in the order their keys are first seen in the list. */
  lemma {:induction false} MergedOrder(ident: Identity, items: seq<GroceryItem>)
    ensures var m := MergedBy(ident, items);
      && (forall j :: 0 <= j < |m| ==> 0 <= FirstIndex(ident, items, KeyOf(ident, m[j])) < |items|)
      && (forall j, j' :: 0 <= j < j' < |m| ==>
            FirstIndex(ident, items, KeyOf(ident, m[j])) < FirstIndex(ident, items, KeyOf(ident, m[j'])))
    decreases |items|
  {
    if items != [] {
      var p := items[..|items| - 1];
      var x := items[|items| - 1];
      MergedOrder(ident, p);
      var mp := MergedBy(ident, p);
      var m := MergedBy(ident, items);
      StepKeys(ident, mp, x);
      forall j | 0 <= j < |mp|
        ensures FirstIndex(ident, items, KeyOf(ident, m[j])) == FirstIndex(ident, p, KeyOf(ident, mp[j]))
      {
      }
      if |m| == |mp| + 1 {
        NewKeyHasNoMembers(ident, p, KeyOf(ident, x));
        assert FirstIndex(ident, items, KeyOf(ident, m[|mp|])) == |p|;
      }
    }
  }

  /** Total quantity is conserved: the merged list holds exactly the
      quantity of the input. */
  lemma {:induction false} MergeConservesQuantity(ident: Identity, items: seq<GroceryItem>)
    ensures SumQuantity(MergedBy(ident, items)) == SumQuantity(items)
    decreases |items|
  {
    if items != [] {
      var p := items[..|items| - 1];
      var x := items[|items| - 1];
      MergeConservesQuantity(ident, p);
      var mp := MergedBy(ident, p);
      var j0 := FindKey(ident, mp, KeyOf(ident, x));
      if j0 < 0 {
        assert (mp + [x])[..|mp|] == mp;
      } else {
        SumQuantityReplace(mp, j0, Absorb(mp[j0], x));
      }
    }
  }

  /** A list whose keys are already distinct is its own merge. */
  lemma {:induction false} MergeOfDistinct(ident: Identity, groups: seq<GroceryItem>)
    requires DistinctKeys(ident, groups)
    ensures MergedBy(ident, groups) == groups
    decreases |groups|
  {
    if groups != [] {
      var p := groups[..|groups| - 1];
      var x := groups[|groups| - 1];
      MergeOfDistinct(ident, p);
      assert FindKey(ident, p, KeyOf(ident, x)) < 0 by {
        forall j | 0 <= j < |p| ensures KeyOf(ident, p[j]) != KeyOf(ident, x) {
          assert p[j] == groups[j];
        }
      }
      assert p + [x] == groups;
    }
  }

  /** Merging an already-merged list gives the same list. */
  lemma MergeIdempotent(ident: Identity, items: seq<GroceryItem>)
    ensures MergedBy(ident, MergedBy(ident, items)) == MergedBy(ident, items)
  {
    MergedKeys(ident, items);
    MergeOfDistinct(ident, MergedBy(ident, items));
  }

  /** A merged record is checked exactly when every member of its group is. */
  lemma MergedChecked(ident: Identity, items: seq<GroceryItem>, j: nat)
    requires j < |MergedBy(ident, items)|
    ensures var g := MergedBy(ident, items)[j];
      g.checked <==>
        forall i :: 0 <= i < |items| && KeyOf(ident, items[i]) == KeyOf(ident, g) ==> items[i].checked
  {
    var m := MergedBy(ident, items);
    var k := KeyOf(ident, m[j]);
    MergedGroups(ident, items);
    MembersSpec(ident, items, k);
    var ms := Members(ident, items, k);
    if m[j].checked {
      forall i | 0 <= i < |items| && KeyOf(ident, items[i]) == k ensures items[i].checked {
        assert items[i] in ms;
      }
    } else {
      var w :| 0 <= w < |ms| && !ms[w].checked;
      assert ms[w] in items;
    }
  }

  /** Each merged record copies the identity fields of the first item of its
      group and carries the group's total quantity. */
  lemma MergedRecord(ident: Identity, items: seq<GroceryItem>, j: nat)
    requires j < |MergedBy(ident, items)|
    ensures var g := MergedBy(ident, items)[j];
      var f := FirstIndex(ident, items, KeyOf(ident, g));
      && 0 <= f < |items|
      && SameOrigin(g, items[f])
      && g.quantity == SumQuantity(Members(ident, items, KeyOf(ident, g)))
  {
    var g := MergedBy(ident, items)[j];
    MergedGroups(ident, items);
    FirstIndexSpec(ident, items, KeyOf(ident, g));
  }

  /** The merged list is empty exactly when the list is. */
  lemma MergedEmpty(ident: Identity, items: seq<GroceryItem>)
    ensures MergedBy(ident, items) == [] <==> items == []
  {
    MergedKeys(ident, items);
    if items != [] {
      assert 0 <= FindKey(ident, MergedBy(ident, items), KeyOf(ident, items[0]));
    }
  }

  /** '|' is a plain separator: a name containing it can collide with a unit
      containing it. */
  lemma KeySeparatorCollision()
    ensures Identify("a|b", "c") == Identify("a", "b|c")
  {
    IdentifyIsConcatenation("a|b", "c");
    IdentifyIsConcatenation("a", "b|c");
    assert Trim("a|b") == "a|b";
    assert Trim("c") == "c";
    assert Trim("a") == "a";
    assert Trim("b|c") == "b|c";
  }

  // ---------------------------------------------------------------------
  // The reduce as the source runs it.

  /** The dictionary accumulator: `order` lists its keys once each, in
      insertion order, and each record sits under its own key. */
  predicate Tracks(ident: Identity, acc: map<string, GroceryItem>, order: seq<string>) {
    && (forall j :: 0 <= j < |order| ==> order[j] in acc && KeyOf(ident, acc[order[j]]) == order[j])
    && (forall j, j' :: 0 <= j < j' < |order| ==> order[j] != order[j'])
    && (forall k :: k in acc ==> k in order)
  }

  function Values(ident: Identity, acc: map<string, GroceryItem>, order: seq<string>): seq<GroceryItem>
    requires Tracks(ident, acc, order)
  {
    seq(|order|, j requires 0 <= j < |order| => acc[order[j]])
  }

  lemma InsertNewKey(ident: Identity, acc: map<string, GroceryItem>, order: seq<string>, item: GroceryItem)
    requires Tracks(ident, acc, order) && KeyOf(ident, item) !in acc
    ensures Tracks(ident, acc[KeyOf(ident, item) := item], order + [KeyOf(ident, item)])
    ensures Values(ident, acc[KeyOf(ident, item) := item], order + [KeyOf(ident, item)]) == Step(ident, Values(ident, acc, order), item)
  {
    var before := Values(ident, acc, order);
    var key := KeyOf(ident, item);
    assert FindKey(ident, before, key) < 0 by {
      forall j | 0 <= j < |before| ensures KeyOf(ident, before[j]) != key {
        assert KeyOf(ident, before[j]) == order[j];
      }
    }
    assert Values(ident, acc[key := item], order + [key]) == before + [item];
  }

  lemma UpdateKey(ident: Identity, acc: map<string, GroceryItem>, order: seq<string>, item: GroceryItem)
    requires Tracks(ident, acc, order) && KeyOf(ident, item) in acc
    ensures Tracks(ident, acc[KeyOf(ident, item) := Absorb(acc[KeyOf(ident, item)], item)], order)
    ensures Values(ident, acc[KeyOf(ident, item) := Absorb(acc[KeyOf(ident, item)], item)], order)
         == Step(ident, Values(ident, acc, order), item)
  {
    var before := Values(ident, acc, order);
    var key := KeyOf(ident, item);
    var j0 :| 0 <= j0 < |order| && order[j0] == key;
    assert KeyOf(ident, before[j0]) == key;
    var f := FindKey(ident, before, key);
    assert order[f] == key;
    var g := Absorb(acc[key], item);
    assert KeyOf(ident, g) == key;
    var acc' := acc[key := g];
    forall j | 0 <= j < |order| ensures acc'[order[j]] == before[j0 := g][j] {
      if j != j0 {
        assert order[j] != key;
      }
    }
    assert Values(ident, acc', order) == before[j0 := g];
  }

  /** The reduce of HomePage.tsx and pdfGenerator.ts: a dictionary from key
      to a shallow copy of the group's first item, updated in place; `order`
      is the dictionary's key insertion order, which Object.values follows. */
  method MergeList(items: seq<GroceryItem>) returns (merged: seq<GroceryItem>)
    ensures merged == Merged(items)
  {
    var acc: map<string, GroceryItem> := map[];
    var order: seq<string> := [];
    for i := 0 to |items|
      invariant Tracks(Identify, acc, order)
      invariant Values(Identify, acc, order) == MergedBy(Identify, items[..i])
    {
      var item := items[i];
      var key := Key(item);
      assert items[..i + 1][..i] == items[..i];
      if key !in acc {
        InsertNewKey(Identify, acc, order, item);
        acc := acc[key := item];
        order := order + [key];
      } else {
        UpdateKey(Identify, acc, order, item);
        acc := acc[key := Absorb(acc[key], item)];
      }
    }
    assert items[..|items|] == items;
    merged := Values(Identify, acc, order);
  }
}
