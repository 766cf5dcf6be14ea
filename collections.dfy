/** Id-keyed sequences, as the client keeps templates, recipes, history
    entries and list items: `findIndex` by id, upsert, `filter` by id.
    `idOf` reads an element's `id` field. */
module Collections {

  /** `findIndex(x => idOf(x) === id)`: the first index holding the id, or -1. */
  function IndexOf<T>(xs: seq<T>, idOf: T -> string, id: string): (r: int)
    ensures -1 <= r < |xs|
    ensures 0 <= r ==> idOf(xs[r]) == id
    ensures 0 <= r ==> forall j :: 0 <= j < r ==> idOf(xs[j]) != id
    ensures r < 0 ==> forall j :: 0 <= j < |xs| ==> idOf(xs[j]) != id
    decreases |xs|
  {
    if xs == [] then -1
    else if idOf(xs[0]) == id then 0
    else
      var r := IndexOf(xs[1..], idOf, id);
      if r < 0 then -1 else r + 1
  }

  /** The `findIndex` loop. */
  method FindIndex<T>(xs: seq<T>, idOf: T -> string, id: string) returns (index: int)
    ensures index == IndexOf(xs, idOf, id)
  {
    index := 0;
    while index < |xs| && idOf(xs[index]) != id
      invariant 0 <= index <= |xs|
      invariant forall j :: 0 <= j < index ==> idOf(xs[j]) != id
    {
      index := index + 1;
    }
    if index == |xs| {
      index := -1;
    }
  }

  /** No two elements share an id. */
  predicate UniqueIds<T>(xs: seq<T>, idOf: T -> string) {
    forall i, j :: 0 <= i < j < |xs| ==> idOf(xs[i]) != idOf(xs[j])
  }

  /** Replace the first element with `x`'s id by `x`, in place; append `x`
      when there is none. */
  function Upsert<T>(xs: seq<T>, idOf: T -> string, x: T): seq<T> {
    var i := IndexOf(xs, idOf, idOf(x));
    if 0 <= i then xs[i := x] else xs + [x]
  }

  /** Upsert stores `x`: in place of the first element with its id (length
      unchanged, every other position as it was), or at the end when the id
      is new. */
  lemma UpsertSpec<T>(xs: seq<T>, idOf: T -> string, x: T)
    ensures var r := Upsert(xs, idOf, x);
      && x in r
      && ((exists j :: 0 <= j < |xs| && idOf(xs[j]) == idOf(x)) ==>
            |r| == |xs| && r[IndexOf(xs, idOf, idOf(x))] == x
            && forall j :: 0 <= j < |xs| && j != IndexOf(xs, idOf, idOf(x)) ==> r[j] == xs[j])
      && ((forall j :: 0 <= j < |xs| ==> idOf(xs[j]) != idOf(x)) ==> r == xs + [x])
  {
    var i := IndexOf(xs, idOf, idOf(x));
    if 0 <= i {
      assert Upsert(xs, idOf, x)[i] == x;
    } else {
      assert Upsert(xs, idOf, x)[|xs|] == x;
    }
  }

  /** Upsert brings in nothing but `x`. */
  lemma UpsertMembers<T>(xs: seq<T>, idOf: T -> string, x: T)
    ensures forall y :: y in Upsert(xs, idOf, x) ==> y in xs || y == x
  {
    var i := IndexOf(xs, idOf, idOf(x));
    if 0 <= i {
      forall y | y in xs[i := x] ensures y in xs || y == x {
        var k :| 0 <= k < |xs| && xs[i := x][k] == y;
        if k != i {
          assert xs[k] == y;
        }
      }
    }
  }

  /** Upsert keeps ids unique. */
  lemma UpsertKeepsUniqueIds<T>(xs: seq<T>, idOf: T -> string, x: T)
    requires UniqueIds(xs, idOf)
    ensures UniqueIds(Upsert(xs, idOf, x), idOf)
  {
    var i := IndexOf(xs, idOf, idOf(x));
    var r := Upsert(xs, idOf, x);
    if i < 0 {
      forall a, b | 0 <= a < b < |r| ensures idOf(r[a]) != idOf(r[b]) {
        if b == |xs| {
          assert r[a] == xs[a];
        }
      }
    }
  }

  /** `filter(x => idOf(x) !== id)`. */
  function RemoveId<T>(xs: seq<T>, idOf: T -> string, id: string): seq<T>
    decreases |xs|
  {
    if xs == [] then []
    else
      var rest := RemoveId(xs[..|xs| - 1], idOf, id);
      if idOf(xs[|xs| - 1]) == id then rest else rest + [xs[|xs| - 1]]
  }

  /** Removal keeps exactly the elements with another id. */
  lemma {:induction false} RemoveIdMembers<T>(xs: seq<T>, idOf: T -> string, id: string)
    ensures forall x :: x in RemoveId(xs, idOf, id) <==> x in xs && idOf(x) != id
    decreases |xs|
  {
    if xs != [] {
      var p := xs[..|xs| - 1];
      RemoveIdMembers(p, idOf, id);
      assert xs == p + [xs[|xs| - 1]];
    }
  }

  /** Removal shortens the sequence exactly when some element carries the
      id (the affected-rows count of a `DELETE … WHERE id = ?`). */
  lemma {:induction false} RemoveIdShrinks<T>(xs: seq<T>, idOf: T -> string, id: string)
    ensures |RemoveId(xs, idOf, id)| <= |xs|
    ensures |RemoveId(xs, idOf, id)| < |xs| <==> exists j :: 0 <= j < |xs| && idOf(xs[j]) == id
    decreases |xs|
  {
    if xs != [] {
      var n := |xs| - 1;
      RemoveIdShrinks(xs[..n], idOf, id);
      if exists j :: 0 <= j < n && idOf(xs[..n][j]) == id {
        var j :| 0 <= j < n && idOf(xs[..n][j]) == id;
        assert xs[j] == xs[..n][j];
      }
      if exists j :: 0 <= j < |xs| && idOf(xs[j]) == id {
        var j :| 0 <= j < |xs| && idOf(xs[j]) == id;
        if j < n {
          assert xs[..n][j] == xs[j];
        }
      }
    }
  }

  /** Removal keeps the order of what it keeps: it distributes over
      concatenation. */
  lemma {:induction false} RemoveIdAppend<T>(a: seq<T>, b: seq<T>, idOf: T -> string, id: string)
    ensures RemoveId(a + b, idOf, id) == RemoveId(a, idOf, id) + RemoveId(b, idOf, id)
    decreases |b|
  {
    if b == [] {
      assert a + b == a;
    } else {
      var p := b[..|b| - 1];
      assert (a + b)[..|a + b| - 1] == a + p;
      RemoveIdAppend(a, p, idOf, id);
    }
  }

  /** Removing an id nothing carries changes nothing. */
  lemma {:induction false} RemoveIdAbsent<T>(xs: seq<T>, idOf: T -> string, id: string)
    requires forall j :: 0 <= j < |xs| ==> idOf(xs[j]) != id
    ensures RemoveId(xs, idOf, id) == xs
    decreases |xs|
  {
    if xs != [] {
      RemoveIdAbsent(xs[..|xs| - 1], idOf, id);
    }
  }

  /** Overwriting an element of the removed id is invisible after removal. */
  lemma {:induction false} RemoveIdUpdate<T>(xs: seq<T>, idOf: T -> string, i: nat, x: T)
    requires i < |xs| && idOf(xs[i]) == idOf(x)
    ensures RemoveId(xs[i := x], idOf, idOf(x)) == RemoveId(xs, idOf, idOf(x))
    decreases |xs|
  {
    var p := xs[..|xs| - 1];
    if i < |xs| - 1 {
      assert xs[i := x][..|xs| - 1] == p[i := x];
      RemoveIdUpdate(p, idOf, i, x);
    } else {
      assert xs[i := x][..|xs| - 1] == p;
    }
  }

  /** Deleting by id after an upsert of that id leaves what deleting alone
      leaves. */
  lemma RemoveAfterUpsert<T>(xs: seq<T>, idOf: T -> string, x: T)
    ensures RemoveId(Upsert(xs, idOf, x), idOf, idOf(x)) == RemoveId(xs, idOf, idOf(x))
  {
    var i := IndexOf(xs, idOf, idOf(x));
    if 0 <= i {
      RemoveIdUpdate(xs, idOf, i, x);
    } else {
      assert (xs + [x])[..|xs|] == xs;
    }
  }

  /** `map(y => idOf(y) === idOf(x) ? x : y)`. */
  function ReplaceId<T>(xs: seq<T>, idOf: T -> string, x: T): seq<T> {
    seq(|xs|, i requires 0 <= i < |xs| => if idOf(xs[i]) == idOf(x) then x else xs[i])
  }

  /** With unique ids, replacing by id is the in-place branch of an upsert,
      and it keeps the ids unique. */
  lemma ReplaceIdIsUpsert<T>(xs: seq<T>, idOf: T -> string, x: T)
    requires UniqueIds(xs, idOf)
    requires exists j :: 0 <= j < |xs| && idOf(xs[j]) == idOf(x)
    ensures ReplaceId(xs, idOf, x) == Upsert(xs, idOf, x)
    ensures UniqueIds(ReplaceId(xs, idOf, x), idOf)
  {
    var i := IndexOf(xs, idOf, idOf(x));
    assert forall j :: 0 <= j < |xs| && j != i ==> idOf(xs[j]) != idOf(x);
    assert ReplaceId(xs, idOf, x) == xs[i := x];
  }
}
