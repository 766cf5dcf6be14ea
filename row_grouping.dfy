/** Parent/child rows as the server's GET handlers group them
    (api/routes/index.js): a `forEach` that pushes each child row onto the
    array kept under its parent's key, read back with `groups[id] || []`.
    `keyOf` reads a row's parent id, `project` the part of it that is
    pushed. */
module RowGrouping {
  import opened Collections

  /** The children of `key`, in row order. */
  function Children<R, C>(rows: seq<R>, keyOf: R -> string, project: R -> C, key: string): seq<C>
    decreases |rows|
  {
    if rows == [] then []
    else
      var n := |rows| - 1;
      Children(rows[..n], keyOf, project, key) + (if keyOf(rows[n]) == key then [project(rows[n])] else [])
  }

  /** `groups[key] || []`. */
  function Lookup<C>(groups: map<string, seq<C>>, key: string): seq<C> {
    if key in groups then groups[key] else []
  }

  /** A parent's children are exactly the projections of its rows. */
  lemma {:induction false} ChildrenMembers<R, C>(rows: seq<R>, keyOf: R -> string, project: R -> C, key: string)
    ensures forall c :: c in Children(rows, keyOf, project, key) ==>
      exists i :: 0 <= i < |rows| && keyOf(rows[i]) == key && project(rows[i]) == c
    ensures forall i :: 0 <= i < |rows| && keyOf(rows[i]) == key ==> project(rows[i]) in Children(rows, keyOf, project, key)
    decreases |rows|
  {
    if rows != [] {
      var n := |rows| - 1;
      var p := rows[..n];
      ChildrenMembers(p, keyOf, project, key);
      forall c | c in Children(rows, keyOf, project, key)
        ensures exists i :: 0 <= i < |rows| && keyOf(rows[i]) == key && project(rows[i]) == c
      {
        if c in Children(p, keyOf, project, key) {
          var i :| 0 <= i < |p| && keyOf(p[i]) == key && project(p[i]) == c;
          assert p[i] == rows[i];
        } else {
          assert keyOf(rows[n]) == key && project(rows[n]) == c;
        }
      }
      forall i | 0 <= i < |rows| && keyOf(rows[i]) == key
        ensures project(rows[i]) in Children(rows, keyOf, project, key)
      {
        if i < n {
          assert p[i] == rows[i];
        }
      }
    }
  }

  /** Grouping distributes over concatenation: children keep their order. */
  lemma {:induction false} ChildrenAppend<R, C>(a: seq<R>, b: seq<R>, keyOf: R -> string, project: R -> C, key: string)
    ensures Children(a + b, keyOf, project, key) == Children(a, keyOf, project, key) + Children(b, keyOf, project, key)
    decreases |b|
  {
    if b == [] {
      assert a + b == a;
    } else {
      var n := |b| - 1;
      assert (a + b)[..|a + b| - 1] == a + b[..n];
      ChildrenAppend(a, b[..n], keyOf, project, key);
    }
  }

  /** A key no row carries has no children. */
  lemma {:induction false} ChildrenNone<R, C>(rows: seq<R>, keyOf: R -> string, project: R -> C, key: string)
    requires forall i :: 0 <= i < |rows| ==> keyOf(rows[i]) != key
    ensures Children(rows, keyOf, project, key) == []
    decreases |rows|
  {
    if rows != [] {
      ChildrenNone(rows[..|rows| - 1], keyOf, project, key);
    }
  }

  /** When every row carries the key, its children are all the rows,
      projected, in order. */
  lemma {:induction false} ChildrenAllKeyed<R, C>(rows: seq<R>, keyOf: R -> string, project: R -> C, key: string)
    requires forall i :: 0 <= i < |rows| ==> keyOf(rows[i]) == key
    ensures Children(rows, keyOf, project, key) == seq(|rows|, i requires 0 <= i < |rows| => project(rows[i]))
    decreases |rows|
  {
    if rows != [] {
      var n := |rows| - 1;
      ChildrenAllKeyed(rows[..n], keyOf, project, key);
    }
  }

  /** Deleting a parent's rows (`DELETE … WHERE parent = ?`) empties its
      group and leaves every other group as it was. */
  lemma {:induction false} ChildrenOfRemoved<R, C>(rows: seq<R>, keyOf: R -> string, project: R -> C, key: string, other: string)
    ensures Children(RemoveId(rows, keyOf, key), keyOf, project, other) ==
      if other == key then [] else Children(rows, keyOf, project, other)
    decreases |rows|
  {
    if rows != [] {
      var n := |rows| - 1;
      ChildrenOfRemoved(rows[..n], keyOf, project, key, other);
      if keyOf(rows[n]) != key {
        ChildrenAppend(RemoveId(rows[..n], keyOf, key), [rows[n]], keyOf, project, other);
      }
    }
  }

  /** Wholesale replacement, as the PUT handlers do it: after deleting a
      parent's rows and inserting `added`, its children are exactly `added`,
      and every other parent's children are unchanged. */
  lemma ReplaceChildren<R, C>(rows: seq<R>, added: seq<R>, keyOf: R -> string, project: R -> C, key: string, other: string)
    requires forall i :: 0 <= i < |added| ==> keyOf(added[i]) == key
    ensures Children(RemoveId(rows, keyOf, key) + added, keyOf, project, other) ==
      if other == key then seq(|added|, i requires 0 <= i < |added| => project(added[i]))
      else Children(rows, keyOf, project, other)
  {
    ChildrenAppend(RemoveId(rows, keyOf, key), added, keyOf, project, other);
    ChildrenOfRemoved(rows, keyOf, project, key, other);
    if other == key {
      ChildrenAllKeyed(added, keyOf, project, key);
    } else {
      ChildrenNone(added, keyOf, project, other);
    }
  }

  lemma ChildrenPrefix<R, C>(rows: seq<R>, i: int, keyOf: R -> string, project: R -> C, key: string)
    requires 0 <= i < |rows|
    ensures Children(rows[..i + 1], keyOf, project, key) ==
      Children(rows[..i], keyOf, project, key) + (if keyOf(rows[i]) == key then [project(rows[i])] else [])
  {
    assert rows[..i + 1][..i] == rows[..i];
  }

  /** The `forEach`/`push` loop: one array per parent key that occurs, each
      holding that parent's children in row order. */
  method GroupBy<R, C>(rows: seq<R>, keyOf: R -> string, project: R -> C) returns (groups: map<string, seq<C>>)
    ensures forall k :: k in groups <==> exists i :: 0 <= i < |rows| && keyOf(rows[i]) == k
    ensures forall k :: Lookup(groups, k) == Children(rows, keyOf, project, k)
  {
    groups := map[];
    var i := 0;
    while i < |rows|
      invariant 0 <= i <= |rows|
      invariant forall k :: k in groups <==> exists j :: 0 <= j < i && keyOf(rows[j]) == k
      invariant forall k :: Lookup(groups, k) == Children(rows[..i], keyOf, project, k)
    {
      var key := keyOf(rows[i]);
      if key !in groups {
        groups := groups[key := []];
      }
      groups := groups[key := groups[key] + [project(rows[i])]];
      forall k
        ensures Lookup(groups, k) == Children(rows[..i + 1], keyOf, project, k)
      {
        ChildrenPrefix(rows, i, keyOf, project, k);
      }
      forall k
        ensures k in groups <==> exists j :: 0 <= j < i + 1 && keyOf(rows[j]) == k
      {
        if k == key {
          assert keyOf(rows[i]) == k;
        }
      }
      i := i + 1;
    }
    assert rows[..i] == rows;
  }
}
