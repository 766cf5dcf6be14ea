/** The legacy single-page app's IndexedDB store (app.js): an auto-increment
    object store `items` of `{name, quantity, unit, week}` records and an
    auto-increment object store `template_items` of the same records tagged
    with a `template_name`.

    Each operation reads the store (`getAll`, in ascending key order) and
    then puts, adds or deletes in a loop over what it read; the model runs
    each such callback chain as one step of a `ListStore` object. Key
    generators start at 1 and move past every numeric key put explicitly. */
module LegacyStore {
  import opened Types
  import opened WeekLabels

  datatype Record = Record(name: string, quantity: int, unit: string, week: string)

  datatype TemplateRow = TemplateRow(name: string, quantity: int, unit: string, week: string, templateName: string)

  /** A value put by `importerDonnees`, with the key it carries, if any. */
  datatype Put<T> = Put(id: Option<nat>, value: T)

  /** The parsed import file: each list is absent when the file has no array
      under that name. */
  datatype ImportData = ImportData(items: Option<seq<Put<Record>>>, templateItems: Option<seq<Put<TemplateRow>>>)

  predicate IsArticle(r: Record, name: string, unit: string, week: string) {
    r.name == name && r.unit == unit && r.week == week
  }

  // ---------------------------------------------------------------------
  // Add or update.

  predicate HasArticle(items: map<nat, Record>, name: string, unit: string, week: string) {
    exists id :: id in items && IsArticle(items[id], name, unit, week)
  }

  function Bumped(items: map<nat, Record>, name: string, unit: string, week: string, quantity: int): map<nat, Record> {
    map id | id in items ::
      if IsArticle(items[id], name, unit, week) then items[id].(quantity := items[id].quantity + quantity)
      else items[id]
  }

  /** The loop of `ajouterOuMettreAJourItem` after the keys below `bound`:
      the records of the article among them have gained the quantity. */
  function BumpedBelow(items: map<nat, Record>, bound: nat, name: string, unit: string, week: string, quantity: int)
    : map<nat, Record>
  {
    map id | id in items ::
      if id < bound && IsArticle(items[id], name, unit, week) then items[id].(quantity := items[id].quantity + quantity)
      else items[id]
  }

  lemma BumpedBelowStep(items: map<nat, Record>, bound: nat, name: string, unit: string, week: string, quantity: int)
    ensures var b := BumpedBelow(items, bound, name, unit, week, quantity);
      BumpedBelow(items, bound + 1, name, unit, week, quantity) ==
        if bound in items && IsArticle(items[bound], name, unit, week)
        then b[bound := items[bound].(quantity := items[bound].quantity + quantity)]
        else b
  {
  }

  lemma BumpedBelowAll(items: map<nat, Record>, bound: nat, name: string, unit: string, week: string, quantity: int)
    requires forall id :: id in items ==> id < bound
    ensures BumpedBelow(items, bound, name, unit, week, quantity) == Bumped(items, name, unit, week, quantity)
  {
  }

  /** The store after `ajouterOuMettreAJourItem`: every record of the same
      name, unit and week gains the quantity; with none, one record is added
      under the next key. */
  function AddOrUpdateResult(items: map<nat, Record>, next: nat, name: string, quantity: int, unit: string, week: string)
    : (map<nat, Record>, nat)
  {
    if HasArticle(items, name, unit, week) then (Bumped(items, name, unit, week, quantity), next)
    else (items[next := Record(name, quantity, unit, week)], next + 1)
  }

  /** At most one record per name, unit and week. */
  predicate NoDuplicates(items: map<nat, Record>) {
    forall i, j :: i in items && j in items && i != j ==>
      !IsArticle(items[j], items[i].name, items[i].unit, items[i].week)
  }

  /** After an add-or-update the article is present, every record of it
      holds its old quantity plus the added one (a new record holds the added
      one), every other record is as it was, and no second record of an
      article appears. */
  lemma AddOrUpdateSpec(items: map<nat, Record>, next: nat, name: string, quantity: int, unit: string, week: string)
    requires forall id :: id in items ==> id < next
    ensures var (m, n) := AddOrUpdateResult(items, next, name, quantity, unit, week);
      && HasArticle(m, name, unit, week)
      && (forall id :: id in items ==> id in m)
      && (forall id :: id in m && IsArticle(m[id], name, unit, week) ==>
            m[id].quantity == quantity + (if id in items then items[id].quantity else 0))
      && (forall id :: id in m && !IsArticle(m[id], name, unit, week) ==> id in items && m[id] == items[id])
      && (forall id :: id in m ==> id < n)
      && (NoDuplicates(items) ==> NoDuplicates(m))
  {
    var (m, n) := AddOrUpdateResult(items, next, name, quantity, unit, week);
    if HasArticle(items, name, unit, week) {
      var id :| id in items && IsArticle(items[id], name, unit, week);
      assert IsArticle(m[id], name, unit, week);
    } else {
      assert IsArticle(m[next], name, unit, week);
    }
  }

  // ---------------------------------------------------------------------
  // Reading the store in key order.

  /** The keys below `bound` of the records of `week`, ascending. */
  function IdsOfWeek(items: map<nat, Record>, bound: nat, week: string): (ids: seq<nat>)
    ensures forall i :: 0 <= i < |ids| ==> ids[i] in items && ids[i] < bound && items[ids[i]].week == week
    ensures forall id :: id in items && id < bound && items[id].week == week ==> id in ids
    decreases bound
  {
    if bound == 0 then []
    else
      var id := bound - 1;
      IdsOfWeek(items, id, week) + (if id in items && items[id].week == week then [id] else [])
  }

  /** The rows of a template, in key order (the `filter` over `getAll`). */
  function RowsNamed(rows: map<nat, TemplateRow>, bound: nat, templateName: string): (r: seq<TemplateRow>)
    ensures forall i :: 0 <= i < |r| ==> r[i].templateName == templateName
    decreases bound
  {
    if bound == 0 then []
    else
      var id := bound - 1;
      RowsNamed(rows, id, templateName)
      + (if id in rows && rows[id].templateName == templateName then [rows[id]] else [])
  }

  /** The first key below `bound`, from `lo` up, of a record of the article:
      `Array.prototype.find` over the records read. */
  function FirstMatch(items: map<nat, Record>, lo: nat, bound: nat, name: string, unit: string, week: string)
    : (r: Option<nat>)
    ensures r.Some? ==> lo <= r.value < bound && r.value in items && IsArticle(items[r.value], name, unit, week)
    ensures r.Some? ==> forall id :: lo <= id < r.value && id in items ==> !IsArticle(items[id], name, unit, week)
    ensures r.None? ==> forall id :: lo <= id < bound && id in items ==> !IsArticle(items[id], name, unit, week)
    decreases bound - lo
  {
    if lo >= bound then None
    else if lo in items && IsArticle(items[lo], name, unit, week) then Some(lo)
    else FirstMatch(items, lo + 1, bound, name, unit, week)
  }

  // ---------------------------------------------------------------------
  // Accumulate-or-copy, the step shared by loadTemplate and
  // chargerSemainePrecedente. The search runs over the records read at the
  // start, which are the keys below `bound`; their name, unit and week never
  // change, and only their quantity grows.

  function Accumulate(items: map<nat, Record>, next: nat, bound: nat, name: string, unit: string, quantity: int, week: string)
    : (map<nat, Record>, nat)
  {
    match FirstMatch(items, 0, bound, name, unit, week)
    case Some(id) => (items[id := items[id].(quantity := items[id].quantity + quantity)], next)
    case None => (items[next := Record(name, quantity, unit, week)], next + 1)
  }

  /** loadTemplate's loop over the template's rows. */
  function LoadRows(items: map<nat, Record>, next: nat, bound: nat, rows: seq<TemplateRow>, week: string)
    : (map<nat, Record>, nat)
    decreases |rows|
  {
    if rows == [] then (items, next)
    else
      var (m, n) := LoadRows(items, next, bound, rows[..|rows| - 1], week);
      var row := rows[|rows| - 1];
      Accumulate(m, n, bound, row.name, row.unit, row.quantity, week)
  }

  /** chargerSemainePrecedente's loop over the previous week's records. Each
      record is read as it is when its turn comes: an earlier step may have
      added to it. */
  function LoadIds(items: map<nat, Record>, next: nat, bound: nat, ids: seq<nat>, week: string)
    : (map<nat, Record>, nat)
    decreases |ids|
  {
    if ids == [] then (items, next)
    else
      var (m, n) := LoadIds(items, next, bound, ids[..|ids| - 1], week);
      var id := ids[|ids| - 1];
      if id in m then Accumulate(m, n, bound, m[id].name, m[id].unit, m[id].quantity, week) else (m, n)
  }

  /** Accumulate keeps every key, changes no record of another week, and
      only adds at the next key. */
  lemma AccumulateFrame(items: map<nat, Record>, next: nat, bound: nat, name: string, unit: string, quantity: int, week: string)
    requires forall id :: id in items ==> id < next
    ensures var (m, n) := Accumulate(items, next, bound, name, unit, quantity, week);
      && n >= next
      && (forall id :: id in m ==> id < n)
      && (forall id :: id in items ==>
            (id in m && m[id].name == items[id].name && m[id].unit == items[id].unit && m[id].week == items[id].week))
      && (forall id :: id in items && items[id].week != week ==> m[id] == items[id])
      && (forall id :: id in m && id !in items ==> m[id].week == week)
      && HasArticle(m, name, unit, week)
  {
    match FirstMatch(items, 0, bound, name, unit, week)
    case Some(id) =>
      assert IsArticle(Accumulate(items, next, bound, name, unit, quantity, week).0[id], name, unit, week);
    case None =>
      assert IsArticle(Accumulate(items, next, bound, name, unit, quantity, week).0[next], name, unit, week);
  }

  /** Loading a template changes no record of another week. */
  lemma {:induction false} LoadRowsFrame(items: map<nat, Record>, next: nat, bound: nat, rows: seq<TemplateRow>, week: string)
    requires forall id :: id in items ==> id < next
    ensures var (m, n) := LoadRows(items, next, bound, rows, week);
      && n >= next
      && (forall id :: id in m ==> id < n)
      && (forall id :: id in items ==> id in m)
      && (forall id :: id in items && items[id].week != week ==> m[id] == items[id])
    decreases |rows|
  {
    if rows != [] {
      LoadRowsFrame(items, next, bound, rows[..|rows| - 1], week);
      var (m, n) := LoadRows(items, next, bound, rows[..|rows| - 1], week);
      var row := rows[|rows| - 1];
      AccumulateFrame(m, n, bound, row.name, row.unit, row.quantity, week);
    }
  }

  /** After loading a template, every row's article has a record in the week. */
  lemma {:induction false} LoadRowsCovers(items: map<nat, Record>, next: nat, bound: nat, rows: seq<TemplateRow>, week: string)
    requires forall id :: id in items ==> id < next
    ensures forall i :: 0 <= i < |rows| ==>
      HasArticle(LoadRows(items, next, bound, rows, week).0, rows[i].name, rows[i].unit, week)
    decreases |rows|
  {
    if rows != [] {
      var p := rows[..|rows| - 1];
      var row := rows[|rows| - 1];
      LoadRowsCovers(items, next, bound, p, week);
      LoadRowsFrame(items, next, bound, p, week);
      var (m, n) := LoadRows(items, next, bound, p, week);
      AccumulateFrame(m, n, bound, row.name, row.unit, row.quantity, week);
      var (m', n') := Accumulate(m, n, bound, row.name, row.unit, row.quantity, week);
      forall i | 0 <= i < |rows| ensures HasArticle(m', rows[i].name, rows[i].unit, week) {
        if i < |p| {
          assert rows[i] == p[i];
          var id :| id in m && IsArticle(m[id], p[i].name, p[i].unit, week);
          assert IsArticle(m'[id], p[i].name, p[i].unit, week);
        }
      }
    }
  }

  /** Loading the records of a week into another week changes no record of
      any other week; in particular the loaded records stay as they were. */
  lemma {:induction false} LoadIdsFrame(items: map<nat, Record>, next: nat, bound: nat, ids: seq<nat>, week: string)
    requires forall id :: id in items ==> id < next
    ensures var (m, n) := LoadIds(items, next, bound, ids, week);
      && n >= next
      && (forall id :: id in m ==> id < n)
      && (forall id :: id in items ==> id in m)
      && (forall id :: id in items && items[id].week != week ==> m[id] == items[id])
    decreases |ids|
  {
    if ids != [] {
      LoadIdsFrame(items, next, bound, ids[..|ids| - 1], week);
      var (m, n) := LoadIds(items, next, bound, ids[..|ids| - 1], week);
      var id := ids[|ids| - 1];
      if id in m {
        AccumulateFrame(m, n, bound, m[id].name, m[id].unit, m[id].quantity, week);
      }
    }
  }

  /** A record added at or above `bound` is not seen by the search below
      `bound`. */
  lemma FirstMatchAbove(items: map<nat, Record>, bound: nat, key: nat, r: Record, name: string, unit: string, week: string)
    requires bound <= key
    requires FirstMatch(items, 0, bound, name, unit, week) == None
    ensures FirstMatch(items[key := r], 0, bound, name, unit, week) == None
  {
  }

  /** Two rows of one article that no record read at the start matches
      create two records, at the next two keys, and change nothing else:
      loading a template does not merge its own rows. */
  lemma LoadRowsDoesNotMergeRows(items: map<nat, Record>, next: nat, bound: nat, r1: TemplateRow, r2: TemplateRow, week: string)
    requires forall id :: id in items ==> id < next
    requires bound <= next
    requires r1.name == r2.name && r1.unit == r2.unit
    requires FirstMatch(items, 0, bound, r1.name, r1.unit, week) == None
    ensures var (m, n) := LoadRows(items, next, bound, [r1, r2], week);
      && m == items[next := Record(r1.name, r1.quantity, r1.unit, week)][next + 1 := Record(r2.name, r2.quantity, r2.unit, week)]
      && n == next + 2
  {
    assert [r1, r2][..1] == [r1];
    assert [r1][..0] == [];
    var m1 := items[next := Record(r1.name, r1.quantity, r1.unit, week)];
    assert LoadRows(items, next, bound, [r1], week) == (m1, next + 1);
    FirstMatchAbove(items, bound, next, Record(r1.name, r1.quantity, r1.unit, week), r1.name, r1.unit, week);
  }

  // ---------------------------------------------------------------------
  // Puts, for the import.

  function PutAll<T>(m: map<nat, T>, next: nat, puts: seq<Put<T>>): (map<nat, T>, nat)
    decreases |puts|
  {
    if puts == [] then (m, next)
    else
      var (m', n') := PutAll(m, next, puts[..|puts| - 1]);
      var p := puts[|puts| - 1];
      match p.id
      case Some(id) => (m'[id := p.value], if id + 1 > n' then id + 1 else n')
      case None => (m'[n' := p.value], n' + 1)
  }

  /** Puts never remove a key and keep every key below the generator. */
  lemma {:induction false} PutAllFrame<T>(m: map<nat, T>, next: nat, puts: seq<Put<T>>)
    requires forall id :: id in m ==> id < next
    ensures var (m', n') := PutAll(m, next, puts);
      && n' >= next
      && (forall id :: id in m ==> id in m')
      && (forall id :: id in m' ==> id < n')
    decreases |puts|
  {
    if puts != [] {
      PutAllFrame(m, next, puts[..|puts| - 1]);
    }
  }

  /** The last put of an explicit key is the value stored under it: a later
      put without a key never lands on a key already put. */
  lemma {:induction false} PutAllLastWins<T>(m: map<nat, T>, next: nat, puts: seq<Put<T>>, j: nat)
    requires forall id :: id in m ==> id < next
    requires j < |puts| && puts[j].id.Some?
    requires forall j' :: j < j' < |puts| ==> puts[j'].id != puts[j].id
    ensures puts[j].id.value in PutAll(m, next, puts).0
    ensures PutAll(m, next, puts).0[puts[j].id.value] == puts[j].value
    decreases |puts|
  {
    var p := puts[..|puts| - 1];
    if j < |p| {
      assert puts[j] == p[j];
      assert forall j' :: j < j' < |p| ==> p[j'] == puts[j'];
      PutAllLastWins(m, next, p, j);
      PutAllFrame(m, next, p);
    }
  }

  /** Two stores that agree below `bound` hold the same rows there. */
  lemma {:induction false} RowsNamedAgree(a: map<nat, TemplateRow>, b: map<nat, TemplateRow>, bound: nat, templateName: string)
    requires forall id :: id < bound ==> (id in a <==> id in b) && (id in a ==> a[id] == b[id])
    ensures RowsNamed(a, bound, templateName) == RowsNamed(b, bound, templateName)
    decreases bound
  {
    if bound > 0 {
      RowsNamedAgree(a, b, bound - 1, templateName);
    }
  }

  lemma {:induction false} RowsNamedNone(rows: map<nat, TemplateRow>, bound: nat, templateName: string)
    requires forall id :: id in rows ==> rows[id].templateName != templateName
    ensures RowsNamed(rows, bound, templateName) == []
    decreases bound
  {
    if bound > 0 {
      RowsNamedNone(rows, bound - 1, templateName);
    }
  }

  /** Saving then loading: once a new template name's rows are added, the
      rows read back under that name are exactly those rows, in order. */
  lemma {:induction false} SavedTemplateRows(rows: map<nat, TemplateRow>, next: nat, puts: seq<Put<TemplateRow>>, templateName: string)
    requires forall id :: id in rows ==> id < next
    requires forall id :: id in rows ==> rows[id].templateName != templateName
    requires forall i :: 0 <= i < |puts| ==> puts[i].id.None? && puts[i].value.templateName == templateName
    ensures PutAll(rows, next, puts).1 == next + |puts|
    ensures RowsNamed(PutAll(rows, next, puts).0, PutAll(rows, next, puts).1, templateName)
         == seq(|puts|, i requires 0 <= i < |puts| => puts[i].value)
    decreases |puts|
  {
    if puts == [] {
      RowsNamedNone(rows, next, templateName);
    } else {
      var p := puts[..|puts| - 1];
      SavedTemplateRows(rows, next, p, templateName);
      PutAllFrame(rows, next, p);
      var (m, n) := PutAll(rows, next, p);
      var v := puts[|puts| - 1].value;
      RowsNamedAgree(m[n := v], m, n, templateName);
      assert seq(|puts|, i requires 0 <= i < |puts| => puts[i].value)
          == seq(|p|, i requires 0 <= i < |p| => p[i].value) + [v];
    }
  }

  // ---------------------------------------------------------------------
  // Template names.

  /** The template names of the rows below `bound`, in key order. */
  function NamesOf(rows: map<nat, TemplateRow>, bound: nat): seq<string>
    decreases bound
  {
    if bound == 0 then []
    else NamesOf(rows, bound - 1) + (if bound - 1 in rows then [rows[bound - 1].templateName] else [])
  }

  /** `[...new Set(names)]`: the distinct names, first occurrence first. */
  function Distinct(names: seq<string>): seq<string>
    decreases |names|
  {
    if names == [] then []
    else
      var d := Distinct(names[..|names| - 1]);
      var last := names[|names| - 1];
      if last in d then d else d + [last]
  }

  /** The template list: each name of the rows once, in order of first
      appearance. */
  lemma {:induction false} DistinctSpec(names: seq<string>)
    ensures forall x :: x in Distinct(names) <==> x in names
    ensures forall i, j :: 0 <= i < j < |Distinct(names)| ==> Distinct(names)[i] != Distinct(names)[j]
    ensures forall i, j :: 0 <= i < j < |Distinct(names)| ==>
      FirstPosition(names, Distinct(names)[i]) < FirstPosition(names, Distinct(names)[j])
    decreases |names|
  {
    if names != [] {
      var p := names[..|names| - 1];
      var last := names[|names| - 1];
      DistinctSpec(p);
      assert names == p + [last];
      var d := Distinct(p);
      forall x | x in p ensures FirstPosition(names, x) == FirstPosition(p, x) {
        FirstPositionPrefix(p, last, x);
      }
      if last !in d {
        FirstPositionPrefix(p, last, last);
        forall i | 0 <= i < |d| ensures FirstPosition(names, d[i]) < |p| {
          FirstPositionSpec(p, d[i]);
        }
      }
    }
  }

  function FirstPosition(s: seq<string>, x: string): nat
    decreases |s|
  {
    if s == [] then 0
    else if s[0] == x then 0
    else 1 + FirstPosition(s[1..], x)
  }

  lemma {:induction false} FirstPositionSpec(s: seq<string>, x: string)
    ensures FirstPosition(s, x) <= |s|
    ensures x in s <==> FirstPosition(s, x) < |s|
    ensures x in s ==> s[FirstPosition(s, x)] == x
    decreases |s|
  {
    if s != [] && s[0] != x {
      FirstPositionSpec(s[1..], x);
      assert s == [s[0]] + s[1..];
    }
  }

  lemma {:induction false} FirstPositionPrefix(s: seq<string>, y: string, x: string)
    requires x in s || x == y
    ensures FirstPosition(s + [y], x) == (if x in s then FirstPosition(s, x) else |s|)
    decreases |s|
  {
    if s == [] {
    } else if s[0] == x {
      assert (s + [y])[0] == x;
    } else {
      assert (s + [y])[1..] == s[1..] + [y];
      FirstPositionPrefix(s[1..], y, x);
      assert s == [s[0]] + s[1..];
    }
  }

  // ---------------------------------------------------------------------
  // The store.

  class ListStore {
    var items: map<nat, Record>
    var nextItemId: nat
    var templateRows: map<nat, TemplateRow>
    var nextTemplateId: nat

    /** Every key is below its store's key generator. */
    ghost predicate Valid()
      reads this
    {
      && (forall id :: id in items ==> id < nextItemId)
      && (forall id :: id in templateRows ==> id < nextTemplateId)
    }

    constructor()
      ensures Valid()
      ensures items == map[] && templateRows == map[] && nextItemId == 1 && nextTemplateId == 1
    {
      items := map[];
      templateRows := map[];
      nextItemId := 1;
      nextTemplateId := 1;
    }

    /** `ajouterOuMettreAJourItem`. */
    method AddOrUpdate(name: string, quantity: int, unit: string, week: string)
      requires Valid()
      modifies this
      ensures Valid()
      ensures (items, nextItemId) == AddOrUpdateResult(old(items), old(nextItemId), name, quantity, unit, week)
      ensures templateRows == old(templateRows) && nextTemplateId == old(nextTemplateId)
    {
      var found := false;
      var id := 0;
      while id < nextItemId
        invariant 0 <= id <= nextItemId == old(nextItemId)
        invariant templateRows == old(templateRows) && nextTemplateId == old(nextTemplateId)
        invariant items == BumpedBelow(old(items), id, name, unit, week, quantity)
        invariant found <==> exists j :: j in old(items) && j < id && IsArticle(old(items)[j], name, unit, week)
      {
        BumpedBelowStep(old(items), id, name, unit, week, quantity);
        assert id in items <==> id in old(items);
        assert id in items ==> items[id] == old(items)[id];
        if id in items && IsArticle(items[id], name, unit, week) {
          items := items[id := items[id].(quantity := items[id].quantity + quantity)];
          found := true;
        } else {
          assert !(id in old(items) && IsArticle(old(items)[id], name, unit, week));
        }
        id := id + 1;
      }
      BumpedBelowAll(old(items), nextItemId, name, unit, week, quantity);
      if !found {
        assert !HasArticle(old(items), name, unit, week);
        assert items == old(items);
        items := items[nextItemId := Record(name, quantity, unit, week)];
        nextItemId := nextItemId + 1;
      }
    }

    /** `supprimerTousLesItems`: deletes the records of the article in the
        given week. */
    method DeleteArticle(name: string, unit: string, currentWeek: string)
      requires Valid()
      modifies this
      ensures Valid()
      ensures forall id :: id in items <==> id in old(items) && !IsArticle(old(items)[id], name, unit, currentWeek)
      ensures forall id :: id in items ==> items[id] == old(items)[id]
      ensures nextItemId == old(nextItemId)
      ensures templateRows == old(templateRows) && nextTemplateId == old(nextTemplateId)
    {
      var id := 0;
      while id < nextItemId
        invariant 0 <= id <= nextItemId == old(nextItemId)
        invariant templateRows == old(templateRows) && nextTemplateId == old(nextTemplateId)
        invariant forall j :: j in items <==>
          j in old(items) && !(j < id && IsArticle(old(items)[j], name, unit, currentWeek))
        invariant forall j :: j in items ==> items[j] == old(items)[j]
      {
        if id in items && IsArticle(items[id], name, unit, currentWeek) {
          items := items - {id};
        }
        id := id + 1;
      }
    }

    /** `importerDonnees`: puts every imported record, then every imported
        template row. */
    method Import(data: ImportData)
      requires Valid()
      modifies this
      ensures Valid()
      ensures (items, nextItemId) ==
        (if data.items.Some? then PutAll(old(items), old(nextItemId), data.items.value) else (old(items), old(nextItemId)))
      ensures (templateRows, nextTemplateId) ==
        (if data.templateItems.Some? then PutAll(old(templateRows), old(nextTemplateId), data.templateItems.value)
         else (old(templateRows), old(nextTemplateId)))
    {
      if data.items.Some? {
        ImportItems(data.items.value);
      }
      if data.templateItems.Some? {
        ImportTemplateRows(data.templateItems.value);
      }
    }

    /** The put loop over the imported records. */
    method ImportItems(puts: seq<Put<Record>>)
      requires Valid()
      modifies this
      ensures Valid()
      ensures (items, nextItemId) == PutAll(old(items), old(nextItemId), puts)
      ensures templateRows == old(templateRows) && nextTemplateId == old(nextTemplateId)
    {
      for i := 0 to |puts|
        invariant (items, nextItemId) == PutAll(old(items), old(nextItemId), puts[..i])
        invariant templateRows == old(templateRows) && nextTemplateId == old(nextTemplateId)
      {
        assert puts[..i + 1][..i] == puts[..i];
        match puts[i].id
        case Some(id) =>
          items := items[id := puts[i].value];
          if id + 1 > nextItemId { nextItemId := id + 1; }
        case None =>
          items := items[nextItemId := puts[i].value];
          nextItemId := nextItemId + 1;
      }
      assert puts[..|puts|] == puts;
      PutAllFrame(old(items), old(nextItemId), puts);
    }

    /** The put loop over the imported template rows. */
    method ImportTemplateRows(puts: seq<Put<TemplateRow>>)
      requires Valid()
      modifies this
      ensures Valid()
      ensures (templateRows, nextTemplateId) == PutAll(old(templateRows), old(nextTemplateId), puts)
      ensures items == old(items) && nextItemId == old(nextItemId)
    {
      for i := 0 to |puts|
        invariant (templateRows, nextTemplateId) == PutAll(old(templateRows), old(nextTemplateId), puts[..i])
        invariant items == old(items) && nextItemId == old(nextItemId)
      {
        assert puts[..i + 1][..i] == puts[..i];
        match puts[i].id
        case Some(id) =>
          templateRows := templateRows[id := puts[i].value];
          if id + 1 > nextTemplateId { nextTemplateId := id + 1; }
        case None =>
          templateRows := templateRows[nextTemplateId := puts[i].value];
          nextTemplateId := nextTemplateId + 1;
      }
      assert puts[..|puts|] == puts;
      PutAllFrame(old(templateRows), old(nextTemplateId), puts);
    }

    /** `addTemplate`: refuses a name already in use; otherwise copies every
        record of the current week, in key order, into rows of that name. */
    method AddTemplate(templateName: string, currentWeek: string) returns (saved: bool)
      requires Valid()
      modifies this
      ensures Valid()
      ensures saved <==> forall id :: id in old(templateRows) ==> old(templateRows)[id].templateName != templateName
      ensures !saved ==> templateRows == old(templateRows) && nextTemplateId == old(nextTemplateId)
      ensures saved ==>
        (templateRows, nextTemplateId) == PutAll(old(templateRows), old(nextTemplateId), Copies(items, IdsOfWeek(items, nextItemId, currentWeek), templateName))
      ensures items == old(items) && nextItemId == old(nextItemId)
    {
      saved := true;
      var id := 0;
      while id < nextTemplateId
        invariant 0 <= id <= nextTemplateId
        invariant saved <==> forall j :: j in templateRows && j < id ==> templateRows[j].templateName != templateName
      {
        if id in templateRows && templateRows[id].templateName == templateName {
          saved := false;
        }
        id := id + 1;
      }
      if saved {
        var ids := IdsOfWeek(items, nextItemId, currentWeek);
        var copies := Copies(items, ids, templateName);
        for i := 0 to |copies|
          invariant (templateRows, nextTemplateId) == PutAll(old(templateRows), old(nextTemplateId), copies[..i])
          invariant items == old(items) && nextItemId == old(nextItemId)
        {
          assert copies[..i + 1][..i] == copies[..i];
          templateRows := templateRows[nextTemplateId := copies[i].value];
          nextTemplateId := nextTemplateId + 1;
        }
        assert copies[..|copies|] == copies;
        PutAllFrame(old(templateRows), old(nextTemplateId), copies);
      }
    }

    /** The ids read by `find`: the records below `bound`. */
    method FindArticle(name: string, unit: string, week: string, bound: nat) returns (found: Option<nat>)
      ensures found == FirstMatch(items, 0, bound, name, unit, week)
    {
      var id := 0;
      while id < bound && !(id in items && IsArticle(items[id], name, unit, week))
        invariant 0 <= id <= bound
        invariant FirstMatch(items, 0, bound, name, unit, week) == FirstMatch(items, id, bound, name, unit, week)
        decreases bound - id
      {
        id := id + 1;
      }
      found := if id < bound then Some(id) else None;
    }

    /** One step of loadTemplate and chargerSemainePrecedente: add to the
        first record of the article in the week, or copy the article into
        the week. */
    method AccumulateOrAdd(name: string, unit: string, quantity: int, week: string, bound: nat)
      requires Valid()
      modifies this
      ensures Valid()
      ensures (items, nextItemId) == Accumulate(old(items), old(nextItemId), bound, name, unit, quantity, week)
      ensures templateRows == old(templateRows) && nextTemplateId == old(nextTemplateId)
    {
      var found := FindArticle(name, unit, week, bound);
      match found
      case Some(id) =>
        items := items[id := items[id].(quantity := items[id].quantity + quantity)];
      case None =>
        items := items[nextItemId := Record(name, quantity, unit, week)];
        nextItemId := nextItemId + 1;
    }

    /** `loadTemplate`. */
    method LoadTemplate(templateName: string, currentWeek: string)
      requires Valid()
      modifies this
      ensures Valid()
      ensures (items, nextItemId) ==
        LoadRows(old(items), old(nextItemId), old(nextItemId), RowsNamed(templateRows, nextTemplateId, templateName), currentWeek)
      ensures templateRows == old(templateRows) && nextTemplateId == old(nextTemplateId)
    {
      var rows := RowsNamed(templateRows, nextTemplateId, templateName);
      var bound := nextItemId;
      for i := 0 to |rows|
        invariant Valid()
        invariant (items, nextItemId) == LoadRows(old(items), old(nextItemId), bound, rows[..i], currentWeek)
        invariant templateRows == old(templateRows) && nextTemplateId == old(nextTemplateId)
      {
        assert rows[..i + 1][..i] == rows[..i];
        AccumulateOrAdd(rows[i].name, rows[i].unit, rows[i].quantity, currentWeek, bound);
      }
      assert rows[..|rows|] == rows;
    }

    /** `chargerSemainePrecedente` once both week labels are known. */
    method LoadWeek(currentWeek: string, previousWeek: string)
      requires Valid()
      modifies this
      ensures Valid()
      ensures (items, nextItemId) ==
        LoadIds(old(items), old(nextItemId), old(nextItemId), IdsOfWeek(old(items), old(nextItemId), previousWeek), currentWeek)
      ensures templateRows == old(templateRows) && nextTemplateId == old(nextTemplateId)
    {
      var bound := nextItemId;
      var ids := IdsOfWeek(items, bound, previousWeek);
      for i := 0 to |ids|
        invariant Valid()
        invariant (items, nextItemId) == LoadIds(old(items), old(nextItemId), bound, ids[..i], currentWeek)
        invariant templateRows == old(templateRows) && nextTemplateId == old(nextTemplateId)
      {
        var done := ids[..i];
        assert ids[..i + 1] == done + [ids[i]];
        assert ids[..i + 1][..i] == done;
        LoadIdsFrame(old(items), old(nextItemId), bound, done, currentWeek);
        assert ids[i] in old(items);
        assert ids[i] in items;
        ghost var before := (items, nextItemId);
        var previous := items[ids[i]];
        AccumulateOrAdd(previous.name, previous.unit, previous.quantity, currentWeek, bound);
        assert (items, nextItemId) == Accumulate(before.0, before.1, bound, previous.name, previous.unit, previous.quantity, currentWeek);
      }
      assert ids[..|ids|] == ids;
    }

    /** `chargerSemainePrecedente`, reading the clock for the current week
        and taking the previous week from `getPreviousWeek` as written. */
    method LoadPreviousWeek(day: nat, month: nat, year: nat, firstWeekday: nat, rollover: string)
      requires Valid()
      requires 1 <= day <= 31 && month < 12 && firstWeekday <= 6
      modifies this
      ensures Valid()
      ensures var currentWeek := CurrentWeek(day, month, year, firstWeekday);
        (items, nextItemId) ==
          LoadIds(old(items), old(nextItemId), old(nextItemId),
                  IdsOfWeek(old(items), old(nextItemId), PreviousWeekAsWritten(currentWeek, rollover)), currentWeek)
      ensures templateRows == old(templateRows) && nextTemplateId == old(nextTemplateId)
    {
      var currentWeek := CurrentWeek(day, month, year, firstWeekday);
      LoadWeek(currentWeek, PreviousWeekAsWritten(currentWeek, rollover));
    }

    /** `displayTemplates`: the names of the templates. */
    function TemplateNames(): seq<string>
      reads this
    {
      Distinct(NamesOf(templateRows, nextTemplateId))
    }

    /** `deleteTemplate`: deletes the rows of that name. */
    method DeleteTemplate(templateName: string)
      requires Valid()
      modifies this
      ensures Valid()
      ensures forall id :: id in templateRows <==> id in old(templateRows) && old(templateRows)[id].templateName != templateName
      ensures forall id :: id in templateRows ==> templateRows[id] == old(templateRows)[id]
      ensures nextTemplateId == old(nextTemplateId)
      ensures items == old(items) && nextItemId == old(nextItemId)
    {
      var id := 0;
      while id < nextTemplateId
        invariant 0 <= id <= nextTemplateId == old(nextTemplateId)
        invariant items == old(items) && nextItemId == old(nextItemId)
        invariant forall j :: j in templateRows <==>
          j in old(templateRows) && !(j < id && old(templateRows)[j].templateName == templateName)
        invariant forall j :: j in templateRows ==> templateRows[j] == old(templateRows)[j]
      {
        if id in templateRows && templateRows[id].templateName == templateName {
          templateRows := templateRows - {id};
        }
        id := id + 1;
      }
    }
  }

  /** addTemplate's copies: `{...item, template_name}` without the key. */
  function Copies(items: map<nat, Record>, ids: seq<nat>, templateName: string): (r: seq<Put<TemplateRow>>)
    requires forall i :: 0 <= i < |ids| ==> ids[i] in items
    ensures |r| == |ids|
    ensures forall i :: 0 <= i < |r| ==> r[i].id.None? && r[i].value.templateName == templateName
  {
    seq(|ids|, i requires 0 <= i < |ids| =>
      var it := items[ids[i]];
      Put(None, TemplateRow(it.name, it.quantity, it.unit, it.week, templateName)))
  }

  // ---------------------------------------------------------------------
  // The previous week, as written and corrected.

  /** With the corrected previous-week label, loading the previous week
      from the second week of a month on leaves the previous week's records
      as they were. */
  lemma LoadPreviousWeekKeepsPreviousRecords(items: map<nat, Record>, next: nat,
                                             day: nat, month: nat, year: nat, firstWeekday: nat, rollover: string)
    requires forall id :: id in items ==> id < next
    requires 1 <= day <= 31 && month < 12 && firstWeekday <= 6
    requires WeekNumber(day, firstWeekday) >= 2
    ensures var currentWeek := CurrentWeek(day, month, year, firstWeekday);
      var previousWeek := PreviousWeek(currentWeek, rollover);
      var (m, n) := LoadIds(items, next, next, IdsOfWeek(items, next, previousWeek), currentWeek);
      forall id :: id in items && items[id].week == previousWeek ==> id in m && m[id] == items[id]
  {
    var currentWeek := CurrentWeek(day, month, year, firstWeekday);
    var previousWeek := PreviousWeek(currentWeek, rollover);
    PreviousWeekDiffers(day, month, year, firstWeekday, rollover);
    LoadIdsFrame(items, next, next, IdsOfWeek(items, next, previousWeek), currentWeek);
  }

  /** What `chargerSemainePrecedente` as written loads: for Février, Août
      and Décembre the records of the current week itself; for the other
      months the records of the corrected previous week. */
  lemma AsWrittenLoadedWeek(items: map<nat, Record>, next: nat,
                            day: nat, month: nat, year: nat, firstWeekday: nat, rollover: string)
    requires 1 <= day <= 31 && month < 12 && firstWeekday <= 6
    ensures var currentWeek := CurrentWeek(day, month, year, firstWeekday);
      IdsOfWeek(items, next, PreviousWeekAsWritten(currentWeek, rollover)) ==
        IdsOfWeek(items, next, if AsciiMonth(month) then PreviousWeek(currentWeek, rollover) else currentWeek)
  {
    AsWrittenPreviousWeek(day, month, year, firstWeekday, rollover);
    if AsciiMonth(month) {
      AsWrittenAgreesOnAsciiMonths(day, month, year, firstWeekday, rollover);
    }
  }

  /** For the months with ASCII names, the load as written leaves the
      previous week's records as they were from the second week on. */
  lemma AsWrittenKeepsPreviousRecords(items: map<nat, Record>, next: nat,
                                      day: nat, month: nat, year: nat, firstWeekday: nat, rollover: string)
    requires forall id :: id in items ==> id < next
    requires 1 <= day <= 31 && AsciiMonth(month) && firstWeekday <= 6
    requires WeekNumber(day, firstWeekday) >= 2
    ensures var currentWeek := CurrentWeek(day, month, year, firstWeekday);
      var previousWeek := PreviousWeekAsWritten(currentWeek, rollover);
      var (m, n) := LoadIds(items, next, next, IdsOfWeek(items, next, previousWeek), currentWeek);
      forall id :: id in items && items[id].week == previousWeek ==> id in m && m[id] == items[id]
  {
    AsWrittenAgreesOnAsciiMonths(day, month, year, firstWeekday, rollover);
    LoadPreviousWeekKeepsPreviousRecords(items, next, day, month, year, firstWeekday, rollover);
  }

  /** As written, in a week of February the previous-week label is the
      current one, and loading "the previous week" adds every current-week
      record to itself: a record of 2 becomes 4. */
  lemma AsWrittenDoublesFebruaryWeek(rollover: string)
    ensures var currentWeek := CurrentWeek(8, 1, 2025, 6);
      var items := map[1 := Record("lait", 2, "L", currentWeek)];
      var (m, n) := LoadIds(items, 2, 2, IdsOfWeek(items, 2, PreviousWeekAsWritten(currentWeek, rollover)), currentWeek);
      1 in m && m[1].quantity == 4
  {
    var currentWeek := CurrentWeek(8, 1, 2025, 6);
    AsWrittenKeepsAccentedMonths(8, 1, 2025, 6, rollover);
    LoadingOwnWeekDoubles(currentWeek);
  }

  /** Loading a week's records into that same week adds each to itself. */
  lemma LoadingOwnWeekDoubles(week: string)
    ensures var items := map[1 := Record("lait", 2, "L", week)];
      var (m, n) := LoadIds(items, 2, 2, IdsOfWeek(items, 2, week), week);
      1 in m && m[1].quantity == 4
  {
    var items := map[1 := Record("lait", 2, "L", week)];
    var ids := IdsOfWeek(items, 2, week);
    assert ids == [1] by {
      assert IdsOfWeek(items, 1, week) == IdsOfWeek(items, 0, week) + [];
    }
    assert ids[..0] == [];
    assert FirstMatch(items, 0, 2, "lait", "L", week) == Some(1);
  }

  /** With the corrected label the same store is left as it was. */
  lemma CorrectedKeepsFebruaryWeek(rollover: string)
    ensures var currentWeek := CurrentWeek(8, 1, 2025, 6);
      var items := map[1 := Record("lait", 2, "L", currentWeek)];
      var (m, n) := LoadIds(items, 2, 2, IdsOfWeek(items, 2, PreviousWeek(currentWeek, rollover)), currentWeek);
      1 in m && m[1].quantity == 2
  {
    var currentWeek := CurrentWeek(8, 1, 2025, 6);
    var items := map[1 := Record("lait", 2, "L", currentWeek)];
    PreviousWeekDiffers(8, 1, 2025, 6, rollover);
    var ids := IdsOfWeek(items, 2, PreviousWeek(currentWeek, rollover));
    assert ids == [];
  }
}
