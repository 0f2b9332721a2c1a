/** The order of rows that ORDER BY asks for, and the library's stable sort by it
(src/execution_gpu/sort_operator.cpp): key by key, ascending with NULLs last or descending with
NULLs first. */
module SortOrder {
  import opened Expressions
  import opened Relational
  import opened Aggregation
  import opened LogicalPlans

  // ---------------------------------------------------------------------------
  // What ORDER BY asks for
  // ---------------------------------------------------------------------------

  /** `x` is at most `y`, both of one type. */
  predicate AtMost(x: Value, y: Value)
  {
    match (x, y)
    case (Bool(a), Bool(b)) => a ==> b
    case (Int(a), Int(b)) => a <= b
    case (Double(a), Double(b)) => a <= b
    case (Str(a), Str(b)) => a == b || StringLess(a, b)
    case _ => false
  }

  predicate OneType(x: Value, y: Value)
  {
    (x.Bool? && y.Bool?) || (x.Int? && y.Int?) || (x.Double? && y.Double?) || (x.Str? && y.Str?)
  }

  /** Under one key `x` may come before `y`. */
  predicate MayPrecede(ascending: bool, x: Value, y: Value)
  {
    if ascending then
      (x.Null? ==> y.Null?) && (OneType(x, y) ==> AtMost(x, y))
    else
      (y.Null? ==> x.Null?) && (OneType(x, y) ==> AtMost(y, x))
  }

  /** Of any two rows, the first key on which they differ decides which comes first. */
  ghost predicate OrderedBy(k: Kernels, keys: seq<SortKey>, rows: seq<Row>)
  {
    forall i, j, m :: 0 <= i < j < |rows| && 0 <= m < |keys| && TiedUpTo(k, keys, m, rows[i], rows[j]) ==>
      MayPrecede(keys[m].ascending, Eval(k, keys[m].expr, rows[i]), Eval(k, keys[m].expr, rows[j]))
  }

  ghost predicate TiedUpTo(k: Kernels, keys: seq<SortKey>, m: int, a: Row, b: Row)
  {
    forall l :: 0 <= l < m && l < |keys| ==> Eval(k, keys[l].expr, a) == Eval(k, keys[l].expr, b)
  }

  // ---------------------------------------------------------------------------
  // The library's order on key tuples
  // ---------------------------------------------------------------------------

  predicate NotAfter(ascending: bool, x: Value, y: Value)
  {
    if x.Null? || y.Null? then (if ascending then y.Null? else x.Null?)
    else if ascending then !ValueLess(y, x)
    else !ValueLess(x, y)
  }

  predicate KeysNotAfter(directions: seq<bool>, a: Row, b: Row)
  {
    directions == [] || a == [] || b == [] ||
    (if a[0] == b[0] then KeysNotAfter(directions[1..], a[1..], b[1..]) else NotAfter(directions[0], a[0], b[0]))
  }

  lemma NotAfterTotal(ascending: bool, x: Value, y: Value)
    ensures NotAfter(ascending, x, y) || NotAfter(ascending, y, x)
    ensures NotAfter(ascending, x, y) && NotAfter(ascending, y, x) ==> x == y
  {
    ValueLessTotal(x, y);
  }

  lemma NotAfterTrans(ascending: bool, x: Value, y: Value, z: Value)
    requires NotAfter(ascending, x, y) && NotAfter(ascending, y, z)
    ensures NotAfter(ascending, x, z)
  {
    OrderOfThree(x, y, z);
  }

  lemma {:induction false} KeysTotal(directions: seq<bool>, a: Row, b: Row)
    ensures KeysNotAfter(directions, a, b) || KeysNotAfter(directions, b, a)
  {
    if directions != [] && a != [] && b != [] {
      if a[0] == b[0] { KeysTotal(directions[1..], a[1..], b[1..]); } else { NotAfterTotal(directions[0], a[0], b[0]); }
    }
  }

  lemma {:induction false} KeysTrans(directions: seq<bool>, a: Row, b: Row, c: Row)
    requires |a| == |b| == |c| && KeysNotAfter(directions, a, b) && KeysNotAfter(directions, b, c)
    ensures KeysNotAfter(directions, a, c)
  {
    if directions != [] && a != [] {
      if a[0] == b[0] == c[0] {
        KeysTrans(directions[1..], a[1..], b[1..], c[1..]);
      } else if a[0] != b[0] && b[0] != c[0] {
        NotAfterTrans(directions[0], a[0], b[0], c[0]);
        NotAfterTotal(directions[0], a[0], b[0]);
      }
    }
  }

  // ---------------------------------------------------------------------------
  // A stable sort
  // ---------------------------------------------------------------------------

  /** A row with its key tuple. */
  type Entry = (Row, Row)

  /** `e` in front of the first entry that it may precede; entries are inserted last to first, so
      those with equal keys stay in order. */
  function Insert(directions: seq<bool>, e: Entry, entries: seq<Entry>): seq<Entry>
  {
    if entries == [] || KeysNotAfter(directions, e.0, entries[0].0) then [e] + entries
    else [entries[0]] + Insert(directions, e, entries[1..])
  }

  function StableSorted(directions: seq<bool>, entries: seq<Entry>): seq<Entry>
  {
    if entries == [] then [] else Insert(directions, entries[0], StableSorted(directions, entries[1..]))
  }

  /** The library sorts stably by the directions it is handed. */
  ghost predicate LibrarySorts(k: Kernels)
  {
    forall entries, directions :: k.sort(entries, directions) == Map((e: Entry) => e.1, StableSorted(directions, entries))
  }

  ghost predicate Sorted(directions: seq<bool>, entries: seq<Entry>)
  {
    forall i, j :: 0 <= i < j < |entries| ==> KeysNotAfter(directions, entries[i].0, entries[j].0)
  }

  ghost predicate KeyWidth(entries: seq<Entry>, n: nat)
  {
    forall e :: e in entries ==> |e.0| == n
  }

  lemma {:induction false} InsertKeeps(directions: seq<bool>, e: Entry, entries: seq<Entry>)
    ensures SameRows(Insert(directions, e, entries), [e] + entries)
  {
    hide KeysNotAfter;
    if entries != [] && !KeysNotAfter(directions, e.0, entries[0].0) {
      InsertKeeps(directions, e, entries[1..]);
      assert entries == [entries[0]] + entries[1..];
    }
  }

  lemma SortedCons(directions: seq<bool>, first: Entry, rest: seq<Entry>)
    requires Sorted(directions, rest) && forall e :: e in rest ==> KeysNotAfter(directions, first.0, e.0)
    ensures Sorted(directions, [first] + rest)
  {
    hide KeysNotAfter;
    var all := [first] + rest;
    forall i, j | 0 <= i < j < |all| ensures KeysNotAfter(directions, all[i].0, all[j].0) {
      assert all[j] == rest[j - 1] && rest[j - 1] in rest;
      if i > 0 { assert all[i] == rest[i - 1]; }
    }
  }

  lemma SortedTail(directions: seq<bool>, entries: seq<Entry>)
    requires entries != [] && Sorted(directions, entries)
    ensures Sorted(directions, entries[1..])
    ensures forall e :: e in entries[1..] ==> KeysNotAfter(directions, entries[0].0, e.0)
  {
    hide KeysNotAfter;
    forall e | e in entries[1..] ensures KeysNotAfter(directions, entries[0].0, e.0) {
      var j :| 0 <= j < |entries[1..]| && entries[1..][j] == e;
      assert entries[j + 1] == e;
    }
  }

  lemma {:induction false} InsertSorted(directions: seq<bool>, e: Entry, entries: seq<Entry>, n: nat)
    requires Sorted(directions, entries) && KeyWidth(entries, n) && |e.0| == n
    ensures Sorted(directions, Insert(directions, e, entries))
  {
    hide KeysNotAfter, Sorted;
    if entries != [] {
      var rest := entries[1..];
      SortedTail(directions, entries);
      assert entries[0] in entries && forall x :: x in rest ==> x in entries;
      if KeysNotAfter(directions, e.0, entries[0].0) {
        forall x | x in entries ensures KeysNotAfter(directions, e.0, x.0) {
          if x in rest { KeysTrans(directions, e.0, entries[0].0, x.0); }
        }
        SortedCons(directions, e, entries);
      } else {
        KeysTotal(directions, e.0, entries[0].0);
        InsertSorted(directions, e, rest, n);
        InsertKeeps(directions, e, rest);
        SameRowsMembers(Insert(directions, e, rest), [e] + rest);
        SortedCons(directions, entries[0], Insert(directions, e, rest));
      }
    } else {
      assert Insert(directions, e, entries) == [e] + [];
      SortedCons(directions, e, []);
    }
  }

  lemma NothingSorted(directions: seq<bool>)
    ensures Sorted(directions, [])
  {
  }

  lemma {:induction false} SortedStably(directions: seq<bool>, entries: seq<Entry>, n: nat)
    requires KeyWidth(entries, n)
    ensures Sorted(directions, StableSorted(directions, entries)) && SameRows(StableSorted(directions, entries), entries)
  {
    hide KeysNotAfter, Insert, Sorted;
    if entries == [] {
      assert Sorted(directions, []) by { NothingSorted(directions); }
    } else {
      var rest := StableSorted(directions, entries[1..]);
      SortedStably(directions, entries[1..], n);
      SameRowsMembers(rest, entries[1..]);
      assert entries[0] in entries;
      InsertSorted(directions, entries[0], rest, n);
      InsertKeeps(directions, entries[0], rest);
      assert entries == [entries[0]] + entries[1..];
    }
  }

  // ---------------------------------------------------------------------------
  // Sorting rows
  // ---------------------------------------------------------------------------

  function Decorated(k: Kernels, keys: seq<SortKey>, rows: seq<Row>): seq<Entry>
  {
    Map(row => (SortValues(k, keys, row), row), rows)
  }

  lemma Undecorated(k: Kernels, keys: seq<SortKey>, rows: seq<Row>, entries: seq<Entry>)
    requires SameRows(entries, Decorated(k, keys, rows))
    ensures SameRows(Map((e: Entry) => e.1, entries), rows)
    ensures forall e :: e in entries ==> e.0 == SortValues(k, keys, e.1)
  {
    hide SortValues;
    var decorated := Decorated(k, keys, rows);
    MapSameRows((e: Entry) => e.1, entries, decorated);
    MapMap((e: Entry) => e.1, row => (SortValues(k, keys, row), row), (row: Row) => row, rows);
    MapIndex((row: Row) => row, rows);
    assert Map((row: Row) => row, rows) == rows;
    forall e | e in entries ensures e.0 == SortValues(k, keys, e.1) {
      SameRowsMembers(entries, decorated);
      MapMember(row => (SortValues(k, keys, row), row), rows, e);
    }
  }

  lemma DecoratedWidth(k: Kernels, keys: seq<SortKey>, rows: seq<Row>)
    ensures KeyWidth(Decorated(k, keys, rows), |keys|)
  {
    forall e | e in Decorated(k, keys, rows) ensures |e.0| == |keys| {
      MapMember(row => (SortValues(k, keys, row), row), rows, e);
      MapIndex((key: SortKey) => Eval(k, key.expr, e.1), keys);
    }
  }

  /** What the library's sort does to rows. */
  lemma SortedEntries(k: Kernels, keys: seq<SortKey>, rows: seq<Row>)
    requires LibrarySorts(k)
    ensures var entries := StableSorted(Directions(keys), Decorated(k, keys, rows));
            && SortRows(k, keys, rows) == Map((e: Entry) => e.1, entries) && Sorted(Directions(keys), entries)
            && SameRows(entries, Decorated(k, keys, rows))
  {
    hide SortValues, Directions;
    var decorated := Decorated(k, keys, rows);
    var entries := StableSorted(Directions(keys), decorated);
    DecoratedWidth(k, keys, rows);
    SortedStably(Directions(keys), decorated, |keys|);
    Undecorated(k, keys, rows, entries);
    assert k.sort(decorated, Directions(keys)) == Map((e: Entry) => e.1, entries);
  }

  lemma NotAfterMeans(ascending: bool, x: Value, y: Value)
    requires NotAfter(ascending, x, y)
    ensures MayPrecede(ascending, x, y)
  {
    if x.Str? && y.Str? { StringLessTotal(x.s, y.s); }
  }

  /** Key tuples in the library's order are decided by the first key on which they differ. */
  lemma {:induction false} FirstDifference(directions: seq<bool>, a: Row, b: Row, m: nat)
    requires m < |directions| == |a| == |b| && KeysNotAfter(directions, a, b) && a[..m] == b[..m]
    ensures MayPrecede(directions[m], a[m], b[m])
  {
    if m > 0 {
      assert a[0] == a[..m][0] == b[..m][0] == b[0];
      assert a[1..][..m - 1] == a[..m][1..] && b[1..][..m - 1] == b[..m][1..];
      FirstDifference(directions[1..], a[1..], b[1..], m - 1);
    } else if a[0] != b[0] {
      NotAfterMeans(directions[0], a[0], b[0]);
    } else if a[0].Str? {
      StringLessTotal(a[0].s, b[0].s);
    }
  }

  /** Sorting by the library gives the order that ORDER BY asks for. */
  lemma SortRowsOrdered(k: Kernels, keys: seq<SortKey>, rows: seq<Row>)
    requires LibrarySorts(k)
    ensures OrderedBy(k, keys, SortRows(k, keys, rows))
  {
    var directions, sorted := Directions(keys), SortRows(k, keys, rows);
    var entries := StableSorted(directions, Decorated(k, keys, rows));
    SortedEntries(k, keys, rows);
    Undecorated(k, keys, rows, entries);
    MapIndex((e: Entry) => e.1, entries);
    forall i, j, m | 0 <= i < j < |sorted| && 0 <= m < |keys| && TiedUpTo(k, keys, m, sorted[i], sorted[j])
      ensures MayPrecede(keys[m].ascending, Eval(k, keys[m].expr, sorted[i]), Eval(k, keys[m].expr, sorted[j]))
    {
      assert entries[i] in entries && entries[j] in entries;
      SortedPair(k, keys, sorted[i], sorted[j], m);
    }
  }

  lemma SortedPair(k: Kernels, keys: seq<SortKey>, a: Row, b: Row, m: nat)
    requires m < |keys| && KeysNotAfter(Directions(keys), SortValues(k, keys, a), SortValues(k, keys, b))
    requires TiedUpTo(k, keys, m, a, b)
    ensures MayPrecede(keys[m].ascending, Eval(k, keys[m].expr, a), Eval(k, keys[m].expr, b))
  {
    hide KeysNotAfter, MayPrecede;
    MapIndex((key: SortKey) => key.ascending, keys);
    MapIndex((key: SortKey) => Eval(k, key.expr, a), keys);
    MapIndex((key: SortKey) => Eval(k, key.expr, b), keys);
    FirstDifference(Directions(keys), SortValues(k, keys, a), SortValues(k, keys, b), m);
  }

  lemma ValuesAt(k: Kernels, keys: seq<SortKey>, row: Row, m: nat)
    requires m < |keys|
    ensures |SortValues(k, keys, row)| == |Directions(keys)| == |keys|
    ensures SortValues(k, keys, row)[m] == Eval(k, keys[m].expr, row) && Directions(keys)[m] == keys[m].ascending
  {
    MapIndex((key: SortKey) => key.ascending, keys);
    MapIndex((key: SortKey) => Eval(k, key.expr, row), keys);
  }

  /** Keys with the same directions and, row by row, the same values ask for the same order. */
  lemma SameOrder(k: Kernels, keys: seq<SortKey>, keys': seq<SortKey>, rows: seq<Row>, rows': seq<Row>)
    requires OrderedBy(k, keys', rows') && |keys'| == |keys| && |rows'| == |rows| && Directions(keys') == Directions(keys)
    requires forall i :: 0 <= i < |rows| ==> SortValues(k, keys', rows'[i]) == SortValues(k, keys, rows[i])
    ensures OrderedBy(k, keys, rows)
  {
    hide SortValues, Directions, MayPrecede;
    forall i, m | 0 <= i < |rows| && 0 <= m < |keys|
      ensures Eval(k, keys[m].expr, rows[i]) == Eval(k, keys'[m].expr, rows'[i]) && keys[m].ascending == keys'[m].ascending
    {
      ValuesAt(k, keys, rows[i], m);
      ValuesAt(k, keys', rows'[i], m);
    }
    forall i, j, m | 0 <= i < j < |rows| && 0 <= m < |keys| && TiedUpTo(k, keys, m, rows[i], rows[j])
      ensures MayPrecede(keys[m].ascending, Eval(k, keys[m].expr, rows[i]), Eval(k, keys[m].expr, rows[j]))
    {
      assert TiedUpTo(k, keys', m, rows'[i], rows'[j]);
    }
  }

  /** The first rows of an ordered sequence are ordered. */
  lemma OrderedPrefix(k: Kernels, keys: seq<SortKey>, rows: seq<Row>, n: int)
    requires OrderedBy(k, keys, rows)
    ensures OrderedBy(k, keys, TakeRows(n, rows))
  {
  }

  // ---------------------------------------------------------------------------
  // Stability
  // ---------------------------------------------------------------------------

  /** Where every entry may follow `e`, it goes to the front. */
  lemma InsertFront(directions: seq<bool>, e: Entry, entries: seq<Entry>)
    requires forall x :: x in entries ==> KeysNotAfter(directions, e.0, x.0)
    ensures Insert(directions, e, entries) == [e] + entries
  {
    hide KeysNotAfter;
    if entries != [] { assert entries[0] in entries; }
  }

  lemma {:induction false} SelectInserted(directions: seq<bool>, keep: Entry -> bool, e: Entry, entries: seq<Entry>, n: nat)
    requires Sorted(directions, entries) && KeyWidth(entries, n) && |e.0| == n
    ensures Select(keep, Insert(directions, e, entries))
         == if keep(e) then Insert(directions, e, Select(keep, entries)) else Select(keep, entries)
  {
    hide KeysNotAfter, Sorted;
    SelectCons(keep, Insert(directions, e, entries));
    if entries == [] {
      SelectCons(keep, [e]);
    } else {
      var rest := entries[1..];
      SelectCons(keep, entries);
      SortedTail(directions, entries);
      assert entries[0] in entries && forall x :: x in rest ==> x in entries;
      if KeysNotAfter(directions, e.0, entries[0].0) {
        assert Insert(directions, e, entries)[1..] == entries;
        forall x | x in Select(keep, entries) ensures KeysNotAfter(directions, e.0, x.0) {
          SelectMember(keep, entries, x);
          if x in rest { KeysTrans(directions, e.0, entries[0].0, x.0); }
        }
        InsertFront(directions, e, Select(keep, entries));
      } else {
        assert Insert(directions, e, entries)[1..] == Insert(directions, e, rest);
        SelectInserted(directions, keep, e, rest, n);
        if keep(entries[0]) {
          var kept := Select(keep, entries);
          assert kept == [entries[0]] + Select(keep, rest) && kept[1..] == Select(keep, rest);
          assert Insert(directions, e, kept) == [entries[0]] + Insert(directions, e, kept[1..]);
        } else {
          assert Select(keep, entries) == Select(keep, rest);
        }
      }
    }
  }

  /** A stable sort commutes with leaving entries out. */
  lemma {:induction false} SelectSorted(directions: seq<bool>, keep: Entry -> bool, entries: seq<Entry>, n: nat)
    requires KeyWidth(entries, n)
    ensures Select(keep, StableSorted(directions, entries)) == StableSorted(directions, Select(keep, entries))
  {
    hide KeysNotAfter, Insert, Sorted;
    if entries != [] {
      var e, rest := entries[0], StableSorted(directions, entries[1..]);
      assert e in entries && forall x :: x in entries[1..] ==> x in entries;
      SelectSorted(directions, keep, entries[1..], n);
      SortedStably(directions, entries[1..], n);
      SameRowsMembers(rest, entries[1..]);
      SelectInserted(directions, keep, e, rest, n);
      SelectCons(keep, entries);
      if keep(e) {
        var kept := Select(keep, entries);
        assert kept == [e] + Select(keep, entries[1..]) && kept[1..] == Select(keep, entries[1..]);
        assert StableSorted(directions, kept) == Insert(directions, e, StableSorted(directions, kept[1..]));
      } else {
        assert Select(keep, entries) == Select(keep, entries[1..]);
      }
    }
  }

  /** So the library's sort commutes with leaving rows out. */
  lemma SortOfSelected(k: Kernels, keys: seq<SortKey>, rows: seq<Row>, test: Row -> bool)
    requires LibrarySorts(k)
    ensures Select(test, SortRows(k, keys, rows)) == SortRows(k, keys, Select(test, rows))
  {
    hide SortValues, Directions, StableSorted, SortRows;
    var directions, decorated := Directions(keys), Decorated(k, keys, rows);
    var keep := (e: Entry) => test(e.1);
    SortedEntries(k, keys, rows);
    SortedEntries(k, keys, Select(test, rows));
    DecoratedWidth(k, keys, rows);
    SelectSorted(directions, keep, decorated, |keys|);
    SelectOfMap(test, (e: Entry) => e.1, keep, StableSorted(directions, decorated));
    SelectOfMap(keep, row => (SortValues(k, keys, row), row), test, rows);
  }

  lemma {:induction false} KeysReflexive(directions: seq<bool>, a: Row)
    ensures KeysNotAfter(directions, a, a)
  {
    if directions != [] && a != [] { KeysReflexive(directions[1..], a[1..]); }
  }

  lemma {:induction false} SortedTies(directions: seq<bool>, entries: seq<Entry>, key: Row)
    requires forall e :: e in entries ==> e.0 == key
    ensures StableSorted(directions, entries) == entries
  {
    if entries != [] {
      assert entries[0] in entries && entries == [entries[0]] + entries[1..];
      SortedTies(directions, entries[1..], key);
      KeysReflexive(directions, key);
    }
  }

  /** Rows that tie on every key come out in the order in which they went in. */
  lemma TiesKeepOrder(k: Kernels, keys: seq<SortKey>, rows: seq<Row>, key: Row)
    requires LibrarySorts(k)
    ensures Select(row => SortValues(k, keys, row) == key, SortRows(k, keys, rows))
         == Select(row => SortValues(k, keys, row) == key, rows)
  {
    hide SortValues, Directions, StableSorted, SortRows;
    var tied := Select(row => SortValues(k, keys, row) == key, rows);
    var decorated := Decorated(k, keys, tied);
    SortOfSelected(k, keys, rows, row => SortValues(k, keys, row) == key);
    SortedEntries(k, keys, tied);
    forall e | e in decorated ensures e.0 == key {
      MapMember(row => (SortValues(k, keys, row), row), tied, e);
      var row :| row in tied && e == (SortValues(k, keys, row), row);
      SelectMember(row => SortValues(k, keys, row) == key, rows, row);
    }
    SortedTies(Directions(keys), decorated, key);
    MapMap((e: Entry) => e.1, row => (SortValues(k, keys, row), row), (row: Row) => row, tied);
    MapIndex((row: Row) => row, tied);
    assert Map((row: Row) => row, tied) == tied;
  }
}
