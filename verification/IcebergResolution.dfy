/** Which data files an Iceberg snapshot consists of (src/iceberg/iceberg_table_resolution.cpp and
src/iceberg/position_delete_reader.cpp): one pass over the manifests collects live data files
and counts deleted positions, a second drops the files whose rows are all deleted and rejects
the table if any file has only some of its rows deleted. */
module IcebergResolution {
  import opened Expressions
  import opened Relational
  import opened Distinctness

  /** A deleted position: the data file it is in, and the row's position there. */
  type Deletion = (string, int)

  // ---------------------------------------------------------------------------
  // Counting deleted positions
  // ---------------------------------------------------------------------------

  function CountOf(rows: seq<Deletion>, path: string): nat
  {
    |Select((r: Deletion) => r.0 == path, rows)|
  }

  /** `counts` has an entry for exactly the paths that occur, with how often they do. */
  ghost predicate Tallies(counts: map<string, int>, rows: seq<Deletion>)
  {
    forall path :: (path in counts <==> CountOf(rows, path) > 0) && (path in counts ==> counts[path] == CountOf(rows, path))
  }

  function AddTo(counts: map<string, int>, path: string, n: int): map<string, int>
  {
    counts[path := (if path in counts then counts[path] else 0) + n]
  }

  lemma CountAppend(a: seq<Deletion>, b: seq<Deletion>, path: string)
    ensures CountOf(a + b, path) == CountOf(a, path) + CountOf(b, path)
  {
    SelectAppend((r: Deletion) => r.0 == path, a, b);
  }

  lemma CountOne(r: Deletion, path: string)
    ensures CountOf([r], path) == if r.0 == path then 1 else 0
  {
    SelectCons((d: Deletion) => d.0 == path, [r]);
  }

  lemma TallyOne(counts: map<string, int>, rows: seq<Deletion>, r: Deletion)
    requires Tallies(counts, rows)
    ensures Tallies(AddTo(counts, r.0, 1), rows + [r])
  {
    hide CountOf;
    forall path
      ensures CountOf(rows + [r], path) == CountOf(rows, path) + if r.0 == path then 1 else 0
    {
      CountAppend(rows, [r], path);
      CountOne(r, path);
    }
  }

  /** One row of a position-delete file; the path can be NULL. */
  datatype DeleteRow = DeleteRow(path: Option<string>, pos: int)

  function Listed(rows: seq<DeleteRow>): seq<Deletion>
  {
    Map((r: DeleteRow) => (if r.path.Some? then r.path.value else "", r.pos), rows)
  }

  predicate HasNullPath(rows: seq<DeleteRow>)
  {
    exists r :: r in rows && r.path.None?
  }

  /** `read_position_delete_counts`: None is the error for a NULL path. The positions themselves
      are not looked at. */
  method ReadPositionDeleteCounts(batches: seq<seq<DeleteRow>>) returns (result: Option<map<string, int>>)
    ensures result.None? <==> HasNullPath(Flatten(batches))
    ensures result.Some? ==> Tallies(result.value, Listed(Flatten(batches)))
  {
    hide Tallies, Flatten;
    var counts: map<string, int> := map[];
    ghost var seen: seq<DeleteRow> := [];
    EmptyTally();
    for i := 0 to |batches|
      invariant seen == Flatten(batches[..i]) && !HasNullPath(seen) && Tallies(counts, Listed(seen))
    {
      FlattenSnoc(batches[..i], batches[i]);
      assert batches[..i + 1] == batches[..i] + [batches[i]];
      var next := CountBatch(counts, batches[i], seen);
      if next.None? {
        NullInBatch(batches, i);
        return None;
      }
      counts, seen := next.value, seen + batches[i];
    }
    assert batches[..|batches|] == batches;
    return Some(counts);
  }

  lemma EmptyTally()
    ensures Tallies(map[], Listed([])) && Flatten<DeleteRow>([]) == [] && !HasNullPath([])
  {
    assert Listed([]) == [];
  }

  lemma NullInBatch(batches: seq<seq<DeleteRow>>, i: nat)
    requires i < |batches| && HasNullPath(batches[i])
    ensures HasNullPath(Flatten(batches))
  {
    var r :| r in batches[i] && r.path.None?;
    FlatMapMember((b: seq<DeleteRow>) => b, batches, r);
    assert batches[i] in batches;
  }

  method CountBatch(counts0: map<string, int>, batch: seq<DeleteRow>, ghost seen: seq<DeleteRow>)
    returns (result: Option<map<string, int>>)
    requires Tallies(counts0, Listed(seen)) && !HasNullPath(seen)
    ensures result.None? <==> HasNullPath(batch)
    ensures result.Some? ==> Tallies(result.value, Listed(seen + batch)) && !HasNullPath(seen + batch)
  {
    hide Tallies;
    var counts := counts0;
    assert seen + batch[..0] == seen;
    for i := 0 to |batch|
      invariant Tallies(counts, Listed(seen + batch[..i])) && !HasNullPath(seen + batch[..i]) && !HasNullPath(batch[..i])
    {
      var r := batch[i];
      assert r in batch;
      if r.path.None? {
        return None;
      }
      assert seen + batch[..i + 1] == (seen + batch[..i]) + [r];
      assert batch[..i + 1] == batch[..i] + [r];
      ListedSnoc(seen + batch[..i], r);
      TallyOne(counts, Listed(seen + batch[..i]), (r.path.value, r.pos));
      counts := AddTo(counts, r.path.value, 1);
    }
    assert batch[..|batch|] == batch;
    return Some(counts);
  }

  lemma ListedSnoc(rows: seq<DeleteRow>, r: DeleteRow)
    requires r.path.Some?
    ensures Listed(rows + [r]) == Listed(rows) + [(r.path.value, r.pos)]
  {
    MapAppend((d: DeleteRow) => (if d.path.Some? then d.path.value else "", d.pos), rows, [r]);
    MapAppend((d: DeleteRow) => (if d.path.Some? then d.path.value else "", d.pos), [r], []);
  }

  /** Add one file's counts to the running totals, path by path. */
  method MergeCounts(totals0: map<string, int>, counts: map<string, int>, ghost before: seq<Deletion>,
                     ghost rows: seq<Deletion>)
    returns (totals: map<string, int>)
    requires Tallies(totals0, before) && Tallies(counts, rows)
    ensures Tallies(totals, before + rows)
  {
    totals := totals0;
    var left := counts.Keys;
    while left != {}
      invariant left <= counts.Keys
      invariant forall p :: p in left || p !in counts ==> (p in totals <==> p in totals0) && (p in totals0 ==> totals[p] == totals0[p])
      invariant forall p :: p in counts && p !in left ==> p in totals && totals[p] == counts[p] + if p in totals0 then totals0[p] else 0
      decreases |left|
    {
      var path :| path in left;
      totals := AddTo(totals, path, counts[path]);
      left := left - {path};
    }
    forall path ensures CountOf(before + rows, path) == CountOf(before, path) + CountOf(rows, path) {
      CountAppend(before, rows, path);
    }
  }

  // ---------------------------------------------------------------------------
  // Manifests
  // ---------------------------------------------------------------------------

  datatype Entry = Entry(status: int, content: int, format: string, path: string, recordCount: int)

  datatype Manifest = Manifest(content: int, specId: int, entries: seq<Entry>)

  /** What resolution reads besides the manifests: the contents of position-delete files, and
      whether partition pruning proves a data file empty under its manifest's spec. */
  datatype Snapshot = Snapshot(deleteFile: string -> seq<seq<DeleteRow>>, provenEmpty: (int, Entry) -> bool)

  predicate IsLive(e: Entry) { e.status == 0 || e.status == 1 }

  predicate IsDeletes(m: Manifest) { m.content == 1 }

  function LiveDeletes(m: Manifest): seq<Entry>
  {
    if IsDeletes(m) then Select((e: Entry) => IsLive(e), m.entries) else []
  }

  function LiveEntries(m: Manifest): seq<Entry>
  {
    if IsDeletes(m) then [] else Select((e: Entry) => IsLive(e), m.entries)
  }

  /** The live data files that pruning leaves. */
  function DataFiles(s: Snapshot, m: Manifest): seq<Entry>
  {
    Unpruned(s, m.specId, LiveEntries(m))
  }

  function Unpruned(s: Snapshot, specId: int, entries: seq<Entry>): seq<Entry>
  {
    Select((e: Entry) => !s.provenEmpty(specId, e), entries)
  }

  /** Equality deletes, unknown deletes, other formats and NULL paths are all errors. */
  predicate Unreadable(s: Snapshot, m: Manifest, e: Entry)
  {
    if IsDeletes(m) then e.content != 1 || e.format != "PARQUET" || HasNullPath(Flatten(s.deleteFile(e.path)))
    else e.format != "PARQUET"
  }

  predicate ManifestUnreadable(s: Snapshot, m: Manifest)
  {
    exists e :: e in m.entries && IsLive(e) && Unreadable(s, m, e)
  }

  function DeletionsIn(s: Snapshot, e: Entry): seq<Deletion>
  {
    Listed(Flatten(s.deleteFile(e.path)))
  }

  function ManifestDeletions(s: Snapshot, m: Manifest): seq<Deletion>
  {
    FlatMap((e: Entry) => DeletionsIn(s, e), LiveDeletes(m))
  }

  /** All deleted positions of the snapshot. */
  function Deletions(s: Snapshot, manifests: seq<Manifest>): seq<Deletion>
  {
    FlatMap((m: Manifest) => ManifestDeletions(s, m), manifests)
  }

  /** All data files that pruning leaves. */
  function Candidates(s: Snapshot, manifests: seq<Manifest>): seq<Entry>
  {
    FlatMap((m: Manifest) => DataFiles(s, m), manifests)
  }

  predicate PartlyDeleted(rows: seq<Deletion>, e: Entry)
  {
    0 < CountOf(rows, e.path) < e.recordCount
  }

  function Survivors(rows: seq<Deletion>, files: seq<Entry>): seq<Entry>
  {
    Select((e: Entry) => CountOf(rows, e.path) == 0, files)
  }

  predicate Rejects(s: Snapshot, manifests: seq<Manifest>)
  {
    || (exists m :: m in manifests && ManifestUnreadable(s, m))
    || (exists e :: e in Candidates(s, manifests) && PartlyDeleted(Deletions(s, manifests), e))
  }

  // ---------------------------------------------------------------------------
  // What the verdict on a file should be
  // ---------------------------------------------------------------------------

  /** The rows of the file that are deleted: the distinct listed positions within it. */
  function Dead(rows: seq<Deletion>, e: Entry): set<int>
  {
    set r | r in rows && r.0 == e.path && 0 <= r.1 < e.recordCount :: r.1
  }

  ghost predicate NoneDeleted(rows: seq<Deletion>, e: Entry)
  {
    forall i :: 0 <= i < e.recordCount ==> (e.path, i) !in rows
  }

  ghost predicate AllDeleted(rows: seq<Deletion>, e: Entry)
  {
    forall i :: 0 <= i < e.recordCount ==> (e.path, i) in rows
  }

  /** Keeping a file is right when no row of it is deleted, dropping it when all are. */
  ghost predicate RightAbout(rows: seq<Deletion>, e: Entry, kept: bool)
  {
    if kept then NoneDeleted(rows, e) else AllDeleted(rows, e)
  }

  /** Listings that repeat another or lie outside the file. */
  function Surplus(rows: seq<Deletion>, e: Entry): int
  {
    CountOf(rows, e.path) - |Dead(rows, e)|
  }

  function LiveRows(rows: seq<Deletion>, e: Entry): int
  {
    e.recordCount - |Dead(rows, e)|
  }

  /** There is no surplus, or it goes unnoticed: all rows of the file are deleted, or some are and
      the surplus does not make up for those that are not. */
  predicate Unambiguous(rows: seq<Deletion>, e: Entry)
  {
    Surplus(rows, e) == 0 || (Dead(rows, e) != {} && (LiveRows(rows, e) == 0 || Surplus(rows, e) < LiveRows(rows, e)))
  }

  ghost predicate NonEmptyFiles(s: Snapshot, manifests: seq<Manifest>)
  {
    forall e :: e in Candidates(s, manifests) ==> e.recordCount > 0
  }

  // ---------------------------------------------------------------------------
  // Resolution
  // ---------------------------------------------------------------------------

  lemma LiveSnoc(before: seq<Entry>, e: Entry)
    ensures Select((d: Entry) => IsLive(d), before + [e])
         == Select((d: Entry) => IsLive(d), before) + if IsLive(e) then [e] else []
  {
    SelectAppend((d: Entry) => IsLive(d), before, [e]);
    SelectCons((d: Entry) => IsLive(d), [e]);
  }

  lemma DeletionsSnoc(s: Snapshot, live: seq<Entry>, e: Entry)
    ensures FlatMap((d: Entry) => DeletionsIn(s, d), live + [e]) == FlatMap((d: Entry) => DeletionsIn(s, d), live) + DeletionsIn(s, e)
  {
    FlatMapAppend((d: Entry) => DeletionsIn(s, d), live, [e]);
    assert FlatMap((d: Entry) => DeletionsIn(s, d), [e]) == DeletionsIn(s, e) + FlatMap((d: Entry) => DeletionsIn(s, d), []);
  }

  method ReadDeleteManifest(s: Snapshot, m: Manifest, totals0: map<string, int>, ghost before: seq<Deletion>)
    returns (result: Option<map<string, int>>)
    requires IsDeletes(m) && Tallies(totals0, before)
    ensures result.None? <==> ManifestUnreadable(s, m)
    ensures result.Some? ==> Tallies(result.value, before + ManifestDeletions(s, m))
  {
    hide Tallies, DeletionsIn, HasNullPath;
    var totals := totals0;
    ghost var live: seq<Entry> := [];
    ghost var rows := before;
    assert before + FlatMap((d: Entry) => DeletionsIn(s, d), []) == before;
    for i := 0 to |m.entries|
      invariant live == Select((d: Entry) => IsLive(d), m.entries[..i])
      invariant rows == before + FlatMap((d: Entry) => DeletionsIn(s, d), live) && Tallies(totals, rows)
      invariant forall e :: e in m.entries[..i] && IsLive(e) ==> !Unreadable(s, m, e)
    {
      var e := m.entries[i];
      assert e in m.entries && m.entries[..i + 1] == m.entries[..i] + [e];
      LiveSnoc(m.entries[..i], e);
      if IsLive(e) {
        if e.content == 2 || e.content != 1 || e.format != "PARQUET" {
          return None;
        }
        var counts := ReadPositionDeleteCounts(s.deleteFile(e.path));
        if counts.None? {
          return None;
        }
        assert DeletionsIn(s, e) == Listed(Flatten(s.deleteFile(e.path))) by { AsListed(s, e); }
        totals := MergeCounts(totals, counts.value, rows, DeletionsIn(s, e));
        DeletionsSnoc(s, live, e);
        rows := rows + DeletionsIn(s, e);
        live := live + [e];
      }
    }
    assert m.entries[..|m.entries|] == m.entries;
    return Some(totals);
  }

  lemma AsListed(s: Snapshot, e: Entry)
    ensures DeletionsIn(s, e) == Listed(Flatten(s.deleteFile(e.path)))
  {
  }

  lemma UnprunedSnoc(s: Snapshot, specId: int, before: seq<Entry>, e: Entry)
    ensures Unpruned(s, specId, before + [e]) == Unpruned(s, specId, before) + if s.provenEmpty(specId, e) then [] else [e]
  {
    SelectAppend((d: Entry) => !s.provenEmpty(specId, d), before, [e]);
    SelectCons((d: Entry) => !s.provenEmpty(specId, d), [e]);
  }

  lemma NonePruned(s: Snapshot, specId: int)
    ensures Unpruned(s, specId, []) == []
  {
  }

  method ReadDataManifest(s: Snapshot, m: Manifest, files0: seq<Entry>) returns (result: Option<seq<Entry>>)
    requires !IsDeletes(m)
    ensures result.None? <==> ManifestUnreadable(s, m)
    ensures result.Some? ==> result.value == files0 + DataFiles(s, m)
  {
    hide Unpruned;
    var files := files0;
    ghost var live: seq<Entry> := [];
    NonePruned(s, m.specId);
    for i := 0 to |m.entries|
      invariant live == Select((d: Entry) => IsLive(d), m.entries[..i])
      invariant files == files0 + Unpruned(s, m.specId, live)
      invariant forall e :: e in m.entries[..i] && IsLive(e) ==> !Unreadable(s, m, e)
    {
      var e := m.entries[i];
      assert e in m.entries && m.entries[..i + 1] == m.entries[..i] + [e];
      LiveSnoc(m.entries[..i], e);
      if IsLive(e) {
        if e.format != "PARQUET" {
          return None;
        }
        UnprunedSnoc(s, m.specId, live, e);
        if !s.provenEmpty(m.specId, e) {
          files := files + [e];
        }
        live := live + [e];
      }
    }
    assert m.entries[..|m.entries|] == m.entries;
    return Some(files);
  }

  /** Drop the files all of whose rows are deleted; fail on a file with only some deleted. */
  method DropDeleted(totals: map<string, int>, files: seq<Entry>,
                     ghost rows: seq<Deletion>) returns (result: Option<seq<Entry>>)
    requires Tallies(totals, rows)
    ensures result.None? <==> exists e :: e in files && PartlyDeleted(rows, e)
    ensures result.Some? ==> result.value == Survivors(rows, files)
  {
    var survivors: seq<Entry> := [];
    for i := 0 to |files|
      invariant survivors == Survivors(rows, files[..i])
      invariant forall e :: e in files[..i] ==> !PartlyDeleted(rows, e)
    {
      var e := files[i];
      assert e in files && files[..i + 1] == files[..i] + [e];
      SelectAppend((d: Entry) => CountOf(rows, d.path) == 0, files[..i], [e]);
      SelectCons((d: Entry) => CountOf(rows, d.path) == 0, [e]);
      if e.path in totals {
        if totals[e.path] < e.recordCount {
          return None;
        }
      } else {
        survivors := survivors + [e];
      }
    }
    assert files[..|files|] == files;
    return Some(survivors);
  }

  lemma ManifestSnoc(s: Snapshot, before: seq<Manifest>, m: Manifest)
    ensures Deletions(s, before + [m]) == Deletions(s, before) + ManifestDeletions(s, m)
    ensures Candidates(s, before + [m]) == Candidates(s, before) + DataFiles(s, m)
    ensures IsDeletes(m) ==> DataFiles(s, m) == []
    ensures !IsDeletes(m) ==> ManifestDeletions(s, m) == []
  {
    FlatMapAppend((n: Manifest) => ManifestDeletions(s, n), before, [m]);
    FlatMapAppend((n: Manifest) => DataFiles(s, n), before, [m]);
    assert FlatMap((n: Manifest) => ManifestDeletions(s, n), [m]) == ManifestDeletions(s, m) + FlatMap((n: Manifest) => ManifestDeletions(s, n), []);
    assert FlatMap((n: Manifest) => DataFiles(s, n), [m]) == DataFiles(s, m) + FlatMap((n: Manifest) => DataFiles(s, n), []);
  }

  /** `resolve_iceberg_table`, up to opening the surviving files: None is any of its errors. */
  method ResolveIcebergTable(s: Snapshot, manifests: seq<Manifest>) returns (result: Option<seq<Entry>>)
    ensures result.None? <==> Rejects(s, manifests)
    ensures result.Some? ==> result.value == Survivors(Deletions(s, manifests), Candidates(s, manifests))
    ensures forall e :: result.Some? ==>
              (e in result.value <==> IsDataFile(s, manifests, e) && !HasDeletes(s, manifests, e.path))
    ensures result.Some? && NonEmptyFiles(s, manifests) ==>
              ((forall e :: e in Candidates(s, manifests) ==> RightAbout(Deletions(s, manifests), e, e in result.value)) <==>
               (forall e :: e in Candidates(s, manifests) ==> Unambiguous(Deletions(s, manifests), e)))
  {
    hide Tallies, Deletions, Candidates, Survivors, ManifestUnreadable, PartlyDeleted, RightAbout, Unambiguous, IsDataFile,
      HasDeletes;
    var files: seq<Entry> := [];
    var totals: map<string, int> := map[];
    NoManifests(s);
    for i := 0 to |manifests|
      invariant files == Candidates(s, manifests[..i]) && Tallies(totals, Deletions(s, manifests[..i]))
      invariant forall m :: m in manifests[..i] ==> !ManifestUnreadable(s, m)
    {
      var m := manifests[i];
      assert m in manifests && manifests[..i + 1] == manifests[..i] + [m];
      ManifestSnoc(s, manifests[..i], m);
      if IsDeletes(m) {
        var next := ReadDeleteManifest(s, m, totals, Deletions(s, manifests[..i]));
        if next.None? {
          return None;
        }
        totals := next.value;
      } else {
        var next := ReadDataManifest(s, m, files);
        if next.None? {
          return None;
        }
        assert Deletions(s, manifests[..i]) + [] == Deletions(s, manifests[..i]);
        files := next.value;
      }
    }
    assert manifests[..|manifests|] == manifests;
    result := DropDeleted(totals, files, Deletions(s, manifests));
    if result.Some? {
      forall e ensures e in result.value <==> IsDataFile(s, manifests, e) && !HasDeletes(s, manifests, e.path) {
        ResolvedFiles(s, manifests, e);
      }
      if NonEmptyFiles(s, manifests) {
        WholeFilesOnly(s, manifests);
      }
    }
  }

  lemma NoManifests(s: Snapshot)
    ensures Candidates(s, []) == [] && Deletions(s, []) == [] && Tallies(map[], [])
  {
  }

  // ---------------------------------------------------------------------------
  // What resolution promises
  // ---------------------------------------------------------------------------

  lemma CountSameRows(a: seq<Deletion>, b: seq<Deletion>, path: string)
    requires SameRows(a, b)
    ensures CountOf(a, path) == CountOf(b, path)
  {
    SelectSameRows((r: Deletion) => r.0 == path, a, b);
    SameRowsLength(Select((r: Deletion) => r.0 == path, a), Select((r: Deletion) => r.0 == path, b));
  }

  /** The order of the manifest list does not matter: any two orders are both rejected, or
      select the same files. */
  lemma OrderIrrelevant(s: Snapshot, manifests: seq<Manifest>, shuffled: seq<Manifest>)
    requires SameRows(manifests, shuffled)
    ensures Rejects(s, manifests) <==> Rejects(s, shuffled)
    ensures SameRows(Survivors(Deletions(s, manifests), Candidates(s, manifests)),
                     Survivors(Deletions(s, shuffled), Candidates(s, shuffled)))
  {
    hide CountOf, ManifestUnreadable;
    var rows, rows' := Deletions(s, manifests), Deletions(s, shuffled);
    var files, files' := Candidates(s, manifests), Candidates(s, shuffled);
    FlatMapSameRows((m: Manifest) => ManifestDeletions(s, m), manifests, shuffled);
    FlatMapSameRows((m: Manifest) => DataFiles(s, m), manifests, shuffled);
    SameRowsMembers(manifests, shuffled);
    SameRowsMembers(files, files');
    forall path ensures CountOf(rows, path) == CountOf(rows', path) {
      CountSameRows(rows, rows', path);
    }
    SelectExt((e: Entry) => CountOf(rows, e.path) == 0, (e: Entry) => CountOf(rows', e.path) == 0, files);
    SelectSameRows((e: Entry) => CountOf(rows', e.path) == 0, files, files');
  }

  function UpTo(n: nat): (s: set<int>)
    ensures |s| == n && forall i :: i in s <==> 0 <= i < n
  {
    if n == 0 then {} else UpTo(n - 1) + {n - 1}
  }

  lemma SubsetOfSameSize(a: set<int>, b: set<int>)
    requires a <= b && |b| <= |a|
    ensures a == b
  {
    assert b == a + (b - a);
    assert |b| == |a| + |b - a|;
  }

  /** Every deleted row is counted at least once, and just once where the listings of the file
      are distinct and within it. */
  lemma {:induction false} DeadCounted(rows: seq<Deletion>, e: Entry)
    ensures |Dead(rows, e)| <= CountOf(rows, e.path)
    ensures DistinctListings(rows, e) ==> |Dead(rows, e)| == CountOf(rows, e.path)
  {
    if rows != [] {
      var r, rest := rows[0], rows[1..];
      DeadCounted(rest, e);
      SelectCons((d: Deletion) => d.0 == e.path, rows);
      if r.0 == e.path && 0 <= r.1 < e.recordCount {
        assert Dead(rows, e) == Dead(rest, e) + {r.1};
        if r.1 in Dead(rest, e) {
          assert Dead(rows, e) == Dead(rest, e) && r in rest;
          var j :| 0 <= j < |rest| && rest[j] == r;
          assert rows[0] == rows[j + 1];
        }
      } else {
        assert Dead(rows, e) == Dead(rest, e);
      }
      if DistinctListings(rows, e) {
        DistinctRest(rows, e);
        assert r in rows;
      }
    } else {
      assert Dead(rows, e) == {};
    }
  }

  ghost predicate DistinctListings(rows: seq<Deletion>, e: Entry)
  {
    && (forall i, j :: 0 <= i < j < |rows| && rows[i].0 == e.path ==> rows[i] != rows[j])
    && (forall r :: r in rows && r.0 == e.path ==> 0 <= r.1 < e.recordCount)
  }

  lemma DistinctRest(rows: seq<Deletion>, e: Entry)
    requires rows != [] && DistinctListings(rows, e)
    ensures DistinctListings(rows[1..], e)
  {
    forall i, j | 0 <= i < j < |rows[1..]| && rows[1..][i].0 == e.path ensures rows[1..][i] != rows[1..][j] {
      assert rows[i + 1] != rows[j + 1];
    }
  }

  /** Pigeonhole: all rows are deleted exactly when there are as many deleted as the file has. */
  lemma DeadReachesAll(rows: seq<Deletion>, e: Entry)
    requires e.recordCount >= 0
    ensures |Dead(rows, e)| <= e.recordCount
    ensures |Dead(rows, e)| == e.recordCount <==> AllDeleted(rows, e)
    ensures Dead(rows, e) == {} <==> NoneDeleted(rows, e)
  {
    var dead, all := Dead(rows, e), UpTo(e.recordCount);
    assert dead <= all;
    SubsetSize(dead, all);
    if |dead| == e.recordCount {
      SubsetOfSameSize(dead, all);
      forall i | 0 <= i < e.recordCount ensures (e.path, i) in rows {
        assert i in dead;
      }
    }
    if AllDeleted(rows, e) {
      forall i | i in all ensures i in dead {
        assert (e.path, i) in rows;
      }
      assert all == dead;
    }
    if dead == {} {
      forall i | 0 <= i < e.recordCount ensures (e.path, i) !in rows {
        assert (e.path, i) in rows ==> i in dead;
      }
    }
  }

  /** The verdict by counting (keep, reject or drop) is the right one, and none other, exactly
      when the listings of the file are unambiguous. */
  lemma VerdictExact(rows: seq<Deletion>, e: Entry)
    requires e.recordCount > 0
    ensures Unambiguous(rows, e) <==>
      && (CountOf(rows, e.path) == 0 <==> NoneDeleted(rows, e))
      && (PartlyDeleted(rows, e) <==> !NoneDeleted(rows, e) && !AllDeleted(rows, e))
  {
    hide CountOf, Dead, NoneDeleted, AllDeleted;
    DeadCounted(rows, e);
    DeadReachesAll(rows, e);
    assert |Dead(rows, e)| == 0 <==> Dead(rows, e) == {};
  }

  /** A file that is not rejected is kept or dropped rightly exactly when its listings are
      unambiguous. */
  lemma AcceptedExact(rows: seq<Deletion>, e: Entry)
    requires e.recordCount > 0 && !PartlyDeleted(rows, e)
    ensures RightAbout(rows, e, CountOf(rows, e.path) == 0) <==> Unambiguous(rows, e)
  {
    hide CountOf, Dead, NoneDeleted, AllDeleted;
    DeadCounted(rows, e);
    DeadReachesAll(rows, e);
    assert |Dead(rows, e)| == 0 <==> Dead(rows, e) == {};
  }

  /** What resolution makes of every candidate file of an accepted snapshot is right exactly when
      the listings of each are unambiguous. */
  lemma WholeFilesOnly(s: Snapshot, manifests: seq<Manifest>)
    requires !Rejects(s, manifests) && NonEmptyFiles(s, manifests)
    ensures var rows, files := Deletions(s, manifests), Candidates(s, manifests);
            (forall e :: e in files ==> RightAbout(rows, e, e in Survivors(rows, files))) <==>
            (forall e :: e in files ==> Unambiguous(rows, e))
  {
    hide Deletions, Candidates, Unambiguous, RightAbout;
    var rows, files := Deletions(s, manifests), Candidates(s, manifests);
    forall e | e in files ensures RightAbout(rows, e, e in Survivors(rows, files)) <==> Unambiguous(rows, e) {
      SelectMember((d: Entry) => CountOf(rows, d.path) == 0, files, e);
      AcceptedExact(rows, e);
    }
  }

  /** A readable snapshot with unambiguous listings is rejected exactly when some file has a row
      deleted and a row left. */
  lemma RejectionExact(s: Snapshot, manifests: seq<Manifest>)
    requires NonEmptyFiles(s, manifests) && forall m :: m in manifests ==> !ManifestUnreadable(s, m)
    requires forall e :: e in Candidates(s, manifests) ==> Unambiguous(Deletions(s, manifests), e)
    ensures Rejects(s, manifests) <==>
      exists e :: e in Candidates(s, manifests) && !NoneDeleted(Deletions(s, manifests), e) && !AllDeleted(Deletions(s, manifests), e)
  {
    hide Deletions, Candidates, Unambiguous, NoneDeleted, AllDeleted, PartlyDeleted, ManifestUnreadable;
    var rows := Deletions(s, manifests);
    forall e | e in Candidates(s, manifests)
      ensures PartlyDeleted(rows, e) <==> !NoneDeleted(rows, e) && !AllDeleted(rows, e)
    {
      VerdictExact(rows, e);
    }
  }

  /** Distinct listings within the file are never ambiguous: the file is kept when none of its
      rows is deleted, dropped when all are, and the snapshot rejected otherwise. */
  lemma PartialDeletesRejected(rows: seq<Deletion>, e: Entry)
    requires e.recordCount > 0 && DistinctListings(rows, e)
    ensures Unambiguous(rows, e)
    ensures CountOf(rows, e.path) == 0 <==> NoneDeleted(rows, e)
    ensures PartlyDeleted(rows, e) <==> !NoneDeleted(rows, e) && !AllDeleted(rows, e)
  {
    DeadCounted(rows, e);
    VerdictExact(rows, e);
  }

  // ---------------------------------------------------------------------------
  // The result in terms of the manifests
  // ---------------------------------------------------------------------------

  /** Entries that exist or were added are live; status 2 is a removed one. */
  ghost predicate ExistingOrAdded(e: Entry)
  {
    e.status == 0 || e.status == 1
  }

  /** `e` is a data file of the snapshot that partition pruning leaves. */
  ghost predicate IsDataFile(s: Snapshot, manifests: seq<Manifest>, e: Entry)
  {
    exists m :: m in manifests && m.content != 1 && e in m.entries && ExistingOrAdded(e) && !s.provenEmpty(m.specId, e)
  }

  /** `d` is a delete file of the snapshot. */
  ghost predicate IsDeleteFile(manifests: seq<Manifest>, d: Entry)
  {
    exists m :: m in manifests && m.content == 1 && d in m.entries && ExistingOrAdded(d)
  }

  /** Row `r` of delete file `d`. */
  ghost predicate HasRow(s: Snapshot, d: Entry, r: DeleteRow)
  {
    exists b :: b in s.deleteFile(d.path) && r in b
  }

  /** Some delete file of the snapshot lists a position of `path`. */
  ghost predicate HasDeletes(s: Snapshot, manifests: seq<Manifest>, path: string)
  {
    exists d, r :: IsDeleteFile(manifests, d) && HasRow(s, d, r) && r.path == Some(path)
  }

  lemma RowsOfFile(s: Snapshot, d: Entry, r: DeleteRow)
    ensures r in Flatten(s.deleteFile(d.path)) <==> HasRow(s, d, r)
  {
    FlatMapMember((b: seq<DeleteRow>) => b, s.deleteFile(d.path), r);
  }

  lemma CandidateMember(s: Snapshot, manifests: seq<Manifest>, e: Entry)
    ensures e in Candidates(s, manifests) <==> IsDataFile(s, manifests, e)
  {
    FlatMapMember((m: Manifest) => DataFiles(s, m), manifests, e);
    forall m ensures e in DataFiles(s, m) <==> m.content != 1 && e in m.entries && ExistingOrAdded(e) && !s.provenEmpty(m.specId, e) {
      SelectMember((d: Entry) => !s.provenEmpty(m.specId, d), LiveEntries(m), e);
      SelectMember((d: Entry) => IsLive(d), m.entries, e);
    }
  }

  lemma DeletionMember(s: Snapshot, manifests: seq<Manifest>, r: Deletion)
    ensures r in Deletions(s, manifests) <==> exists d :: IsDeleteFile(manifests, d) && r in DeletionsIn(s, d)
  {
    hide DeletionsIn;
    FlatMapMember((m: Manifest) => ManifestDeletions(s, m), manifests, r);
    forall m ensures r in ManifestDeletions(s, m) <==>
      exists d :: m.content == 1 && d in m.entries && ExistingOrAdded(d) && r in DeletionsIn(s, d)
    {
      FlatMapMember((d: Entry) => DeletionsIn(s, d), LiveDeletes(m), r);
      forall d ensures d in LiveDeletes(m) <==> m.content == 1 && d in m.entries && ExistingOrAdded(d) {
        SelectMember((e: Entry) => IsLive(e), m.entries, d);
      }
    }
  }

  lemma ListedIn(s: Snapshot, d: Entry, path: string)
    requires !HasNullPath(Flatten(s.deleteFile(d.path)))
    ensures (exists r :: r in DeletionsIn(s, d) && r.0 == path) <==> exists r :: HasRow(s, d, r) && r.path == Some(path)
  {
    var rows := Flatten(s.deleteFile(d.path));
    var deletion := (r: DeleteRow) => (if r.path.Some? then r.path.value else "", r.pos);
    if r: Deletion :| r in DeletionsIn(s, d) && r.0 == path {
      MapMember(deletion, rows, r);
      var row :| row in rows && deletion(row) == r;
      RowsOfFile(s, d, row);
    }
    if row :| HasRow(s, d, row) && row.path == Some(path) {
      RowsOfFile(s, d, row);
      MapMember(deletion, rows, deletion(row));
      assert deletion(row) in DeletionsIn(s, d);
    }
  }

  lemma NoNullPaths(s: Snapshot, manifests: seq<Manifest>, d: Entry)
    requires (forall m :: m in manifests ==> !ManifestUnreadable(s, m)) && IsDeleteFile(manifests, d)
    ensures !HasNullPath(Flatten(s.deleteFile(d.path)))
  {
    var m :| m in manifests && m.content == 1 && d in m.entries && ExistingOrAdded(d);
    assert !Unreadable(s, m, d);
  }

  lemma NoneListed(rows: seq<Deletion>, path: string)
    ensures CountOf(rows, path) == 0 <==> forall r :: r in rows ==> r.0 != path
  {
    var listed := Select((r: Deletion) => r.0 == path, rows);
    forall r | r in rows && r.0 == path ensures r in listed {
      SelectMember((d: Deletion) => d.0 == path, rows, r);
    }
    if listed != [] {
      SelectMember((d: Deletion) => d.0 == path, rows, listed[0]);
    }
  }

  lemma DeletesListed(s: Snapshot, manifests: seq<Manifest>, path: string)
    requires forall m :: m in manifests ==> !ManifestUnreadable(s, m)
    ensures CountOf(Deletions(s, manifests), path) > 0 <==> HasDeletes(s, manifests, path)
  {
    hide Deletions, CountOf, ManifestUnreadable, IsDeleteFile, HasRow, DeletionsIn;
    var rows := Deletions(s, manifests);
    NoneListed(rows, path);
    if r :| r in rows && r.0 == path {
      DeletionMember(s, manifests, r);
      var d :| IsDeleteFile(manifests, d) && r in DeletionsIn(s, d);
      NoNullPaths(s, manifests, d);
      ListedIn(s, d, path);
    }
    if HasDeletes(s, manifests, path) {
      var d, row :| IsDeleteFile(manifests, d) && HasRow(s, d, row) && row.path == Some(path);
      NoNullPaths(s, manifests, d);
      ListedIn(s, d, path);
      var r :| r in DeletionsIn(s, d) && r.0 == path;
      DeletionMember(s, manifests, r);
    }
  }

  /** An accepted snapshot resolves to the data files that exist or were added, that pruning leaves
      and that no delete file lists. */
  lemma ResolvedFiles(s: Snapshot, manifests: seq<Manifest>, e: Entry)
    requires !Rejects(s, manifests)
    ensures e in Survivors(Deletions(s, manifests), Candidates(s, manifests)) <==>
              IsDataFile(s, manifests, e) && !HasDeletes(s, manifests, e.path)
  {
    hide Deletions, Candidates, CountOf, ManifestUnreadable, PartlyDeleted, IsDataFile, HasDeletes;
    CandidateMember(s, manifests, e);
    DeletesListed(s, manifests, e.path);
    SelectMember((d: Entry) => CountOf(Deletions(s, manifests), d.path) == 0, Candidates(s, manifests), e);
  }

  // How often a file is listed, counted row by row

  function RowListings(rows: seq<DeleteRow>, path: string): nat
  {
    if rows == [] then 0 else (if rows[0].path == Some(path) then 1 else 0) + RowListings(rows[1..], path)
  }

  function EntryListings(s: Snapshot, entries: seq<Entry>, path: string): nat
  {
    if entries == [] then 0
    else
      var first := if entries[0].status == 0 || entries[0].status == 1 then RowListings(Flatten(s.deleteFile(entries[0].path)), path) else 0;
      first + EntryListings(s, entries[1..], path)
  }

  function Listings(s: Snapshot, manifests: seq<Manifest>, path: string): nat
  {
    if manifests == [] then 0
    else (if manifests[0].content == 1 then EntryListings(s, manifests[0].entries, path) else 0) + Listings(s, manifests[1..], path)
  }

  lemma {:induction false} RowsCounted(rows: seq<DeleteRow>, path: string)
    requires !HasNullPath(rows)
    ensures CountOf(Listed(rows), path) == RowListings(rows, path)
  {
    if rows != [] {
      var deletion := (r: DeleteRow) => (if r.path.Some? then r.path.value else "", r.pos);
      assert rows[0] in rows && rows == [rows[0]] + rows[1..];
      RowsCounted(rows[1..], path);
      MapAppend(deletion, [rows[0]], rows[1..]);
      MapIndex(deletion, [rows[0]]);
      assert Listed(rows) == [deletion(rows[0])] + Listed(rows[1..]);
      CountAppend([deletion(rows[0])], Listed(rows[1..]), path);
      CountOne(deletion(rows[0]), path);
    }
  }

  lemma {:induction false} EntriesCounted(s: Snapshot, entries: seq<Entry>, path: string)
    requires forall e :: e in entries && ExistingOrAdded(e) ==> !HasNullPath(Flatten(s.deleteFile(e.path)))
    ensures CountOf(FlatMap((e: Entry) => DeletionsIn(s, e), Select((e: Entry) => IsLive(e), entries)), path)
         == EntryListings(s, entries, path)
  {
    hide CountOf, HasNullPath, RowListings;
    if entries != [] {
      var e, rest := entries[0], Select((e: Entry) => IsLive(e), entries[1..]);
      assert e in entries;
      EntriesCounted(s, entries[1..], path);
      SelectCons((e: Entry) => IsLive(e), entries);
      if ExistingOrAdded(e) {
        RowsCounted(Flatten(s.deleteFile(e.path)), path);
        FlatMapAppend((e: Entry) => DeletionsIn(s, e), [e], rest);
        assert [e][1..] == [];
        assert FlatMap((e: Entry) => DeletionsIn(s, e), [e]) == DeletionsIn(s, e) + FlatMap((e: Entry) => DeletionsIn(s, e), []);
        CountAppend(DeletionsIn(s, e), FlatMap((e: Entry) => DeletionsIn(s, e), rest), path);
        assert Select((e: Entry) => IsLive(e), entries) == [e] + rest;
        assert DeletionsIn(s, e) + [] == DeletionsIn(s, e);
      } else {
        assert Select((e: Entry) => IsLive(e), entries) == rest;
      }
    } else {
      assert CountOf([], path) == 0 by { NothingCounted(path); }
    }
  }

  lemma NothingCounted(path: string)
    ensures CountOf([], path) == 0
  {
  }

  lemma {:induction false} DeletionsCounted(s: Snapshot, manifests: seq<Manifest>, path: string)
    requires forall m :: m in manifests ==> !ManifestUnreadable(s, m)
    ensures CountOf(Deletions(s, manifests), path) == Listings(s, manifests, path)
  {
    hide CountOf, EntryListings;
    NothingCounted(path);
    if manifests != [] {
      var m := manifests[0];
      assert m in manifests;
      DeletionsCounted(s, manifests[1..], path);
      assert Deletions(s, manifests) == ManifestDeletions(s, m) + Deletions(s, manifests[1..]);
      CountAppend(ManifestDeletions(s, m), Deletions(s, manifests[1..]), path);
      if m.content == 1 {
        forall e | e in m.entries && ExistingOrAdded(e) ensures !HasNullPath(Flatten(s.deleteFile(e.path))) {
          assert !Unreadable(s, m, e);
        }
        EntriesCounted(s, m.entries, path);
      }
    }
  }

  /** A live entry that cannot be read: a delete file that does not list positions, names no file
      or is not Parquet, or a data file that is not Parquet. */
  ghost predicate Unsupported(s: Snapshot, m: Manifest, e: Entry)
  {
    && e in m.entries && ExistingOrAdded(e)
    && (e.format != "PARQUET" || (m.content == 1 && (e.content != 1 || exists r :: HasRow(s, e, r) && r.path == None)))
  }

  lemma UnreadableMeans(s: Snapshot, m: Manifest)
    ensures ManifestUnreadable(s, m) <==> exists e :: Unsupported(s, m, e)
  {
    forall e | e in m.entries ensures HasNullPath(Flatten(s.deleteFile(e.path))) <==> exists r :: HasRow(s, e, r) && r.path == None {
      forall r ensures r in Flatten(s.deleteFile(e.path)) <==> HasRow(s, e, r) {
        RowsOfFile(s, e, r);
      }
    }
    if e :| e in m.entries && IsLive(e) && Unreadable(s, m, e) {
      assert Unsupported(s, m, e);
    }
    if e :| Unsupported(s, m, e) {
      assert IsLive(e) && Unreadable(s, m, e);
    }
  }

  /** A snapshot is rejected exactly for an entry that cannot be read, or for a data file that is
      listed, but less often than it has rows. */
  lemma RejectedSnapshots(s: Snapshot, manifests: seq<Manifest>)
    ensures Rejects(s, manifests) <==>
      || (exists m, e :: m in manifests && Unsupported(s, m, e))
      || (exists e :: IsDataFile(s, manifests, e) && 0 < Listings(s, manifests, e.path) < e.recordCount)
  {
    hide Deletions, Candidates, CountOf, ManifestUnreadable, IsDataFile, Unsupported, Listings;
    forall m | m in manifests ensures ManifestUnreadable(s, m) <==> exists e :: Unsupported(s, m, e) {
      UnreadableMeans(s, m);
    }
    if forall m :: m in manifests ==> !ManifestUnreadable(s, m) {
      forall e ensures (e in Candidates(s, manifests) <==> IsDataFile(s, manifests, e))
                    && CountOf(Deletions(s, manifests), e.path) == Listings(s, manifests, e.path)
      {
        CandidateMember(s, manifests, e);
        DeletionsCounted(s, manifests, e.path);
      }
    }
  }

  // ---------------------------------------------------------------------------
  // A row deleted twice
  // ---------------------------------------------------------------------------

  const TWO_ROWS := Entry(1, 0, "PARQUET", "f", 2)

  /** Two delete files, each listing row 0 of `f`. */
  const DELETED_TWICE :=
    [Manifest(0, 0, [TWO_ROWS]), Manifest(1, 0, [Entry(1, 1, "PARQUET", "d1", 1), Entry(1, 1, "PARQUET", "d2", 1)])]

  function RowZero(): Snapshot
  {
    Snapshot((path: string) => [[DeleteRow(Some("f"), 0)]], (specId: int, e: Entry) => false)
  }

  lemma DeletedTwice()
    ensures Deletions(RowZero(), DELETED_TWICE) == [("f", 0), ("f", 0)]
    ensures Candidates(RowZero(), DELETED_TWICE) == [TWO_ROWS]
    ensures forall m :: m in DELETED_TWICE ==> !ManifestUnreadable(RowZero(), m)
  {
    var s := RowZero();
    var data, deletes := DELETED_TWICE[0], DELETED_TWICE[1];
    var row := DeleteRow(Some("f"), 0);
    SelectAll((e: Entry) => IsLive(e), deletes.entries);
    SelectAll((e: Entry) => IsLive(e), data.entries);
    SelectAll((e: Entry) => !s.provenEmpty(0, e), data.entries);
    FlattenSnoc([], [row]);
    assert [] + [[row]] == [[row]] && Flatten<DeleteRow>([]) + [row] == [row];
    assert Flatten([[row]]) == [row] && !HasNullPath([row]);
    ListedSnoc([], row);
    assert [] + [row] == [row];
    forall e ensures DeletionsIn(s, e) == [("f", 0)] {}
    DeletionsSnoc(s, [], deletes.entries[0]);
    DeletionsSnoc(s, [deletes.entries[0]], deletes.entries[1]);
    assert [] + [deletes.entries[0]] == [deletes.entries[0]];
    assert [deletes.entries[0]] + [deletes.entries[1]] == deletes.entries;
    assert ManifestDeletions(s, deletes) == [("f", 0), ("f", 0)];
    NoManifests(s);
    ManifestSnoc(s, [], data);
    ManifestSnoc(s, [data], deletes);
    assert [] + [data] == [data] && [data] + [deletes] == DELETED_TWICE;
  }

  /** Counting takes the repeated position for a second deleted row: the snapshot is accepted and
      the file dropped, although its row 1 is live. */
  lemma RepeatedListingDropsLiveRow()
    ensures var rows, files := Deletions(RowZero(), DELETED_TWICE), Candidates(RowZero(), DELETED_TWICE);
            && !Rejects(RowZero(), DELETED_TWICE) && TWO_ROWS in files && TWO_ROWS !in Survivors(rows, files)
            && ("f", 1) !in rows
  {
    hide Deletions, Candidates, ManifestUnreadable;
    DeletedTwice();
    var rows := [("f", 0), ("f", 0)];
    SelectAll((r: Deletion) => r.0 == "f", rows);
    SelectNone((d: Entry) => CountOf(rows, d.path) == 0, [TWO_ROWS]);
  }
}
