/** The inventory of a managed directory and the eviction of its least recently used files
    (samply-quota-manager/src/file_inventory.rs, quota_manager.rs). The table of files is a list of
    rows with distinct paths. */
module Quota {
  import opened Prelude
  import opened Sorting

  const I64_LIMIT: nat := 0x8000_0000_0000_0000

  type i64Size = x: int | 0 <= x < 0x8000_0000_0000_0000

  datatype Row = Row(path: string, size: i64Size, creationTime: nat, lastAccess: nat)

  ghost predicate DistinctPaths(rows: seq<Row>) {
    forall i, j :: 0 <= i < j < |rows| ==> rows[i].path != rows[j].path
  }

  function Sum(rows: seq<Row>): nat {
    if rows == [] then 0 else rows[0].size + Sum(rows[1..])
  }

  // ----- notifications -----

  /** `INSERT ... ON CONFLICT(Path) DO UPDATE` */
  function Upsert(rows: seq<Row>, row: Row): seq<Row> {
    if rows == [] then [row]
    else if rows[0].path == row.path then [row] + rows[1..]
    else [rows[0]] + Upsert(rows[1..], row)
  }

  /** `UPDATE files SET LastAccessTime` */
  function Touch(rows: seq<Row>, path: string, time: nat): seq<Row> {
    seq(|rows|, i requires 0 <= i < |rows| => if rows[i].path == path then rows[i].(lastAccess := time) else rows[i])
  }

  /** `DELETE FROM files WHERE Path` */
  function Remove(rows: seq<Row>, path: string): seq<Row> {
    Filter(rows, (r: Row) => r.path != path)
  }

  ghost function RowsByPath(rows: seq<Row>): map<string, Row> {
    if rows == [] then map[] else RowsByPath(rows[1..])[rows[0].path := rows[0]]
  }

  lemma {:induction false} PathsOf(rows: seq<Row>, path: string)
    ensures path in RowsByPath(rows) ==> RowsByPath(rows)[path] in rows && RowsByPath(rows)[path].path == path
    ensures path !in RowsByPath(rows) ==> forall r :: r in rows ==> r.path != path
  {
    if rows != [] {
      PathsOf(rows[1..], path);
    }
  }

  lemma {:induction false} FilterKeepsDistinct(rows: seq<Row>, p: Row -> bool)
    requires DistinctPaths(rows)
    ensures DistinctPaths(Filter(rows, p))
  {
    if rows != [] {
      FilterKeepsDistinct(rows[1..], p);
      forall r | r in Filter(rows[1..], p)
        ensures r.path != rows[0].path
      {
        FilterMember(rows[1..], p, r);
      }
    }
  }

  /** Creating a file is a map update: only its own path changes. */
  lemma {:induction false} UpsertUpdates(rows: seq<Row>, row: Row)
    ensures RowsByPath(Upsert(rows, row)) == RowsByPath(rows)[row.path := row]
  {
    if rows != [] {
      if rows[0].path == row.path {
        assert ([row] + rows[1..])[1..] == rows[1..];
      } else {
        UpsertUpdates(rows[1..], row);
        assert Upsert(rows, row)[1..] == Upsert(rows[1..], row);
      }
    }
  }

  lemma {:induction false} UpsertPaths(rows: seq<Row>, row: Row, path: string)
    requires path != row.path && forall i :: 0 <= i < |rows| ==> rows[i].path != path
    ensures forall i :: 0 <= i < |Upsert(rows, row)| ==> Upsert(rows, row)[i].path != path
  {
    if rows != [] && rows[0].path != row.path {
      UpsertPaths(rows[1..], row, path);
    }
  }

  lemma {:induction false} UpsertKeepsDistinct(rows: seq<Row>, row: Row)
    requires DistinctPaths(rows)
    ensures DistinctPaths(Upsert(rows, row))
  {
    if rows != [] && rows[0].path != row.path {
      UpsertKeepsDistinct(rows[1..], row);
      UpsertPaths(rows[1..], row, rows[0].path);
    }
  }

  /** An access changes the access time of a known path and nothing else. */
  lemma {:induction false} TouchUpdates(rows: seq<Row>, path: string, time: nat)
    requires DistinctPaths(rows)
    ensures DistinctPaths(Touch(rows, path, time))
    ensures RowsByPath(Touch(rows, path, time)) ==
            if path in RowsByPath(rows) then RowsByPath(rows)[path := RowsByPath(rows)[path].(lastAccess := time)]
            else RowsByPath(rows)
  {
    if rows != [] {
      TouchUpdates(rows[1..], path, time);
      assert Touch(rows, path, time)[1..] == Touch(rows[1..], path, time);
      PathsOf(rows[1..], path);
    }
  }

  /** A deletion forgets one path. */
  lemma {:induction false} RemoveForgets(rows: seq<Row>, path: string)
    requires DistinctPaths(rows)
    ensures DistinctPaths(Remove(rows, path))
    ensures RowsByPath(Remove(rows, path)) == RowsByPath(rows) - {path}
  {
    if rows != [] {
      FilterKeepsDistinct(rows, (r: Row) => r.path != path);
      RemoveForgets(rows[1..], path);
      PathsOf(rows[1..], path);
      if rows[0].path != path {
        assert Remove(rows, path)[1..] == Remove(rows[1..], path);
      } else {
        var rest := RowsByPath(rows[1..]);
        assert RowsByPath(rows) == rest[path := rows[0]];
        assert rest[path := rows[0]] - {path} == rest - {path};
        assert Remove(rows, path) == Remove(rows[1..], path);
      }
    }
  }

  // ----- every run of notifications -----

  /** `None` is a path outside the managed directory. */
  datatype Notification =
    | Created(path: Option<string>, size: i64Size, time: nat)
    | Accessed(path: Option<string>, time: nat)
    | Deleted(path: Option<string>)

  function Notify(rows: seq<Row>, n: Notification): seq<Row> {
    if n.path.None? then rows
    else
      match n
      case Created(path, size, time) => Upsert(rows, Row(path.value, size, time, time))
      case Accessed(path, time) => Touch(rows, path.value, time)
      case Deleted(path) => Remove(rows, path.value)
  }

  function Table(ns: seq<Notification>): seq<Row> {
    if ns == [] then [] else Notify(Table(ns[..|ns| - 1]), ns[|ns| - 1])
  }

  /** What the notifications about one path, and no others, say of it: nothing behind a deletion, else the
      size and time of the last creation and the time of the last access behind it. */
  function Told(ns: seq<Notification>, path: string): Option<Row> {
    if ns == [] then None
    else
      var n, before := ns[|ns| - 1], Told(ns[..|ns| - 1], path);
      if n.path != Some(path) then before
      else
        match n
        case Created(_, size, time) => Some(Row(path, size, time, time))
        case Accessed(_, time) => if before.Some? then Some(before.value.(lastAccess := time)) else None
        case Deleted(_) => None
  }

  lemma NotifyUpdates(rows: seq<Row>, n: Notification, path: string)
    requires DistinctPaths(rows)
    ensures DistinctPaths(Notify(rows, n))
    ensures n.path != Some(path) ==>
      && (path in RowsByPath(Notify(rows, n)) <==> path in RowsByPath(rows))
      && (path in RowsByPath(rows) ==> RowsByPath(Notify(rows, n))[path] == RowsByPath(rows)[path])
    ensures n.path == Some(path) ==> var m, m' := RowsByPath(rows), RowsByPath(Notify(rows, n));
      match n
      case Created(_, size, time) => path in m' && m'[path] == Row(path, size, time, time)
      case Accessed(_, time) =>
        (path in m' <==> path in m) && (path in m ==> m'[path] == m[path].(lastAccess := time))
      case Deleted(_) => path !in m'
  {
    hide Upsert, Touch, Remove, RowsByPath, DistinctPaths;
    if n.path.Some? {
      match n {
        case Created(p, size, time) =>
          UpsertUpdates(rows, Row(p.value, size, time, time));
          UpsertKeepsDistinct(rows, Row(p.value, size, time, time));
        case Accessed(p, time) => TouchUpdates(rows, p.value, time);
        case Deleted(p) => RemoveForgets(rows, p.value);
      }
    }
  }

  /** Over every run of notifications the table holds for each path exactly what was told of it. */
  lemma {:induction false} TableHoldsWhatWasTold(ns: seq<Notification>, path: string)
    ensures DistinctPaths(Table(ns))
    ensures path in RowsByPath(Table(ns)) <==> Told(ns, path).Some?
    ensures Told(ns, path).Some? ==> RowsByPath(Table(ns))[path] == Told(ns, path).value
  {
    if ns != [] {
      TableHoldsWhatWasTold(ns[..|ns| - 1], path);
      NotifyUpdates(Table(ns[..|ns| - 1]), ns[|ns| - 1], path);
      hide RowsByPath, DistinctPaths, Notify;
    }
  }

  // ----- what to delete -----

  /** `SELECT SUM(Size)`; a sum that does not fit is an error there, which is read as zero. */
  function TotalSize(rows: seq<Row>): u64 {
    if Sum(rows) < I64_LIMIT then Sum(rows) else 0
  }

  predicate AccessedFirst(a: Row, b: Row) {
    a.lastAccess <= b.lastAccess
  }

  /** Any order of the rows by access time: the database is free among equal times. */
  ghost predicate LeastRecentFirst(order: seq<Row>, rows: seq<Row>) {
    multiset(order) == multiset(rows) && SortedBy(order, AccessedFirst)
  }

  function Overflowing(order: seq<Row>, excess: nat): seq<Row> {
    if order == [] then []
    else
      var left := SaturatingSub(excess, order[0].size);
      [order[0]] + (if left == 0 then [] else Overflowing(order[1..], left))
  }

  /** `get_files_to_delete_to_enforce_max_size`, given the order the query returned. */
  function ToEnforceMaxSize(order: seq<Row>, total: u64, maxSize: u64): seq<Row> {
    if total < maxSize then [] else Overflowing(order, total - maxSize)
  }

  function AccessedBefore(rows: seq<Row>, cutoff: nat): seq<Row> {
    Filter(rows, (r: Row) => r.lastAccess < cutoff)
  }

  lemma {:induction false} SumSplits(a: seq<Row>, b: seq<Row>)
    ensures Sum(a + b) == Sum(a) + Sum(b)
  {
    if a == [] {
      assert a + b == b;
    } else {
      assert (a + b)[1..] == a[1..] + b;
      SumSplits(a[1..], b);
    }
  }

  lemma {:induction false} SumOfPermutation(a: seq<Row>, b: seq<Row>)
    requires multiset(a) == multiset(b)
    ensures Sum(a) == Sum(b) && |a| == |b|
  {
    if a == [] {
      assert |multiset(b)| == 0;
    } else {
      assert a[0] in multiset(b);
      var i :| 0 <= i < |b| && b[i] == a[0];
      SumWithout(b, i);
      RestPermutes(a, b, i);
      SumOfPermutation(a[1..], b[..i] + b[i + 1..]);
    }
  }

  lemma TakeOut(b: seq<Row>, i: nat)
    requires i < |b|
    ensures multiset(b[..i] + b[i + 1..]) == multiset(b) - multiset{b[i]}
  {
    assert b == b[..i] + [b[i]] + b[i + 1..];
  }

  lemma RestPermutes(a: seq<Row>, b: seq<Row>, i: nat)
    requires a != [] && i < |b| && b[i] == a[0] && multiset(a) == multiset(b)
    ensures multiset(a[1..]) == multiset(b[..i] + b[i + 1..])
  {
    TakeOut(b, i);
    assert a == [a[0]] + a[1..];
    assert multiset(a[1..]) == multiset(a) - multiset{a[0]};
  }

  lemma SumWithout(b: seq<Row>, i: nat)
    requires i < |b|
    ensures Sum(b) == b[i].size + Sum(b[..i] + b[i + 1..])
  {
    var front, back := b[..i], b[i + 1..];
    assert b == front + ([b[i]] + back);
    SumSplits(front, back);
    SumSplits(front, [b[i]] + back);
    assert ([b[i]] + back)[1..] == back;
  }

  lemma SumAt(order: seq<Row>, n: nat)
    requires n <= |order|
    ensures Sum(order) == Sum(order[..n]) + Sum(order[n..])
  {
    SumSplits(order[..n], order[n..]);
    assert order == order[..n] + order[n..];
  }

  /** The list is a prefix of the order; the excess left over after it is zero, and before its last
      element it was not. */
  lemma {:induction false} OverflowingIsPrefix(order: seq<Row>, excess: nat)
    requires excess <= Sum(order)
    ensures var n := |Overflowing(order, excess)|;
      && n <= |order| && Overflowing(order, excess) == order[..n]
      && Sum(order[..n]) >= excess
      && (order != [] ==> n > 0)
      && (forall j :: 0 < j < n ==> Sum(order[..j]) < excess)
  {
    if order != [] {
      var left := SaturatingSub(excess, order[0].size);
      if left > 0 {
        var tail := order[1..];
        OverflowingIsPrefix(tail, left);
        var n := |Overflowing(order, excess)|;
        assert order[..n][1..] == tail[..n - 1];
        forall j | 0 < j < n
          ensures Sum(order[..j]) < excess
        {
          assert order[..j][1..] == tail[..j - 1];
          if j == 1 {
            assert tail[..0] == [];
          }
        }
      } else {
        assert order[..1][1..] == [];
      }
    }
  }

  ghost predicate Suffices(order: seq<Row>, n: nat, maxSize: u64)
    requires n <= |order|
  {
    Sum(order[n..]) <= maxSize
  }

  /** The limit can be enforced: the sizes add up in 64 bits, or they are within the limit anyway. */
  predicate Enforceable(rows: seq<Row>, maxSize: u64) {
    Sum(rows) < I64_LIMIT || Sum(rows) <= maxSize
  }

  lemma SumOfOrder(order: seq<Row>, rows: seq<Row>)
    requires LeastRecentFirst(order, rows)
    ensures Sum(rows) == Sum(order) && |order| == |rows|
  {
    SumOfPermutation(order, rows);
  }

  /** The list is a prefix of the least-recently-accessed order, and deleting it brings the total to at
      most the limit exactly when the limit is enforceable. */
  lemma EvictionSufficesIff(rows: seq<Row>, order: seq<Row>, maxSize: u64)
    requires LeastRecentFirst(order, rows)
    ensures var list := ToEnforceMaxSize(order, TotalSize(rows), maxSize);
      && |list| <= |order| && list == order[..|list|]
      && (Suffices(order, |list|, maxSize) <==> Enforceable(rows, maxSize))
  {
    SumOfOrder(order, rows);
    hide LeastRecentFirst;
    if Sum(rows) < I64_LIMIT {
      PrefixSuffices(order, Sum(rows), maxSize);
    } else {
      NothingIsEnforced(order, maxSize);
    }
  }

  /** When the sum does not fit, at most one file is listed, and only for a limit of zero. */
  lemma NothingIsEnforced(order: seq<Row>, maxSize: u64)
    requires Sum(order) >= I64_LIMIT
    ensures var list := ToEnforceMaxSize(order, 0, maxSize);
      && |list| <= 1 && list == order[..|list|] && (Suffices(order, |list|, maxSize) <==> Sum(order) <= maxSize)
      && (|list| == 1 ==> maxSize == 0)
  {
    assert order[0..] == order;
  }

  lemma PrefixSuffices(order: seq<Row>, total: u64, maxSize: u64)
    requires total == Sum(order)
    ensures var list := ToEnforceMaxSize(order, total, maxSize);
      |list| <= |order| && list == order[..|list|] && Suffices(order, |list|, maxSize)
  {
    hide Sum, Overflowing;
    if total >= maxSize {
      OverflowingIsPrefix(order, total - maxSize);
      SumAt(order, |Overflowing(order, total - maxSize)|);
    } else {
      assert order[0..] == order;
    }
  }

  /** Two files whose sizes do not add up in 64 bits are both kept, whatever the limit above zero. */
  lemma OverflowKeepsEverything(a: Row, b: Row, maxSize: u64)
    requires a.size + b.size >= I64_LIMIT && maxSize > 0
    ensures ToEnforceMaxSize([a, b], TotalSize([a, b]), maxSize) == []
  {
    assert [a, b][1..] == [b] && [b][1..] == [];
    assert Sum([a, b]) == a.size + Sum([b]) && Sum([b]) == b.size;
  }

  /** Keeping all but the first `j` files of the list would leave too much. */
  ghost predicate NoShorterPrefixSuffices(order: seq<Row>, list: seq<Row>, maxSize: u64)
    requires |list| <= |order|
  {
    forall j :: 0 <= j < |list| ==> !Suffices(order, j, maxSize)
  }

  /** No shorter prefix would do, unless the total equals the limit: then one file is evicted for nothing. */
  lemma EvictionMinimalIff(rows: seq<Row>, order: seq<Row>, maxSize: u64)
    requires LeastRecentFirst(order, rows)
    ensures |ToEnforceMaxSize(order, TotalSize(rows), maxSize)| <= |order|
    ensures NoShorterPrefixSuffices(order, ToEnforceMaxSize(order, TotalSize(rows), maxSize), maxSize)
       <==> Sum(rows) != maxSize || rows == [] || Sum(rows) >= I64_LIMIT
  {
    SumOfOrder(order, rows);
    hide LeastRecentFirst;
    if Sum(rows) < I64_LIMIT {
      PrefixSuffices(order, Sum(rows), maxSize);
      PrefixMinimalIff(order, Sum(rows), maxSize);
    } else {
      NothingIsEnforced(order, maxSize);
      assert order[0..] == order;
    }
  }

  /** A single file that exactly fills the limit is evicted. */
  lemma FullIsEvicted(row: Row)
    ensures Sum([row]) <= row.size && ToEnforceMaxSize([row], TotalSize([row]), row.size) == [row]
  {
    assert [row][1..] == [];
  }

  lemma PrefixMinimalIff(order: seq<Row>, total: u64, maxSize: u64)
    requires total == Sum(order) && |ToEnforceMaxSize(order, total, maxSize)| <= |order|
    ensures NoShorterPrefixSuffices(order, ToEnforceMaxSize(order, total, maxSize), maxSize)
       <==> total != maxSize || order == []
  {
    hide Sum, Overflowing, Suffices;
    var list := ToEnforceMaxSize(order, total, maxSize);
    if total >= maxSize {
      OverflowingIsPrefix(order, total - maxSize);
      forall j | 0 <= j < |list|
        ensures Suffices(order, j, maxSize) <==> total == maxSize
      {
        ShorterPrefix(order, total, maxSize, j);
      }
      if order != [] {
        assert 0 < |list|;
        ShorterPrefix(order, total, maxSize, 0);
      }
    }
  }

  lemma ShorterPrefix(order: seq<Row>, total: u64, maxSize: u64, j: nat)
    requires total == Sum(order) && total >= maxSize && j < |ToEnforceMaxSize(order, total, maxSize)|
    ensures j < |order| && (Suffices(order, j, maxSize) <==> total == maxSize)
  {
    OverflowingIsPrefix(order, total - maxSize);
    hide Overflowing;
    SumAt(order, j);
    if j == 0 {
      assert order[..0] == [];
    }
  }

  /** Whatever is evicted for size was accessed no later than everything that is kept. */
  lemma EvictsLeastRecent(rows: seq<Row>, order: seq<Row>, maxSize: u64, i: nat, j: nat)
    requires LeastRecentFirst(order, rows)
    requires i < |ToEnforceMaxSize(order, TotalSize(rows), maxSize)| <= j < |order|
    ensures ToEnforceMaxSize(order, TotalSize(rows), maxSize)[i].lastAccess <= order[j].lastAccess
  {
    EvictionSufficesIff(rows, order, maxSize);
    assert AccessedFirst(order[i], order[j]);
  }

  // ----- deleting -----

  datatype Removal = Removed | NotFound | Error

  /** Only a path that is gone from the disk is forgotten. */
  predicate Gone(removal: string -> Removal, path: string) {
    removal(path) != Error
  }

  function Survivors(rows: seq<Row>, list: seq<Row>, removal: string -> Removal): seq<Row> {
    Filter(rows, (r: Row) => !(r in list && Gone(removal, r.path)))
  }

  lemma FilterCons<T>(x: T, rest: seq<T>, p: T -> bool)
    ensures Filter([x] + rest, p) == (if p(x) then [x] else []) + Filter(rest, p)
  {
    assert ([x] + rest)[1..] == rest;
  }

  lemma {:induction false} FilterTwice<T>(s: seq<T>, p: T -> bool, q: T -> bool, both: T -> bool)
    requires forall x :: x in s ==> (both(x) <==> p(x) && q(x))
    ensures Filter(Filter(s, p), q) == Filter(s, both)
  {
    if s != [] {
      var x, rest := s[0], s[1..];
      assert s == [x] + rest;
      FilterTwice(rest, p, q, both);
      FilterCons(x, rest, p);
      FilterCons(x, rest, both);
      FilterCons(x, Filter(rest, p), q);
      assert [] + Filter(rest, p) == Filter(rest, p) && [] + Filter(rest, both) == Filter(rest, both);
      assert [] + Filter(Filter(rest, p), q) == Filter(Filter(rest, p), q);
      hide Filter;
    }
  }

  lemma {:induction false} FilterAll<T>(s: seq<T>, p: T -> bool)
    requires forall x :: x in s ==> p(x)
    ensures Filter(s, p) == s
  {
    if s != [] {
      FilterAll(s[1..], p);
    }
  }

  lemma {:induction false} SumOfParts(rows: seq<Row>, p: Row -> bool)
    ensures Sum(rows) == Sum(Filter(rows, p)) + Sum(Filter(rows, (r: Row) => !p(r)))
  {
    if rows != [] {
      SumOfParts(rows[1..], p);
      var q := (r: Row) => !p(r);
      SumSplits(if p(rows[0]) then [rows[0]] else [], Filter(rows[1..], p));
      SumSplits(if q(rows[0]) then [rows[0]] else [], Filter(rows[1..], q));
    }
  }

  class FileInventory {
    var files: seq<Row>

    constructor ()
      ensures files == []
    {
      files := [];
    }

    ghost predicate Valid()
      reads this
    {
      DistinctPaths(files)
    }

    /** `None` is a path outside the managed directory. */
    method OnFileCreated(path: Option<string>, size: i64Size, creationTime: nat)
      requires Valid()
      modifies this
      ensures Valid()
      ensures files == Notify(old(files), Created(path, size, creationTime))
    {
      if path.None? {
        return;
      }
      var row := Row(path.value, size, creationTime, creationTime);
      UpsertKeepsDistinct(files, row);
      files := Upsert(files, row);
    }

    method OnFileAccessed(path: Option<string>, accessTime: nat)
      requires Valid()
      modifies this
      ensures Valid() && files == Notify(old(files), Accessed(path, accessTime))
    {
      if path.None? {
        return;
      }
      TouchUpdates(files, path.value, accessTime);
      files := Touch(files, path.value, accessTime);
    }

    method OnFileDeleted(path: Option<string>)
      requires Valid()
      modifies this
      ensures Valid() && files == Notify(old(files), Deleted(path))
    {
      if path.None? {
        return;
      }
      RemoveForgets(files, path.value);
      files := Remove(files, path.value);
    }

    method OnFileFoundToBeAbsent(path: Option<string>)
      requires Valid()
      modifies this
      ensures Valid() && files == Notify(old(files), Deleted(path))
    {
      OnFileDeleted(path);
    }

    method TotalSizeInBytes() returns (total: u64)
      ensures total == TotalSize(files)
    {
      var sum := 0;
      for i := 0 to |files|
        invariant sum + Sum(files[i..]) == Sum(files)
      {
        assert files[i..][1..] == files[i + 1..];
        sum := sum + files[i].size;
      }
      total := if sum < I64_LIMIT then sum else 0;
    }

    method GetFilesToDeleteToEnforceMaxSize(maxSize: u64) returns (filesToDelete: seq<Row>, ghost order: seq<Row>)
      ensures LeastRecentFirst(order, files)
      ensures filesToDelete == ToEnforceMaxSize(order, TotalSize(files), maxSize)
    {
      var rows := StableSort(files, AccessedFirst);
      order := rows;
      QueryOrder(files);
      hide StableSort, LeastRecentFirst;
      var totalSize := TotalSizeInBytes();
      if totalSize < maxSize {
        return [], rows;
      }
      var excessBytes: nat := totalSize - maxSize;
      filesToDelete := [];
      assert rows[0..] == rows;
      hide Overflowing, TotalSize;
      for i := 0 to |rows|
        invariant filesToDelete + Overflowing(rows[i..], excessBytes) == Overflowing(rows, totalSize - maxSize)
      {
        UnfoldOverflowing(rows, i, excessBytes);
        AppendAssociates(filesToDelete, rows[i], Overflowing(rows[i + 1..], SaturatingSub(excessBytes, rows[i].size)));
        filesToDelete := filesToDelete + [rows[i]];
        excessBytes := SaturatingSub(excessBytes, rows[i].size);
        if excessBytes == 0 {
          break;
        }
      }
      UnfoldNothing(excessBytes);
    }

    method GetFilesLastAccessedBefore(cutoff: nat) returns (filesToDelete: seq<Row>)
      ensures filesToDelete == AccessedBefore(files, cutoff)
      ensures forall r :: r in filesToDelete <==> r in files && r.lastAccess < cutoff
      ensures DistinctPaths(files) ==> DistinctPaths(filesToDelete)
    {
      filesToDelete := [];
      ghost var before := (r: Row) => r.lastAccess < cutoff;
      for i := 0 to |files|
        invariant filesToDelete == Filter(files[..i], before)
      {
        assert files[..i + 1] == files[..i] + [files[i]];
        FilterConcat(files[..i], [files[i]], before);
        FilterCons(files[i], [], before);
        if files[i].lastAccess < cutoff {
          filesToDelete := filesToDelete + [files[i]];
        }
      }
      assert files[..|files|] == files;
      SameFilter(files, before, (r: Row) => r.lastAccess < cutoff);
      forall r
        ensures r in filesToDelete <==> r in files && r.lastAccess < cutoff
      {
        FilterMember(files, before, r);
      }
      if DistinctPaths(files) {
        FilterKeepsDistinct(files, before);
      }
    }
  }

  lemma QueryOrder(rows: seq<Row>)
    ensures LeastRecentFirst(StableSort(rows, AccessedFirst), rows)
  {
    SortPermutes(rows, AccessedFirst);
    SortSorts(rows, AccessedFirst);
  }

  lemma UnfoldNothing(excess: nat)
    ensures Overflowing([], excess) == []
  {
  }

  lemma UnfoldOverflowing(rows: seq<Row>, i: nat, excess: nat)
    requires i < |rows|
    ensures var left := SaturatingSub(excess, rows[i].size);
      Overflowing(rows[i..], excess) == [rows[i]] + (if left == 0 then [] else Overflowing(rows[i + 1..], left))
  {
    assert rows[i..][1..] == rows[i + 1..];
  }

  lemma RemoveOne(rows: seq<Row>, list: seq<Row>, i: nat, removal: string -> Removal)
    requires DistinctPaths(rows) && i < |list| && (forall r :: r in list ==> r in rows) && Gone(removal, list[i].path)
    ensures Remove(Survivors(rows, list[..i], removal), list[i].path) == Survivors(rows, list[..i + 1], removal)
  {
    assert list[..i + 1] == list[..i] + [list[i]];
    forall x | x in rows
      ensures !(x in list[..i + 1] && Gone(removal, x.path)) <==>
              !(x in list[..i] && Gone(removal, x.path)) && x.path != list[i].path
    {
      if x.path == list[i].path {
        assert list[i] in list && x == list[i];
      }
    }
    FilterTwice(rows, (r: Row) => !(r in list[..i] && Gone(removal, r.path)), (r: Row) => r.path != list[i].path,
                (r: Row) => !(r in list[..i + 1] && Gone(removal, r.path)));
  }

  lemma KeepOne(rows: seq<Row>, list: seq<Row>, i: nat, removal: string -> Removal)
    requires i < |list| && !Gone(removal, list[i].path)
    ensures Survivors(rows, list[..i], removal) == Survivors(rows, list[..i + 1], removal)
  {
    assert list[..i + 1] == list[..i] + [list[i]];
    var p := (r: Row) => !(r in list[..i] && Gone(removal, r.path));
    var q := (r: Row) => !(r in list[..i + 1] && Gone(removal, r.path));
    SameFilter(rows, p, q);
  }

  lemma {:induction false} SameFilter<T>(s: seq<T>, p: T -> bool, q: T -> bool)
    requires forall x :: x in s ==> p(x) == q(x)
    ensures Filter(s, p) == Filter(s, q)
  {
    if s != [] {
      SameFilter(s[1..], p, q);
    }
  }

  /** `delete_files`: each file is removed from disk, and from the inventory unless that failed. */
  method DeleteFiles(inventory: FileInventory, list: seq<Row>, removal: string -> Removal)
    requires inventory.Valid() && forall r :: r in list ==> r in inventory.files
    modifies inventory
    ensures inventory.Valid() && inventory.files == Survivors(old(inventory.files), list, removal)
  {
    ghost var rows := inventory.files;
    FilterAll(rows, (r: Row) => !(r in list[..0] && Gone(removal, r.path)));
    for i := 0 to |list|
      invariant inventory.Valid() && inventory.files == Survivors(rows, list[..i], removal)
    {
      var path := list[i].path;
      match removal(path) {
        case Removed =>
          RemoveOne(rows, list, i, removal);
          inventory.OnFileDeleted(Some(path));
        case NotFound =>
          RemoveOne(rows, list, i, removal);
          inventory.OnFileFoundToBeAbsent(Some(path));
        case Error =>
          KeepOne(rows, list, i, removal);
      }
    }
    assert list[..|list|] == list;
  }

  // ----- one eviction pass -----

  datatype Settings = Settings(maxSize: Option<u64>, maxAge: Option<nat>)

  /** The table after the pass, given the order in which the size query returned the rows. */
  function AfterSize(rows: seq<Row>, order: seq<Row>, settings: Settings, removal: string -> Removal): seq<Row> {
    match settings.maxSize
    case Some(maxSize) => Survivors(rows, ToEnforceMaxSize(order, TotalSize(rows), maxSize), removal)
    case None => rows
  }

  function AfterAge(rows: seq<Row>, now: nat, settings: Settings, removal: string -> Removal): seq<Row> {
    match settings.maxAge
    case Some(maxAge) => Survivors(rows, AccessedBefore(rows, SaturatingSub(now, maxAge)), removal)
    case None => rows
  }

  lemma NothingToDelete(rows: seq<Row>, removal: string -> Removal)
    ensures Survivors(rows, [], removal) == rows
  {
    FilterAll(rows, (r: Row) => !(r in [] && Gone(removal, r.path)));
  }

  /** `perform_eviction_if_needed`, with nobody else changing the inventory meanwhile. The cutoff time must
      not lie before the epoch. */
  method PerformEvictionIfNeeded(inventory: FileInventory, settings: Settings, now: nat, removal: string -> Removal)
    returns (ghost order: seq<Row>)
    requires inventory.Valid() && (settings.maxAge.Some? ==> settings.maxAge.value <= now)
    modifies inventory
    ensures inventory.Valid() && LeastRecentFirst(order, old(inventory.files))
    ensures inventory.files == AfterAge(AfterSize(old(inventory.files), order, settings, removal), now, settings, removal)
  {
    ghost var rows := inventory.files;
    order := StableSort(rows, AccessedFirst);
    QueryOrder(rows);
    hide LeastRecentFirst, StableSort;
    if settings.maxSize.Some? {
      var list, queried := inventory.GetFilesToDeleteToEnforceMaxSize(settings.maxSize.value);
      order := queried;
      ListedExist(rows, order, settings.maxSize.value);
      NothingToDelete(rows, removal);
      if list != [] {
        DeleteFiles(inventory, list, removal);
      }
    }
    ghost var rows1 := inventory.files;
    if settings.maxAge.Some? {
      var cutoff := now - settings.maxAge.value;
      var list := inventory.GetFilesLastAccessedBefore(cutoff);
      forall r | r in list
        ensures r in rows1
      {
        FilterMember(rows1, (r: Row) => r.lastAccess < cutoff, r);
      }
      NothingToDelete(rows1, removal);
      if list != [] {
        DeleteFiles(inventory, list, removal);
      }
    }
  }

  lemma {:induction false} OverflowingMembers(order: seq<Row>, excess: nat, r: Row)
    requires r in Overflowing(order, excess)
    ensures r in order
  {
    var left := SaturatingSub(excess, order[0].size);
    if r != order[0] {
      OverflowingMembers(order[1..], left, r);
    }
  }

  lemma ListedExist(rows: seq<Row>, order: seq<Row>, maxSize: u64)
    requires LeastRecentFirst(order, rows)
    ensures forall r :: r in ToEnforceMaxSize(order, TotalSize(rows), maxSize) ==> r in rows
  {
    forall r | r in ToEnforceMaxSize(order, TotalSize(rows), maxSize)
      ensures r in rows
    {
      OverflowingMembers(order, TotalSize(rows) - maxSize, r);
      assert r in multiset(order);
    }
  }

  /** When every removal works, the pass ends within both limits. */
  lemma PassEndsWithinLimits(rows: seq<Row>, order: seq<Row>, settings: Settings, now: nat, removal: string -> Removal)
    requires DistinctPaths(rows) && LeastRecentFirst(order, rows)
    requires settings.maxSize.Some? ==> Enforceable(rows, settings.maxSize.value)
    requires forall r :: r in rows ==> removal(r.path) == Removed || removal(r.path) == NotFound
    ensures var after := AfterAge(AfterSize(rows, order, settings, removal), now, settings, removal);
      && (settings.maxSize.Some? ==> Sum(after) <= settings.maxSize.value)
      && (settings.maxAge.Some? ==> forall r :: r in after ==> r.lastAccess >= SaturatingSub(now, settings.maxAge.value))
  {
    var rows1 := AfterSize(rows, order, settings, removal);
    if settings.maxSize.Some? {
      SizeLimitHoldsIffEnforceable(rows, order, settings.maxSize.value, removal);
    }
    if settings.maxAge.Some? {
      var cutoff := SaturatingSub(now, settings.maxAge.value);
      var list := AccessedBefore(rows1, cutoff);
      SurvivorsSmaller(rows1, list, removal);
      forall r | r in Survivors(rows1, list, removal)
        ensures r.lastAccess >= cutoff
      {
        FilterMember(rows1, (r: Row) => !(r in list && Gone(removal, r.path)), r);
        FilterMember(rows1, (r: Row) => r.lastAccess < cutoff, r);
        AfterSizeKeepsRows(rows, order, settings, removal, r);
      }
    }
  }

  lemma SurvivorsSmaller(rows: seq<Row>, list: seq<Row>, removal: string -> Removal)
    ensures Sum(Survivors(rows, list, removal)) <= Sum(rows)
  {
    SumOfParts(rows, (r: Row) => !(r in list && Gone(removal, r.path)));
  }

  lemma AfterSizeKeepsRows(rows: seq<Row>, order: seq<Row>, settings: Settings, removal: string -> Removal, r: Row)
    requires r in AfterSize(rows, order, settings, removal)
    ensures r in rows
  {
    if settings.maxSize.Some? {
      var list := ToEnforceMaxSize(order, TotalSize(rows), settings.maxSize.value);
      FilterMember(rows, (r: Row) => !(r in list && Gone(removal, r.path)), r);
    }
  }

  /** What stays is the rest of the order and the listed files that could not be removed. */
  lemma SizeAfterDeletion(rows: seq<Row>, order: seq<Row>, maxSize: u64, removal: string -> Removal)
    requires DistinctPaths(rows) && LeastRecentFirst(order, rows)
    ensures var list := ToEnforceMaxSize(order, TotalSize(rows), maxSize);
      && |list| <= |order|
      && Sum(Survivors(rows, list, removal)) == Sum(order[|list|..]) + Sum(Filter(list, (r: Row) => !Gone(removal, r.path)))
  {
    var list := ToEnforceMaxSize(order, TotalSize(rows), maxSize);
    var stays := (r: Row) => !(r in list && Gone(removal, r.path));
    EvictionSufficesIff(rows, order, maxSize);
    FilterPermutes(order, rows, stays);
    SumOfPermutation(Filter(order, stays), Filter(rows, stays));
    OrderIsDistinct(order, rows);
    hide ToEnforceMaxSize, TotalSize, LeastRecentFirst, DistinctPaths, Suffices, Enforceable;
    KeptAndFailed(order, list, stays, removal);
  }

  /** With failing removals the limit is missed by no more than the size of the files that stay. */
  lemma SizeLimitHolds(rows: seq<Row>, order: seq<Row>, maxSize: u64, removal: string -> Removal)
    requires DistinctPaths(rows) && LeastRecentFirst(order, rows) && Enforceable(rows, maxSize)
    ensures var list := ToEnforceMaxSize(order, TotalSize(rows), maxSize);
      Sum(Survivors(rows, list, removal)) <= maxSize + Sum(Filter(list, (r: Row) => !Gone(removal, r.path)))
  {
    EvictionSufficesIff(rows, order, maxSize);
    SizeAfterDeletion(rows, order, maxSize, removal);
  }

  lemma KeptAndFailed(order: seq<Row>, list: seq<Row>, stays: Row -> bool, removal: string -> Removal)
    requires |list| <= |order| && list == order[..|list|] && forall r :: multiset(order)[r] <= 1
    requires forall r :: stays(r) <==> !(r in list && Gone(removal, r.path))
    ensures Sum(Filter(order, stays)) == Sum(order[|list|..]) + Sum(Filter(list, (r: Row) => !Gone(removal, r.path)))
  {
    var tail := order[|list|..];
    assert order == list + tail;
    FilterConcat(list, tail, stays);
    SumSplits(Filter(list, stays), Filter(tail, stays));
    SameFilter(list, stays, (r: Row) => !Gone(removal, r.path));
    forall x | x in tail
      ensures stays(x)
    {
      NotTwice(order, |list|, x);
    }
    FilterAll(tail, stays);
  }

  /** When every removal works, the files that stay are within the limit exactly when it is enforceable. */
  lemma SizeLimitHoldsIffEnforceable(rows: seq<Row>, order: seq<Row>, maxSize: u64, removal: string -> Removal)
    requires DistinctPaths(rows) && LeastRecentFirst(order, rows)
    requires forall r :: r in rows ==> Gone(removal, r.path)
    ensures Sum(Survivors(rows, ToEnforceMaxSize(order, TotalSize(rows), maxSize), removal)) <= maxSize
       <==> Enforceable(rows, maxSize)
  {
    var list := ToEnforceMaxSize(order, TotalSize(rows), maxSize);
    EvictionSufficesIff(rows, order, maxSize);
    SizeAfterDeletion(rows, order, maxSize, removal);
    ListedExist(rows, order, maxSize);
    FilterNone(list, (r: Row) => !Gone(removal, r.path));
  }

  lemma {:induction false} FilterNone<T>(s: seq<T>, p: T -> bool)
    requires forall x :: x in s ==> !p(x)
    ensures Filter(s, p) == []
  {
    if s != [] {
      FilterNone(s[1..], p);
    }
  }

  lemma {:induction false} FilterConcat<T>(a: seq<T>, b: seq<T>, p: T -> bool)
    ensures Filter(a + b, p) == Filter(a, p) + Filter(b, p)
  {
    if a == [] {
      assert a + b == b;
    } else {
      assert a + b == [a[0]] + (a[1..] + b) && a == [a[0]] + a[1..];
      FilterConcat(a[1..], b, p);
      FilterCons(a[0], a[1..] + b, p);
      FilterCons(a[0], a[1..], p);
    }
  }

  lemma {:induction false} FilterCounts<T>(s: seq<T>, p: T -> bool, x: T)
    ensures multiset(Filter(s, p))[x] == if p(x) then multiset(s)[x] else 0
  {
    if s != [] {
      FilterCounts(s[1..], p, x);
      assert s == [s[0]] + s[1..];
    }
  }

  lemma FilterPermutes(a: seq<Row>, b: seq<Row>, p: Row -> bool)
    requires multiset(a) == multiset(b)
    ensures multiset(Filter(a, p)) == multiset(Filter(b, p))
  {
    var m, n := multiset(Filter(a, p)), multiset(Filter(b, p));
    forall x: Row
      ensures m[x] == n[x]
    {
      FilterCounts(a, p, x);
      FilterCounts(b, p, x);
    }
    SameCounts(m, n);
  }

  lemma SameCounts(m: multiset<Row>, n: multiset<Row>)
    requires forall x: Row :: m[x] == n[x]
    ensures m == n
  {
    assert forall x :: x in m <==> x in n;
  }

  lemma {:induction false} DistinctCount(rows: seq<Row>, r: Row)
    requires DistinctPaths(rows)
    ensures multiset(rows)[r] <= 1
  {
    if rows != [] {
      DistinctCount(rows[1..], r);
      assert rows == [rows[0]] + rows[1..];
      if rows[0] == r {
        assert forall x :: x in rows[1..] ==> x.path != r.path;
        assert r !in multiset(rows[1..]);
      }
    }
  }

  lemma OrderIsDistinct(order: seq<Row>, rows: seq<Row>)
    requires DistinctPaths(rows) && multiset(order) == multiset(rows)
    ensures forall r :: multiset(order)[r] <= 1
  {
    forall r
      ensures multiset(order)[r] <= 1
    {
      DistinctCount(rows, r);
    }
  }

  lemma NotTwice(order: seq<Row>, n: nat, x: Row)
    requires n <= |order| && multiset(order)[x] <= 1 && x in order[n..]
    ensures x !in order[..n]
  {
    assert order == order[..n] + order[n..];
    assert multiset(order)[x] == multiset(order[..n])[x] + multiset(order[n..])[x];
    assert x in multiset(order[n..]);
  }

  /** A row is lost only if it was listed and its file is gone; every other record is untouched, and no
      record is invented. */
  lemma PassTouchesOnlyListed(rows: seq<Row>, order: seq<Row>, settings: Settings, now: nat,
                              removal: string -> Removal, r: Row)
    requires LeastRecentFirst(order, rows)
    ensures var after := AfterAge(AfterSize(rows, order, settings, removal), now, settings, removal);
      && (r in after ==> r in rows)
      && (r in rows ==>
           (r !in after <==>
             && (removal(r.path) == Removed || removal(r.path) == NotFound)
             && (|| (settings.maxSize.Some? && r in ToEnforceMaxSize(order, TotalSize(rows), settings.maxSize.value))
                 || (settings.maxAge.Some? && r.lastAccess < SaturatingSub(now, settings.maxAge.value)))))
  {
    var rows1 := AfterSize(rows, order, settings, removal);
    if settings.maxSize.Some? {
      var list := ToEnforceMaxSize(order, TotalSize(rows), settings.maxSize.value);
      FilterMember(rows, (r: Row) => !(r in list && Gone(removal, r.path)), r);
    }
    if settings.maxAge.Some? {
      var cutoff := SaturatingSub(now, settings.maxAge.value);
      var list := AccessedBefore(rows1, cutoff);
      FilterMember(rows1, (r: Row) => r.lastAccess < cutoff, r);
      FilterMember(rows1, (r: Row) => !(r in list && Gone(removal, r.path)), r);
    }
  }
}
