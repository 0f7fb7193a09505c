/** Address ranges mapped to values (fxprof-processed-profile/src/lib_mappings.rs). The ordered map
    keyed by start address is the list of its entries in key order. */
module LibMappings {
  import opened Prelude
  import opened Sorting

  datatype Mapping<T> = Mapping(start: u64, end: u64, relativeStart: u32, value: T) {
    predicate Contains(avma: u64) {
      start <= avma < end
    }
  }

  /** The entry with the greatest key at or before an address. */
  function Floor<T>(entries: seq<Mapping<T>>, avma: u64): (r: Option<Mapping<T>>)
    ensures r.Some? ==> r.value in entries && r.value.start <= avma
  {
    if entries == [] then None
    else if entries[|entries| - 1].start <= avma then Some(entries[|entries| - 1])
    else Floor(entries[..|entries| - 1], avma)
  }

  /** The one-probe lookup: only the closest entry starting at or before the address is examined. */
  function LookupImpl<T>(entries: seq<Mapping<T>>, avma: u64): (r: Option<Mapping<T>>)
    ensures r.Some? ==> r.value in entries && r.value.Contains(avma)
  {
    match Floor(entries, avma)
    case Some(m) => if avma < m.end then Some(m) else None
    case None => None
  }

  /** Insertion into the ordered map; an entry with the same key is replaced. */
  function InsertEntry<T>(entries: seq<Mapping<T>>, m: Mapping<T>): seq<Mapping<T>> {
    if entries == [] then [m]
    else if m.start < entries[0].start then [m] + entries
    else if m.start == entries[0].start then [m] + entries[1..]
    else [entries[0]] + InsertEntry(entries[1..], m)
  }

  function RemoveKeys<T>(entries: seq<Mapping<T>>, from: u64, to: u64): seq<Mapping<T>> {
    Filter(entries, (m: Mapping<T>) => !(from <= m.start < to))
  }

  /** Where the removal before an addition begins: at the mapping that covers the new start, if there is one. */
  function RemovalStart<T>(entries: seq<Mapping<T>>, start: u64): u64 {
    match LookupImpl(entries, start)
    case Some(hit) => hit.start
    case None => start
  }

  function Add<T>(entries: seq<Mapping<T>>, m: Mapping<T>): seq<Mapping<T>> {
    InsertEntry(RemoveKeys(entries, RemovalStart(entries, m.start), m.end), m)
  }

  function EntryAt<T>(entries: seq<Mapping<T>>, start: u64): (r: Option<Mapping<T>>)
    ensures r.Some? ==> r.value in entries && r.value.start == start
    ensures r.None? ==> forall m :: m in entries ==> m.start != start
  {
    if entries == [] then None
    else if entries[0].start == start then Some(entries[0])
    else EntryAt(entries[1..], start)
  }

  function Remove<T>(entries: seq<Mapping<T>>, start: u64): seq<Mapping<T>> {
    Filter(entries, (m: Mapping<T>) => m.start != start)
  }

  /** The library-relative address and value for an absolute address. The cast and the sum are 32
      bits wide. */
  function ConvertAddress<T>(entries: seq<Mapping<T>>, avma: u64): (r: Option<(u32, T)>)
    ensures r.Some? ==> exists m :: m in entries && m.value == r.value.1
  {
    match LookupImpl(entries, avma)
    case Some(m) => Some((AsU32(m.relativeStart + AsU32(avma - m.start)), m.value))
    case None => None
  }

  /** The entries of an ordered map: one per key, in key order. */
  ghost predicate KeysAscend<T>(entries: seq<Mapping<T>>) {
    forall i, j :: 0 <= i < j < |entries| ==> entries[i].start < entries[j].start
  }

  /** Sorted by start, with no entry reaching into the next one. */
  ghost predicate SortedDisjoint<T>(entries: seq<Mapping<T>>) {
    forall i, j :: 0 <= i < j < |entries| ==>
      entries[i].start < entries[j].start && entries[i].end <= entries[j].start
  }

  // ----- the naive model: an unordered list, scanned from the front -----

  /** What adding `start..end` evicts: any mapping sharing an address with it, and one with its key. */
  predicate Overlaps<T>(m: Mapping<T>, start: u64, end: u64) {
    start <= m.start < end || m.Contains(start) || m.start == start
  }

  lemma OverlapsMeansSharedAddress<T>(m: Mapping<T>, start: u64, end: u64)
    requires start < end && m.start < m.end
    ensures Overlaps(m, start, end) <==> exists a: u64 :: m.Contains(a) && start <= a < end
  {
    if Overlaps(m, start, end) {
      var a := Max(m.start, start);
      assert m.Contains(a) && start <= a < end;
    }
  }

  function AddNaive<T>(ms: seq<Mapping<T>>, m: Mapping<T>): seq<Mapping<T>> {
    Filter(ms, (o: Mapping<T>) => !Overlaps(o, m.start, m.end)) + [m]
  }

  function LinearScan<T>(ms: seq<Mapping<T>>, avma: u64): Option<Mapping<T>> {
    if ms == [] then None
    else if ms[0].Contains(avma) then Some(ms[0])
    else LinearScan(ms[1..], avma)
  }

  // ----- facts about the pieces -----

  lemma FilterMembers<T>(s: seq<T>, p: T -> bool)
    ensures forall x :: x in Filter(s, p) <==> x in s && p(x)
  {
    forall x {
      FilterMember(s, p, x);
    }
  }

  lemma HeadComesFirst<T>(entries: seq<Mapping<T>>, o: Mapping<T>)
    requires SortedDisjoint(entries) && entries != [] && o in entries[1..]
    ensures entries[0].start < o.start && entries[0].end <= o.start
  {
    var i :| 0 <= i < |entries| - 1 && entries[1..][i] == o;
    assert entries[i + 1] == o;
  }

  lemma ConsSortedDisjoint<T>(e: Mapping<T>, rest: seq<Mapping<T>>)
    requires SortedDisjoint(rest)
    requires forall o :: o in rest ==> e.start < o.start && e.end <= o.start
    ensures SortedDisjoint([e] + rest)
  {
  }

  lemma {:induction false} FilterSortedDisjoint<T>(entries: seq<Mapping<T>>, p: Mapping<T> -> bool)
    requires SortedDisjoint(entries)
    ensures SortedDisjoint(Filter(entries, p))
  {
    if entries != [] {
      FilterSortedDisjoint(entries[1..], p);
      FilterMembers(entries[1..], p);
      forall o | o in Filter(entries[1..], p)
        ensures entries[0].start < o.start && entries[0].end <= o.start
      {
        FilterMember(entries[1..], p, o);
        HeadComesFirst(entries, o);
      }
      ConsSortedDisjoint(entries[0], Filter(entries[1..], p));
    }
  }

  ghost predicate RoomFor<T>(entries: seq<Mapping<T>>, m: Mapping<T>) {
    forall o :: o in entries && o.start != m.start ==>
      (o.start < m.start && o.end <= m.start) || (m.start < o.start && m.end <= o.start)
  }

  lemma {:induction false} InsertEntryMember<T>(entries: seq<Mapping<T>>, m: Mapping<T>, o: Mapping<T>)
    requires SortedDisjoint(entries)
    ensures o in InsertEntry(entries, m) <==> o == m || (o in entries && o.start != m.start)
  {
    if entries != [] {
      InsertEntryMember(entries[1..], m, o);
      if o in entries[1..] {
        HeadComesFirst(entries, o);
      }
      assert o in entries <==> o == entries[0] || o in entries[1..];
    }
  }

  lemma {:induction false} InsertEntryKeeps<T>(entries: seq<Mapping<T>>, m: Mapping<T>)
    requires SortedDisjoint(entries) && RoomFor(entries, m)
    ensures SortedDisjoint(InsertEntry(entries, m))
  {
    if entries != [] {
      assert forall o :: o in entries <==> o == entries[0] || o in entries[1..];
      forall o | o in entries[1..]
        ensures entries[0].start < o.start && entries[0].end <= o.start
      {
        HeadComesFirst(entries, o);
      }
      if m.start > entries[0].start {
        InsertEntryKeeps(entries[1..], m);
        forall o | o in InsertEntry(entries[1..], m)
          ensures entries[0].start < o.start && entries[0].end <= o.start
        {
          InsertEntryMember(entries[1..], m, o);
        }
        ConsSortedDisjoint(entries[0], InsertEntry(entries[1..], m));
      } else if m.start < entries[0].start {
        ConsSortedDisjoint(m, entries);
      } else {
        ConsSortedDisjoint(m, entries[1..]);
      }
    }
  }

  /** The closest entry at or before an address is the only one that can contain it. */
  lemma {:induction false} LookupFindsContaining<T>(entries: seq<Mapping<T>>, avma: u64)
    requires SortedDisjoint(entries)
    ensures match LookupImpl(entries, avma)
            case Some(m) => m in entries && m.Contains(avma)
            case None => forall m :: m in entries ==> !m.Contains(avma)
  {
    if entries != [] {
      var last := entries[|entries| - 1];
      var front := entries[..|entries| - 1];
      if last.start <= avma {
        assert forall m :: m in entries ==> m == last || m.end <= last.start;
      } else {
        LookupFindsContaining(front, avma);
        assert forall m :: m in entries <==> m == last || m in front;
      }
    }
  }

  lemma AtMostOneContains<T>(entries: seq<Mapping<T>>, avma: u64, m: Mapping<T>, o: Mapping<T>)
    requires SortedDisjoint(entries) && m in entries && o in entries && m.Contains(avma) && o.Contains(avma)
    ensures m == o
  {
  }

  /** The removal's range is not inverted; an inverted one panics. An inverted mapping gets by when a mapping
      covers its start and begins at or before its end. */
  predicate AddDoesNotPanic<T>(entries: seq<Mapping<T>>, m: Mapping<T>) {
    RemovalStart(entries, m.start) <= m.end
  }

  /** Not an inverted mapping that ends exactly where the mapping covering its start begins. */
  predicate AddIsClean<T>(entries: seq<Mapping<T>>, m: Mapping<T>) {
    !(RemovalStart(entries, m.start) == m.end < m.start)
  }

  ghost predicate EvictsOverlaps<T>(entries: seq<Mapping<T>>, m: Mapping<T>) {
    && (forall o :: o in Add(entries, m) ==> o == m || (o in entries && !Overlaps(o, m.start, m.end)))
    && m in Add(entries, m) && (forall o :: o in entries && !Overlaps(o, m.start, m.end) ==> o in Add(entries, m))
  }

  lemma CleanAddEvictsOverlaps<T>(entries: seq<Mapping<T>>, m: Mapping<T>)
    requires SortedDisjoint(entries) && AddDoesNotPanic(entries, m) && AddIsClean(entries, m)
    ensures SortedDisjoint(Add(entries, m)) && EvictsOverlaps(entries, m)
  {
    LookupFindsContaining(entries, m.start);
    var hit := LookupImpl(entries, m.start);
    var from := RemovalStart(entries, m.start);
    var p := (o: Mapping<T>) => !(from <= o.start < m.end);
    var kept := RemoveKeys(entries, from, m.end);
    FilterMembers(entries, p);
    FilterSortedDisjoint(entries, p);
    forall o | o in entries
      ensures p(o) && o.start != m.start <==> !Overlaps(o, m.start, m.end)
      ensures p(o) && o.start != m.start ==>
        (o.start < m.start && o.end <= m.start) || (m.start < o.start && m.end <= o.start)
    {
      if hit.Some? && o != hit.value {
        KeysOnBothSides(entries, o, hit.value);
      }
    }
    assert RoomFor(kept, m);
    InsertEntryKeeps(kept, m);
    forall o {
      InsertEntryMember(kept, m, o);
    }
  }

  lemma KeysOnBothSides<T>(entries: seq<Mapping<T>>, o: Mapping<T>, hit: Mapping<T>)
    requires SortedDisjoint(entries) && o in entries && hit in entries && o != hit
    ensures (o.start < hit.start && o.end <= hit.start) || (hit.start < o.start && hit.end <= o.start)
  {
  }

  /** Otherwise nothing is removed, and the mapping that covers the new start stays beside the new one. */
  lemma UncleanAddKeepsHit<T>(entries: seq<Mapping<T>>, m: Mapping<T>)
    requires SortedDisjoint(entries) && !AddIsClean(entries, m)
    ensures LookupImpl(entries, m.start).Some? && LookupImpl(entries, m.start).value.start == m.end
    ensures var hit := LookupImpl(entries, m.start).value;
      && hit in entries && Overlaps(hit, m.start, m.end) && hit != m && hit in Add(entries, m) && m in Add(entries, m)
      && !SortedDisjoint(Add(entries, m))
  {
    var hit := LookupImpl(entries, m.start).value;
    var kept := RemoveKeys(entries, m.end, m.end);
    FilterMembers(entries, (o: Mapping<T>) => !(m.end <= o.start < m.end));
    FilterSortedDisjoint(entries, (o: Mapping<T>) => !(m.end <= o.start < m.end));
    InsertEntryMember(kept, m, hit);
    InsertEntryMember(kept, m, m);
    if SortedDisjoint(Add(entries, m)) {
      KeysOnBothSides(Add(entries, m), hit, m);
    }
  }

  /** An addition that does not panic evicts exactly the overlapping mappings, whole, and keeps the map sorted
      and disjoint, exactly when it is clean. */
  lemma AddEvictsOverlapsIff<T>(entries: seq<Mapping<T>>, m: Mapping<T>)
    requires SortedDisjoint(entries) && AddDoesNotPanic(entries, m)
    ensures SortedDisjoint(Add(entries, m)) <==> AddIsClean(entries, m)
    ensures EvictsOverlaps(entries, m) <==> AddIsClean(entries, m)
  {
    if AddIsClean(entries, m) {
      CleanAddEvictsOverlaps(entries, m);
    } else {
      UncleanAddKeepsHit(entries, m);
    }
  }

  /** A range that is not inverted never panics and is always clean. */
  lemma ForwardAddIsFine<T>(entries: seq<Mapping<T>>, m: Mapping<T>)
    requires m.start <= m.end
    ensures AddDoesNotPanic(entries, m) && AddIsClean(entries, m)
  {
  }

  /** Adding brings in no other mapping, even if the list was not sorted. */
  lemma {:induction false} InsertEntryAddsOnly<T>(entries: seq<Mapping<T>>, m: Mapping<T>, o: Mapping<T>)
    requires o in InsertEntry(entries, m)
    ensures o == m || o in entries
  {
    if entries != [] && m.start > entries[0].start && o != entries[0] {
      InsertEntryAddsOnly(entries[1..], m, o);
    }
  }

  lemma AddMember<T>(entries: seq<Mapping<T>>, m: Mapping<T>, o: Mapping<T>)
    requires o in Add(entries, m)
    ensures o == m || o in entries
  {
    var from := RemovalStart(entries, m.start);
    InsertEntryAddsOnly(RemoveKeys(entries, from, m.end), m, o);
    FilterMember(entries, (e: Mapping<T>) => !(from <= e.start < m.end), o);
  }

  // ----- every run of operations -----

  datatype MapOp<T> = AddMapping(m: Mapping<T>) | RemoveMapping(start: u64) | Clear

  predicate OpDoesNotPanic<T>(entries: seq<Mapping<T>>, op: MapOp<T>) {
    op.AddMapping? ==> AddDoesNotPanic(entries, op.m)
  }

  predicate OpIsClean<T>(entries: seq<Mapping<T>>, op: MapOp<T>) {
    op.AddMapping? ==> AddIsClean(entries, op.m)
  }

  function Apply<T>(entries: seq<Mapping<T>>, op: MapOp<T>): seq<Mapping<T>> {
    match op
    case AddMapping(m) => Add(entries, m)
    case RemoveMapping(start) => Remove(entries, start)
    case Clear => []
  }

  function ApplyNaive<T>(ms: seq<Mapping<T>>, op: MapOp<T>): seq<Mapping<T>> {
    match op
    case AddMapping(m) => AddNaive(ms, m)
    case RemoveMapping(start) => Filter(ms, (m: Mapping<T>) => m.start != start)
    case Clear => []
  }

  function Run<T>(ops: seq<MapOp<T>>): seq<Mapping<T>> {
    if ops == [] then [] else Apply(Run(ops[..|ops| - 1]), ops[|ops| - 1])
  }

  function RunNaive<T>(ops: seq<MapOp<T>>): seq<Mapping<T>> {
    if ops == [] then [] else ApplyNaive(RunNaive(ops[..|ops| - 1]), ops[|ops| - 1])
  }

  predicate NonePanics<T>(ops: seq<MapOp<T>>) {
    ops != [] ==> NonePanics(ops[..|ops| - 1]) && OpDoesNotPanic(Run(ops[..|ops| - 1]), ops[|ops| - 1])
  }

  predicate AllClean<T>(ops: seq<MapOp<T>>) {
    ops != [] ==> AllClean(ops[..|ops| - 1]) && OpIsClean(Run(ops[..|ops| - 1]), ops[|ops| - 1])
  }

  /** An operation that does not panic keeps the map sorted and disjoint exactly when it is clean. */
  lemma ApplyKeepsSortedDisjointIff<T>(entries: seq<Mapping<T>>, op: MapOp<T>)
    requires SortedDisjoint(entries) && OpDoesNotPanic(entries, op)
    ensures SortedDisjoint(Apply(entries, op)) <==> OpIsClean(entries, op)
  {
    match op
    case AddMapping(m) => AddEvictsOverlapsIff(entries, m);
    case RemoveMapping(start) => FilterSortedDisjoint(entries, (m: Mapping<T>) => m.start != start);
    case Clear =>
  }

  lemma {:induction false} FilterKeepsKeys<T>(entries: seq<Mapping<T>>, p: Mapping<T> -> bool)
    requires KeysAscend(entries)
    ensures KeysAscend(Filter(entries, p))
  {
    if entries != [] {
      FilterKeepsKeys(entries[1..], p);
      forall o | o in Filter(entries[1..], p)
        ensures entries[0].start < o.start
      {
        FilterMember(entries[1..], p, o);
      }
    }
  }

  lemma {:induction false} InsertKeepsKeys<T>(entries: seq<Mapping<T>>, m: Mapping<T>)
    requires KeysAscend(entries)
    ensures KeysAscend(InsertEntry(entries, m))
  {
    if entries != [] && m.start > entries[0].start {
      InsertKeepsKeys(entries[1..], m);
      forall o | o in InsertEntry(entries[1..], m)
        ensures entries[0].start < o.start
      {
        InsertEntryAddsOnly(entries[1..], m, o);
      }
    }
  }

  /** Every operation, clean or not, keeps one entry per key in key order. */
  lemma ApplyKeepsKeys<T>(entries: seq<Mapping<T>>, op: MapOp<T>)
    requires KeysAscend(entries)
    ensures KeysAscend(Apply(entries, op))
  {
    match op
    case AddMapping(m) =>
      var from := RemovalStart(entries, m.start);
      FilterKeepsKeys(entries, (o: Mapping<T>) => !(from <= o.start < m.end));
      InsertKeepsKeys(RemoveKeys(entries, from, m.end), m);
    case RemoveMapping(start) => FilterKeepsKeys(entries, (m: Mapping<T>) => m.start != start);
    case Clear =>
  }

  lemma {:induction false} RunInvariant<T>(ops: seq<MapOp<T>>)
    requires NonePanics(ops) && AllClean(ops)
    ensures SortedDisjoint(Run(ops))
    ensures forall m :: m in Run(ops) <==> m in RunNaive(ops)
  {
    if ops != [] {
      var before, op := ops[..|ops| - 1], ops[|ops| - 1];
      RunInvariant(before);
      ApplyKeepsSortedDisjointIff(Run(before), op);
      match op
      case AddMapping(m) =>
        CleanAddEvictsOverlaps(Run(before), m);
        FilterMembers(RunNaive(before), (o: Mapping<T>) => !Overlaps(o, m.start, m.end));
      case RemoveMapping(start) =>
        FilterMembers(Run(before), (m: Mapping<T>) => m.start != start);
        FilterMembers(RunNaive(before), (m: Mapping<T>) => m.start != start);
      case Clear =>
    }
  }

  lemma {:induction false} LinearScanFindsContaining<T>(ms: seq<Mapping<T>>, avma: u64)
    ensures match LinearScan(ms, avma)
            case Some(m) => m in ms && m.Contains(avma)
            case None => forall m :: m in ms ==> !m.Contains(avma)
  {
    if ms != [] && !ms[0].Contains(avma) {
      LinearScanFindsContaining(ms[1..], avma);
    }
  }

  /** After any run of clean operations the map is sorted and disjoint, and its one-probe lookup gives, for
      every address, what scanning the naive list gives. */
  lemma LookupRefinesLinearScan<T>(ops: seq<MapOp<T>>, avma: u64)
    requires NonePanics(ops) && AllClean(ops)
    ensures SortedDisjoint(Run(ops))
    ensures LookupImpl(Run(ops), avma) == LinearScan(RunNaive(ops), avma)
  {
    RunInvariant(ops);
    LookupFindsContaining(Run(ops), avma);
    LinearScanFindsContaining(RunNaive(ops), avma);
    var fast, slow := LookupImpl(Run(ops), avma), LinearScan(RunNaive(ops), avma);
    if fast.Some? && slow.Some? {
      AtMostOneContains(Run(ops), avma, fast.value, slow.value);
    }
  }

  /** Every lookup after every step agrees with the scan. */
  ghost predicate RefinesThroughout<T>(ops: seq<MapOp<T>>) {
    && (ops != [] ==> RefinesThroughout(ops[..|ops| - 1]))
    && forall avma: u64 :: LookupImpl(Run(ops), avma) == LinearScan(RunNaive(ops), avma)
  }

  lemma {:induction false} FloorIs<T>(entries: seq<Mapping<T>>, avma: u64, e: Mapping<T>)
    requires KeysAscend(entries) && e in entries && e.start <= avma
    requires forall o :: o in entries && o.start <= avma ==> o.start <= e.start
    ensures Floor(entries, avma) == Some(e)
  {
    var last, front := entries[|entries| - 1], entries[..|entries| - 1];
    if last.start <= avma {
      assert e == last;
    } else {
      assert e in front;
      FloorIs(front, avma, e);
    }
  }

  /** Behind an addition that is not clean, the start of the mapping that stayed is looked up wrongly. */
  lemma UncleanAddMisleads<T>(entries: seq<Mapping<T>>, ms: seq<Mapping<T>>, m: Mapping<T>)
    requires SortedDisjoint(entries) && !AddIsClean(entries, m) && forall o :: o in entries <==> o in ms
    ensures LookupImpl(Add(entries, m), m.end) != LinearScan(AddNaive(ms, m), m.end)
  {
    UncleanAddKeepsHit(entries, m);
    var hit := LookupImpl(entries, m.start).value;
    var naive := AddNaive(ms, m);
    ApplyKeepsKeys(entries, MapOp.AddMapping(m));
    forall o | o in Add(entries, m) && o.start <= m.end
      ensures o.start <= hit.start
    {
    }
    FloorIs(Add(entries, m), m.end, hit);
    FilterMembers(ms, (o: Mapping<T>) => !Overlaps(o, m.start, m.end));
    LinearScanFindsContaining(naive, m.end);
    forall o | o in naive
      ensures !o.Contains(m.end)
    {
      if o in ms && o.Contains(m.end) {
        AtMostOneContains(entries, m.end, o, hit);
      }
    }
  }

  /** Over every run that does not panic, all lookups at all times agree with the scan exactly when no inverted
      mapping is added that ends where the mapping covering its start begins. */
  lemma {:induction false} RefinesThroughoutIff<T>(ops: seq<MapOp<T>>)
    requires NonePanics(ops)
    ensures RefinesThroughout(ops) <==> AllClean(ops)
  {
    if ops != [] {
      var before, op := ops[..|ops| - 1], ops[|ops| - 1];
      RefinesThroughoutIff(before);
      if AllClean(before) && !OpIsClean(Run(before), op) {
        RunInvariant(before);
        UncleanAddMisleads(Run(before), RunNaive(before), op.m);
        assert Run(ops) == Add(Run(before), op.m) && RunNaive(ops) == AddNaive(RunNaive(before), op.m);
      }
    }
    if AllClean(ops) {
      forall avma: u64
        ensures LookupImpl(Run(ops), avma) == LinearScan(RunNaive(ops), avma)
      {
        LookupRefinesLinearScan(ops, avma);
      }
      assert ops != [] ==> RefinesThroughout(ops[..|ops| - 1]);
    }
  }

  /** Adding 50..20 over a mapping of 20..100 evicts nothing, and the lookup at 60 no longer finds that mapping. */
  lemma InvertedAddHidesMapping()
    ensures var entries := [Mapping(20, 100, 0, 7)];
      var m := Mapping(50, 20, 0, 8);
      && AddDoesNotPanic(entries, m) && !AddIsClean(entries, m) && Add(entries, m) == entries + [m]
      && LookupImpl(entries, 60).Some? && LookupImpl(Add(entries, m), 60) == None
  {
    var mapped, m := Mapping(20, 100, 0, 7), Mapping(50, 20, 0, 8);
    assert Floor([mapped], 50) == Some(mapped) && Floor([mapped], 60) == Some(mapped);
    var p := (o: Mapping<int>) => !(20 <= o.start < 20);
    assert [mapped][1..] == [] && p(mapped);
    assert Filter([mapped], p) == [mapped] + Filter([mapped][1..], p) == [mapped];
    assert RemoveKeys([mapped], 20, 20) == Filter([mapped], p);
    assert InsertEntry([mapped], m) == [mapped] + [m] == [mapped, m];
    assert Floor([mapped, m], 60) == Some(m);
  }

  /** What a removal takes out and returns is the naive list's only mapping with that start. */
  lemma RemovalFindsMapping<T>(ops: seq<MapOp<T>>, start: u64)
    requires NonePanics(ops) && AllClean(ops)
    ensures match EntryAt(Run(ops), start)
            case Some(m) => m in RunNaive(ops) && forall o :: o in RunNaive(ops) && o.start == start ==> o == m
            case None => forall o :: o in RunNaive(ops) ==> o.start != start
  {
    RunInvariant(ops);
    EntryInEither(Run(ops), RunNaive(ops), start);
  }

  lemma EntryInEither<T>(entries: seq<Mapping<T>>, ms: seq<Mapping<T>>, start: u64)
    requires SortedDisjoint(entries) && forall m :: m in entries <==> m in ms
    ensures match EntryAt(entries, start)
            case Some(m) => m in ms && forall o :: o in ms && o.start == start ==> o == m
            case None => forall o :: o in ms ==> o.start != start
  {
    hide EntryAt;
    var hit := EntryAt(entries, start);
    if hit.Some? {
      forall o | o in ms && o.start == start
        ensures o == hit.value
      {
        assert o in entries && hit.value in entries;
      }
    }
  }

  /** Conversion succeeds exactly on mapped addresses, gives the mapping's value, and is exact precisely
      when the relative address fits in 32 bits. */
  lemma ConvertExactIffFits<T>(entries: seq<Mapping<T>>, avma: u64)
    ensures ConvertAddress(entries, avma).Some? <==> LookupImpl(entries, avma).Some?
    ensures LookupImpl(entries, avma).Some? ==>
      var m := LookupImpl(entries, avma).value;
      && ConvertAddress(entries, avma).value.1 == m.value
      && (ConvertAddress(entries, avma).value.0 == m.relativeStart + (avma - m.start)
          <==> m.relativeStart + (avma - m.start) < U32_LIMIT)
  {
  }

  /** The mapping of a 4 GiB library is where the conversion goes wrong. */
  lemma ConvertTruncates()
    ensures var entries := Add<int>([], Mapping(0, 0x2_0000_0000, 0, 7));
      ConvertAddress(entries, 0x1_0000_0005) == Some((5, 7))
  {
    var m := Mapping(0, 0x2_0000_0000, 0, 7);
    assert Add<int>([], m) == [m];
    assert Floor([m], 0x1_0000_0005) == Some(m);
  }

  class LibMappings<T> {
    ghost const owner: int
    var entries: seq<Mapping<T>>

    constructor (ghost owner: int)
      ensures this.owner == owner && entries == []
    {
      this.owner := owner;
      entries := [];
    }

    method AddMapping(start: u64, end: u64, relativeStart: u32, value: T)
      requires AddDoesNotPanic(entries, Mapping(start, end, relativeStart, value))
      modifies this
      ensures entries == Apply(old(entries), MapOp.AddMapping(Mapping(start, end, relativeStart, value)))
    {
      var hit := LookupImpl(entries, start);
      var removalStart := if hit.Some? then hit.value.start else start;
      entries := RemoveKeys(entries, removalStart, end);
      entries := InsertEntry(entries, Mapping(start, end, relativeStart, value));
    }

    method RemoveMapping(start: u64) returns (r: Option<(u32, T)>)
      modifies this
      ensures entries == Apply(old(entries), MapOp.RemoveMapping(start))
      ensures match EntryAt(old(entries), start)
              case Some(m) => r == Some((m.relativeStart, m.value))
              case None => r == None
    {
      var m := EntryAt(entries, start);
      entries := Remove(entries, start);
      return if m.Some? then Some((m.value.relativeStart, m.value.value)) else None;
    }

    method Clear()
      modifies this
      ensures entries == Apply(old(entries), MapOp.Clear)
    {
      entries := [];
    }
  }
}
