/** A file read through a cache of larger pieces (samply-symbols/src/cache.rs,
    chunked_read_buffer_manager.rs), and the plain slice it stands for (samply-symbols/src/shared.rs). */
module ChunkedCaches {
  import opened Prelude

  const CHUNK_SIZE: nat := 32 * 1024
  const MAX_LENGTH_INCLUDING_DELIMITER: nat := 4096

  // ----- which buffer holds an offset -----

  /** `RangeMap`: of the ranges inserted, the last one that contains a key decides. */
  datatype RangeMap = RangeMap(inserted: seq<(nat, nat, nat)>) {
    function Insert(start: nat, end: nat, value: nat): RangeMap {
      RangeMap(inserted + [(start, end, value)])
    }

    function LastContaining(key: nat, n: nat): (i: int)
      requires n <= |inserted|
      ensures -1 <= i < n
      ensures i >= 0 ==> inserted[i].0 <= key < inserted[i].1
      ensures forall k :: i < k < n ==> !(inserted[k].0 <= key < inserted[k].1)
    {
      if n == 0 then -1
      else if inserted[n - 1].0 <= key < inserted[n - 1].1 then n - 1
      else LastContaining(key, n - 1)
    }

    function Get(key: nat): Option<nat> {
      var i := LastContaining(key, |inserted|);
      if i < 0 then None else Some(inserted[i].2)
    }
  }

  datatype BufferRange = BufferRange(start: nat, end: nat, handle: nat)
  datatype Location = Location(handle: nat, offset: nat, size: nat)
  datatype Sourcing = InExistingBuffer(location: Location) | NeedToReadNewBuffer(start: nat, end: nat)

  function RoundDown(value: nat, factor: nat): nat
    requires factor > 0
  {
    value / factor * factor
  }

  function RoundUp(value: nat, factor: nat): nat
    requires factor > 0
  {
    (value + factor - 1) / factor * factor
  }

  lemma RoundsAround(value: nat, factor: nat)
    requires factor > 0
    ensures RoundDown(value, factor) <= value <= RoundUp(value, factor) < value + factor
  {
  }

  lemma RoundsToChunks(value: nat)
    ensures RoundDown(value, CHUNK_SIZE) % CHUNK_SIZE == 0 && RoundUp(value, CHUNK_SIZE) % CHUNK_SIZE == 0
  {
  }

  /** The contents of a `ChunkedReadBufferManager`. */
  datatype Manager = Manager(fileLen: nat, ranges: seq<BufferRange>, rangeMap: RangeMap) {
    /** List and map know the same ranges, all of them inside the file. */
    ghost predicate InStep() {
      && |rangeMap.inserted| == |ranges|
      && forall i :: 0 <= i < |ranges| ==>
           && rangeMap.inserted[i] == (ranges[i].start, ranges[i].end, i)
           && ranges[i].start < ranges[i].end <= fileLen
           && ranges[i].handle == i
    }

    ghost predicate Covers(offset: nat) {
      exists i :: 0 <= i < |ranges| && ranges[i].start <= offset < ranges[i].end
    }

    function DetermineRangeSourcing(start: nat, end: nat): Sourcing
      requires InStep() && start < end <= fileLen
    {
      var index := rangeMap.Get(start);
      if index.Some? && end <= ranges[index.value].end then
        InExistingBuffer(Location(ranges[index.value].handle, start - ranges[index.value].start, end - start))
      else
        NeedToReadNewBuffer(if index.Some? then start else RoundDown(start, CHUNK_SIZE),
                            Min(RoundUp(end, CHUNK_SIZE), fileLen))
    }

    function Insert(start: nat, end: nat, handle: nat): Manager {
      Manager(fileLen, ranges + [BufferRange(start, end, handle)], rangeMap.Insert(start, end, |ranges|))
    }
  }

  /** An existing buffer that is used holds the whole request; a fresh read contains the request and
      stays inside the file, and starts in the middle of a chunk only where a buffer already covers
      the start. */
  lemma SourcingCoversRequest(m: Manager, start: nat, end: nat)
    requires m.InStep() && start < end <= m.fileLen
    ensures match m.DetermineRangeSourcing(start, end)
            case InExistingBuffer(l) =>
              && l.handle < |m.ranges| && l.size == end - start
              && m.ranges[l.handle].start + l.offset == start && end <= m.ranges[l.handle].end
            case NeedToReadNewBuffer(s, e) =>
              && s <= start && end <= e <= m.fileLen
              && (s % CHUNK_SIZE == 0 || (s == start && m.Covers(start)))
              && (e % CHUNK_SIZE == 0 || e == m.fileLen)
  {
    RoundsAround(start, CHUNK_SIZE);
    RoundsAround(end, CHUNK_SIZE);
    RoundsToChunks(start);
    RoundsToChunks(end);
    hide RoundDown, RoundUp;
    var i := m.rangeMap.LastContaining(start, |m.rangeMap.inserted|);
    if i >= 0 {
      assert m.rangeMap.inserted[i] == (m.ranges[i].start, m.ranges[i].end, i);
    }
  }

  /** Of the buffers that cover the start, the one added last. */
  ghost predicate LastCovering(m: Manager, start: nat, i: nat) {
    && i < |m.ranges| && m.ranges[i].start <= start < m.ranges[i].end
    && forall k :: i < k < |m.ranges| ==> !(m.ranges[k].start <= start < m.ranges[k].end)
  }

  /** The last added buffer that covers the start is used exactly when it reaches to the end. Otherwise a new
      read ends at the first chunk border at or behind the end, or with the file, and starts where the request
      does if a buffer covers that, and at the last chunk border before it if none does. */
  lemma SourcingIsExact(m: Manager, start: nat, end: nat)
    requires m.InStep() && start < end <= m.fileLen
    ensures match m.DetermineRangeSourcing(start, end)
            case InExistingBuffer(l) =>
              && LastCovering(m, start, l.handle) && end <= m.ranges[l.handle].end
              && m.ranges[l.handle].start + l.offset == start && l.size == end - start
            case NeedToReadNewBuffer(s, e) =>
              && (forall i: nat :: LastCovering(m, start, i) ==> m.ranges[i].end < end)
              && (if m.Covers(start) then s == start else s % 0x8000 == 0 && s <= start < s + 0x8000)
              && end <= e <= m.fileLen && (e == m.fileLen || (e % 0x8000 == 0 && e < end + 0x8000))
              && (e == m.fileLen ==> forall border :: end <= border < e ==> border % 0x8000 != 0)
  {
    RoundsAround(start, CHUNK_SIZE);
    RoundsAround(end, CHUNK_SIZE);
    RoundsToChunks(start);
    RoundsToChunks(end);
    RoundedUpIsNext(end);
    var starts := RoundDown(start, CHUNK_SIZE);
    RoundedDownIsNear(start);
    hide RoundDown, RoundUp;
    var i := m.rangeMap.LastContaining(start, |m.rangeMap.inserted|);
    assert forall k :: 0 <= k < |m.ranges| ==> m.rangeMap.inserted[k] == (m.ranges[k].start, m.ranges[k].end, k);
  }

  lemma RoundedDownIsNear(value: nat)
    ensures value < RoundDown(value, CHUNK_SIZE) + CHUNK_SIZE
  {
  }

  lemma RoundedUpIsNext(value: nat)
    ensures forall border :: value <= border < RoundUp(value, CHUNK_SIZE) ==> border % CHUNK_SIZE != 0
  {
    forall border | value <= border < RoundUp(value, CHUNK_SIZE)
      ensures border % CHUNK_SIZE != 0
    {
      assert value == value / CHUNK_SIZE * CHUNK_SIZE + value % CHUNK_SIZE;
    }
  }

  /** A single byte that any buffer covers is never read again. */
  lemma CoveredByteIsNotReadAgain(m: Manager, offset: nat)
    requires m.InStep() && m.Covers(offset) && offset < m.fileLen
    ensures m.DetermineRangeSourcing(offset, offset + 1).InExistingBuffer?
  {
    var k :| 0 <= k < |m.ranges| && m.ranges[k].start <= offset < m.ranges[k].end;
    assert m.rangeMap.inserted[k] == (m.ranges[k].start, m.ranges[k].end, k);
    var i := m.rangeMap.LastContaining(offset, |m.rangeMap.inserted|);
    assert m.rangeMap.inserted[i] == (m.ranges[i].start, m.ranges[i].end, i);
  }

  // ----- the cache -----

  datatype ReadError = InvertedRange | OutOfBounds | Overflow | SourceFailed | NoDelimiter
  datatype Outcome = Bytes(bytes: seq<Byte>) | Failed(error: ReadError) | Panic

  /** The contents of a `FileContentsWithChunkedCaching`. */
  datatype Cache = Cache(manager: Manager, strings: map<(nat, Byte), Location>, buffers: seq<seq<Byte>>, count: nat) {
    /** Count, buffers and ranges are in step; every buffer holds the file's bytes; every cached string
        is the file's bytes up to the first delimiter. */
    ghost predicate Valid(file: seq<Byte>) {
      && manager.InStep() && manager.fileLen == |file|
      && count == |buffers| == |manager.ranges|
      && (forall i :: 0 <= i < |buffers| ==> buffers[i] == file[manager.ranges[i].start..manager.ranges[i].end])
      && (forall key :: key in strings ==> StringOk(key.0, key.1, strings[key], file))
    }

    ghost predicate StringOk(start: nat, delimiter: Byte, l: Location, file: seq<Byte>) {
      && InBounds(l) && l.size < MAX_LENGTH_INCLUDING_DELIMITER
      && start + l.size < |file| && Slice(l) == file[start..start + l.size]
      && file[start + l.size] == delimiter && delimiter !in file[start..start + l.size]
    }

    predicate InBounds(l: Location) {
      l.handle < |buffers| && l.offset + l.size <= |buffers[l.handle]|
    }

    function Slice(l: Location): seq<Byte>
      requires InBounds(l)
    {
      buffers[l.handle][l.offset..l.offset + l.size]
    }
  }

  function NewCache(fileLen: nat): Cache {
    Cache(Manager(fileLen, [], RangeMap([])), map[], [], 0)
  }

  /** `get_range_location`: `ok` says whether the source could read, if it was asked to. */
  function Fetch(c: Cache, file: seq<Byte>, ok: bool, start: nat, end: nat): (Cache, Option<Location>)
    requires c.Valid(file) && start < end <= |file|
  {
    match c.manager.DetermineRangeSourcing(start, end)
    case InExistingBuffer(l) => (c, Some(l))
    case NeedToReadNewBuffer(s, e) =>
      SourcingCoversRequest(c.manager, start, end);
      if !ok then (c, None)
      else
        (WithBuffer(c, file, s, e), Some(Location(c.count, start - s, end - start)))
  }

  function WithBuffer(c: Cache, file: seq<Byte>, start: nat, end: nat): Cache
    requires start <= end <= |file|
  {
    c.(manager := c.manager.Insert(start, end, c.count), buffers := c.buffers + [file[start..end]], count := c.count + 1)
  }

  lemma BufferAdded(c: Cache, file: seq<Byte>, start: nat, end: nat)
    requires c.Valid(file) && start < end <= |file|
    ensures WithBuffer(c, file, start, end).Valid(file) && c.buffers <= WithBuffer(c, file, start, end).buffers
  {
    var c' := WithBuffer(c, file, start, end);
    forall key | key in c'.strings
      ensures c'.StringOk(key.0, key.1, c'.strings[key], file)
    {
      assert c.StringOk(key.0, key.1, c.strings[key], file);
    }
    forall i | 0 <= i < |c'.buffers|
      ensures c'.buffers[i] == file[c'.manager.ranges[i].start..c'.manager.ranges[i].end]
    {
      if i < |c.buffers| {
        assert c.buffers[i] == file[c.manager.ranges[i].start..c.manager.ranges[i].end];
      }
    }
  }

  /** A location inside a buffer's range shows the file's bytes. */
  lemma LocationShowsFile(c: Cache, file: seq<Byte>, l: Location)
    requires c.Valid(file) && l.handle < |c.buffers|
    requires c.manager.ranges[l.handle].start + l.offset + l.size <= c.manager.ranges[l.handle].end
    ensures c.InBounds(l)
    ensures var at := c.manager.ranges[l.handle].start + l.offset;
      at + l.size <= |file| && c.Slice(l) == file[at..at + l.size]
  {
    var r := c.manager.ranges[l.handle];
    assert c.buffers[l.handle] == file[r.start..r.end];
    SliceOfSlice(file, r.start, r.end, l.offset, l.size);
  }

  /** Everything cached stays; what is found is the file's own bytes; only a failing source loses a read. */
  lemma FetchCorrect(c: Cache, file: seq<Byte>, ok: bool, start: nat, end: nat)
    requires c.Valid(file) && start < end <= |file|
    ensures var (c', l) := Fetch(c, file, ok, start, end);
      && c'.Valid(file) && c.buffers <= c'.buffers && c'.strings == c.strings
      && (l.None? ==> !ok && c' == c)
      && (l.Some? ==> c'.InBounds(l.value) && l.value.size == end - start && c'.Slice(l.value) == file[start..end])
  {
    SourcingCoversRequest(c.manager, start, end);
    match c.manager.DetermineRangeSourcing(start, end) {
      case InExistingBuffer(l) =>
        hide Manager.DetermineRangeSourcing;
        LocationShowsFile(c, file, l);
      case NeedToReadNewBuffer(s, e) =>
        BufferAdded(c, file, s, e);
        hide Manager.DetermineRangeSourcing, Cache.StringOk;
        LocationShowsFile(WithBuffer(c, file, s, e), file, Location(c.count, start - s, end - start));
    }
  }

  lemma SliceOfSlice<T>(s: seq<T>, start: nat, end: nat, offset: nat, size: nat)
    requires start <= end <= |s| && offset + size <= end - start
    ensures s[start..end][offset..offset + size] == s[start + offset..start + offset + size]
  {
    var a, b := s[start..end][offset..offset + size], s[start + offset..start + offset + size];
    assert forall i :: 0 <= i < size ==> a[i] == b[i];
  }

  function ReadThrough(c: Cache, file: seq<Byte>, ok: bool, offset: u64, size: u64): (Cache, Outcome)
    requires c.Valid(file)
  {
    if size == 0 then (c, Bytes([]))
    else if offset + size >= U64_LIMIT then (c, Failed(Overflow))
    else if offset + size > |file| then (c, Failed(OutOfBounds))
    else
      FetchCorrect(c, file, ok, offset, offset + size);
      var (c', l) := Fetch(c, file, ok, offset, offset + size);
      (c', if l.Some? then Bytes(c'.Slice(l.value)) else Failed(SourceFailed))
  }

  /** Where a byte first occurs (`memchr`). */
  function IndexOf(s: seq<Byte>, b: Byte): (r: Option<nat>)
    ensures r.Some? ==> r.value < |s| && s[r.value] == b && b !in s[..r.value]
    ensures r.None? ==> b !in s
  {
    if s == [] then None
    else if s[0] == b then Some(0)
    else
      match IndexOf(s[1..], b)
      case Some(i) => assert s[..i + 1] == [s[0]] + s[1..][..i]; Some(i + 1)
      case None => None
  }

  /** An empty range that is not cached is a programming error there. */
  function ReadStringThrough(c: Cache, file: seq<Byte>, ok: bool, start: nat, end: nat, delimiter: Byte): (Cache, Outcome)
    requires c.Valid(file)
  {
    if end < start then (c, Failed(InvertedRange))
    else if end > |file| then (c, Failed(OutOfBounds))
    else if (start, delimiter) in c.strings then
      assert c.StringOk(start, delimiter, c.strings[(start, delimiter)], file);
      (c, Bytes(c.Slice(c.strings[(start, delimiter)])))
    else
      var maxLen := Min(end - start, MAX_LENGTH_INCLUDING_DELIMITER);
      if maxLen == 0 then (c, Panic)
      else
        FetchCorrect(c, file, ok, start, start + maxLen);
        var (c', l) := Fetch(c, file, ok, start, start + maxLen);
        if l.None? then (c', Failed(SourceFailed))
        else
          var bytes := c'.Slice(l.value);
          match IndexOf(bytes, delimiter)
          case None => (c', Failed(NoDelimiter))
          case Some(len) =>
            (c'.(strings := c'.strings[(start, delimiter) := l.value.(size := len)]), Bytes(bytes[..len]))
  }

  // ----- the plain slice -----

  function SliceReadBytesAt(file: seq<Byte>, offset: nat, size: nat): Outcome {
    if offset > |file| || size > |file| - offset then Failed(OutOfBounds) else Bytes(file[offset..offset + size])
  }

  function SliceReadBytesAtUntil(file: seq<Byte>, start: nat, end: nat, delimiter: Byte): Outcome {
    if end < start then Failed(InvertedRange)
    else
      match SliceReadBytesAt(file, start, end - start)
      case Bytes(slice) =>
        (match IndexOf(slice, delimiter)
         case Some(pos) => Bytes(slice[..pos])
         case None => Failed(NoDelimiter))
      case other => other
  }

  /** The same bytes, or an error from both. */
  predicate Agree(a: Outcome, b: Outcome) {
    (a.Bytes? && a == b) || (a.Failed? && b.Failed?)
  }

  // ----- over every run -----

  datatype Call = ReadAt(offset: u64, size: u64) | ReadUntil(start: nat, end: nat, delimiter: Byte)

  function Step(c: Cache, file: seq<Byte>, call: Call, ok: bool): (Cache, Outcome)
    requires c.Valid(file)
  {
    match call
    case ReadAt(offset, size) => ReadThrough(c, file, ok, offset, size)
    case ReadUntil(start, end, delimiter) => ReadStringThrough(c, file, ok, start, end, delimiter)
  }

  lemma StepKeepsValid(c: Cache, file: seq<Byte>, call: Call, ok: bool)
    requires c.Valid(file)
    ensures Step(c, file, call, ok).0.Valid(file) && c.buffers <= Step(c, file, call, ok).0.buffers
  {
    hide Cache.Valid, ReadThrough, ReadStringThrough;
    match call {
      case ReadAt(offset, size) => ReadKeepsValid(c, file, ok, offset, size);
      case ReadUntil(start, end, delimiter) => AnyUntilKeepsValid(c, file, ok, start, end, delimiter);
    }
  }

  lemma ReadKeepsValid(c: Cache, file: seq<Byte>, ok: bool, offset: u64, size: u64)
    requires c.Valid(file)
    ensures var c' := ReadThrough(c, file, ok, offset, size).0;
      c'.Valid(file) && c.buffers <= c'.buffers
  {
    hide Fetch, Cache.StringOk, Manager.InStep;
    if 0 < size && offset + size <= |file| {
      FetchCorrect(c, file, ok, offset, offset + size);
      hide Cache.Valid;
    }
  }

  lemma AnyUntilKeepsValid(c: Cache, file: seq<Byte>, ok: bool, start: nat, end: nat, delimiter: Byte)
    requires c.Valid(file)
    ensures var c' := ReadStringThrough(c, file, ok, start, end, delimiter).0;
      c'.Valid(file) && c.buffers <= c'.buffers
  {
    hide Fetch, Cache.StringOk, Manager.InStep, IndexOf;
    if start < end <= |file| && (start, delimiter) !in c.strings {
      UntilKeepsValid(c, file, ok, start, end, delimiter);
      hide ReadStringThrough, Cache.Valid;
    }
  }

  lemma UntilKeepsValid(c: Cache, file: seq<Byte>, ok: bool, start: nat, end: nat, delimiter: Byte)
    requires c.Valid(file) && start < end <= |file| && (start, delimiter) !in c.strings
    ensures var c' := ReadStringThrough(c, file, ok, start, end, delimiter).0;
      c'.Valid(file) && c.buffers <= c'.buffers
  {
    hide Cache.StringOk, Manager.InStep, Manager.DetermineRangeSourcing, WithBuffer, IndexOf;
    var maxLen := Min(end - start, MAX_LENGTH_INCLUDING_DELIMITER);
    FetchCorrect(c, file, ok, start, start + maxLen);
    var (c1, l) := Fetch(c, file, ok, start, start + maxLen);
    hide Fetch, IndexOf, Manager.DetermineRangeSourcing, WithBuffer;
    if l.Some? {
      var len := IndexOf(c1.Slice(l.value), delimiter);
      if len.Some? {
        FoundString(c1, file, start, delimiter, l.value, len.value);
        StringAdded(c1, file, start, delimiter, l.value.(size := len.value));
      }
    }
  }

  lemma FoundString(c: Cache, file: seq<Byte>, start: nat, delimiter: Byte, l: Location, len: nat)
    requires c.InBounds(l) && l.size <= MAX_LENGTH_INCLUDING_DELIMITER && start + l.size <= |file|
    requires c.Slice(l) == file[start..start + l.size] && IndexOf(c.Slice(l), delimiter) == Some(len)
    ensures c.StringOk(start, delimiter, l.(size := len), file)
  {
    SliceOfSlice(c.buffers[l.handle], l.offset, l.offset + l.size, 0, len);
    SliceOfSlice(file, start, start + l.size, 0, len);
    assert c.Slice(l)[..len] == c.Slice(l)[0..len];
  }

  lemma StringOkByBuffers(c: Cache, strings: map<(nat, Byte), Location>, start: nat, delimiter: Byte, l: Location,
    file: seq<Byte>)
    ensures c.(strings := strings).StringOk(start, delimiter, l, file) <==> c.StringOk(start, delimiter, l, file)
  {
  }

  lemma StringAdded(c: Cache, file: seq<Byte>, start: nat, delimiter: Byte, l: Location)
    requires c.Valid(file) && c.StringOk(start, delimiter, l, file)
    ensures c.(strings := c.strings[(start, delimiter) := l]).Valid(file)
  {
    hide Cache.StringOk, Manager.InStep;
    var c' := c.(strings := c.strings[(start, delimiter) := l]);
    forall key | key in c'.strings
      ensures c'.StringOk(key.0, key.1, c'.strings[key], file)
    {
      StringOkByBuffers(c, c'.strings, key.0, key.1, c'.strings[key], file);
    }
  }

  /** The cache after any interleaving of reads, some of which the source may have failed. */
  ghost function Run(file: seq<Byte>, calls: seq<(Call, bool)>): (c: Cache)
    ensures c.Valid(file)
  {
    if calls == [] then NewCache(|file|)
    else
      var before := Run(file, calls[..|calls| - 1]);
      var (call, ok) := calls[|calls| - 1];
      StepKeepsValid(before, file, call, ok);
      Step(before, file, call, ok).0
  }

  ghost predicate Reachable(c: Cache, file: seq<Byte>) {
    exists calls :: c == Run(file, calls)
  }

  lemma ReachableIsValid(c: Cache, file: seq<Byte>)
    requires Reachable(c, file)
    ensures c.Valid(file)
  {
  }

  /** After every run an in-bounds read gives exactly the file's bytes, unless the source fails it. */
  lemma ReadsGiveTheFile(c: Cache, file: seq<Byte>, ok: bool, offset: u64, size: u64)
    requires c.Valid(file) && |file| < U64_LIMIT && offset + size <= |file|
    ensures var r := ReadThrough(c, file, ok, offset, size).1;
      r == Bytes(file[offset..offset + size]) || (r == Failed(SourceFailed) && !ok && size > 0)
  {
    hide Cache.StringOk, Manager.InStep, Manager.DetermineRangeSourcing, WithBuffer;
    if size > 0 {
      FetchCorrect(c, file, ok, offset, offset + size);
    }
  }

  /** With a source that works, reading through the cache agrees with the slice, except that an empty
      read is never out of bounds. */
  lemma ReadAgreesIff(c: Cache, file: seq<Byte>, offset: u64, size: u64)
    requires Reachable(c, file) && |file| < U64_LIMIT
    ensures c.Valid(file)
    ensures Agree(ReadThrough(c, file, true, offset, size).1, SliceReadBytesAt(file, offset, size))
       <==> size > 0 || offset <= |file|
  {
    ReachableIsValid(c, file);
    if offset + size <= |file| {
      ReadsGiveTheFile(c, file, true, offset, size);
    }
  }

  lemma {:induction false} FirstIsUnique(s: seq<Byte>, b: Byte, i: nat)
    requires i < |s| && s[i] == b && b !in s[..i]
    ensures IndexOf(s, b) == Some(i)
  {
    assert i > 0 ==> s[..i][0] == s[0];
    if s[0] != b {
      assert s[..i] == [s[0]] + s[1..][..i - 1];
      FirstIsUnique(s[1..], b, i - 1);
    }
  }

  lemma IndexOfWindow(s: seq<Byte>, b: Byte, n: nat)
    requires n <= |s|
    ensures IndexOf(s[..n], b) == (if IndexOf(s, b).Some? && IndexOf(s, b).value < n then IndexOf(s, b) else None)
  {
    var i, j := IndexOf(s, b), IndexOf(s[..n], b);
    if i.Some? && i.value < n {
      assert s[..n][..i.value] == s[..i.value];
      FirstIsUnique(s[..n], b, i.value);
    }
  }

  /** Where the delimiter first occurs at or behind `start`. */
  function DelimiterAt(file: seq<Byte>, start: nat, delimiter: Byte): Option<nat>
    requires start <= |file|
  {
    match IndexOf(file[start..], delimiter)
    case Some(i) => Some(start + i)
    case None => None
  }

  /** What a search in the first bytes behind `start` finds. */
  lemma DelimiterInWindow(file: seq<Byte>, start: nat, end: nat, delimiter: Byte)
    requires start <= end <= |file|
    ensures var p, i := DelimiterAt(file, start, delimiter), IndexOf(file[start..end], delimiter);
      && (i.Some? <==> p.Some? && p.value < end)
      && (i.Some? ==> p.value == start + i.value && file[start..end][..i.value] == file[start..p.value])
  {
    assert file[start..end] == file[start..][..end - start];
    IndexOfWindow(file[start..], delimiter, end - start);
  }

  /** A cached string ends at the file's first delimiter, wherever the range ended that it was cached for. */
  lemma CachedString(c: Cache, file: seq<Byte>, start: nat, delimiter: Byte)
    requires c.Valid(file) && start <= |file| && (start, delimiter) in c.strings
    ensures var l := c.strings[(start, delimiter)];
      && c.InBounds(l) && DelimiterAt(file, start, delimiter) == Some(start + l.size)
      && c.Slice(l) == file[start..start + l.size]
  {
    var l := c.strings[(start, delimiter)];
    assert c.StringOk(start, delimiter, l, file);
    var tail := file[start..];
    assert tail[..l.size] == file[start..start + l.size];
    FirstIsUnique(tail, delimiter, l.size);
  }

  lemma SliceString(file: seq<Byte>, start: nat, end: nat, delimiter: Byte)
    requires start <= end <= |file|
    ensures var p := DelimiterAt(file, start, delimiter);
      SliceReadBytesAtUntil(file, start, end, delimiter)
      == if p.Some? && p.value < end then Bytes(file[start..p.value]) else Failed(NoDelimiter)
  {
    DelimiterInWindow(file, start, end, delimiter);
  }

  /** What a read gives, said of the file: only the source can make it fail otherwise. */
  lemma ReadOutcome(c: Cache, file: seq<Byte>, ok: bool, offset: u64, size: u64)
    requires c.Valid(file) && |file| < U64_LIMIT
    ensures var r := ReadThrough(c, file, ok, offset, size).1;
      || (r == Failed(SourceFailed) && !ok && size > 0 && offset + size <= |file|)
      || r == (if size == 0 then Bytes([])
               else if offset + size >= U64_LIMIT then Failed(Overflow)
               else if offset + size > |file| then Failed(OutOfBounds)
               else Bytes(file[offset..offset + size]))
  {
    if offset + size <= |file| {
      ReadsGiveTheFile(c, file, ok, offset, size);
    }
    hide Fetch, Cache.StringOk, Manager.InStep;
  }

  /** What a string read gives: a remembered string is the one up to the file's first delimiter, wherever the
      range ends; any other one has its delimiter inside the range and within 4096 bytes. */
  lemma StringOutcome(c: Cache, file: seq<Byte>, ok: bool, start: nat, end: nat, delimiter: Byte)
    requires c.Valid(file)
    ensures var r, known := ReadStringThrough(c, file, ok, start, end, delimiter).1, (start, delimiter) in c.strings;
      if end < start then r == Failed(InvertedRange)
      else if end > |file| then r == Failed(OutOfBounds)
      else
        var p := DelimiterAt(file, start, delimiter);
        if known then p.Some? && r == Bytes(file[start..p.value])
        else if start == end then r == Panic
        else
          || (r == Failed(SourceFailed) && !ok)
          || r == if p.Some? && p.value < Min(end, start + 4096) then Bytes(file[start..p.value]) else Failed(NoDelimiter)
  {
    hide DelimiterAt, Cache.StringOk, Manager.InStep, Manager.DetermineRangeSourcing, WithBuffer;
    if start <= end <= |file| {
      if (start, delimiter) in c.strings {
        CachedString(c, file, start, delimiter);
      } else if start < end {
        var maxLen := Min(end - start, MAX_LENGTH_INCLUDING_DELIMITER);
        FetchCorrect(c, file, ok, start, start + maxLen);
        DelimiterInWindow(file, start, start + maxLen, delimiter);
      }
    }
  }

  /** With a source that works, a string read through the cache agrees with the slice exactly when the
      range is rejected by both, or it is cached and ends inside the range, or it is not cached, the
      range is not empty, and the delimiter does not first occur beyond the first 4096 bytes. */
  lemma UntilAgreesIff(c: Cache, file: seq<Byte>, start: nat, end: nat, delimiter: Byte)
    requires Reachable(c, file)
    ensures c.Valid(file)
    ensures Agree(ReadStringThrough(c, file, true, start, end, delimiter).1,
      SliceReadBytesAtUntil(file, start, end, delimiter))
       <==> || end < start || end > |file|
            || var p := DelimiterAt(file, start, delimiter);
               if (start, delimiter) in c.strings then p.Some? && p.value < end
               else start < end && !(p.Some? && start + MAX_LENGTH_INCLUDING_DELIMITER <= p.value < end)
  {
    ReachableIsValid(c, file);
    hide Reachable, DelimiterAt, Cache.StringOk, Fetch;
    if start <= end <= |file| {
      SliceString(file, start, end, delimiter);
      if (start, delimiter) in c.strings {
        CachedString(c, file, start, delimiter);
      } else if start < end {
        StringOutcome(c, file, true, start, end, delimiter);
      }
    }
  }

  /** In any interleaving of reads, a string whose delimiter lies inside the range and within 4096 bytes
      is read as the slice reads it. */
  lemma ShortStringsAgree(c: Cache, file: seq<Byte>, start: nat, end: nat, delimiter: Byte)
    requires Reachable(c, file) && start < end <= |file| && DelimiterAt(file, start, delimiter).Some?
    requires DelimiterAt(file, start, delimiter).value < Min(end, start + MAX_LENGTH_INCLUDING_DELIMITER)
    ensures c.Valid(file)
    ensures ReadStringThrough(c, file, true, start, end, delimiter).1
         == SliceReadBytesAtUntil(file, start, end, delimiter)
         == Bytes(file[start..DelimiterAt(file, start, delimiter).value])
  {
    ReachableIsValid(c, file);
    hide Reachable, DelimiterAt, Cache.StringOk, Fetch;
    SliceString(file, start, end, delimiter);
    if (start, delimiter) in c.strings {
      CachedString(c, file, start, delimiter);
    } else {
      StringOutcome(c, file, true, start, end, delimiter);
    }
  }

  /** The string cache forgets the end of the range: a string cached for a long range is returned for a
      range in which the delimiter does not occur. */
  lemma CachedStringIgnoresEnd()
    ensures var file: seq<Byte> := [1, 1, 0];
      && ReadStringThrough(Run(file, [(ReadUntil(0, 3, 0), true)]), file, true, 0, 1, 0).1 == Bytes([1, 1])
      && SliceReadBytesAtUntil(file, 0, 1, 0) == Failed(NoDelimiter)
  {
    var file: seq<Byte> := [1, 1, 0];
    var calls := [(ReadUntil(0, 3, 0), true)];
    assert calls[..0] == [];
    var c0 := Run(file, []);
    var c := Run(file, calls);
    assert c == Step(c0, file, ReadUntil(0, 3, 0), true).0;
    hide Run;
    ThreeBytes(c0, file);
  }

  lemma ThreeBytes(c: Cache, file: seq<Byte>)
    requires file == [1, 1, 0] && c.Valid(file) && (0, 0) !in c.strings
    ensures var c' := ReadStringThrough(c, file, true, 0, 3, 0).0;
      c'.Valid(file) && ReadStringThrough(c', file, true, 0, 1, 0).1 == Bytes([1, 1])
    ensures SliceReadBytesAtUntil(file, 0, 1, 0) == Failed(NoDelimiter)
  {
    UntilKeepsValid(c, file, true, 0, 3, 0);
    StringOutcome(c, file, true, 0, 3, 0);
    assert file[0..] == file && file[0..2] == [1, 1] && file[0..1] == [1];
    FirstIsUnique(file, 0, 2);
    StringRemembered(c, file, 0, 3, 0);
    hide Fetch, Cache.Valid, IndexOf, Cache.StringOk;
    CachedString(ReadStringThrough(c, file, true, 0, 3, 0).0, file, 0, 0);
    SliceString(file, 0, 1, 0);
  }

  lemma StringRemembered(c: Cache, file: seq<Byte>, start: nat, end: nat, delimiter: Byte)
    requires c.Valid(file) && start < end <= |file|
    ensures ReadStringThrough(c, file, true, start, end, delimiter).1.Bytes? ==>
      (start, delimiter) in ReadStringThrough(c, file, true, start, end, delimiter).0.strings
  {
  }

  /** An empty read past the end of the file succeeds through the cache only. */
  lemma EmptyReadPastTheEnd(file: seq<Byte>)
    requires |file| + 1 < U64_LIMIT
    ensures ReadThrough(Run(file, []), file, true, |file| + 1, 0).1 == Bytes([])
    ensures SliceReadBytesAt(file, |file| + 1, 0) == Failed(OutOfBounds)
  {
  }

  /** An empty range that is not cached panics, where the slice finds nothing. */
  lemma EmptyRangePanics(file: seq<Byte>, delimiter: Byte)
    ensures ReadStringThrough(Run(file, []), file, true, 0, 0, delimiter).1 == Panic
    ensures SliceReadBytesAtUntil(file, 0, 0, delimiter) == Failed(NoDelimiter)
  {
  }

  /** A delimiter behind 4096 other bytes is found in the slice and not through the cache. */
  lemma LongStringIsNotFound(file: seq<Byte>)
    requires |file| == MAX_LENGTH_INCLUDING_DELIMITER + 1
    requires file[MAX_LENGTH_INCLUDING_DELIMITER] == 0 && 0 !in file[..MAX_LENGTH_INCLUDING_DELIMITER]
    ensures ReadStringThrough(Run(file, []), file, true, 0, |file|, 0).1 == Failed(NoDelimiter)
    ensures SliceReadBytesAtUntil(file, 0, |file|, 0) == Bytes(file[..MAX_LENGTH_INCLUDING_DELIMITER])
  {
    FirstIsUnique(file, 0, MAX_LENGTH_INCLUDING_DELIMITER);
    assert file[0..] == file && file[0..MAX_LENGTH_INCLUDING_DELIMITER] == file[..MAX_LENGTH_INCLUDING_DELIMITER];
    SliceString(file, 0, |file|, 0);
    var c := Run(file, []);
    assert c.strings == map[];
    hide Run, ReadStringThrough, Cache.Valid, IndexOf;
    StringOutcome(c, file, true, 0, |file|, 0);
  }

  // ----- the objects -----

  /** A file whose reads may fail at any time: `outcomes` says how the coming reads end. */
  class FileByteSource {
    const content: seq<Byte>
    var outcomes: seq<bool>

    constructor (content: seq<Byte>, outcomes: seq<bool>)
      ensures this.content == content && this.outcomes == outcomes
    {
      this.content, this.outcomes := content, outcomes;
    }

    predicate NextOk()
      reads this
    {
      outcomes == [] || outcomes[0]
    }

    /** Appends exactly `size` bytes to the buffer, or fails. */
    method ReadBytesInto(buffer: seq<Byte>, offset: nat, size: nat) returns (ok: bool, filled: seq<Byte>)
      requires offset + size <= |content|
      modifies this
      ensures ok == old(NextOk())
      ensures filled == if ok then buffer + content[offset..offset + size] else buffer
    {
      ok := NextOk();
      if outcomes != [] {
        outcomes := outcomes[1..];
      }
      filled := if ok then buffer + content[offset..offset + size] else buffer;
    }
  }

  class ChunkedReadBufferManager {
    const fileLen: nat
    var bufferRanges: seq<BufferRange>
    var rangeMap: RangeMap

    constructor (fileLen: nat)
      ensures View() == Manager(fileLen, [], RangeMap([]))
    {
      this.fileLen := fileLen;
      bufferRanges, rangeMap := [], RangeMap([]);
    }

    function View(): Manager
      reads this
    {
      Manager(fileLen, bufferRanges, rangeMap)
    }

    /** The range has to be non-empty and inside the file; rounding up has to fit in 64 bits. */
    method DetermineRangeSourcing(start: nat, end: nat) returns (r: Sourcing)
      requires View().InStep() && start < end <= fileLen && fileLen + CHUNK_SIZE <= U64_LIMIT
      ensures r == View().DetermineRangeSourcing(start, end)
    {
      var startIsCached := false;
      var index := rangeMap.Get(start);
      if index.Some? {
        var bufferRange := bufferRanges[index.value];
        if end <= bufferRange.end {
          return InExistingBuffer(Location(bufferRange.handle, start - bufferRange.start, end - start));
        }
        startIsCached := true;
      }
      var s := if startIsCached then start else RoundDown(start, CHUNK_SIZE);
      RoundsAround(end, CHUNK_SIZE);
      var roundedEnd: u64 := RoundUp(end, CHUNK_SIZE);
      return NeedToReadNewBuffer(s, Min(roundedEnd, fileLen));
    }

    method InsertBufferRange(start: nat, end: nat, handle: nat)
      modifies this
      ensures View() == old(View()).Insert(start, end, handle)
    {
      var index := |bufferRanges|;
      bufferRanges := bufferRanges + [BufferRange(start, end, handle)];
      rangeMap := rangeMap.Insert(start, end, index);
    }
  }

  class FileContentsWithChunkedCaching {
    const source: FileByteSource
    const fileLen: nat
    const bufferManager: ChunkedReadBufferManager
    var stringCache: map<(nat, Byte), Location>
    var buffers: seq<seq<Byte>>
    var bufferCount: nat

    constructor (source: FileByteSource)
      requires |source.content| + CHUNK_SIZE <= U64_LIMIT
      ensures this.source == source && Valid() && fresh(bufferManager) && View() == NewCache(|source.content|)
    {
      this.source, fileLen := source, |source.content|;
      bufferManager := new ChunkedReadBufferManager(|source.content|);
      stringCache, buffers, bufferCount := map[], [], 0;
    }

    function View(): Cache
      reads this, bufferManager
    {
      Cache(bufferManager.View(), stringCache, buffers, bufferCount)
    }

    ghost predicate Valid()
      reads this, bufferManager
    {
      View().Valid(source.content) && fileLen == |source.content| && fileLen + CHUNK_SIZE <= U64_LIMIT
    }

    method GetRangeLocation(start: nat, end: nat) returns (location: Option<Location>)
      requires Valid() && start < end <= fileLen
      modifies this, bufferManager, source
      ensures Valid() && (View(), location) == old(Fetch(View(), source.content, source.NextOk(), start, end))
      ensures stringCache == old(stringCache)
    {
      FetchCorrect(View(), source.content, source.NextOk(), start, end);
      SourcingCoversRequest(View().manager, start, end);
      hide Cache.StringOk, Manager.InStep, Manager.DetermineRangeSourcing, WithBuffer;
      var sourcing := bufferManager.DetermineRangeSourcing(start, end);
      match sourcing {
        case InExistingBuffer(l) =>
          return Some(l);
        case NeedToReadNewBuffer(s, e) =>
          var bufferHandle := bufferCount;
          var ok := ReadNewBuffer(s, e);
          if !ok {
            return None;
          }
          return Some(Location(bufferHandle, start - s, end - start));
      }
    }

    /** Reads the bytes from the source and stores them with their range. */
    method ReadNewBuffer(start: nat, end: nat) returns (ok: bool)
      requires start <= end <= |source.content|
      modifies this, bufferManager, source
      ensures ok == old(source.NextOk()) && stringCache == old(stringCache)
      ensures View() == if ok then WithBuffer(old(View()), source.content, start, end) else old(View())
    {
      var buffer: seq<Byte>;
      ok, buffer := source.ReadBytesInto([], start, end - start);
      assert [] + source.content[start..end] == source.content[start..end];
      if !ok {
        return;
      }
      var bufferHandle := bufferCount;
      bufferCount := bufferCount + 1;
      buffers := buffers + [buffer];
      bufferManager.InsertBufferRange(start, end, bufferHandle);
    }

    method ReadBytesAt(offset: u64, size: u64) returns (r: Outcome)
      requires Valid()
      modifies this, bufferManager, source
      ensures Valid()
      ensures (View(), r) == old(ReadThrough(View(), source.content, source.NextOk(), offset, size))
      ensures old(buffers) <= buffers
      ensures offset + size <= fileLen ==>
        r == Bytes(source.content[offset..offset + size]) || (r == Failed(SourceFailed) && !old(source.NextOk()))
    {
      hide Fetch, Cache.StringOk, Manager.InStep, Manager.DetermineRangeSourcing, WithBuffer;
      if offset + size <= fileLen {
        ReadsGiveTheFile(View(), source.content, source.NextOk(), offset, size);
      }
      if size == 0 {
        return Bytes([]);
      }
      if offset + size >= U64_LIMIT {
        return Failed(Overflow);
      }
      var end := offset + size;
      if end > fileLen {
        return Failed(OutOfBounds);
      }
      FetchCorrect(View(), source.content, source.NextOk(), offset, end);
      hide Cache.Valid;
      var location := GetRangeLocation(offset, end);
      return if location.Some? then Bytes(View().Slice(location.value)) else Failed(SourceFailed);
    }

    /** The range must not be empty unless its string is cached. */
    method ReadBytesAtUntil(start: nat, end: nat, delimiter: Byte) returns (r: Outcome)
      requires Valid()
      requires start == end ==> end > fileLen || (start, delimiter) in stringCache
      modifies this, bufferManager, source
      ensures Valid()
      ensures (View(), r) == old(ReadStringThrough(View(), source.content, source.NextOk(), start, end, delimiter))
      ensures old(buffers) <= buffers
    {
      hide Fetch, Cache.StringOk, Manager.InStep;
      StepKeepsValid(View(), source.content, ReadUntil(start, end, delimiter), source.NextOk());
      if end < start {
        return Failed(InvertedRange);
      }
      if end > fileLen {
        return Failed(OutOfBounds);
      }
      if (start, delimiter) in stringCache {
        CachedString(View(), source.content, start, delimiter);
        return Bytes(View().Slice(stringCache[(start, delimiter)]));
      }
      var maxLen := Min(end - start, MAX_LENGTH_INCLUDING_DELIMITER);
      FetchCorrect(View(), source.content, source.NextOk(), start, start + maxLen);
      hide Cache.Valid, IndexOf;
      var location := GetRangeLocation(start, start + maxLen);
      if location.None? {
        return Failed(SourceFailed);
      }
      var bytes := View().Slice(location.value);
      var stringLen := IndexOf(bytes, delimiter);
      if stringLen.None? {
        return Failed(NoDelimiter);
      }
      stringCache := stringCache[(start, delimiter) := location.value.(size := stringLen.value)];
      return Bytes(bytes[..stringLen.value]);
    }
  }
}
