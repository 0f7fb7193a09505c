/** The index of a jitdump file: where each piece of generated code lies in the file and in a made-up
    address space that packs the pieces one behind the other (samply-symbols/src/jitdump.rs). */
module JitDumps {
  import opened Prelude
  import opened Search

  /** The records the reader hands out. `codeStart` counts from the record's header. */
  datatype Record =
    | CodeLoad(totalSize: u32, nameLen: nat, codeStart: nat, codeLen: nat)
    | DebugInfo(totalSize: u32)
    | Other(totalSize: u32)
  {
    /** The code lies behind the header and the name, and inside its record. */
    ghost predicate Valid() {
      CodeLoad? ==> 0 < codeStart && codeStart + codeLen <= totalSize
    }
  }

  datatype IndexEntry = IndexEntry(
    recordOffset: nat, codeOffset: nat, nameLen: u32, debugRecord: Option<(nat, u32)>, codeLen: nat)

  datatype Index = Index(entries: seq<IndexEntry>, addresses: seq<u32>)

  /** File offset of the k-th record. */
  function OffsetOf(records: seq<Record>, start: nat, k: nat): nat
    requires k <= |records|
  {
    if k == 0 then start else OffsetOf(records, start, k - 1) + records[k - 1].totalSize
  }

  /** Which of the first `k` records load code. */
  function Loads(records: seq<Record>, k: nat): (ls: seq<nat>)
    requires k <= |records|
    ensures forall i :: 0 <= i < |ls| ==> ls[i] < k && records[ls[i]].CodeLoad?
  {
    if k == 0 then []
    else Loads(records, k - 1) + (if records[k - 1].CodeLoad? then [k - 1] else [])
  }

  /** How much code the first `k` records load. */
  function CodeBefore(records: seq<Record>, k: nat): nat
    requires k <= |records|
  {
    if k == 0 then 0
    else CodeBefore(records, k - 1) + (if records[k - 1].CodeLoad? then records[k - 1].codeLen else 0)
  }

  /** The latest debug record before the k-th record with no code load in between. */
  function PendingDebug(records: seq<Record>, start: nat, k: nat): Option<(nat, u32)>
    requires k <= |records|
  {
    if k == 0 then None
    else
      match records[k - 1]
      case CodeLoad(_, _, _, _) => None
      case DebugInfo(totalSize) => Some((OffsetOf(records, start, k - 1), totalSize))
      case Other(_) => PendingDebug(records, start, k - 1)
  }

  ghost predicate EntryIs(e: IndexEntry, address: u32, records: seq<Record>, start: nat, k: nat)
    requires k < |records| && records[k].CodeLoad?
  {
    && e.recordOffset == OffsetOf(records, start, k)
    && e.codeOffset == OffsetOf(records, start, k) + records[k].codeStart
    && e.nameLen == AsU32(records[k].nameLen)
    && e.debugRecord == PendingDebug(records, start, k)
    && e.codeLen == records[k].codeLen
    && address == AsU32(CodeBefore(records, k))
  }

  /** The index of the first `k` records: one entry per code load, in order. */
  ghost predicate IsIndexOf(index: Index, records: seq<Record>, start: nat, k: nat)
    requires k <= |records|
  {
    && |index.entries| == |index.addresses| == |Loads(records, k)|
    && forall i :: 0 <= i < |index.entries| ==>
         EntryIs(index.entries[i], index.addresses[i], records, start, Loads(records, k)[i])
  }

  lemma WrappedSum(a: nat, b: nat)
    ensures AsU32(AsU32(a) + AsU32(b)) == AsU32(a + b)
  {
  }

  /** `from_reader`; the sum of code lengths is 32 bits wide. */
  method FromReader(records: seq<Record>, start: nat) returns (index: Index)
    ensures IsIndexOf(index, records, start, |records|)
  {
    var entries: seq<IndexEntry> := [];
    var addresses: seq<u32> := [];
    var cumulative: u32 := 0;
    var pending: Option<(nat, u32)> := None;
    var offset := start;
    for k := 0 to |records|
      invariant offset == OffsetOf(records, start, k)
      invariant cumulative == AsU32(CodeBefore(records, k))
      invariant pending == PendingDebug(records, start, k)
      invariant IsIndexOf(Index(entries, addresses), records, start, k)
    {
      match records[k] {
        case CodeLoad(totalSize, nameLen, codeStart, codeLen) =>
          var debugRecord := pending;
          pending := None;
          var address := cumulative;
          WrappedSum(CodeBefore(records, k), codeLen);
          cumulative := AsU32(cumulative + AsU32(codeLen));
          entries := entries + [IndexEntry(offset, offset + codeStart, AsU32(nameLen), debugRecord, codeLen)];
          addresses := addresses + [address];
        case DebugInfo(totalSize) =>
          pending := Some((offset, totalSize));
        case Other(_) =>
      }
      offset := offset + records[k].totalSize;
    }
    return Index(entries, addresses);
  }

  // ----- lookups -----

  /** (entry, address of the entry, offset from the entry's start) */
  datatype Hit = Hit(entry: nat, address: u32, offset: nat)

  function CodeOffsets(index: Index): (ks: seq<int>)
    ensures |ks| == |index.entries| && forall i :: 0 <= i < |ks| ==> ks[i] == index.entries[i].codeOffset
  {
    seq(|index.entries|, i requires 0 <= i < |index.entries| => index.entries[i].codeOffset)
  }

  /** What both lookups do with the answer of their search in the column `keys`. */
  function HitFor(index: Index, keys: seq<int>, key: int, answer: Result<nat, nat>): Option<Hit>
    requires |keys| == |index.entries| == |index.addresses|
    requires answer.Ok? ==> answer.value < |keys| && keys[answer.value] == key
    requires answer.Err? ==> answer.error <= |keys| && (answer.error > 0 ==> keys[answer.error - 1] < key)
  {
    if answer == Err(0) then None
    else
      var i := if answer.Ok? then answer.value else answer.error - 1;
      if key - keys[i] >= index.entries[i].codeLen then None else Some(Hit(i, index.addresses[i], key - keys[i]))
  }

  method LookupRelativeAddress(index: Index, address: u32) returns (r: Option<Hit>, ghost answer: Result<nat, nat>)
    requires |index.entries| == |index.addresses|
    ensures answer == Bisect(index.addresses, address, 0, |index.addresses|)
    ensures Ascending(index.addresses) ==> SearchAnswer(index.addresses, address, answer)
    ensures answer.Ok? ==> answer.value < |index.addresses| && index.addresses[answer.value] == address
    ensures answer.Err? ==>
      answer.error <= |index.addresses| && (answer.error > 0 ==> index.addresses[answer.error - 1] < address)
    ensures r == HitFor(index, index.addresses, address, answer)
  {
    var found := BinarySearch(index.addresses, address);
    answer := found;
    if found.Err? && found.error == 0 {
      return None, found;
    }
    var i := if found.Ok? then found.value else found.error - 1;
    var symbolAddress := index.addresses[i];
    var offset := address - symbolAddress;
    if offset >= index.entries[i].codeLen {
      return None, found;
    }
    return Some(Hit(i, symbolAddress, offset)), found;
  }

  method LookupOffset(index: Index, offset: nat) returns (r: Option<Hit>, ghost answer: Result<nat, nat>)
    requires |index.entries| == |index.addresses|
    ensures answer == Bisect(CodeOffsets(index), offset, 0, |index.entries|)
    ensures Ascending(CodeOffsets(index)) ==> SearchAnswer(CodeOffsets(index), offset, answer)
    ensures answer.Ok? ==> answer.value < |index.entries| && index.entries[answer.value].codeOffset == offset
    ensures answer.Err? ==>
      answer.error <= |index.entries| && (answer.error > 0 ==> index.entries[answer.error - 1].codeOffset < offset)
    ensures r == HitFor(index, CodeOffsets(index), offset, answer)
  {
    var found := BinarySearch(CodeOffsets(index), offset);
    answer := found;
    if found.Err? && found.error == 0 {
      return None, found;
    }
    var i := if found.Ok? then found.value else found.error - 1;
    var relative := offset - index.entries[i].codeOffset;
    if relative >= index.entries[i].codeLen {
      return None, found;
    }
    return Some(Hit(i, index.addresses[i], relative)), found;
  }

  // ----- layout -----

  lemma {:induction false} OffsetsGrow(records: seq<Record>, start: nat, j: nat, k: nat)
    requires j < k <= |records|
    ensures OffsetOf(records, start, j) + records[j].totalSize <= OffsetOf(records, start, k)
    ensures CodeBefore(records, j) + (if records[j].CodeLoad? then records[j].codeLen else 0) <= CodeBefore(records, k)
  {
    if j < k - 1 {
      OffsetsGrow(records, start, j, k - 1);
    }
  }

  lemma {:induction false} LoadsAscend(records: seq<Record>, k: nat, i: nat, j: nat)
    requires k <= |records| && i < j < |Loads(records, k)|
    ensures Loads(records, k)[i] < Loads(records, k)[j]
  {
    var before := Loads(records, k - 1);
    if j < |before| {
      LoadsAscend(records, k - 1, i, j);
    }
  }

  /** Nothing but skipped records lies between neighbouring loads, so no code does. */
  lemma {:induction false} CodeBetweenLoads(records: seq<Record>, k: nat, i: nat)
    requires k <= |records| && i < |Loads(records, k)|
    ensures CodeBefore(records, Loads(records, k)[i]) + records[Loads(records, k)[i]].codeLen
         == if i + 1 < |Loads(records, k)| then CodeBefore(records, Loads(records, k)[i + 1]) else CodeBefore(records, k)
  {
    var before := Loads(records, k - 1);
    if i < |before| {
      CodeBetweenLoads(records, k - 1, i);
    }
  }

  /** Every code load is listed. */
  lemma {:induction false} LoadsComplete(records: seq<Record>, k: nat, r: nat)
    requires k <= |records| && r < k && records[r].CodeLoad?
    ensures r in Loads(records, k)
  {
    if r < k - 1 {
      LoadsComplete(records, k - 1, r);
    }
  }

  /** Nothing is loaded before the first load, so the first piece has address 0. */
  lemma {:induction false} NothingBeforeFirstLoad(records: seq<Record>, k: nat)
    requires k <= |records|
    ensures CodeBefore(records, if Loads(records, k) == [] then k else Loads(records, k)[0]) == 0
  {
    if k > 0 {
      NothingBeforeFirstLoad(records, k - 1);
    }
  }

  // ----- what the offsets lead to -----

  /** A file of a header and records, each as long as it says. */
  ghost predicate Images(records: seq<Record>, start: nat, header: seq<Byte>, images: seq<seq<Byte>>) {
    |header| == start && |images| == |records| && forall k :: 0 <= k < |records| ==> |images[k]| == records[k].totalSize
  }

  function File(header: seq<Byte>, images: seq<seq<Byte>>, k: nat): seq<Byte>
    requires k <= |images|
  {
    if k == 0 then header else File(header, images, k - 1) + images[k - 1]
  }

  /** The record stands in the file where the sum of the sizes before it says. */
  lemma {:induction false} RecordStandsAt(records: seq<Record>, start: nat, header: seq<Byte>, images: seq<seq<Byte>>,
    k: nat, m: nat)
    requires Images(records, start, header, images) && k < m <= |records|
    ensures |File(header, images, k)| == OffsetOf(records, start, k)
    ensures var offset := OffsetOf(records, start, k);
      && offset + records[k].totalSize <= |File(header, images, m)|
      && File(header, images, m)[offset..offset + records[k].totalSize] == images[k]
    decreases m
  {
    if k > 0 {
      RecordStandsAt(records, start, header, images, k - 1, k);
      assert |File(header, images, k)| == |File(header, images, k - 1)| + records[k - 1].totalSize;
    }
    if k < m - 1 {
      RecordStandsAt(records, start, header, images, k, m - 1);
    }
  }

  /** Record `j` is the last debug record before record `k`, and no code is loaded between them. */
  ghost predicate DebugFor(records: seq<Record>, j: nat, k: nat)
    requires k <= |records|
  {
    j < k && records[j].DebugInfo? && forall i :: j < i < k ==> records[i].Other?
  }

  lemma {:induction false} PendingIsLastDebug(records: seq<Record>, start: nat, k: nat)
    requires k <= |records|
    ensures match PendingDebug(records, start, k)
            case Some((offset, len)) =>
              exists j: nat :: DebugFor(records, j, k) && offset == OffsetOf(records, start, j) && len == records[j].totalSize
            case None => forall j: nat :: !DebugFor(records, j, k)
  {
    if k > 0 {
      PendingIsLastDebug(records, start, k - 1);
      assert forall j: nat :: DebugFor(records, j, k - 1) && records[k - 1].Other? ==> DebugFor(records, j, k);
      assert forall j: nat :: j < k - 1 && DebugFor(records, j, k) ==> DebugFor(records, j, k - 1) && records[k - 1].Other?;
      if records[k - 1].DebugInfo? {
        assert DebugFor(records, k - 1, k);
      }
    }
  }

  /** For each load, in order, the index has the offsets at which the file holds the record, its code, and the
      debug record that goes with it, if there is one. */
  lemma IndexLeadsToCode(index: Index, records: seq<Record>, start: nat, header: seq<Byte>, images: seq<seq<Byte>>, i: nat)
    requires FileOf(index, records, start) && Images(records, start, header, images) && i < |Loads(records, |records|)|
    ensures i < |index.entries| && index.entries[i].codeLen == records[Loads(records, |records|)[i]].codeLen
    ensures var file, e, k := File(header, images, |images|), index.entries[i], Loads(records, |records|)[i];
      && e.recordOffset + records[k].totalSize <= |file|
      && file[e.recordOffset..e.recordOffset + records[k].totalSize] == images[k]
      && e.codeOffset + e.codeLen <= |file|
      && file[e.codeOffset..e.codeOffset + e.codeLen] == images[k][records[k].codeStart..records[k].codeStart + e.codeLen]
      && match e.debugRecord
         case None => forall j: nat :: !DebugFor(records, j, k)
         case Some((offset, len)) =>
           && offset + len <= |file|
           && exists j: nat :: DebugFor(records, j, k) && file[offset..offset + len] == images[j]
  {
    var k := Loads(records, |records|)[i];
    assert EntryIs(index.entries[i], index.addresses[i], records, start, k) && records[k].Valid();
    EntryLeadsToCode(index.entries[i], index.addresses[i], records, start, header, images, k);
  }

  lemma EntryLeadsToCode(e: IndexEntry, address: u32, records: seq<Record>, start: nat, header: seq<Byte>,
    images: seq<seq<Byte>>, k: nat)
    requires k < |records| && records[k].Valid() && records[k].CodeLoad? && EntryIs(e, address, records, start, k)
    requires Images(records, start, header, images)
    ensures var file := File(header, images, |images|);
      && e.recordOffset + records[k].totalSize <= |file|
      && file[e.recordOffset..e.recordOffset + records[k].totalSize] == images[k]
      && e.codeOffset + e.codeLen <= |file|
      && file[e.codeOffset..e.codeOffset + e.codeLen] == images[k][records[k].codeStart..records[k].codeStart + e.codeLen]
      && match e.debugRecord
         case None => forall j: nat :: !DebugFor(records, j, k)
         case Some((offset, len)) =>
           && offset + len <= |file|
           && exists j: nat :: DebugFor(records, j, k) && file[offset..offset + len] == images[j]
  {
    var file := File(header, images, |images|);
    hide File, OffsetOf, PendingDebug, DebugFor;
    RecordStandsAt(records, start, header, images, k, |records|);
    SubSlice(file, e.recordOffset, records[k].totalSize, records[k].codeStart, records[k].codeStart + e.codeLen);
    PendingIsLastDebug(records, start, k);
    if e.debugRecord.Some? {
      var (offset, len) := e.debugRecord.value;
      var j: nat :| DebugFor(records, j, k) && offset == OffsetOf(records, start, j) && len == records[j].totalSize;
      DebugForBefore(records, j, k);
      RecordStandsAt(records, start, header, images, j, |records|);
    }
  }

  lemma SubSlice(file: seq<Byte>, offset: nat, n: nat, from: nat, to: nat)
    requires offset + n <= |file| && from <= to <= n
    ensures file[offset..offset + n][from..to] == file[offset + from..offset + to]
  {
    var part, piece := file[offset..offset + n][from..to], file[offset + from..offset + to];
    assert |part| == |piece| && forall i :: 0 <= i < |part| ==> part[i] == piece[i];
  }

  lemma DebugForBefore(records: seq<Record>, j: nat, k: nat)
    requires k <= |records| && DebugFor(records, j, k)
    ensures j < k
  {
  }

  ghost predicate FileOf(index: Index, records: seq<Record>, start: nat) {
    && (forall k :: 0 <= k < |records| ==> records[k].Valid())
    && IsIndexOf(index, records, start, |records|)
  }

  /** In the file the pieces of code follow one another without overlap. */
  lemma OffsetsSeparate(index: Index, records: seq<Record>, start: nat, i: nat, j: nat)
    requires FileOf(index, records, start) && i < j < |index.entries|
    ensures index.entries[i].codeOffset + index.entries[i].codeLen < index.entries[j].codeOffset
  {
    var loads := Loads(records, |records|);
    LoadsAscend(records, |records|, i, j);
    OffsetsGrow(records, start, loads[i], loads[j]);
    assert EntryIs(index.entries[i], index.addresses[i], records, start, loads[i]);
    assert EntryIs(index.entries[j], index.addresses[j], records, start, loads[j]);
    assert records[loads[i]].Valid() && records[loads[j]].Valid();
  }

  /** Every piece starts below 2^32 in the address space. */
  ghost predicate StartsFit(records: seq<Record>) {
    var loads := Loads(records, |records|);
    forall i :: 0 <= i < |loads| ==> CodeBefore(records, loads[i]) < U32_LIMIT
  }

  /** In the address space they follow one another without a gap, as long as they start below 2^32. */
  lemma AddressesPack(index: Index, records: seq<Record>, start: nat, i: nat)
    requires IsIndexOf(index, records, start, |records|) && StartsFit(records)
    requires i < |index.entries|
    ensures index.addresses[i] + index.entries[i].codeLen
         == if i + 1 < |index.entries| then index.addresses[i + 1] else CodeBefore(records, |records|)
  {
    EntryAddress(index, records, start, i);
    CodeBetweenLoads(records, |records|, i);
    if i + 1 < |index.entries| {
      EntryAddress(index, records, start, i + 1);
    }
    hide *;
  }

  lemma FirstAddressIsZero(index: Index, records: seq<Record>, start: nat)
    requires IsIndexOf(index, records, start, |records|) && index.entries != []
    ensures |index.addresses| == |index.entries| && index.addresses[0] == 0
  {
    NothingBeforeFirstLoad(records, |records|);
    EntryAddress(index, records, start, 0);
    hide Loads, EntryIs, AsU32;
  }

  lemma EntryAddress(index: Index, records: seq<Record>, start: nat, i: nat)
    requires IsIndexOf(index, records, start, |records|) && i < |index.entries|
    ensures |Loads(records, |records|)| == |index.entries|
    ensures index.addresses[i] == AsU32(CodeBefore(records, Loads(records, |records|)[i]))
    ensures CodeBefore(records, Loads(records, |records|)[i]) < U32_LIMIT ==>
      index.addresses[i] == CodeBefore(records, Loads(records, |records|)[i])
    ensures index.entries[i].codeLen == records[Loads(records, |records|)[i]].codeLen
  {
    var k := Loads(records, |records|)[i];
    assert EntryIs(index.entries[i], index.addresses[i], records, start, k);
    if CodeBefore(records, k) < U32_LIMIT {
      SmallStays(CodeBefore(records, k));
    }
    hide AsU32, CodeBefore, OffsetOf, PendingDebug;
  }

  lemma SmallStays(n: nat)
    requires n < U32_LIMIT
    ensures AsU32(n) == n
  {
  }

  /** Each piece starts where the one before it ends. */
  ghost predicate Packed(index: Index) {
    && |index.entries| == |index.addresses|
    && forall i :: 0 < i < |index.entries| ==>
         index.addresses[i] == index.addresses[i - 1] + index.entries[i - 1].codeLen
  }

  lemma IndexIsPacked(index: Index, records: seq<Record>, start: nat)
    requires IsIndexOf(index, records, start, |records|) && StartsFit(records)
    ensures Packed(index)
  {
    hide EntryIs, Loads, CodeBefore, OffsetOf, PendingDebug, AsU32;
    assert |index.entries| == |index.addresses|;
    hide IsIndexOf;
    forall i | 0 < i < |index.entries|
      ensures index.addresses[i] == index.addresses[i - 1] + index.entries[i - 1].codeLen
    {
      AddressesPack(index, records, start, i - 1);
    }
  }

  lemma {:induction false} AddressesAscend(index: Index, i: nat, j: nat)
    requires Packed(index) && i < j < |index.entries|
    ensures index.addresses[i] + index.entries[i].codeLen <= index.addresses[j]
  {
    if i < j - 1 {
      AddressesAscend(index, i, j - 1);
    }
  }

  // ----- what the lookups promise -----

  /** Whatever the search answers, a hit lies inside the code it names. */
  lemma HitsAreSound(index: Index, keys: seq<int>, key: int, answer: Result<nat, nat>)
    requires |keys| == |index.entries| == |index.addresses|
    requires answer.Ok? ==> answer.value < |keys| && keys[answer.value] == key
    requires answer.Err? ==> answer.error <= |keys| && (answer.error > 0 ==> keys[answer.error - 1] < key)
    ensures var r := HitFor(index, keys, key, answer);
      r.Some? ==>
        && r.value.entry < |index.entries| && r.value.address == index.addresses[r.value.entry]
        && keys[r.value.entry] + r.value.offset == key && r.value.offset < index.entries[r.value.entry].codeLen
  {
  }

  /** Every code byte is found by its file offset. */
  lemma OffsetLookupComplete(index: Index, records: seq<Record>, start: nat, i: nat, o: nat, answer: Result<nat, nat>)
    requires FileOf(index, records, start) && i < |index.entries| && o < index.entries[i].codeLen
    requires SearchAnswer(CodeOffsets(index), index.entries[i].codeOffset + o, answer)
    ensures HitFor(index, CodeOffsets(index), index.entries[i].codeOffset + o, answer) == Some(Hit(i, index.addresses[i], o))
  {
    forall j | 0 <= j < |index.entries| && j != i
      ensures if j < i then CodeOffsets(index)[j] + index.entries[j].codeLen < CodeOffsets(index)[i]
              else CodeOffsets(index)[i] + index.entries[i].codeLen < CodeOffsets(index)[j]
    {
      OffsetsSeparate(index, records, start, if i < j then i else j, if i < j then j else i);
    }
  }

  /** A file offset outside every piece of code is not found. */
  lemma OffsetLookupExact(index: Index, offset: nat, answer: Result<nat, nat>)
    requires |index.entries| == |index.addresses| && SearchAnswer(CodeOffsets(index), offset, answer)
    requires forall i :: 0 <= i < |index.entries| ==>
      !(index.entries[i].codeOffset <= offset < index.entries[i].codeOffset + index.entries[i].codeLen)
    ensures HitFor(index, CodeOffsets(index), offset, answer) == None
  {
  }

  /** Which entries a relative address can be found under: its own and, at its first byte, the empty
      ones directly before it. */
  lemma AnswersFor(index: Index, i: nat, o: nat, key: int, answer: Result<nat, nat>)
    requires Packed(index) && i < |index.entries| && o < index.entries[i].codeLen
    requires key == index.addresses[i] + o && SearchAnswer(index.addresses, key, answer)
    ensures o > 0 ==> answer == Err(i + 1)
    ensures o == 0 ==> answer.Ok? && answer.value <= i
    ensures answer.Ok? && answer.value < i ==> index.entries[i - 1].codeLen == 0
  {
    var n := |index.entries|;
    if i + 1 < n {
      AddressesAscend(index, i, i + 1);
    }
    if answer.Ok? && answer.value != i {
      AddressesAscend(index, if answer.value < i then answer.value else i, if answer.value < i then i else answer.value);
      if answer.value < i - 1 {
        AddressesAscend(index, answer.value, i - 1);
      }
    }
  }

  /** With a permitted answer a code byte is found exactly when the answer is not one of those empty pieces. */
  lemma FoundIffAnswerIsOwn(index: Index, i: nat, o: nat, key: int, answer: Result<nat, nat>)
    requires Packed(index) && i < |index.entries| && o < index.entries[i].codeLen
    requires key == index.addresses[i] + o && SearchAnswer(index.addresses, key, answer)
    ensures HitFor(index, index.addresses, key, answer) == Some(Hit(i, index.addresses[i], o)) <==> o > 0 || answer == Ok(i)
  {
    AnswersFor(index, i, o, key, answer);
  }

  /** The lookup gives `hit`, whichever answer the search picks. */
  ghost predicate AlwaysFinds(index: Index, key: int, hit: Hit)
    requires |index.entries| == |index.addresses|
  {
    forall answer :: SearchAnswer(index.addresses, key, answer) ==>
      HitFor(index, index.addresses, key, answer) == Some(hit)
  }

  /** Every code byte is found by its relative address, whichever answer the search picks, except for
      the first byte of code that directly follows empty code. */
  lemma RelativeLookupCompleteIff(index: Index, records: seq<Record>, start: nat, i: nat, o: nat, address: int)
    requires IsIndexOf(index, records, start, |records|) && StartsFit(records)
    requires i < |index.entries| && o < index.entries[i].codeLen && address == index.addresses[i] + o
    ensures AlwaysFinds(index, address, Hit(i, index.addresses[i], o))
       <==> o > 0 || i == 0 || index.entries[i - 1].codeLen > 0
  {
    hide IsIndexOf, EntryIs, Loads, CodeBefore, OffsetOf, PendingDebug, AsU32;
    IndexIsPacked(index, records, start);
    if o > 0 || i == 0 || index.entries[i - 1].codeLen > 0 {
      forall answer | SearchAnswer(index.addresses, address, answer)
        ensures HitFor(index, index.addresses, address, answer) == Some(Hit(i, index.addresses[i], o))
      {
        AnswersFor(index, i, o, address, answer);
      }
    } else {
      var answer: Result<nat, nat> := Ok(i - 1);
      assert SearchAnswer(index.addresses, address, answer);
      assert HitFor(index, index.addresses, address, answer) == None;
    }
  }

  // ----- when every byte is found -----

  /** Some byte of code lies at every address below a piece's start. */
  lemma {:induction false} CoveredBelow(records: seq<Record>, i: nat, a: nat) returns (j: nat, o: nat)
    requires i < |Loads(records, |records|)| && a < CodeBefore(records, Loads(records, |records|)[i])
    ensures j < i && o < records[Loads(records, |records|)[j]].codeLen
    ensures a == CodeBefore(records, Loads(records, |records|)[j]) + o
  {
    var loads := Loads(records, |records|);
    if i == 0 {
      NothingBeforeFirst(records, |records|);
    } else {
      CodeBetweenLoads(records, |records|, i - 1);
      hide CodeBefore, Loads;
      if a < CodeBefore(records, loads[i - 1]) {
        j, o := CoveredBelow(records, i - 1, a);
      } else {
        j, o := i - 1, a - CodeBefore(records, loads[i - 1]);
      }
    }
  }

  lemma {:induction false} NothingBeforeFirst(records: seq<Record>, k: nat)
    requires k <= |records|
    ensures Loads(records, k) == [] ==> CodeBefore(records, k) == 0
    ensures Loads(records, k) != [] ==> CodeBefore(records, Loads(records, k)[0]) == 0
  {
    if k > 0 {
      NothingBeforeFirst(records, k - 1);
    }
  }

  /** No empty piece directly before one that is not. */
  ghost predicate NoEmptyBefore(index: Index) {
    forall i :: 0 < i < |index.entries| && index.entries[i].codeLen > 0 ==> index.entries[i - 1].codeLen > 0
  }

  /** Byte `o` of piece `i` is found by its relative address, if it has one. */
  ghost predicate ByteFound(index: Index, i: nat, o: nat)
    requires i < |index.entries| == |index.addresses|
  {
    index.addresses[i] + o < U32_LIMIT ==> AlwaysFinds(index, index.addresses[i] + o, Hit(i, index.addresses[i], o))
  }

  ghost predicate EveryByteFound(index: Index)
    requires |index.entries| == |index.addresses|
  {
    forall i, o :: 0 <= i < |index.entries| && 0 <= o < index.entries[i].codeLen ==> ByteFound(index, i, o)
  }

  lemma SharedAddressHidesByte(index: Index, i: nat, j: nat, o: nat)
    requires i < |index.entries| == |index.addresses| && j < |index.entries| && j != i && o < index.entries[j].codeLen
    requires index.addresses[i] == index.addresses[j] + o
    ensures !EveryByteFound(index)
  {
    var key := index.addresses[i];
    var answer: Result<nat, nat> := Ok(i);
    assert SearchAnswer(index.addresses, key, answer);
    assert HitFor(index, index.addresses, key, answer) != Some(Hit(j, index.addresses[j], o));
    assert !AlwaysFinds(index, index.addresses[j] + o, Hit(j, index.addresses[j], o));
    assert !ByteFound(index, j, o);
  }

  /** A piece whose address wrapped shares it with a byte of an earlier piece. */
  lemma WrappedPieceHidesByte(index: Index, records: seq<Record>, start: nat, i: nat)
    requires IsIndexOf(index, records, start, |records|) && i < |index.entries|
    requires CodeBefore(records, Loads(records, |records|)[i]) >= U32_LIMIT
    ensures !EveryByteFound(index)
  {
    hide EveryByteFound, EntryIs, CodeBefore, Loads;
    EntryAddress(index, records, start, i);
    var j, o := CoveredBelow(records, i, index.addresses[i]);
    EntryAddress(index, records, start, j);
    SharedAddressHidesByte(index, i, j, o);
  }

  /** Every byte of code that has a relative address is found by it, whichever answers the searches pick,
      exactly when all pieces start below 2^32 and none follows an empty one directly. */
  lemma EveryByteFoundIff(index: Index, records: seq<Record>, start: nat)
    requires FileOf(index, records, start)
    ensures EveryByteFound(index) <==> StartsFit(records) && NoEmptyBefore(index)
  {
    hide EntryIs, Loads, CodeBefore;
    if !StartsFit(records) {
      var i :| 0 <= i < |Loads(records, |records|)| && CodeBefore(records, Loads(records, |records|)[i]) >= U32_LIMIT;
      WrappedPieceHidesByte(index, records, start, i);
    } else {
      hide IsIndexOf, AlwaysFinds;
      forall i: nat, o: nat | i < |index.entries| && o < index.entries[i].codeLen
        ensures AlwaysFinds(index, index.addresses[i] + o, Hit(i, index.addresses[i], o))
           <==> o > 0 || i == 0 || index.entries[i - 1].codeLen > 0
      {
        RelativeLookupCompleteIff(index, records, start, i, o, index.addresses[i] + o);
      }
      if !NoEmptyBefore(index) {
        var i :| 0 < i < |index.entries| && index.entries[i].codeLen > 0 && index.entries[i - 1].codeLen == 0;
        assert !ByteFound(index, i, 0);
      }
    }
  }

  /** With no empty code, both lookups find every code byte and agree on it. */
  lemma LookupsAgree(index: Index, records: seq<Record>, start: nat, i: nat, o: nat, address: int, offset: int,
                     byAddress: Result<nat, nat>, byOffset: Result<nat, nat>)
    requires FileOf(index, records, start) && StartsFit(records)
    requires forall k :: 0 <= k < |index.entries| ==> index.entries[k].codeLen > 0
    requires i < |index.entries| && o < index.entries[i].codeLen
    requires address == index.addresses[i] + o && offset == index.entries[i].codeOffset + o
    requires SearchAnswer(index.addresses, address, byAddress) && SearchAnswer(CodeOffsets(index), offset, byOffset)
    ensures HitFor(index, index.addresses, address, byAddress)
         == HitFor(index, CodeOffsets(index), offset, byOffset) == Some(Hit(i, index.addresses[i], o))
  {
    hide IsIndexOf, EntryIs, Loads, CodeBefore, OffsetOf, PendingDebug, AsU32;
    RelativeLookupCompleteIff(index, records, start, i, o, address);
    OffsetLookupComplete(index, records, start, i, o, byOffset);
  }

  /** Three loads, the first two of them empty, and their index. */
  const EXAMPLE := [CodeLoad(60, 0, 57, 0), CodeLoad(60, 0, 57, 0), CodeLoad(70, 0, 57, 13)]
  const EXAMPLE_INDEX := Index(
    [IndexEntry(40, 97, 0, None, 0), IndexEntry(100, 157, 0, None, 0), IndexEntry(160, 217, 0, None, 13)], [0, 0, 0])

  lemma ExampleIndexed()
    ensures FileOf(EXAMPLE_INDEX, EXAMPLE, 40)
  {
    assert Loads(EXAMPLE, 0) == [];
    assert Loads(EXAMPLE, 1) == [0];
    assert Loads(EXAMPLE, 2) == [0, 1];
    assert Loads(EXAMPLE, 3) == [0, 1, 2];
    assert OffsetOf(EXAMPLE, 40, 0) == 40 && CodeBefore(EXAMPLE, 0) == 0 && PendingDebug(EXAMPLE, 40, 0) == None;
    assert OffsetOf(EXAMPLE, 40, 1) == 100 && CodeBefore(EXAMPLE, 1) == 0 && PendingDebug(EXAMPLE, 40, 1) == None;
    assert OffsetOf(EXAMPLE, 40, 2) == 160 && CodeBefore(EXAMPLE, 2) == 0 && PendingDebug(EXAMPLE, 40, 2) == None;
    hide Loads, OffsetOf, CodeBefore, PendingDebug;
    assert EntryIs(EXAMPLE_INDEX.entries[0], EXAMPLE_INDEX.addresses[0], EXAMPLE, 40, 0);
    assert EntryIs(EXAMPLE_INDEX.entries[1], EXAMPLE_INDEX.addresses[1], EXAMPLE, 40, 1);
    assert EntryIs(EXAMPLE_INDEX.entries[2], EXAMPLE_INDEX.addresses[2], EXAMPLE, 40, 2);
  }

  /** Bisection answers with an empty piece, and the lookup of the first byte of code finds nothing. */
  lemma EmptyCodeHidesNext()
    ensures FileOf(EXAMPLE_INDEX, EXAMPLE, 40)
    ensures EXAMPLE_INDEX.addresses[2] == 0 < EXAMPLE_INDEX.entries[2].codeLen
    ensures Bisect(EXAMPLE_INDEX.addresses, 0, 0, 3) == Ok(1)
    ensures HitFor(EXAMPLE_INDEX, EXAMPLE_INDEX.addresses, 0, Bisect(EXAMPLE_INDEX.addresses, 0, 0, 3)) == None
  {
    ExampleIndexed();
    hide FileOf;
  }
}
