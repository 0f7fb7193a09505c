/** The symbol list of an object file: entries from sources of decreasing quality, reduced to one
    entry per address (samply-symbols/src/symbol_map_object.rs). */
module SymbolLists {
  import opened Prelude
  import opened Search
  import opened Sorting

  /** A symbol's name is missing when the object file's string table is damaged. */
  datatype Entry =
    | Synthesized
    | SynthesizedEntryPoint
    | Symbol(name: Option<string>)
    | Export(exportName: string)
    | EndAddress
  {
    function Name(address: u32): Option<string> {
      match this
      case EndAddress => None
      case Synthesized => Some("fun_" + HexDigits(address))
      case SynthesizedEntryPoint => Some("EntryPoint")
      case Symbol(name) => name
      case Export(name) => Some(name)
    }
  }

  datatype Listed = Listed(address: u32, entry: Entry)

  const AddressOf: Listed -> int := (l: Listed) => l.address

  predicate AddressLeq(a: Listed, b: Listed) {
    a.address <= b.address
  }

  datatype Found = Found(start: u32, end: u32, name: string)

  // ----- the naive answer: scans of the raw list -----

  /** The first-added entry among those with the greatest address not above the query; -1 if there is none. */
  function BestIndex(raw: seq<Listed>, address: u32): (i: int)
    ensures -1 <= i < |raw|
    ensures i < 0 ==> forall k :: 0 <= k < |raw| ==> raw[k].address > address
    ensures i >= 0 ==> raw[i].address <= address
    ensures i >= 0 ==> forall k :: 0 <= k < |raw| && raw[k].address <= address ==>
              raw[k].address < raw[i].address || (raw[k].address == raw[i].address && i <= k)
  {
    if raw == [] then -1
    else
      var last := |raw| - 1;
      var i := BestIndex(raw[..last], address);
      if raw[last].address <= address && (i < 0 || raw[i].address < raw[last].address) then last else i
  }

  /** The least address above the query. */
  function NextAddress(raw: seq<Listed>, address: u32): (r: Option<u32>)
    ensures r.Some? ==> r.value > address && exists k :: 0 <= k < |raw| && raw[k].address == r.value
    ensures forall k :: 0 <= k < |raw| && raw[k].address > address ==> r.Some? && r.value <= raw[k].address
  {
    if raw == [] then None
    else
      var last := |raw| - 1;
      var r := NextAddress(raw[..last], address);
      if raw[last].address > address && (r.None? || raw[last].address < r.value) then Some(raw[last].address) else r
  }

  /** What the list promises: the best entry, reaching to the next larger address; nothing in dead
      space behind an end address, nothing behind the last entry. */
  function NaiveLookup(raw: seq<Listed>, address: u32): (r: Option<Found>)
    ensures r.Some? ==> r.value.start <= address < r.value.end
  {
    var i := BestIndex(raw, address);
    if i < 0 then None
    else
      var end := NextAddress(raw, address);
      var name := raw[i].entry.Name(raw[i].address);
      if end.None? || name.None? then None else Some(Found(raw[i].address, end.value, name.value))
  }

  // ----- the list -----

  function Build(raw: seq<Listed>): seq<Listed> {
    DedupByKey(StableSort(raw, AddressLeq), AddressOf)
  }

  ghost predicate Sorted(entries: seq<Listed>) {
    KeysStrictlyAscending(entries, AddressOf)
  }

  function Lookup(entries: seq<Listed>, address: u32): Option<Found> {
    var i := LastAtOrBefore(Keys(entries, AddressOf), address);
    if i < 0 || i + 1 >= |entries| then None
    else
      match entries[i].entry.Name(entries[i].address)
      case Some(name) => Some(Found(entries[i].address, entries[i + 1].address, name))
      case None => None
  }

  lemma AddressLeqIsTotalPreorder()
    ensures TotalPreorder(AddressLeq)
  {
  }

  /** `SymbolList::new` after the entries were collected: sort and deduplicate the vector. */
  method NewSymbolList(raw: seq<Listed>) returns (entries: seq<Listed>)
    ensures entries == Build(raw) && Sorted(entries)
  {
    entries := raw;
    entries := StableSort(entries, AddressLeq);
    entries := DedupByKey(entries, AddressOf);
    BuildIsSorted(raw);
  }

  lemma BuildIsSorted(raw: seq<Listed>)
    ensures KeysAscending(StableSort(raw, AddressLeq), AddressOf)
    ensures Sorted(Build(raw))
  {
    AddressLeqIsTotalPreorder();
    SortSorts(raw, AddressLeq);
    DedupAscends(StableSort(raw, AddressLeq), AddressOf);
  }

  lemma {:induction false} FirstOfFilter<T>(s: seq<T>, p: T -> bool, i: nat)
    requires i < |s| && p(s[i]) && forall k :: 0 <= k < i ==> !p(s[k])
    ensures Filter(s, p) != [] && Filter(s, p)[0] == s[i]
  {
    if i > 0 {
      assert s[1..][i - 1] == s[i];
      FirstOfFilter(s[1..], p, i - 1);
    }
  }

  /** The list holds, for each address, the entry that was added first. */
  lemma KeepsFirstAdded(raw: seq<Listed>, j: nat, i: nat)
    requires j < |Build(raw)| && i < |raw| && raw[i].address == Build(raw)[j].address
    requires forall k :: 0 <= k < i ==> raw[k].address != raw[i].address
    ensures Build(raw)[j] == raw[i]
  {
    hide StableSort, DedupByKey, Filter;
    var sorted := StableSort(raw, AddressLeq);
    BuildIsSorted(raw);
    AddressLeqIsTotalPreorder();
    var at := DedupOrigin(sorted, AddressOf, j);
    var same := Tied(AddressLeq, raw[i]);
    forall k | 0 <= k < at
      ensures !same(sorted[k])
    {
      assert AddressOf(sorted[k]) <= AddressOf(sorted[at - 1]);
    }
    FirstOfFilter(sorted, same, at);
    FirstOfFilter(raw, same, i);
    SortStable(raw, AddressLeq, raw[i]);
  }

  /** Exactly the raw list's addresses are listed. */
  lemma SameAddresses(raw: seq<Listed>)
    ensures forall k :: 0 <= k < |raw| ==> HasKey(Build(raw), AddressOf, raw[k].address)
    ensures forall j :: 0 <= j < |Build(raw)| ==> exists k :: 0 <= k < |raw| && raw[k].address == Build(raw)[j].address
  {
    var sorted := StableSort(raw, AddressLeq);
    BuildIsSorted(raw);
    SortPermutes(raw, AddressLeq);
    forall k | 0 <= k < |raw|
      ensures HasKey(Build(raw), AddressOf, raw[k].address)
    {
      assert raw[k] in sorted;
      var at :| 0 <= at < |sorted| && sorted[at] == raw[k];
      DedupKeepsKeys(sorted, AddressOf, at);
    }
    forall j | 0 <= j < |Build(raw)|
      ensures exists k :: 0 <= k < |raw| && raw[k].address == Build(raw)[j].address
    {
      var at := DedupOrigin(sorted, AddressOf, j);
      assert sorted[at] in raw;
    }
  }

  /** The entry found is the best one of the raw list. */
  lemma FoundIsBest(raw: seq<Listed>, address: u32)
    ensures var entries, i := Build(raw), BestIndex(raw, address);
      var at := LastAtOrBefore(Keys(entries, AddressOf), address);
      (at < 0 <==> i < 0) && (at >= 0 ==> entries[at] == raw[i])
  {
    var entries, i := Build(raw), BestIndex(raw, address);
    var at := LastAtOrBefore(Keys(entries, AddressOf), address);
    SameAddresses(raw);
    BuildIsSorted(raw);
    hide Build, StableSort, DedupByKey, LastAtOrBefore, BestIndex, KeysAscending;
    if i >= 0 {
      var j :| 0 <= j < |entries| && AddressOf(entries[j]) == raw[i].address;
      assert Keys(entries, AddressOf)[j] <= address;
      assert at >= j;
    }
    if at >= 0 {
      assert Keys(entries, AddressOf)[at] == entries[at].address;
      var k :| 0 <= k < |raw| && raw[k].address == entries[at].address;
      var j :| 0 <= j < |entries| && AddressOf(entries[j]) == raw[i].address;
      KeepsFirstAdded(raw, at, i);
    }
  }

  /** The entry behind it is at the next larger address of the raw list. */
  lemma NextIsNext(raw: seq<Listed>, address: u32)
    ensures var entries := Build(raw);
      var at := LastAtOrBefore(Keys(entries, AddressOf), address);
      NextAddress(raw, address) == if at + 1 < |entries| then Some(entries[at + 1].address) else None
  {
    var entries, next := Build(raw), NextAddress(raw, address);
    var at := LastAtOrBefore(Keys(entries, AddressOf), address);
    SameAddresses(raw);
    BuildIsSorted(raw);
    hide Build, StableSort, DedupByKey, LastAtOrBefore, NextAddress, KeysAscending;
    if next.Some? {
      var k :| 0 <= k < |raw| && raw[k].address == next.value;
      var j :| 0 <= j < |entries| && AddressOf(entries[j]) == raw[k].address;
      assert Keys(entries, AddressOf)[j] > address;
      assert j > at;
    }
    if at + 1 < |entries| {
      assert Keys(entries, AddressOf)[at + 1] == entries[at + 1].address;
      var k :| 0 <= k < |raw| && raw[k].address == entries[at + 1].address;
    }
  }

  /** Sorting, deduplicating and searching answer every query as the scans of the raw list do. */
  lemma LookupRefinesScan(raw: seq<Listed>, address: u32)
    ensures Lookup(Build(raw), address) == NaiveLookup(raw, address)
  {
    FoundIsBest(raw, address);
    NextIsNext(raw, address);
  }

  // ----- what is found, said of the entries -----

  /** The name an entry at this address shows; an end address has none, and a symbol may have none. */
  ghost predicate Named(entry: Entry, address: u32, name: string) {
    match entry
    case Synthesized => |name| > 4 && name[..4] == "fun_" && Prints(name[4..], address, 16)
    case SynthesizedEntryPoint => name == "EntryPoint"
    case Symbol(own) => own == Some(name)
    case Export(own) => own == name
    case EndAddress => false
  }

  lemma NameIsShown(entry: Entry, address: u32, name: string)
    ensures entry.Name(address) == Some(name) <==> Named(entry, address, name)
  {
    HexDigitsPrint(address);
    assert ("fun_" + HexDigits(address))[4..] == HexDigits(address);
    if |name| > 4 && name[..4] == "fun_" && Prints(name[4..], address, 16) {
      HexIsUnique(name[4..], address);
      assert name == name[..4] + name[4..];
    }
  }

  /** Entry `i` is the first-added one at the greatest address not above this one. */
  ghost predicate Nearest(raw: seq<Listed>, address: u32, i: nat) {
    && i < |raw| && raw[i].address <= address
    && forall k :: 0 <= k < |raw| && raw[k].address <= address ==>
         raw[k].address < raw[i].address || (raw[k].address == raw[i].address && i <= k)
  }

  /** The next address behind this one at which there is an entry of any kind. */
  ghost predicate NextListed(raw: seq<Listed>, address: u32, next: u32) {
    && address < next && (exists k :: 0 <= k < |raw| && raw[k].address == next)
    && forall k :: 0 <= k < |raw| && raw[k].address > address ==> next <= raw[k].address
  }

  ghost predicate Answers(raw: seq<Listed>, address: u32, f: Found) {
    exists i: nat :: Nearest(raw, address, i) && f.start == raw[i].address && Named(raw[i].entry, f.start, f.name)
      && NextListed(raw, address, f.end)
  }

  lemma NearestIsBest(raw: seq<Listed>, address: u32, i: nat)
    ensures Nearest(raw, address, i) <==> BestIndex(raw, address) == i
  {
    hide BestIndex;
  }

  lemma NextListedIsNext(raw: seq<Listed>, address: u32, next: u32)
    ensures NextListed(raw, address, next) <==> NextAddress(raw, address) == Some(next)
  {
    hide NextAddress;
  }

  /** A lookup answers with exactly what the raw entries say. */
  lemma LookupFindsIff(raw: seq<Listed>, address: u32, f: Found)
    ensures Lookup(Build(raw), address) == Some(f) <==> Answers(raw, address, f)
  {
    LookupRefinesScan(raw, address);
    NextListedIsNext(raw, address, f.end);
    var best := BestIndex(raw, address);
    if best >= 0 {
      NearestIsBest(raw, address, best);
      NameIsShown(raw[best].entry, raw[best].address, f.name);
    }
    forall i: nat | Nearest(raw, address, i)
      ensures i == best
    {
      NearestIsBest(raw, address, i);
    }
    hide Lookup, Build, Nearest, NextListed, Named, Entry.Name;
  }

  /** An answer holds for the whole range it names. */
  lemma AnswerCoversItsRange(raw: seq<Listed>, address: u32, other: u32)
    requires Lookup(Build(raw), address).Some?
    requires var f := Lookup(Build(raw), address).value; f.start <= other < f.end
    ensures Lookup(Build(raw), other) == Lookup(Build(raw), address)
  {
    LookupRefinesScan(raw, address);
    LookupRefinesScan(raw, other);
    var f := NaiveLookup(raw, address).value;
    var i, k := BestIndex(raw, address), BestIndex(raw, other);
    assert raw[i].address == f.start;
    assert raw[k].address <= address;
  }

  /** A source can only add to what better sources said, never change it: entries added later are
      ignored at addresses already taken. */
  lemma LaterSourcesDoNotOverride(raw: seq<Listed>, later: seq<Listed>, address: u32)
    requires forall l :: l in later ==> exists k :: 0 <= k < |raw| && raw[k].address == l.address
    ensures Lookup(Build(raw + later), address) == Lookup(Build(raw), address)
  {
    LookupRefinesScan(raw, address);
    LookupRefinesScan(raw + later, address);
    var all := raw + later;
    hide Build, Lookup, BestIndex, NextAddress;
    forall k | 0 <= k < |all|
      ensures exists j :: 0 <= j < |raw| && j <= k && raw[j].address == all[k].address
    {
      if k < |raw| {
        assert raw[k].address == all[k].address;
      } else {
        assert all[k] in later;
      }
    }
    var i, i' := BestIndex(raw, address), BestIndex(all, address);
    var n, n' := NextAddress(raw, address), NextAddress(all, address);
    if i >= 0 {
      assert all[i] == raw[i];
    }
    if i' >= 0 {
      var j :| 0 <= j < |raw| && j <= i' && raw[j].address == all[i'].address;
      assert all[j] == raw[j];
    }
    if n.Some? {
      var k :| 0 <= k < |raw| && raw[k].address == n.value;
      assert all[k] == raw[k];
    }
    if n'.Some? {
      var k :| 0 <= k < |all| && all[k].address == n'.value;
      var j :| 0 <= j < |raw| && j <= k && raw[j].address == all[k].address;
    }
  }

  /** `lookup_relative_address`, with the binary search it uses. */
  method LookupRelativeAddress(entries: seq<Listed>, address: u32) returns (r: Option<Found>)
    requires Sorted(entries)
    ensures r == Lookup(entries, address)
  {
    var keys := Keys(entries, AddressOf);
    assert forall i :: 0 <= i < |keys| ==> keys[i] == AddressOf(entries[i]);
    assert StrictlyAscending(keys);
    var answer := BinarySearch(keys, address);
    AnswerIsLastAtOrBefore(keys, address, answer);
    if answer.Err? && answer.error == 0 {
      return None;
    }
    var index := if answer.Ok? then answer.value else answer.error - 1;
    var start, entry := entries[index].address, entries[index].entry;
    if index + 1 >= |entries| {
      return None;
    }
    var end := entries[index + 1].address;
    if entry.EndAddress? {
      return None;
    }
    var name := entry.Name(start);
    return if name.Some? then Some(Found(start, end, name.value)) else None;
  }
}
