/** Libraries and their pre-provided symbol tables (fxprof-processed-profile/src/library_info.rs). */
module Libraries {
  import opened Prelude
  import opened Search
  import opened Sorting

  datatype Symbol = Symbol(address: u32, size: Option<u32>, name: string)

  datatype SymbolTable = SymbolTable(symbols: seq<Symbol>) {
    ghost predicate Sorted() {
      KeysStrictlyAscending(symbols, AddressOf)
    }

    /** The symbol covering an address: the last one that starts at or before it, unless a known
        size says that it ends before. The end saturates at the largest u32. */
    function Lookup(address: u32): (r: Option<Symbol>)
      ensures r.Some? ==> r.value in symbols && r.value.address <= address
    {
      var i := LastAtOrBefore(Keys(symbols, AddressOf), address);
      if i < 0 then None else Clip(symbols[i], address)
    }
  }

  datatype LibraryInfo = LibraryInfo(
    name: string, debugName: string, path: string, debugPath: string, debugId: string,
    codeId: Option<string>, arch: Option<string>, symbolTable: Option<SymbolTable>)

  const AddressOf: Symbol -> int := (s: Symbol) => s.address

  function Clip(s: Symbol, address: u32): Option<Symbol> {
    if s.size.Some? && address >= Min(s.address + s.size.value, U32_LIMIT - 1) then None else Some(s)
  }

  predicate SizeLess(a: Option<u32>, b: Option<u32>) {
    b.Some? && (a.None? || a.value < b.value)
  }

  /** The derived order of `Symbol`: address, then size (an unknown size first), then name. */
  predicate SymbolLeq(a: Symbol, b: Symbol) {
    a.address < b.address
    || (a.address == b.address && (SizeLess(a.size, b.size) || (a.size == b.size && StringLeq(a.name, b.name))))
  }

  lemma SymbolLeqIsTotalPreorder()
    ensures TotalPreorder(SymbolLeq)
  {
    forall a: Symbol, b: Symbol
      ensures SymbolLeq(a, b) || SymbolLeq(b, a)
    {
      StringLeqTotal(a.name, b.name);
    }
    forall a: Symbol, b: Symbol, c: Symbol | SymbolLeq(a, b) && SymbolLeq(b, c)
      ensures SymbolLeq(a, c)
    {
      if StringLeq(a.name, b.name) && StringLeq(b.name, c.name) {
        StringLeqTransitive(a.name, b.name, c.name);
      }
    }
  }

  /** A naive scan over an unsorted list with duplicates: among the symbols starting at or before
      the address, the one that starts last, and of several there the least by size and name. */
  function Scan(raw: seq<Symbol>, address: u32): Option<Symbol> {
    if raw == [] then None
    else
      var rest := Scan(raw[1..], address);
      var s := raw[0];
      if s.address > address then rest
      else if rest.None? || rest.value.address < s.address
              || (rest.value.address == s.address && SymbolLeq(s, rest.value)) then Some(s)
      else rest
  }

  ghost predicate Best(raw: seq<Symbol>, address: u32, s: Symbol) {
    && s in raw && s.address <= address
    && forall t :: t in raw && t.address <= address ==>
         t.address < s.address || (t.address == s.address && SymbolLeq(s, t))
  }

  lemma {:induction false} ScanFindsBest(raw: seq<Symbol>, address: u32)
    ensures match Scan(raw, address)
            case Some(s) => Best(raw, address, s)
            case None => forall t :: t in raw ==> t.address > address
  {
    if raw != [] {
      ScanFindsBest(raw[1..], address);
      var s := raw[0];
      SymbolLeqIsTotalPreorder();
      assert SymbolLeq(s, s);
      var r := Scan(raw, address);
      if r.Some? {
        assert r.value in raw;
      }
      forall t | t in raw && t.address <= address
        ensures r.Some? && (t.address < r.value.address || (t.address == r.value.address && SymbolLeq(r.value, t)))
      {
        assert t == s || t in raw[1..];
      }
    }
  }

  lemma BestIsUnique(raw: seq<Symbol>, address: u32, s: Symbol, t: Symbol)
    requires Best(raw, address, s) && Best(raw, address, t)
    ensures s == t
  {
    StringLeqTotal(s.name, t.name);
  }

  function Build(raw: seq<Symbol>): SymbolTable {
    SymbolTable(DedupByKey(StableSort(raw, SymbolLeq), AddressOf))
  }

  /** `SymbolTable::new`: sort and deduplicate the vector. */
  method NewSymbolTable(raw: seq<Symbol>) returns (table: SymbolTable)
    ensures table == Build(raw) && table.Sorted()
  {
    var symbols := raw;
    symbols := StableSort(symbols, SymbolLeq);
    symbols := DedupByKey(symbols, AddressOf);
    BuildIsSorted(raw);
    return SymbolTable(symbols);
  }

  lemma BuildIsSorted(raw: seq<Symbol>)
    ensures KeysAscending(StableSort(raw, SymbolLeq), AddressOf)
    ensures Build(raw).Sorted()
  {
    SymbolLeqIsTotalPreorder();
    SortSorts(raw, SymbolLeq);
    DedupAscends(StableSort(raw, SymbolLeq), AddressOf);
  }

  /** Sorting, deduplicating and searching answer every query as the naive scan of the raw list does. */
  lemma LookupRefinesScan(raw: seq<Symbol>, address: u32)
    ensures Build(raw).Lookup(address) ==
            (match Scan(raw, address) case Some(s) => Clip(s, address) case None => None)
  {
    BuildIsSorted(raw);
    SymbolLeqIsTotalPreorder();
    var sorted := StableSort(raw, SymbolLeq);
    var symbols := Build(raw).symbols;
    var i := LastAtOrBefore(Keys(symbols, AddressOf), address);
    SortPermutes(raw, SymbolLeq);
    ScanFindsBest(raw, address);
    forall t | t in raw
      ensures exists j :: 0 <= j < |symbols| && symbols[j].address == t.address
    {
      var k :| 0 <= k < |sorted| && sorted[k] == t;
      DedupKeepsKeys(sorted, AddressOf, k);
      var j :| 0 <= j < |symbols| && AddressOf(symbols[j]) == t.address;
    }
    if i >= 0 {
      var s := symbols[i];
      DedupKeepsFirsts(sorted, AddressOf, i);
      SortSorts(raw, SymbolLeq);
      FirstIsBest(raw, sorted, symbols, i, address);
      BestIsUnique(raw, address, s, Scan(raw, address).value);
    }
  }

  /** Of the symbols at one address the first one is kept: unknown size first, then by size, then by name. */
  lemma FirstIsLeast(sorted: seq<Symbol>, s: Symbol, t: Symbol)
    requires SortedBy(sorted, SymbolLeq) && FirstWithKey(sorted, AddressOf, s)
    requires t in sorted && t.address == s.address
    ensures SymbolLeq(s, t)
  {
    var at :| 0 <= at < |sorted| && sorted[at] == s && forall j :: 0 <= j < at ==> AddressOf(sorted[j]) != AddressOf(s);
    var k :| 0 <= k < |sorted| && sorted[k] == t;
    assert AddressOf(sorted[k]) == AddressOf(s);
    StringLeqTotal(s.name, s.name);
  }

  lemma FirstIsBest(raw: seq<Symbol>, sorted: seq<Symbol>, symbols: seq<Symbol>, i: nat, address: u32)
    requires forall t :: t in sorted <==> t in raw
    requires SortedBy(sorted, SymbolLeq)
    requires forall t :: t in raw ==> exists j :: 0 <= j < |symbols| && symbols[j].address == t.address
    requires i < |symbols| && i == LastAtOrBefore(Keys(symbols, AddressOf), address)
    requires KeysStrictlyAscending(symbols, AddressOf)
    requires FirstWithKey(sorted, AddressOf, symbols[i])
    ensures Best(raw, address, symbols[i])
  {
    hide SortedBy, SymbolLeq;
    var s := symbols[i];
    assert s in sorted;
    assert forall k :: i < k < |symbols| ==> address < AddressOf(symbols[k]);
    forall t | t in raw && t.address <= address
      ensures t.address < s.address || (t.address == s.address && SymbolLeq(s, t))
    {
      var j :| 0 <= j < |symbols| && symbols[j].address == t.address;
      if j < i {
        assert AddressOf(symbols[j]) < AddressOf(symbols[i]);
      } else {
        FirstIsLeast(sorted, s, t);
      }
    }
  }

  // ----- what is found, said of the fields -----

  /** A symbol without a size covers everything behind its start; otherwise its end, which never exceeds the
      largest 32-bit number, is behind the address. */
  ghost predicate Covers(s: Symbol, address: u32) {
    s.size.Some? ==> address < s.address + s.size.value && address < 0xFFFF_FFFF
  }

  /** Of two symbols at one address: an unknown size before a known one, then the smaller size, then the name
      that comes first. */
  ghost predicate KeptOver(s: Symbol, t: Symbol) {
    match s.size
    case None => t.size.Some? || LexBefore(s.name, t.name)
    case Some(size) => t.size.Some? && (size < t.size.value || (size == t.size.value && LexBefore(s.name, t.name)))
  }

  /** The symbol starts at or before the address and no other one starts between; of those that start with it
      it is the one that is kept. */
  ghost predicate Nearest(raw: seq<Symbol>, address: u32, s: Symbol) {
    && s in raw && s.address <= address
    && forall t :: t in raw && t.address <= address ==>
         t.address < s.address || (t.address == s.address && KeptOver(s, t))
  }

  lemma BestIsNearest(raw: seq<Symbol>, address: u32, s: Symbol)
    ensures Best(raw, address, s) <==> Nearest(raw, address, s)
  {
    forall t: Symbol | t.address == s.address
      ensures SymbolLeq(s, t) <==> KeptOver(s, t)
    {
      StringLeqIsLexicographic(s.name, t.name);
    }
    hide LexBefore, StringLeq;
  }

  /** A lookup finds exactly the nearest symbol, and finds it exactly when that covers the address. */
  lemma LookupFindsIff(raw: seq<Symbol>, address: u32, s: Symbol)
    ensures Build(raw).Lookup(address) == Some(s) <==> Nearest(raw, address, s) && Covers(s, address)
  {
    LookupRefinesScan(raw, address);
    ScanFindsBest(raw, address);
    BestIsNearest(raw, address, s);
    var found := Scan(raw, address);
    hide Nearest, SymbolTable.Lookup, Build, SymbolLeq;
    if Best(raw, address, s) {
      BestIsUnique(raw, address, s, found.value);
    }
  }

  /** The symbol of a table that starts last at or before the address, if it covers it. */
  ghost predicate FoundIn(table: SymbolTable, address: u32, s: Symbol) {
    && s in table.symbols && s.address <= address && Covers(s, address)
    && forall t :: t in table.symbols && t.address <= address ==> t.address <= s.address
  }

  lemma TableLookupIff(table: SymbolTable, address: u32, s: Symbol)
    requires table.Sorted()
    ensures table.Lookup(address) == Some(s) <==> FoundIn(table, address, s)
  {
    var keys := Keys(table.symbols, AddressOf);
    var i := LastAtOrBefore(keys, address);
    assert forall k :: 0 <= k < |keys| ==> keys[k] == table.symbols[k].address;
    assert forall k, l :: 0 <= k < l < |keys| ==> AddressOf(table.symbols[k]) < AddressOf(table.symbols[l]);
    if i >= 0 {
      assert table.symbols[i] in table.symbols;
    }
  }

  /** `SymbolTable::lookup`, with the binary search it uses. */
  method Lookup(table: SymbolTable, address: u32) returns (r: Option<Symbol>)
    requires table.Sorted()
    ensures r == table.Lookup(address)
    ensures forall s :: r == Some(s) <==> FoundIn(table, address, s)
  {
    forall s
      ensures table.Lookup(address) == Some(s) <==> FoundIn(table, address, s)
    {
      TableLookupIff(table, address, s);
    }
    hide FoundIn;
    var keys := Keys(table.symbols, AddressOf);
    assert forall i :: 0 <= i < |keys| ==> keys[i] == AddressOf(table.symbols[i]);
    assert StrictlyAscending(keys);
    var answer := BinarySearch(keys, address);
    AnswerIsLastAtOrBefore(keys, address, answer);
    if answer.Err? && answer.error == 0 {
      return None;
    }
    var i := if answer.Ok? then answer.value else answer.error - 1;
    var symbol := table.symbols[i];
    match symbol.size {
      case Some(size) => r := if address < Min(symbol.address + size, U32_LIMIT - 1) then Some(symbol) else None;
      case None => r := Some(symbol);
    }
  }
}
