/** Which symbol a frame shows: the one its library's symbol table had for its address when the frame was
    first seen on the thread. */
module FirstSight {
  import opened CallStacks
  import opened FrameTables
  import opened GlobalLibs
  import opened Libraries
  import opened NativeSymbolTables
  import opened Prelude
  import opened Search
  import opened StringTables

  /** The symbol a used library has for an address. */
  ghost function Found(libs: Libs, lib: nat, a: u32): Option<Symbol> {
    if lib < |libs.usedLibs| && libs.usedLibs[lib] < |libs.allLibs| && libs.allLibs[libs.usedLibs[lib]].symbolTable.Some?
    then libs.allLibs[libs.usedLibs[lib]].symbolTable.value.Lookup(a)
    else None
  }

  /** Symbol tables are sorted, as their constructor leaves them. */
  ghost predicate TablesSorted(libs: Libs) {
    forall i :: 0 <= i < |libs.allLibs| && libs.allLibs[i].symbolTable.Some? ==> libs.allLibs[i].symbolTable.value.Sorted()
  }

  /** No library is added or gets another symbol table. */
  ghost predicate SameTables(libs: Libs, libs': Libs) {
    libs'.allLibs == libs.allLibs && libs.usedLibs <= libs'.usedLibs
  }

  lemma LookupOfFound(table: SymbolTable, a: u32, s: Symbol)
    requires table.Sorted() && table.Lookup(a) == Some(s)
    ensures table.Lookup(s.address) == Some(s)
  {
    var keys := Sorting.Keys(table.symbols, AddressOf);
    var i, j := LastAtOrBefore(keys, a), LastAtOrBefore(keys, s.address);
    assert keys[i] == s.address && StrictlyAscending(keys);
    assert i <= j && keys[j] <= keys[i];
  }

  lemma FoundAtOwnAddress(libs: Libs, lib: nat, a: u32, s: Symbol)
    requires TablesSorted(libs) && Found(libs, lib, a) == Some(s)
    ensures Found(libs, lib, s.address) == Some(s)
  {
    LookupOfFound(libs.GetLib(lib).value.symbolTable.value, a, s);
  }

  function NameAndSize(symbol: Symbol): (string, Option<u32>) {
    (symbol.name, symbol.size)
  }

  /** The native symbols a thread gained since `t0` carry the name and the size of the symbol at their address. */
  ghost predicate NewSymbolsNamed(t0: Tables, t: Tables, libs: Libs) {
    forall e :: e in t.natives.index && e !in t0.natives.index ==>
      && e.0 < |libs.usedLibs| && Found(libs, e.0, e.1).Some?
      && t.Recorded(e) == Some(NameAndSize(Found(libs, e.0, e.1).value))
  }

  ghost function TextOf(t: Tables, r: nat): Option<string> {
    if r < |t.frames.funcs| && t.frames.funcs[r] < |t.funcs.names|
       && t.funcs.names[t.frames.funcs[r]] < |t.strings.table.strings|
    then Some(t.strings.table.strings[t.funcs.names[t.frames.funcs[r]]])
    else None
  }

  /** Without a symbol the row is named in hex and has no native symbol. With one it has the native symbol of
      the library at the symbol's address, and the name and function size of that: the symbol's, or those
      recorded there before. */
  ghost predicate ShowsFound(t0: Tables, t: Tables, found: Option<Symbol>, a: u32, lib: nat, r: nat)
    requires t.frames.SameLengths() && t.natives.SameLengths()
  {
    && r < |t.frames.funcs|
    && match found
       case None => t.frames.nativeSymbols[r] == None && TextOf(t, r).Some? && ShowsHex(TextOf(t, r).value, a)
       case Some(symbol) =>
         var e := (lib, symbol.address);
         && t.frames.nativeSymbols[r].Some? && t.frames.nativeSymbols[r].value < |t.natives.names|
         && t.natives.libs[t.frames.nativeSymbols[r].value] == lib
         && t.natives.addresses[t.frames.nativeSymbols[r].value] == symbol.address
         && TextOf(t, r).Some?
         && Some((TextOf(t, r).value, t.natives.sizes[t.frames.nativeSymbols[r].value]))
            == (if e in t0.natives.index then t0.Recorded(e) else Some(NameAndSize(symbol)))
  }

  ghost predicate KeyShows(t0: Tables, t: Tables, libs: Libs, k: InternalFrame)
    requires t.frames.SameLengths() && t.natives.SameLengths() && k in t.frames.index && k.location.AddressInLib?
  {
    && k.location.lib < |libs.usedLibs|
    && ShowsFound(t0, t, Found(libs, k.location.lib, k.location.relative), k.location.relative, k.location.lib, t.frames.index[k])
  }

  /** Every row and native symbol that is new since `t0` shows the symbol found. */
  ghost predicate NewRowsShow(t0: Tables, t: Tables, libs: Libs)
    requires t.frames.SameLengths() && t.natives.SameLengths()
  {
    && NewSymbolsNamed(t0, t, libs)
    && forall k :: k in t.frames.index && k !in t0.frames.index && k.location.AddressInLib? ==> KeyShows(t0, t, libs, k)
  }

  lemma NativeIndexStable(t: Tables, t': Tables, strings: nat, libs: nat, strings': nat, libs': nat, e: SymbolKey)
    requires t.natives.Coherent(strings, libs) && t'.natives.Coherent(strings', libs')
    requires NativeSymbolTables.Grew(t.natives, t'.natives) && e in t.natives.index
    ensures e in t'.natives.index && t'.natives.index[e] == t.natives.index[e]
  {
    var n := t.natives.index[e];
    assert t.natives.Rows()[n] == e;
    assert t'.natives.Rows()[n] == e;
  }

  /** Recorded names and sizes stay. */
  lemma RecordedStays(t: Tables, texts: Strings, libs: Libs, t': Tables, texts': Strings, libs': Libs, e: SymbolKey)
    requires t.Coherent(texts, libs) && t'.Coherent(texts', libs') && TablesGrew(t, t') && e in t.natives.index
    ensures e in t'.natives.index && t'.natives.index[e] == t.natives.index[e]
    ensures t.Recorded(e).Some? && t'.Recorded(e) == t.Recorded(e)
  {
    NativeIndexStable(t, t', |t.strings.table.strings|, |libs.usedLibs|, |t'.strings.table.strings|, |libs'.usedLibs|, e);
    assert t.natives.Rows()[t.natives.index[e]] == e;
    assert t.natives.names[t.natives.index[e]] < |t.strings.table.strings|;
  }

  lemma RowTextStable(t: Tables, texts: Strings, libs: Libs, t': Tables, r: nat)
    requires t.Coherent(texts, libs) && TablesGrew(t, t') && r < |t.frames.funcs|
    ensures TextOf(t', r) == TextOf(t, r) && TextOf(t, r).Some?
  {
    assert t.RowOk(r);
  }

  lemma ShowsStable(t0: Tables, t: Tables, texts: Strings, libs: Libs, t': Tables, found: Option<Symbol>, a: u32, lib: nat, r: nat)
    requires t.Coherent(texts, libs) && TablesGrew(t, t') && t'.frames.SameLengths() && t'.natives.SameLengths()
    requires ShowsFound(t0, t, found, a, lib, r)
    ensures ShowsFound(t0, t', found, a, lib, r)
  {
    RowTextStable(t, texts, libs, t', r);
    hide TextOf, HexLabel, Tables.Coherent;
  }

  // ----- interning one frame -----

  lemma FoundStable(libs: Libs, libs': Libs, lib: nat, a: u32)
    requires SameTables(libs, libs') && lib < |libs.usedLibs|
    ensures Found(libs', lib, a) == Found(libs, lib, a)
  {
    assert libs'.usedLibs[lib] == libs.usedLibs[lib];
  }

  /** What was new before shows the same in bigger tables. */
  lemma NewRowsStay(t0: Tables, t: Tables, texts: Strings, libs: Libs, t': Tables, libs': Libs)
    requires t.Coherent(texts, libs) && t'.Coherent(texts, libs') && TablesGrew(t, t') && SameTables(libs, libs')
    requires NewRowsShow(t0, t, libs)
    ensures forall k :: k in t.frames.index && k !in t0.frames.index && k.location.AddressInLib? ==> KeyShows(t0, t', libs', k)
    ensures forall e :: e in t.natives.index && e !in t0.natives.index ==>
      && e.0 < |libs'.usedLibs| && Found(libs', e.0, e.1).Some? && e in t'.natives.index
      && t'.Recorded(e) == Some(NameAndSize(Found(libs', e.0, e.1).value))
  {
    hide Tables.Coherent, Found, ShowsFound;
    assert t.frames.SameLengths() && t.natives.SameLengths() by { SameLengthsOf(t, texts, libs); }
    assert t'.frames.SameLengths() && t'.natives.SameLengths() by { SameLengthsOf(t', texts, libs'); }
    forall k | k in t.frames.index && k !in t0.frames.index && k.location.AddressInLib?
      ensures KeyShows(t0, t', libs', k)
    {
      assert KeyShows(t0, t, libs, k);
      FoundStable(libs, libs', k.location.lib, k.location.relative);
      ShowsStable(t0, t, texts, libs, t', Found(libs, k.location.lib, k.location.relative), k.location.relative,
                  k.location.lib, t.frames.index[k]);
    }
    forall e | e in t.natives.index && e !in t0.natives.index
      ensures e.0 < |libs'.usedLibs| && Found(libs', e.0, e.1).Some? && e in t'.natives.index
      ensures t'.Recorded(e) == Some(NameAndSize(Found(libs', e.0, e.1).value))
    {
      RecordedStays(t, texts, libs, t', texts, libs', e);
      FoundStable(libs, libs', e.0, e.1);
    }
  }

  lemma SameLengthsOf(t: Tables, texts: Strings, libs: Libs)
    requires t.Coherent(texts, libs)
    ensures t.frames.SameLengths() && t.natives.SameLengths()
  {
  }

  /** Only the symbol found is added to the native symbols. */
  lemma DescribeAddsFound(t: Tables, libs: Libs, location: Location)
    requires t.Usable(libs) && Callable(libs, location)
    ensures var t1 := Describe(t, libs, location).0;
      forall e :: e in t1.natives.index && e !in t.natives.index ==>
        && location.AddressInLib? && Found(libs, location.lib, location.relative).Some?
        && e == (location.lib, Found(libs, location.lib, location.relative).value.address)
    ensures SameTables(libs, Describe(t, libs, location).1)
  {
  }

  /** The new row of a frame in a library that has no symbol for its address. */
  lemma NewRowWithoutSymbol(t0: Tables, t: Tables, libs: Libs, texts: Strings, frame: InternalFrame)
    requires t.Coherent(texts, libs) && t.Usable(libs) && libs.Coherent() && Known(t, libs, frame.location)
    requires ForFrame(t, libs, frame).0.Fits() && frame !in t.frames.index && frame.location.AddressInLib?
    requires Found(libs, frame.location.lib, frame.location.relative) == None
    ensures var (t', _, row) := ForFrame(t, libs, frame);
      && t'.frames.SameLengths() && t'.natives.SameLengths()
      && ShowsFound(t0, t', None, frame.location.relative, frame.location.lib, row)
  {
    hide ShowsHex, HexLabel, Found, Describe, ForFrame;
    var a := frame.location.relative;
    var (t', libs', row) := ForFrame(t, libs, frame);
    HexLabelReads(HexLabel(a), a);
    UndescribedSymbol(t, libs, frame);
    ForFrameCoherent(t, libs, texts, frame);
    NewRowCarriesDescription(t, libs, texts, frame);
    KeyOfNewRow(t', libs', texts, frame, row);
  }

  lemma UndescribedSymbol(t: Tables, libs: Libs, frame: InternalFrame)
    requires t.Usable(libs) && libs.Coherent() && Callable(libs, frame.location) && frame.location.AddressInLib?
    requires Found(libs, frame.location.lib, frame.location.relative) == None
    requires frame !in t.frames.index
    ensures Describe(t, libs, frame.location).2.native == None
    ensures var (t', _, row) := ForFrame(t, libs, frame); frame in t'.frames.index && t'.frames.index[frame] == row
  {
    DescribeFuncs(t, libs, frame.location);
  }

  lemma KeyOfNewRow(t: Tables, libs: Libs, texts: Strings, frame: InternalFrame, row: nat)
    requires t.Coherent(texts, libs) && frame in t.frames.index && t.frames.index[frame] == row && frame.location.AddressInLib?
    ensures row < |t.frames.nativeSymbols| == |t.frames.funcs| && t.frames.funcs[row] < |t.funcs.names|
    ensures t.frames.nativeSymbols[row] == None ==> TextOf(t, row) == Some(HexLabel(frame.location.relative))
  {
    assert t.KeyOk(frame);
  }

  /** The name a symbolicated address is described with. */
  lemma DescribedName(t0: Tables, texts0: Strings, libs0: Libs, t: Tables, libs: Libs, texts: Strings, a: u32, lib: nat, symbol: Symbol)
    requires t.Coherent(texts, libs) && t.Usable(libs) && libs.Coherent() && Known(t, libs, AddressInLib(a, lib))
    requires t0.Coherent(texts0, libs0) && TablesGrew(t0, t) && NewSymbolsNamed(t0, t, libs) && TablesSorted(libs)
    requires Describe(t, libs, AddressInLib(a, lib)).0.Fits() && Found(libs, lib, a) == Some(symbol)
    ensures var (t1, _, d) := Describe(t, libs, AddressInLib(a, lib));
      var e := (lib, symbol.address);
      && d.native.Some? && d.native.value < |t1.natives.names| && t1.natives.SameLengths()
      && t1.natives.libs[d.native.value] == lib && t1.natives.addresses[d.native.value] == symbol.address
      && d.name < |t1.strings.table.strings|
      && Some((t1.strings.table.strings[d.name], t1.natives.sizes[d.native.value]))
         == (if e in t0.natives.index then t0.Recorded(e) else Some(NameAndSize(symbol)))
  {
    var e := (lib, symbol.address);
    FoundAtOwnAddress(libs, lib, a, symbol);
    DescribeNamesSymbol(t, libs, texts, a, lib, symbol);
    if e in t0.natives.index {
      RecordedStays(t0, texts0, libs0, t, texts, libs, e);
      RecordedReused(t, libs, texts, a, lib, symbol);
    }
    hide Describe, Tables.Coherent, Tables.Usable, Tables.Fits, TablesSorted, TablesGrew;
  }

  lemma RecordedReused(t: Tables, libs: Libs, texts: Strings, a: u32, lib: nat, symbol: Symbol)
    requires t.Coherent(texts, libs) && t.Usable(libs) && libs.Coherent() && Known(t, libs, AddressInLib(a, lib))
    requires SymbolFor(libs, lib, a) == Some(symbol) && (lib, symbol.address) in t.natives.index
    ensures var (t1, _, d) := Describe(t, libs, AddressInLib(a, lib));
      && d.name < |t1.strings.table.strings| && d.native.Some? && d.native.value < |t1.natives.sizes|
      && t.Recorded((lib, symbol.address)) == Some((t1.strings.table.strings[d.name], t1.natives.sizes[d.native.value]))
  {
    NamesStayInside(t, texts, libs, (lib, symbol.address));
    hide Tables.Coherent, SymbolTable.Lookup;
  }

  /** The new row of a frame in a library that has a symbol for its address. */
  lemma NewRowWithSymbol(t0: Tables, texts0: Strings, libs0: Libs, t: Tables, libs: Libs, texts: Strings, frame: InternalFrame, symbol: Symbol)
    requires t.Coherent(texts, libs) && t.Usable(libs) && libs.Coherent() && Known(t, libs, frame.location)
    requires t0.Coherent(texts0, libs0) && TablesGrew(t0, t) && NewSymbolsNamed(t0, t, libs) && TablesSorted(libs)
    requires ForFrame(t, libs, frame).0.Fits() && frame !in t.frames.index && frame.location.AddressInLib?
    requires Found(libs, frame.location.lib, frame.location.relative) == Some(symbol)
    ensures var (t', _, row) := ForFrame(t, libs, frame);
      && t'.frames.SameLengths() && t'.natives.SameLengths()
      && ShowsFound(t0, t', Some(symbol), frame.location.relative, frame.location.lib, row)
  {
    hide Describe, Tables.Coherent, Tables.Usable, TablesSorted, TablesGrew, NewSymbolsNamed, Tables.Recorded, Found;
    DescribedName(t0, texts0, libs0, t, libs, texts, frame.location.relative, frame.location.lib, symbol);
    NewRowCarriesDescription(t, libs, texts, frame);
    ForFrameCoherent(t, libs, texts, frame);
    SameLengthsOf(ForFrame(t, libs, frame).0, texts, ForFrame(t, libs, frame).1);
  }

  /** The symbols a frame adds are named as found. */
  lemma AddedSymbolNamed(t: Tables, libs: Libs, texts: Strings, frame: InternalFrame, e: SymbolKey)
    requires t.Coherent(texts, libs) && t.Usable(libs) && libs.Coherent() && Known(t, libs, frame.location) && TablesSorted(libs)
    requires ForFrame(t, libs, frame).0.Fits() && frame !in t.frames.index
    requires var t' := ForFrame(t, libs, frame).0; e in t'.natives.index && e !in t.natives.index
    ensures var (t', libs', _) := ForFrame(t, libs, frame);
      && e.0 < |libs'.usedLibs| && Found(libs', e.0, e.1).Some? && t'.Recorded(e) == Some(NameAndSize(Found(libs', e.0, e.1).value))
  {
    DescribeAddsFound(t, libs, frame.location);
    var (t', libs', _) := ForFrame(t, libs, frame);
    var a, lib := frame.location.relative, frame.location.lib;
    var symbol := Found(libs, lib, a).value;
    FoundAtOwnAddress(libs, lib, a, symbol);
    DescribeNamesSymbol(t, libs, texts, a, lib, symbol);
    FoundStable(libs, libs', lib, symbol.address);
    ForFrameCoherent(t, libs, texts, frame);
    NamesStayInside(t', texts, libs', e);
    NamedOnce(t', texts, libs', e, Describe(t, libs, frame.location).2.native.value);
  }

  /** The native symbol of a library at an address is the indexed one. */
  lemma NamedOnce(t: Tables, texts: Strings, libs: Libs, e: SymbolKey, n: nat)
    requires t.Coherent(texts, libs) && e in t.natives.index && n < |t.natives.names|
    requires t.natives.libs[n] == e.0 && t.natives.addresses[n] == e.1
    ensures t.natives.index[e] == n
  {
    assert t.natives.Rows()[n] == e;
  }

  lemma NewRowShowsFound(t0: Tables, texts0: Strings, libs0: Libs, t: Tables, libs: Libs, texts: Strings, frame: InternalFrame)
    requires t.Coherent(texts, libs) && t.Usable(libs) && libs.Coherent() && Known(t, libs, frame.location)
    requires t0.Coherent(texts0, libs0) && TablesGrew(t0, t) && NewSymbolsNamed(t0, t, libs) && TablesSorted(libs)
    requires ForFrame(t, libs, frame).0.Fits() && frame !in t.frames.index && frame.location.AddressInLib?
    ensures var (t', libs', _) := ForFrame(t, libs, frame);
      && t'.frames.SameLengths() && t'.natives.SameLengths() && frame in t'.frames.index && KeyShows(t0, t', libs', frame)
  {
    hide Tables.Coherent, Describe, ShowsFound, Found, NewSymbolsNamed, Tables.Fits, TablesGrew, TablesSorted;
    var a, lib := frame.location.relative, frame.location.lib;
    DescribeAddsFound(t, libs, frame.location);
    var found := Found(libs, lib, a);
    if found.Some? {
      NewRowWithSymbol(t0, texts0, libs0, t, libs, texts, frame, found.value);
    } else {
      NewRowWithoutSymbol(t0, t, libs, texts, frame);
    }
    var (t', libs', row) := ForFrame(t, libs, frame);
    FoundStable(libs, libs', lib, a);
    TablesStay(t, libs, texts, frame);
  }

  lemma AddedSymbolsNamed(t: Tables, libs: Libs, texts: Strings, frame: InternalFrame)
    requires t.Coherent(texts, libs) && t.Usable(libs) && libs.Coherent() && Known(t, libs, frame.location) && TablesSorted(libs)
    requires ForFrame(t, libs, frame).0.Fits() && frame !in t.frames.index
    ensures var (t', libs', _) := ForFrame(t, libs, frame);
      NewSymbolsNamed(t, t', libs')
  {
    hide Describe, ForFrame, Tables.Coherent, Tables.Usable, Tables.Fits, Found, TablesSorted, NewSymbolsNamed, Tables.Recorded;
    var (t', libs', _) := ForFrame(t, libs, frame);
    forall e | e in t'.natives.index && e !in t.natives.index
      ensures e.0 < |libs'.usedLibs| && Found(libs', e.0, e.1).Some? && t'.Recorded(e) == Some(NameAndSize(Found(libs', e.0, e.1).value))
    {
      AddedSymbolNamed(t, libs, texts, frame, e);
    }
    NamedForAll(t, t', libs');
  }

  lemma NamedForAll(t0: Tables, t: Tables, libs: Libs)
    requires forall e :: e in t.natives.index && e !in t0.natives.index ==>
      && e.0 < |libs.usedLibs| && Found(libs, e.0, e.1).Some?
      && t.Recorded(e) == Some(NameAndSize(Found(libs, e.0, e.1).value))
    ensures NewSymbolsNamed(t0, t, libs)
  {
  }

  lemma ShowsTogether(t0: Tables, t: Tables, t': Tables, libs': Libs, frame: InternalFrame)
    requires t'.frames.SameLengths() && t'.natives.SameLengths() && NewSymbolsNamed(t, t', libs')
    requires frame in t'.frames.index && t'.frames.index.Keys == t.frames.index.Keys + {frame}
    requires forall k :: k in t.frames.index && k !in t0.frames.index && k.location.AddressInLib? ==> KeyShows(t0, t', libs', k)
    requires frame.location.AddressInLib? ==> KeyShows(t0, t', libs', frame)
    requires forall e :: e in t.natives.index && e !in t0.natives.index ==>
      && e.0 < |libs'.usedLibs| && Found(libs', e.0, e.1).Some? && e in t'.natives.index
      && t'.Recorded(e) == Some(NameAndSize(Found(libs', e.0, e.1).value))
    ensures NewRowsShow(t0, t', libs')
  {
    hide KeyShows, Found, Tables.Recorded;
  }

  /** Interning a frame keeps showing what was found for everything new. */
  lemma ForFrameShows(t0: Tables, texts0: Strings, libs0: Libs, t: Tables, libs: Libs, texts: Strings, frame: InternalFrame)
    requires t.Coherent(texts, libs) && t.Usable(libs) && libs.Coherent() && Known(t, libs, frame.location)
    requires t0.Coherent(texts0, libs0) && TablesGrew(t0, t) && NewRowsShow(t0, t, libs) && TablesSorted(libs)
    requires ForFrame(t, libs, frame).0.Fits()
    ensures var (t', libs', _) := ForFrame(t, libs, frame);
      t'.frames.SameLengths() && t'.natives.SameLengths() && NewRowsShow(t0, t', libs') && SameTables(libs, libs')
  {
    hide Describe, Tables.Coherent, KeyShows, Found, TablesGrew, TablesSorted, Tables.Fits, Tables.Recorded, NewSymbolsNamed,
      Tables.Usable, Libs.Coherent, Frames.Push;
    SameLengthsOf(t, texts, libs);
    if frame !in t.frames.index {
      var (t', libs', _) := ForFrame(t, libs, frame);
      ForFrameCoherent(t, libs, texts, frame);
      SameLengthsOf(t', texts, libs');
      TablesStay(t, libs, texts, frame);
      NewRowsStay(t0, t, texts, libs, t', libs');
      if frame.location.AddressInLib? {
        NewRowShowsFound(t0, texts0, libs0, t, libs, texts, frame);
      }
      AddedSymbolsNamed(t, libs, texts, frame);
      ShowsTogether(t0, t, t', libs', frame);
    }
  }

  lemma TablesStay(t: Tables, libs: Libs, texts: Strings, frame: InternalFrame)
    requires t.Coherent(texts, libs) && t.Usable(libs) && Callable(libs, frame.location) && frame !in t.frames.index
    ensures var (t', libs', row) := ForFrame(t, libs, frame);
      SameTables(libs, libs') && t'.frames.index == t.frames.index[frame := row]
      && t'.frames.index.Keys == t.frames.index.Keys + {frame}
  {
    DescribeAddsFound(t, libs, frame.location);
    DescribeFuncs(t, libs, frame.location);
  }

  // ----- pushing call stacks -----

  lemma ResolveShows(t0: Tables, w: Work, scope: Scope, frame: Frame)
    requires w.Coherent(scope.texts) && scope.Valid(w.libs) && Issued(frame, w.libs, scope.texts)
    requires Resolve(w.tables, w.libs, scope, frame).0.Fits() && NewRowsShow(t0, w.tables, w.libs)
    ensures var (t, libs, _) := Resolve(w.tables, w.libs, scope, frame);
      && t.frames.SameLengths() && t.natives.SameLengths() && NewRowsShow(t0, t, libs) && SameTables(w.libs, libs)
  {
    var (t, libs, _) := Resolve(w.tables, w.libs, scope, frame);
    ResolveReady(w, scope, frame);
    ResolvePlaces(w, scope, frame);
    hide Resolve, Tables.Coherent, KeyShows, Found, TablesGrew;
    NewRowsStay(t0, w.tables, scope.texts, w.libs, t, libs);
  }

  lemma SortedStays(libs: Libs, libs': Libs)
    requires TablesSorted(libs) && libs'.allLibs == libs.allLibs
    ensures TablesSorted(libs')
  {
  }

  lemma PushFrameShows(t0: Tables, texts0: Strings, libs0: Libs, w: Work, prefix: Option<nat>, scope: Scope, info: FrameInfo)
    requires w.Coherent(scope.texts) && scope.Valid(w.libs) && Issued(info.frame, w.libs, scope.texts)
    requires t0.Coherent(texts0, libs0) && TablesGrew(t0, w.tables) && NewRowsShow(t0, w.tables, w.libs) && TablesSorted(w.libs)
    requires PushFrame(w, prefix, scope, info).0.tables.Fits()
    ensures var w' := PushFrame(w, prefix, scope, info).0;
      && w'.tables.frames.SameLengths() && w'.tables.natives.SameLengths() && NewRowsShow(t0, w'.tables, w'.libs)
      && SameTables(w.libs, w'.libs)
  {
    hide Resolve, ForFrame, Tables.Coherent, TablesGrew, NewRowsShow, TablesSorted, MeaningOf, Known;
    var (t, libs, location) := Resolve(w.tables, w.libs, scope, info.frame);
    var key := InternalFrame(location, info.pair, info.flags);
    ResolveReady(w, scope, info.frame);
    ForFrameNoSmaller(t, libs, key);
    ResolvePlaces(w, scope, info.frame);
    ResolveShows(t0, w, scope, info.frame);
    SortedStays(w.libs, libs);
    TablesGrewTransitive(t0, w.tables, t);
    ForFrameShows(t0, texts0, libs0, t, libs, scope.texts, key);
  }

  lemma {:induction false} PushFramesShow(w: Work, scope: Scope, infos: seq<FrameInfo>)
    requires w.Coherent(scope.texts) && scope.Valid(w.libs) && AllIssued(infos, w.libs, scope.texts) && TablesSorted(w.libs)
    requires PushFrames(w, scope, infos).0.tables.Fits()
    ensures var w' := PushFrames(w, scope, infos).0;
      && w'.tables.frames.SameLengths() && w'.tables.natives.SameLengths() && NewRowsShow(w.tables, w'.tables, w'.libs)
      && SameTables(w.libs, w'.libs)
  {
    hide PushFrame, TablesGrew, Tables.Coherent, KeyShows;
    SameLengthsOf(w.tables, scope.texts, w.libs);
    if infos != [] {
      var before, info := infos[..|infos| - 1], infos[|infos| - 1];
      PushFramesNoSmaller(w, scope, infos);
      PushFramesRoundTrip(w, scope, before);
      PushFramesShow(w, scope, before);
      var (w1, prefix) := PushFrames(w, scope, before);
      SortedStays(w.libs, w1.libs);
      PushFrameShows(w.tables, scope.texts, w.libs, w1, prefix, scope, info);
    }
  }
}
