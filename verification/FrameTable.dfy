/** The frames of a thread and the tables one new frame fans out to
    (fxprof-processed-profile/src/frame_table.rs). */
module FrameTables {
  import opened Categories
  import opened FuncTables
  import opened GlobalLibs
  import opened Interning
  import opened Libraries
  import opened NativeSymbolTables
  import opened Prelude
  import opened ResourceTables
  import opened StringTables

  datatype Location =
    | UnknownAddress(address: u64)
    | AddressInLib(relative: u32, lib: nat)
    | Label(name: u32)

  datatype InternalFrame = InternalFrame(location: Location, pair: CategoryPair, flags: FrameFlags)

  /** The contents of a `FrameTable`. */
  datatype Frames = Frames(
    addresses: seq<Option<u32>>, categories: seq<nat>, subcategories: seq<Subcategory>,
    funcs: seq<u32>, nativeSymbols: seq<Option<u32>>, index: map<InternalFrame, nat>)
  {
    ghost predicate SameLengths() {
      |addresses| == |categories| == |subcategories| == |funcs| == |nativeSymbols|
    }

    /** Frames and rows correspond one to one. */
    ghost predicate OneKeyPerRow() {
      && (forall k, l :: k in index && l in index && index[k] == index[l] ==> k == l)
      && (forall r :: 0 <= r < |funcs| ==> HasKey(r))
    }

    ghost predicate HasKey(r: nat) {
      exists k :: k in index && index[k] == r
    }

    function Push(frame: InternalFrame, d: Description, f: u32): Frames {
      Frames(addresses + [d.address], categories + [frame.pair.category],
             subcategories + [SubcategoryOf(frame.pair)], funcs + [f], nativeSymbols + [d.native],
             index[frame := |addresses|])
    }
  }

  const NoFrames := Frames([], [], [], [], [], map[])

  /** What a location contributes to its row. */
  datatype Description = Description(address: Option<u32>, name: u32, native: Option<u32>, resource: Option<u32>)

  /** The tables of one thread that interning a frame can extend. */
  datatype Tables = Tables(
    strings: ThreadStrings, resources: Resources, funcs: Funcs, natives: Natives, frames: Frames)
  {
    /** Enough to run the operations without a panic. */
    ghost predicate Usable(libs: Libs) {
      && |libs.seenRvas| == |libs.usedLibs|
      && natives.Usable()
    }

    /** Every table is numbered one-to-one, all its indexes stay inside the tables they point to,
        and the columns of each row agree with one another. */
    ghost predicate Coherent(texts: Strings, libs: Libs) {
      && strings.Coherent(texts)
      && resources.Coherent(libs, strings.table.strings)
      && funcs.Coherent(|strings.table.strings|, |resources.libs|)
      && natives.Coherent(|strings.table.strings|, |libs.usedLibs|)
      && frames.SameLengths()
      && (forall r :: 0 <= r < |frames.funcs| ==> RowOk(r))
      && (forall k :: k in frames.index ==> KeyOk(k))
      && frames.OneKeyPerRow()
    }

    /** The library a frame row belongs to, by way of its function and resource. */
    ghost function LibOf(r: nat): Option<nat>
      requires r < |frames.funcs|
    {
      if frames.funcs[r] < |funcs.resources| && funcs.resources[frames.funcs[r]].Some?
         && funcs.resources[frames.funcs[r]].value < |resources.libs|
      then Some(resources.libs[funcs.resources[frames.funcs[r]].value])
      else None
    }

    /** A row has an address exactly when it belongs to a library; a row with a native symbol has
        that symbol's library and name. */
    ghost predicate RowOk(r: nat)
      requires frames.SameLengths() && natives.SameLengths() && |funcs.names| == |funcs.resources|
      requires r < |frames.funcs|
    {
      && frames.funcs[r] < |funcs.names|
      && (frames.addresses[r].Some? <==> LibOf(r).Some?)
      && (frames.nativeSymbols[r].Some? ==>
           var n := frames.nativeSymbols[r].value;
           && n < |natives.names|
           && LibOf(r) == Some(natives.libs[n])
           && funcs.names[frames.funcs[r]] == natives.names[n])
    }

    /** The row of a frame shows the frame: address, library, category pair, flags and name. */
    ghost predicate KeyOk(k: InternalFrame)
      requires frames.SameLengths() && natives.SameLengths()
      requires |funcs.names| == |funcs.resources| == |funcs.flags|
      requires k in frames.index
    {
      var r := frames.index[k];
      && r < |frames.funcs| && frames.funcs[r] < |funcs.names|
      && frames.categories[r] == k.pair.category && frames.subcategories[r] == SubcategoryOf(k.pair)
      && funcs.flags[frames.funcs[r]] == k.flags
      && NameShows(k.location, funcs.names[frames.funcs[r]], frames.nativeSymbols[r])
      && (match k.location
          case AddressInLib(a, lib) => frames.addresses[r] == Some(a) && LibOf(r) == Some(lib)
          case _ => frames.addresses[r] == None && LibOf(r) == None && frames.nativeSymbols[r] == None)
    }

    /** A label is its own name; an address is named after the symbol found for it, or printed in hex. */
    ghost predicate NameShows(location: Location, name: u32, native: Option<u32>)
      requires natives.SameLengths()
    {
      match location
      case Label(text) => name == text
      case UnknownAddress(a) => name < |strings.table.strings| && strings.table.strings[name] == HexLabel(a)
      case AddressInLib(a, lib) =>
        if native.Some? then
          && native.value < |natives.names| && name == natives.names[native.value]
          && natives.libs[native.value] == lib
          && natives.addresses[native.value] <= a
        else name < |strings.table.strings| && strings.table.strings[name] == HexLabel(a)
    }

    /** Row `r` is an unsymbolicated address in a library. */
    ghost predicate Plain(r: nat, lib: nat, a: u32)
      requires frames.SameLengths()
    {
      r < |frames.funcs| && frames.nativeSymbols[r] == None && LibOf(r) == Some(lib) && frames.addresses[r] == Some(a)
    }

    ghost predicate Sees(lib: nat, a: u32)
      requires frames.SameLengths()
    {
      exists r :: Plain(r, lib, a)
    }

    /** The name and the function size recorded for a symbol of a library. */
    ghost function Recorded(key: SymbolKey): Option<(string, Option<u32>)>
      requires key in natives.index
    {
      var n := natives.index[key];
      if n < |natives.names| == |natives.sizes| && natives.names[n] < |strings.table.strings|
      then Some((strings.table.strings[natives.names[n]], natives.sizes[n]))
      else None
    }

    /** All 32-bit indexes are still exact. */
    ghost predicate Fits() {
      && |strings.table.strings| <= U32_LIMIT && |resources.libs| <= U32_LIMIT
      && |funcs.names| <= U32_LIMIT && |natives.names| <= U32_LIMIT
    }
  }

  const NoTables := Tables(NoThreadStrings, NoResources, NoFuncs, NoNatives, NoFrames)

  ghost predicate TablesGrew(before: Tables, after: Tables) {
    && before.strings.table.strings <= after.strings.table.strings
    && (forall g :: g in before.strings.converted ==>
         g in after.strings.converted && after.strings.converted[g] == before.strings.converted[g])
    && before.resources.libs <= after.resources.libs
    && before.funcs.names <= after.funcs.names
    && before.funcs.resources <= after.funcs.resources
    && before.funcs.flags <= after.funcs.flags
    && NativeSymbolTables.Grew(before.natives, after.natives)
    && FramesGrew(before.frames, after.frames)
  }

  ghost predicate FramesGrew(before: Frames, after: Frames) {
    && before.addresses <= after.addresses && before.categories <= after.categories
    && before.subcategories <= after.subcategories
    && before.funcs <= after.funcs && before.nativeSymbols <= after.nativeSymbols
    && (forall k :: k in before.index ==> k in after.index && after.index[k] == before.index[k])
  }

  /** A location's library has to be a used one. */
  ghost predicate Callable(libs: Libs, location: Location) {
    location.AddressInLib? ==> location.lib < |libs.usedLibs| && libs.GetLib(location.lib).Some?
  }

  /** In addition its label names a string of the thread. */
  ghost predicate Known(t: Tables, libs: Libs, location: Location) {
    && Callable(libs, location)
    && (location.Label? ==> location.name < |t.strings.table.strings|)
  }

  function SymbolFor(libs: Libs, lib: nat, address: u32): Option<Symbol>
    requires libs.GetLib(lib).Some?
  {
    match libs.GetLib(lib).value.symbolTable
    case Some(table) => table.Lookup(address)
    case None => None
  }

  function Describe(t: Tables, libs: Libs, location: Location): (r: (Tables, Libs, Description))
    requires t.Usable(libs) && Callable(libs, location)
    ensures r.0.Usable(r.1)
  {
    match location
    case UnknownAddress(address) =>
      var (strings, name) := t.strings.Intern(HexLabel(address));
      (t.(strings := strings), libs, Description(None, name, None, None))
    case AddressInLib(address, lib) =>
      var (resources, strings, resource) := t.resources.ForLib(lib, libs, t.strings);
      (match SymbolFor(libs, lib, address)
       case Some(symbol) =>
         var (natives, strings', native, name) := t.natives.ForSymbol(lib, symbol, strings);
         (t.(strings := strings', resources := resources, natives := natives), libs,
          Description(Some(address), name, Some(native), Some(resource)))
       case None =>
         var (strings', name) := strings.Intern(HexLabel(address));
         (t.(strings := strings', resources := resources), libs.AddRva(lib, address),
          Description(Some(address), name, None, Some(resource))))
    case Label(name) => (t, libs, Description(None, name, None, None))
  }

  function ForFrame(t: Tables, libs: Libs, frame: InternalFrame): (r: (Tables, Libs, nat))
    requires t.Usable(libs) && Callable(libs, frame.location)
    ensures r.0.Usable(r.1)
  {
    if frame in t.frames.index then (t, libs, t.frames.index[frame])
    else
      var (t1, libs1, d) := Describe(t, libs, frame.location);
      var (funcs, f) := t1.funcs.ForFunc(d.name, d.resource, frame.flags);
      (t1.(funcs := funcs, frames := t1.frames.Push(frame, d, f)), libs1, |t.frames.addresses|)
  }

  /** The sizes that have to stay within 32 bits only go up. */
  ghost predicate NoSmaller(t: Tables, t': Tables) {
    && |t.strings.table.strings| <= |t'.strings.table.strings| && |t.resources.libs| <= |t'.resources.libs|
    && |t.funcs.names| <= |t'.funcs.names| && |t.natives.names| <= |t'.natives.names|
  }

  /** Describing a location at most records its address. */
  lemma DescribeLibs(t: Tables, libs: Libs, location: Location)
    requires t.Usable(libs) && Callable(libs, location)
    ensures var libs' := Describe(t, libs, location).1;
      libs' == libs || (location.AddressInLib? && libs' == libs.AddRva(location.lib, location.relative))
  {
    hide Natives.ForSymbol, Resources.ForLib, ThreadStrings.Intern, SymbolFor, HexLabel;
  }

  lemma ForFrameNoSmaller(t: Tables, libs: Libs, frame: InternalFrame)
    requires t.Usable(libs) && Callable(libs, frame.location)
    ensures NoSmaller(t, ForFrame(t, libs, frame).0)
  {
    if frame !in t.frames.index {
      assert NoSmaller(t, Describe(t, libs, frame.location).0);
    }
  }

  // ----- coherence -----

  lemma LibOfStable(t: Tables, t': Tables, r: nat)
    requires r < |t.frames.funcs| && t.frames.funcs[r] < |t.funcs.names| == |t.funcs.resources|
    requires t.funcs.Coherent(|t.strings.table.strings|, |t.resources.libs|)
    requires t.resources.libs <= t'.resources.libs && t.funcs.resources <= t'.funcs.resources
    requires t.frames.funcs <= t'.frames.funcs
    ensures t'.LibOf(r) == t.LibOf(r)
  {
    var f := t.frames.funcs[r];
    assert t'.funcs.resources[f] == t.funcs.resources[f];
  }

  /** Rows and keys keep what they say while the tables around them grow. */
  lemma RowsStable(t: Tables, t': Tables, texts: Strings, libs: Libs)
    requires t.Coherent(texts, libs) && TablesGrew(t, t') && t'.frames.SameLengths()
    requires t'.natives.SameLengths() && |t'.funcs.names| == |t'.funcs.resources| == |t'.funcs.flags|
    ensures forall r :: 0 <= r < |t.frames.funcs| ==> t'.RowOk(r)
    ensures forall k :: k in t.frames.index ==> t'.KeyOk(k) && t'.frames.index[k] < |t.frames.funcs|
  {
    forall r | 0 <= r < |t.frames.funcs|
      ensures t'.RowOk(r) && t'.LibOf(r) == t.LibOf(r)
    {
      assert t.RowOk(r);
      LibOfStable(t, t', r);
    }
    forall k | k in t.frames.index
      ensures t'.KeyOk(k) && t'.frames.index[k] < |t.frames.funcs|
    {
      assert t.KeyOk(k);
      assert t.RowOk(t.frames.index[k]);
    }
  }

  /** What a description says fits the location it was made from. */
  ghost predicate Fitting(t: Tables, location: Location, d: Description)
    requires t.natives.SameLengths()
  {
    && d.name < |t.strings.table.strings|
    && t.NameShows(location, d.name, d.native)
    && (match location
        case AddressInLib(a, lib) =>
          && d.address == Some(a)
          && d.resource.Some? && d.resource.value < |t.resources.libs| && t.resources.libs[d.resource.value] == lib
        case _ => d.address == None && d.resource == None && d.native == None)
  }

  /** The resource for the library, then room in the native symbols for the grown strings. */
  lemma LibDescribed(t: Tables, libs: Libs, texts: Strings, lib: nat)
    requires t.Coherent(texts, libs) && libs.Coherent() && lib < |libs.usedLibs| && libs.GetLib(lib).Some?
    requires var (resources, strings, _) := t.resources.ForLib(lib, libs, t.strings);
      |strings.table.strings| <= U32_LIMIT && |resources.libs| <= U32_LIMIT
    ensures var (resources, strings, resource) := t.resources.ForLib(lib, libs, t.strings);
      && strings.Coherent(texts) && t.strings.table.strings <= strings.table.strings
      && (forall g :: g in t.strings.converted ==> g in strings.converted && strings.converted[g] == t.strings.converted[g])
      && resources.Coherent(libs, strings.table.strings) && t.resources.libs <= resources.libs
      && resource < |resources.libs| && resources.libs[resource] == lib
      && t.natives.Coherent(|strings.table.strings|, |libs.usedLibs|)
  {
    ForLibCoherent(t.resources, lib, libs, t.strings, texts);
    var strings := t.resources.ForLib(lib, libs, t.strings).1;
    NativeSymbolTables.CoherentUnderGrowth(t.natives, |t.strings.table.strings|, |libs.usedLibs|,
                                           |strings.table.strings|, |libs.usedLibs|);
  }

  /** Describing only appends, to strings, resources, native symbols and address sets. */
  lemma DescribeGrows(t: Tables, libs: Libs, location: Location)
    requires t.Usable(libs) && libs.Coherent() && Callable(libs, location)
    ensures var (t1, libs1, _) := Describe(t, libs, location);
      && t1.frames == t.frames && t1.funcs == t.funcs && TablesGrew(t, t1)
      && libs1.Coherent() && GlobalLibs.Grew(libs, libs1)
  {
    hide HexLabel, SymbolTable.Lookup, Frames.OneKeyPerRow, Tables.RowOk, Tables.KeyOk;
  }

  lemma DescribeSymbolCoherent(t: Tables, libs: Libs, texts: Strings, a: u32, lib: nat, symbol: Symbol)
    requires t.Coherent(texts, libs) && t.Usable(libs) && libs.Coherent() && Known(t, libs, AddressInLib(a, lib))
    requires Describe(t, libs, AddressInLib(a, lib)).0.Fits() && SymbolFor(libs, lib, a) == Some(symbol)
    ensures var (t1, libs1, d) := Describe(t, libs, AddressInLib(a, lib));
      && t1.strings.Coherent(texts) && t1.resources.Coherent(libs1, t1.strings.table.strings)
      && t1.natives.Coherent(|t1.strings.table.strings|, |libs1.usedLibs|)
      && Fitting(t1, AddressInLib(a, lib), d)
  {
    hide Frames.OneKeyPerRow, Tables.RowOk, Tables.KeyOk, HexLabel;
    var (t1, libs1, d) := Describe(t, libs, AddressInLib(a, lib));
    var (resources, strings, resource) := t.resources.ForLib(lib, libs, t.strings);
    InternOnlyGrows(strings, symbol.name);
    LibDescribed(t, libs, texts, lib);
    hide Tables.Coherent, Resources.ForLib;
    ForSymbolCoherent(t.natives, lib, symbol, strings, texts, |libs.usedLibs|);
    ResourceTables.CoherentUnderGrowth(resources, libs, strings.table.strings, libs1, t1.strings.table.strings);
    hide Natives.Coherent, Resources.Coherent, ThreadStrings.Coherent;
  }

  lemma DescribeHexCoherent(t: Tables, libs: Libs, texts: Strings, a: u32, lib: nat)
    requires t.Coherent(texts, libs) && t.Usable(libs) && libs.Coherent() && Known(t, libs, AddressInLib(a, lib))
    requires Describe(t, libs, AddressInLib(a, lib)).0.Fits() && SymbolFor(libs, lib, a) == None
    ensures var (t1, libs1, d) := Describe(t, libs, AddressInLib(a, lib));
      && t1.strings.Coherent(texts) && t1.resources.Coherent(libs1, t1.strings.table.strings)
      && t1.natives.Coherent(|t1.strings.table.strings|, |libs1.usedLibs|)
      && Fitting(t1, AddressInLib(a, lib), d)
  {
    var (t1, libs1, d) := Describe(t, libs, AddressInLib(a, lib));
    var (resources, strings, resource) := t.resources.ForLib(lib, libs, t.strings);
    InternOnlyGrows(strings, HexLabel(a));
    LibDescribed(t, libs, texts, lib);
    hide Tables.Coherent, Resources.ForLib, HexLabel;
    ThreadInternCoherent(strings, HexLabel(a), texts);
    NativeSymbolTables.CoherentUnderGrowth(t.natives, |strings.table.strings|, |libs.usedLibs|,
                                           |t1.strings.table.strings|, |libs1.usedLibs|);
    ResourceTables.CoherentUnderGrowth(resources, libs, strings.table.strings, libs1, t1.strings.table.strings);
    hide Natives.Coherent, Resources.Coherent, ThreadStrings.Coherent;
  }

  lemma InternOnlyGrows(strings: ThreadStrings, s: string)
    ensures strings.table.strings <= strings.Intern(s).0.table.strings
  {
  }

  lemma DescribeOtherCoherent(t: Tables, libs: Libs, texts: Strings, location: Location)
    requires t.Coherent(texts, libs) && t.Usable(libs) && libs.Coherent() && Known(t, libs, location)
    requires Describe(t, libs, location).0.Fits() && !location.AddressInLib?
    ensures var (t1, libs1, d) := Describe(t, libs, location);
      && t1.strings.Coherent(texts) && t1.resources.Coherent(libs1, t1.strings.table.strings)
      && t1.natives.Coherent(|t1.strings.table.strings|, |libs1.usedLibs|)
      && Fitting(t1, location, d)
  {
    hide Frames.OneKeyPerRow, Tables.RowOk, Tables.KeyOk, HexLabel;
    if location.UnknownAddress? {
      var (t1, libs1, d) := Describe(t, libs, location);
      ThreadInternCoherent(t.strings, HexLabel(location.address), texts);
      ResourceTables.CoherentUnderGrowth(t.resources, libs, t.strings.table.strings, libs1, t1.strings.table.strings);
      NativeSymbolTables.CoherentUnderGrowth(t.natives, |t.strings.table.strings|, |libs.usedLibs|,
                                             |t1.strings.table.strings|, |libs1.usedLibs|);
    }
  }

  lemma DescribePartsCoherent(t: Tables, libs: Libs, texts: Strings, location: Location)
    requires t.Coherent(texts, libs) && t.Usable(libs) && libs.Coherent() && Known(t, libs, location)
    requires Describe(t, libs, location).0.Fits()
    ensures var (t1, libs1, d) := Describe(t, libs, location);
      && t1.strings.Coherent(texts) && t1.resources.Coherent(libs1, t1.strings.table.strings)
      && t1.natives.Coherent(|t1.strings.table.strings|, |libs1.usedLibs|)
      && Fitting(t1, location, d)
  {
    hide Tables.Coherent, Describe, Fitting, Tables.Fits, Tables.Usable, Libs.Coherent, Known;
    match location {
      case AddressInLib(a, lib) =>
        LibIsUsed(t, libs, a, lib);
        var symbol := SymbolFor(libs, lib, a);
        hide SymbolFor;
        if symbol.Some? {
          DescribeSymbolCoherent(t, libs, texts, a, lib, symbol.value);
        } else {
          DescribeHexCoherent(t, libs, texts, a, lib);
        }
      case _ => DescribeOtherCoherent(t, libs, texts, location);
    }
  }

  lemma LibIsUsed(t: Tables, libs: Libs, a: u32, lib: nat)
    requires Known(t, libs, AddressInLib(a, lib))
    ensures libs.GetLib(lib).Some?
  {
  }

  lemma DescribeCoherent(t: Tables, libs: Libs, texts: Strings, location: Location)
    requires t.Coherent(texts, libs) && t.Usable(libs) && libs.Coherent() && Known(t, libs, location)
    requires Describe(t, libs, location).0.Fits()
    ensures var (t1, libs1, d) := Describe(t, libs, location);
      && t1.frames == t.frames && t1.funcs == t.funcs && TablesGrew(t, t1)
      && t1.Coherent(texts, libs1)
      && libs1.Coherent() && GlobalLibs.Grew(libs, libs1)
      && Fitting(t1, location, d)
  {
    hide Describe, Fitting, Frames.OneKeyPerRow, Tables.RowOk, Tables.KeyOk, Resources.Coherent, ThreadStrings.Coherent,
      Libs.Coherent;
    var (t1, libs1, d) := Describe(t, libs, location);
    DescribeGrows(t, libs, location);
    DescribePartsCoherent(t, libs, texts, location);
    FuncTables.CoherentUnderGrowth(t.funcs, |t.strings.table.strings|, |t.resources.libs|,
                                   |t1.strings.table.strings|, |t1.resources.libs|);
    RowsStable(t, t1, texts, libs);
  }

  /** The row pushed for a described frame makes the tables show the new frame and all earlier ones. */
  lemma PushCoherent(t: Tables, texts: Strings, libs: Libs, frame: InternalFrame, d: Description)
    requires t.Coherent(texts, libs) && frame !in t.frames.index && Fitting(t, frame.location, d)
    requires |t.funcs.ForFunc(d.name, d.resource, frame.flags).0.names| <= U32_LIMIT
    ensures var (funcs, f) := t.funcs.ForFunc(d.name, d.resource, frame.flags);
      var t' := t.(funcs := funcs, frames := t.frames.Push(frame, d, f));
      t'.Coherent(texts, libs) && TablesGrew(t, t')
  {
    hide Tables.RowOk, Tables.KeyOk, Frames.OneKeyPerRow;
    var (funcs, f) := t.funcs.ForFunc(d.name, d.resource, frame.flags);
    var t' := t.(funcs := funcs, frames := t.frames.Push(frame, d, f));
    ForFuncCoherent(t.funcs, d.name, d.resource, frame.flags, |t.strings.table.strings|, |t.resources.libs|);
    RowsStable(t, t', texts, libs);
    NewRowOk(t, texts, libs, frame, d);
    PushKeepsOneKeyPerRow(t.frames, t'.frames, frame);
    hide Resources.Coherent, Natives.Coherent, ThreadStrings.Coherent, Funcs.Coherent, Fitting;
  }

  lemma PushKeepsOneKeyPerRow(t: Frames, t': Frames, frame: InternalFrame)
    requires t.OneKeyPerRow() && frame !in t.index && t.SameLengths() && t'.SameLengths()
    requires forall k :: k in t.index ==> t.index[k] < |t.addresses|
    requires t'.index == t.index[frame := |t.addresses|] && |t'.addresses| == |t.addresses| + 1
    ensures t'.OneKeyPerRow()
  {
    forall r: nat | r < |t'.funcs|
      ensures t'.HasKey(r)
    {
      if r < |t.funcs| {
        assert t.HasKey(r);
        var k :| k in t.index && t.index[k] == r;
        assert k in t'.index && t'.index[k] == r;
      } else {
        assert frame in t'.index && t'.index[frame] == r;
      }
    }
  }

  lemma NewRowOk(t: Tables, texts: Strings, libs: Libs, frame: InternalFrame, d: Description)
    requires t.Coherent(texts, libs) && frame !in t.frames.index && Fitting(t, frame.location, d)
    requires |t.funcs.ForFunc(d.name, d.resource, frame.flags).0.names| <= U32_LIMIT
    ensures var (funcs, f) := t.funcs.ForFunc(d.name, d.resource, frame.flags);
      var t' := t.(funcs := funcs, frames := t.frames.Push(frame, d, f));
      var n := |t.frames.funcs|;
      && t'.natives.SameLengths() && t'.frames.SameLengths()
      && |t'.funcs.names| == |t'.funcs.resources| == |t'.funcs.flags|
      && t'.RowOk(n) && t'.frames.index[frame] == n && t'.KeyOk(frame)
      && t'.LibOf(n) == (if frame.location.AddressInLib? then Some(frame.location.lib) else None)
  {
    ForFuncCoherent(t.funcs, d.name, d.resource, frame.flags, |t.strings.table.strings|, |t.resources.libs|);
    assert t.natives.SameLengths();
    hide Tables.Coherent, Natives.Coherent, Resources.Coherent, ThreadStrings.Coherent;
    var (funcs, f) := t.funcs.ForFunc(d.name, d.resource, frame.flags);
    assert funcs.Row(f) == (d.name, d.resource, frame.flags);
  }

  /** Interning a frame keeps every table coherent, only appends, and returns the row that shows the frame. */
  lemma ForFrameCoherent(t: Tables, libs: Libs, texts: Strings, frame: InternalFrame)
    requires t.Coherent(texts, libs) && t.Usable(libs) && libs.Coherent() && Known(t, libs, frame.location)
    requires ForFrame(t, libs, frame).0.Fits()
    ensures var (t', libs', i) := ForFrame(t, libs, frame);
      && t'.Coherent(texts, libs') && t'.Usable(libs') && TablesGrew(t, t')
      && libs'.Coherent() && GlobalLibs.Grew(libs, libs')
      && i < |t'.frames.funcs| && frame in t'.frames.index && t'.frames.index[frame] == i
  {
    if frame in t.frames.index {
      assert t.KeyOk(frame);
    } else {
      var (t1, libs1, d) := Describe(t, libs, frame.location);
      assert t1.funcs.names <= t1.funcs.ForFunc(d.name, d.resource, frame.flags).0.names;
      DescribeFuncs(t, libs, frame.location);
      DescribeCoherent(t, libs, texts, frame.location);
      PushCoherent(t1, texts, libs1, frame, d);
    }
  }

  lemma DescribeFuncs(t: Tables, libs: Libs, location: Location)
    requires t.Usable(libs) && Callable(libs, location)
    ensures Describe(t, libs, location).0.funcs == t.funcs
    ensures Describe(t, libs, location).0.frames == t.frames
  {
  }

  /** The native symbol and the name for an address that has a symbol: the native symbol of that library
      at the symbol's address. The name is the symbol's exactly when no symbol of another name was recorded
      there before, as can happen when a symbol table is replaced. */
  lemma DescribeNamesSymbol(t: Tables, libs: Libs, texts: Strings, a: u32, lib: nat, symbol: Symbol)
    requires t.Coherent(texts, libs) && t.Usable(libs) && libs.Coherent() && Known(t, libs, AddressInLib(a, lib))
    requires Describe(t, libs, AddressInLib(a, lib)).0.Fits() && SymbolFor(libs, lib, a) == Some(symbol)
    ensures var (t1, _, d) := Describe(t, libs, AddressInLib(a, lib));
      var earlier := (lib, symbol.address);
      && d.native.Some? && d.native.value < |t1.natives.names| && t1.natives.SameLengths()
      && t1.natives.libs[d.native.value] == lib && t1.natives.addresses[d.native.value] == symbol.address
      && t1.natives.names[d.native.value] == d.name < |t1.strings.table.strings|
      && (earlier in t.natives.index ==> d.native.value == t.natives.index[earlier])
      && (t1.strings.table.strings[d.name] == symbol.name <==>
           (earlier in t.natives.index ==> t.Recorded(earlier).Some? && t.Recorded(earlier).value.0 == symbol.name))
      && t1.natives.sizes[d.native.value]
         == (if earlier in t.natives.index then t.natives.sizes[t.natives.index[earlier]] else symbol.size)
  {
    hide HexLabel, SymbolTable.Lookup, Frames.OneKeyPerRow, Tables.RowOk, Tables.KeyOk;
    var (resources, strings, resource) := t.resources.ForLib(lib, libs, t.strings);
    InternOnlyGrows(strings, symbol.name);
    LibDescribed(t, libs, texts, lib);
    NamedAfterSymbol(t.natives, lib, symbol, strings, texts, |libs.usedLibs|);
    NamesStayInside(t, texts, libs, (lib, symbol.address));
    hide Tables.Coherent, Resources.ForLib, Natives.Coherent, Resources.Coherent, ThreadStrings.Coherent;
  }

  lemma NamesStayInside(t: Tables, texts: Strings, libs: Libs, key: SymbolKey)
    requires t.Coherent(texts, libs)
    ensures key in t.natives.index ==>
      var n := t.natives.index[key];
      n < |t.natives.names| && t.natives.names[n] < |t.strings.table.strings| && t.natives.libs[n] == key.0 && t.natives.addresses[n] == key.1
  {
    if key in t.natives.index {
      assert t.natives.Rows()[t.natives.index[key]] == key;
    }
  }

  /** A new frame's row carries the native symbol and the name it was described with. */
  lemma NewRowCarriesDescription(t: Tables, libs: Libs, texts: Strings, frame: InternalFrame)
    requires t.Coherent(texts, libs) && t.Usable(libs) && libs.Coherent() && Known(t, libs, frame.location)
    requires ForFrame(t, libs, frame).0.Fits() && frame !in t.frames.index
    ensures var (t1, libs1, d) := Describe(t, libs, frame.location);
      var (t', libs', row) := ForFrame(t, libs, frame);
      && libs' == libs1 && t'.natives == t1.natives && t'.strings == t1.strings
      && row < |t'.frames.nativeSymbols| == |t'.frames.funcs| && t'.frames.nativeSymbols[row] == d.native
      && t'.frames.funcs[row] < |t'.funcs.names| && t'.funcs.names[t'.frames.funcs[row]] == d.name
  {
    var (t1, libs1, d) := Describe(t, libs, frame.location);
    assert t1.funcs.names <= t1.funcs.ForFunc(d.name, d.resource, frame.flags).0.names;
    DescribeFuncs(t, libs, frame.location);
    DescribeCoherent(t, libs, texts, frame.location);
    ForFuncCoherent(t1.funcs, d.name, d.resource, frame.flags, |t1.strings.table.strings|, |t1.resources.libs|);
    var (funcs, f) := t1.funcs.ForFunc(d.name, d.resource, frame.flags);
    assert funcs.Row(f).0 == d.name;
    hide Resources.Coherent, Natives.Coherent, ThreadStrings.Coherent, Describe;
  }

  lemma NamedAfterSymbol(t: Natives, lib: nat, symbol: Symbol, strings: ThreadStrings, texts: Strings, libCount: nat)
    requires strings.Coherent(texts) && t.Coherent(|strings.table.strings|, libCount) && lib < libCount
    requires var (t', s', _, _) := t.ForSymbol(lib, symbol, strings);
      |t'.names| <= U32_LIMIT && |s'.table.strings| <= U32_LIMIT
    ensures var (t', s', n, name) := t.ForSymbol(lib, symbol, strings);
      && n < |t'.names| && t'.names[n] == name < |s'.table.strings|
      && ((lib, symbol.address) in t.index ==> n == t.index[(lib, symbol.address)] && t'.names == t.names && s' == strings)
      && ((lib, symbol.address) !in t.index ==> s'.table.strings[name] == symbol.name)
  {
    ForSymbolCoherent(t, lib, symbol, strings, texts, libCount);
    if (lib, symbol.address) !in t.index {
      ThreadInternCoherent(strings, symbol.name, texts);
    }
  }

  // ----- rows that look alike -----

  /** The columns of two rows agree. */
  ghost predicate LookAlike(t: Tables, r: nat, s: nat)
    requires t.frames.SameLengths() && r < |t.frames.funcs| && s < |t.frames.funcs|
  {
    && t.frames.addresses[r] == t.frames.addresses[s] && t.frames.categories[r] == t.frames.categories[s]
    && t.frames.subcategories[r] == t.frames.subcategories[s] && t.frames.funcs[r] == t.frames.funcs[s]
    && t.frames.nativeSymbols[r] == t.frames.nativeSymbols[s]
  }

  /** A label whose text is the hex label of the other frame's unmapped address. */
  ghost predicate LabelsAddress(t: Tables, k: InternalFrame, l: InternalFrame) {
    && k.location.Label? && l.location.UnknownAddress? && k.pair == l.pair && k.flags == l.flags
    && k.location.name < |t.strings.table.strings|
    && t.strings.table.strings[k.location.name] == HexLabel(l.location.address)
  }

  lemma SameFunc(t: Tables, texts: Strings, libs: Libs, k: InternalFrame, l: InternalFrame)
    requires t.Coherent(texts, libs) && k in t.frames.index && l in t.frames.index && LabelsAddress(t, k, l)
    ensures t.KeyOk(k) && t.KeyOk(l) && t.frames.funcs[t.frames.index[k]] == t.frames.funcs[t.frames.index[l]]
  {
    assert t.KeyOk(k) && t.KeyOk(l);
    var f, g := t.frames.funcs[t.frames.index[k]], t.frames.funcs[t.frames.index[l]];
    IndexIdentifiesString(t.strings.table, t.funcs.names[f], t.funcs.names[g]);
    assert t.funcs.resources[f] == None && t.funcs.resources[g] == None;
    assert t.funcs.Rows()[f] == t.funcs.Row(f) && t.funcs.Rows()[g] == t.funcs.Row(g);
    hide HexLabel, Resources.Coherent, Natives.Coherent;
    RowsDiffer(t.funcs.Rows(), t.funcs.index, f, g);
  }

  /** The rows of two frames agree in all columns exactly when the frames are the same or one of them is a
      label that reads like the other's address. */
  lemma RowsLookAlikeIff(t: Tables, texts: Strings, libs: Libs, k: InternalFrame, l: InternalFrame)
    requires t.Coherent(texts, libs) && k in t.frames.index && l in t.frames.index
    ensures t.frames.index[k] < |t.frames.funcs| && t.frames.index[l] < |t.frames.funcs|
    ensures LookAlike(t, t.frames.index[k], t.frames.index[l]) <==> k == l || LabelsAddress(t, k, l) || LabelsAddress(t, l, k)
  {
    assert t.KeyOk(k) && t.KeyOk(l);
    if LabelsAddress(t, k, l) {
      SameFunc(t, texts, libs, k, l);
    }
    if LabelsAddress(t, l, k) {
      SameFunc(t, texts, libs, l, k);
    }
    hide Tables.Coherent, HexLabel;
    if LookAlike(t, t.frames.index[k], t.frames.index[l]) && k.location.UnknownAddress? && l.location.UnknownAddress? {
      HexLabelInjective(k.location.address, l.location.address);
    }
  }

  /** Every row is the row of some frame. */
  lemma EveryRowHasFrame(t: Tables, texts: Strings, libs: Libs, r: nat) returns (k: InternalFrame)
    requires t.Coherent(texts, libs) && r < |t.frames.funcs|
    ensures k in t.frames.index && t.frames.index[k] == r && t.KeyOk(k)
  {
    assert t.frames.HasKey(r);
    k :| k in t.frames.index && t.frames.index[k] == r;
  }

  // ----- the addresses seen in each library -----

  ghost function SeenAt(libs: Libs, lib: nat): set<u32> {
    if lib < |libs.seenRvas| then libs.seenRvas[lib] else {}
  }

  lemma DescribeRvas(t: Tables, libs: Libs, location: Location, lib: nat, a: u32)
    requires t.Usable(libs) && Callable(libs, location)
    ensures var (_, libs1, d) := Describe(t, libs, location);
      a in SeenAt(libs1, lib) <==>
        a in SeenAt(libs, lib) || (location == AddressInLib(a, lib) && d.native == None)
  {
  }

  /** Interning a frame records an address in a library exactly when it adds an unsymbolicated row
      for that address, and forgets none. */
  lemma ForFrameRvas(t: Tables, libs: Libs, texts: Strings, frame: InternalFrame, lib: nat, a: u32)
    requires t.Coherent(texts, libs) && t.Usable(libs) && libs.Coherent() && Known(t, libs, frame.location)
    requires ForFrame(t, libs, frame).0.Fits()
    requires t.Sees(lib, a) ==> a in SeenAt(libs, lib)
    ensures var (t', libs', _) := ForFrame(t, libs, frame);
      && t'.frames.SameLengths()
      && (t.Sees(lib, a) ==> t'.Sees(lib, a))
      && (a in SeenAt(libs', lib) <==> a in SeenAt(libs, lib) || t'.Sees(lib, a))
  {
    if frame !in t.frames.index {
      var (t', libs', n) := ForFrame(t, libs, frame);
      var (t1, libs1, d) := Describe(t, libs, frame.location);
      assert t1.funcs.names <= t'.funcs.names;
      DescribeFuncs(t, libs, frame.location);
      DescribeCoherent(t, libs, texts, frame.location);
      DescribeRvas(t, libs, frame.location, lib, a);
      SeesStable(t, t1, texts, libs, lib, a);
      PushSees(t1, texts, libs1, frame, d, lib, a);
    }
  }

  /** Growth of the other tables changes no row's library, hence none of the addresses seen. */
  lemma SeesStable(t: Tables, t': Tables, texts: Strings, libs: Libs, lib: nat, a: u32)
    requires t.Coherent(texts, libs) && TablesGrew(t, t') && t'.frames == t.frames
    ensures t'.Sees(lib, a) <==> t.Sees(lib, a)
  {
    forall r: nat | r < |t.frames.funcs|
      ensures t'.Plain(r, lib, a) <==> t.Plain(r, lib, a)
    {
      assert t.RowOk(r);
      LibOfStable(t, t', r);
    }
    if t.Sees(lib, a) {
      var r :| t.Plain(r, lib, a);
      assert t'.Plain(r, lib, a);
    }
    if t'.Sees(lib, a) {
      var r :| t'.Plain(r, lib, a);
      assert t.Plain(r, lib, a);
    }
  }

  lemma PushSees(t: Tables, texts: Strings, libs: Libs, frame: InternalFrame, d: Description, lib: nat, a: u32)
    requires t.Coherent(texts, libs) && frame !in t.frames.index && Fitting(t, frame.location, d)
    requires |t.funcs.ForFunc(d.name, d.resource, frame.flags).0.names| <= U32_LIMIT
    ensures var (funcs, f) := t.funcs.ForFunc(d.name, d.resource, frame.flags);
      var t' := t.(funcs := funcs, frames := t.frames.Push(frame, d, f));
      && t'.frames.SameLengths()
      && (t'.Sees(lib, a) <==> t.Sees(lib, a) || (frame.location == AddressInLib(a, lib) && d.native == None))
  {
    var (funcs, f) := t.funcs.ForFunc(d.name, d.resource, frame.flags);
    var t1 := t.(funcs := funcs);
    var t' := t1.(frames := t.frames.Push(frame, d, f));
    var n := |t.frames.funcs|;
    ForFuncCoherent(t.funcs, d.name, d.resource, frame.flags, |t.strings.table.strings|, |t.resources.libs|);
    NewRowOk(t, texts, libs, frame, d);
    assert t'.frames.nativeSymbols[n] == d.native && t'.frames.addresses[n] == d.address;
    assert t'.Plain(n, lib, a) <==> frame.location == AddressInLib(a, lib) && d.native == None;
    forall r: nat | r < n
      ensures t'.Plain(r, lib, a) <==> t.Plain(r, lib, a)
    {
      assert t.RowOk(r);
      LibOfStable(t, t', r);
    }
    if t.Sees(lib, a) {
      var r :| t.Plain(r, lib, a);
      assert t'.Plain(r, lib, a);
    }
    if t'.Sees(lib, a) {
      var r :| t'.Plain(r, lib, a);
      assert r == n || t.Plain(r, lib, a);
    }
  }

  // ----- the table object -----

  class FrameTable {
    ghost const owner: nat
    var addresses: seq<Option<u32>>
    var categories: seq<nat>
    var subcategories: seq<Subcategory>
    var funcs: seq<u32>
    var nativeSymbols: seq<Option<u32>>
    var internalFrameToFrameIndex: map<InternalFrame, nat>

    constructor (ghost owner: nat)
      ensures this.owner == owner && View() == NoFrames
    {
      this.owner := owner;
      addresses, categories, subcategories, funcs, nativeSymbols := [], [], [], [], [];
      internalFrameToFrameIndex := map[];
    }

    function View(): Frames
      reads this
    {
      Frames(addresses, categories, subcategories, funcs, nativeSymbols, internalFrameToFrameIndex)
    }

    method DescribeLocation(strings: ThreadStringTable, resources: ResourceTable, funcTable: FuncTable,
                            natives: NativeSymbols, libs: GlobalLibTable, location: Location)
      returns (d: Description)
      requires var t := Tables(strings.View(), resources.View(), funcTable.View(), natives.View(), View());
        t.Usable(libs.View()) && Callable(libs.View(), location)
      modifies strings.table, resources, natives, libs
      ensures (Tables(strings.View(), resources.View(), funcTable.View(), natives.View(), View()), libs.View(), d)
           == old(Describe(Tables(strings.View(), resources.View(), funcTable.View(), natives.View(), View()),
                           libs.View(), location))
    {
      match location {
        case UnknownAddress(address) =>
          var name := strings.IndexForString(HexLabel(address));
          return Description(None, name, None, None);
        case AddressInLib(address, lib) =>
          var resource := resources.ResourceForLib(lib, libs, strings);
          match SymbolFor(libs.View(), lib, address) {
            case Some(symbol) =>
              var native, name := natives.SymbolIndexAndStringIndexForSymbol(lib, symbol, strings);
              return Description(Some(address), name, Some(native), Some(resource));
            case None =>
              libs.AddLibUsedRva(lib, address);
              var name := strings.IndexForString(HexLabel(address));
              return Description(Some(address), name, None, Some(resource));
          }
        case Label(name) =>
          return Description(None, name, None, None);
      }
    }

    method IndexForFrame(strings: ThreadStringTable, resources: ResourceTable, funcTable: FuncTable,
                         natives: NativeSymbols, libs: GlobalLibTable, frame: InternalFrame)
      returns (i: nat)
      requires var t := Tables(strings.View(), resources.View(), funcTable.View(), natives.View(), View());
        t.Usable(libs.View()) && Callable(libs.View(), frame.location)
      modifies this, strings.table, resources, funcTable, natives, libs
      ensures (Tables(strings.View(), resources.View(), funcTable.View(), natives.View(), View()), libs.View(), i)
           == old(ForFrame(Tables(strings.View(), resources.View(), funcTable.View(), natives.View(), View()),
                           libs.View(), frame))
    {
      if frame in internalFrameToFrameIndex {
        return internalFrameToFrameIndex[frame];
      }
      i := |addresses|;
      var d := DescribeLocation(strings, resources, funcTable, natives, libs, frame.location);
      var f := funcTable.IndexForFunc(d.name, d.resource, frame.flags);
      addresses := addresses + [d.address];
      categories := categories + [frame.pair.category];
      subcategories := subcategories + [SubcategoryOf(frame.pair)];
      funcs := funcs + [f];
      nativeSymbols := nativeSymbols + [d.native];
      internalFrameToFrameIndex := internalFrameToFrameIndex[frame := i];
    }
  }
}
