/** The native symbols used by a thread's frames (fxprof-processed-profile/src/native_symbols.rs). */
module NativeSymbolTables {
  import opened Interning
  import opened Prelude
  import opened Libraries
  import opened StringTables

  type SymbolKey = (nat, u32)

  /** The contents of a `NativeSymbols` table. */
  datatype Natives = Natives(
    addresses: seq<u32>, sizes: seq<Option<u32>>, libs: seq<nat>, names: seq<u32>, index: map<SymbolKey, nat>)
  {
    ghost predicate SameLengths() {
      |addresses| == |sizes| == |libs| == |names|
    }

    ghost function Rows(): seq<SymbolKey>
      requires SameLengths()
    {
      seq(|libs|, n requires 0 <= n < |libs| => (libs[n], addresses[n]))
    }

    /** The map points inside the columns. */
    ghost predicate Usable() {
      SameLengths() && forall k :: k in index ==> index[k] < |names|
    }

    /** One row per (library, symbol address); names and libraries stay inside their tables. */
    ghost predicate Coherent(stringCount: nat, libCount: nat) {
      && SameLengths() && |names| <= U32_LIMIT
      && Numbered(Rows(), index)
      && (forall n :: 0 <= n < |names| ==> names[n] < stringCount && libs[n] < libCount)
    }

    function ForSymbol(lib: nat, symbol: Symbol, strings: ThreadStrings): (r: (Natives, ThreadStrings, u32, u32))
      requires Usable()
      ensures r.0.Usable()
    {
      var key := (lib, symbol.address);
      if key in index then (this, strings, AsU32(index[key]), names[index[key]])
      else
        var (strings', name) := strings.Intern(symbol.name);
        (Natives(addresses + [symbol.address], sizes + [symbol.size], libs + [lib], names + [name],
                 index[key := |addresses|]),
         strings', AsU32(|addresses|), name)
    }
  }

  const NoNatives := Natives([], [], [], [], map[])

  ghost predicate Grew(before: Natives, after: Natives) {
    && before.addresses <= after.addresses && before.sizes <= after.sizes
    && before.libs <= after.libs && before.names <= after.names
  }

  lemma CoherentUnderGrowth(t: Natives, strings: nat, libs: nat, strings': nat, libs': nat)
    requires t.Coherent(strings, libs) && strings <= strings' && libs <= libs'
    ensures t.Coherent(strings', libs')
  {
  }

  lemma ForSymbolCoherent(t: Natives, lib: nat, symbol: Symbol, strings: ThreadStrings, texts: Strings, libCount: nat)
    requires strings.Coherent(texts) && t.Coherent(|strings.table.strings|, libCount) && lib < libCount
    requires var (t', s', _, _) := t.ForSymbol(lib, symbol, strings);
      |t'.names| <= U32_LIMIT && |s'.table.strings| <= U32_LIMIT
    ensures var (t', s', n, name) := t.ForSymbol(lib, symbol, strings);
      && s'.Coherent(texts) && strings.table.strings <= s'.table.strings
      && t'.Coherent(|s'.table.strings|, libCount) && Grew(t, t')
      && n < |t'.names| && t'.names[n] == name && t'.libs[n] == lib && t'.addresses[n] == symbol.address
      && (if (lib, symbol.address) in t.index then t'.sizes == t.sizes && n == t.index[(lib, symbol.address)]
          else t'.sizes[n] == symbol.size && s'.table.strings[name] == symbol.name)
  {
    var t' := t.ForSymbol(lib, symbol, strings).0;
    var key := (lib, symbol.address);
    if key in t.index {
      assert t.Rows()[t.index[key]] == key;
    } else {
      ThreadInternCoherent(strings, symbol.name, texts);
      AppendNumbered(t.Rows(), t.index, key);
      assert t'.Rows() == t.Rows() + [key];
    }
  }

  class NativeSymbols {
    ghost const owner: nat
    var addresses: seq<u32>
    var functionSizes: seq<Option<u32>>
    var libIndexes: seq<nat>
    var names: seq<u32>
    var index: map<SymbolKey, nat>

    constructor (ghost owner: nat)
      ensures this.owner == owner && View() == NoNatives
    {
      this.owner := owner;
      addresses, functionSizes, libIndexes, names, index := [], [], [], [], map[];
    }

    function View(): Natives
      reads this
    {
      Natives(addresses, functionSizes, libIndexes, names, index)
    }

    method SymbolIndexAndStringIndexForSymbol(lib: nat, symbol: Symbol, strings: ThreadStringTable)
      returns (n: u32, name: u32)
      requires View().Usable()
      modifies this, strings.table
      ensures (View(), strings.View(), n, name) == old(View().ForSymbol(lib, symbol, strings.View()))
    {
      var key := (lib, symbol.address);
      if key in index {
        return AsU32(index[key]), names[index[key]];
      }
      var nativeSymbolIndex := |addresses|;
      addresses := addresses + [symbol.address];
      functionSizes := functionSizes + [symbol.size];
      libIndexes := libIndexes + [lib];
      name := strings.IndexForString(symbol.name);
      names := names + [name];
      index := index[key := nativeSymbolIndex];
      return AsU32(nativeSymbolIndex), name;
    }
  }
}
