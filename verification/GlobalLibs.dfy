/** The libraries of a profile, the numbering of the used ones, and the relative addresses seen in
    each (fxprof-processed-profile/src/global_lib_table.rs). */
module GlobalLibs {
  import opened Interning
  import opened Prelude
  import opened Libraries

  /** The contents of a `GlobalLibTable`. */
  datatype Libs = Libs(
    allLibs: seq<LibraryInfo>,
    usedLibs: seq<nat>,
    libMap: map<LibraryInfo, nat>,
    usedLibMap: map<nat, nat>,
    seenRvas: seq<set<u32>>)
  {
    /** Handles name distinct libraries (up to a symbol table supplied later), used libraries are
        numbered one-to-one, and every used library has its address set. */
    ghost predicate Coherent() {
      && |seenRvas| == |usedLibs|
      && (forall l :: l in libMap ==> libMap[l] < |allLibs| && SameLibrary(allLibs[libMap[l]], l))
      && (forall k, l :: k in libMap && l in libMap && libMap[k] == libMap[l] ==> k == l)
      && (forall i :: 0 <= i < |usedLibs| ==> usedLibs[i] < |allLibs|)
      && Numbered(usedLibs, usedLibMap)
    }

    function HandleFor(lib: LibraryInfo): (Libs, nat) {
      if lib in libMap then (this, libMap[lib])
      else (this.(allLibs := allLibs + [lib], libMap := libMap[lib := |allLibs|]), |allLibs|)
    }

    function SetSymbolTable(handle: nat, table: SymbolTable): Libs
      requires handle < |allLibs|
    {
      this.(allLibs := allLibs[handle := allLibs[handle].(symbolTable := Some(table))])
    }

    function Use(handle: nat): (Libs, nat) {
      if handle in usedLibMap then (this, usedLibMap[handle])
      else
        (this.(usedLibs := usedLibs + [handle],
               usedLibMap := usedLibMap[handle := |usedLibs|],
               seenRvas := seenRvas + [{}]),
         |usedLibs|)
    }

    function GetLib(index: nat): Option<LibraryInfo> {
      if index < |usedLibs| && usedLibs[index] < |allLibs| then Some(allLibs[usedLibs[index]]) else None
    }

    function AddRva(index: nat, address: u32): Libs
      requires index < |seenRvas|
    {
      this.(seenRvas := seenRvas[index := seenRvas[index] + {address}])
    }
  }

  const NoLibs := Libs([], [], map[], map[], [])

  predicate SameLibrary(a: LibraryInfo, b: LibraryInfo) {
    a.(symbolTable := None) == b.(symbolTable := None)
  }

  /** Handles and used indexes are append-only: what was issued before keeps its meaning. */
  ghost predicate Grew(before: Libs, after: Libs) {
    && |before.allLibs| <= |after.allLibs|
    && before.usedLibs <= after.usedLibs
    && (forall h :: 0 <= h < |before.allLibs| ==> SameLibrary(before.allLibs[h], after.allLibs[h]))
  }

  lemma HandleForCoherent(l: Libs, lib: LibraryInfo)
    requires l.Coherent()
    ensures var (l', h) := l.HandleFor(lib);
      l'.Coherent() && Grew(l, l') && h < |l'.allLibs| && SameLibrary(l'.allLibs[h], lib)
  {
  }

  lemma SetSymbolTableCoherent(l: Libs, handle: nat, table: SymbolTable)
    requires l.Coherent() && handle < |l.allLibs|
    ensures l.SetSymbolTable(handle, table).Coherent() && Grew(l, l.SetSymbolTable(handle, table))
  {
  }

  lemma UseCoherent(l: Libs, handle: nat)
    requires l.Coherent() && handle < |l.allLibs|
    ensures var (l', i) := l.Use(handle);
      l'.Coherent() && Grew(l, l') && i < |l'.usedLibs| && l'.usedLibs[i] == handle
  {
    if handle !in l.usedLibMap {
      AppendNumbered(l.usedLibs, l.usedLibMap, handle);
    }
  }

  /** Library handles identify libraries: equal descriptions get equal handles, different ones different handles. */
  lemma HandlesIdentifyLibraries(l: Libs, a: LibraryInfo, b: LibraryInfo)
    requires l.Coherent()
    ensures var (l1, h) := l.HandleFor(a);
      var (l2, k) := l1.HandleFor(b);
      h == k <==> a == b
  {
    HandleForCoherent(l, a);
    HandleForCoherent(l.HandleFor(a).0, b);
  }

  class GlobalLibTable {
    var allLibs: seq<LibraryInfo>
    var usedLibs: seq<nat>
    var libMap: map<LibraryInfo, nat>
    var usedLibMap: map<nat, nat>
    var usedLibsSeenRvas: seq<set<u32>>

    constructor ()
      ensures View() == NoLibs
    {
      allLibs, usedLibs, libMap, usedLibMap, usedLibsSeenRvas := [], [], map[], map[], [];
    }

    function View(): Libs
      reads this
    {
      Libs(allLibs, usedLibs, libMap, usedLibMap, usedLibsSeenRvas)
    }

    method HandleForLib(lib: LibraryInfo) returns (handle: nat)
      modifies this
      ensures (View(), handle) == old(View()).HandleFor(lib)
    {
      if lib in libMap {
        return libMap[lib];
      }
      handle := |allLibs|;
      allLibs := allLibs + [lib];
      libMap := libMap[lib := handle];
    }

    method SetLibSymbolTable(handle: nat, table: SymbolTable)
      requires handle < |allLibs|
      modifies this
      ensures View() == old(View()).SetSymbolTable(handle, table)
    {
      allLibs := allLibs[handle := allLibs[handle].(symbolTable := Some(table))];
    }

    method IndexForUsedLib(handle: nat) returns (index: nat)
      modifies this
      ensures (View(), index) == old(View()).Use(handle)
    {
      if handle in usedLibMap {
        return usedLibMap[handle];
      }
      index := |usedLibs|;
      usedLibs := usedLibs + [handle];
      usedLibsSeenRvas := usedLibsSeenRvas + [{}];
      usedLibMap := usedLibMap[handle := index];
    }

    method AddLibUsedRva(index: nat, address: u32)
      requires index < |usedLibsSeenRvas|
      modifies this
      ensures View() == old(View()).AddRva(index, address)
    {
      usedLibsSeenRvas := usedLibsSeenRvas[index := usedLibsSeenRvas[index] + {address}];
    }
  }

  /** Walks the used libraries with their address sets. */
  class UsedLibraryAddressesIterator {
    var nextUsedLibIndex: nat
    const table: GlobalLibTable

    constructor (table: GlobalLibTable)
      ensures this.table == table && nextUsedLibIndex == 0
    {
      this.table := table;
      nextUsedLibIndex := 0;
    }

    method Next() returns (item: Option<(LibraryInfo, set<u32>)>)
      requires table.View().Coherent()
      modifies this
      ensures item.None? <==> old(nextUsedLibIndex) >= |table.usedLibs|
      ensures item.None? ==> nextUsedLibIndex == old(nextUsedLibIndex)
      ensures item.Some? ==>
        && nextUsedLibIndex == old(nextUsedLibIndex) + 1
        && table.View().GetLib(old(nextUsedLibIndex)) == Some(item.value.0)
        && item.value.1 == table.usedLibsSeenRvas[old(nextUsedLibIndex)]
    {
      if nextUsedLibIndex >= |table.usedLibsSeenRvas| {
        return None;
      }
      var rvas := table.usedLibsSeenRvas[nextUsedLibIndex];
      assert table.View().usedLibs[nextUsedLibIndex] < |table.View().allLibs|;
      var info := table.allLibs[table.usedLibs[nextUsedLibIndex]];
      nextUsedLibIndex := nextUsedLibIndex + 1;
      return Some((info, rvas));
    }
  }
}
