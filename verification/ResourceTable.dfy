/** The libraries a thread's functions come from (fxprof-processed-profile/src/resource_table.rs). */
module ResourceTables {
  import opened Prelude
  import opened GlobalLibs
  import opened Interning
  import opened StringTables

  /** The contents of a `ResourceTable`. */
  datatype Resources = Resources(libs: seq<nat>, names: seq<u32>, index: map<nat, u32>) {
    /** One row per library, carrying that library's name. */
    ghost predicate Coherent(global: Libs, strings: seq<string>) {
      && |libs| == |names| <= U32_LIMIT
      && Numbered(libs, index)
      && (forall r :: 0 <= r < |libs| ==> RowOk(r, global, strings))
    }

    ghost predicate RowOk(r: nat, global: Libs, strings: seq<string>)
      requires r < |libs| == |names|
    {
      && names[r] < |strings|
      && global.GetLib(libs[r]).Some?
      && strings[names[r]] == global.GetLib(libs[r]).value.name
    }

    function ForLib(lib: nat, global: Libs, strings: ThreadStrings): (Resources, ThreadStrings, u32)
      requires lib in index || global.GetLib(lib).Some?
    {
      if lib in index then (this, strings, index[lib])
      else
        var r := AsU32(|libs|);
        var (strings', name) := strings.Intern(global.GetLib(lib).value.name);
        (Resources(libs + [lib], names + [name], index[lib := r]), strings', r)
    }
  }

  const NoResources := Resources([], [], map[])

  lemma CoherentUnderGrowth(t: Resources, global: Libs, strings: seq<string>, global': Libs, strings': seq<string>)
    requires t.Coherent(global, strings) && Grew(global, global') && strings <= strings'
    ensures t.Coherent(global', strings')
  {
    forall r | 0 <= r < |t.libs|
      ensures t.RowOk(r, global', strings')
    {
      assert t.RowOk(r, global, strings);
    }
  }

  lemma ForLibCoherent(t: Resources, lib: nat, global: Libs, strings: ThreadStrings, texts: Strings)
    requires strings.Coherent(texts) && t.Coherent(global, strings.table.strings)
    requires global.GetLib(lib).Some?
    requires var (t', s', _) := t.ForLib(lib, global, strings);
      |t'.libs| <= U32_LIMIT && |s'.table.strings| <= U32_LIMIT
    ensures var (t', s', r) := t.ForLib(lib, global, strings);
      && s'.Coherent(texts) && strings.table.strings <= s'.table.strings
      && t'.Coherent(global, s'.table.strings)
      && t.libs <= t'.libs && t.names <= t'.names
      && r < |t'.libs| && t'.libs[r] == lib
  {
    var (t', s', r) := t.ForLib(lib, global, strings);
    if lib !in t.index {
      ThreadInternCoherent(strings, global.GetLib(lib).value.name, texts);
      AppendNumbered(t.libs, t.index, lib);
      forall k | 0 <= k < |t'.libs|
        ensures t'.RowOk(k, global, s'.table.strings)
      {
        if k < |t.libs| {
          assert t.RowOk(k, global, strings.table.strings);
        }
      }
    }
  }

  class ResourceTable {
    ghost const owner: nat
    var resourceLibs: seq<nat>
    var resourceNames: seq<u32>
    var libToResource: map<nat, u32>

    constructor (ghost owner: nat)
      ensures this.owner == owner && View() == NoResources
    {
      this.owner := owner;
      resourceLibs, resourceNames, libToResource := [], [], map[];
    }

    function View(): Resources
      reads this
    {
      Resources(resourceLibs, resourceNames, libToResource)
    }

    method ResourceForLib(lib: nat, global: GlobalLibTable, strings: ThreadStringTable) returns (r: u32)
      requires lib in libToResource || global.View().GetLib(lib).Some?
      modifies this, strings.table
      ensures (View(), strings.View(), r) == old(View().ForLib(lib, global.View(), strings.View()))
    {
      if lib in libToResource {
        return libToResource[lib];
      }
      r := AsU32(|resourceLibs|);
      var name := strings.IndexForString(global.View().GetLib(lib).value.name);
      resourceLibs := resourceLibs + [lib];
      resourceNames := resourceNames + [name];
      libToResource := libToResource[lib := r];
    }
  }
}
