/** Interned strings: the profile-wide table and each thread's table with its cache of converted
    global indexes (fxprof-processed-profile/src/string_table.rs, thread_string_table.rs). */
module StringTables {
  import opened Interning
  import opened Prelude

  /** The contents of a `StringTable`. */
  datatype Strings = Strings(strings: seq<string>, index: map<string, u32>) {
    ghost predicate Coherent() {
      |strings| <= U32_LIMIT && Numbered(strings, index)
    }

    function Intern(s: string): (Strings, u32) {
      if s in index then (this, index[s])
      else
        var i := AsU32(|strings|);
        (Strings(strings + [s], index[s := i]), i)
    }
  }

  const NoStrings := Strings([], map[])

  /** Interning keeps every earlier index and returns an index of `s`; the numbering stays
      one-to-one as long as the indexes fit in 32 bits. */
  lemma InternCoherent(t: Strings, s: string)
    requires t.Coherent() && |t.Intern(s).0.strings| <= U32_LIMIT
    ensures var (t', i) := t.Intern(s);
      && t'.Coherent() && t.strings <= t'.strings
      && i < |t'.strings| && t'.strings[i] == s
  {
    if s !in t.index {
      AppendNumbered(t.strings, t.index, s);
    }
  }

  /** Two strings get the same index exactly when they are equal. */
  lemma IndexIdentifiesString(t: Strings, i: nat, j: nat)
    requires t.Coherent() && i < |t.strings| && j < |t.strings|
    ensures t.strings[i] == t.strings[j] <==> i == j
  {
    if t.strings[i] == t.strings[j] {
      RowsDiffer(t.strings, t.index, i, j);
    }
  }

  class StringTable {
    /** Which owner (a thread, or the profile itself) holds this table. */
    ghost const owner: int
    var strings: seq<string>
    var index: map<string, u32>

    constructor (ghost owner: int)
      ensures this.owner == owner && View() == NoStrings
    {
      this.owner := owner;
      strings, index := [], map[];
    }

    function View(): Strings
      reads this
    {
      Strings(strings, index)
    }

    method IndexForString(s: string) returns (i: u32)
      modifies this
      ensures (View(), i) == old(View()).Intern(s)
    {
      if s in index {
        return index[s];
      }
      i := AsU32(|strings|);
      strings := strings + [s];
      index := index[s := i];
    }

    method GetString(i: u32) returns (r: Option<string>)
      ensures r == if i < |strings| then Some(strings[i]) else None
    {
      return if i < |strings| then Some(strings[i]) else None;
    }
  }

  /** The contents of a `ThreadStringTable`. */
  datatype ThreadStrings = ThreadStrings(table: Strings, converted: map<u32, u32>) {
    /** Every cached conversion leads to the same text. */
    ghost predicate Coherent(global: Strings) {
      && table.Coherent()
      && forall g :: g in converted ==>
           && g < |global.strings| && converted[g] < |table.strings|
           && table.strings[converted[g]] == global.strings[g]
    }

    function Intern(s: string): (ThreadStrings, u32) {
      var (t, i) := table.Intern(s);
      (this.(table := t), i)
    }

    /** The thread's index for a global index; an unknown global index is a programming error there. */
    function Convert(g: u32, global: Strings): (ThreadStrings, u32)
      requires g in converted || g < |global.strings|
    {
      if g in converted then (this, converted[g])
      else
        var (t, i) := table.Intern(global.strings[g]);
        (ThreadStrings(t, converted[g := i]), i)
    }
  }

  const NoThreadStrings := ThreadStrings(NoStrings, map[])

  lemma ThreadInternCoherent(t: ThreadStrings, s: string, global: Strings)
    requires t.Coherent(global) && |t.Intern(s).0.table.strings| <= U32_LIMIT
    ensures var (t', i) := t.Intern(s);
      && t'.Coherent(global) && t.table.strings <= t'.table.strings
      && i < |t'.table.strings| && t'.table.strings[i] == s
  {
    InternCoherent(t.table, s);
  }

  /** A converted index names, in the thread's table, the text the global index names. */
  lemma ConvertCoherent(t: ThreadStrings, g: u32, global: Strings)
    requires t.Coherent(global) && g < |global.strings|
    requires |t.Convert(g, global).0.table.strings| <= U32_LIMIT
    ensures var (t', i) := t.Convert(g, global);
      && t'.Coherent(global) && t.table.strings <= t'.table.strings
      && i < |t'.table.strings| && t'.table.strings[i] == global.strings[g]
  {
    if g !in t.converted {
      InternCoherent(t.table, global.strings[g]);
    }
  }

  lemma CoherentAsGlobalGrows(t: ThreadStrings, global: Strings, global': Strings)
    requires t.Coherent(global) && global.strings <= global'.strings
    ensures t.Coherent(global')
  {
  }

  class GlobalStringTable {
    const table: StringTable

    constructor ()
      ensures fresh(table) && table.owner == -1 && View() == NoStrings
    {
      table := new StringTable(-1);
    }

    function View(): Strings
      reads table
    {
      table.View()
    }

    method IndexForString(s: string) returns (i: u32)
      modifies table
      ensures (View(), i) == old(View()).Intern(s)
    {
      i := table.IndexForString(s);
    }

    method GetString(i: u32) returns (r: Option<string>)
      ensures r == if i < |View().strings| then Some(View().strings[i]) else None
    {
      r := table.GetString(i);
    }
  }

  class ThreadStringTable {
    ghost const owner: nat
    const table: StringTable
    var globalToLocal: map<u32, u32>

    constructor (ghost owner: nat)
      ensures this.owner == owner && table.owner == owner && fresh(table) && View() == NoThreadStrings
    {
      this.owner := owner;
      table := new StringTable(owner);
      globalToLocal := map[];
    }

    function View(): ThreadStrings
      reads this, table
    {
      ThreadStrings(table.View(), globalToLocal)
    }

    method IndexForString(s: string) returns (i: u32)
      modifies table
      ensures (View(), i) == old(View()).Intern(s)
    {
      i := table.IndexForString(s);
    }

    method IndexForGlobalString(g: u32, global: GlobalStringTable) returns (i: u32)
      requires global.table != table
      requires g in globalToLocal || g < |global.View().strings|
      modifies this, table
      ensures (View(), i) == old(View()).Convert(g, global.View())
    {
      if g in globalToLocal {
        return globalToLocal[g];
      }
      var s := global.GetString(g);
      i := table.IndexForString(s.value);
      globalToLocal := globalToLocal[g := i];
    }
  }
}
