/** The functions of a thread (fxprof-processed-profile/src/func_table.rs). */
module FuncTables {
  import opened Interning
  import opened Prelude

  datatype FrameFlags = FrameFlags(isJs: bool, isRelevantForJs: bool)

  type FuncKey = (u32, Option<u32>, FrameFlags)

  /** The contents of a `FuncTable`. */
  datatype Funcs = Funcs(
    names: seq<u32>, resources: seq<Option<u32>>, flags: seq<FrameFlags>,
    index: map<FuncKey, nat>, containsJs: bool)
  {
    /** One row per (name, resource, flags); names and resources stay inside their tables, and the
        summary bit tells whether some row is JavaScript or relevant for it. */
    ghost predicate Coherent(stringCount: nat, resourceCount: nat) {
      && |names| == |resources| == |flags| <= U32_LIMIT
      && Numbered(Rows(), index)
      && (forall f :: 0 <= f < |names| ==> names[f] < stringCount)
      && (forall f :: 0 <= f < |names| && resources[f].Some? ==> resources[f].value < resourceCount)
      && (containsJs <==> HasJsRow(flags))
    }

    function Row(f: nat): FuncKey
      requires f < |names| == |resources| == |flags|
    {
      (names[f], resources[f], flags[f])
    }

    ghost function Rows(): seq<FuncKey>
      requires |names| == |resources| == |flags|
    {
      seq(|names|, f requires 0 <= f < |names| => Row(f))
    }

    function ForFunc(name: u32, resource: Option<u32>, flag: FrameFlags): (Funcs, u32) {
      var key := (name, resource, flag);
      var js := containsJs || JsRelated(flag);
      if key in index then (this.(containsJs := js), AsU32(index[key]))
      else
        (Funcs(names + [name], resources + [resource], flags + [flag], index[key := |names|], js), AsU32(|names|))
    }
  }

  /** Some row is marked as JavaScript, or as relevant for it. */
  ghost predicate HasJsRow(flags: seq<FrameFlags>) {
    exists f :: 0 <= f < |flags| && (flags[f].isJs || flags[f].isRelevantForJs)
  }

  predicate JsRelated(f: FrameFlags) {
    f.isJs || f.isRelevantForJs
  }

  const NoFuncs := Funcs([], [], [], map[], false)

  lemma CoherentUnderGrowth(t: Funcs, strings: nat, resources: nat, strings': nat, resources': nat)
    requires t.Coherent(strings, resources) && strings <= strings' && resources <= resources'
    ensures t.Coherent(strings', resources')
  {
  }

  /** The summary bit follows the flags. */
  lemma JsBitFollows(t: Funcs, name: u32, resource: Option<u32>, flag: FrameFlags)
    requires t.containsJs <==> HasJsRow(t.flags)
    requires (name, resource, flag) in t.index ==> exists f :: 0 <= f < |t.flags| && t.flags[f] == flag
    ensures var t' := t.ForFunc(name, resource, flag).0;
      t'.containsJs <==> HasJsRow(t'.flags)
  {
    var t' := t.ForFunc(name, resource, flag).0;
    if (name, resource, flag) !in t.index {
      assert t'.flags[|t.flags|] == flag;
      assert forall k :: 0 <= k < |t.flags| ==> t'.flags[k] == t.flags[k];
    }
  }

  lemma ForFuncCoherent(t: Funcs, name: u32, resource: Option<u32>, flag: FrameFlags, strings: nat, resources: nat)
    requires t.Coherent(strings, resources)
    requires name < strings && (resource.Some? ==> resource.value < resources)
    requires |t.ForFunc(name, resource, flag).0.names| <= U32_LIMIT
    ensures var (t', f) := t.ForFunc(name, resource, flag);
      && t'.Coherent(strings, resources)
      && t.names <= t'.names && t.resources <= t'.resources && t.flags <= t'.flags
      && f < |t'.names| && t'.Row(f) == (name, resource, flag)
  {
    hide JsRelated, HasJsRow;
    var t' := t.ForFunc(name, resource, flag).0;
    var key := (name, resource, flag);
    if key in t.index {
      assert t.Rows()[t.index[key]] == key;
      assert t'.Rows() == t.Rows();
      assert t.flags[t.index[key]] == flag;
    } else {
      AppendNumbered(t.Rows(), t.index, key);
      assert t'.Rows() == t.Rows() + [key];
    }
    JsBitFollows(t, name, resource, flag);
  }

  class FuncTable {
    ghost const owner: nat
    var names: seq<u32>
    var resources: seq<Option<u32>>
    var flags: seq<FrameFlags>
    var index: map<FuncKey, nat>
    var containsJsFunction: bool

    constructor (ghost owner: nat)
      ensures this.owner == owner && View() == NoFuncs
    {
      this.owner := owner;
      names, resources, flags, index, containsJsFunction := [], [], [], map[], false;
    }

    function View(): Funcs
      reads this
    {
      Funcs(names, resources, flags, index, containsJsFunction)
    }

    method IndexForFunc(name: u32, resource: Option<u32>, flag: FrameFlags) returns (f: u32)
      modifies this
      ensures (View(), f) == old(View()).ForFunc(name, resource, flag)
    {
      var key := (name, resource, flag);
      var funcIndex;
      if key in index {
        funcIndex := index[key];
      } else {
        funcIndex := |names|;
        names := names + [name];
        resources := resources + [resource];
        flags := flags + [flag];
        index := index[key := funcIndex];
      }
      if flag.isJs || flag.isRelevantForJs {
        containsJsFunction := true;
      }
      return AsU32(funcIndex);
    }
  }
}
