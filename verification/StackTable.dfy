/** The tree of call stacks of a thread (fxprof-processed-profile/src/stack_table.rs). */
module StackTables {
  import opened Categories
  import opened Interning
  import opened Prelude

  type StackKey = (Option<nat>, nat)

  /** The contents of a `StackTable`. */
  datatype Stacks = Stacks(
    prefixes: seq<Option<nat>>, frames: seq<nat>,
    categories: seq<nat>, subcategories: seq<Subcategory>, index: map<StackKey, nat>)
  {
    /** Columns of one length, prefixes strictly below their own row, one row per (prefix, frame). */
    ghost predicate Coherent() {
      && |prefixes| == |frames| == |categories| == |subcategories|
      && PrefixesBelow()
      && Numbered(Rows(), index)
    }

    ghost predicate PrefixesBelow() {
      forall i :: 0 <= i < |prefixes| && prefixes[i].Some? ==> prefixes[i].value < i
    }

    ghost function Rows(): seq<StackKey>
      requires |prefixes| == |frames|
    {
      seq(|prefixes|, i requires 0 <= i < |prefixes| => (prefixes[i], frames[i]))
    }

    ghost predicate Holds(stack: Option<nat>) {
      stack.Some? ==> stack.value < |prefixes|
    }

    function ForStack(prefix: Option<nat>, frame: nat, pair: CategoryPair): (Stacks, nat) {
      if (prefix, frame) in index then (this, index[(prefix, frame)])
      else
        (Stacks(prefixes + [prefix], frames + [frame],
                categories + [pair.category], subcategories + [SubcategoryOf(pair)],
                index[(prefix, frame) := |prefixes|]),
         |prefixes|)
    }

    /** The list of frames a stack index stands for: the path from the root to that node. */
    ghost function FramesOf(stack: Option<nat>): seq<nat>
      requires Coherent() && Holds(stack)
      decreases if stack.Some? then stack.value + 1 else 0
    {
      match stack
      case None => []
      case Some(i) => FramesOf(prefixes[i]) + [frames[i]]
    }
  }

  const NoStacks := Stacks([], [], [], [], map[])

  ghost predicate Grew(before: Stacks, after: Stacks) {
    && before.prefixes <= after.prefixes && before.frames <= after.frames
    && before.categories <= after.categories && before.subcategories <= after.subcategories
  }

  /** Pushing a frame returns the node for the longer list, and keeps the table well formed. */
  lemma ForStackCoherent(t: Stacks, prefix: Option<nat>, frame: nat, pair: CategoryPair)
    requires t.Coherent() && t.Holds(prefix)
    ensures var (t', i) := t.ForStack(prefix, frame, pair);
      && t'.Coherent() && Grew(t, t') && i < |t'.prefixes|
      && t'.prefixes[i] == prefix && t'.frames[i] == frame
  {
    var t' := t.ForStack(prefix, frame, pair).0;
    if (prefix, frame) in t.index {
      assert t.Rows()[t.index[(prefix, frame)]] == (prefix, frame);
    } else {
      AppendNumbered(t.Rows(), t.index, (prefix, frame));
      assert t'.Rows() == t.Rows() + [(prefix, frame)];
    }
  }

  /** A stack index keeps its list of frames while the table grows. */
  lemma {:induction false} FramesOfStable(t: Stacks, t': Stacks, stack: Option<nat>)
    requires t.Coherent() && t'.Coherent() && Grew(t, t') && t.Holds(stack)
    ensures t'.FramesOf(stack) == t.FramesOf(stack)
    decreases if stack.Some? then stack.value + 1 else 0
  {
    if stack.Some? {
      FramesOfStable(t, t', t.prefixes[stack.value]);
    }
  }

  /** The tree stores no list twice: two stack indexes are equal exactly when their lists of frames are. */
  lemma {:induction false} FramesIdentifyStack(t: Stacks, a: Option<nat>, b: Option<nat>)
    requires t.Coherent() && t.Holds(a) && t.Holds(b)
    ensures t.FramesOf(a) == t.FramesOf(b) <==> a == b
    decreases if a.Some? then a.value + 1 else 0
  {
    if a.Some? && b.Some? && t.FramesOf(a) == t.FramesOf(b) {
      var fa, fb := t.FramesOf(a), t.FramesOf(b);
      assert fa[..|fa| - 1] == t.FramesOf(t.prefixes[a.value]) && fa[|fa| - 1] == t.frames[a.value];
      assert fb[..|fb| - 1] == t.FramesOf(t.prefixes[b.value]) && fb[|fb| - 1] == t.frames[b.value];
      FramesIdentifyStack(t, t.prefixes[a.value], t.prefixes[b.value]);
      RowsDiffer(t.Rows(), t.index, a.value, b.value);
    }
  }

  class StackTable {
    ghost const owner: nat
    var stackPrefixes: seq<Option<nat>>
    var stackFrames: seq<nat>
    var stackCategories: seq<nat>
    var stackSubcategories: seq<Subcategory>
    var index: map<StackKey, nat>

    constructor (ghost owner: nat)
      ensures this.owner == owner && View() == NoStacks
    {
      this.owner := owner;
      stackPrefixes, stackFrames, stackCategories, stackSubcategories, index := [], [], [], [], map[];
    }

    function View(): Stacks
      reads this
    {
      Stacks(stackPrefixes, stackFrames, stackCategories, stackSubcategories, index)
    }

    method IndexForStack(prefix: Option<nat>, frame: nat, pair: CategoryPair) returns (stack: nat)
      modifies this
      ensures (View(), stack) == old(View()).ForStack(prefix, frame, pair)
    {
      if (prefix, frame) in index {
        return index[(prefix, frame)];
      }
      stack := |stackPrefixes|;
      stackPrefixes := stackPrefixes + [prefix];
      stackFrames := stackFrames + [frame];
      stackCategories := stackCategories + [pair.category];
      stackSubcategories := stackSubcategories + [SubcategoryOf(pair)];
      index := index[(prefix, frame) := stack];
    }
  }
}
