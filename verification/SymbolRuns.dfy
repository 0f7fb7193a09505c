/** Over runs of profile calls, every frame keeps the symbol its library's symbol table had for it when it
    was first seen on the thread. */
module SymbolRuns {
  import opened CallStacks
  import opened FirstSight
  import opened FrameTables
  import opened GlobalLibs
  import opened Libraries
  import opened Prelude
  import opened ProfileInvariant
  import opened ProfileModel
  import opened ProfileReadBack
  import opened ProfileRuns
  import opened Threads

  /** The tables of a thread, empty before it exists. */
  ghost function TablesAt(p: ProfileState, t: nat): Tables {
    if t < |p.threads| then p.threads[t].tables else NoTables
  }

  lemma NothingNew(t0: Tables, t: Tables, libs: Libs)
    requires t.frames.SameLengths() && t.natives.SameLengths()
    requires t.frames == t0.frames && t.natives == t0.natives
    ensures NewRowsShow(t0, t, libs)
  {
  }

  /** What a call adds to each thread shows the symbols found. */
  ghost predicate CallShows(p: ProfileState, p': ProfileState) {
    forall t :: 0 <= t < |p'.threads| ==>
      && p'.threads[t].tables.frames.SameLengths() && p'.threads[t].tables.natives.SameLengths()
      && NewRowsShow(TablesAt(p, t), p'.threads[t].tables, p'.libs)
  }

  lemma ThreadLengths(p: ProfileState, t: nat)
    requires Coherent(p) && t < |p.threads|
    ensures p.threads[t].tables.frames.SameLengths() && p.threads[t].tables.natives.SameLengths()
  {
    assert p.threads[t].Ok(p.libs, p.strings, p.schemas);
  }

  /** Only thread `t` has new rows. */
  lemma OneThreadShows(p: ProfileState, p': ProfileState, t: nat)
    requires Coherent(p) && Coherent(p') && t < |p.threads| == |p'.threads|
    requires forall i :: 0 <= i < |p.threads| && i != t ==>
      p'.threads[i].tables.frames == p.threads[i].tables.frames && p'.threads[i].tables.natives == p.threads[i].tables.natives
    requires p'.threads[t].tables.frames.SameLengths() && p'.threads[t].tables.natives.SameLengths()
    requires NewRowsShow(p.threads[t].tables, p'.threads[t].tables, p'.libs)
    ensures CallShows(p, p')
  {
    hide Coherent, NewRowsShow;
    forall i: nat | i < |p'.threads|
      ensures p'.threads[i].tables.frames.SameLengths() && p'.threads[i].tables.natives.SameLengths()
      ensures NewRowsShow(TablesAt(p, i), p'.threads[i].tables, p'.libs)
    {
      ThreadLengths(p', i);
      if i != t {
        NothingNew(p.threads[i].tables, p'.threads[i].tables, p'.libs);
      }
    }
  }

  lemma PushStackShows(p: ProfileState, t: nat, frames: seq<FrameInfo>)
    requires Coherent(p) && t < |p.threads| && AllIssued(frames, p.libs, p.strings) && TablesSorted(p.libs)
    requires PushStack(p, t, frames).0.threads[t].tables.Fits()
    ensures var p' := PushStack(p, t, frames).0;
      && p'.threads[t].tables.frames.SameLengths() && p'.threads[t].tables.natives.SameLengths()
      && NewRowsShow(p.threads[t].tables, p'.threads[t].tables, p'.libs)
  {
    ScopeForValid(p, t);
    assert p.threads[t].Ok(p.libs, p.strings, p.schemas);
    hide Coherent, ThreadState.Ok, Tables.Coherent, ProfileState.Sound, PushFrames, NewRowsShow, TablesSorted;
    PushFramesShow(p.WorkFor(t), p.ScopeFor(t), frames);
  }

  lemma SampleShows(p: ProfileState, op: Op)
    requires Coherent(p) && Allowed(p, op) && Fits(Step(p, op)) && Coherent(Step(p, op)) && TablesSorted(p.libs) && op.AddSample?
    ensures CallShows(p, Step(p, op))
  {
    hide PushStack, Coherent, ProfileState.Sound, AllIssued, NewRowsShow, TablesSorted;
    CoherentIsSound(p);
    assert SampleAdded(p, op.thread, op.timestamp, op.frames, op.cpuDelta, op.weight).threads[op.thread].tables.Fits();
    PushStackShows(p, op.thread, op.frames);
    OneThreadShows(p, Step(p, op), op.thread);
  }

  lemma MarkerStackShows(p: ProfileState, op: Op)
    requires Coherent(p) && Allowed(p, op) && Fits(Step(p, op)) && Coherent(Step(p, op)) && TablesSorted(p.libs) && op.SetMarkerStack?
    ensures CallShows(p, Step(p, op))
  {
    hide PushStack, Coherent, ProfileState.Sound, AllIssued, NewRowsShow, TablesSorted;
    CoherentIsSound(p);
    assert MarkerStackSet(p, op.thread, op.markerIndex, op.frames).threads[op.thread].tables.Fits();
    PushStackShows(p, op.thread, op.frames);
    OneThreadShows(p, Step(p, op), op.thread);
  }

  lemma AllocationShows(p: ProfileState, op: Op)
    requires Coherent(p) && Allowed(p, op) && Fits(Step(p, op)) && Coherent(Step(p, op)) && TablesSorted(p.libs) && op.AddAllocationSample?
    ensures CallShows(p, Step(p, op))
  {
    hide Step, Allowed, PushStack, Coherent, ProfileState.Sound, AllIssued, NewRowsShow, TablesSorted, RowsGrew, AllocationTable;
    CoherentIsSound(p);
    AllocationHappens(p, op);
    ScopeForValid(p, op.thread);
    var first := p.AllocationThread(op.thread);
    AllocationUnfolds(p, op, first);
    assert Step(p, op).threads[first].tables.Fits();
    PushStackShows(p, first, op.frames);
    OneThreadShows(p, Step(p, op), first);
  }

  lemma PlainCallKeepsFrames(p: ProfileState, op: Op, t: nat)
    requires p.Sound() && Allowed(p, op) && !op.AddSample? && !op.AddAllocationSample? && !op.SetMarkerStack?
    requires t < |Step(p, op).threads|
    ensures var t' := Step(p, op).threads[t].tables;
      t'.frames == TablesAt(p, t).frames && t'.natives == TablesAt(p, t).natives
  {
    hide ProfileState.Sound;
  }

  lemma PlainCallShows(p: ProfileState, op: Op)
    requires Coherent(p) && Allowed(p, op) && Coherent(Step(p, op))
    requires !op.AddSample? && !op.AddAllocationSample? && !op.SetMarkerStack?
    ensures CallShows(p, Step(p, op))
  {
    hide Step, Allowed, Coherent, ProfileState.Sound, NewRowsShow, TablesAt;
    CoherentIsSound(p);
    var p' := Step(p, op);
    forall t: nat | t < |p'.threads|
      ensures p'.threads[t].tables.frames.SameLengths() && p'.threads[t].tables.natives.SameLengths()
      ensures NewRowsShow(TablesAt(p, t), p'.threads[t].tables, p'.libs)
    {
      ThreadLengths(p', t);
      PlainCallKeepsFrames(p, op, t);
      NothingNew(TablesAt(p, t), p'.threads[t].tables, p'.libs);
    }
  }

  lemma StepShows(p: ProfileState, op: Op)
    requires Coherent(p) && Allowed(p, op) && Fits(Step(p, op)) && Coherent(Step(p, op)) && TablesSorted(p.libs)
    ensures CallShows(p, Step(p, op))
  {
    CoherentIsSound(p);
    hide Step, Allowed, Coherent, ProfileState.Sound, CallShows, TablesSorted, Fits;
    match op {
      case AddSample(_, _, _, _, _) => SampleShows(p, op);
      case AddAllocationSample(_, _, _, _, _) => AllocationShows(p, op);
      case SetMarkerStack(_, _, _) => MarkerStackShows(p, op);
      case _ => PlainCallShows(p, op);
    }
  }

  // ----- over runs -----

  /** Symbol tables handed to the profile come from their constructor, which sorts them. */
  ghost predicate GivesSortedTables(op: Op) {
    match op
    case AddLib(library) => library.symbolTable.Some? ==> library.symbolTable.value.Sorted()
    case SetLibSymbolTable(_, table) => table.Sorted()
    case _ => true
  }

  lemma AllocationKeepsTables(p: ProfileState, op: Op)
    requires p.Sound() && Allowed(p, op) && op.AddAllocationSample?
    ensures Step(p, op).libs.allLibs == p.libs.allLibs
  {
    ScopeForValid(p, op.thread);
    hide ProfileState.Sound, AllIssued, PushFrames;
  }

  lemma StackCallKeepsTables(p: ProfileState, op: Op)
    requires p.Sound() && Allowed(p, op) && (op.AddSample? || op.SetMarkerStack?)
    ensures Step(p, op).libs.allLibs == p.libs.allLibs
  {
    ScopeForValid(p, op.thread);
    hide ProfileState.Sound, AllIssued, PushFrames;
  }

  lemma LibraryCallKeepsSorted(p: ProfileState, op: Op)
    requires p.Sound() && Allowed(p, op) && TablesSorted(p.libs) && GivesSortedTables(op)
    requires !op.AddSample? && !op.SetMarkerStack? && !op.AddAllocationSample?
    ensures TablesSorted(Step(p, op).libs)
  {
    hide ProfileState.Sound, SymbolTable.Sorted;
  }

  lemma StepKeepsSorted(p: ProfileState, op: Op)
    requires p.Sound() && Allowed(p, op) && TablesSorted(p.libs) && GivesSortedTables(op)
    ensures TablesSorted(Step(p, op).libs)
  {
    hide Step, Allowed, ProfileState.Sound, TablesSorted, GivesSortedTables;
    if op.AddAllocationSample? {
      AllocationKeepsTables(p, op);
      SortedStays(p.libs, Step(p, op).libs);
    } else if op.AddSample? || op.SetMarkerStack? {
      StackCallKeepsTables(p, op);
      SortedStays(p.libs, Step(p, op).libs);
    } else {
      LibraryCallKeepsSorted(p, op);
    }
  }

  lemma {:induction false} RunTablesSorted(ops: seq<Op>)
    requires AllowedRun(ops) && forall o :: o in ops ==> GivesSortedTables(o)
    ensures TablesSorted(Run(ops).libs)
  {
    hide Step, Allowed, ProfileState.Sound, GivesSortedTables;
    if ops != [] {
      RunTablesSorted(ops[..|ops| - 1]);
      hide TablesSorted;
      StepKeepsSorted(Run(ops[..|ops| - 1]), ops[|ops| - 1]);
    }
  }

  /** Frame `k` of a thread was first seen by call `n` of the run, and its row shows what its library's symbol
      table then had for its address. */
  ghost predicate SeenAtCall(ops: seq<Op>, n: nat, p: ProfileState, t: nat, k: InternalFrame)
    requires AllowedRun(ops) && n < |ops| && AllowedRun(ops[..n]) && AllowedRun(ops[..n + 1])
    requires t < |p.threads| && p.threads[t].tables.frames.SameLengths() && p.threads[t].tables.natives.SameLengths()
    requires k in p.threads[t].tables.frames.index && k.location.AddressInLib?
  {
    var before, after := Run(ops[..n]), Run(ops[..n + 1]);
    && k !in TablesAt(before, t).frames.index && k in TablesAt(after, t).frames.index
    && k.location.lib < |after.libs.usedLibs|
    && ShowsFound(TablesAt(before, t), p.threads[t].tables, Found(after.libs, k.location.lib, k.location.relative),
                  k.location.relative, k.location.lib, p.threads[t].tables.frames.index[k])
  }

  lemma KeyStays(p: ProfileState, p': ProfileState, t: nat, k: InternalFrame)
    requires Remembers(p, p') && t < |p.threads| && k in p.threads[t].tables.frames.index
    ensures t < |p'.threads| && TablesGrew(p.threads[t].tables, p'.threads[t].tables)
    ensures k in p'.threads[t].tables.frames.index && p'.threads[t].tables.frames.index[k] == p.threads[t].tables.frames.index[k]
  {
    assert ThreadRemembers(p.threads[t], p.libs, p'.threads[t], p'.libs);
  }

  lemma ThreadTablesCoherent(p: ProfileState, t: nat)
    requires Coherent(p) && t < |p.threads|
    ensures p.threads[t].tables.Coherent(p.strings, p.libs)
  {
    assert p.threads[t].Ok(p.libs, p.strings, p.schemas);
  }

  /** A row goes on showing what it showed. */
  lemma SeenStays(ops: seq<Op>, op: Op, n: nat, t: nat, k: InternalFrame, p: ProfileState, p': ProfileState)
    requires AllowedRun(ops) && AllowedRun(ops + [op]) && n < |ops| && AllowedRun(ops[..n]) && AllowedRun(ops[..n + 1])
    requires Coherent(p) && Coherent(p') && Remembers(p, p') && t < |p.threads| && t < |p'.threads|
    requires p.threads[t].tables.frames.SameLengths() && p.threads[t].tables.natives.SameLengths()
    requires p'.threads[t].tables.frames.SameLengths() && p'.threads[t].tables.natives.SameLengths()
    requires k in p.threads[t].tables.frames.index && k in p'.threads[t].tables.frames.index && k.location.AddressInLib?
    requires SeenAtCall(ops, n, p, t, k)
    ensures (ops + [op])[..n] == ops[..n] && (ops + [op])[..n + 1] == ops[..n + 1]
    ensures SeenAtCall(ops + [op], n, p', t, k)
  {
    hide Run, AllowedRun, Coherent, Remembers, ShowsFound, Found, Tables.Coherent, TablesAt, TablesGrew;
    KeyStays(p, p', t, k);
    ThreadTablesCoherent(p, t);
    assert (ops + [op])[..n] == ops[..n] && (ops + [op])[..n + 1] == ops[..n + 1];
    var lib, a := k.location.lib, k.location.relative;
    var found := Found(Run(ops[..n + 1]).libs, lib, a);
    ShowsStable(TablesAt(Run(ops[..n]), t), p.threads[t].tables, p.strings, p.libs, p'.threads[t].tables, found, a, lib,
                p.threads[t].tables.frames.index[k]);
  }

  /** Over every run, each frame row of an address in a library shows the symbol that the library's table had
      for it when the frame was first seen on that thread, however the table was replaced later. */
  lemma {:induction false} SymbolAtFirstSight(ops: seq<Op>, t: nat, k: InternalFrame) returns (n: nat)
    requires AllowedRun(ops) && Fits(Run(ops)) && forall o :: o in ops ==> GivesSortedTables(o)
    requires t < |Run(ops).threads| && k in Run(ops).threads[t].tables.frames.index && k.location.AddressInLib?
    ensures Run(ops).threads[t].tables.frames.SameLengths() && Run(ops).threads[t].tables.natives.SameLengths()
    ensures n < |ops| && AllowedRun(ops[..n]) && AllowedRun(ops[..n + 1]) && SeenAtCall(ops, n, Run(ops), t, k)
  {
    hide *;
    EveryRunCoherent(ops);
    ThreadLengths(Run(ops), t);
    if ops == [] {
      NoThreadsYet(t);
    } else {
      var before, op := ops[..|ops| - 1], ops[|ops| - 1];
      assert before + [op] == ops;
      RunUnfolds(before, op);
      StepGrows(Run(before), op);
      SmallerFits(Run(before), Run(ops));
      EveryRunCoherent(before);
      StepRemembers(Run(before), op);
      if SeenBefore(Run(before), t, k) {
        n := SymbolAtFirstSight(before, t, k);
        SeenStays(before, op, n, t, k, Run(before), Run(ops));
      } else {
        n := |before|;
        RunTablesSorted(before);
        StepShows(Run(before), op);
        assert ops[..n] == before && ops[..n + 1] == ops;
        SeenNow(ops, n, t, k, Run(before), Run(ops));
      }
    }
  }

  lemma NoThreadsYet(t: nat)
    ensures t >= |Run([]).threads|
  {
  }

  ghost predicate SeenBefore(p: ProfileState, t: nat, k: InternalFrame)
    ensures SeenBefore(p, t, k) ==> t < |p.threads| && k in p.threads[t].tables.frames.index
    ensures SeenBefore(p, t, k) <==> k in TablesAt(p, t).frames.index
  {
    k in TablesAt(p, t).frames.index
  }

  lemma SeenNow(ops: seq<Op>, n: nat, t: nat, k: InternalFrame, p: ProfileState, p': ProfileState)
    requires AllowedRun(ops) && n < |ops| && AllowedRun(ops[..n]) && AllowedRun(ops[..n + 1])
    requires p == Run(ops[..n]) && p' == Run(ops[..n + 1])
    requires CallShows(p, p') && t < |p'.threads| && k in p'.threads[t].tables.frames.index && k.location.AddressInLib?
    requires !SeenBefore(p, t, k)
    requires p'.threads[t].tables.frames.SameLengths() && p'.threads[t].tables.natives.SameLengths()
    ensures SeenAtCall(ops, n, p', t, k)
  {
    hide Run, AllowedRun, CallShows, ShowsFound, Found;
    ShownByCall(p, p', t, k);
  }

  lemma ShownByCall(p: ProfileState, p': ProfileState, t: nat, k: InternalFrame)
    requires CallShows(p, p') && t < |p'.threads| && k in p'.threads[t].tables.frames.index && k.location.AddressInLib?
    requires k !in TablesAt(p, t).frames.index
    ensures p'.threads[t].tables.frames.SameLengths() && p'.threads[t].tables.natives.SameLengths()
    ensures KeyShows(TablesAt(p, t), p'.threads[t].tables, p'.libs, k)
  {
  }

  /** The interned key of frame `i` of a stack, when it lies in a library. */
  lemma KeyOfFrame(p: ProfileState, t: nat, stack: Option<nat>, frames: seq<FrameInfo>, scope: Scope, i: nat) returns (k: InternalFrame)
    requires Coherent(p) && StackReads(p, t, stack, frames, scope) && i < |frames|
    requires MeaningOf(scope, frames[i].frame).Mapped?
    ensures k.location.AddressInLib? && k.location.relative == MeaningOf(scope, frames[i].frame).relative
    ensures k.location.lib < |p.libs.usedLibs| && p.libs.usedLibs[k.location.lib] == MeaningOf(scope, frames[i].frame).library
    ensures k.pair == frames[i].pair && k.flags == frames[i].flags && k in p.threads[t].tables.frames.index
    ensures i < |p.threads[t].stacks.FramesOf(stack)| && p.threads[t].tables.frames.index[k] == p.threads[t].stacks.FramesOf(stack)[i]
  {
    CoherentIsSound(p);
    hide Coherent, MeaningOf;
    assert Represents(p.WorkFor(t), p.threads[t].stacks.FramesOf(stack)[i], frames[i], scope);
    var meaning := MeaningOf(scope, frames[i].frame);
    k := InternalFrame(LocationOf(p.threads[t].tables, p.libs, meaning), frames[i].pair, frames[i].flags);
  }

  /** Each frame of a recorded sample that lies in a library shows the symbol its library's table had for it
      when the frame was first seen on the thread. */
  lemma SampleFrameAtFirstSight(ops: seq<Op>, p: ProfileState, t: nat, row: nat, frames: seq<FrameInfo>, scope: Scope, i: nat)
      returns (k: InternalFrame, n: nat)
    requires AllowedRun(ops) && p == Run(ops) && Fits(p) && forall o :: o in ops ==> GivesSortedTables(o)
    requires SampleReads(p, t, row, frames, scope) && i < |frames| && MeaningOf(scope, frames[i].frame).Mapped?
    ensures p.threads[t].tables.frames.SameLengths() && p.threads[t].tables.natives.SameLengths()
    ensures k.location.AddressInLib? && k.location.relative == MeaningOf(scope, frames[i].frame).relative
    ensures k.location.lib < |p.libs.usedLibs| && p.libs.usedLibs[k.location.lib] == MeaningOf(scope, frames[i].frame).library
    ensures var rows := p.threads[t].stacks.FramesOf(p.threads[t].recorder.samples.stacks[row]);
      i < |rows| && k in p.threads[t].tables.frames.index && p.threads[t].tables.frames.index[k] == rows[i]
    ensures n < |ops| && AllowedRun(ops[..n]) && AllowedRun(ops[..n + 1]) && SeenAtCall(ops, n, p, t, k)
  {
    EveryRunCoherent(ops);
    hide Run, AllowedRun, Coherent, Fits, StackReads, StackShows, GivesSortedTables, SeenAtCall, MeaningOf;
    k := KeyOfFrame(p, t, p.threads[t].recorder.samples.stacks[row], frames, scope, i);
    n := SymbolAtFirstSight(ops, t, k);
  }
}
