/** What was recorded reads back, whatever calls follow: samples and allocation samples. */
module ProfileReadBack {
  import opened CallStacks
  import opened FrameTables
  import opened GlobalLibs
  import opened MarkerTables
  import opened Prelude
  import opened ProfileInvariant
  import opened ProfileModel
  import opened ProfileRuns
  import opened SampleTables
  import opened StackTables
  import opened Threads

  // ----- no call forgets a row -----

  ghost function AllocationTable(th: ThreadState): Allocations {
    if th.allocations.Some? then th.allocations.value else NoAllocations
  }

  ghost predicate AllocationsGrew(a: Allocations, a': Allocations) {
    a.time <= a'.time && a.stacks <= a'.stacks && a.sizes <= a'.sizes && a.addresses <= a'.addresses
  }

  /** Row `row` of the allocation samples. */
  ghost predicate AllocationRowIs(a: Allocations, row: nat, timestamp: u64, address: u64, size: i64) {
    && row < |a.time| && row < |a.stacks| && row < |a.sizes| && row < |a.addresses|
    && a.time[row] == timestamp && a.sizes[row] == size && a.addresses[row] == address
  }

  /** Markers are only appended; their stacks may be replaced. */
  ghost predicate MarkersGrew(m: Markers, m': Markers) {
    && m.categories <= m'.categories && m.names <= m'.names && m.types <= m'.types
    && m.starts <= m'.starts && m.ends <= m'.ends && m.phases <= m'.phases
    && m.numbers <= m'.numbers && m.strings <= m'.strings && |m.stacks| <= |m'.stacks|
  }

  ghost predicate RowsGrew(th: ThreadState, th': ThreadState) {
    && th.recorder.samples.stacks <= th'.recorder.samples.stacks
    && AllocationsGrew(AllocationTable(th), AllocationTable(th')) && MarkersGrew(th.markers, th'.markers)
  }

  ghost predicate ThreadRemembers(th: ThreadState, libs: Libs, th': ThreadState, libs': Libs) {
    WorkGrew(Work(th.tables, th.stacks, libs), Work(th'.tables, th'.stacks, libs')) && RowsGrew(th, th')
  }

  /** Strings and schemas are only appended, and every thread still has the rows it had. */
  ghost predicate Remembers(p: ProfileState, p': ProfileState) {
    && p.strings.strings <= p'.strings.strings && p.schemas <= p'.schemas
    && |p.threads| <= |p'.threads|
    && forall t :: 0 <= t < |p.threads| ==> ThreadRemembers(p.threads[t], p.libs, p'.threads[t], p'.libs)
  }

  /** What a pushed call stack leaves in the tables of its thread. */
  lemma PushStackGrew(p: ProfileState, t: nat, frames: seq<FrameInfo>)
    requires Coherent(p) && t < |p.threads| && AllIssued(frames, p.libs, p.strings)
    requires PushStack(p, t, frames).0.threads[t].tables.Fits()
    ensures p.threads[t].process < |p.processes|
    ensures var (p', stack) := PushStack(p, t, frames);
      && WorkGrew(p.WorkFor(t), p'.WorkFor(t)) && StackReads(p', t, stack, frames, p.ScopeFor(t))
  {
    ScopeForValid(p, t);
    assert p.threads[t].Ok(p.libs, p.strings, p.schemas);
    hide Coherent, ThreadState.Ok, Tables.Coherent, ProfileState.Sound, RepresentsAll, PushFrames, WorkGrew;
    PushFramesRoundTrip(p.WorkFor(t), p.ScopeFor(t), frames);
  }

  lemma PushStackRemembers(p: ProfileState, t: nat, frames: seq<FrameInfo>)
    requires Coherent(p) && t < |p.threads| && AllIssued(frames, p.libs, p.strings)
    requires PushStack(p, t, frames).0.threads[t].tables.Fits()
    ensures p.threads[t].process < |p.processes|
    ensures var (p', stack) := PushStack(p, t, frames);
      && Remembers(p, p') && StackReads(p', t, stack, frames, p.ScopeFor(t))
  {
    hide Coherent, ProfileState.Sound, AllIssued, WorkGrew, StackReads, PushStack, RowsGrew, Remembers;
    CoherentIsSound(p);
    PushStackGrew(p, t, frames);
    var p' := PushStack(p, t, frames).0;
    WorkKeepsRows(p.threads[t], Work(p'.threads[t].tables, p'.threads[t].stacks, p'.libs));
    LibsGrowthRemembers(p, p', t);
  }

  lemma CoherentIsSound(p: ProfileState)
    requires Coherent(p)
    ensures p.Sound()
  {
    hide ProfileState.Sound, ThreadsOk, AllocationsOnFirstThread, MappingsOrdered, RvasExact;
  }

  lemma WorkKeepsRows(th: ThreadState, w: Work)
    ensures RowsGrew(th, th.WithWork(w))
  {
  }

  /** Only one thread's tables and the libraries grew. */
  lemma LibsGrowthRemembers(p: ProfileState, p': ProfileState, t: nat)
    requires t < |p.threads| == |p'.threads| && p'.threads == p.threads[t := p'.threads[t]]
    requires p'.strings == p.strings && p'.schemas == p.schemas
    requires WorkGrew(p.WorkFor(t), Work(p'.threads[t].tables, p'.threads[t].stacks, p'.libs))
    requires RowsGrew(p.threads[t], p'.threads[t])
    ensures Remembers(p, p')
  {
    RemembersSelf(p, p'.libs);
    hide WorkGrew, RowsGrew;
    assert forall i :: 0 <= i < |p.threads| && i != t ==> p'.threads[i] == p.threads[i];
  }

  lemma RemembersSelf(p: ProfileState, libs: Libs)
    requires GlobalLibs.Grew(p.libs, libs)
    ensures forall t :: 0 <= t < |p.threads| ==> ThreadRemembers(p.threads[t], p.libs, p.threads[t], libs)
  {
  }

  lemma RowsGrewTransitive(a: ThreadState, b: ThreadState, c: ThreadState)
    requires RowsGrew(a, b) && RowsGrew(b, c)
    ensures RowsGrew(a, c)
  {
  }

  lemma RemembersTransitive(p0: ProfileState, p1: ProfileState, p2: ProfileState)
    requires Remembers(p0, p1) && Remembers(p1, p2)
    ensures Remembers(p0, p2)
  {
    hide WorkGrew, RowsGrew;
    forall t | 0 <= t < |p0.threads|
      ensures ThreadRemembers(p0.threads[t], p0.libs, p2.threads[t], p2.libs)
    {
      RowsGrewTransitive(p0.threads[t], p1.threads[t], p2.threads[t]);
      WorkGrewTransitive(Work(p0.threads[t].tables, p0.threads[t].stacks, p0.libs),
                         Work(p1.threads[t].tables, p1.threads[t].stacks, p1.libs),
                         Work(p2.threads[t].tables, p2.threads[t].stacks, p2.libs));
    }
  }

  /** A thread updated without touching its tables, its stored rows still there. */
  lemma UpdateRemembers(p: ProfileState, p1: ProfileState, t: nat, th: ThreadState)
    requires Remembers(p, p1) && t < |p1.threads|
    requires th.tables == p1.threads[t].tables && th.stacks == p1.threads[t].stacks
    requires RowsGrew(p1.threads[t], th)
    ensures Remembers(p, UpdateThread(p1, t, th))
  {
    hide WorkGrew, RowsGrew;
    if t < |p.threads| {
      RowsGrewTransitive(p.threads[t], p1.threads[t], th);
    }
  }

  lemma SampleRemembers(p: ProfileState, op: Op)
    requires Coherent(p) && Allowed(p, op) && Fits(Step(p, op)) && op.AddSample?
    ensures Remembers(p, Step(p, op))
  {
    hide ThreadState.Ok, RvasExact, PushStack, StackReads;
    assert SampleAdded(p, op.thread, op.timestamp, op.frames, op.cpuDelta, op.weight).threads[op.thread].tables.Fits();
    PushStackRemembers(p, op.thread, op.frames);
    hide Coherent, ProfileState.Sound, Remembers;
    UpdateRemembers(p, PushStack(p, op.thread, op.frames).0, op.thread, Step(p, op).threads[op.thread]);
  }

  /** An allocation sample goes to the first thread of the process. */
  lemma AllocationUnfolds(p: ProfileState, op: Op, first: nat)
    requires p.Sound() && Allowed(p, op) && op.AddAllocationSample?
    requires p.threads[op.thread].process < |p.processes| && p.processes[p.threads[op.thread].process].threads != []
    requires first == p.AllocationThread(op.thread)
    ensures first < |p.threads| && p.threads[first].process < |p.processes| && AllIssued(op.frames, p.libs, p.strings)
    ensures var (p1, stack) := PushStack(p, first, op.frames);
      var th := AddAllocationTo(p1.threads[first], op.timestamp, stack, op.address, op.size);
      && Step(p, op) == UpdateThread(p1, first, th)
      && RowsGrew(p1.threads[first], th)
      && AllocationTable(th) == AllocationTable(p.threads[first]).Add(op.timestamp, stack, op.address, op.size)
      && AllocationTable(p.threads[first]).SameLengths()
  {
    hide PushStack, ProfileState.Sound, AllIssued, RowsGrew, AllocationTable, AddAllocationTo;
    ScopeForValid(p, op.thread);
    SoundAllocations(p, first);
    var (p1, stack) := PushStack(p, first, op.frames);
    AllocationAppends(p1.threads[first], op.timestamp, stack, op.address, op.size);
    WorkKeepsAllocations(p.threads[first], Work(p1.threads[first].tables, p1.threads[first].stacks, p1.libs));
  }

  lemma SoundAllocations(p: ProfileState, t: nat)
    requires p.Sound() && t < |p.threads|
    ensures AllocationTable(p.threads[t]).SameLengths() && p.threads[t].process < |p.processes|
  {
    assert p.threads[t].Sound(p.libs);
  }

  lemma AllocationAppends(th: ThreadState, timestamp: u64, stack: Option<nat>, address: u64, size: i64)
    ensures var th' := AddAllocationTo(th, timestamp, stack, address, size);
      RowsGrew(th, th') && AllocationTable(th') == AllocationTable(th).Add(timestamp, stack, address, size)
  {
  }

  lemma WorkKeepsAllocations(th: ThreadState, w: Work)
    ensures AllocationTable(th.WithWork(w)) == AllocationTable(th)
  {
  }

  lemma AllocationRemembers(p: ProfileState, op: Op)
    requires Coherent(p) && Allowed(p, op) && Fits(Step(p, op)) && op.AddAllocationSample?
    ensures Remembers(p, Step(p, op))
  {
    hide Step, Allowed, PushStack, StackReads, RowsGrew, Remembers, AllocationTable, Coherent,
      ProfileState.Sound, AllIssued;
    CoherentIsSound(p);
    AllocationHappens(p, op);
    ScopeForValid(p, op.thread);
    var first := p.AllocationThread(op.thread);
    AllocationUnfolds(p, op, first);
    assert Step(p, op).threads[first].tables.Fits();
    PushStackRemembers(p, first, op.frames);
    var (p1, stack) := PushStack(p, first, op.frames);
    UpdateRemembers(p, p1, first, Step(p, op).threads[first]);
  }

  lemma AllocationHappens(p: ProfileState, op: Op)
    requires p.Sound() && Allowed(p, op) && op.AddAllocationSample?
    ensures op.thread < |p.threads| && p.threads[op.thread].process < |p.processes|
  {
  }

  lemma MarkerStackRemembers(p: ProfileState, op: Op)
    requires Coherent(p) && Allowed(p, op) && Fits(Step(p, op)) && op.SetMarkerStack?
    ensures Remembers(p, Step(p, op))
  {
    hide PushStack, StackReads, Coherent, ProfileState.Sound, Remembers, AllIssued;
    CoherentIsSound(p);
    assert MarkerStackSet(p, op.thread, op.markerIndex, op.frames).threads[op.thread].tables.Fits();
    PushStackRemembers(p, op.thread, op.frames);
    UpdateRemembers(p, PushStack(p, op.thread, op.frames).0, op.thread, Step(p, op).threads[op.thread]);
  }

  lemma MarkerRowsGrow(p: ProfileState, op: Op)
    requires p.Sound() && Allowed(p, op) && op.AddMarker?
    ensures op.thread < |p.threads| && RowsGrew(p.threads[op.thread], Step(p, op).threads[op.thread])
  {
    hide ProfileState.Sound;
  }

  lemma MarkerWorkGrows(p: ProfileState, op: Op)
    requires p.Sound() && Allowed(p, op) && op.AddMarker?
    ensures op.thread < |p.threads| && WorkGrew(p.WorkFor(op.thread), Step(p, op).WorkFor(op.thread))
  {
    hide ProfileState.Sound;
    var strings := p.threads[op.thread].tables.strings;
    ConvertFieldsConverts(p.schemas[op.marker.markerType].fields, 0, op.marker, strings.Convert(op.marker.name, p.strings).0, p.strings);
  }

  lemma MarkerRemembers(p: ProfileState, op: Op)
    requires p.Sound() && Allowed(p, op) && op.AddMarker?
    ensures Remembers(p, Step(p, op))
  {
    hide ProfileState.Sound, WorkGrew, RowsGrew, Remembers;
    MarkerRowsGrow(p, op);
    MarkerWorkGrows(p, op);
    LibsGrowthRemembers(p, Step(p, op), op.thread);
  }

  lemma LibraryCallRemembers(p: ProfileState, op: Op)
    requires p.Sound() && Allowed(p, op) && (op.AddLib? || op.SetLibSymbolTable?)
    ensures Remembers(p, Step(p, op))
  {
    match op {
      case AddLib(library) => HandleForCoherent(p.libs, library);
      case SetLibSymbolTable(library, table) => SetSymbolTableCoherent(p.libs, library, table);
      case _ =>
    }
    hide ProfileState.Sound, ThreadRemembers;
    RemembersSelf(p, Step(p, op).libs);
  }

  lemma SameSampleKeepsRows(p: ProfileState, op: Op, t: nat)
    requires p.Sound() && Allowed(p, op) && op.AddSampleSameStackZeroCpu? && t < |p.threads|
    ensures t < |Step(p, op).threads| && RowsGrew(p.threads[t], Step(p, op).threads[t])
  {
    hide ProfileState.Sound;
  }

  lemma FieldCallKeepsRows(p: ProfileState, op: Op, t: nat)
    requires p.Sound() && Allowed(p, op) && !op.AddLib? && !op.SetLibSymbolTable? && !op.AddSampleSameStackZeroCpu?
    requires !op.AddSample? && !op.AddAllocationSample? && !op.SetMarkerStack? && !op.AddMarker? && t < |p.threads|
    ensures t < |Step(p, op).threads| && RowsGrew(p.threads[t], Step(p, op).threads[t])
  {
    hide ProfileState.Sound;
    var th, th' := p.threads[t], Step(p, op).threads[t];
    assert th'.recorder == th.recorder && th'.allocations == th.allocations && th'.markers == th.markers;
  }

  lemma PlainCallKeepsTables(p: ProfileState, op: Op)
    requires p.Sound() && Allowed(p, op) && !op.AddLib? && !op.SetLibSymbolTable?
    requires !op.AddSample? && !op.AddAllocationSample? && !op.SetMarkerStack? && !op.AddMarker?
    ensures var p' := Step(p, op);
      && p'.libs == p.libs && p.strings.strings <= p'.strings.strings && p.schemas <= p'.schemas && |p.threads| <= |p'.threads|
      && forall t :: 0 <= t < |p.threads| ==> p'.threads[t].tables == p.threads[t].tables && p'.threads[t].stacks == p.threads[t].stacks
  {
    hide ProfileState.Sound;
  }

  lemma PlainCallRemembers(p: ProfileState, op: Op)
    requires p.Sound() && Allowed(p, op) && !op.AddLib? && !op.SetLibSymbolTable?
    requires !op.AddSample? && !op.AddAllocationSample? && !op.SetMarkerStack? && !op.AddMarker?
    ensures Remembers(p, Step(p, op))
  {
    hide Step, Allowed, ProfileState.Sound, WorkGrew, RowsGrew;
    var p' := Step(p, op);
    PlainCallKeepsTables(p, op);
    forall t | 0 <= t < |p.threads|
      ensures ThreadRemembers(p.threads[t], p.libs, p'.threads[t], p'.libs)
    {
      WorkGrewReflexive(Work(p.threads[t].tables, p.threads[t].stacks, p.libs));
      if op.AddSampleSameStackZeroCpu? {
        SameSampleKeepsRows(p, op, t);
      } else {
        FieldCallKeepsRows(p, op, t);
      }
    }
  }

  /** No call forgets or renumbers a row of any thread. */
  lemma StepRemembers(p: ProfileState, op: Op)
    requires Coherent(p) && Allowed(p, op) && Fits(Step(p, op))
    ensures Remembers(p, Step(p, op))
  {
    assert p.Sound();
    hide Step, Coherent, Allowed, ProfileState.Sound, Remembers, Fits;
    match op {
      case AddSample(_, _, _, _, _) => SampleRemembers(p, op);
      case AddAllocationSample(_, _, _, _, _) => AllocationRemembers(p, op);
      case SetMarkerStack(_, _, _) => MarkerStackRemembers(p, op);
      case AddMarker(_, _, _) => MarkerRemembers(p, op);
      case AddLib(_) => LibraryCallRemembers(p, op);
      case SetLibSymbolTable(_, _) => LibraryCallRemembers(p, op);
      case _ => PlainCallRemembers(p, op);
    }
  }

  lemma {:induction false} RunRemembers(ops: seq<Op>, more: seq<Op>)
    requires AllowedRun(ops) && AllowedRun(ops + more) && Fits(Run(ops + more))
    ensures Fits(Run(ops)) && Remembers(Run(ops), Run(ops + more))
    decreases |more|
  {
    hide *;
    if more == [] {
      assert ops + more == ops;
      RemembersReflexive(Run(ops));
    } else {
      var before, op := ops + more[..|more| - 1], more[|more| - 1];
      assert before + [op] == ops + more;
      RunUnfolds(before, op);
      StepGrows(Run(before), op);
      SmallerFits(Run(before), Step(Run(before), op));
      EveryRunCoherent(before);
      RunRemembers(ops, more[..|more| - 1]);
      StepRemembers(Run(before), op);
      RemembersTransitive(Run(ops), Run(before), Run(ops + more));
    }
  }

  lemma RemembersReflexive(p: ProfileState)
    ensures Remembers(p, p)
  {
    RemembersSelf(p, p.libs);
  }

  /** What one call and the calls before and after it amount to. */
  lemma AroundCall(ops: seq<Op>, op: Op, more: seq<Op>)
    requires AllowedRun(ops) && AllowedRun(ops + [op] + more) && Fits(Run(ops + [op] + more))
    ensures var p, p' := Run(ops), Run(ops + [op] + more);
      && Coherent(p) && Allowed(p, op) && Fits(Step(p, op)) && Coherent(Step(p, op)) && Coherent(p')
      && Remembers(Step(p, op), p') && AllowedRun(ops + [op]) && Run(ops + [op]) == Step(p, op)
  {
    hide *;
    AllowedPrefix(ops + [op], more);
    RunUnfolds(ops, op);
    RunRemembers(ops + [op], more);
    StepGrows(Run(ops), op);
    SmallerFits(Run(ops), Step(Run(ops), op));
    EveryRunCoherent(ops);
    EveryRunCoherent(ops + [op]);
    EveryRunCoherent(ops + [op] + more);
  }

  // ----- stacks -----

  /** A stack index of a thread stands for these frames. */
  ghost predicate StackReads(p: ProfileState, t: nat, stack: Option<nat>, frames: seq<FrameInfo>, scope: Scope) {
    && t < |p.threads| && p.threads[t].stacks.Coherent() && p.threads[t].stacks.Holds(stack)
    && RepresentsAll(p.WorkFor(t), p.threads[t].stacks.FramesOf(stack), frames, scope)
  }

  ghost predicate ColumnsAligned(t: Tables) {
    t.frames.SameLengths() && t.natives.SameLengths() && |t.funcs.names| == |t.funcs.resources| == |t.funcs.flags|
  }

  /** Walking the prefixes from the index gives one row per frame, in order, and the columns of each row
      show the frame as it was resolved when it was recorded. */
  ghost predicate StackShows(p: ProfileState, t: nat, stack: Option<nat>, frames: seq<FrameInfo>, scope: Scope) {
    && t < |p.threads| && p.threads[t].stacks.Coherent() && p.threads[t].stacks.Holds(stack)
    && ColumnsAligned(p.threads[t].tables)
    && var rows := p.threads[t].stacks.FramesOf(stack);
       && |rows| == |frames|
       && forall k :: 0 <= k < |rows| ==> RowShows(p.WorkFor(t), p.strings, rows[k], frames[k], scope)
  }

  lemma StackReadsStable(p: ProfileState, p': ProfileState, t: nat, stack: Option<nat>, frames: seq<FrameInfo>, scope: Scope)
    requires StackReads(p, t, stack, frames, scope) && Remembers(p, p') && p.Sound() && Coherent(p')
    ensures StackReads(p', t, stack, frames, scope)
  {
    assert ThreadRemembers(p.threads[t], p.libs, p'.threads[t], p'.libs);
    assert p'.threads[t].Ok(p'.libs, p'.strings, p'.schemas);
    hide Tables.Coherent, TablesGrew, Splittable, RowsGrew;
    FramesOfStable(p.threads[t].stacks, p'.threads[t].stacks, stack);
    RepresentsAllStable(p.WorkFor(t), p'.WorkFor(t), p.threads[t].stacks.FramesOf(stack), frames, scope);
  }

  lemma StackReadsShows(p: ProfileState, t: nat, stack: Option<nat>, frames: seq<FrameInfo>, scope: Scope)
    requires Coherent(p) && StackReads(p, t, stack, frames, scope)
    ensures StackShows(p, t, stack, frames, scope)
  {
    assert p.threads[t].Ok(p.libs, p.strings, p.schemas);
    var rows := p.threads[t].stacks.FramesOf(stack);
    assert ColumnsAligned(p.threads[t].tables) && p.WorkFor(t).Coherent(p.strings);
    hide Tables.Coherent, ThreadState.Ok, Coherent, RowShows, ProfileState.Sound, Work.Coherent;
    forall k | 0 <= k < |rows|
      ensures RowShows(p.WorkFor(t), p.strings, rows[k], frames[k], scope)
    {
      RepresentingRowShowsFrame(p.WorkFor(t), p.strings, rows[k], frames[k], scope);
    }
  }

  /** Two stack indexes of a thread are equal exactly when they were made from the same frames. */
  lemma EqualStacksIffSameFrames(p: ProfileState, t: nat, stack: Option<nat>, frames: seq<FrameInfo>, scope: Scope,
                                 other: Option<nat>, frames': seq<FrameInfo>, scope': Scope)
    requires Coherent(p) && StackReads(p, t, stack, frames, scope) && StackReads(p, t, other, frames', scope')
    ensures stack == other <==> SameFrames(frames, scope, frames', scope')
  {
    assert p.threads[t].Ok(p.libs, p.strings, p.schemas);
    hide Tables.Coherent, Splittable;
    StacksIdentifyCallStacks(p.WorkFor(t), stack, frames, scope, other, frames', scope', p.strings);
  }

  // ----- samples -----

  /** Row `row` of a thread's samples stands for these frames, and shows them. */
  ghost predicate SampleReads(p: ProfileState, t: nat, row: nat, frames: seq<FrameInfo>, scope: Scope) {
    && t < |p.threads| && row < |p.threads[t].recorder.samples.stacks|
    && StackReads(p, t, p.threads[t].recorder.samples.stacks[row], frames, scope)
    && StackShows(p, t, p.threads[t].recorder.samples.stacks[row], frames, scope)
  }

  lemma SampleReadsAfterStep(p: ProfileState, op: Op)
    requires Coherent(p) && Allowed(p, op) && Fits(Step(p, op)) && op.AddSample?
    ensures var row := |p.threads[op.thread].recorder.samples.stacks|;
      var p' := Step(p, op);
      && op.thread < |p'.threads| && row < |p'.threads[op.thread].recorder.samples.stacks|
      && StackReads(p', op.thread, p'.threads[op.thread].recorder.samples.stacks[row], op.frames, p.ScopeFor(op.thread))
  {
    hide ThreadState.Ok, RvasExact, PushStack, StackReads;
    assert SampleAdded(p, op.thread, op.timestamp, op.frames, op.cpuDelta, op.weight).threads[op.thread].tables.Fits();
    PushStackRemembers(p, op.thread, op.frames);
    hide Coherent, ProfileState.Sound, Remembers, Tables.Coherent;
    var (p1, stack) := PushStack(p, op.thread, op.frames);
    UpdateKeepsStack(p1, Step(p, op), op.thread, stack, op.frames, p.ScopeFor(op.thread));
  }

  /** Rows added to a thread do not change what its stacks stand for. */
  lemma UpdateKeepsStack(p: ProfileState, p': ProfileState, t: nat, stack: Option<nat>, frames: seq<FrameInfo>, scope: Scope)
    requires StackReads(p, t, stack, frames, scope) && t < |p'.threads| && p'.libs == p.libs
    requires p'.threads[t].tables == p.threads[t].tables && p'.threads[t].stacks == p.threads[t].stacks
    ensures StackReads(p', t, stack, frames, scope)
  {
    hide RepresentsAll, Stacks.Coherent, Stacks.Holds;
  }

  /** A recorded sample reads back as the frames it was recorded with, resolved with the mappings of
      that moment, whatever calls follow. */
  lemma RecordedSampleReadsBack(ops: seq<Op>, op: Op, more: seq<Op>, p: ProfileState)
    requires op.AddSample? && AllowedRun(ops) && p == Run(ops)
    requires AllowedRun(ops + [op] + more) && Fits(Run(ops + [op] + more)) && op.thread < |p.threads|
    ensures p.threads[op.thread].process < |p.processes|
    ensures SampleReads(Run(ops + [op] + more), op.thread, |p.threads[op.thread].recorder.samples.stacks|,
                        op.frames, p.ScopeFor(op.thread))
  {
    assert p.threads[op.thread].process < |p.processes|;
    AroundCall(ops, op, more);
    var p1, p2, row := Step(p, op), Run(ops + [op] + more), |p.threads[op.thread].recorder.samples.stacks|;
    assert p1.Sound();
    hide Coherent, ProfileState.Sound, Fits, Allowed, Step, StackReads, StackShows, WorkGrew, Run, AllowedRun;
    SampleReadsAfterStep(p, op);
    var stack := p1.threads[op.thread].recorder.samples.stacks[row];
    assert ThreadRemembers(p1.threads[op.thread], p1.libs, p2.threads[op.thread], p2.libs);
    assert p2.threads[op.thread].recorder.samples.stacks[row] == stack;
    hide Remembers, ThreadRemembers;
    StackReadsStable(p1, p2, op.thread, stack, op.frames, p.ScopeFor(op.thread));
    StackReadsShows(p2, op.thread, stack, op.frames, p.ScopeFor(op.thread));
  }

  /** Two samples of a thread share a stack index exactly when they were recorded with the same frames. */
  lemma SamplesShareStackIffSameFrames(p: ProfileState, t: nat, row: nat, frames: seq<FrameInfo>, scope: Scope,
                                       other: nat, frames': seq<FrameInfo>, scope': Scope)
    requires Coherent(p) && SampleReads(p, t, row, frames, scope) && SampleReads(p, t, other, frames', scope')
    ensures var stacks := p.threads[t].recorder.samples.stacks;
      stacks[row] == stacks[other] <==> SameFrames(frames, scope, frames', scope')
  {
    hide Coherent, StackReads, StackShows;
    var stacks := p.threads[t].recorder.samples.stacks;
    EqualStacksIffSameFrames(p, t, stacks[row], frames, scope, stacks[other], frames', scope');
  }

  // ----- allocation samples -----

  /** Row `row` of a thread's allocation samples has this time, address and size, and stands for these frames. */
  ghost predicate AllocationReads(p: ProfileState, t: nat, row: nat, op: Op, scope: Scope)
    requires op.AddAllocationSample?
  {
    && t < |p.threads| && AllocationRowIs(AllocationTable(p.threads[t]), row, op.timestamp, op.address, op.size)
    && StackReads(p, t, AllocationTable(p.threads[t]).stacks[row], op.frames, scope)
    && StackShows(p, t, AllocationTable(p.threads[t]).stacks[row], op.frames, scope)
  }

  lemma AllocationReadsAfterStep(p: ProfileState, op: Op, first: nat)
    requires Coherent(p) && Allowed(p, op) && Fits(Step(p, op)) && op.AddAllocationSample?
    requires first < |p.threads| && p.threads[op.thread].process < |p.processes|
    requires p.processes[p.threads[op.thread].process].threads != [] && first == p.AllocationThread(op.thread)
    requires p.threads[first].process < |p.processes|
    ensures var row := |AllocationTable(p.threads[first]).stacks|;
      var p' := Step(p, op);
      && first < |p'.threads| && AllocationRowIs(AllocationTable(p'.threads[first]), row, op.timestamp, op.address, op.size)
      && StackReads(p', first, AllocationTable(p'.threads[first]).stacks[row], op.frames, p.ScopeFor(first))
  {
    hide Step, Allowed, PushStack, StackReads, RowsGrew, Remembers, AllocationTable, Coherent, ProfileState.Sound, AllIssued;
    CoherentIsSound(p);
    AllocationUnfolds(p, op, first);
    assert Step(p, op).threads[first].tables.Fits();
    PushStackRemembers(p, first, op.frames);
    var (p1, stack) := PushStack(p, first, op.frames);
    UpdateKeepsStack(p1, Step(p, op), first, stack, op.frames, p.ScopeFor(first));
  }

  lemma AllocationRowStays(a: Allocations, a': Allocations, row: nat, timestamp: u64, address: u64, size: i64)
    requires AllocationsGrew(a, a') && AllocationRowIs(a, row, timestamp, address, size)
    ensures AllocationRowIs(a', row, timestamp, address, size) && a'.stacks[row] == a.stacks[row]
  {
  }

  /** An allocation sample is found on the first thread of its process and reads back there. */
  lemma RecordedAllocationReadsBack(ops: seq<Op>, op: Op, more: seq<Op>, p: ProfileState, first: nat)
    requires op.AddAllocationSample? && AllowedRun(ops) && p == Run(ops)
    requires AllowedRun(ops + [op] + more) && Fits(Run(ops + [op] + more))
    requires op.thread < |p.threads| && p.threads[op.thread].process < |p.processes|
    requires p.processes[p.threads[op.thread].process].threads != [] && first == p.AllocationThread(op.thread)
    ensures first < |p.threads| && p.threads[first].process < |p.processes|
    ensures AllocationReads(Run(ops + [op] + more), first, |AllocationTable(p.threads[first]).stacks|, op, p.ScopeFor(first))
  {
    ScopeForValid(p, op.thread);
    assert p.threads[first].process < |p.processes|;
    AroundCall(ops, op, more);
    var p1, p2, row := Step(p, op), Run(ops + [op] + more), |AllocationTable(p.threads[first]).stacks|;
    assert p1.Sound();
    hide Coherent, ProfileState.Sound, Fits, Allowed, Step, StackReads, StackShows, WorkGrew, Run, AllowedRun, AllocationTable,
      AllocationsGrew, AllocationRowIs;
    AllocationReadsAfterStep(p, op, first);
    var before, after := AllocationTable(p1.threads[first]), AllocationTable(p2.threads[first]);
    assert ThreadRemembers(p1.threads[first], p1.libs, p2.threads[first], p2.libs);
    AllocationRowStays(before, after, row, op.timestamp, op.address, op.size);
    hide Remembers, ThreadRemembers;
    StackReadsStable(p1, p2, first, after.stacks[row], op.frames, p.ScopeFor(first));
    StackReadsShows(p2, first, after.stacks[row], op.frames, p.ScopeFor(first));
  }
}
