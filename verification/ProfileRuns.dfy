/** Runs of public calls with arithmetic as in release builds: none panics, every profile they reach is
    coherent, and process and thread ids stay distinct. */
module ProfileRuns {
  import opened CallStacks
  import opened FrameTables
  import opened LibMappings
  import opened MarkerTables
  import opened Prelude
  import opened ProfileInvariant
  import opened ProfileModel
  import opened Threads
  import opened UniqueIds

  ghost predicate AllowedRun(ops: seq<Op>)
    decreases |ops|, 0
  {
    ops != [] ==> AllowedRun(ops[..|ops| - 1]) && Allowed(Run(ops[..|ops| - 1]), ops[|ops| - 1])
  }

  /** The profile after a run of calls on a new profile. */
  ghost function Run(ops: seq<Op>): (p: ProfileState)
    requires AllowedRun(ops)
    ensures p.Sound()
    decreases |ops|, 1
  {
    if ops == [] then EmptyProfile
    else
      StepKeepsSound(Run(ops[..|ops| - 1]), ops[|ops| - 1]);
      Step(Run(ops[..|ops| - 1]), ops[|ops| - 1])
  }

  /** Calls only add to the tables. */
  ghost predicate SizesGrow(p: ProfileState, p': ProfileState) {
    && |p.strings.strings| <= |p'.strings.strings| && |p.threads| <= |p'.threads|
    && forall t :: 0 <= t < |p.threads| ==> NoSmaller(p.threads[t].tables, p'.threads[t].tables)
  }

  lemma PushStackGrows(p: ProfileState, t: nat, frames: seq<FrameInfo>)
    requires p.Sound() && t < |p.threads| && AllIssued(frames, p.libs, p.strings)
    ensures SizesGrow(p, PushStack(p, t, frames).0)
  {
    ScopeForValid(p, t);
    PushFramesNoSmaller(p.WorkFor(t), p.ScopeFor(t), frames);
  }

  lemma MarkerGrows(p: ProfileState, t: nat, timing: Timing, marker: Marker)
    requires p.Sound() && Allowed(p, AddMarker(t, timing, marker))
    ensures SizesGrow(p, MarkerAdded(p, t, timing, marker).0)
  {
    hide ProfileState.Sound;
    var strings := p.threads[t].tables.strings;
    ConvertFieldsConverts(p.schemas[marker.markerType].fields, 0, marker, strings.Convert(marker.name, p.strings).0, p.strings);
  }

  lemma SampleGrows(p: ProfileState, op: Op)
    requires p.Sound() && Allowed(p, op) && op.AddSample?
    ensures SizesGrow(p, Step(p, op))
  {
    PushStackGrows(p, op.thread, op.frames);
    hide PushStack, ProfileState.Sound, NoSmaller;
  }

  lemma AllocationGrows(p: ProfileState, op: Op)
    requires p.Sound() && Allowed(p, op) && op.AddAllocationSample?
    ensures SizesGrow(p, Step(p, op))
  {
    ScopeForValid(p, op.thread);
    PushStackGrows(p, p.AllocationThread(op.thread), op.frames);
    hide PushStack, ProfileState.Sound, NoSmaller;
  }

  lemma MarkerStackGrows(p: ProfileState, op: Op)
    requires p.Sound() && Allowed(p, op) && op.SetMarkerStack?
    ensures SizesGrow(p, Step(p, op))
  {
    PushStackGrows(p, op.thread, op.frames);
    hide PushStack, ProfileState.Sound, NoSmaller;
  }

  lemma MarkerCallGrows(p: ProfileState, op: Op)
    requires p.Sound() && Allowed(p, op) && op.AddMarker?
    ensures SizesGrow(p, Step(p, op))
  {
    hide ProfileState.Sound;
    MarkerGrows(p, op.thread, op.timing, op.marker);
  }

  lemma OtherCallGrows(p: ProfileState, op: Op)
    requires p.Sound() && Allowed(p, op)
    requires !op.AddSample? && !op.AddAllocationSample? && !op.SetMarkerStack? && !op.AddMarker?
    ensures SizesGrow(p, Step(p, op))
  {
    hide ProfileState.Sound, PushStack;
  }

  lemma StepGrows(p: ProfileState, op: Op)
    requires p.Sound() && Allowed(p, op)
    ensures SizesGrow(p, Step(p, op))
  {
    hide Step, ProfileState.Sound, SizesGrow, Allowed;
    match op {
      case AddSample(_, _, _, _, _) => SampleGrows(p, op);
      case AddAllocationSample(_, _, _, _, _) => AllocationGrows(p, op);
      case SetMarkerStack(_, _, _) => MarkerStackGrows(p, op);
      case AddMarker(_, _, _) => MarkerCallGrows(p, op);
      case _ => OtherCallGrows(p, op);
    }
  }

  /** Over every run of calls with issued handles, the reached profile is coherent if its 32-bit indexes fit. */
  lemma {:induction false} EveryRunCoherent(ops: seq<Op>)
    requires AllowedRun(ops) && Fits(Run(ops))
    ensures Coherent(Run(ops))
  {
    hide Step;
    if ops != [] {
      var before, op := Run(ops[..|ops| - 1]), ops[|ops| - 1];
      StepGrows(before, op);
      EveryRunCoherent(ops[..|ops| - 1]);
      StepKeepsCoherent(before, op);
    }
  }

  // ----- process and thread ids -----

  ghost function Pids(p: ProfileState): seq<string> {
    seq(|p.processes|, i requires 0 <= i < |p.processes| => p.processes[i].pid)
  }

  ghost function Tids(p: ProfileState): seq<string> {
    seq(|p.threads|, i requires 0 <= i < |p.threads| => p.threads[i].tid)
  }

  /** All texts were handed out, no two of them the same. */
  ghost predicate DistinctIds(texts: seq<string>, used: map<u32, nat>) {
    && Counting(used)
    && (forall i :: 0 <= i < |texts| ==> HandedOut(used, texts[i]))
    && (forall i, j :: 0 <= i < j < |texts| ==> texts[i] != texts[j])
  }

  lemma DistinctAfterAppend(texts: seq<string>, used: map<u32, nat>, id: u32)
    requires DistinctIds(texts, used)
    ensures var (used', text) := MakeUnique(used, id); DistinctIds(texts + [text], used')
  {
    TextIsFresh(used, id);
  }

  lemma DistinctAfterReplace(texts: seq<string>, used: map<u32, nat>, id: u32, i: nat)
    requires DistinctIds(texts, used) && i < |texts|
    ensures var (used', text) := MakeUnique(used, id); DistinctIds(texts[i := text], used')
  {
    TextIsFresh(used, id);
  }

  lemma UpdateKeepsIds(p: ProfileState, p1: ProfileState, t: nat, th: ThreadState)
    requires t < |p.threads| == |p1.threads| && th.tid == p.threads[t].tid
    requires p1.processes == p.processes && (forall i :: 0 <= i < |p.threads| ==> p1.threads[i].tid == p.threads[i].tid)
    requires p1.usedPids == p.usedPids && p1.usedTids == p.usedTids
    ensures SameIds(p, UpdateThread(p1, t, th))
  {
    assert Tids(UpdateThread(p1, t, th)) == Tids(p);
  }

  ghost predicate SameIds(p: ProfileState, p': ProfileState) {
    Pids(p') == Pids(p) && Tids(p') == Tids(p) && p'.usedPids == p.usedPids && p'.usedTids == p.usedTids
  }

  lemma SampleKeepsIds(p: ProfileState, op: Op)
    requires p.Sound() && Allowed(p, op) && op.AddSample?
    ensures SameIds(p, Step(p, op))
  {
    hide ProfileState.Sound, PushStack, SameIds;
    UpdateKeepsIds(p, PushStack(p, op.thread, op.frames).0, op.thread, Step(p, op).threads[op.thread]);
  }

  lemma AllocationKeepsIds(p: ProfileState, op: Op)
    requires p.Sound() && Allowed(p, op) && op.AddAllocationSample?
    ensures SameIds(p, Step(p, op))
  {
    ScopeForValid(p, op.thread);
    hide ProfileState.Sound, PushStack, SameIds;
    var first := p.AllocationThread(op.thread);
    UpdateKeepsIds(p, PushStack(p, first, op.frames).0, first, Step(p, op).threads[first]);
  }

  lemma MarkerStackKeepsIds(p: ProfileState, op: Op)
    requires p.Sound() && Allowed(p, op) && op.SetMarkerStack?
    ensures SameIds(p, Step(p, op))
  {
    hide ProfileState.Sound, PushStack, SameIds;
    UpdateKeepsIds(p, PushStack(p, op.thread, op.frames).0, op.thread, Step(p, op).threads[op.thread]);
  }

  lemma PlainCallsKeepIds(p: ProfileState, op: Op)
    requires p.Sound() && Allowed(p, op) && !op.AddProcess? && !op.AddThread? && !op.SetThreadTid?
    requires !op.AddSample? && !op.AddAllocationSample? && !op.SetMarkerStack?
    ensures SameIds(p, Step(p, op))
  {
    hide ProfileState.Sound;
    assert Tids(Step(p, op)) == Tids(p);
    assert Pids(Step(p, op)) == Pids(p);
  }

  lemma OtherCallsKeepIds(p: ProfileState, op: Op)
    requires p.Sound() && Allowed(p, op) && !op.AddProcess? && !op.AddThread? && !op.SetThreadTid?
    ensures SameIds(p, Step(p, op))
  {
    hide Step, SameIds, Allowed, ProfileState.Sound;
    match op {
      case AddSample(_, _, _, _, _) => SampleKeepsIds(p, op);
      case AddAllocationSample(_, _, _, _, _) => AllocationKeepsIds(p, op);
      case SetMarkerStack(_, _, _) => MarkerStackKeepsIds(p, op);
      case _ => PlainCallsKeepIds(p, op);
    }
  }

  lemma IdCallsChangeIds(p: ProfileState, op: Op)
    requires p.Sound() && Allowed(p, op)
    ensures var p' := Step(p, op);
      && (op.AddProcess? ==>
           && Pids(p') == Pids(p) + [MakeUnique(p.usedPids, op.pid).1] && p'.usedPids == MakeUnique(p.usedPids, op.pid).0
           && Tids(p') == Tids(p) && p'.usedTids == p.usedTids)
      && (op.AddThread? ==>
           && Tids(p') == Tids(p) + [MakeUnique(p.usedTids, op.tid).1] && p'.usedTids == MakeUnique(p.usedTids, op.tid).0
           && Pids(p') == Pids(p) && p'.usedPids == p.usedPids)
      && (op.SetThreadTid? ==>
           && op.thread < |Tids(p)|
           && Tids(p') == Tids(p)[op.thread := MakeUnique(p.usedTids, op.tid).1]
           && p'.usedTids == MakeUnique(p.usedTids, op.tid).0 && Pids(p') == Pids(p) && p'.usedPids == p.usedPids)
  {
    hide ProfileState.Sound, MakeUnique;
  }

  lemma StepKeepsIdsDistinct(p: ProfileState, op: Op)
    requires p.Sound() && Allowed(p, op) && DistinctIds(Pids(p), p.usedPids) && DistinctIds(Tids(p), p.usedTids)
    ensures DistinctIds(Pids(Step(p, op)), Step(p, op).usedPids) && DistinctIds(Tids(Step(p, op)), Step(p, op).usedTids)
  {
    hide Step, Allowed, ProfileState.Sound, DistinctIds, HandedOut, MakeUnique, Pids, Tids;
    IdCallsChangeIds(p, op);
    match op {
      case AddProcess(_, pid, _) => DistinctAfterAppend(Pids(p), p.usedPids, pid);
      case AddThread(_, tid, _, _) => DistinctAfterAppend(Tids(p), p.usedTids, tid);
      case SetThreadTid(t, tid) => DistinctAfterReplace(Tids(p), p.usedTids, tid, t);
      case _ => OtherCallsKeepIds(p, op);
    }
  }

  /** Over every run no two processes share a pid text and no two threads a tid text. */
  lemma {:induction false} IdsAlwaysDistinct(ops: seq<Op>)
    requires AllowedRun(ops)
    ensures DistinctIds(Pids(Run(ops)), Run(ops).usedPids) && DistinctIds(Tids(Run(ops)), Run(ops).usedTids)
  {
    hide Step;
    if ops != [] {
      IdsAlwaysDistinct(ops[..|ops| - 1]);
      StepKeepsIdsDistinct(Run(ops[..|ops| - 1]), ops[|ops| - 1]);
    }
  }

  // ----- prefixes of runs -----

  lemma {:induction false} AllowedPrefix(ops: seq<Op>, more: seq<Op>)
    requires AllowedRun(ops + more)
    ensures AllowedRun(ops)
    decreases |more|
  {
    if more == [] {
      assert ops + more == ops;
    } else {
      var all := ops + more;
      assert all[..|all| - 1] == ops + more[..|more| - 1];
      AllowedPrefix(ops, more[..|more| - 1]);
    }
  }

  lemma RunUnfolds(ops: seq<Op>, op: Op)
    requires AllowedRun(ops + [op])
    ensures AllowedRun(ops) && Allowed(Run(ops), op) && Run(ops + [op]) == Step(Run(ops), op)
  {
    hide Step, Allowed;
    assert (ops + [op])[..|ops + [op]| - 1] == ops;
  }

  lemma SmallerFits(p: ProfileState, p': ProfileState)
    requires SizesGrow(p, p') && Fits(p')
    ensures Fits(p)
  {
  }

  // ----- address spaces -----

  ghost predicate MappingsDisjoint(p: ProfileState) {
    SortedDisjoint(p.kernelLibs) && forall i :: 0 <= i < |p.processes| ==> SortedDisjoint(p.processes[i].libs)
  }

  /** Every mapping the call adds is clean. */
  ghost predicate CleanCall(p: ProfileState, op: Op) {
    match op
    case ChangeLibMappings(process, mapOp) => process < |p.processes| && OpIsClean(p.processes[process].libs, mapOp)
    case ChangeKernelLibMappings(mapOp) => OpIsClean(p.kernelLibs, mapOp)
    case _ => true
  }

  ghost predicate SameMappings(p: ProfileState, p': ProfileState) {
    && p'.kernelLibs == p.kernelLibs && |p.processes| <= |p'.processes|
    && (forall i :: 0 <= i < |p.processes| ==> p'.processes[i].libs == p.processes[i].libs)
    && (forall i :: |p.processes| <= i < |p'.processes| ==> p'.processes[i].libs == [])
  }

  lemma AllocationKeepsMappings(p: ProfileState, op: Op)
    requires p.Sound() && Allowed(p, op) && op.AddAllocationSample?
    ensures SameMappings(p, Step(p, op))
  {
    ScopeForValid(p, op.thread);
    hide ProfileState.Sound, PushStack, AllIssued;
  }

  lemma OtherCallKeepsMappings(p: ProfileState, op: Op)
    requires p.Sound() && Allowed(p, op) && !op.ChangeLibMappings? && !op.ChangeKernelLibMappings? && !op.AddAllocationSample?
    ensures SameMappings(p, Step(p, op))
  {
    hide ProfileState.Sound, PushStack, AllIssued;
  }

  lemma SameMappingsDisjoint(p: ProfileState, p': ProfileState)
    requires SameMappings(p, p') && MappingsDisjoint(p)
    ensures MappingsDisjoint(p')
  {
    assert SortedDisjoint<nat>([]);
    hide SortedDisjoint;
  }

  lemma MappingCallDisjointIff(p: ProfileState, op: Op)
    requires p.Sound() && Allowed(p, op) && MappingsDisjoint(p) && (op.ChangeLibMappings? || op.ChangeKernelLibMappings?)
    ensures MappingsDisjoint(Step(p, op)) <==> CleanCall(p, op)
  {
    hide ProfileState.Sound, SortedDisjoint, OpIsClean, OpDoesNotPanic, Apply;
    match op {
      case ChangeKernelLibMappings(mapOp) => ApplyKeepsSortedDisjointIff(p.kernelLibs, mapOp);
      case ChangeLibMappings(process, mapOp) =>
        ApplyKeepsSortedDisjointIff(p.processes[process].libs, mapOp);
        assert Step(p, op).processes[process].libs == Apply(p.processes[process].libs, mapOp);
      case _ =>
    }
  }

  lemma StepKeepsDisjointIff(p: ProfileState, op: Op)
    requires p.Sound() && Allowed(p, op) && MappingsDisjoint(p)
    ensures MappingsDisjoint(Step(p, op)) <==> CleanCall(p, op)
  {
    hide Step, Allowed, ProfileState.Sound, MappingsDisjoint, SameMappings, OpIsClean;
    if op.ChangeLibMappings? || op.ChangeKernelLibMappings? {
      MappingCallDisjointIff(p, op);
    } else {
      if op.AddAllocationSample? {
        AllocationKeepsMappings(p, op);
      } else {
        OtherCallKeepsMappings(p, op);
      }
      SameMappingsDisjoint(p, Step(p, op));
    }
  }

  ghost predicate AlwaysDisjoint(ops: seq<Op>)
    requires AllowedRun(ops)
  {
    MappingsDisjoint(Run(ops)) && (ops != [] ==> AlwaysDisjoint(ops[..|ops| - 1]))
  }

  ghost predicate CleanCalls(ops: seq<Op>)
    requires AllowedRun(ops)
  {
    ops != [] ==> CleanCalls(ops[..|ops| - 1]) && CleanCall(Run(ops[..|ops| - 1]), ops[|ops| - 1])
  }

  /** Over every run all address spaces are disjoint at all times exactly when only clean mappings are added. */
  lemma {:induction false} AlwaysDisjointIff(ops: seq<Op>)
    requires AllowedRun(ops)
    ensures AlwaysDisjoint(ops) <==> CleanCalls(ops)
  {
    hide Step, Allowed, MappingsDisjoint, CleanCall, ProfileState.Sound;
    if ops == [] {
      NothingMapped();
    } else {
      var before, op := ops[..|ops| - 1], ops[|ops| - 1];
      AlwaysDisjointIff(before);
      if AlwaysDisjoint(before) {
        StepKeepsDisjointIff(Run(before), op);
      }
    }
  }

  lemma NothingMapped()
    ensures MappingsDisjoint(EmptyProfile)
  {
  }

  // ----- a run -----

  lemma RunExtends(ops: seq<Op>, op: Op)
    requires AllowedRun(ops) && Allowed(Run(ops), op)
    ensures AllowedRun(ops + [op]) && Run(ops + [op]) == Step(Run(ops), op)
  {
    hide Step, Allowed;
    assert (ops + [op])[..|ops + [op]| - 1] == ops;
  }

  lemma ProcessAdded(p: ProfileState)
    requires p.Sound()
    ensures var p' := Step(p, AddProcess("p", 1, 0));
      |p'.processes| == |p.processes| + 1 && p'.threads == p.threads && Allowed(p', AddThread(|p.processes|, 1, 0, true))
  {
    hide ProfileState.Sound;
  }

  lemma ThreadListed(p: ProfileState, process: nat, frame: FrameInfo)
    requires frame.frame.InstructionPointer? && p.Sound() && Allowed(p, AddThread(process, 1, 0, true))
    ensures var p' := Step(p, AddThread(process, 1, 0, true));
      |p'.threads| == |p.threads| + 1
      && Allowed(p', AddSample(|p.threads|, 0, [frame], 0, 1))
  {
    hide ProfileState.Sound;
  }

  /** A process, its main thread and a sample: the runs the theorems speak of exist. */
  lemma SomeRunIsAllowed(frame: FrameInfo)
    requires frame.frame.InstructionPointer?
    ensures AllowedRun([AddProcess("p", 1, 0), AddThread(0, 1, 0, true), AddSample(0, 0, [frame], 0, 1)])
  {
    var a, b, c := AddProcess("p", 1, 0), AddThread(0, 1, 0, true), AddSample(0, 0, [frame], 0, 1);
    assert AllowedRun([]) && Run([]) == EmptyProfile;
    hide Step, Allowed, Run, AllowedRun, ProfileState.Sound;
    assert EmptyProfile.Sound();
    FirstCall(a);
    ProcessAdded(EmptyProfile);
    RunExtends([], a);
    assert [] + [a] == [a] && [a] + [b] == [a, b] && [a, b] + [c] == [a, b, c];
    RunExtends([a], b);
    ThreadListed(Run([a]), 0, frame);
    RunExtends([a, b], c);
  }

  lemma FirstCall(op: Op)
    requires op.AddProcess?
    ensures EmptyProfile.Sound() && Allowed(EmptyProfile, op)
  {
  }
}
