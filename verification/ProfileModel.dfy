/** The contents of a profile and what each public call does to them
    (fxprof-processed-profile/src/profile.rs). */
module ProfileModel {
  import opened CallStacks
  import opened GlobalLibs
  import opened LibMappings
  import opened Libraries
  import opened MarkerTables
  import opened Prelude
  import opened SampleTables
  import opened Sorting
  import opened StringTables
  import opened Threads
  import opened UniqueIds
  import opened ZeroCpu

  datatype ProcessState = ProcessState(
    pid: string, name: string, threads: seq<nat>, startTime: u64, endTime: Option<u64>, libs: seq<Mapping<nat>>)

  datatype ProfileState = ProfileState(
    libs: Libs, kernelLibs: seq<Mapping<nat>>, processes: seq<ProcessState>, threads: seq<ThreadState>,
    strings: Strings, schemas: seq<Schema>, staticTypes: map<string, nat>,
    usedPids: map<u32, nat>, usedTids: map<u32, nat>)
  {
    ghost predicate MappedHandlesIssued(ms: seq<Mapping<nat>>) {
      forall m :: m in ms ==> m.value < |libs.allLibs|
    }

    /** What every call relies on not to panic. */
    ghost predicate Sound() {
      && libs.Coherent()
      && MappedHandlesIssued(kernelLibs)
      && (forall p :: 0 <= p < |processes| ==> MappedHandlesIssued(processes[p].libs))
      && (forall t :: 0 <= t < |threads| ==> threads[t].Sound(libs))
      && Linked()
      && (forall name :: name in staticTypes ==> staticTypes[name] < |schemas|)
    }

    /** Processes and threads point at each other. */
    ghost predicate Linked() {
      && (forall t :: 0 <= t < |threads| ==> threads[t].process < |processes| && t in processes[threads[t].process].threads)
      && (forall p, k :: 0 <= p < |processes| && 0 <= k < |processes[p].threads| ==>
           processes[p].threads[k] < |threads| && threads[processes[p].threads[k]].process == p)
      && (forall p, j, k :: 0 <= p < |processes| && 0 <= j < k < |processes[p].threads| ==>
           processes[p].threads[j] < processes[p].threads[k])
    }

    function ScopeFor(t: nat): Scope
      requires t < |threads| && threads[t].process < |processes|
    {
      Scope(kernelLibs, processes[threads[t].process].libs, strings)
    }

    function WorkFor(t: nat): Work
      requires t < |threads|
    {
      Work(threads[t].tables, threads[t].stacks, libs)
    }

    function AllocationThread(t: nat): nat
      requires t < |threads| && threads[t].process < |processes| && processes[threads[t].process].threads != []
    {
      processes[threads[t].process].threads[0]
    }
  }

  const EmptyProfile := ProfileState(NoLibs, [], [], [], NoStrings, [], map[], map[], map[])

  datatype Op =
    | AddLib(library: LibraryInfo)
    | SetLibSymbolTable(handle: nat, table: SymbolTable)
    | AddProcess(name: string, pid: u32, startTime: u64)
    | SetProcessStartTime(process: nat, startTime: u64)
    | SetProcessEndTime(process: nat, endTime: u64)
    | SetProcessName(process: nat, name: string)
    | ChangeLibMappings(process: nat, mapOp: MapOp<nat>)
    | ChangeKernelLibMappings(mapOp: MapOp<nat>)
    | AddThread(process: nat, tid: u32, startTime: u64, isMain: bool)
    | SetThreadName(thread: nat, name: string)
    | SetThreadStartTime(thread: nat, startTime: u64)
    | SetThreadEndTime(thread: nat, endTime: u64)
    | SetThreadTid(thread: nat, tid: u32)
    | InternString(s: string)
    | AddSample(thread: nat, timestamp: u64, frames: seq<FrameInfo>, cpuDelta: u64, weight: i32)
    | AddSampleSameStackZeroCpu(thread: nat, timestamp: u64, weight: i32)
    | AddAllocationSample(thread: nat, timestamp: u64, frames: seq<FrameInfo>, address: u64, size: i64)
    | RegisterMarkerType(typeName: string, fields: seq<Field>)
    | StaticSchemaMarkerType(typeName: string, fields: seq<Field>)
    | AddMarker(thread: nat, timing: Timing, marker: Marker)
    | SetMarkerStack(thread: nat, markerIndex: nat, frames: seq<FrameInfo>)

  /** Handles must have been issued by this profile, and mappings must not make the map panic. */
  ghost predicate Allowed(p: ProfileState, op: Op) {
    match op
    case SetLibSymbolTable(library, _) => library < |p.libs.allLibs|
    case SetProcessStartTime(process, _) => process < |p.processes|
    case SetProcessEndTime(process, _) => process < |p.processes|
    case SetProcessName(process, _) => process < |p.processes|
    case ChangeLibMappings(process, mapOp) => process < |p.processes| && MapOpAllowed(p, p.processes[process].libs, mapOp)
    case ChangeKernelLibMappings(mapOp) => MapOpAllowed(p, p.kernelLibs, mapOp) && !mapOp.Clear?
    case AddThread(process, _, _, _) => process < |p.processes|
    case SetThreadName(thread, _) => thread < |p.threads|
    case SetThreadStartTime(thread, _) => thread < |p.threads|
    case SetThreadEndTime(thread, _) => thread < |p.threads|
    case SetThreadTid(thread, _) => thread < |p.threads|
    case AddSample(thread, _, frames, _, _) => thread < |p.threads| && AllIssued(frames, p.libs, p.strings)
    case AddSampleSameStackZeroCpu(thread, _, _) => thread < |p.threads|
    case AddAllocationSample(thread, _, frames, _, _) => thread < |p.threads| && AllIssued(frames, p.libs, p.strings)
    case AddMarker(thread, _, marker) =>
      && thread < |p.threads| && marker.markerType < |p.schemas| && marker.name < |p.strings.strings|
      && HandlesKnown(p.schemas[marker.markerType].fields, 0, marker, p.strings)
    case SetMarkerStack(thread, marker, frames) =>
      thread < |p.threads| && marker < |p.threads[thread].markers.stacks| && AllIssued(frames, p.libs, p.strings)
    case _ => true
  }

  ghost predicate MapOpAllowed(p: ProfileState, ms: seq<Mapping<nat>>, mapOp: MapOp<nat>) {
    OpDoesNotPanic(ms, mapOp) && (mapOp.AddMapping? ==> mapOp.m.value < |p.libs.allLibs|)
  }

  lemma ScopeForValid(p: ProfileState, t: nat)
    requires p.Sound() && t < |p.threads|
    ensures p.ScopeFor(t).Valid(p.libs) && p.WorkFor(t).Ready()
    ensures p.processes[p.threads[t].process].threads != [] && p.AllocationThread(t) < |p.threads|
  {
    assert p.threads[t].Sound(p.libs);
    var owner := p.threads[t].process;
    assert t in p.processes[owner].threads;
    assert p.processes[owner].threads[0] < |p.threads|;
  }

  /** A call stack pushed onto the tables of one thread. */
  function PushStack(p: ProfileState, t: nat, frames: seq<FrameInfo>): (r: (ProfileState, Option<nat>))
    requires p.Sound() && t < |p.threads| && AllIssued(frames, p.libs, p.strings)
    ensures |r.0.threads| == |p.threads|
    ensures r.0 == p.(libs := r.0.libs, threads := p.threads[t := r.0.threads[t]])
    ensures r.0.threads[t] == p.threads[t].WithWork(Work(r.0.threads[t].tables, r.0.threads[t].stacks, r.0.libs))
  {
    ScopeForValid(p, t);
    var (w, stack) := PushFrames(p.WorkFor(t), p.ScopeFor(t), frames);
    (p.(libs := w.libs, threads := p.threads[t := p.threads[t].WithWork(w)]), stack)
  }

  function UpdateThread(p: ProfileState, t: nat, th: ThreadState): ProfileState
    requires t < |p.threads|
  {
    p.(threads := p.threads[t := th])
  }

  function UpdateProcess(p: ProfileState, i: nat, process: ProcessState): ProfileState
    requires i < |p.processes|
  {
    p.(processes := p.processes[i := process])
  }

  function SampleAdded(p: ProfileState, t: nat, timestamp: u64, frames: seq<FrameInfo>, cpuDelta: u64, weight: i32): ProfileState
    requires p.Sound() && t < |p.threads| && AllIssued(frames, p.libs, p.strings)
  {
    var (p1, stack) := PushStack(p, t, frames);
    UpdateThread(p1, t, AddSampleTo(p1.threads[t], Sample(timestamp, stack, cpuDelta, weight)))
  }

  function SameSampleAdded(p: ProfileState, t: nat, timestamp: u64, weight: i32): ProfileState
    requires p.Sound() && t < |p.threads|
  {
    assert p.threads[t].Sound(p.libs);
    UpdateThread(p, t, p.threads[t].(recorder := p.threads[t].recorder.AddSameStackZeroCpu(timestamp, weight)))
  }

  /** Allocation samples go to the first thread of the process, whichever thread they happened on. */
  function AllocationAdded(p: ProfileState, t: nat, timestamp: u64, frames: seq<FrameInfo>, address: u64, size: i64): ProfileState
    requires p.Sound() && t < |p.threads| && AllIssued(frames, p.libs, p.strings)
  {
    ScopeForValid(p, t);
    var a := p.AllocationThread(t);
    var (p1, stack) := PushStack(p, a, frames);
    UpdateThread(p1, a, AddAllocationTo(p1.threads[a], timestamp, stack, address, size))
  }

  function MarkerAdded(p: ProfileState, t: nat, timing: Timing, marker: Marker): (ProfileState, nat)
    requires p.Sound() && Allowed(p, AddMarker(t, timing, marker))
  {
    var (th, handle) := p.threads[t].AddMarker(marker.name, marker, timing, p.schemas[marker.markerType].fields, p.strings);
    (UpdateThread(p, t, th), handle)
  }

  function MarkerStackSet(p: ProfileState, t: nat, marker: nat, frames: seq<FrameInfo>): ProfileState
    requires p.Sound() && t < |p.threads| && marker < |p.threads[t].markers.stacks| && AllIssued(frames, p.libs, p.strings)
  {
    var (p1, stack) := PushStack(p, t, frames);
    UpdateThread(p1, t, p1.threads[t].(markers := p1.threads[t].markers.SetStack(marker, stack)))
  }

  function ThreadAdded(p: ProfileState, process: nat, tid: u32, startTime: u64, isMain: bool): ProfileState
    requires process < |p.processes|
  {
    var (used, text) := MakeUnique(p.usedTids, tid);
    var owner := p.processes[process];
    p.(usedTids := used,
       threads := p.threads + [NewThread(process, text, startTime, isMain)],
       processes := p.processes[process := owner.(threads := owner.threads + [|p.threads|])])
  }

  /** The profile after a call. */
  function Step(p: ProfileState, op: Op): ProfileState
    requires p.Sound() && Allowed(p, op)
  {
    match op
    case AddLib(library) => p.(libs := p.libs.HandleFor(library).0)
    case SetLibSymbolTable(library, table) => p.(libs := p.libs.SetSymbolTable(library, table))
    case AddProcess(name, pid, startTime) =>
      var (used, text) := MakeUnique(p.usedPids, pid);
      p.(usedPids := used, processes := p.processes + [ProcessState(text, name, [], startTime, None, [])])
    case SetProcessStartTime(i, startTime) => UpdateProcess(p, i, p.processes[i].(startTime := startTime))
    case SetProcessEndTime(i, endTime) => UpdateProcess(p, i, p.processes[i].(endTime := Some(endTime)))
    case SetProcessName(i, name) => UpdateProcess(p, i, p.processes[i].(name := name))
    case ChangeLibMappings(i, mapOp) => UpdateProcess(p, i, p.processes[i].(libs := Apply(p.processes[i].libs, mapOp)))
    case ChangeKernelLibMappings(mapOp) => p.(kernelLibs := Apply(p.kernelLibs, mapOp))
    case AddThread(process, tid, startTime, isMain) => ThreadAdded(p, process, tid, startTime, isMain)
    case SetThreadName(t, name) => UpdateThread(p, t, p.threads[t].(name := Some(name)))
    case SetThreadStartTime(t, startTime) => UpdateThread(p, t, p.threads[t].(startTime := startTime))
    case SetThreadEndTime(t, endTime) => UpdateThread(p, t, p.threads[t].(endTime := Some(endTime)))
    case SetThreadTid(t, tid) =>
      var (used, text) := MakeUnique(p.usedTids, tid);
      UpdateThread(p.(usedTids := used), t, p.threads[t].(tid := text))
    case InternString(s) => p.(strings := p.strings.Intern(s).0)
    case AddSample(t, timestamp, frames, cpuDelta, weight) =>
      SampleAdded(p, t, timestamp, frames, cpuDelta, weight)
    case AddSampleSameStackZeroCpu(t, timestamp, weight) =>
      SameSampleAdded(p, t, timestamp, weight)
    case AddAllocationSample(t, timestamp, frames, address, size) =>
      AllocationAdded(p, t, timestamp, frames, address, size)
    case RegisterMarkerType(typeName, fields) => p.(schemas := p.schemas + [Register(typeName, fields)])
    case StaticSchemaMarkerType(typeName, fields) =>
      if typeName in p.staticTypes then p
      else p.(schemas := p.schemas + [Register(typeName, fields)], staticTypes := p.staticTypes[typeName := |p.schemas|])
    case AddMarker(t, timing, marker) =>
      MarkerAdded(p, t, timing, marker).0
    case SetMarkerStack(t, marker, frames) =>
      MarkerStackSet(p, t, marker, frames)
  }

  // ----- no call panics -----

  lemma SoundAfterUpdate(p: ProfileState, p': ProfileState, t: nat)
    requires p.Sound() && t < |p.threads| == |p'.threads| && p' == p.(libs := p'.libs, threads := p.threads[t := p'.threads[t]])
    requires p'.libs.Coherent() && |p.libs.allLibs| <= |p'.libs.allLibs|
    requires p'.threads[t].Sound(p'.libs) && p'.threads[t].process == p.threads[t].process
    ensures p'.Sound()
  {
    forall i | 0 <= i < |p'.threads|
      ensures p'.threads[i].Sound(p'.libs) && p'.threads[i].process == p.threads[i].process
    {
      assert p.threads[i].Sound(p.libs);
    }
  }

  lemma PushStackKeepsSound(p: ProfileState, t: nat, frames: seq<FrameInfo>)
    requires p.Sound() && t < |p.threads| && AllIssued(frames, p.libs, p.strings)
    ensures PushStack(p, t, frames).0.Sound()
  {
    hide PushFrames;
    ScopeForValid(p, t);
    assert p.threads[t].Sound(p.libs);
    SoundAfterUpdate(p, PushStack(p, t, frames).0, t);
  }

  lemma UpdateKeepsSound(p: ProfileState, t: nat, th: ThreadState)
    requires p.Sound() && t < |p.threads| && th.Sound(p.libs) && th.process == p.threads[t].process
    ensures UpdateThread(p, t, th).Sound()
  {
    SoundAfterUpdate(p, UpdateThread(p, t, th), t);
  }

  lemma SampleKeepsSound(p: ProfileState, t: nat, timestamp: u64, frames: seq<FrameInfo>, cpuDelta: u64, weight: i32)
    requires p.Sound() && t < |p.threads| && AllIssued(frames, p.libs, p.strings)
    ensures SampleAdded(p, t, timestamp, frames, cpuDelta, weight).Sound()
  {
    PushStackKeepsSound(p, t, frames);
    hide PushStack, ProfileState.Linked;
    var (p1, stack) := PushStack(p, t, frames);
    assert p1.threads[t].Sound(p1.libs);
    UpdateKeepsSound(p1, t, AddSampleTo(p1.threads[t], Sample(timestamp, stack, cpuDelta, weight)));
  }

  lemma SameSampleKeepsSound(p: ProfileState, t: nat, timestamp: u64, weight: i32)
    requires p.Sound() && t < |p.threads|
    ensures SameSampleAdded(p, t, timestamp, weight).Sound()
  {
    hide ProfileState.Linked;
    assert p.threads[t].Sound(p.libs);
    ApplyCoherent(p.threads[t].recorder, Same(timestamp, weight));
    UpdateKeepsSound(p, t, p.threads[t].(recorder := p.threads[t].recorder.AddSameStackZeroCpu(timestamp, weight)));
  }

  lemma AllocationKeepsSound(p: ProfileState, t: nat, timestamp: u64, frames: seq<FrameInfo>, address: u64, size: i64)
    requires p.Sound() && t < |p.threads| && AllIssued(frames, p.libs, p.strings)
    ensures AllocationAdded(p, t, timestamp, frames, address, size).Sound()
  {
    ScopeForValid(p, t);
    var first := p.AllocationThread(t);
    PushStackKeepsSound(p, first, frames);
    hide PushStack, ProfileState.Linked;
    var (p1, stack) := PushStack(p, first, frames);
    assert p1.threads[first].Sound(p1.libs);
    UpdateKeepsSound(p1, first, AddAllocationTo(p1.threads[first], timestamp, stack, address, size));
  }

  lemma MarkerKeepsSound(p: ProfileState, t: nat, timing: Timing, marker: Marker)
    requires p.Sound() && Allowed(p, AddMarker(t, timing, marker))
    ensures MarkerAdded(p, t, timing, marker).0.Sound()
  {
    hide ProfileState.Linked;
    assert p.threads[t].Sound(p.libs);
    UpdateKeepsSound(p, t, MarkerAdded(p, t, timing, marker).0.threads[t]);
  }

  lemma MarkerStackKeepsSound(p: ProfileState, t: nat, marker: nat, frames: seq<FrameInfo>)
    requires p.Sound() && t < |p.threads| && marker < |p.threads[t].markers.stacks| && AllIssued(frames, p.libs, p.strings)
    ensures MarkerStackSet(p, t, marker, frames).Sound()
  {
    PushStackKeepsSound(p, t, frames);
    hide PushStack, ProfileState.Linked;
    var (p1, stack) := PushStack(p, t, frames);
    assert p1.threads[t].Sound(p1.libs);
    UpdateKeepsSound(p1, t, p1.threads[t].(markers := p1.threads[t].markers.SetStack(marker, stack)));
  }

  lemma MapOpKeepsIssued(p: ProfileState, ms: seq<Mapping<nat>>, mapOp: MapOp<nat>)
    requires p.MappedHandlesIssued(ms) && MapOpAllowed(p, ms, mapOp)
    ensures p.MappedHandlesIssued(Apply(ms, mapOp))
  {
    forall m | m in Apply(ms, mapOp)
      ensures m.value < |p.libs.allLibs|
    {
      match mapOp
      case AddMapping(added) => AddMember(ms, added, m);
      case RemoveMapping(start) => FilterMember(ms, (m: Mapping<nat>) => m.start != start, m);
      case Clear =>
    }
  }

  /** A thread was added at the end and listed last in its process. */
  ghost predicate OneMoreListed(p: ProfileState, p': ProfileState, process: nat) {
    && process < |p.processes| == |p'.processes| && |p'.threads| == |p.threads| + 1
    && p.threads <= p'.threads && p'.threads[|p.threads|].process == process
    && p'.processes == p.processes[process := p'.processes[process]]
    && p'.processes[process].threads == p.processes[process].threads + [|p.threads|]
  }

  lemma ThreadIsListed(p: ProfileState, p': ProfileState, process: nat, t: nat)
    requires p.Linked() && OneMoreListed(p, p', process) && t < |p'.threads|
    ensures p'.threads[t].process < |p'.processes| && t in p'.processes[p'.threads[t].process].threads
  {
    if t < |p.threads| {
      assert p'.threads[t] == p.threads[t];
      assert t in p.processes[p.threads[t].process].threads;
    } else {
      assert p'.processes[process].threads[|p.processes[process].threads|] == t;
    }
  }

  lemma ListedIsOwn(p: ProfileState, p': ProfileState, process: nat, i: nat, k: nat)
    requires p.Linked() && OneMoreListed(p, p', process) && i < |p'.processes| && k < |p'.processes[i].threads|
    ensures p'.processes[i].threads[k] < |p'.threads| && p'.threads[p'.processes[i].threads[k]].process == i
  {
    if i != process || k < |p.processes[process].threads| {
      assert p'.processes[i].threads[k] == p.processes[i].threads[k];
    }
  }

  lemma ListedInOrder(p: ProfileState, p': ProfileState, process: nat, i: nat, j: nat, k: nat)
    requires p.Linked() && OneMoreListed(p, p', process) && i < |p'.processes| && j < k < |p'.processes[i].threads|
    ensures p'.processes[i].threads[j] < p'.processes[i].threads[k]
  {
    var threads := p.processes[i].threads;
    assert j < |threads| && p'.processes[i].threads[j] == threads[j];
    if i != process || k < |threads| {
      assert p'.processes[i].threads[k] == threads[k];
    }
  }

  lemma AddThreadKeepsLinked(p: ProfileState, p': ProfileState, process: nat)
    requires p.Linked() && OneMoreListed(p, p', process)
    ensures p'.Linked()
  {
    hide OneMoreListed;
    forall t: nat | t < |p'.threads|
      ensures p'.threads[t].process < |p'.processes| && t in p'.processes[p'.threads[t].process].threads
    {
      hide ProfileState.Linked;
      ThreadIsListed(p, p', process, t);
    }
    forall i: nat, k: nat | i < |p'.processes| && k < |p'.processes[i].threads|
      ensures p'.processes[i].threads[k] < |p'.threads| && p'.threads[p'.processes[i].threads[k]].process == i
    {
      hide ProfileState.Linked;
      ListedIsOwn(p, p', process, i, k);
    }
    forall i: nat, j: nat, k: nat | i < |p'.processes| && j < k < |p'.processes[i].threads|
      ensures p'.processes[i].threads[j] < p'.processes[i].threads[k]
    {
      hide ProfileState.Linked;
      ListedInOrder(p, p', process, i, j, k);
    }
  }

  lemma AddThreadKeepsSound(p: ProfileState, process: nat, tid: u32, startTime: u64, isMain: bool)
    requires p.Sound() && process < |p.processes|
    ensures Step(p, AddThread(process, tid, startTime, isMain)).Sound()
  {
    var p' := Step(p, AddThread(process, tid, startTime, isMain));
    AddThreadKeepsLinked(p, p', process);
    hide ProfileState.Linked;
    forall t | 0 <= t < |p'.threads|
      ensures p'.threads[t].Sound(p'.libs)
    {
      if t < |p.threads| {
        assert p.threads[t].Sound(p.libs);
      }
    }
  }

  /** Changing libraries, strings or schemas around the threads. */
  lemma SurroundingsKeepSound(p: ProfileState, p': ProfileState)
    requires p.Sound() && p'.libs.Coherent() && |p.libs.allLibs| <= |p'.libs.allLibs|
    requires p' == p.(libs := p'.libs, strings := p'.strings, schemas := p'.schemas, staticTypes := p'.staticTypes)
    requires forall name :: name in p'.staticTypes ==> p'.staticTypes[name] < |p'.schemas|
    ensures p'.Sound()
  {
    forall t | 0 <= t < |p'.threads|
      ensures p'.threads[t].Sound(p'.libs)
    {
      assert p.threads[t].Sound(p.libs);
    }
  }

  lemma ProcessesKeepSound(p: ProfileState, i: nat, process: ProcessState)
    requires p.Sound() && i < |p.processes| && process.threads == p.processes[i].threads && p.MappedHandlesIssued(process.libs)
    ensures UpdateProcess(p, i, process).Sound()
  {
    var p' := UpdateProcess(p, i, process);
    assert forall k :: 0 <= k < |p.processes| ==> p'.processes[k].threads == p.processes[k].threads;
  }

  lemma SurroundingCallKeepsSound(p: ProfileState, op: Op)
    requires p.Sound() && Allowed(p, op)
    requires op.AddLib? || op.SetLibSymbolTable? || op.InternString? || op.RegisterMarkerType? || op.StaticSchemaMarkerType?
    ensures Step(p, op).Sound()
  {
    match op {
      case AddLib(library) => HandleForCoherent(p.libs, library);
      case SetLibSymbolTable(library, table) => SetSymbolTableCoherent(p.libs, library, table);
      case _ =>
    }
    SurroundingsKeepSound(p, Step(p, op));
  }

  lemma ProcessCallKeepsSound(p: ProfileState, op: Op)
    requires p.Sound() && Allowed(p, op)
    requires op.SetProcessStartTime? || op.SetProcessEndTime? || op.SetProcessName? || op.ChangeLibMappings?
    ensures Step(p, op).Sound()
  {
    match op {
      case SetProcessStartTime(i, startTime) => ProcessesKeepSound(p, i, p.processes[i].(startTime := startTime));
      case SetProcessEndTime(i, endTime) => ProcessesKeepSound(p, i, p.processes[i].(endTime := Some(endTime)));
      case SetProcessName(i, name) => ProcessesKeepSound(p, i, p.processes[i].(name := name));
      case ChangeLibMappings(i, mapOp) =>
        MapOpKeepsIssued(p, p.processes[i].libs, mapOp);
        ProcessesKeepSound(p, i, p.processes[i].(libs := Apply(p.processes[i].libs, mapOp)));
      case _ =>
    }
  }

  lemma NewProcessKeepsSound(p: ProfileState, op: Op)
    requires p.Sound() && op.AddProcess?
    ensures Step(p, op).Sound()
  {
    hide ThreadState.Sound, Libs.Coherent, MakeUnique;
    var p' := Step(p, op);
    assert forall k :: 0 <= k < |p.processes| ==> p'.processes[k] == p.processes[k];
  }

  lemma KernelMappingKeepsSound(p: ProfileState, op: Op)
    requires p.Sound() && Allowed(p, op) && op.ChangeKernelLibMappings?
    ensures Step(p, op).Sound()
  {
    hide ThreadState.Sound, Libs.Coherent, Apply, OpDoesNotPanic;
    MapOpKeepsIssued(p, p.kernelLibs, op.mapOp);
  }

  lemma NewProcessAndKernelKeepSound(p: ProfileState, op: Op)
    requires p.Sound() && Allowed(p, op) && (op.AddProcess? || op.ChangeKernelLibMappings?)
    ensures Step(p, op).Sound()
  {
    hide Step, Allowed, ProfileState.Sound;
    if op.AddProcess? {
      NewProcessKeepsSound(p, op);
    } else {
      KernelMappingKeepsSound(p, op);
    }
  }

  lemma ThreadFieldsKeepSound(p: ProfileState, t: nat, th: ThreadState, usedTids: map<u32, nat>)
    requires p.Sound() && t < |p.threads|
    requires th == p.threads[t].(tid := th.tid, name := th.name, startTime := th.startTime, endTime := th.endTime)
    ensures UpdateThread(p.(usedTids := usedTids), t, th).Sound()
  {
    var p1 := p.(usedTids := usedTids);
    assert p1.Sound() by {
      assert forall i :: 0 <= i < |p.threads| ==> p.threads[i].Sound(p.libs);
    }
    hide ProfileState.Linked;
    assert p.threads[t].Sound(p.libs);
    UpdateKeepsSound(p1, t, th);
  }

  lemma ThreadFieldCallKeepsSound(p: ProfileState, op: Op)
    requires p.Sound() && Allowed(p, op)
    requires op.SetThreadName? || op.SetThreadStartTime? || op.SetThreadEndTime? || op.SetThreadTid?
    ensures Step(p, op).Sound()
  {
    hide ProfileState.Sound;
    match op {
      case SetThreadName(t, name) => ThreadFieldsKeepSound(p, t, p.threads[t].(name := Some(name)), p.usedTids);
      case SetThreadStartTime(t, startTime) => ThreadFieldsKeepSound(p, t, p.threads[t].(startTime := startTime), p.usedTids);
      case SetThreadEndTime(t, endTime) => ThreadFieldsKeepSound(p, t, p.threads[t].(endTime := Some(endTime)), p.usedTids);
      case SetThreadTid(t, tid) =>
        var (used, text) := MakeUnique(p.usedTids, tid);
        ThreadFieldsKeepSound(p, t, p.threads[t].(tid := text), used);
      case _ =>
    }
  }

  lemma RowCallKeepsSound(p: ProfileState, op: Op)
    requires p.Sound() && Allowed(p, op)
    requires op.AddSample? || op.AddSampleSameStackZeroCpu? || op.AddAllocationSample? || op.AddMarker? || op.SetMarkerStack?
    ensures Step(p, op).Sound()
  {
    hide ProfileState.Sound;
    match op {
      case AddSample(t, timestamp, frames, cpuDelta, weight) => SampleKeepsSound(p, t, timestamp, frames, cpuDelta, weight);
      case AddSampleSameStackZeroCpu(t, timestamp, weight) => SameSampleKeepsSound(p, t, timestamp, weight);
      case AddAllocationSample(t, timestamp, frames, address, size) => AllocationKeepsSound(p, t, timestamp, frames, address, size);
      case AddMarker(t, timing, marker) => MarkerKeepsSound(p, t, timing, marker);
      case SetMarkerStack(t, marker, frames) => MarkerStackKeepsSound(p, t, marker, frames);
      case _ =>
    }
  }

  /** No call can make a later one panic. */
  lemma StepKeepsSound(p: ProfileState, op: Op)
    requires p.Sound() && Allowed(p, op)
    ensures Step(p, op).Sound()
  {
    hide Step, Allowed, ProfileState.Sound;
    match op {
      case AddLib(_) => SurroundingCallKeepsSound(p, op);
      case SetLibSymbolTable(_, _) => SurroundingCallKeepsSound(p, op);
      case InternString(_) => SurroundingCallKeepsSound(p, op);
      case RegisterMarkerType(_, _) => SurroundingCallKeepsSound(p, op);
      case StaticSchemaMarkerType(_, _) => SurroundingCallKeepsSound(p, op);
      case SetProcessStartTime(_, _) => ProcessCallKeepsSound(p, op);
      case SetProcessEndTime(_, _) => ProcessCallKeepsSound(p, op);
      case SetProcessName(_, _) => ProcessCallKeepsSound(p, op);
      case ChangeLibMappings(_, _) => ProcessCallKeepsSound(p, op);
      case AddProcess(_, _, _) => NewProcessAndKernelKeepSound(p, op);
      case ChangeKernelLibMappings(_) => NewProcessAndKernelKeepSound(p, op);
      case AddThread(_, _, _, _) => AddThreadCallKeepsSound(p, op);
      case SetThreadName(_, _) => ThreadFieldCallKeepsSound(p, op);
      case SetThreadStartTime(_, _) => ThreadFieldCallKeepsSound(p, op);
      case SetThreadEndTime(_, _) => ThreadFieldCallKeepsSound(p, op);
      case SetThreadTid(_, _) => ThreadFieldCallKeepsSound(p, op);
      case _ => RowCallKeepsSound(p, op);
    }
  }

  lemma AddThreadCallKeepsSound(p: ProfileState, op: Op)
    requires p.Sound() && Allowed(p, op) && op.AddThread?
    ensures Step(p, op).Sound()
  {
    AddThreadKeepsSound(p, op.process, op.tid, op.startTime, op.isMain);
  }
}
