/** What a profile holds is what it was told: over every run of calls, each field of each process and thread, the
    address spaces, the libraries, the strings and the marker types are read off the list of calls. */
module ProfileHistory {
  import opened CallStacks
  import opened GlobalLibs
  import opened Libraries
  import LibMappings
  import opened MarkerTables
  import opened Prelude
  import opened ProfileModel
  import opened ProfileRuns
  import opened Sorting
  import opened StringTables
  import opened Threads
  import opened UniqueIds

  // ----- reading the list of calls -----

  /** The facts about a thread that no sample or marker changes. */
  datatype ThreadFacts = ThreadFacts(
    process: nat, tid: string, name: Option<string>, startTime: u64, endTime: Option<u64>, isMain: bool)

  datatype ProcessFacts = ProcessFacts(pid: string, name: string, startTime: u64, endTime: Option<u64>)

  function PidAsked(op: Op): Option<u32> {
    if op.AddProcess? then Some(op.pid) else None
  }

  function TidAsked(op: Op): Option<u32> {
    match op
    case AddThread(_, tid, _, _) => Some(tid)
    case SetThreadTid(_, tid) => Some(tid)
    case _ => None
  }

  /** How many of the calls ask for this id. */
  function Uses(ops: seq<Op>, asked: Op -> Option<u32>, id: u32): nat {
    if ops == [] then 0
    else Uses(ops[..|ops| - 1], asked, id) + if asked(ops[|ops| - 1]) == Some(id) then 1 else 0
  }

  function ThreadCount(ops: seq<Op>): nat {
    if ops == [] then 0 else ThreadCount(ops[..|ops| - 1]) + if ops[|ops| - 1].AddThread? then 1 else 0
  }

  function ProcessCount(ops: seq<Op>): nat {
    if ops == [] then 0 else ProcessCount(ops[..|ops| - 1]) + if ops[|ops| - 1].AddProcess? then 1 else 0
  }

  /** What the calls said of the t-th thread: what it was added with, and each field as it was set last. */
  function ThreadTold(ops: seq<Op>, t: nat): Option<ThreadFacts> {
    if ops == [] then None
    else
      var before, op := ops[..|ops| - 1], ops[|ops| - 1];
      var told := ThreadTold(before, t);
      if op.AddThread? && t == ThreadCount(before) then
        Some(ThreadFacts(op.process, UseText(op.tid, Uses(before, TidAsked, op.tid)), None, op.startTime, None, op.isMain))
      else if told.None? then None
      else
        match op
        case SetThreadName(thread, name) => if thread == t then Some(told.value.(name := Some(name))) else told
        case SetThreadStartTime(thread, time) => if thread == t then Some(told.value.(startTime := time)) else told
        case SetThreadEndTime(thread, time) => if thread == t then Some(told.value.(endTime := Some(time))) else told
        case SetThreadTid(thread, tid) =>
          if thread == t then Some(told.value.(tid := UseText(tid, Uses(before, TidAsked, tid)))) else told
        case _ => told
  }

  function ProcessTold(ops: seq<Op>, i: nat): Option<ProcessFacts> {
    if ops == [] then None
    else
      var before, op := ops[..|ops| - 1], ops[|ops| - 1];
      var told := ProcessTold(before, i);
      if op.AddProcess? && i == ProcessCount(before) then
        Some(ProcessFacts(UseText(op.pid, Uses(before, PidAsked, op.pid)), op.name, op.startTime, None))
      else if told.None? then None
      else
        match op
        case SetProcessName(process, name) => if process == i then Some(told.value.(name := name)) else told
        case SetProcessStartTime(process, time) => if process == i then Some(told.value.(startTime := time)) else told
        case SetProcessEndTime(process, time) => if process == i then Some(told.value.(endTime := Some(time))) else told
        case _ => told
  }

  /** The threads added to the i-th process, in order. */
  function ThreadsOf(ops: seq<Op>, i: nat): seq<nat> {
    if ops == [] then []
    else
      var before, op := ops[..|ops| - 1], ops[|ops| - 1];
      ThreadsOf(before, i) + if op.AddThread? && op.process == i then [ThreadCount(before)] else []
  }

  /** The changes made to the mappings of the i-th process, and to those of the kernel. */
  function MapCalls(ops: seq<Op>, i: nat): seq<LibMappings.MapOp<nat>> {
    if ops == [] then []
    else
      var op := ops[|ops| - 1];
      MapCalls(ops[..|ops| - 1], i) + if op.ChangeLibMappings? && op.process == i then [op.mapOp] else []
  }

  function KernelMapCalls(ops: seq<Op>): seq<LibMappings.MapOp<nat>> {
    if ops == [] then []
    else
      var op := ops[|ops| - 1];
      KernelMapCalls(ops[..|ops| - 1]) + if op.ChangeKernelLibMappings? then [op.mapOp] else []
  }

  /** The different libraries added, in the order they first were. */
  function LibsAdded(ops: seq<Op>): seq<LibraryInfo> {
    if ops == [] then []
    else
      var before, op := LibsAdded(ops[..|ops| - 1]), ops[|ops| - 1];
      if op.AddLib? && op.library !in before then before + [op.library] else before
  }

  /** The symbol table of the h-th library: the one set last, or the one it was added with. */
  function TableTold(ops: seq<Op>, h: nat): Option<SymbolTable> {
    if ops == [] then None
    else
      var before, op := ops[..|ops| - 1], ops[|ops| - 1];
      match op
      case AddLib(library) =>
        if h == |LibsAdded(before)| && library !in LibsAdded(before) then library.symbolTable else TableTold(before, h)
      case SetLibSymbolTable(handle, table) => if handle == h then Some(table) else TableTold(before, h)
      case _ => TableTold(before, h)
  }

  function StringsAdded(ops: seq<Op>): seq<string> {
    if ops == [] then []
    else
      var before, op := StringsAdded(ops[..|ops| - 1]), ops[|ops| - 1];
      if op.InternString? && op.s !in before then before + [op.s] else before
  }

  /** The marker types registered; a static one only by its first call. */
  function TypesAdded(ops: seq<Op>): seq<(string, seq<Field>)> {
    if ops == [] then []
    else
      var before, op := ops[..|ops| - 1], ops[|ops| - 1];
      match op
      case RegisterMarkerType(typeName, fields) => TypesAdded(before) + [(typeName, fields)]
      case StaticSchemaMarkerType(typeName, fields) =>
        if StaticTypeAt(before, typeName).Some? then TypesAdded(before) else TypesAdded(before) + [(typeName, fields)]
      case _ => TypesAdded(before)
  }

  /** Where a static type was registered. */
  function StaticTypeAt(ops: seq<Op>, typeName: string): Option<nat> {
    if ops == [] then None
    else
      var before, op := ops[..|ops| - 1], ops[|ops| - 1];
      if op.StaticSchemaMarkerType? && op.typeName == typeName && StaticTypeAt(before, typeName).None?
      then Some(|TypesAdded(before)|)
      else StaticTypeAt(before, typeName)
  }

  // ----- what is told -----

  function FactsOf(th: ThreadState): ThreadFacts {
    ThreadFacts(th.process, th.tid, th.name, th.startTime, th.endTime, th.isMain)
  }

  ghost predicate ThreadsAsTold(p: ProfileState, ops: seq<Op>) {
    && |p.threads| == ThreadCount(ops)
    && forall t: nat :: t < |p.threads| ==> ThreadTold(ops, t) == Some(FactsOf(p.threads[t]))
  }

  ghost predicate ProcessAsTold(process: ProcessState, ops: seq<Op>, i: nat) {
    && ProcessTold(ops, i) == Some(ProcessFacts(process.pid, process.name, process.startTime, process.endTime))
    && process.threads == ThreadsOf(ops, i) && process.libs == LibMappings.Run(MapCalls(ops, i))
  }

  ghost predicate ProcessesAsTold(p: ProfileState, ops: seq<Op>) {
    && |p.processes| == ProcessCount(ops) && p.kernelLibs == LibMappings.Run(KernelMapCalls(ops))
    && (forall i: nat :: i < |p.processes| ==> ProcessAsTold(p.processes[i], ops, i))
    && (forall i: nat :: i >= |p.processes| ==> ThreadsOf(ops, i) == [] && MapCalls(ops, i) == [])
  }

  /** The map holds how often each id was asked for. */
  ghost predicate UsesCounted(used: map<u32, nat>, ops: seq<Op>, asked: Op -> Option<u32>) {
    forall id: u32 :: if id in used then used[id] == Uses(ops, asked, id) > 0 else Uses(ops, asked, id) == 0
  }

  ghost predicate IdsAsTold(p: ProfileState, ops: seq<Op>) {
    UsesCounted(p.usedPids, ops, PidAsked) && UsesCounted(p.usedTids, ops, TidAsked)
  }

  ghost predicate LibsAsTold(libs: Libs, ops: seq<Op>) {
    && |libs.allLibs| == |LibsAdded(ops)|
    && (forall h: nat :: h < |libs.allLibs| ==> libs.allLibs[h] == LibsAdded(ops)[h].(symbolTable := TableTold(ops, h)))
    && (forall l :: l in libs.libMap ==> libs.libMap[l] < |LibsAdded(ops)| && LibsAdded(ops)[libs.libMap[l]] == l)
    && (forall l :: l in LibsAdded(ops) ==> l in libs.libMap)
  }

  ghost predicate StringsAsTold(strings: Strings, ops: seq<Op>) {
    strings.strings == StringsAdded(ops) && forall s :: s in strings.index <==> s in StringsAdded(ops)
  }

  ghost predicate TypesAsTold(p: ProfileState, ops: seq<Op>) {
    && |p.schemas| == |TypesAdded(ops)|
    && (forall i :: 0 <= i < |p.schemas| ==> (p.schemas[i].typeName, p.schemas[i].fields) == TypesAdded(ops)[i])
    && (forall name :: StaticTypeAt(ops, name) == if name in p.staticTypes then Some(p.staticTypes[name]) else None)
    && (forall name :: name in p.staticTypes ==>
         p.staticTypes[name] < |p.schemas| && p.schemas[p.staticTypes[name]].typeName == name)
  }

  // ----- calls that record samples and markers -----

  predicate Records(op: Op) {
    op.AddSample? || op.AddSampleSameStackZeroCpu? || op.AddAllocationSample? || op.AddMarker? || op.SetMarkerStack?
  }

  /** They leave everything alone that the other calls tell. */
  ghost predicate SameHeads(p: ProfileState, p': ProfileState) {
    && p'.kernelLibs == p.kernelLibs && p'.processes == p.processes && p'.strings == p.strings
    && p'.schemas == p.schemas && p'.staticTypes == p.staticTypes
    && p'.usedPids == p.usedPids && p'.usedTids == p.usedTids
    && p'.libs.allLibs == p.libs.allLibs && p'.libs.libMap == p.libs.libMap
    && |p'.threads| == |p.threads| && forall t :: 0 <= t < |p.threads| ==> FactsOf(p'.threads[t]) == FactsOf(p.threads[t])
  }

  lemma PushStackKeepsHeads(p: ProfileState, t: nat, frames: seq<FrameInfo>)
    requires p.Sound() && t < |p.threads| && AllIssued(frames, p.libs, p.strings)
    ensures SameHeads(p, PushStack(p, t, frames).0)
  {
    ScopeForValid(p, t);
    hide ProfileState.Sound, PushFrames, AllIssued;
  }

  lemma SampleRecorded(p: ProfileState, op: Op)
    requires p.Sound() && Allowed(p, op) && op.AddSample?
    ensures SameHeads(p, Step(p, op))
  {
    PushStackKeepsHeads(p, op.thread, op.frames);
    hide ProfileState.Sound, PushStack, AllIssued;
  }

  lemma StackRecorded(p: ProfileState, op: Op)
    requires p.Sound() && Allowed(p, op) && op.SetMarkerStack?
    ensures SameHeads(p, Step(p, op))
  {
    PushStackKeepsHeads(p, op.thread, op.frames);
    hide ProfileState.Sound, PushStack, AllIssued;
  }

  lemma AllocationRecorded(p: ProfileState, op: Op)
    requires p.Sound() && Allowed(p, op) && op.AddAllocationSample?
    ensures SameHeads(p, Step(p, op))
  {
    ScopeForValid(p, op.thread);
    PushStackKeepsHeads(p, p.AllocationThread(op.thread), op.frames);
    hide ProfileState.Sound, PushStack, AllIssued;
  }

  lemma RestRecorded(p: ProfileState, op: Op)
    requires p.Sound() && Allowed(p, op) && (op.AddSampleSameStackZeroCpu? || op.AddMarker?)
    ensures SameHeads(p, Step(p, op))
  {
    hide ProfileState.Sound;
  }

  lemma RecordKeepsHeads(p: ProfileState, op: Op)
    requires p.Sound() && Allowed(p, op) && Records(op)
    ensures SameHeads(p, Step(p, op))
  {
    hide Step, Allowed, ProfileState.Sound, SameHeads;
    if op.AddAllocationSample? {
      AllocationRecorded(p, op);
    } else if op.AddSample? {
      SampleRecorded(p, op);
    } else if op.SetMarkerStack? {
      StackRecorded(p, op);
    } else {
      RestRecorded(p, op);
    }
  }

  // ----- one call -----

  lemma FrontIs(ops: seq<Op>, op: Op)
    ensures (ops + [op])[..|ops + [op]| - 1] == ops && (ops + [op])[|ops + [op]| - 1] == op
  {
  }

  predicate OnThreads(op: Op) {
    op.AddThread? || op.SetThreadName? || op.SetThreadStartTime? || op.SetThreadEndTime? || op.SetThreadTid?
  }

  predicate OnProcesses(op: Op) {
    || op.AddProcess? || op.SetProcessName? || op.SetProcessStartTime? || op.SetProcessEndTime?
    || op.ChangeLibMappings? || op.ChangeKernelLibMappings? || op.AddThread?
  }

  predicate OnIds(op: Op) {
    op.AddProcess? || op.AddThread? || op.SetThreadTid?
  }

  predicate OnTypes(op: Op) {
    op.RegisterMarkerType? || op.StaticSchemaMarkerType?
  }

  ghost predicate SameThreads(p: ProfileState, p': ProfileState) {
    |p'.threads| == |p.threads| && forall t :: 0 <= t < |p.threads| ==> FactsOf(p'.threads[t]) == FactsOf(p.threads[t])
  }

  /** What a call is not about stays as it is. */
  ghost predicate OnlyItsOwn(p: ProfileState, p': ProfileState, op: Op) {
    && (OnThreads(op) || SameThreads(p, p'))
    && (OnProcesses(op) || (p'.processes == p.processes && p'.kernelLibs == p.kernelLibs))
    && (OnIds(op) || (p'.usedPids == p.usedPids && p'.usedTids == p.usedTids))
    && (op.AddLib? || op.SetLibSymbolTable? || (p'.libs.allLibs == p.libs.allLibs && p'.libs.libMap == p.libs.libMap))
    && (op.InternString? || p'.strings == p.strings)
    && (OnTypes(op) || (p'.schemas == p.schemas && p'.staticTypes == p.staticTypes))
  }

  lemma PlainOnlyItsOwn(p: ProfileState, op: Op)
    requires p.Sound() && Allowed(p, op) && !Records(op)
    ensures OnlyItsOwn(p, Step(p, op), op)
  {
    hide ProfileState.Sound, MakeUnique;
  }

  lemma StepOnlyItsOwn(p: ProfileState, op: Op)
    requires p.Sound() && Allowed(p, op)
    ensures OnlyItsOwn(p, Step(p, op), op)
  {
    hide Step, Allowed, ProfileState.Sound;
    if Records(op) {
      RecordKeepsHeads(p, op);
    } else {
      hide OnlyItsOwn, SameHeads;
      PlainOnlyItsOwn(p, op);
    }
  }

  // ----- threads -----

  lemma ThreadToldUnfolds(ops: seq<Op>, op: Op, t: nat)
    ensures ThreadCount(ops + [op]) == ThreadCount(ops) + if op.AddThread? then 1 else 0
    ensures var told, told' := ThreadTold(ops, t), ThreadTold(ops + [op], t);
      && (!OnThreads(op) ==> told' == told)
      && (op.AddThread? ==>
           told' == if t == ThreadCount(ops)
                    then Some(ThreadFacts(op.process, UseText(op.tid, Uses(ops, TidAsked, op.tid)), None,
                                          op.startTime, None, op.isMain))
                    else told)
      && (told.Some? && op.SetThreadName? ==> told' == if op.thread == t
        then Some(told.value.(name := Some(op.name))) else told)
      && (told.Some? && op.SetThreadStartTime? ==> told' == if op.thread == t
        then Some(told.value.(startTime := op.startTime)) else told)
      && (told.Some? && op.SetThreadEndTime? ==> told' == if op.thread == t
        then Some(told.value.(endTime := Some(op.endTime))) else told)
      && (told.Some? && op.SetThreadTid? ==>
           told' == if op.thread == t then Some(told.value.(tid := UseText(op.tid, Uses(ops, TidAsked, op.tid)))) else told)
  {
    FrontIs(ops, op);
  }

  lemma IdTextIsUse(used: map<u32, nat>, ops: seq<Op>, asked: Op -> Option<u32>, id: u32)
    requires UsesCounted(used, ops, asked)
    ensures MakeUnique(used, id).1 == UseText(id, Uses(ops, asked, id))
  {
    hide Uses;
  }

  lemma ThreadCallUnfolds(p: ProfileState, op: Op)
    requires p.Sound() && Allowed(p, op) && OnThreads(op)
    ensures var ts, ts' := p.threads, Step(p, op).threads;
      if op.AddThread? then ts' == ts + [NewThread(op.process, MakeUnique(p.usedTids, op.tid).1, op.startTime, op.isMain)]
      else
        && op.thread < |ts|
        && ts' == ts[op.thread := match op
                                  case SetThreadName(t, name) => ts[t].(name := Some(name))
                                  case SetThreadStartTime(t, time) => ts[t].(startTime := time)
                                  case SetThreadEndTime(t, time) => ts[t].(endTime := Some(time))
                                  case SetThreadTid(t, tid) => ts[t].(tid := MakeUnique(p.usedTids, tid).1)
                                  case _ => ts[op.thread]]
  {
    hide ProfileState.Sound, MakeUnique;
  }

  lemma ThreadCallTells(p: ProfileState, ops: seq<Op>, op: Op)
    requires p.Sound() && Allowed(p, op) && ThreadsAsTold(p, ops) && IdsAsTold(p, ops) && OnThreads(op)
    ensures ThreadsAsTold(Step(p, op), ops + [op])
  {
    ThreadCallUnfolds(p, op);
    if op.AddThread? || op.SetThreadTid? {
      IdTextIsUse(p.usedTids, ops, TidAsked, op.tid);
    }
    hide Step, Allowed, ProfileState.Sound, ThreadTold, ThreadCount, Uses, MakeUnique, UseText, UsesCounted;
    var p' := Step(p, op);
    ThreadToldUnfolds(ops, op, 0);
    forall t: nat | t < |p'.threads|
      ensures ThreadTold(ops + [op], t) == Some(FactsOf(p'.threads[t]))
    {
      ThreadToldUnfolds(ops, op, t);
    }
  }

  lemma ThreadsStayTold(p: ProfileState, p': ProfileState, ops: seq<Op>, op: Op)
    requires ThreadsAsTold(p, ops) && SameThreads(p, p') && !OnThreads(op)
    ensures ThreadsAsTold(p', ops + [op])
  {
    hide ThreadTold, ThreadCount;
    ThreadToldUnfolds(ops, op, 0);
    forall t: nat | t < |p'.threads|
      ensures ThreadTold(ops + [op], t) == Some(FactsOf(p'.threads[t]))
    {
      ThreadToldUnfolds(ops, op, t);
    }
  }

  // ----- processes and their address spaces -----

  lemma ProcessToldUnfolds(ops: seq<Op>, op: Op, i: nat)
    ensures ProcessCount(ops + [op]) == ProcessCount(ops) + if op.AddProcess? then 1 else 0
    ensures ThreadsOf(ops + [op], i) == if op.AddThread? && op.process == i then ThreadsOf(ops, i) + [ThreadCount(ops)]
      else ThreadsOf(ops, i)
    ensures MapCalls(ops + [op], i) == if op.ChangeLibMappings? && op.process == i then MapCalls(ops, i) + [op.mapOp]
      else MapCalls(ops, i)
    ensures KernelMapCalls(ops + [op]) == if op.ChangeKernelLibMappings? then KernelMapCalls(ops) + [op.mapOp]
      else KernelMapCalls(ops)
    ensures var told, told' := ProcessTold(ops, i), ProcessTold(ops + [op], i);
      && (!OnProcesses(op) || op.AddThread? || op.ChangeLibMappings? || op.ChangeKernelLibMappings? ==> told' == told)
      && (op.AddProcess? ==>
           told' == if i == ProcessCount(ops)
                    then Some(ProcessFacts(UseText(op.pid, Uses(ops, PidAsked, op.pid)), op.name, op.startTime, None))
                    else told)
      && (told.Some? && op.SetProcessName? ==> told' == if op.process == i then Some(told.value.(name := op.name)) else told)
      && (told.Some? && op.SetProcessStartTime? ==> told' == if op.process == i
        then Some(told.value.(startTime := op.startTime)) else told)
      && (told.Some? && op.SetProcessEndTime? ==> told' == if op.process == i
        then Some(told.value.(endTime := Some(op.endTime))) else told)
  {
    FrontIs(ops, op);
    hide ThreadCount, UseText, Uses;
  }

  lemma OneMoreMapCall(calls: seq<LibMappings.MapOp<nat>>, mapOp: LibMappings.MapOp<nat>)
    ensures LibMappings.Run(calls + [mapOp]) == LibMappings.Apply(LibMappings.Run(calls), mapOp)
  {
    assert (calls + [mapOp])[..|calls|] == calls;
    hide LibMappings.Apply;
  }

  lemma ProcessCallUnfolds(p: ProfileState, op: Op)
    requires p.Sound() && Allowed(p, op) && OnProcesses(op)
    ensures var ps, p' := p.processes, Step(p, op);
      if op.AddProcess? then
        && p'.kernelLibs == p.kernelLibs
        && p'.processes == ps + [ProcessState(MakeUnique(p.usedPids, op.pid).1, op.name, [], op.startTime, None, [])]
      else if op.ChangeKernelLibMappings? then
        p'.processes == ps && p'.kernelLibs == LibMappings.Apply(p.kernelLibs, op.mapOp)
      else
        && op.process < |ps| && p'.kernelLibs == p.kernelLibs
        && p'.processes == ps[op.process := match op
                                            case SetProcessName(i, name) => ps[i].(name := name)
                                            case SetProcessStartTime(i, time) => ps[i].(startTime := time)
                                            case SetProcessEndTime(i, time) => ps[i].(endTime := Some(time))
                                            case ChangeLibMappings(i, mapOp) =>
                                              ps[i].(libs := LibMappings.Apply(ps[i].libs, mapOp))
                                            case AddThread(i, _, _, _) => ps[i].(threads := ps[i].threads + [|p.threads|])
                                            case _ => ps[op.process]]
  {
    hide ProfileState.Sound, MakeUnique, LibMappings.Apply;
  }

  lemma ProcessStaysTold(process: ProcessState, ops: seq<Op>, op: Op, i: nat)
    requires ProcessAsTold(process, ops, i)
    requires op.AddProcess? ==> i != ProcessCount(ops)
    requires OnProcesses(op) && !op.AddProcess? && !op.ChangeKernelLibMappings? ==> op.process != i
    ensures ProcessAsTold(process, ops + [op], i)
  {
    hide ProcessTold, ProcessCount, ThreadsOf, MapCalls, KernelMapCalls, LibMappings.Run, ThreadCount, UseText, Uses;
    ProcessToldUnfolds(ops, op, i);
  }

  lemma OwnProcessTold(p: ProfileState, ops: seq<Op>, op: Op)
    requires p.Sound() && Allowed(p, op) && ProcessesAsTold(p, ops) && ThreadsAsTold(p, ops) && IdsAsTold(p, ops)
    requires OnProcesses(op) && !op.ChangeKernelLibMappings?
    ensures var i := if op.AddProcess? then |p.processes| else op.process;
      i < |Step(p, op).processes| && ProcessAsTold(Step(p, op).processes[i], ops + [op], i)
  {
    ProcessCallUnfolds(p, op);
    hide Step, Allowed, ProfileState.Sound, ThreadTold, ThreadCount, Uses, MakeUnique, UseText, UsesCounted, ProcessTold,
      ProcessCount, ThreadsOf, MapCalls, KernelMapCalls, LibMappings.Run, LibMappings.Apply;
    var i := if op.AddProcess? then |p.processes| else op.process;
    ProcessToldUnfolds(ops, op, i);
    if op.AddProcess? {
      IdTextIsUse(p.usedPids, ops, PidAsked, op.pid);
      NoMapCalls();
    } else {
      assert ProcessAsTold(p.processes[i], ops, i);
      if op.ChangeLibMappings? {
        OneMoreMapCall(MapCalls(ops, i), op.mapOp);
      }
    }
  }

  lemma KernelTold(p: ProfileState, ops: seq<Op>, op: Op)
    requires p.Sound() && Allowed(p, op) && p.kernelLibs == LibMappings.Run(KernelMapCalls(ops)) && OnProcesses(op)
    ensures Step(p, op).kernelLibs == LibMappings.Run(KernelMapCalls(ops + [op]))
  {
    ProcessCallUnfolds(p, op);
    hide *;
    ProcessToldUnfolds(ops, op, 0);
    if op.ChangeKernelLibMappings? {
      OneMoreMapCall(KernelMapCalls(ops), op.mapOp);
    }
  }

  /** The process a call is about. */
  predicate About(op: Op, i: nat, count: nat) {
    if op.AddProcess? then i == count else OnProcesses(op) && !op.ChangeKernelLibMappings? && i == op.process
  }

  lemma OtherProcessesSame(p: ProfileState, op: Op)
    requires p.Sound() && Allowed(p, op) && OnProcesses(op)
    ensures |Step(p, op).processes| == |p.processes| + if op.AddProcess? then 1 else 0
    ensures forall i: nat :: i < |p.processes| && !About(op, i, |p.processes|) ==> Step(p, op).processes[i] == p.processes[i]
    ensures forall i: nat :: About(op, i, |p.processes|) ==> i < |Step(p, op).processes|
  {
    ProcessCallUnfolds(p, op);
    hide Step, Allowed, ProfileState.Sound, MakeUnique, LibMappings.Apply;
  }

  lemma EachProcessTold(p: ProfileState, ops: seq<Op>, op: Op, i: nat)
    requires p.Sound() && Allowed(p, op) && ProcessesAsTold(p, ops) && ThreadsAsTold(p, ops) && IdsAsTold(p, ops)
      && OnProcesses(op)
    ensures |Step(p, op).processes| == ProcessCount(ops + [op])
    ensures i < |Step(p, op).processes| ==> ProcessAsTold(Step(p, op).processes[i], ops + [op], i)
    ensures i >= |Step(p, op).processes| ==> ThreadsOf(ops + [op], i) == [] && MapCalls(ops + [op], i) == []
  {
    hide Step, Allowed, ProfileState.Sound, ProcessAsTold, ThreadsAsTold, IdsAsTold, ProcessCount, ThreadCount, ProcessTold,
      ThreadsOf, MapCalls, KernelMapCalls, LibMappings.Run, UseText, Uses;
    OtherProcessesSame(p, op);
    if About(op, i, |p.processes|) {
      OwnProcessTold(p, ops, op);
    } else if i < |p.processes| {
      ProcessStaysTold(p.processes[i], ops, op, i);
    }
    CountsUnfold(ops, op, i);
  }

  lemma CountsUnfold(ops: seq<Op>, op: Op, i: nat)
    ensures ProcessCount(ops + [op]) == ProcessCount(ops) + if op.AddProcess? then 1 else 0
    ensures !About(op, i, ProcessCount(ops)) ==>
      ThreadsOf(ops + [op], i) == ThreadsOf(ops, i) && MapCalls(ops + [op], i) == MapCalls(ops, i)
  {
    ProcessToldUnfolds(ops, op, i);
    hide ProcessCount, ThreadsOf, MapCalls;
  }

  lemma ProcessCallTells(p: ProfileState, ops: seq<Op>, op: Op)
    requires p.Sound() && Allowed(p, op) && ProcessesAsTold(p, ops) && ThreadsAsTold(p, ops) && IdsAsTold(p, ops)
      && OnProcesses(op)
    ensures ProcessesAsTold(Step(p, op), ops + [op])
  {
    KernelTold(p, ops, op);
    hide Step, Allowed, ProfileState.Sound, ProcessAsTold, ThreadsAsTold, IdsAsTold, ProcessCount, ThreadsOf, MapCalls,
      KernelMapCalls, LibMappings.Run;
    EachProcessTold(p, ops, op, 0);
    forall i: nat
      ensures i < |Step(p, op).processes| ==> ProcessAsTold(Step(p, op).processes[i], ops + [op], i)
      ensures i >= |Step(p, op).processes| ==> ThreadsOf(ops + [op], i) == [] && MapCalls(ops + [op], i) == []
    {
      EachProcessTold(p, ops, op, i);
    }
  }

  lemma NoMapCalls()
    ensures LibMappings.Run<nat>([]) == []
  {
  }

  lemma ProcessesStayTold(p: ProfileState, p': ProfileState, ops: seq<Op>, op: Op)
    requires ProcessesAsTold(p, ops) && p'.processes == p.processes && p'.kernelLibs == p.kernelLibs && !OnProcesses(op)
    ensures ProcessesAsTold(p', ops + [op])
  {
    hide ProcessTold, ProcessCount, ThreadsOf, MapCalls, KernelMapCalls, LibMappings.Run, ThreadCount;
    ProcessToldUnfolds(ops, op, 0);
    forall i: nat
      ensures i < |p'.processes| ==> ProcessAsTold(p'.processes[i], ops + [op], i)
      ensures i >= |p'.processes| ==> ThreadsOf(ops + [op], i) == [] && MapCalls(ops + [op], i) == []
    {
      ProcessToldUnfolds(ops, op, i);
      assert i < |p.processes| ==> ProcessAsTold(p.processes[i], ops, i);
    }
  }

  // ----- ids -----

  lemma UsesUnfold(ops: seq<Op>, op: Op, asked: Op -> Option<u32>, id: u32)
    ensures Uses(ops + [op], asked, id) == Uses(ops, asked, id) + if asked(op) == Some(id) then 1 else 0
  {
    FrontIs(ops, op);
  }

  lemma OneMoreUse(used: map<u32, nat>, ops: seq<Op>, op: Op, asked: Op -> Option<u32>)
    requires UsesCounted(used, ops, asked)
    ensures UsesCounted(if asked(op).Some? then MakeUnique(used, asked(op).value).0 else used, ops + [op], asked)
  {
    hide Uses;
    var used' := if asked(op).Some? then MakeUnique(used, asked(op).value).0 else used;
    forall id: u32
      ensures if id in used' then used'[id] == Uses(ops + [op], asked, id) > 0 else Uses(ops + [op], asked, id) == 0
    {
      UsesUnfold(ops, op, asked, id);
    }
  }

  lemma StepTellsIds(p: ProfileState, ops: seq<Op>, op: Op)
    requires p.Sound() && Allowed(p, op) && IdsAsTold(p, ops)
    ensures IdsAsTold(Step(p, op), ops + [op])
  {
    hide UsesCounted, MakeUnique, Step, Allowed, ProfileState.Sound;
    OneMoreUse(p.usedPids, ops, op, PidAsked);
    OneMoreUse(p.usedTids, ops, op, TidAsked);
    StepOnlyItsOwn(p, op);
    IdCallsChangeIds(p, op);
  }

  // ----- libraries -----

  lemma LibsAddedUnfold(ops: seq<Op>, op: Op, h: nat)
    ensures LibsAdded(ops + [op]) == if op.AddLib? && op.library !in LibsAdded(ops) then LibsAdded(ops) + [op.library]
      else LibsAdded(ops)
    ensures TableTold(ops + [op], h)
         == if op.AddLib? && h == |LibsAdded(ops)| && op.library !in LibsAdded(ops) then op.library.symbolTable
            else if op.SetLibSymbolTable? && op.handle == h then Some(op.table)
            else TableTold(ops, h)
  {
    FrontIs(ops, op);
  }

  lemma LibsStepTold(libs: Libs, libs': Libs, ops: seq<Op>, op: Op)
    requires LibsAsTold(libs, ops)
    requires match op
             case AddLib(library) => libs' == libs.HandleFor(library).0
             case SetLibSymbolTable(h, table) => h < |libs.allLibs| && libs' == libs.SetSymbolTable(h, table)
             case _ => libs'.allLibs == libs.allLibs && libs'.libMap == libs.libMap
    ensures LibsAsTold(libs', ops + [op])
    ensures op.AddLib? ==>
      var h := libs.HandleFor(op.library).1;
      h < |LibsAdded(ops + [op])| && LibsAdded(ops + [op])[h] == op.library
  {
    hide LibsAdded, TableTold;
    LibsAddedUnfold(ops, op, 0);
    forall h: nat | h < |libs'.allLibs|
      ensures |libs'.allLibs| == |LibsAdded(ops + [op])|
      ensures libs'.allLibs[h] == LibsAdded(ops + [op])[h].(symbolTable := TableTold(ops + [op], h))
    {
      LibsAddedUnfold(ops, op, h);
    }
  }

  // ----- strings and marker types -----

  lemma StringsStepTold(strings: Strings, strings': Strings, ops: seq<Op>, op: Op)
    requires StringsAsTold(strings, ops) && strings' == if op.InternString? then strings.Intern(op.s).0 else strings
    ensures StringsAsTold(strings', ops + [op])
  {
    FrontIs(ops, op);
  }

  lemma TypesAddedUnfold(ops: seq<Op>, op: Op, name: string)
    ensures TypesAdded(ops + [op])
         == if op.RegisterMarkerType? || (op.StaticSchemaMarkerType? && StaticTypeAt(ops, op.typeName).None?)
            then TypesAdded(ops) + [(op.typeName, op.fields)] else TypesAdded(ops)
    ensures StaticTypeAt(ops + [op], name)
         == if op.StaticSchemaMarkerType? && op.typeName == name && StaticTypeAt(ops, name).None? then Some(|TypesAdded(ops)|)
            else StaticTypeAt(ops, name)
  {
    FrontIs(ops, op);
  }

  lemma TypeCallUnfolds(p: ProfileState, op: Op)
    requires p.Sound() && Allowed(p, op) && OnTypes(op)
    ensures var p' := Step(p, op);
      if op.StaticSchemaMarkerType? && op.typeName in p.staticTypes then
        p'.schemas == p.schemas && p'.staticTypes == p.staticTypes
      else
        && p'.schemas == p.schemas + [Register(op.typeName, op.fields)]
        && p'.staticTypes == if op.RegisterMarkerType? then p.staticTypes else p.staticTypes[op.typeName := |p.schemas|]
  {
    hide ProfileState.Sound;
  }

  lemma TypesStepTold(p: ProfileState, ops: seq<Op>, op: Op)
    requires p.Sound() && Allowed(p, op) && TypesAsTold(p, ops) && OnTypes(op)
    ensures TypesAsTold(Step(p, op), ops + [op])
  {
    hide Step, ProfileState.Sound, TypesAdded, StaticTypeAt, Allowed, Filter;
    TypeCallUnfolds(p, op);
    TypesAddedUnfold(ops, op, op.typeName);
    forall name: string
      ensures StaticTypeAt(ops + [op], name)
           == if name in Step(p, op).staticTypes then Some(Step(p, op).staticTypes[name]) else None
    {
      TypesAddedUnfold(ops, op, name);
    }
  }

  lemma TypesStayTold(p: ProfileState, p': ProfileState, ops: seq<Op>, op: Op)
    requires TypesAsTold(p, ops) && p'.schemas == p.schemas && p'.staticTypes == p.staticTypes && !OnTypes(op)
    ensures TypesAsTold(p', ops + [op])
  {
    hide TypesAdded, StaticTypeAt;
    TypesAddedUnfold(ops, op, "");
    forall name: string
      ensures StaticTypeAt(ops + [op], name) == StaticTypeAt(ops, name)
    {
      TypesAddedUnfold(ops, op, name);
    }
  }

  // ----- every run -----

  ghost predicate AsTold(p: ProfileState, ops: seq<Op>) {
    && ThreadsAsTold(p, ops) && ProcessesAsTold(p, ops) && IdsAsTold(p, ops)
    && LibsAsTold(p.libs, ops) && StringsAsTold(p.strings, ops) && TypesAsTold(p, ops)
  }

  lemma LibsCallUnfolds(p: ProfileState, op: Op)
    requires p.Sound() && Allowed(p, op) && (op.AddLib? || op.SetLibSymbolTable? || op.InternString?)
    ensures op.AddLib? ==> Step(p, op).libs == p.libs.HandleFor(op.library).0
    ensures op.SetLibSymbolTable? ==>
      op.handle < |p.libs.allLibs| && Step(p, op).libs == p.libs.SetSymbolTable(op.handle, op.table)
    ensures op.InternString? ==> Step(p, op).strings == p.strings.Intern(op.s).0
  {
    hide ProfileState.Sound;
  }

  lemma StepAsTold(p: ProfileState, ops: seq<Op>, op: Op)
    requires p.Sound() && Allowed(p, op) && AsTold(p, ops)
    ensures AsTold(Step(p, op), ops + [op])
  {
    hide Step, Allowed, ProfileState.Sound, ThreadsAsTold, ProcessesAsTold, IdsAsTold, LibsAsTold, StringsAsTold,
      TypesAsTold, SameThreads, Libs.HandleFor, Libs.SetSymbolTable, Strings.Intern;
    var p' := Step(p, op);
    StepOnlyItsOwn(p, op);
    StepTellsIds(p, ops, op);
    if op.AddLib? || op.SetLibSymbolTable? || op.InternString? {
      LibsCallUnfolds(p, op);
    }
    LibsStepTold(p.libs, p'.libs, ops, op);
    StringsStepTold(p.strings, p'.strings, ops, op);
    if OnThreads(op) {
      ThreadCallTells(p, ops, op);
    } else {
      ThreadsStayTold(p, p', ops, op);
    }
    if OnProcesses(op) {
      ProcessCallTells(p, ops, op);
    } else {
      ProcessesStayTold(p, p', ops, op);
    }
    if OnTypes(op) {
      TypesStepTold(p, ops, op);
    } else {
      TypesStayTold(p, p', ops, op);
    }
  }

  lemma NothingTold()
    ensures AsTold(EmptyProfile, [])
  {
  }

  /** Over every run the profile holds what the calls told it: threads, processes and address spaces, ids,
      libraries with their symbol tables, strings and marker types. */
  lemma {:induction false} EveryRunAsTold(ops: seq<Op>)
    requires AllowedRun(ops)
    ensures AsTold(Run(ops), ops)
  {
    hide Step, Allowed, AsTold, ProfileState.Sound;
    if ops == [] {
      NothingTold();
    } else {
      var before, op := ops[..|ops| - 1], ops[|ops| - 1];
      EveryRunAsTold(before);
      StepAsTold(Run(before), before, op);
      assert before + [op] == ops;
    }
  }

  // ----- what handles lead to -----

  /** The handle of a library leads to it, with the symbol table it has been given last. */
  lemma LibHandleLeads(ops: seq<Op>, library: LibraryInfo, more: seq<Op>, h: nat)
    requires AllowedRun(ops + [AddLib(library)]) && AllowedRun(ops + [AddLib(library)] + more) && AllowedRun(ops)
    requires h == Run(ops).libs.HandleFor(library).1
    ensures var libs, all := Run(ops + [AddLib(library)] + more).libs, ops + [AddLib(library)] + more;
      h < |libs.allLibs| && libs.allLibs[h] == library.(symbolTable := TableTold(all, h))
  {
    hide Step, Allowed, Run, AllowedRun, LibsAdded, TableTold, Libs.HandleFor;
    var op := AddLib(library);
    EveryRunAsTold(ops);
    RunUnfolds(ops, op);
    LibsCallUnfolds(Run(ops), op);
    LibsStepTold(Run(ops).libs, Run(ops + [op]).libs, ops, op);
    EveryRunAsTold(ops + [op] + more);
    LibsAddedStay(ops + [op], more);
  }

  lemma {:induction false} LibsAddedStay(ops: seq<Op>, more: seq<Op>)
    ensures LibsAdded(ops) <= LibsAdded(ops + more)
    decreases |more|
  {
    if more == [] {
      assert ops + more == ops;
    } else {
      var front, op := more[..|more| - 1], more[|more| - 1];
      LibsAddedStay(ops, front);
      assert ops + more == (ops + front) + [op];
      LibsAddedUnfold(ops + front, op, 0);
      hide LibsAdded;
    }
  }

  /** A static marker type is registered once, by its first call, under its name and with the fields of that call. */
  lemma StaticTypeLeads(ops: seq<Op>, typeName: string, fields: seq<Field>, more: seq<Op>)
    requires AllowedRun(ops) && AllowedRun(ops + [StaticSchemaMarkerType(typeName, fields)] + more)
    requires StaticTypeAt(ops, typeName).None?
    ensures var p, n := Run(ops + [StaticSchemaMarkerType(typeName, fields)] + more), |Run(ops).schemas|;
      && typeName in p.staticTypes && p.staticTypes[typeName] == n < |p.schemas|
      && p.schemas[n].typeName == typeName && p.schemas[n].fields == fields
  {
    hide Step, Allowed, Run, AllowedRun, TypesAdded, StaticTypeAt;
    var op := StaticSchemaMarkerType(typeName, fields);
    EveryRunAsTold(ops);
    EveryRunAsTold(ops + [op] + more);
    TypesAddedUnfold(ops, op, typeName);
    TypesAddedStay(ops + [op], more, typeName);
  }

  lemma {:induction false} TypesAddedStay(ops: seq<Op>, more: seq<Op>, name: string)
    ensures TypesAdded(ops) <= TypesAdded(ops + more)
    ensures StaticTypeAt(ops, name).Some? ==> StaticTypeAt(ops + more, name) == StaticTypeAt(ops, name)
    decreases |more|
  {
    if more == [] {
      assert ops + more == ops;
    } else {
      var front, op := more[..|more| - 1], more[|more| - 1];
      TypesAddedStay(ops, front, name);
      assert ops + more == (ops + front) + [op];
      TypesAddedUnfold(ops + front, op, name);
      hide TypesAdded, StaticTypeAt;
    }
  }

  // ----- what addresses mean -----

  lemma SpacesTold(p: ProfileState, ops: seq<Op>, i: nat)
    requires ProcessesAsTold(p, ops)
    ensures p.kernelLibs == LibMappings.Run(KernelMapCalls(ops))
    ensures i < |p.processes| ==> p.processes[i].libs == LibMappings.Run(MapCalls(ops, i))
  {
    assert i < |p.processes| ==> ProcessAsTold(p.processes[i], ops, i);
  }

  lemma MapCallAllowed(p: ProfileState, op: Op)
    requires Allowed(p, op)
    ensures op.ChangeKernelLibMappings? ==> LibMappings.OpDoesNotPanic(p.kernelLibs, op.mapOp)
    ensures op.ChangeLibMappings? ==>
      op.process < |p.processes| && LibMappings.OpDoesNotPanic(p.processes[op.process].libs, op.mapOp)
    ensures CleanCall(p, op) && op.ChangeKernelLibMappings? ==> LibMappings.OpIsClean(p.kernelLibs, op.mapOp)
    ensures CleanCall(p, op) && op.ChangeLibMappings? ==> LibMappings.OpIsClean(p.processes[op.process].libs, op.mapOp)
  {
  }

  lemma OneMoreMapCallFine(p: ProfileState, ops: seq<Op>, op: Op, i: nat)
    requires Allowed(p, op) && ProcessesAsTold(p, ops)
    requires LibMappings.NonePanics(MapCalls(ops, i)) && LibMappings.NonePanics(KernelMapCalls(ops))
    ensures LibMappings.NonePanics(MapCalls(ops + [op], i)) && LibMappings.NonePanics(KernelMapCalls(ops + [op]))
    ensures CleanCall(p, op) && LibMappings.AllClean(MapCalls(ops, i)) && LibMappings.AllClean(KernelMapCalls(ops)) ==>
      LibMappings.AllClean(MapCalls(ops + [op], i)) && LibMappings.AllClean(KernelMapCalls(ops + [op]))
  {
    hide *;
    ProcessToldUnfolds(ops, op, i);
    SpacesTold(p, ops, i);
    MapCallAllowed(p, op);
    if op.ChangeKernelLibMappings? {
      OneMoreFine(KernelMapCalls(ops), op.mapOp);
    } else if op.ChangeLibMappings? && op.process == i {
      OneMoreFine(MapCalls(ops, i), op.mapOp);
    }
  }

  /** The changes to an address space are the ones its own theorems speak of. */
  lemma {:induction false} MapCallsFine(ops: seq<Op>, i: nat)
    requires AllowedRun(ops)
    ensures LibMappings.NonePanics(MapCalls(ops, i)) && LibMappings.NonePanics(KernelMapCalls(ops))
    ensures CleanCalls(ops) ==> LibMappings.AllClean(MapCalls(ops, i)) && LibMappings.AllClean(KernelMapCalls(ops))
  {
    hide *;
    if ops == [] {
      NoMapCallsFine(i);
    } else {
      var before, op := ops[..|ops| - 1], ops[|ops| - 1];
      assert before + [op] == ops;
      RunUnfolds(before, op);
      CleanCallsUnfold(before, op);
      MapCallsFine(before, i);
      EveryRunAsTold(before);
      AsToldUnfolds(Run(before), before);
      OneMoreMapCallFine(Run(before), before, op, i);
    }
  }

  lemma NoMapCallsFine(i: nat)
    ensures LibMappings.NonePanics(MapCalls([], i)) && LibMappings.NonePanics(KernelMapCalls([]))
    ensures LibMappings.AllClean(MapCalls([], i)) && LibMappings.AllClean(KernelMapCalls([]))
  {
  }

  lemma CleanCallsUnfold(ops: seq<Op>, op: Op)
    requires AllowedRun(ops + [op])
    ensures AllowedRun(ops) && (CleanCalls(ops + [op]) ==> CleanCalls(ops) && CleanCall(Run(ops), op))
  {
    FrontIs(ops, op);
    hide Run, CleanCall, Allowed;
  }

  lemma AsToldUnfolds(p: ProfileState, ops: seq<Op>)
    requires AsTold(p, ops)
    ensures ProcessesAsTold(p, ops)
  {
    hide ProcessesAsTold;
  }

  lemma OneMoreFine(calls: seq<LibMappings.MapOp<nat>>, mapOp: LibMappings.MapOp<nat>)
    requires LibMappings.NonePanics(calls) && LibMappings.OpDoesNotPanic(LibMappings.Run(calls), mapOp)
    ensures LibMappings.NonePanics(calls + [mapOp])
    ensures LibMappings.AllClean(calls) && LibMappings.OpIsClean(LibMappings.Run(calls), mapOp) ==>
      LibMappings.AllClean(calls + [mapOp])
  {
    assert (calls + [mapOp])[..|calls|] == calls;
    hide LibMappings.Run, LibMappings.OpDoesNotPanic, LibMappings.OpIsClean;
  }

  /** An address in a mapping: its library, and how far it lies behind what the mapping starts with, in 32 bits. */
  function MeaningIn(m: LibMappings.Mapping<nat>, address: u64): Meaning {
    Mapped((m.relativeStart + (address - m.start)) % U32_LIMIT, m.value)
  }

  /** Scan what is left of the kernel's mappings, then what is left of the process's own. */
  function ScannedMeaning(kernel: seq<LibMappings.MapOp<nat>>, own: seq<LibMappings.MapOp<nat>>, address: u64): Meaning {
    match LibMappings.LinearScan(LibMappings.RunNaive(kernel), address)
    case Some(m) => MeaningIn(m, address)
    case None =>
      match LibMappings.LinearScan(LibMappings.RunNaive(own), address)
      case Some(m) => MeaningIn(m, address)
      case None => Unmapped(address)
  }

  lemma ConvertIsScan(calls: seq<LibMappings.MapOp<nat>>, address: u64)
    requires LibMappings.NonePanics(calls) && LibMappings.AllClean(calls)
    ensures match LibMappings.ConvertAddress(LibMappings.Run(calls), address)
            case Some((relative, library)) =>
              var m := LibMappings.LinearScan(LibMappings.RunNaive(calls), address);
              m.Some? && MeaningIn(m.value, address) == Mapped(relative, library)
            case None => LibMappings.LinearScan(LibMappings.RunNaive(calls), address) == None
  {
    LibMappings.LookupRefinesLinearScan(calls, address);
    hide LibMappings.Run, LibMappings.RunNaive, LibMappings.LinearScan, LibMappings.LookupImpl;
  }

  /** Over every run that adds only clean mappings, an address means what scanning the mappings that are left
      says, the kernel's before those of the thread's own process. */
  lemma AddressMeansScan(ops: seq<Op>, t: nat, address: u64)
    requires AllowedRun(ops) && CleanCalls(ops) && t < |Run(ops).threads|
    ensures Run(ops).threads[t].process < |Run(ops).processes|
    ensures MeaningOfAddress(Run(ops).ScopeFor(t), address)
         == ScannedMeaning(KernelMapCalls(ops), MapCalls(ops, Run(ops).threads[t].process), address)
  {
    var p := Run(ops);
    assert p.threads[t].process < |p.processes|;
    EveryRunAsTold(ops);
    assert ProcessAsTold(p.processes[p.threads[t].process], ops, p.threads[t].process);
    MapCallsFine(ops, p.threads[t].process);
    hide Run, AllowedRun, ProfileState.Sound, LibMappings.Run, LibMappings.RunNaive, LibMappings.LinearScan,
      LibMappings.ConvertAddress, MapCalls, KernelMapCalls, ThreadsAsTold, IdsAsTold, LibsAsTold, StringsAsTold,
      TypesAsTold, ProcessTold, LibMappings.NonePanics,
      LibMappings.AllClean;
    ConvertIsScan(KernelMapCalls(ops), address);
    ConvertIsScan(MapCalls(ops, p.threads[t].process), address);
  }

  /** What each kind of frame means: a return address and a relative return address stand for the byte before. */
  lemma FrameMeansScan(ops: seq<Op>, t: nat, frame: Frame)
    requires AllowedRun(ops) && CleanCalls(ops) && t < |Run(ops).threads|
    ensures Run(ops).threads[t].process < |Run(ops).processes|
    ensures var kernel, own := KernelMapCalls(ops), MapCalls(ops, Run(ops).threads[t].process);
      MeaningOf(Run(ops).ScopeFor(t), frame)
      == match frame
         case InstructionPointer(ip) => ScannedMeaning(kernel, own, ip)
         case ReturnAddress(ra) => ScannedMeaning(kernel, own, if ra == 0 then 0 else ra - 1)
         case AdjustedReturnAddress(ara) => ScannedMeaning(kernel, own, ara)
         case RelativeAddressFromInstructionPointer(library, relative) => Mapped(relative, library)
         case RelativeAddressFromReturnAddress(library, relative) =>
           Mapped(if relative == 0 then 0 else relative - 1, library)
         case RelativeAddressFromAdjustedReturnAddress(library, relative) => Mapped(relative, library)
         case LabelFrame(text) => Meaning.Text(text)
  {
    hide Run, AllowedRun, CleanCalls, MeaningOfAddress, ScannedMeaning;
    match frame {
      case InstructionPointer(ip) => AddressMeansScan(ops, t, ip);
      case ReturnAddress(ra) => AddressMeansScan(ops, t, if ra == 0 then 0 else ra - 1);
      case AdjustedReturnAddress(ara) => AddressMeansScan(ops, t, ara);
      case _ => AddressMeansScan(ops, t, 0);
    }
  }
}
