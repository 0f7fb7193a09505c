/** Runs of calls carried out on a profile object. */
module ProfileClients {
  import opened CallStacks
  import opened MarkerTables
  import opened ProfileModel
  import opened Profiles
  import opened ProfileRuns
  import opened Threads

  lemma ThreadInFootprint(p: Profile, t: nat)
    requires t < |p.threads|
    ensures p.threads[t].Parts() <= p.Footprint()
  {
    assert p.threads[t] in p.threads;
  }

  lemma ThreadOwnParts(th: Thread)
    ensures th in th.Parts() && th.samples in th.Parts() && th.markers in th.Parts()
    ensures th.stringTable in th.Parts() && th.stringTable.table in th.Parts()
  {
  }

  lemma ProcessInFootprint(p: Profile, i: nat)
    requires i < |p.processes|
    ensures p.processes[i] in p.Footprint() && p.processes[i].libs in p.Footprint()
  {
    assert p.processes[i] in p.processes;
  }

  lemma OwnParts(p: Profile)
    ensures p in p.Footprint() && p.globalLibs in p.Footprint() && p.kernelLibs in p.Footprint()
    ensures p.stringTable.table in p.Footprint()
    ensures forall t, o :: t in p.threads && o in t.Parts() ==> o in p.Footprint()
  {
  }

  lemma InRange(p: Profile)
    requires p.Valid()
    ensures |p.View().threads| == |p.threads| && |p.View().processes| == |p.processes|
  {
  }

  /** One call of the state machine, made on the object. */
  method Perform(p: Profile, op: Op)
    requires p.Valid() && Allowed(p.View(), op)
    modifies p.Footprint()
    ensures p.Valid() && p.View() == Step(old(p.View()), op)
    ensures fresh(p.Footprint() - old(p.Footprint()))
  {
    hide Step, Profile.Valid, Profile.View, Profile.Footprint, ProfileState.Sound, Thread.Parts;
    OwnParts(p);
    InRange(p);
    match op {
      case AddLib(library) => var _ := p.AddLib(library);
      case SetLibSymbolTable(handle, table) => p.SetLibSymbolTable(handle, table);
      case AddProcess(name, pid, startTime) => var _ := p.AddProcess(name, pid, startTime);
      case ChangeKernelLibMappings(mapOp) =>
        if mapOp.AddMapping? {
          p.AddKernelLibMapping(mapOp.m.value, mapOp.m.start, mapOp.m.end, mapOp.m.relativeStart);
        } else {
          p.RemoveKernelLibMapping(mapOp.start);
        }
      case InternString(s) => var _ := p.InternString(s);
      case RegisterMarkerType(typeName, fields) => var _ := p.RegisterMarkerType(typeName, fields);
      case StaticSchemaMarkerType(typeName, fields) => var _ := p.StaticSchemaMarkerType(typeName, fields);
      case AddAllocationSample(thread, timestamp, frames, address, size) =>
        p.AddAllocationSample(thread, timestamp, frames, address, size);
      case _ => PerformOnPart(p, op);
    }
  }

  predicate OnPart(op: Op) {
    !op.AddLib? && !op.SetLibSymbolTable? && !op.AddProcess? && !op.ChangeKernelLibMappings? && !op.InternString?
    && !op.RegisterMarkerType? && !op.StaticSchemaMarkerType? && !op.AddAllocationSample?
  }

  predicate OnProcess(op: Op) {
    op.SetProcessStartTime? || op.SetProcessEndTime? || op.SetProcessName? || op.ChangeLibMappings? || op.AddThread?
  }

  /** A call about one process or one thread. */
  method PerformOnPart(p: Profile, op: Op)
    requires p.Valid() && Allowed(p.View(), op) && OnPart(op)
    modifies p.Footprint()
    ensures p.Valid() && p.View() == Step(old(p.View()), op)
    ensures fresh(p.Footprint() - old(p.Footprint()))
  {
    hide Step, Allowed, Profile.Valid, Profile.View, Profile.Footprint, ProfileState.Sound, Thread.Parts;
    if OnProcess(op) {
      PerformOnProcess(p, op);
    } else {
      PerformOnThread(p, op);
    }
  }

  method PerformOnProcess(p: Profile, op: Op)
    requires p.Valid() && Allowed(p.View(), op) && OnProcess(op)
    modifies p.Footprint()
    ensures p.Valid() && p.View() == Step(old(p.View()), op)
    ensures fresh(p.Footprint() - old(p.Footprint()))
  {
    hide Step, Profile.Valid, Profile.View, Profile.Footprint, ProfileState.Sound, Thread.Parts;
    OwnParts(p);
    InRange(p);
    ProcessInFootprint(p, op.process);
    match op {
      case SetProcessStartTime(i, startTime) => p.SetProcessStartTime(i, startTime);
      case SetProcessEndTime(i, endTime) => p.SetProcessEndTime(i, endTime);
      case SetProcessName(i, name) => p.SetProcessName(i, name);
      case ChangeLibMappings(i, mapOp) =>
        match mapOp {
          case AddMapping(m) => p.AddLibMapping(i, m.value, m.start, m.end, m.relativeStart);
          case RemoveMapping(start) => p.RemoveLibMapping(i, start);
          case Clear => p.ClearProcessLibMappings(i);
        }
      case AddThread(i, tid, startTime, isMain) => var _ := p.AddThread(i, tid, startTime, isMain);
      case _ =>
    }
  }

  method PerformOnThread(p: Profile, op: Op)
    requires p.Valid() && Allowed(p.View(), op) && OnPart(op) && !OnProcess(op)
    modifies p.Footprint()
    ensures p.Valid() && p.View() == Step(old(p.View()), op)
    ensures fresh(p.Footprint() - old(p.Footprint()))
  {
    hide Step, Profile.Valid, Profile.View, Profile.Footprint, ProfileState.Sound, Thread.Parts, AllIssued, HandlesKnown;
    OwnParts(p);
    InRange(p);
    ThreadInFootprint(p, op.thread);
    ThreadOwnParts(p.threads[op.thread]);
    match op {
      case SetThreadName(t, name) => p.SetThreadName(t, name);
      case SetThreadStartTime(t, startTime) => p.SetThreadStartTime(t, startTime);
      case SetThreadEndTime(t, endTime) => p.SetThreadEndTime(t, endTime);
      case SetThreadTid(t, tid) => p.SetThreadTid(t, tid);
      case AddSample(t, timestamp, frames, cpuDelta, weight) => p.AddSample(t, timestamp, frames, cpuDelta, weight);
      case AddSampleSameStackZeroCpu(t, timestamp, weight) => p.AddSampleSameStackZeroCpu(t, timestamp, weight);
      case AddMarker(t, timing, marker) => var _ := p.AddMarker(t, timing, marker);
      case SetMarkerStack(t, marker, frames) => p.SetMarkerStack(t, marker, frames);
      case _ =>
    }
  }

  lemma NothingRun(ops: seq<Op>)
    ensures AllowedRun(ops[..0]) && ProfileRuns.Run(ops[..0]) == EmptyProfile
  {
    assert ops[..0] == [];
  }

  lemma NextCall(ops: seq<Op>, k: nat)
    requires AllowedRun(ops) && k < |ops|
    ensures AllowedRun(ops[..k]) && AllowedRun(ops[..k + 1]) && Allowed(ProfileRuns.Run(ops[..k]), ops[k])
    ensures ProfileRuns.Run(ops[..k + 1]) == Step(ProfileRuns.Run(ops[..k]), ops[k])
  {
    hide *;
    assert ops == ops[..k + 1] + ops[k + 1..] && ops[..k + 1] == ops[..k] + [ops[k]];
    AllowedPrefix(ops[..k + 1], ops[k + 1..]);
    RunUnfolds(ops[..k], ops[k]);
  }

  /** Every run of the state machine can be carried out on a new object, which then has the contents the run
      theorems speak of. */
  method PerformAll(ops: seq<Op>) returns (p: Profile)
    requires AllowedRun(ops)
    ensures fresh(p.Footprint()) && p.Valid() && p.View() == ProfileRuns.Run(ops)
  {
    hide *;
    p := new Profile();
    NothingRun(ops);
    for k := 0 to |ops|
      invariant fresh(p.Footprint()) && p.Valid()
      invariant AllowedRun(ops[..k]) && p.View() == ProfileRuns.Run(ops[..k])
    {
      NextCall(ops, k);
      label Before:
      Perform(p, ops[k]);
      forall o: object? | o in p.Footprint()
        ensures o != null && fresh(o)
      {
        if o !in old@Before(p.Footprint()) {
          assert fresh@Before(o);
        }
      }
    }
    assert ops[..|ops|] == ops;
  }
}
