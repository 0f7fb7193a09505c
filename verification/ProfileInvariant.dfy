/** What every reachable profile satisfies. */
module ProfileInvariant {
  import opened CallStacks
  import opened FrameTables
  import opened GlobalLibs
  import opened LibMappings
  import opened MarkerTables
  import opened Prelude
  import opened ProfileModel
  import opened SampleTables
  import opened StackTables
  import opened StringTables
  import opened Threads
  import opened UniqueIds

  /** Some thread has an unsymbolicated row for this address. */
  ghost predicate SomeThreadSees(threads: seq<ThreadState>, lib: nat, a: u32)
    requires forall t :: 0 <= t < |threads| ==> threads[t].tables.frames.SameLengths()
  {
    exists t :: 0 <= t < |threads| && threads[t].tables.Sees(lib, a)
  }

  /** For every used library the recorded addresses are exactly those of the unsymbolicated frame rows
      of all threads. */
  ghost predicate RvasExact(p: ProfileState)
    requires forall t :: 0 <= t < |p.threads| ==> p.threads[t].tables.frames.SameLengths()
  {
    forall lib: nat, a: u32 :: a in SeenAt(p.libs, lib) <==> SomeThreadSees(p.threads, lib, a)
  }

  ghost predicate ThreadsOk(p: ProfileState) {
    forall t :: 0 <= t < |p.threads| ==> p.threads[t].Ok(p.libs, p.strings, p.schemas)
  }

  /** Only the first thread of a process holds allocation samples. */
  ghost predicate AllocationsOnFirstThread(p: ProfileState) {
    forall t :: 0 <= t < |p.threads| && p.threads[t].allocations.Some? ==>
      && p.threads[t].process < |p.processes| && p.processes[p.threads[t].process].threads != []
      && p.processes[p.threads[t].process].threads[0] == t
  }

  /** Every address space is an ordered map. */
  ghost predicate MappingsOrdered(p: ProfileState) {
    KeysAscend(p.kernelLibs) && forall i :: 0 <= i < |p.processes| ==> KeysAscend(p.processes[i].libs)
  }

  ghost predicate Coherent(p: ProfileState) {
    && p.Sound() && p.strings.Coherent()
    && (forall i :: 0 <= i < |p.schemas| ==> p.schemas[i].WellCounted())
    && ThreadsOk(p) && AllocationsOnFirstThread(p) && MappingsOrdered(p)
    && RvasExact(p)
  }

  ghost predicate Fits(p: ProfileState) {
    |p.strings.strings| <= U32_LIMIT && forall t :: 0 <= t < |p.threads| ==> p.threads[t].tables.Fits()
  }

  // ----- replacing one thread -----

  lemma ThreadsOkAfterUpdate(p: ProfileState, p': ProfileState, t: nat)
    requires ThreadsOk(p) && t < |p.threads| && |p'.threads| == |p.threads| && p'.threads == p.threads[t := p'.threads[t]]
    requires p'.libs.Coherent() && GlobalLibs.Grew(p.libs, p'.libs)
    requires p.strings.strings <= p'.strings.strings && p.schemas <= p'.schemas
    requires p'.threads[t].Ok(p'.libs, p'.strings, p'.schemas)
    ensures ThreadsOk(p')
  {
    forall i | 0 <= i < |p'.threads|
      ensures p'.threads[i].Ok(p'.libs, p'.strings, p'.schemas)
    {
      if i != t {
        assert p'.threads[i] == p.threads[i];
        OkUnderGrowth(p.threads[i], p.libs, p.strings, p.schemas, p'.libs, p'.strings, p'.schemas);
      }
    }
  }

  lemma ThreadsOkAfterGrowth(p: ProfileState, p': ProfileState)
    requires ThreadsOk(p) && p'.threads == p.threads
    requires p'.libs.Coherent() && GlobalLibs.Grew(p.libs, p'.libs)
    requires p.strings.strings <= p'.strings.strings && p.schemas <= p'.schemas
    ensures ThreadsOk(p')
  {
    forall i | 0 <= i < |p'.threads|
      ensures p'.threads[i].Ok(p'.libs, p'.strings, p'.schemas)
    {
      OkUnderGrowth(p.threads[i], p.libs, p.strings, p.schemas, p'.libs, p'.strings, p'.schemas);
    }
  }

  /** A change to one thread that leaves its rows alone keeps the profile coherent. */
  lemma UpdateKeepsCoherent(p: ProfileState, t: nat, th: ThreadState)
    requires Coherent(p) && t < |p.threads| && th.Ok(p.libs, p.strings, p.schemas)
    requires th.process == p.threads[t].process
    requires th.tables == p.threads[t].tables.(strings := th.tables.strings)
    requires th.allocations.Some? ==> p.processes[th.process].threads != [] && p.processes[th.process].threads[0] == t
    ensures Coherent(UpdateThread(p, t, th))
  {
    var p' := UpdateThread(p, t, th);
    SoundAfterUpdate(p, p', t);
    ThreadsOkAfterUpdate(p, p', t);
    SameRowsExact(p, p', t);
    hide ThreadsOk, ThreadState.Ok, ProfileState.Sound, RvasExact, KeysAscend;
  }

  lemma SameRowsExact(p: ProfileState, p': ProfileState, t: nat)
    requires forall i :: 0 <= i < |p.threads| ==> p.threads[i].tables.frames.SameLengths()
    requires RvasExact(p) && p'.libs == p.libs
    requires t < |p.threads| == |p'.threads| && p'.threads == p.threads[t := p'.threads[t]]
    requires p'.threads[t].tables == p.threads[t].tables.(strings := p'.threads[t].tables.strings)
    ensures forall i :: 0 <= i < |p'.threads| ==> p'.threads[i].tables.frames.SameLengths()
    ensures RvasExact(p')
  {
    SameRowsSeen(p.threads, p'.threads, t, 0, 0);
    hide SomeThreadSees;
    forall lib: nat, a: u32
      ensures a in SeenAt(p'.libs, lib) <==> SomeThreadSees(p'.threads, lib, a)
    {
      SameRowsSeen(p.threads, p'.threads, t, lib, a);
      assert a in SeenAt(p.libs, lib) <==> SomeThreadSees(p.threads, lib, a);
    }
  }

  lemma SameRowsSeen(threads: seq<ThreadState>, threads': seq<ThreadState>, t: nat, lib: nat, a: u32)
    requires forall i :: 0 <= i < |threads| ==> threads[i].tables.frames.SameLengths()
    requires t < |threads| == |threads'| && threads' == threads[t := threads'[t]]
    requires threads'[t].tables == threads[t].tables.(strings := threads'[t].tables.strings)
    ensures forall i :: 0 <= i < |threads'| ==> threads'[i].tables.frames.SameLengths()
    ensures SomeThreadSees(threads', lib, a) <==> SomeThreadSees(threads, lib, a)
  {
    forall i | 0 <= i < |threads|
      ensures threads'[i].tables.frames.SameLengths()
      ensures threads'[i].tables.Sees(lib, a) <==> threads[i].tables.Sees(lib, a)
    {
      SeesIgnoresStrings(threads[i].tables, threads'[i].tables, lib, a);
    }
  }

  lemma SeesIgnoresStrings(t: Tables, t': Tables, lib: nat, a: u32)
    requires t.frames.SameLengths() && t' == t.(strings := t'.strings)
    ensures t'.Sees(lib, a) <==> t.Sees(lib, a)
  {
    if t.Sees(lib, a) {
      var r :| t.Plain(r, lib, a);
      assert t'.Plain(r, lib, a);
    }
    if t'.Sees(lib, a) {
      var r :| t'.Plain(r, lib, a);
      assert t.Plain(r, lib, a);
    }
  }

  // ----- pushing a call stack -----

  lemma PushStackCoherent(p: ProfileState, t: nat, frames: seq<FrameInfo>)
    requires Coherent(p) && t < |p.threads| && AllIssued(frames, p.libs, p.strings)
    requires PushStack(p, t, frames).0.threads[t].tables.Fits()
    ensures var (p', stack) := PushStack(p, t, frames);
      && Coherent(p') && p'.threads[t].stacks.Holds(stack) && p'.processes == p.processes
      && p' == p.(libs := p'.libs, threads := p.threads[t := p'.threads[t]])
  {
    PushStackThreadsOk(p, t, frames);
    PushStackRvasExact(p, t, frames);
    hide PushStack, ThreadState.Ok, ThreadsOk, ProfileState.Sound, RvasExact, Stacks.Holds, Tables.Fits;
    SameProcessesKeep(p, PushStack(p, t, frames).0, t);
    hide AllocationsOnFirstThread, MappingsOrdered, Schema.WellCounted;
  }

  lemma SameProcessesKeep(p: ProfileState, p': ProfileState, t: nat)
    requires AllocationsOnFirstThread(p) && MappingsOrdered(p)
    requires p'.processes == p.processes && p'.kernelLibs == p.kernelLibs && t < |p.threads| == |p'.threads|
    requires p'.threads == p.threads[t := p'.threads[t]]
    requires p'.threads[t].process == p.threads[t].process && p'.threads[t].allocations == p.threads[t].allocations
    ensures AllocationsOnFirstThread(p') && MappingsOrdered(p')
  {
    hide KeysAscend;
  }

  lemma PushStackRvasExact(p: ProfileState, t: nat, frames: seq<FrameInfo>)
    requires Coherent(p) && t < |p.threads| && AllIssued(frames, p.libs, p.strings)
    requires PushStack(p, t, frames).0.threads[t].tables.Fits()
    ensures var p' := PushStack(p, t, frames).0;
      && (forall i :: 0 <= i < |p'.threads| ==> p'.threads[i].tables.frames.SameLengths())
      && RvasExact(p')
  {
    PushStackThreadsOk(p, t, frames);
    hide PushStack, Coherent, ThreadState.Ok, SomeThreadSees, ThreadsOk, Tables.Fits;
    var p' := PushStack(p, t, frames).0;
    forall lib: nat, a: u32
      ensures a in SeenAt(p'.libs, lib) <==> SomeThreadSees(p'.threads, lib, a)
    {
      PushStackRvas(p, t, frames, lib, a);
    }
  }

  lemma PushStackThreadsOk(p: ProfileState, t: nat, frames: seq<FrameInfo>)
    requires Coherent(p) && t < |p.threads| && AllIssued(frames, p.libs, p.strings)
    requires PushStack(p, t, frames).0.threads[t].tables.Fits()
    ensures var (p', stack) := PushStack(p, t, frames);
      && p'.Sound() && ThreadsOk(p') && p'.threads[t].stacks.Holds(stack)
      && p' == p.(libs := p'.libs, threads := p.threads[t := p'.threads[t]])
      && p'.threads[t].process == p.threads[t].process && p'.threads[t].allocations == p.threads[t].allocations
      && (forall i :: 0 <= i < |p'.threads| ==> p'.threads[i].tables.frames.SameLengths())
  {
    hide PushFrames, Tables.Coherent, Splittable, RvasExact;
    ScopeForValid(p, t);
    var p' := PushStack(p, t, frames).0;
    assert p.threads[t].Ok(p.libs, p.strings, p.schemas);
    OkAfterPush(p.threads[t], p.libs, p.ScopeFor(t), frames, p.schemas);
    SoundAfterUpdate(p, p', t);
    ThreadsOkAfterUpdate(p, p', t);
    forall i | 0 <= i < |p'.threads|
      ensures p'.threads[i].tables.frames.SameLengths()
    {
      assert p'.threads[i].Ok(p'.libs, p'.strings, p'.schemas);
      CoherentSameLengths(p'.threads[i].tables, p'.strings, p'.libs);
    }
  }

  lemma PushStackRvas(p: ProfileState, t: nat, frames: seq<FrameInfo>, lib: nat, a: u32)
    requires Coherent(p) && t < |p.threads| && AllIssued(frames, p.libs, p.strings)
    requires PushStack(p, t, frames).0.threads[t].tables.Fits()
    ensures var p' := PushStack(p, t, frames).0;
      && (forall i :: 0 <= i < |p'.threads| ==> p'.threads[i].tables.frames.SameLengths())
      && (a in SeenAt(p'.libs, lib) <==> SomeThreadSees(p'.threads, lib, a))
  {
    hide PushFrames, Tables.Coherent;
    ScopeForValid(p, t);
    var p' := PushStack(p, t, frames).0;
    var w := p.WorkFor(t);
    assert p.threads[t].Ok(p.libs, p.strings, p.schemas);
    forall i | 0 <= i < |p.threads|
      ensures p.threads[i].tables.frames.SameLengths()
    {
      assert p.threads[i].Ok(p.libs, p.strings, p.schemas);
      CoherentSameLengths(p.threads[i].tables, p.strings, p.libs);
    }
    assert a in SeenAt(p.libs, lib) <==> SomeThreadSees(p.threads, lib, a);
    PushFramesRvas(w, p.ScopeFor(t), frames, lib, a);
    SeenAfterPush(p.threads, p'.threads, t, lib, a, a in SeenAt(p.libs, lib), a in SeenAt(p'.libs, lib));
  }

  lemma CoherentSameLengths(t: Tables, texts: Strings, libs: Libs)
    requires t.Coherent(texts, libs)
    ensures t.frames.SameLengths()
  {
  }

  lemma SeenAfterPush(threads: seq<ThreadState>, threads': seq<ThreadState>, t: nat, lib: nat, a: u32, seen: bool, seen': bool)
    requires forall i :: 0 <= i < |threads| ==> threads[i].tables.frames.SameLengths()
    requires t < |threads| == |threads'| && threads' == threads[t := threads'[t]]
    requires threads'[t].tables.frames.SameLengths()
    requires threads[t].tables.Sees(lib, a) ==> threads'[t].tables.Sees(lib, a)
    requires seen <==> SomeThreadSees(threads, lib, a)
    requires seen' <==> seen || threads'[t].tables.Sees(lib, a)
    ensures forall i :: 0 <= i < |threads'| ==> threads'[i].tables.frames.SameLengths()
    ensures seen' <==> SomeThreadSees(threads', lib, a)
  {
    forall i | 0 <= i < |threads'|
      ensures threads'[i].tables.frames.SameLengths()
    {
    }
    if seen {
      var i :| 0 <= i < |threads| && threads[i].tables.Sees(lib, a);
      assert threads'[i].tables.Sees(lib, a);
    }
    if SomeThreadSees(threads', lib, a) {
      var i :| 0 <= i < |threads'| && threads'[i].tables.Sees(lib, a);
      assert i == t || threads[i].tables.Sees(lib, a);
    }
  }

  // ----- calls that leave the threads' tables alone -----

  /** Libraries, strings and schemas may be added around unchanged threads. */
  lemma GrowthKeepsCoherent(p: ProfileState, p': ProfileState)
    requires Coherent(p)
    requires p' == p.(libs := p'.libs, strings := p'.strings, schemas := p'.schemas, staticTypes := p'.staticTypes)
    requires p'.libs.Coherent() && GlobalLibs.Grew(p.libs, p'.libs) && p'.libs.seenRvas == p.libs.seenRvas
    requires p'.strings.Coherent() && p.strings.strings <= p'.strings.strings && p.schemas <= p'.schemas
    requires forall i :: 0 <= i < |p'.schemas| ==> p'.schemas[i].WellCounted()
    requires forall name :: name in p'.staticTypes ==> p'.staticTypes[name] < |p'.schemas|
    ensures Coherent(p')
  {
    ThreadsOkAfterGrowth(p, p');
    hide Tables.Coherent, Splittable, ThreadState.Ok;
    forall lib: nat, a: u32
      ensures a in SeenAt(p'.libs, lib) <==> SomeThreadSees(p'.threads, lib, a)
    {
      assert a in SeenAt(p.libs, lib) <==> SomeThreadSees(p.threads, lib, a);
    }
  }

  /** A process may be changed as long as its threads stay and its mappings stay disjoint and issued. */
  lemma ProcessUpdateKeepsCoherent(p: ProfileState, i: nat, process: ProcessState)
    requires Coherent(p) && i < |p.processes| && process.threads == p.processes[i].threads
    requires p.MappedHandlesIssued(process.libs) && KeysAscend(process.libs)
    ensures Coherent(UpdateProcess(p, i, process))
  {
    SameThreadsCoherent(p, UpdateProcess(p, i, process));
  }

  /** Coherence of the threads does not depend on the processes. */
  lemma SameThreadsCoherent(p: ProfileState, p': ProfileState)
    requires Coherent(p) && p'.Sound() && AllocationsOnFirstThread(p') && MappingsOrdered(p')
    requires p'.libs == p.libs && p'.threads == p.threads && p'.strings == p.strings && p'.schemas == p.schemas
    ensures Coherent(p')
  {
    hide ThreadState.Ok, ProfileState.Sound, KeysAscend, SomeThreadSees;
  }

  lemma AddProcessCoherent(p: ProfileState, name: string, pid: u32, startTime: u64)
    requires Coherent(p)
    ensures Coherent(Step(p, AddProcess(name, pid, startTime)))
  {
    StepKeepsSound(p, AddProcess(name, pid, startTime));
    hide ThreadsOk, RvasExact, ThreadState.Ok, ProfileState.Sound, ProfileState.Linked, KeysAscend, Tables.Coherent;
    var p' := Step(p, AddProcess(name, pid, startTime));
    assert forall i :: 0 <= i < |p.processes| ==> p'.processes[i] == p.processes[i];
    SameThreadsCoherent(p, p');
  }

  lemma MapOpKeeps(p: ProfileState, ms: seq<Mapping<nat>>, mapOp: MapOp<nat>)
    requires p.MappedHandlesIssued(ms) && KeysAscend(ms) && MapOpAllowed(p, ms, mapOp)
    ensures p.MappedHandlesIssued(Apply(ms, mapOp)) && KeysAscend(Apply(ms, mapOp))
  {
    ApplyKeepsKeys(ms, mapOp);
    MapOpKeepsIssued(p, ms, mapOp);
  }

  lemma AddThreadCoherent(p: ProfileState, process: nat, tid: u32, startTime: u64, isMain: bool)
    requires Coherent(p) && process < |p.processes|
    ensures Coherent(Step(p, AddThread(process, tid, startTime, isMain)))
  {
    var p' := ThreadAdded(p, process, tid, startTime, isMain);
    AddThreadKeepsSound(p, process, tid, startTime, isMain);
    AllocationsAfterAddThread(p, p', process);
    AddThreadThreadsOk(p, process, tid, startTime, isMain);
    AddThreadRvasExact(p, p');
    hide ThreadsOk, ThreadState.Ok, ProfileState.Sound, RvasExact, KeysAscend, NewThread, AllocationsOnFirstThread;
  }

  lemma AddThreadRvasExact(p: ProfileState, p': ProfileState)
    requires forall i :: 0 <= i < |p.threads| ==> p.threads[i].tables.frames.SameLengths()
    requires RvasExact(p) && p'.libs == p.libs && |p'.threads| == |p.threads| + 1 && p.threads <= p'.threads
    requires p'.threads[|p.threads|].tables == NoTables
    ensures forall i :: 0 <= i < |p'.threads| ==> p'.threads[i].tables.frames.SameLengths()
    ensures RvasExact(p')
  {
    var th := p'.threads[|p.threads|];
    assert p'.threads == p.threads + [th];
    NewThreadSeesNothing(p.threads, th, 0, 0);
    hide SomeThreadSees;
    forall lib: nat, a: u32
      ensures a in SeenAt(p'.libs, lib) <==> SomeThreadSees(p'.threads, lib, a)
    {
      NewThreadSeesNothing(p.threads, th, lib, a);
      assert a in SeenAt(p.libs, lib) <==> SomeThreadSees(p.threads, lib, a);
    }
  }

  lemma AddThreadThreadsOk(p: ProfileState, process: nat, tid: u32, startTime: u64, isMain: bool)
    requires Coherent(p) && process < |p.processes|
    ensures ThreadsOk(ThreadAdded(p, process, tid, startTime, isMain))
    ensures forall i :: 0 <= i < |p.threads| ==> p.threads[i].tables.frames.SameLengths()
  {
    var p' := ThreadAdded(p, process, tid, startTime, isMain);
    NewThreadOk(process, p'.threads[|p.threads|].tid, startTime, isMain, p.libs, p.strings, p.schemas);
    hide Tables.Coherent, Splittable, RvasExact, ProfileState.Sound;
    forall i | 0 <= i < |p'.threads|
      ensures p'.threads[i].Ok(p'.libs, p'.strings, p'.schemas) && p'.threads[i].tables.frames.SameLengths()
    {
      if i < |p.threads| {
        assert p'.threads[i] == p.threads[i];
        assert p.threads[i].Ok(p.libs, p.strings, p.schemas);
      }
      CoherentSameLengths(p'.threads[i].tables, p'.strings, p'.libs);
    }
    forall i | 0 <= i < |p.threads|
      ensures p.threads[i].tables.frames.SameLengths()
    {
      assert p'.threads[i] == p.threads[i];
    }
  }

  lemma NewThreadSeesNothing(threads: seq<ThreadState>, th: ThreadState, lib: nat, a: u32)
    requires forall i :: 0 <= i < |threads| ==> threads[i].tables.frames.SameLengths()
    requires th.tables == NoTables
    ensures forall i :: 0 <= i < |threads + [th]| ==> (threads + [th])[i].tables.frames.SameLengths()
    ensures SomeThreadSees(threads + [th], lib, a) <==> SomeThreadSees(threads, lib, a)
  {
    var threads' := threads + [th];
    assert forall i :: 0 <= i < |threads| ==> threads'[i] == threads[i];
    assert !th.tables.Sees(lib, a);
    if SomeThreadSees(threads, lib, a) {
      var i :| 0 <= i < |threads| && threads[i].tables.Sees(lib, a);
      assert threads'[i].tables.Sees(lib, a);
    }
    if SomeThreadSees(threads', lib, a) {
      var i :| 0 <= i < |threads'| && threads'[i].tables.Sees(lib, a);
      assert threads[i].tables.Sees(lib, a);
    }
  }

  lemma AllocationsAfterAddThread(p: ProfileState, p': ProfileState, process: nat)
    requires p.Linked() && process < |p.processes| && |p'.threads| == |p.threads| + 1
    requires forall i :: 0 <= i < |p.threads| ==> p'.threads[i] == p.threads[i]
    requires p'.threads[|p.threads|].allocations == None
    requires p'.processes == p.processes[process := p.processes[process].(threads := p.processes[process].threads + [|p.threads|])]
    requires AllocationsOnFirstThread(p)
    ensures AllocationsOnFirstThread(p')
  {
    forall t | 0 <= t < |p'.threads| && p'.threads[t].allocations.Some?
      ensures p'.processes[p'.threads[t].process].threads != [] && p'.processes[p'.threads[t].process].threads[0] == t
    {
      assert p.threads[t].allocations.Some?;
    }
  }

  // ----- calls that add rows -----

  lemma SampleAddedCoherent(p: ProfileState, t: nat, timestamp: u64, frames: seq<FrameInfo>, cpuDelta: u64, weight: i32)
    requires Coherent(p) && t < |p.threads| && AllIssued(frames, p.libs, p.strings)
    requires SampleAdded(p, t, timestamp, frames, cpuDelta, weight).threads[t].tables.Fits()
    ensures Coherent(SampleAdded(p, t, timestamp, frames, cpuDelta, weight))
  {
    PushStackCoherent(p, t, frames);
    hide PushStack, ThreadState.Ok, ProfileState.Sound, KeysAscend;
    var (p1, stack) := PushStack(p, t, frames);
    assert p1.threads[t].Ok(p1.libs, p1.strings, p1.schemas);
    OkAfterRow(p1.threads[t], p1.libs, p1.strings, p1.schemas, stack);
    UpdateKeepsCoherent(p1, t, AddSampleTo(p1.threads[t], Sample(timestamp, stack, cpuDelta, weight)));
  }

  lemma SameSampleAddedCoherent(p: ProfileState, t: nat, timestamp: u64, weight: i32)
    requires Coherent(p) && t < |p.threads|
    ensures Coherent(SameSampleAdded(p, t, timestamp, weight))
  {
    hide Tables.Coherent, Splittable;
    var th := p.threads[t];
    assert th.Ok(p.libs, p.strings, p.schemas);
    OkAfterSameSample(th, p.libs, p.strings, p.schemas, timestamp, weight);
    UpdateKeepsCoherent(p, t, th.(recorder := th.recorder.AddSameStackZeroCpu(timestamp, weight)));
  }

  lemma AllocationAddedCoherent(p: ProfileState, t: nat, timestamp: u64, frames: seq<FrameInfo>, address: u64, size: i64)
    requires Coherent(p) && t < |p.threads| && AllIssued(frames, p.libs, p.strings)
    requires p.processes[p.threads[t].process].threads != [] && p.AllocationThread(t) < |p.threads|
    requires AllocationAdded(p, t, timestamp, frames, address, size).threads[p.AllocationThread(t)].tables.Fits()
    ensures Coherent(AllocationAdded(p, t, timestamp, frames, address, size))
  {
    var first := p.AllocationThread(t);
    PushStackCoherent(p, first, frames);
    hide PushStack, ThreadState.Ok, ProfileState.Sound, KeysAscend;
    var (p1, stack) := PushStack(p, first, frames);
    assert p1.threads[first].Ok(p1.libs, p1.strings, p1.schemas);
    OkAfterRow(p1.threads[first], p1.libs, p1.strings, p1.schemas, stack);
    assert p.processes[p.threads[t].process].threads[0] == first;
    assert p1.threads[first].process == p.threads[t].process;
    UpdateKeepsCoherent(p1, first, AddAllocationTo(p1.threads[first], timestamp, stack, address, size));
  }

  lemma MarkerAddedCoherent(p: ProfileState, t: nat, timing: Timing, marker: Marker)
    requires Coherent(p) && Allowed(p, AddMarker(t, timing, marker))
    requires MarkerAdded(p, t, timing, marker).0.threads[t].tables.Fits()
    ensures Coherent(MarkerAdded(p, t, timing, marker).0)
  {
    assert p.threads[t].Ok(p.libs, p.strings, p.schemas);
    OkAfterMarker(p.threads[t], p.libs, p.strings, p.schemas, marker.name, marker, timing);
    hide Tables.Coherent, Splittable;
    UpdateKeepsCoherent(p, t, MarkerAdded(p, t, timing, marker).0.threads[t]);
  }

  lemma MarkerStackSetCoherent(p: ProfileState, t: nat, marker: nat, frames: seq<FrameInfo>)
    requires Coherent(p) && t < |p.threads| && marker < |p.threads[t].markers.stacks| && AllIssued(frames, p.libs, p.strings)
    requires MarkerStackSet(p, t, marker, frames).threads[t].tables.Fits()
    ensures Coherent(MarkerStackSet(p, t, marker, frames))
  {
    PushStackCoherent(p, t, frames);
    hide PushStack, ThreadState.Ok, ProfileState.Sound, KeysAscend;
    var (p1, stack) := PushStack(p, t, frames);
    assert p1.threads[t].Ok(p1.libs, p1.strings, p1.schemas);
    OkAfterRow(p1.threads[t], p1.libs, p1.strings, p1.schemas, stack);
    assert p1.threads[t].markers == p.threads[t].markers;
    UpdateKeepsCoherent(p1, t, p1.threads[t].(markers := p1.threads[t].markers.SetStack(marker, stack)));
  }

  // ----- every call, every run -----

  lemma LibraryCallCoherent(p: ProfileState, op: Op)
    requires Coherent(p) && Allowed(p, op) && (op.AddLib? || op.SetLibSymbolTable?)
    ensures Coherent(Step(p, op))
  {
    match op {
      case AddLib(library) => HandleForCoherent(p.libs, library);
      case SetLibSymbolTable(library, table) => SetSymbolTableCoherent(p.libs, library, table);
      case _ =>
    }
    GrowthKeepsCoherent(p, Step(p, op));
  }

  lemma SchemaCallCoherent(p: ProfileState, op: Op)
    requires Coherent(p) && Allowed(p, op) && (op.RegisterMarkerType? || op.StaticSchemaMarkerType?)
    ensures Coherent(Step(p, op))
  {
    RegisteredIsWellCounted(op.typeName, op.fields);
    StepKeepsSound(p, op);
    hide ThreadsOk, ThreadState.Ok, ThreadState.Sound, ProfileState.Linked, RvasExact, KeysAscend;
    GrowthKeepsCoherent(p, Step(p, op));
  }

  lemma MappingCallCoherent(p: ProfileState, op: Op)
    requires Coherent(p) && Allowed(p, op) && (op.ChangeLibMappings? || op.ChangeKernelLibMappings?)
    ensures Coherent(Step(p, op))
  {
    match op {
      case ChangeLibMappings(i, mapOp) =>
        MapOpKeeps(p, p.processes[i].libs, mapOp);
        ProcessUpdateKeepsCoherent(p, i, p.processes[i].(libs := Apply(p.processes[i].libs, mapOp)));
      case ChangeKernelLibMappings(mapOp) =>
        MapOpKeeps(p, p.kernelLibs, mapOp);
        SameThreadsCoherent(p, Step(p, op));
      case _ =>
    }
  }

  /** Replacing the name, id or times of a thread. */
  lemma ThreadFieldKeepsCoherent(p: ProfileState, t: nat, tid: string, name: Option<string>, startTime: u64, endTime: Option<u64>)
    requires Coherent(p) && t < |p.threads|
    ensures Coherent(UpdateThread(p, t, p.threads[t].(tid := tid, name := name, startTime := startTime, endTime := endTime)))
  {
    hide Tables.Coherent, Splittable;
    assert p.threads[t].Ok(p.libs, p.strings, p.schemas);
    UpdateKeepsCoherent(p, t, p.threads[t].(tid := tid, name := name, startTime := startTime, endTime := endTime));
  }

  lemma ThreadFieldCallCoherent(p: ProfileState, op: Op)
    requires Coherent(p) && Allowed(p, op)
    requires op.SetThreadName? || op.SetThreadStartTime? || op.SetThreadEndTime? || op.SetThreadTid?
    ensures Coherent(Step(p, op))
  {
    hide Coherent, ProfileState.Sound;
    match op {
      case SetThreadName(t, name) =>
        var th := p.threads[t];
        ThreadFieldKeepsCoherent(p, t, th.tid, Some(name), th.startTime, th.endTime);
      case SetThreadStartTime(t, startTime) =>
        var th := p.threads[t];
        ThreadFieldKeepsCoherent(p, t, th.tid, th.name, startTime, th.endTime);
      case SetThreadEndTime(t, endTime) =>
        var th := p.threads[t];
        ThreadFieldKeepsCoherent(p, t, th.tid, th.name, th.startTime, Some(endTime));
      case SetThreadTid(t, tid) => SetThreadTidCoherent(p, t, tid);
      case _ =>
    }
  }

  lemma UsedTidsDoNotMatter(p: ProfileState, used: map<u32, nat>)
    requires Coherent(p)
    ensures Coherent(p.(usedTids := used))
  {
    var p' := p.(usedTids := used);
    assert p'.Linked() && p'.MappedHandlesIssued(p'.kernelLibs);
    SameThreadsCoherent(p, p');
  }

  lemma SetThreadTidCoherent(p: ProfileState, t: nat, tid: u32)
    requires Coherent(p) && t < |p.threads|
    ensures Coherent(Step(p, SetThreadTid(t, tid)))
  {
    var (used, text) := MakeUnique(p.usedTids, tid);
    UsedTidsDoNotMatter(p, used);
    var th := p.threads[t];
    ThreadFieldKeepsCoherent(p.(usedTids := used), t, text, th.name, th.startTime, th.endTime);
    StepSetsTid(p, t, tid);
  }

  lemma StepSetsTid(p: ProfileState, t: nat, tid: u32)
    requires p.Sound() && t < |p.threads|
    ensures var (used, text) := MakeUnique(p.usedTids, tid);
      Step(p, SetThreadTid(t, tid)) == UpdateThread(p.(usedTids := used), t, p.threads[t].(tid := text))
  {
  }

  lemma ProcessCallCoherent(p: ProfileState, op: Op)
    requires Coherent(p) && Allowed(p, op)
    requires op.AddProcess? || op.SetProcessStartTime? || op.SetProcessEndTime? || op.SetProcessName?
    ensures Coherent(Step(p, op))
  {
    match op {
      case AddProcess(name, pid, startTime) => AddProcessCoherent(p, name, pid, startTime);
      case SetProcessStartTime(i, startTime) => ProcessUpdateKeepsCoherent(p, i, p.processes[i].(startTime := startTime));
      case SetProcessEndTime(i, endTime) => ProcessUpdateKeepsCoherent(p, i, p.processes[i].(endTime := Some(endTime)));
      case SetProcessName(i, name) => ProcessUpdateKeepsCoherent(p, i, p.processes[i].(name := name));
      case _ =>
    }
  }

  lemma SampleCallCoherent(p: ProfileState, op: Op)
    requires Coherent(p) && Allowed(p, op) && Fits(Step(p, op)) && (op.AddSample? || op.AddSampleSameStackZeroCpu?)
    ensures Coherent(Step(p, op))
  {
    hide PushStack, ThreadState.Ok, RvasExact;
    match op {
      case AddSample(t, timestamp, frames, cpuDelta, weight) => SampleAddedCoherent(p, t, timestamp, frames, cpuDelta, weight);
      case AddSampleSameStackZeroCpu(t, timestamp, weight) => SameSampleAddedCoherent(p, t, timestamp, weight);
      case _ =>
    }
  }

  lemma AllocationCallCoherent(p: ProfileState, op: Op)
    requires Coherent(p) && Allowed(p, op) && Fits(Step(p, op)) && op.AddAllocationSample?
    ensures Coherent(Step(p, op))
  {
    hide PushStack, ThreadState.Ok, RvasExact;
    ScopeForValid(p, op.thread);
    AllocationAddedCoherent(p, op.thread, op.timestamp, op.frames, op.address, op.size);
  }

  lemma MarkerCallCoherent(p: ProfileState, op: Op)
    requires Coherent(p) && Allowed(p, op) && Fits(Step(p, op)) && op.AddMarker?
    ensures Coherent(Step(p, op))
  {
    hide PushStack, ThreadState.Ok, RvasExact;
    MarkerAddedCoherent(p, op.thread, op.timing, op.marker);
  }

  lemma MarkerStackCallCoherent(p: ProfileState, op: Op)
    requires Coherent(p) && Allowed(p, op) && Fits(Step(p, op)) && op.SetMarkerStack?
    ensures Coherent(Step(p, op))
  {
    hide PushStack, ThreadState.Ok, RvasExact;
    MarkerStackSetCoherent(p, op.thread, op.markerIndex, op.frames);
  }

  /** Every public call keeps the profile coherent, as long as the 32-bit indexes still fit afterwards. */
  lemma StepKeepsCoherent(p: ProfileState, op: Op)
    requires Coherent(p) && Allowed(p, op) && Fits(Step(p, op))
    ensures Coherent(Step(p, op))
  {
    hide Step, Fits, ProfileState.Sound;
    match op {
      case AddLib(_) => LibraryCallCoherent(p, op);
      case SetLibSymbolTable(_, _) => LibraryCallCoherent(p, op);
      case RegisterMarkerType(_, _) => SchemaCallCoherent(p, op);
      case StaticSchemaMarkerType(_, _) => SchemaCallCoherent(p, op);
      case ChangeLibMappings(_, _) => MappingCallCoherent(p, op);
      case ChangeKernelLibMappings(_) => MappingCallCoherent(p, op);
      case AddProcess(_, _, _) => ProcessCallCoherent(p, op);
      case SetProcessStartTime(_, _) => ProcessCallCoherent(p, op);
      case SetProcessEndTime(_, _) => ProcessCallCoherent(p, op);
      case SetProcessName(_, _) => ProcessCallCoherent(p, op);
      case AddThread(_, _, _, _) => AddThreadCallCoherent(p, op);
      case SetThreadName(_, _) => ThreadFieldCallCoherent(p, op);
      case SetThreadStartTime(_, _) => ThreadFieldCallCoherent(p, op);
      case SetThreadEndTime(_, _) => ThreadFieldCallCoherent(p, op);
      case SetThreadTid(_, _) => ThreadFieldCallCoherent(p, op);
      case InternString(_) => InternStringCoherent(p, op);
      case AddSample(_, _, _, _, _) => SampleCallCoherent(p, op);
      case AddSampleSameStackZeroCpu(_, _, _) => SampleCallCoherent(p, op);
      case AddAllocationSample(_, _, _, _, _) => AllocationCallCoherent(p, op);
      case AddMarker(_, _, _) => MarkerCallCoherent(p, op);
      case SetMarkerStack(_, _, _) => MarkerStackCallCoherent(p, op);
    }
  }

  lemma AddThreadCallCoherent(p: ProfileState, op: Op)
    requires Coherent(p) && Allowed(p, op) && op.AddThread?
    ensures Coherent(Step(p, op))
  {
    AddThreadCoherent(p, op.process, op.tid, op.startTime, op.isMain);
  }

  lemma InternStringCoherent(p: ProfileState, op: Op)
    requires Coherent(p) && op.InternString? && Fits(Step(p, op))
    ensures Coherent(Step(p, op))
  {
    InternCoherent(p.strings, op.s);
    GrowthKeepsCoherent(p, Step(p, op));
  }
}
