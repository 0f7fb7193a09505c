/** The mutable profile: its processes, its threads and the tables they share
    (fxprof-processed-profile/src/profile.rs, process.rs). */
module Profiles {
  import opened CallStacks
  import opened FrameTables
  import opened GlobalLibs
  import opened LibMappings
  import Mappings = LibMappings
  import opened Libraries
  import opened MarkerTables
  import opened Prelude
  import opened ProfileModel
  import opened SampleTables
  import opened StringTables
  import opened ThreadOrder
  import opened Threads
  import opened UniqueIds

  class Process {
    /** Position in the profile's list of processes. */
    ghost const id: nat
    const pid: string
    var name: string
    var threads: seq<nat>
    var startTime: u64
    var endTime: Option<u64>
    const libs: LibMappings<nat>

    constructor (ghost id: nat, name: string, pid: string, startTime: u64)
      ensures this.id == id && libs.owner == id && fresh(libs)
      ensures View() == ProcessState(pid, name, [], startTime, None, [])
    {
      this.id := id;
      this.name, this.pid, this.startTime := name, pid, startTime;
      threads, endTime := [], None;
      libs := new LibMappings(id);
    }

    function View(): ProcessState
      reads this, libs
    {
      ProcessState(pid, name, threads, startTime, endTime, libs.entries)
    }

    /** Kernel mappings first, then the process's own; the library found becomes a used one. */
    method ConvertAddress(globalLibs: GlobalLibTable, kernelLibs: LibMappings<nat>, address: u64)
      returns (location: Location)
      modifies globalLibs
      ensures forall t: Tables, texts: Strings ::
        (t, globalLibs.View(), location)
        == ResolveAddress(t, old(globalLibs.View()), Scope(kernelLibs.entries, libs.entries, texts), address)
    {
      var hit := Mappings.ConvertAddress(kernelLibs.entries, address);
      if hit.None? {
        hit := Mappings.ConvertAddress(libs.entries, address);
      }
      if hit.Some? {
        var index := globalLibs.IndexForUsedLib(hit.value.1);
        location := AddressInLib(hit.value.0, index);
      } else {
        location := UnknownAddress(address);
      }
    }
  }

  class Profile {
    const globalLibs: GlobalLibTable
    const kernelLibs: LibMappings<nat>
    var processes: seq<Process>
    var threads: seq<Thread>
    const stringTable: GlobalStringTable
    var markerSchemas: seq<Schema>
    var staticSchemaMarkerTypes: map<string, nat>
    var usedPids: map<u32, nat>
    var usedTids: map<u32, nat>

    constructor ()
      ensures Valid() && View() == EmptyProfile
      ensures fresh(Footprint())
    {
      globalLibs := new GlobalLibTable();
      kernelLibs := new LibMappings(-1);
      stringTable := new GlobalStringTable();
      processes, threads, markerSchemas, staticSchemaMarkerTypes := [], [], [], map[];
      usedPids, usedTids := map[], map[];
      new;
      EmptyParts();
      hide Footprint, Valid, Separate, View;
    }

    lemma EmptyParts()
      requires processes == [] && threads == [] && markerSchemas == [] && staticSchemaMarkerTypes == map[]
      requires usedPids == map[] && usedTids == map[] && stringTable.table.owner == -1 && kernelLibs.owner == -1
      requires globalLibs.View() == NoLibs && kernelLibs.entries == [] && stringTable.View() == NoStrings
      ensures Footprint() == {this, globalLibs, kernelLibs, stringTable.table}
      ensures Valid() && View() == EmptyProfile
    {
    }

    /** No two threads, no two processes and nothing else share a part. */
    ghost predicate Separate()
      reads this
    {
      && stringTable.table.owner == -1 && kernelLibs.owner == -1
      && (forall i :: 0 <= i < |processes| ==> processes[i].id == i && processes[i].libs.owner == i)
      && (forall i :: 0 <= i < |threads| ==> threads[i].id == i && threads[i].Owned())
    }

    ghost function Footprint(): set<object>
      reads this
    {
      {this, globalLibs, kernelLibs, stringTable.table}
      + (set p | p in processes :: p as object) + (set p | p in processes :: p.libs as object)
      + (set t, o | t in threads && o in t.Parts() :: o)
    }

    function ProcessViews(): seq<ProcessState>
      reads this, Footprint()
    {
      seq(|processes|, i requires 0 <= i < |processes| reads this, Footprint() =>
        assert processes[i] in processes;
        processes[i].View())
    }

    function ThreadViews(): seq<ThreadState>
      reads this, Footprint()
    {
      seq(|threads|, i requires 0 <= i < |threads| reads this, Footprint() => threads[i].View())
    }

    function View(): ProfileState
      reads this, Footprint()
    {
      ProfileState(globalLibs.View(), kernelLibs.entries, ProcessViews(), ThreadViews(),
                   stringTable.View(), markerSchemas, staticSchemaMarkerTypes, usedPids, usedTids)
    }

    ghost predicate Valid()
      reads this, Footprint()
    {
      Separate() && View().Sound()
    }

    // ----- which parts of the view a change can touch -----

    lemma PartsSeparate(t: nat)
      requires Separate() && t < |threads|
      ensures threads[t] in threads[t].Parts() && threads[t].samples in threads[t].Parts() && threads[t].markers in threads[t].Parts()
      ensures threads[t].stringTable in threads[t].Parts() && threads[t].stringTable.table in threads[t].Parts()
      ensures forall i, o :: 0 <= i < |threads| && i != t && o in threads[i].Parts() ==> o !in threads[t].Parts() && o != globalLibs
      ensures this !in threads[t].Parts() && kernelLibs !in threads[t].Parts() && stringTable.table !in threads[t].Parts()
      ensures forall i :: 0 <= i < |processes| ==> processes[i] !in threads[t].Parts() && processes[i].libs !in threads[t].Parts()
    {
      forall i | 0 <= i < |threads| && i != t
        ensures threads[i].Parts() !! threads[t].Parts()
      {
        PartsDisjoint(threads[i], threads[t]);
      }
    }

    /** Only thread `t` and the libraries changed. */
    twostate lemma ThreadChanged(t: nat)
      requires old(Separate()) && unchanged(this, stringTable.table, kernelLibs) && t < |threads|
      requires forall i :: 0 <= i < |processes| ==> unchanged(processes[i], processes[i].libs)
      requires forall i :: 0 <= i < |threads| && i != t ==> threads[i].View() == old(threads[i].View())
      ensures Separate()
      ensures View() == old(View()).(libs := globalLibs.View(), threads := old(View()).threads[t := threads[t].View()])
      ensures Footprint() == old(Footprint())
    {
      assert ProcessViews() == old(ProcessViews());
      assert ThreadViews() == old(ThreadViews())[t := threads[t].View()];
    }

    /** Only process `i` changed. */
    twostate lemma ProcessChanged(i: nat)
      requires old(Separate()) && unchanged(this, globalLibs, stringTable.table, kernelLibs) && i < |processes|
      requires processes[i].libs.owner == old(processes[i].libs.owner)
      requires forall k :: 0 <= k < |processes| && k != i ==> processes[k].View() == old(processes[k].View())
      requires forall t :: 0 <= t < |threads| ==> threads[t].View() == old(threads[t].View())
      ensures Separate()
      ensures View() == UpdateProcess(old(View()), i, processes[i].View())
      ensures Footprint() == old(Footprint())
    {
      assert ProcessViews() == old(ProcessViews())[i := processes[i].View()];
      assert ThreadViews() == old(ThreadViews());
    }

    lemma ProcessPartsSeparate(i: nat)
      requires Separate() && i < |processes|
      ensures forall k :: 0 <= k < |processes| && k != i ==> processes[k] != processes[i] && processes[k].libs != processes[i].libs
      ensures processes[i].libs != kernelLibs
      ensures forall t :: 0 <= t < |threads| ==> processes[i] !in threads[t].Parts() && processes[i].libs !in threads[t].Parts()
    {
    }

    /** No process and no thread changed. */
    twostate lemma ListsKept()
      requires processes == old(processes) && threads == old(threads)
      requires forall k :: 0 <= k < |processes| ==> processes[k].View() == old(processes[k].View())
      requires forall t :: 0 <= t < |threads| ==> threads[t].View() == old(threads[t].View())
      ensures ProcessViews() == old(ProcessViews()) && ThreadViews() == old(ThreadViews())
    {
    }

    twostate lemma FootprintKept()
      requires processes == old(processes) && threads == old(threads)
      ensures Footprint() == old(Footprint())
    {
    }

    /** What being valid gives. */
    lemma Unfold()
      requires Valid()
      ensures Separate() && View().Sound() && |View().threads| == |threads| && |View().processes| == |processes|
      ensures View().usedTids == usedTids && View().usedPids == usedPids
      ensures forall t :: 0 <= t < |threads| ==> View().threads[t] == threads[t].View()
      ensures forall t :: 0 <= t < |threads| ==>
        threads[t].View().recorder.Coherent() && threads[t].View().markers.SameLengths()
    {
    }

    method AddLib(library: LibraryInfo) returns (handle: nat)
      requires Valid() && Allowed(View(), Op.AddLib(library))
      modifies globalLibs
      ensures Valid() && View() == Step(old(View()), Op.AddLib(library))
      ensures handle == old(View()).libs.HandleFor(library).1
      ensures Footprint() == old(Footprint())
    {
      hide ProfileState.Sound, ProfileState.Linked, ThreadState.Sound;
      StepKeepsSound(View(), Op.AddLib(library));
      handle := globalLibs.HandleForLib(library);
      ListsKept();
      FootprintKept();
    }

    method SetLibSymbolTable(library: nat, table: SymbolTable)
      requires Valid() && Allowed(View(), Op.SetLibSymbolTable(library, table))
      modifies globalLibs
      ensures Valid() && View() == Step(old(View()), Op.SetLibSymbolTable(library, table))
      ensures Footprint() == old(Footprint())
    {
      hide ProfileState.Sound, ProfileState.Linked, ThreadState.Sound;
      StepKeepsSound(View(), Op.SetLibSymbolTable(library, table));
      globalLibs.SetLibSymbolTable(library, table);
      ListsKept();
      FootprintKept();
    }

    method InternString(s: string) returns (handle: u32)
      requires Valid() && Allowed(View(), Op.InternString(s))
      modifies stringTable.table
      ensures Valid() && View() == Step(old(View()), Op.InternString(s))
      ensures handle == old(View()).strings.Intern(s).1
      ensures Footprint() == old(Footprint())
    {
      hide ProfileState.Sound, ProfileState.Linked, ThreadState.Sound, Footprint;
      StepKeepsSound(View(), Op.InternString(s));
      handle := stringTable.IndexForString(s);
      ListsKept();
      FootprintKept();
    }

    method AddKernelLibMapping(library: nat, start: u64, end: u64, relativeStart: u32)
      requires Valid() && Allowed(View(), Op.ChangeKernelLibMappings(MapOp.AddMapping(Mapping(start, end, relativeStart, library))))
      modifies kernelLibs
      ensures Valid() && View() == Step(old(View()), Op.ChangeKernelLibMappings(MapOp.AddMapping(Mapping(start, end, relativeStart, library))))
      ensures Footprint() == old(Footprint())
    {
      hide ProfileState.Sound, ProfileState.Linked, ThreadState.Sound;
      StepKeepsSound(View(), Op.ChangeKernelLibMappings(MapOp.AddMapping(Mapping(start, end, relativeStart, library))));
      kernelLibs.AddMapping(start, end, relativeStart, library);
      ListsKept();
      FootprintKept();
    }

    method RemoveKernelLibMapping(start: u64)
      requires Valid() && Allowed(View(), Op.ChangeKernelLibMappings(MapOp.RemoveMapping(start)))
      modifies kernelLibs
      ensures Valid() && View() == Step(old(View()), Op.ChangeKernelLibMappings(MapOp.RemoveMapping(start)))
      ensures Footprint() == old(Footprint())
    {
      hide ProfileState.Sound, ProfileState.Linked, ThreadState.Sound;
      StepKeepsSound(View(), Op.ChangeKernelLibMappings(MapOp.RemoveMapping(start)));
      var _ := kernelLibs.RemoveMapping(start);
      ListsKept();
      FootprintKept();
    }

    method RegisterMarkerType(typeName: string, fields: seq<Field>) returns (handle: nat)
      requires Valid() && Allowed(View(), Op.RegisterMarkerType(typeName, fields))
      modifies this`markerSchemas
      ensures Valid() && View() == Step(old(View()), Op.RegisterMarkerType(typeName, fields))
      ensures handle == old(|markerSchemas|)
      ensures Footprint() == old(Footprint())
    {
      hide ProfileState.Sound, ProfileState.Linked, ThreadState.Sound, Footprint;
      StepKeepsSound(View(), Op.RegisterMarkerType(typeName, fields));
      handle := |markerSchemas|;
      markerSchemas := markerSchemas + [Register(typeName, fields)];
      ListsKept();
      FootprintKept();
    }

    method StaticSchemaMarkerType(typeName: string, fields: seq<Field>) returns (handle: nat)
      requires Valid() && Allowed(View(), Op.StaticSchemaMarkerType(typeName, fields))
      modifies this`markerSchemas, this`staticSchemaMarkerTypes
      ensures Valid() && View() == Step(old(View()), Op.StaticSchemaMarkerType(typeName, fields))
      ensures typeName in staticSchemaMarkerTypes && handle == staticSchemaMarkerTypes[typeName]
      ensures Footprint() == old(Footprint())
    {
      hide ProfileState.Sound, ProfileState.Linked, ThreadState.Sound, ThreadViews, ProcessViews, Register, Footprint;
      StepKeepsSound(View(), Op.StaticSchemaMarkerType(typeName, fields));
      if typeName in staticSchemaMarkerTypes {
        handle := staticSchemaMarkerTypes[typeName];
      } else {
        handle := |markerSchemas|;
        markerSchemas := markerSchemas + [Register(typeName, fields)];
        staticSchemaMarkerTypes := staticSchemaMarkerTypes[typeName := handle];
      }
      ListsKept();
      FootprintKept();
    }

    method SetProcessStartTime(process: nat, startTime: u64)
      requires Valid() && Allowed(View(), Op.SetProcessStartTime(process, startTime))
      modifies processes[process]
      ensures Valid() && View() == Step(old(View()), Op.SetProcessStartTime(process, startTime))
      ensures Footprint() == old(Footprint())
    {
      hide ProfileState.Sound, ProfileState.Linked, ThreadState.Sound;
      StepKeepsSound(View(), Op.SetProcessStartTime(process, startTime));
      ProcessPartsSeparate(process);
      processes[process].startTime := startTime;
      ProcessChanged(process);
    }

    method SetProcessEndTime(process: nat, endTime: u64)
      requires Valid() && Allowed(View(), Op.SetProcessEndTime(process, endTime))
      modifies processes[process]
      ensures Valid() && View() == Step(old(View()), Op.SetProcessEndTime(process, endTime))
      ensures Footprint() == old(Footprint())
    {
      hide ProfileState.Sound, ProfileState.Linked, ThreadState.Sound;
      StepKeepsSound(View(), Op.SetProcessEndTime(process, endTime));
      ProcessPartsSeparate(process);
      processes[process].endTime := Some(endTime);
      ProcessChanged(process);
    }

    method SetProcessName(process: nat, name: string)
      requires Valid() && Allowed(View(), Op.SetProcessName(process, name))
      modifies processes[process]
      ensures Valid() && View() == Step(old(View()), Op.SetProcessName(process, name))
      ensures Footprint() == old(Footprint())
    {
      hide ProfileState.Sound, ProfileState.Linked, ThreadState.Sound;
      StepKeepsSound(View(), Op.SetProcessName(process, name));
      ProcessPartsSeparate(process);
      processes[process].name := name;
      ProcessChanged(process);
    }

    method AddLibMapping(process: nat, library: nat, start: u64, end: u64, relativeStart: u32)
      requires Valid() && Allowed(View(), Op.ChangeLibMappings(process, MapOp.AddMapping(Mapping(start, end, relativeStart, library))))
      modifies processes[process].libs
      ensures Valid() && View() == Step(old(View()), Op.ChangeLibMappings(process, MapOp.AddMapping(Mapping(start, end, relativeStart, library))))
      ensures Footprint() == old(Footprint())
    {
      hide ProfileState.Sound, ProfileState.Linked, ThreadState.Sound;
      StepKeepsSound(View(), Op.ChangeLibMappings(process, MapOp.AddMapping(Mapping(start, end, relativeStart, library))));
      ProcessPartsSeparate(process);
      processes[process].libs.AddMapping(start, end, relativeStart, library);
      ProcessChanged(process);
    }

    method RemoveLibMapping(process: nat, start: u64)
      requires Valid() && Allowed(View(), Op.ChangeLibMappings(process, MapOp.RemoveMapping(start)))
      modifies processes[process].libs
      ensures Valid() && View() == Step(old(View()), Op.ChangeLibMappings(process, MapOp.RemoveMapping(start)))
      ensures Footprint() == old(Footprint())
    {
      hide ProfileState.Sound, ProfileState.Linked, ThreadState.Sound;
      StepKeepsSound(View(), Op.ChangeLibMappings(process, MapOp.RemoveMapping(start)));
      ProcessPartsSeparate(process);
      var _ := processes[process].libs.RemoveMapping(start);
      ProcessChanged(process);
    }

    method ClearProcessLibMappings(process: nat)
      requires Valid() && Allowed(View(), Op.ChangeLibMappings(process, MapOp.Clear))
      modifies processes[process].libs
      ensures Valid() && View() == Step(old(View()), Op.ChangeLibMappings(process, MapOp.Clear))
      ensures Footprint() == old(Footprint())
    {
      hide ProfileState.Sound, ProfileState.Linked, ThreadState.Sound;
      StepKeepsSound(View(), Op.ChangeLibMappings(process, MapOp.Clear));
      ProcessPartsSeparate(process);
      processes[process].libs.Clear();
      ProcessChanged(process);
    }

    method SetThreadName(thread: nat, name: string)
      requires Valid() && Allowed(View(), Op.SetThreadName(thread, name))
      modifies threads[thread]
      ensures Valid() && View() == Step(old(View()), Op.SetThreadName(thread, name))
      ensures Footprint() == old(Footprint())
    {
      hide ProfileState.Sound, ProfileState.Linked, ThreadState.Sound;
      StepKeepsSound(View(), Op.SetThreadName(thread, name));
      PartsSeparate(thread);
      threads[thread].SetName(name);
      ThreadChanged(thread);
    }

    method SetThreadStartTime(thread: nat, startTime: u64)
      requires Valid() && Allowed(View(), Op.SetThreadStartTime(thread, startTime))
      modifies threads[thread]
      ensures Valid() && View() == Step(old(View()), Op.SetThreadStartTime(thread, startTime))
      ensures Footprint() == old(Footprint())
    {
      hide ProfileState.Sound, ProfileState.Linked, ThreadState.Sound;
      StepKeepsSound(View(), Op.SetThreadStartTime(thread, startTime));
      PartsSeparate(thread);
      threads[thread].SetStartTime(startTime);
      ThreadChanged(thread);
    }

    method SetThreadEndTime(thread: nat, endTime: u64)
      requires Valid() && Allowed(View(), Op.SetThreadEndTime(thread, endTime))
      modifies threads[thread]
      ensures Valid() && View() == Step(old(View()), Op.SetThreadEndTime(thread, endTime))
      ensures Footprint() == old(Footprint())
    {
      hide ProfileState.Sound, ProfileState.Linked, ThreadState.Sound;
      StepKeepsSound(View(), Op.SetThreadEndTime(thread, endTime));
      PartsSeparate(thread);
      threads[thread].SetEndTime(endTime);
      ThreadChanged(thread);
    }

    method SetThreadTid(thread: nat, tid: u32)
      requires Valid() && Allowed(View(), Op.SetThreadTid(thread, tid))
      modifies this`usedTids, threads[thread]
      ensures Valid() && View() == Step(old(View()), Op.SetThreadTid(thread, tid))
      ensures Footprint() == old(Footprint())
    {
      hide ProfileState.Sound, ProfileState.Linked, ThreadState.Sound, View, Separate, Thread.Parts, Footprint;
      StepKeepsSound(View(), Op.SetThreadTid(thread, tid));
      Unfold();
      var text := MakeUniqueTid(tid);
      RecordTid(thread, text);
    }

    method MakeUniqueTid(tid: u32) returns (text: string)
      requires Separate()
      modifies this`usedTids
      ensures Separate() && View() == old(View()).(usedTids := MakeUnique(old(usedTids), tid).0)
      ensures text == MakeUnique(old(usedTids), tid).1
      ensures Footprint() == old(Footprint())
    {
      var (used, unique) := MakeUnique(usedTids, tid);
      usedTids, text := used, unique;
      ListsKept();
      FootprintKept();
    }

    method MakeUniquePid(pid: u32) returns (text: string)
      requires Separate()
      modifies this`usedPids
      ensures Separate() && View() == old(View()).(usedPids := MakeUnique(old(usedPids), pid).0)
      ensures text == MakeUnique(old(usedPids), pid).1
      ensures Footprint() == old(Footprint())
    {
      var (used, unique) := MakeUnique(usedPids, pid);
      usedPids, text := used, unique;
      ListsKept();
      FootprintKept();
    }

    method RecordTid(thread: nat, text: string)
      requires Separate() && thread < |threads|
      modifies threads[thread]
      ensures Separate()
      ensures View() == UpdateThread(old(View()), thread, old(View()).threads[thread].(tid := text))
      ensures Footprint() == old(Footprint())
    {
      PartsSeparate(thread);
      threads[thread].SetTid(text);
      ThreadChanged(thread);
    }

    method AddSample(thread: nat, timestamp: u64, frames: seq<FrameInfo>, cpuDelta: u64, weight: i32)
      requires Valid() && Allowed(View(), Op.AddSample(thread, timestamp, frames, cpuDelta, weight))
      modifies threads[thread].Parts(), globalLibs
      ensures Valid() && View() == Step(old(View()), Op.AddSample(thread, timestamp, frames, cpuDelta, weight))
      ensures Footprint() == old(Footprint())
    {
      ghost var p := View();
      PartsSeparate(thread);
      StepKeepsSound(p, Op.AddSample(thread, timestamp, frames, cpuDelta, weight));
      hide PushStack, ProfileState.Sound, ProfileState.Linked, ThreadState.Sound, View, Separate, Thread.Parts, Footprint;
      var stack := StackIndexForFrames(thread, frames);
      Unfold();
      RecordSample(thread, timestamp, stack, cpuDelta, weight);
    }

    method RecordSample(thread: nat, timestamp: u64, stack: Option<nat>, cpuDelta: u64, weight: i32)
      requires Separate() && thread < |threads|
      modifies threads[thread], threads[thread].samples
      ensures Separate()
      ensures View() == UpdateThread(old(View()), thread,
                AddSampleTo(old(View()).threads[thread], Sample(timestamp, stack, cpuDelta, weight)))
      ensures Footprint() == old(Footprint())
    {
      PartsSeparate(thread);
      threads[thread].AddSample(timestamp, stack, cpuDelta, weight);
      ThreadChanged(thread);
    }

    method AddProcess(name: string, pid: u32, startTime: u64) returns (handle: nat)
      requires Valid()
      modifies this`usedPids, this`processes
      ensures Valid() && View() == Step(old(View()), Op.AddProcess(name, pid, startTime))
      ensures handle == old(|processes|)
      ensures fresh(Footprint() - old(Footprint()))
    {
      hide ProfileState.Sound, ProfileState.Linked, ThreadState.Sound, View, Separate, Footprint;
      StepKeepsSound(View(), Op.AddProcess(name, pid, startTime));
      Unfold();
      var text := MakeUniquePid(pid);
      label Named:
      handle := AppendProcess(name, text, startTime);
      forall o: object? | o in Footprint() && o !in old(Footprint())
        ensures o != null && fresh(o)
      {
        assert fresh@Named(o);
      }
    }

    method AppendProcess(name: string, pid: string, startTime: u64) returns (handle: nat)
      requires Separate()
      modifies this`processes
      ensures Separate()
      ensures View() == old(View()).(processes := old(View()).processes + [ProcessState(pid, name, [], startTime, None, [])])
      ensures handle == old(|processes|)
      ensures fresh(Footprint() - old(Footprint()))
    {
      handle := |processes|;
      var process := new Process(handle, name, pid, startTime);
      processes := processes + [process];
      assert ProcessViews() == old(ProcessViews()) + [process.View()];
      assert ThreadViews() == old(ThreadViews());
    }

    method AddThread(process: nat, tid: u32, startTime: u64, isMain: bool) returns (handle: nat)
      requires Valid() && process < |processes|
      modifies this`usedTids, this`threads, processes[process]
      ensures Valid() && View() == Step(old(View()), Op.AddThread(process, tid, startTime, isMain))
      ensures handle == old(|threads|)
      ensures fresh(Footprint() - old(Footprint()))
    {
      hide ProfileState.Sound, ProfileState.Linked, ThreadState.Sound, View, Separate, Footprint;
      Unfold();
      StepKeepsSound(View(), Op.AddThread(process, tid, startTime, isMain));
      var text := MakeUniqueTid(tid);
      label Named:
      handle := AppendThread(process, text, startTime, isMain);
      ListThread(process, handle);
      forall o: object? | o in Footprint() && o !in old(Footprint())
        ensures o != null && fresh(o)
      {
        assert fresh@Named(o);
      }
    }

    method AppendThread(process: nat, tid: string, startTime: u64, isMain: bool) returns (handle: nat)
      requires Separate()
      modifies this`threads
      ensures Separate()
      ensures View() == old(View()).(threads := old(View()).threads + [NewThread(process, tid, startTime, isMain)])
      ensures handle == old(|threads|)
      ensures fresh(Footprint() - old(Footprint()))
    {
      hide NewThread, Thread.Owned, Process.View, ThreadViews, ProcessViews, Footprint;
      handle := |threads|;
      var thread := new Thread(handle, process, tid, startTime, isMain);
      threads := threads + [thread];
      ThreadAppended(thread);
      ThreadPartsFresh(thread);
    }

    twostate lemma ThreadAppended(new thread: Thread)
      requires processes == old(processes) && threads == old(threads) + [thread]
      requires forall k :: 0 <= k < |processes| ==> processes[k].View() == old(processes[k].View())
      requires forall i :: 0 <= i < |old(threads)| ==> threads[i].View() == old(threads[i].View())
      ensures ThreadViews() == old(ThreadViews()) + [thread.View()] && ProcessViews() == old(ProcessViews())
    {
      hide Thread.View, Process.View;
    }

    twostate lemma ThreadPartsFresh(new thread: Thread)
      requires processes == old(processes) && threads == old(threads) + [thread] && fresh(thread)
      requires fresh(thread.stackTable) && fresh(thread.frameTable) && fresh(thread.funcTable) && fresh(thread.samples)
      requires fresh(thread.markers) && fresh(thread.resources) && fresh(thread.nativeSymbols) && fresh(thread.stringTable)
      requires fresh(thread.stringTable.table)
      ensures fresh(Footprint() - old(Footprint()))
    {
      assert forall o :: o in Footprint() ==> o in old(Footprint()) || o in thread.Parts();
    }

    method ListThread(process: nat, thread: nat)
      requires Separate() && process < |processes|
      modifies processes[process]
      ensures Separate()
      ensures View() == UpdateProcess(old(View()), process,
        old(View()).processes[process].(threads := old(View()).processes[process].threads + [thread]))
      ensures Footprint() == old(Footprint())
    {
      ProcessPartsSeparate(process);
      processes[process].threads := processes[process].threads + [thread];
      ProcessChanged(process);
    }

    method AddSampleSameStackZeroCpu(thread: nat, timestamp: u64, weight: i32)
      requires Valid() && Allowed(View(), Op.AddSampleSameStackZeroCpu(thread, timestamp, weight))
      modifies threads[thread], threads[thread].samples
      ensures Valid() && View() == Step(old(View()), Op.AddSampleSameStackZeroCpu(thread, timestamp, weight))
      ensures Footprint() == old(Footprint())
    {
      Unfold();
      StepKeepsSound(View(), Op.AddSampleSameStackZeroCpu(thread, timestamp, weight));
      hide ProfileState.Sound, ProfileState.Linked, ThreadState.Sound, View, Separate, Thread.Parts, Footprint;
      RecordSameSample(thread, timestamp, weight);
    }

    method RecordSameSample(thread: nat, timestamp: u64, weight: i32)
      requires Separate() && thread < |threads| && threads[thread].View().recorder.Coherent()
      modifies threads[thread], threads[thread].samples
      ensures Separate()
      ensures View() == UpdateThread(old(View()), thread, old(View()).threads[thread].(
                recorder := old(threads[thread].View().recorder).AddSameStackZeroCpu(timestamp, weight)))
      ensures Footprint() == old(Footprint())
    {
      PartsSeparate(thread);
      threads[thread].AddSampleSameStackZeroCpu(timestamp, weight);
      ThreadChanged(thread);
    }

    method AddAllocationSample(thread: nat, timestamp: u64, frames: seq<FrameInfo>, address: u64, size: i64)
      requires Valid() && Allowed(View(), Op.AddAllocationSample(thread, timestamp, frames, address, size))
      modifies set t, o | t in threads && o in t.Parts() :: o
      modifies globalLibs
      ensures Valid()
      ensures View() == Step(old(View()), Op.AddAllocationSample(thread, timestamp, frames, address, size))
      ensures Footprint() == old(Footprint())
    {
      hide *;
      ghost var p, op := View(), Op.AddAllocationSample(thread, timestamp, frames, address, size);
      FirstThreadExists(op);
      var a := processes[threads[thread].process].threads[0];
      PartsSeparate(a);
      AllocationIsStep(p, op, a);
      var stack := StackIndexForFrames(a, frames);
      Unfold();
      RecordAllocation(a, timestamp, stack, address, size);
      SeparateAndSound();
    }

    lemma FirstThreadExists(op: Op)
      requires Valid() && Allowed(View(), op) && op.AddAllocationSample?
      ensures Separate() && View().Sound() && op.thread < |threads| == |View().threads|
      ensures threads[op.thread].process == View().threads[op.thread].process < |processes| == |View().processes|
      ensures var owner := processes[threads[op.thread].process];
        && owner.threads == View().processes[threads[op.thread].process].threads != []
        && owner.threads[0] == View().AllocationThread(op.thread) < |threads|
    {
      ScopeForValid(View(), op.thread);
      hide ProfileState.Sound;
    }

    lemma SeparateAndSound()
      requires Separate() && View().Sound()
      ensures Valid()
    {
    }

    lemma AllocationIsStep(p: ProfileState, op: Op, first: nat)
      requires p.Sound() && Allowed(p, op) && op.AddAllocationSample?
      requires op.thread < |p.threads| && p.threads[op.thread].process < |p.processes|
      requires p.processes[p.threads[op.thread].process].threads != [] && first == p.AllocationThread(op.thread)
      ensures first < |p.threads| && AllIssued(op.frames, p.libs, p.strings)
      ensures var (p1, stack) := PushStack(p, first, op.frames);
        && Step(p, op) == UpdateThread(p1, first, AddAllocationTo(p1.threads[first], op.timestamp, stack, op.address, op.size))
        && Step(p, op).Sound()
    {
      ScopeForValid(p, op.thread);
      StepKeepsSound(p, op);
      hide PushStack, ProfileState.Sound, AllIssued;
    }

    method RecordAllocation(thread: nat, timestamp: u64, stack: Option<nat>, address: u64, size: i64)
      requires Separate() && thread < |threads|
      modifies threads[thread]
      ensures Separate()
      ensures View() == UpdateThread(old(View()), thread,
                AddAllocationTo(old(View()).threads[thread], timestamp, stack, address, size))
      ensures Footprint() == old(Footprint())
    {
      PartsSeparate(thread);
      threads[thread].AddAllocationSample(timestamp, stack, address, size);
      ThreadChanged(thread);
    }

    method AddMarker(thread: nat, timing: Timing, marker: Marker) returns (handle: nat)
      requires Valid() && Allowed(View(), Op.AddMarker(thread, timing, marker))
      modifies threads[thread].stringTable, threads[thread].stringTable.table, threads[thread].markers
      ensures Valid() && View() == Step(old(View()), Op.AddMarker(thread, timing, marker))
      ensures handle == old(|threads[thread].markers.markerCategories|)
      ensures Footprint() == old(Footprint())
    {
      Unfold();
      PartsSeparate(thread);
      StepKeepsSound(View(), Op.AddMarker(thread, timing, marker));
      hide ProfileState.Sound, ProfileState.Linked, ThreadState.Sound, Separate, Thread.Parts, Footprint, ThreadViews, ProcessViews;
      handle := RecordMarker(thread, timing, marker, markerSchemas[marker.markerType]);
    }

    method RecordMarker(thread: nat, timing: Timing, marker: Marker, schema: Schema) returns (handle: nat)
      requires Separate() && thread < |threads| && threads[thread].View().markers.SameLengths()
      requires threads[thread].stringTable.table != stringTable.table
      requires marker.name < |stringTable.View().strings| && HandlesKnown(schema.fields, 0, marker, stringTable.View())
      modifies threads[thread].stringTable, threads[thread].stringTable.table, threads[thread].markers
      ensures Separate()
      ensures View() == UpdateThread(old(View()), thread,
        old(threads[thread].View().AddMarker(marker.name, marker, timing, schema.fields, stringTable.View())).0)
      ensures handle == old(threads[thread].View().AddMarker(marker.name, marker, timing, schema.fields, stringTable.View())).1
      ensures Footprint() == old(Footprint())
    {
      PartsSeparate(thread);
      handle := threads[thread].AddMarker(marker, timing, schema, stringTable);
      ThreadChanged(thread);
    }

    method SetMarkerStack(thread: nat, marker: nat, frames: seq<FrameInfo>)
      requires Valid() && Allowed(View(), Op.SetMarkerStack(thread, marker, frames))
      modifies threads[thread].Parts(), globalLibs
      ensures Valid() && View() == Step(old(View()), Op.SetMarkerStack(thread, marker, frames))
      ensures Footprint() == old(Footprint())
    {
      ghost var p := View();
      PartsSeparate(thread);
      StepKeepsSound(p, Op.SetMarkerStack(thread, marker, frames));
      hide PushStack, ProfileState.Sound, ProfileState.Linked, ThreadState.Sound, View, Separate, Thread.Parts, Footprint;
      var stack := StackIndexForFrames(thread, frames);
      Unfold();
      RecordMarkerStack(thread, marker, stack);
    }

    method RecordMarkerStack(thread: nat, marker: nat, stack: Option<nat>)
      requires Separate() && thread < |threads| && marker < |threads[thread].markers.markerStacks|
      modifies threads[thread].markers
      ensures Separate()
      ensures View() == UpdateThread(old(View()), thread, old(View()).threads[thread].(
                markers := old(View()).threads[thread].markers.SetStack(marker, stack)))
      ensures Footprint() == old(Footprint())
    {
      PartsSeparate(thread);
      threads[thread].SetMarkerStack(marker, stack);
      ThreadChanged(thread);
    }

    /** The order in which the threads are written, and where each process's threads start. */
    method SortedThreads() returns (sorted: seq<nat>, first: seq<nat>)
      requires Valid()
      ensures WellOrdered(View(), sorted, first)
    {
      var p := View();
      assert p.Linked();
      hide *;
      sorted, first := ThreadOrder.SortedThreads(p);
      assert View() == p;
    }

    method GetString(handle: u32) returns (s: string)
      requires handle < |stringTable.View().strings|
      ensures s == View().strings.strings[handle]
    {
      var r := stringTable.GetString(handle);
      s := r.value;
    }

    // frames is ordered from caller to callee: the root comes first
    method StackIndexForFrames(thread: nat, frames: seq<FrameInfo>) returns (stack: Option<nat>)
      requires Valid() && thread < |threads| && AllIssued(frames, View().libs, View().strings)
      modifies threads[thread].Parts(), globalLibs
      ensures Valid() && (View(), stack) == PushStack(old(View()), thread, frames)
      ensures Footprint() == old(Footprint())
    {
      ghost var p := View();
      ReadyToPush(thread, frames);
      hide *;
      stack := PushOnto(thread, frames);
      Pushed(p, View(), thread, frames, View().threads[thread], stack);
    }

    method PushOnto(thread: nat, frames: seq<FrameInfo>) returns (stack: Option<nat>)
      requires Separate() && stringTable.table.owner == -1 && thread < |threads| && threads[thread].Owned()
      requires threads[thread].process < |processes|
      requires WorkOf(threads[thread]).Ready() && ScopeOf(processes[threads[thread].process]).Valid(globalLibs.View())
      requires AllIssued(frames, globalLibs.View(), stringTable.View())
      modifies threads[thread].Parts(), globalLibs
      ensures Separate()
      ensures View() == old(View()).(libs := globalLibs.View(), threads := old(View()).threads[thread := threads[thread].View()])
      ensures (WorkOf(threads[thread]), stack)
           == old(PushFrames(WorkOf(threads[thread]), ScopeOf(processes[threads[thread].process]), frames))
      ensures threads[thread].View() == old(threads[thread].View()).WithWork(WorkOf(threads[thread]))
      ensures Footprint() == old(Footprint())
    {
      PartsSeparate(thread);
      hide *;
      stack := PushFramesOnto(threads[thread], processes[threads[thread].process], frames);
      ThreadChanged(thread);
    }

    /** What pushing a call stack onto a thread relies on. */
    lemma ReadyToPush(t: nat, frames: seq<FrameInfo>)
      requires Valid() && t < |threads| && AllIssued(frames, View().libs, View().strings)
      ensures Separate() && stringTable.table.owner == -1 && threads[t].Owned()
      ensures threads[t].process < |processes| && processes[threads[t].process] in processes
      ensures |View().threads| == |threads| && View().threads[t] == threads[t].View() && View().Sound()
      ensures View().threads[t].process < |View().processes|
      ensures WorkOf(threads[t]) == View().WorkFor(t) && ScopeOf(processes[threads[t].process]) == View().ScopeFor(t)
      ensures WorkOf(threads[t]).Ready() && View().ScopeFor(t).Valid(globalLibs.View())
      ensures AllIssued(frames, globalLibs.View(), stringTable.View())
    {
      ScopeForValid(View(), t);
    }

    /** The location a frame resolves to. */
    method Resolve(th: Thread, process: Process, frame: Frame) returns (location: Location)
      requires frame.LabelFrame? ==> frame.text < |stringTable.View().strings|
      requires th.Owned() && stringTable.table.owner == -1
      modifies globalLibs, th.stringTable, th.stringTable.table
      ensures (th.TablesView(), globalLibs.View(), location)
           == old(CallStacks.Resolve(th.TablesView(), globalLibs.View(),
                                     Scope(kernelLibs.entries, process.libs.entries, stringTable.View()), frame))
    {
      match frame {
        case InstructionPointer(ip) =>
          location := process.ConvertAddress(globalLibs, kernelLibs, ip);
        case ReturnAddress(ra) =>
          location := process.ConvertAddress(globalLibs, kernelLibs, SaturatingSub(ra, 1));
        case AdjustedReturnAddress(ara) =>
          location := process.ConvertAddress(globalLibs, kernelLibs, ara);
        case RelativeAddressFromInstructionPointer(library, relative) =>
          var index := globalLibs.IndexForUsedLib(library);
          location := AddressInLib(relative, index);
        case RelativeAddressFromReturnAddress(library, relative) =>
          var index := globalLibs.IndexForUsedLib(library);
          location := AddressInLib(SaturatingSub(relative, 1), index);
        case RelativeAddressFromAdjustedReturnAddress(library, relative) =>
          var index := globalLibs.IndexForUsedLib(library);
          location := AddressInLib(relative, index);
        case LabelFrame(text) =>
          var name := th.ConvertStringIndex(stringTable, text);
          location := Label(name);
      }
    }

    ghost function ScopeOf(process: Process): Scope
      reads kernelLibs, process.libs, stringTable.table
    {
      Scope(kernelLibs.entries, process.libs.entries, stringTable.View())
    }

    ghost function WorkOf(th: Thread): Work
      reads th.Parts(), globalLibs
    {
      Work(th.TablesView(), th.stackTable.View(), globalLibs.View())
    }

    lemma ScopeApart(th: Thread, process: Process)
      requires th.Owned() && stringTable.table.owner == -1
      ensures kernelLibs !in th.Parts() && process.libs !in th.Parts() && stringTable.table !in th.Parts()
    {
    }

    method PushFrameOnto(th: Thread, process: Process, prefix: Option<nat>, info: FrameInfo) returns (stack: nat)
      requires th.Owned() && stringTable.table.owner == -1
      requires WorkOf(th).Ready() && ScopeOf(process).Valid(globalLibs.View())
      requires Issued(info.frame, globalLibs.View(), stringTable.View())
      modifies th.Parts(), globalLibs
      ensures (WorkOf(th), stack) == old(PushFrame(WorkOf(th), prefix, ScopeOf(process), info))
      ensures th.View() == old(th.View()).WithWork(WorkOf(th))
    {
      ResolveReady(WorkOf(th), ScopeOf(process), info.frame);
      hide CallStacks.Resolve, ForFrame, Tables.Usable, Callable, Work.Ready, Issued, Scope.Valid, Libs.Coherent;
      var location := Resolve(th, process, info.frame);
      var frame := th.FrameIndexForFrame(InternalFrame(location, info.pair, info.flags), globalLibs);
      stack := th.StackIndexForStack(prefix, frame, info.pair);
    }

    /** The loop over the frames, updating `prefix`. */
    method PushFramesOnto(th: Thread, process: Process, frames: seq<FrameInfo>) returns (prefix: Option<nat>)
      requires th.Owned() && stringTable.table.owner == -1
      requires WorkOf(th).Ready() && ScopeOf(process).Valid(globalLibs.View())
      requires AllIssued(frames, globalLibs.View(), stringTable.View())
      modifies th.Parts(), globalLibs
      ensures (WorkOf(th), prefix) == old(PushFrames(WorkOf(th), ScopeOf(process), frames))
      ensures th.View() == old(th.View()).WithWork(WorkOf(th))
    {
      prefix := None;
      ghost var w0, scope, view := WorkOf(th), ScopeOf(process), th.View();
      ScopeApart(th, process);
      hide PushFrame, Work.Ready, Scope.Valid, Issued, Thread.TablesView, Thread.Owned, Thread.Parts, Tables.Usable;
      for k := 0 to |frames|
        invariant ScopeOf(process) == scope
        invariant (WorkOf(th), prefix) == PushFrames(w0, scope, frames[..k])
        invariant th.View() == view.WithWork(WorkOf(th))
      {
        OneMoreFrame(w0, scope, frames, k);
        hide PushFrames, AllIssued, Thread.View;
        var stack := PushFrameOnto(th, process, prefix, frames[k]);
        prefix := Some(stack);
      }
      assert frames[..|frames|] == frames;
    }
  }

  lemma Pushed(p: ProfileState, p': ProfileState, t: nat, frames: seq<FrameInfo>, th: ThreadState, stack: Option<nat>)
    requires p.Sound() && t < |p.threads| && AllIssued(frames, p.libs, p.strings)
    requires p.threads[t].process < |p.processes| && p.WorkFor(t).Ready() && p.ScopeFor(t).Valid(p.libs)
    requires p' == p.(libs := p'.libs, threads := p.threads[t := th])
    requires (Work(th.tables, th.stacks, p'.libs), stack) == PushFrames(p.WorkFor(t), p.ScopeFor(t), frames)
    requires th == p.threads[t].WithWork(Work(th.tables, th.stacks, p'.libs))
    ensures (p', stack) == PushStack(p, t, frames) && p'.Sound()
  {
    PushStackKeepsSound(p, t, frames);
    hide ProfileState.Sound;
  }

  lemma OneMoreFrame(w: Work, scope: Scope, frames: seq<FrameInfo>, k: nat)
    requires w.Ready() && scope.Valid(w.libs) && AllIssued(frames, w.libs, scope.texts) && k < |frames|
    ensures var (w1, prefix) := PushFrames(w, scope, frames[..k]);
      && w1.Ready() && scope.Valid(w1.libs) && Issued(frames[k].frame, w1.libs, scope.texts)
      && PushFrames(w, scope, frames[..k + 1])
         == (PushFrame(w1, prefix, scope, frames[k]).0, Some(PushFrame(w1, prefix, scope, frames[k]).1))
  {
    hide PushFrame, Work.Ready;
    assert frames[..k + 1][..k] == frames[..k];
  }
}
