/** A thread and all its tables (fxprof-processed-profile/src/thread.rs). */
module Threads {
  import opened CallStacks
  import opened Categories
  import opened FrameTables
  import opened FuncTables
  import opened GlobalLibs
  import opened MarkerRoundTrip
  import opened MarkerTables
  import opened NativeSymbolTables
  import opened Prelude
  import opened ResourceTables
  import opened SampleTables
  import opened StackTables
  import opened StringTables
  import opened ZeroCpu

  /** The contents of a `Thread`. */
  datatype ThreadState = ThreadState(
    process: nat, tid: string, name: Option<string>, startTime: u64, endTime: Option<u64>, isMain: bool,
    tables: Tables, stacks: Stacks, recorder: Recorder, allocations: Option<Allocations>, markers: Markers)
  {
    /** Enough for no call to panic. */
    ghost predicate Sound(libs: Libs) {
      && tables.Usable(libs) && recorder.Coherent()
      && (allocations.Some? ==> allocations.value.SameLengths()) && markers.SameLengths()
    }

    /** Every table is well formed and every stored index points inside its table. */
    ghost predicate Ok(libs: Libs, texts: Strings, schemas: seq<Schema>) {
      && Sound(libs)
      && Work(tables, stacks, libs).Coherent(texts)
      && (forall s :: s in recorder.samples.stacks ==> stacks.Holds(s))
      && (allocations.Some? ==> forall s :: s in allocations.value.stacks ==> stacks.Holds(s))
      && (forall s :: s in markers.stacks ==> stacks.Holds(s))
      && (forall n :: n in markers.names ==> n < |tables.strings.table.strings|)
      && Splittable(markers.types, markers.strings, markers.numbers, schemas, |texts.strings|, |tables.strings.table.strings|)
    }

    function WithWork(w: Work): ThreadState {
      this.(tables := w.tables, stacks := w.stacks)
    }

    function AddMarker(name: u32, marker: Marker, timing: Timing, fields: seq<Field>, texts: Strings): (ThreadState, nat)
      requires name in tables.strings.converted || name < |texts.strings|
      requires HandlesKnown(fields, 0, marker, texts)
    {
      var (strings, nameIndex) := tables.strings.Convert(name, texts);
      var (m, strings', handle) := markers.Add(nameIndex, marker.markerType, fields, marker, timing, strings, texts);
      (this.(tables := tables.(strings := strings'), markers := m), handle)
    }
  }

  function NewThread(process: nat, tid: string, startTime: u64, isMain: bool): ThreadState {
    ThreadState(process, tid, None, startTime, None, isMain, NoTables, NoStacks, Idle, None, NoMarkers)
  }

  lemma NewThreadOk(process: nat, tid: string, startTime: u64, isMain: bool, libs: Libs, texts: Strings, schemas: seq<Schema>)
    requires libs.Coherent()
    ensures NewThread(process, tid, startTime, isMain).Ok(libs, texts, schemas)
  {
  }

  /** A thread that is not touched stays well formed while the profile around it grows. */
  lemma OkUnderGrowth(th: ThreadState, libs: Libs, texts: Strings, schemas: seq<Schema>,
                      libs': Libs, texts': Strings, schemas': seq<Schema>)
    requires th.Ok(libs, texts, schemas) && libs'.Coherent()
    requires GlobalLibs.Grew(libs, libs') && texts.strings <= texts'.strings && schemas <= schemas'
    ensures th.Ok(libs', texts', schemas')
  {
    CoherentAsGlobalGrows(th.tables.strings, texts, texts');
    CoherentInBiggerProfile(th.tables, texts, libs, texts', libs');
    ColumnGrows(th.markers.types, th.markers.stacks, th.markers.strings, th.markers.numbers,
                schemas, texts, |th.tables.strings.table.strings|, schemas', texts', |th.tables.strings.table.strings|);
    var w, w' := Work(th.tables, th.stacks, libs), Work(th.tables, th.stacks, libs');
    forall i | 0 <= i < |th.stacks.frames|
      ensures w'.StackRowOk(i)
    {
      assert w.StackRowOk(i);
    }
  }

  lemma CoherentInBiggerProfile(t: Tables, texts: Strings, libs: Libs, texts': Strings, libs': Libs)
    requires t.Coherent(texts, libs) && t.strings.Coherent(texts')
    requires GlobalLibs.Grew(libs, libs')
    ensures t.Coherent(texts', libs')
  {
    ResourceTables.CoherentUnderGrowth(t.resources, libs, t.strings.table.strings, libs', t.strings.table.strings);
    NativeSymbolTables.CoherentUnderGrowth(t.natives, |t.strings.table.strings|, |libs.usedLibs|,
                                           |t.strings.table.strings|, |libs'.usedLibs|);
  }

  /** After pushing a call stack the thread is well formed and holds the returned stack. */
  lemma OkAfterPush(th: ThreadState, libs: Libs, scope: Scope, infos: seq<FrameInfo>, schemas: seq<Schema>)
    requires th.Ok(libs, scope.texts, schemas) && scope.Valid(libs) && AllIssued(infos, libs, scope.texts)
    requires PushFrames(Work(th.tables, th.stacks, libs), scope, infos).0.tables.Fits()
    ensures var (w, stack) := PushFrames(Work(th.tables, th.stacks, libs), scope, infos);
      && th.WithWork(w).Ok(w.libs, scope.texts, schemas) && w.stacks.Holds(stack)
      && w.libs.Coherent() && GlobalLibs.Grew(libs, w.libs)
  {
    hide PushFrames, Tables.Coherent;
    var w0 := Work(th.tables, th.stacks, libs);
    PushFramesRoundTrip(w0, scope, infos);
    var w := PushFrames(w0, scope, infos).0;
    ColumnGrows(th.markers.types, th.markers.stacks, th.markers.strings, th.markers.numbers,
                schemas, scope.texts, |th.tables.strings.table.strings|, schemas, scope.texts, |w.tables.strings.table.strings|);
  }

  /** The thread's strings after a marker: the name converted, then the field strings. */
  ghost function MarkerStrings(strings: ThreadStrings, name: u32, marker: Marker, fields: seq<Field>, texts: Strings): ThreadStrings
    requires name < |texts.strings| && HandlesKnown(fields, 0, marker, texts)
  {
    ConvertFields(fields, 0, marker, strings.Convert(name, texts).0, texts)
  }

  lemma MarkerStringsCoherent(strings: ThreadStrings, name: u32, marker: Marker, fields: seq<Field>, texts: Strings)
    requires strings.Coherent(texts) && name < |texts.strings| && HandlesKnown(fields, 0, marker, texts)
    requires |MarkerStrings(strings, name, marker, fields, texts).table.strings| <= U32_LIMIT
    ensures var s' := MarkerStrings(strings, name, marker, fields, texts);
      && s'.Coherent(texts) && strings.table.strings <= s'.table.strings
      && Converted(fields, 0, marker, s'.converted)
      && strings.Convert(name, texts).1 < |s'.table.strings|
      && (forall g :: g in strings.converted ==> g in s'.converted && s'.converted[g] == strings.converted[g])
  {
    var (s1, _) := strings.Convert(name, texts);
    ConvertFieldsConverts(fields, 0, marker, s1, texts);
    ConvertCoherent(strings, name, texts);
    ConvertFieldsCoherent(fields, 0, marker, s1, texts);
  }

  lemma WorkWithMoreStrings(w: Work, texts: Strings, strings: ThreadStrings)
    requires w.Coherent(texts) && strings.Coherent(texts)
    requires TablesGrew(w.tables, w.tables.(strings := strings))
    ensures w.(tables := w.tables.(strings := strings)).Coherent(texts)
  {
    TablesCoherentUnderGrowth(w.tables, w.tables.(strings := strings), texts, w.libs, w.libs);
    StackRowsStable(w, w.(tables := w.tables.(strings := strings)));
  }

  /** What a marker call changes. */
  lemma AddedMarkerFields(th: ThreadState, name: u32, marker: Marker, timing: Timing, fields: seq<Field>, texts: Strings)
    requires name < |texts.strings| && HandlesKnown(fields, 0, marker, texts)
    ensures var th' := th.AddMarker(name, marker, timing, fields, texts).0;
      var strings' := MarkerStrings(th.tables.strings, name, marker, fields, texts);
      && th' == th.(tables := th.tables.(strings := strings'), markers := th'.markers)
      && (th.markers.SameLengths() ==> th'.markers.SameLengths())
      && th'.markers.names == th.markers.names + [th.tables.strings.Convert(name, texts).1]
      && th'.markers.stacks == th.markers.stacks + [None] && th'.markers.types == th.markers.types + [marker.markerType]
      && Converted(fields, 0, marker, strings'.converted)
      && th'.markers.strings == th.markers.strings + StringsOf(fields, 0, marker, strings'.converted)
      && th'.markers.numbers == th.markers.numbers + NumbersOf(fields, 0, marker)
  {
    ConvertFieldsConverts(fields, 0, marker, th.tables.strings.Convert(name, texts).0, texts);
  }

  lemma OkStrings(th: ThreadState, libs: Libs, texts: Strings, schemas: seq<Schema>)
    requires th.Ok(libs, texts, schemas)
    ensures th.tables.strings.Coherent(texts)
  {
  }

  /** A marker added: the name and field strings are converted, the flat vectors still split. */
  lemma OkAfterMarker(th: ThreadState, libs: Libs, texts: Strings, schemas: seq<Schema>, name: u32, marker: Marker, timing: Timing)
    requires th.Ok(libs, texts, schemas) && name < |texts.strings| && marker.markerType < |schemas|
    requires schemas[marker.markerType].WellCounted()
    requires HandlesKnown(schemas[marker.markerType].fields, 0, marker, texts)
    requires th.AddMarker(name, marker, timing, schemas[marker.markerType].fields, texts).0.tables.Fits()
    ensures th.AddMarker(name, marker, timing, schemas[marker.markerType].fields, texts).0.Ok(libs, texts, schemas)
  {
    hide Tables.Coherent, Splittable, MarkerStrings, ThreadState.AddMarker, StringsOf, NumbersOf, Schema.WellCounted,
      HandlesKnown, Converted, ThreadStrings.Convert;
    OkStrings(th, libs, texts, schemas);
    var schema := schemas[marker.markerType];
    var strings' := MarkerStrings(th.tables.strings, name, marker, schema.fields, texts);
    AddedMarkerFields(th, name, marker, timing, schema.fields, texts);
    MarkerStringsCoherent(th.tables.strings, name, marker, schema.fields, texts);
    WorkWithMoreStrings(Work(th.tables, th.stacks, libs), texts, strings');
    MarkerSplits(th.markers, texts, schemas, th.tables.strings, strings', marker);
  }

  lemma MarkerSplits(m: Markers, texts: Strings, schemas: seq<Schema>, before: ThreadStrings, strings: ThreadStrings, marker: Marker)
    requires m.SameLengths() && Splittable(m.types, m.strings, m.numbers, schemas, |texts.strings|, |before.table.strings|)
    requires marker.markerType < |schemas| && schemas[marker.markerType].WellCounted()
    requires strings.Coherent(texts) && |before.table.strings| <= |strings.table.strings|
    requires HandlesKnown(schemas[marker.markerType].fields, 0, marker, texts)
    requires Converted(schemas[marker.markerType].fields, 0, marker, strings.converted)
    ensures Splittable(m.types + [marker.markerType],
                       m.strings + StringsOf(schemas[marker.markerType].fields, 0, marker, strings.converted),
                       m.numbers + NumbersOf(schemas[marker.markerType].fields, 0, marker),
                       schemas, |texts.strings|, |strings.table.strings|)
  {
    var schema := schemas[marker.markerType];
    var ss, ns := StringsOf(schema.fields, 0, marker, strings.converted), NumbersOf(schema.fields, 0, marker);
    ColumnGrows(m.types, m.stacks, m.strings, m.numbers, schemas, texts, |before.table.strings|,
                schemas, texts, |strings.table.strings|);
    OwnValuesReadBack(schema.fields, 0, marker, strings, texts);
    ValuesFillSlots(schema.fields, 0, marker, strings.converted);
    assert schema.fields[0..] == schema.fields;
    ColumnAppends(m.types, m.stacks, m.strings, m.numbers, schemas, texts, |strings.table.strings|,
                  marker.markerType, None, ss, ns);
  }

  function AddSampleTo(th: ThreadState, s: Sample): ThreadState {
    th.(recorder := th.recorder.Add(s))
  }

  function AddAllocationTo(th: ThreadState, timestamp: u64, stack: Option<nat>, address: u64, size: i64): ThreadState {
    var allocations := if th.allocations.Some? then th.allocations.value else NoAllocations;
    th.(allocations := Some(allocations.Add(timestamp, stack, address, size)))
  }

  /** Rows that hold a stack of the thread may be added. */
  lemma OkAfterRow(th: ThreadState, libs: Libs, texts: Strings, schemas: seq<Schema>, stack: Option<nat>)
    requires th.Ok(libs, texts, schemas) && th.stacks.Holds(stack)
    ensures forall timestamp, cpuDelta, weight: i32 ::
      AddSampleTo(th, Sample(timestamp, stack, cpuDelta, weight)).Ok(libs, texts, schemas)
    ensures forall timestamp, address, size: i64 ::
      AddAllocationTo(th, timestamp, stack, address, size).Ok(libs, texts, schemas)
    ensures forall marker: nat :: marker < |th.markers.stacks| ==>
      th.(markers := th.markers.SetStack(marker, stack)).Ok(libs, texts, schemas)
  {
    hide Tables.Coherent, Splittable;
    forall marker: nat | marker < |th.markers.stacks|
      ensures th.(markers := th.markers.SetStack(marker, stack)).Ok(libs, texts, schemas)
    {
      var stacks' := th.markers.stacks[marker := stack];
      assert forall s :: s in stacks' ==> s == stack || s in th.markers.stacks;
    }
  }

  lemma OkAfterSameSample(th: ThreadState, libs: Libs, texts: Strings, schemas: seq<Schema>, timestamp: u64, weight: i32)
    requires th.Ok(libs, texts, schemas)
    ensures th.(recorder := th.recorder.AddSameStackZeroCpu(timestamp, weight)).Ok(libs, texts, schemas)
  {
    hide Tables.Coherent, Splittable;
    var r := th.recorder;
    ApplyCoherent(r, Same(timestamp, weight));
    var stacks := r.samples.stacks;
    if !r.lastWasZeroCpu && r.samples.weights != [] {
      assert r.lastStack == stacks[|stacks| - 1];
    }
    assert forall s :: s in r.AddSameStackZeroCpu(timestamp, weight).samples.stacks ==> s == r.lastStack || s in stacks;
  }

  class Thread {
    /** Position in the profile's list of threads; the thread's tables carry it too, so that no two
        threads can share one. */
    ghost const id: nat
    const process: nat
    const isMain: bool
    var tid: string
    var name: Option<string>
    var startTime: u64
    var endTime: Option<u64>
    const stackTable: StackTable
    const frameTable: FrameTable
    const funcTable: FuncTable
    const samples: SampleTable
    var nativeAllocations: Option<Allocations>
    const markers: MarkerTable
    const resources: ResourceTable
    const nativeSymbols: NativeSymbols
    const stringTable: ThreadStringTable
    var lastSampleStack: Option<nat>
    var lastSampleWasZeroCpu: bool

    constructor (ghost id: nat, process: nat, tid: string, startTime: u64, isMain: bool)
      ensures this.id == id && Owned()
      ensures fresh(stackTable) && fresh(frameTable) && fresh(funcTable) && fresh(samples) && fresh(markers)
      ensures fresh(resources) && fresh(nativeSymbols) && fresh(stringTable) && fresh(stringTable.table)
      ensures View() == NewThread(process, tid, startTime, isMain)
    {
      this.id := id;
      this.process, this.tid, this.startTime, this.isMain := process, tid, startTime, isMain;
      name, endTime := None, None;
      stackTable := new StackTable(id);
      frameTable := new FrameTable(id);
      funcTable := new FuncTable(id);
      samples := new SampleTable(id);
      nativeAllocations := None;
      markers := new MarkerTable(id);
      resources := new ResourceTable(id);
      nativeSymbols := new NativeSymbols(id);
      stringTable := new ThreadStringTable(id);
      lastSampleStack, lastSampleWasZeroCpu := None, false;
    }

    ghost predicate Owned() {
      && stackTable.owner == frameTable.owner == funcTable.owner == samples.owner == markers.owner == id
      && resources.owner == nativeSymbols.owner == stringTable.owner == stringTable.table.owner == id
    }

    ghost function Parts(): set<object> {
      {this, stackTable, frameTable, funcTable, samples, markers, resources, nativeSymbols, stringTable, stringTable.table}
    }

    function TablesView(): Tables
      reads Parts()
    {
      Tables(stringTable.View(), resources.View(), funcTable.View(), nativeSymbols.View(), frameTable.View())
    }

    function View(): ThreadState
      reads Parts()
    {
      ThreadState(process, tid, name, startTime, endTime, isMain, TablesView(), stackTable.View(),
                  Recorder(samples.View(), lastSampleStack, lastSampleWasZeroCpu), nativeAllocations, markers.View())
    }

    method SetName(name: string)
      modifies this
      ensures View() == old(View()).(name := Some(name))
    {
      this.name := Some(name);
    }

    method SetStartTime(startTime: u64)
      modifies this
      ensures View() == old(View()).(startTime := startTime)
    {
      this.startTime := startTime;
    }

    method SetEndTime(endTime: u64)
      modifies this
      ensures View() == old(View()).(endTime := Some(endTime))
    {
      this.endTime := Some(endTime);
    }

    method SetTid(tid: string)
      modifies this
      ensures View() == old(View()).(tid := tid)
    {
      this.tid := tid;
    }

    method ConvertStringIndex(global: GlobalStringTable, index: u32) returns (i: u32)
      requires global.table != stringTable.table
      requires index in stringTable.globalToLocal || index < |global.View().strings|
      modifies stringTable, stringTable.table
      ensures var (strings, r) := old(stringTable.View().Convert(index, global.View()));
        i == r && View() == old(View()).(tables := old(TablesView()).(strings := strings))
    {
      i := stringTable.IndexForGlobalString(index, global);
    }

    method FrameIndexForFrame(frame: InternalFrame, libs: GlobalLibTable) returns (i: nat)
      requires TablesView().Usable(libs.View()) && Callable(libs.View(), frame.location)
      modifies stringTable.table, resources, funcTable, nativeSymbols, frameTable, libs
      ensures var (tables, libs', r) := old(ForFrame(TablesView(), libs.View(), frame));
        i == r && libs.View() == libs' && View() == old(View()).(tables := tables)
    {
      i := frameTable.IndexForFrame(stringTable, resources, funcTable, nativeSymbols, libs, frame);
    }

    method StackIndexForStack(prefix: Option<nat>, frame: nat, pair: CategoryPair) returns (stack: nat)
      modifies stackTable
      ensures var (stacks, r) := old(stackTable.View().ForStack(prefix, frame, pair));
        stack == r && View() == old(View()).(stacks := stacks)
    {
      stack := stackTable.IndexForStack(prefix, frame, pair);
    }

    method AddSample(timestamp: u64, stack: Option<nat>, cpuDelta: u64, weight: i32)
      modifies this, samples
      ensures View() == AddSampleTo(old(View()), Sample(timestamp, stack, cpuDelta, weight))
    {
      samples.AddSample(timestamp, stack, cpuDelta, weight);
      lastSampleStack := stack;
      lastSampleWasZeroCpu := cpuDelta == 0;
    }

    method AddAllocationSample(timestamp: u64, stack: Option<nat>, address: u64, size: i64)
      modifies this
      ensures View() == AddAllocationTo(old(View()), timestamp, stack, address, size)
    {
      if nativeAllocations.None? {
        nativeAllocations := Some(NoAllocations);
      }
      nativeAllocations := Some(nativeAllocations.value.Add(timestamp, stack, address, size));
    }

    method AddSampleSameStackZeroCpu(timestamp: u64, weight: i32)
      requires View().recorder.Coherent()
      modifies this, samples
      ensures View() == old(View()).(recorder := old(View()).recorder.AddSameStackZeroCpu(timestamp, weight))
    {
      if lastSampleWasZeroCpu {
        samples.ModifyLastSample(timestamp, weight);
      } else {
        samples.AddSample(timestamp, lastSampleStack, 0, weight);
        lastSampleWasZeroCpu := true;
      }
    }

    /** The name is converted first, then the marker table takes the rest. */
    method AddMarker(marker: Marker, timing: Timing, schema: Schema, global: GlobalStringTable) returns (handle: nat)
      requires global.table != stringTable.table && View().markers.SameLengths()
      requires marker.name < |global.View().strings| && HandlesKnown(schema.fields, 0, marker, global.View())
      modifies stringTable, stringTable.table, markers
      ensures (View(), handle) == old(View().AddMarker(marker.name, marker, timing, schema.fields, global.View()))
    {
      var nameIndex := ConvertStringIndex(global, marker.name);
      handle := markers.AddMarker(nameIndex, marker.markerType, schema, marker, timing, stringTable, global);
    }

    method SetMarkerStack(marker: nat, stack: Option<nat>)
      requires marker < |markers.markerStacks|
      modifies markers
      ensures View() == old(View()).(markers := old(View()).markers.SetStack(marker, stack))
    {
      markers.SetMarkerStack(marker, stack);
    }
  }

  /** Threads with different ids share no part. */
  lemma PartsDisjoint(a: Thread, b: Thread)
    requires a.Owned() && b.Owned() && a.id != b.id
    ensures a.Parts() !! b.Parts()
  {
  }
}
