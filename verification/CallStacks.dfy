/** From the frames a caller passes to a stack index of a thread
    (fxprof-processed-profile/src/profile.rs `stack_index_for_frames`, process.rs `convert_address`, frame.rs). */
module CallStacks {
  import opened Categories
  import opened FrameTables
  import opened FuncTables
  import opened GlobalLibs
  import opened LibMappings
  import opened Prelude
  import opened StackTables
  import opened StringTables

  datatype Frame =
    | InstructionPointer(ip: u64)
    | ReturnAddress(ra: u64)
    | AdjustedReturnAddress(ara: u64)
    | RelativeAddressFromInstructionPointer(library: nat, relative: u32)
    | RelativeAddressFromReturnAddress(library: nat, relative: u32)
    | RelativeAddressFromAdjustedReturnAddress(library: nat, relative: u32)
    | LabelFrame(text: u32)

  datatype FrameInfo = FrameInfo(frame: Frame, pair: CategoryPair, flags: FrameFlags)

  /** What resolution can see besides the tables: the mappings and the profile's strings. */
  datatype Scope = Scope(kernel: seq<Mapping<nat>>, process: seq<Mapping<nat>>, texts: Strings) {
    /** Only handles the profile issued are mapped. */
    ghost predicate Valid(libs: Libs) {
      && (forall m :: m in kernel ==> m.value < |libs.allLibs|)
      && (forall m :: m in process ==> m.value < |libs.allLibs|)
    }
  }

  /** What pushing a stack works on: the tables of one thread and the profile's libraries. */
  datatype Work = Work(tables: Tables, stacks: Stacks, libs: Libs) {
    ghost predicate Ready() {
      libs.Coherent() && tables.Usable(libs)
    }

    ghost predicate Coherent(texts: Strings) {
      && Ready() && tables.Coherent(texts, libs)
      && stacks.Coherent()
      && forall i :: 0 <= i < |stacks.frames| ==> StackRowOk(i)
    }

    /** A stack row's frame exists, and its category pair is the frame's, although rows are looked up
        without it. */
    ghost predicate StackRowOk(i: nat)
      requires stacks.Coherent() && tables.frames.SameLengths() && i < |stacks.frames|
    {
      var f := stacks.frames[i];
      && f < |tables.frames.funcs|
      && stacks.categories[i] == tables.frames.categories[f]
      && stacks.subcategories[i] == tables.frames.subcategories[f]
    }
  }

  ghost predicate WorkGrew(w: Work, w': Work) {
    TablesGrew(w.tables, w'.tables) && StackTables.Grew(w.stacks, w'.stacks) && GlobalLibs.Grew(w.libs, w'.libs)
  }

  /** Only handles the profile issued appear in the frames. */
  ghost predicate Issued(frame: Frame, libs: Libs, texts: Strings) {
    match frame
    case RelativeAddressFromInstructionPointer(library, _) => library < |libs.allLibs|
    case RelativeAddressFromReturnAddress(library, _) => library < |libs.allLibs|
    case RelativeAddressFromAdjustedReturnAddress(library, _) => library < |libs.allLibs|
    case LabelFrame(text) => text < |texts.strings|
    case _ => true
  }

  ghost predicate AllIssued(infos: seq<FrameInfo>, libs: Libs, texts: Strings) {
    forall i :: 0 <= i < |infos| ==> Issued(infos[i].frame, libs, texts)
  }

  /** The library and relative address mapped at an address: kernel mappings first, then the process's. */
  function Convert(scope: Scope, address: u64): Option<(u32, nat)> {
    match ConvertAddress(scope.kernel, address)
    case Some(r) => Some(r)
    case None => ConvertAddress(scope.process, address)
  }

  /** Kernel mappings hide process mappings. */
  lemma KernelTakesPrecedence(scope: Scope, address: u64)
    ensures LookupImpl(scope.kernel, address).Some? ==> Convert(scope, address) == ConvertAddress(scope.kernel, address)
    ensures LookupImpl(scope.kernel, address).None? ==> Convert(scope, address) == ConvertAddress(scope.process, address)
    ensures Convert(scope, address).None? <==>
            LookupImpl(scope.kernel, address).None? && LookupImpl(scope.process, address).None?
  {
  }

  function InLib(t: Tables, libs: Libs, library: nat, relative: u32): (Tables, Libs, Location) {
    var (libs', index) := libs.Use(library);
    (t, libs', AddressInLib(relative, index))
  }

  function ResolveAddress(t: Tables, libs: Libs, scope: Scope, address: u64): (Tables, Libs, Location) {
    match Convert(scope, address)
    case Some(r) => InLib(t, libs, r.1, r.0)
    case None => (t, libs, UnknownAddress(address))
  }

  function Resolve(t: Tables, libs: Libs, scope: Scope, frame: Frame): (Tables, Libs, Location)
    requires frame.LabelFrame? ==> frame.text < |scope.texts.strings|
  {
    match frame
    case InstructionPointer(ip) => ResolveAddress(t, libs, scope, ip)
    case ReturnAddress(ra) => ResolveAddress(t, libs, scope, SaturatingSub(ra, 1))
    case AdjustedReturnAddress(ara) => ResolveAddress(t, libs, scope, ara)
    case RelativeAddressFromInstructionPointer(library, relative) => InLib(t, libs, library, relative)
    case RelativeAddressFromReturnAddress(library, relative) => InLib(t, libs, library, SaturatingSub(relative, 1))
    case RelativeAddressFromAdjustedReturnAddress(library, relative) => InLib(t, libs, library, relative)
    case LabelFrame(text) =>
      var (strings, name) := t.strings.Convert(text, scope.texts);
      (t.(strings := strings), libs, Label(name))
  }

  lemma ResolveReady(w: Work, scope: Scope, frame: Frame)
    requires w.Ready() && scope.Valid(w.libs) && Issued(frame, w.libs, scope.texts)
    ensures var (t, libs, location) := Resolve(w.tables, w.libs, scope, frame);
      && libs.Coherent() && t.Usable(libs) && Callable(libs, location)
      && GlobalLibs.Grew(w.libs, libs) && libs.allLibs == w.libs.allLibs && libs.libMap == w.libs.libMap
      && t == w.tables.(strings := t.strings)
  {
    var library: nat :=
      match frame
      case InstructionPointer(ip) => var r := Convert(scope, ip); if r.Some? then r.value.1 else 0
      case ReturnAddress(ra) => var r := Convert(scope, SaturatingSub(ra, 1)); if r.Some? then r.value.1 else 0
      case AdjustedReturnAddress(ara) => var r := Convert(scope, ara); if r.Some? then r.value.1 else 0
      case LabelFrame(_) => 0
      case _ => frame.library;
    if library < |w.libs.allLibs| {
      UseCoherent(w.libs, library);
    }
  }

  function InternFrame(t: Tables, libs: Libs, location: Location, info: FrameInfo): (r: (Tables, Libs, nat))
    requires t.Usable(libs) && Callable(libs, location)
    ensures r.0.Usable(r.1)
  {
    ForFrame(t, libs, InternalFrame(location, info.pair, info.flags))
  }

  function PushFrame(w: Work, prefix: Option<nat>, scope: Scope, info: FrameInfo): (r: (Work, nat))
    requires w.Ready() && scope.Valid(w.libs) && Issued(info.frame, w.libs, scope.texts)
    ensures r.0.Ready() && r.0.libs.allLibs == w.libs.allLibs && r.0.libs.libMap == w.libs.libMap
  {
    ResolveReady(w, scope, info.frame);
    var (t, libs, location) := Resolve(w.tables, w.libs, scope, info.frame);
    var (t', libs', frame) := InternFrame(t, libs, location, info);
    var (stacks, stack) := w.stacks.ForStack(prefix, frame, info.pair);
    ForFrameLibs(t, libs, InternalFrame(location, info.pair, info.flags));
    (Work(t', stacks, libs'), stack)
  }

  /** `stack_index_for_frames`: the frames are pushed from the root to the leaf. */
  function PushFrames(w: Work, scope: Scope, infos: seq<FrameInfo>): (r: (Work, Option<nat>))
    requires w.Ready() && scope.Valid(w.libs) && AllIssued(infos, w.libs, scope.texts)
    ensures r.0.Ready() && r.0.libs.allLibs == w.libs.allLibs && r.0.libs.libMap == w.libs.libMap
  {
    if infos == [] then (w, None)
    else
      var (w1, prefix) := PushFrames(w, scope, infos[..|infos| - 1]);
      var (w2, stack) := PushFrame(w1, prefix, scope, infos[|infos| - 1]);
      (w2, Some(stack))
  }

  lemma ForFrameLibs(t: Tables, libs: Libs, frame: InternalFrame)
    requires t.Usable(libs) && libs.Coherent() && Callable(libs, frame.location)
    ensures var libs' := ForFrame(t, libs, frame).1;
      libs'.Coherent() && libs'.allLibs == libs.allLibs && libs'.libMap == libs.libMap
  {
    DescribeLibs(t, libs, frame.location);
    hide Describe, Frames.Push;
  }

  // ----- what a frame means, and the row that stands for it -----

  datatype Meaning = Mapped(relative: u32, library: nat) | Unmapped(address: u64) | Text(handle: u32)

  function MeaningOfAddress(scope: Scope, address: u64): Meaning {
    match Convert(scope, address)
    case Some(r) => Mapped(r.0, r.1)
    case None => Unmapped(address)
  }

  /** What a caller's frame stands for, whatever the tables hold: return addresses are moved back by one. */
  function MeaningOf(scope: Scope, frame: Frame): Meaning {
    match frame
    case InstructionPointer(ip) => MeaningOfAddress(scope, ip)
    case ReturnAddress(ra) => MeaningOfAddress(scope, SaturatingSub(ra, 1))
    case AdjustedReturnAddress(ara) => MeaningOfAddress(scope, ara)
    case RelativeAddressFromInstructionPointer(library, relative) => Mapped(relative, library)
    case RelativeAddressFromReturnAddress(library, relative) => Mapped(SaturatingSub(relative, 1), library)
    case RelativeAddressFromAdjustedReturnAddress(library, relative) => Mapped(relative, library)
    case LabelFrame(text) => Text(text)
  }

  /** Two frames with the same resolved meaning, category pair and flags. */
  ghost predicate SameFrame(a: FrameInfo, aScope: Scope, b: FrameInfo, bScope: Scope) {
    MeaningOf(aScope, a.frame) == MeaningOf(bScope, b.frame) && a.pair == b.pair && a.flags == b.flags
  }

  ghost predicate Placed(t: Tables, libs: Libs, meaning: Meaning) {
    match meaning
    case Mapped(_, library) => library in libs.usedLibMap
    case Unmapped(_) => true
    case Text(handle) => handle in t.strings.converted
  }

  ghost function LocationOf(t: Tables, libs: Libs, meaning: Meaning): Location
    requires Placed(t, libs, meaning)
  {
    match meaning
    case Mapped(relative, library) => AddressInLib(relative, libs.usedLibMap[library])
    case Unmapped(address) => UnknownAddress(address)
    case Text(handle) => Label(t.strings.converted[handle])
  }

  /** Frame row `row` is the one interned for the frame. */
  ghost predicate Represents(w: Work, row: nat, info: FrameInfo, scope: Scope) {
    var meaning := MeaningOf(scope, info.frame);
    && Placed(w.tables, w.libs, meaning)
    && var key := InternalFrame(LocationOf(w.tables, w.libs, meaning), info.pair, info.flags);
       key in w.tables.frames.index && w.tables.frames.index[key] == row
  }

  lemma UsedLibMapStable(libs: Libs, libs': Libs, library: nat)
    requires libs.Coherent() && libs'.Coherent() && GlobalLibs.Grew(libs, libs') && library in libs.usedLibMap
    ensures library in libs'.usedLibMap && libs'.usedLibMap[library] == libs.usedLibMap[library]
  {
    var i := libs.usedLibMap[library];
    assert libs'.usedLibs[i] == library;
  }

  lemma RepresentsStable(w: Work, w': Work, row: nat, info: FrameInfo, scope: Scope)
    requires Represents(w, row, info, scope) && WorkGrew(w, w') && w.libs.Coherent() && w'.libs.Coherent()
    ensures Represents(w', row, info, scope)
  {
    var meaning := MeaningOf(scope, info.frame);
    if meaning.Mapped? {
      UsedLibMapStable(w.libs, w'.libs, meaning.library);
    }
  }

  lemma ResolvePlaces(w: Work, scope: Scope, frame: Frame)
    requires w.Coherent(scope.texts) && scope.Valid(w.libs) && Issued(frame, w.libs, scope.texts)
    requires Resolve(w.tables, w.libs, scope, frame).0.Fits()
    ensures var (t, libs, location) := Resolve(w.tables, w.libs, scope, frame);
      && t.Coherent(scope.texts, libs) && TablesGrew(w.tables, t) && t.frames == w.tables.frames
      && Known(t, libs, location)
      && Placed(t, libs, MeaningOf(scope, frame)) && LocationOf(t, libs, MeaningOf(scope, frame)) == location
  {
    var (t, libs, location) := Resolve(w.tables, w.libs, scope, frame);
    ResolveReady(w, scope, frame);
    if frame.LabelFrame? {
      ConvertCoherent(w.tables.strings, frame.text, scope.texts);
    }
    TablesCoherentUnderGrowth(w.tables, t, scope.texts, w.libs, libs);
  }

  /** More strings and used libraries around unchanged rows leave the tables coherent. */
  lemma TablesCoherentUnderGrowth(t: Tables, t': Tables, texts: Strings, libs: Libs, libs': Libs)
    requires t.Coherent(texts, libs) && t' == t.(strings := t'.strings) && t'.strings.Coherent(texts)
    requires TablesGrew(t, t') && GlobalLibs.Grew(libs, libs')
    ensures t'.Coherent(texts, libs')
  {
    ResourceTables.CoherentUnderGrowth(t.resources, libs, t.strings.table.strings, libs', t'.strings.table.strings);
    FuncTables.CoherentUnderGrowth(t.funcs, |t.strings.table.strings|, |t.resources.libs|,
                                   |t'.strings.table.strings|, |t'.resources.libs|);
    NativeSymbolTables.CoherentUnderGrowth(t.natives, |t.strings.table.strings|, |libs.usedLibs|,
                                           |t'.strings.table.strings|, |libs'.usedLibs|);
    RowsStable(t, t', texts, libs);
  }

  lemma StackRowsStable(w: Work, w': Work)
    requires w.stacks.Coherent() && w.tables.frames.SameLengths() && w'.tables.frames.SameLengths()
    requires TablesGrew(w.tables, w'.tables) && w'.stacks == w.stacks
    requires forall i :: 0 <= i < |w.stacks.frames| ==> w.StackRowOk(i)
    ensures forall i :: 0 <= i < |w.stacks.frames| ==> w'.StackRowOk(i)
  {
    forall i | 0 <= i < |w.stacks.frames|
      ensures w'.StackRowOk(i)
    {
      assert w.StackRowOk(i);
    }
  }

  lemma TablesGrewTransitive(t0: Tables, t1: Tables, t2: Tables)
    requires TablesGrew(t0, t1) && TablesGrew(t1, t2)
    ensures TablesGrew(t0, t2)
  {
  }

  /** Resolving and interning one frame, without the stack row. */
  lemma InternResolved(w: Work, scope: Scope, info: FrameInfo)
    requires w.Coherent(scope.texts) && scope.Valid(w.libs) && Issued(info.frame, w.libs, scope.texts)
    requires PushFrame(w, None, scope, info).0.tables.Fits()
    ensures var (t, libs, location) := Resolve(w.tables, w.libs, scope, info.frame);
      && Callable(libs, location) && t.Usable(libs)
      && var (t', libs', frame) := InternFrame(t, libs, location, info);
      var meaning := MeaningOf(scope, info.frame);
      && t'.Coherent(scope.texts, libs') && libs'.Coherent() && TablesGrew(w.tables, t') && GlobalLibs.Grew(w.libs, libs')
      && Placed(t', libs', meaning)
      && var key := InternalFrame(LocationOf(t', libs', meaning), info.pair, info.flags);
         key in t'.frames.index && t'.frames.index[key] == frame
  {
    var (t, libs, location) := Resolve(w.tables, w.libs, scope, info.frame);
    var key := InternalFrame(location, info.pair, info.flags);
    ResolveReady(w, scope, info.frame);
    ForFrameNoSmaller(t, libs, key);
    ResolvePlaces(w, scope, info.frame);
    ForFrameCoherent(t, libs, scope.texts, key);
    var (t', libs', _) := ForFrame(t, libs, key);
    LocationStable(t, libs, t', libs', MeaningOf(scope, info.frame));
    TablesGrewTransitive(w.tables, t, t');
  }

  /** One frame pushed: every table stays coherent, and the new stack is the old one plus a row that
      represents the frame. */
  lemma PushFrameCoherent(w: Work, prefix: Option<nat>, scope: Scope, info: FrameInfo)
    requires w.Coherent(scope.texts) && scope.Valid(w.libs) && Issued(info.frame, w.libs, scope.texts)
    requires w.stacks.Holds(prefix) && PushFrame(w, prefix, scope, info).0.tables.Fits()
    ensures var (w', stack) := PushFrame(w, prefix, scope, info);
      && w'.Coherent(scope.texts) && WorkGrew(w, w') && stack < |w'.stacks.prefixes|
      && w'.stacks.prefixes[stack] == prefix
      && Represents(w', w'.stacks.frames[stack], info, scope)
  {
    hide Resolve, InternFrame;
    InternResolved(w, scope, info);
    var (t, libs, location) := Resolve(w.tables, w.libs, scope, info.frame);
    var (t', libs', frame) := InternFrame(t, libs, location, info);
    AssembleStackRow(w, t', libs', prefix, frame, scope, info);
  }

  lemma AssembleStackRow(w: Work, t': Tables, libs': Libs, prefix: Option<nat>, frame: nat, scope: Scope, info: FrameInfo)
    requires w.Coherent(scope.texts) && w.stacks.Holds(prefix)
    requires t'.Coherent(scope.texts, libs') && t'.Usable(libs') && libs'.Coherent()
    requires TablesGrew(w.tables, t') && GlobalLibs.Grew(w.libs, libs')
    requires Placed(t', libs', MeaningOf(scope, info.frame))
    requires var key := InternalFrame(LocationOf(t', libs', MeaningOf(scope, info.frame)), info.pair, info.flags);
      key in t'.frames.index && t'.frames.index[key] == frame
    ensures var (stacks, stack) := w.stacks.ForStack(prefix, frame, info.pair);
      var w' := Work(t', stacks, libs');
      && w'.Coherent(scope.texts) && WorkGrew(w, w') && stack < |stacks.prefixes|
      && stacks.prefixes[stack] == prefix
      && Represents(w', stacks.frames[stack], info, scope)
  {
    hide MeaningOf, Tables.Coherent;
    var key := InternalFrame(LocationOf(t', libs', MeaningOf(scope, info.frame)), info.pair, info.flags);
    ForStackCoherent(w.stacks, prefix, frame, info.pair);
    StackRowsAfterPush(w, t', libs', scope.texts, prefix, frame, key);
  }

  lemma StackRowsAfterPush(w: Work, t': Tables, libs': Libs, texts: Strings, prefix: Option<nat>, frame: nat, key: InternalFrame)
    requires w.Coherent(texts) && w.stacks.Holds(prefix)
    requires t'.Coherent(texts, libs') && TablesGrew(w.tables, t')
    requires key in t'.frames.index && t'.frames.index[key] == frame
    ensures var w' := Work(t', w.stacks.ForStack(prefix, frame, key.pair).0, libs');
      && w'.stacks.Coherent() && t'.frames.SameLengths()
      && forall i :: 0 <= i < |w'.stacks.frames| ==> w'.StackRowOk(i)
  {
    assert t'.KeyOk(key);
    var mid := Work(t', w.stacks, libs');
    StackRowsStable(w, mid);
    NewStackRowOk(mid, prefix, key, frame);
  }

  lemma LocationStable(t: Tables, libs: Libs, t': Tables, libs': Libs, meaning: Meaning)
    requires Placed(t, libs, meaning) && TablesGrew(t, t') && GlobalLibs.Grew(libs, libs')
    requires libs.Coherent() && libs'.Coherent()
    ensures Placed(t', libs', meaning) && LocationOf(t', libs', meaning) == LocationOf(t, libs, meaning)
  {
    if meaning.Mapped? {
      UsedLibMapStable(libs, libs', meaning.library);
    }
  }

  lemma NewStackRowOk(w: Work, prefix: Option<nat>, key: InternalFrame, frame: nat)
    requires w.stacks.Coherent() && w.stacks.Holds(prefix) && w.tables.frames.SameLengths() && w.tables.natives.SameLengths()
    requires |w.tables.funcs.names| == |w.tables.funcs.resources| == |w.tables.funcs.flags|
    requires key in w.tables.frames.index && w.tables.frames.index[key] == frame && w.tables.KeyOk(key)
    requires forall i :: 0 <= i < |w.stacks.frames| ==> w.StackRowOk(i)
    ensures var w' := w.(stacks := w.stacks.ForStack(prefix, frame, key.pair).0);
      w'.stacks.Coherent() && forall i :: 0 <= i < |w'.stacks.frames| ==> w'.StackRowOk(i)
  {
    ForStackCoherent(w.stacks, prefix, frame, key.pair);
    var w' := w.(stacks := w.stacks.ForStack(prefix, frame, key.pair).0);
    forall i | 0 <= i < |w'.stacks.frames|
      ensures w'.StackRowOk(i)
    {
      if i < |w.stacks.frames| {
        assert w.StackRowOk(i);
      }
    }
  }

  ghost predicate RepresentsAll(w: Work, rows: seq<nat>, infos: seq<FrameInfo>, scope: Scope) {
    |rows| == |infos| && forall k :: 0 <= k < |rows| ==> Represents(w, rows[k], infos[k], scope)
  }

  lemma PushFrameNoSmaller(w: Work, prefix: Option<nat>, scope: Scope, info: FrameInfo)
    requires w.Ready() && scope.Valid(w.libs) && Issued(info.frame, w.libs, scope.texts)
    ensures NoSmaller(w.tables, PushFrame(w, prefix, scope, info).0.tables)
  {
    ResolveReady(w, scope, info.frame);
    var (t, libs, location) := Resolve(w.tables, w.libs, scope, info.frame);
    ForFrameNoSmaller(t, libs, InternalFrame(location, info.pair, info.flags));
  }

  lemma {:induction false} PushFramesNoSmaller(w: Work, scope: Scope, infos: seq<FrameInfo>)
    requires w.Ready() && scope.Valid(w.libs) && AllIssued(infos, w.libs, scope.texts)
    ensures NoSmaller(w.tables, PushFrames(w, scope, infos).0.tables)
    ensures infos != [] ==>
      NoSmaller(PushFrames(w, scope, infos[..|infos| - 1]).0.tables, PushFrames(w, scope, infos).0.tables)
  {
    hide PushFrame;
    if infos != [] {
      PushFramesNoSmaller(w, scope, infos[..|infos| - 1]);
      var (w1, prefix) := PushFrames(w, scope, infos[..|infos| - 1]);
      PushFrameNoSmaller(w1, prefix, scope, infos[|infos| - 1]);
    }
  }

  lemma RepresentsAllStable(w: Work, w': Work, rows: seq<nat>, infos: seq<FrameInfo>, scope: Scope)
    requires RepresentsAll(w, rows, infos, scope) && WorkGrew(w, w') && w.libs.Coherent() && w'.libs.Coherent()
    ensures RepresentsAll(w', rows, infos, scope)
  {
    forall k | 0 <= k < |rows|
      ensures Represents(w', rows[k], infos[k], scope)
    {
      RepresentsStable(w, w', rows[k], infos[k], scope);
    }
  }

  lemma WorkGrewReflexive(w: Work)
    ensures WorkGrew(w, w)
  {
  }

  lemma WorkGrewTransitive(w0: Work, w1: Work, w2: Work)
    requires WorkGrew(w0, w1) && WorkGrew(w1, w2)
    ensures WorkGrew(w0, w2)
  {
    TablesGrewTransitive(w0.tables, w1.tables, w2.tables);
  }

  /** Walking the tree from the returned index gives one row per frame passed in, in order, each
      representing its frame; everything stored before is still there. */
  lemma {:induction false} PushFramesRoundTrip(w: Work, scope: Scope, infos: seq<FrameInfo>)
    requires w.Coherent(scope.texts) && scope.Valid(w.libs) && AllIssued(infos, w.libs, scope.texts)
    requires PushFrames(w, scope, infos).0.tables.Fits()
    ensures var (w', stack) := PushFrames(w, scope, infos);
      && w'.Coherent(scope.texts) && WorkGrew(w, w') && w'.stacks.Holds(stack)
      && RepresentsAll(w', w'.stacks.FramesOf(stack), infos, scope)
  {
    hide PushFrame, Tables.Coherent, TablesGrew;
    WorkGrewReflexive(w);
    if infos != [] {
      var before, info := infos[..|infos| - 1], infos[|infos| - 1];
      PushFramesNoSmaller(w, scope, infos);
      PushFramesRoundTrip(w, scope, before);
      var (w1, prefix) := PushFrames(w, scope, before);
      PushOneMore(w1, prefix, scope, before, info);
      WorkGrewTransitive(w, w1, PushFrame(w1, prefix, scope, info).0);
      assert before + [info] == infos;
    }
  }

  lemma PushOneMore(w1: Work, prefix: Option<nat>, scope: Scope, before: seq<FrameInfo>, info: FrameInfo)
    requires w1.Coherent(scope.texts) && scope.Valid(w1.libs) && Issued(info.frame, w1.libs, scope.texts)
    requires w1.stacks.Holds(prefix) && PushFrame(w1, prefix, scope, info).0.tables.Fits()
    requires RepresentsAll(w1, w1.stacks.FramesOf(prefix), before, scope)
    ensures var (w', stack) := PushFrame(w1, prefix, scope, info);
      && w'.Coherent(scope.texts) && WorkGrew(w1, w') && w'.stacks.Holds(Some(stack))
      && RepresentsAll(w', w'.stacks.FramesOf(Some(stack)), before + [info], scope)
  {
    hide PushFrame, Tables.Coherent, TablesGrew;
    PushFrameCoherent(w1, prefix, scope, info);
    var (w', stack) := PushFrame(w1, prefix, scope, info);
    FramesOfStable(w1.stacks, w'.stacks, prefix);
    RepresentsAllStable(w1, w', w1.stacks.FramesOf(prefix), before, scope);
    assert w'.stacks.FramesOf(Some(stack)) == w1.stacks.FramesOf(prefix) + [w'.stacks.frames[stack]];
  }

  // ----- one index per call stack -----

  /** Two frames are represented by the same row exactly when their resolved meaning, category pair and flags agree. */
  lemma RowsIdentifyFrames(w: Work, row: nat, a: FrameInfo, aScope: Scope, otherRow: nat, b: FrameInfo, bScope: Scope, texts: Strings)
    requires w.Coherent(texts) && texts.Coherent()
    requires Represents(w, row, a, aScope) && Represents(w, otherRow, b, bScope)
    ensures row == otherRow <==> SameFrame(a, aScope, b, bScope)
  {
    var ma, mb := MeaningOf(aScope, a.frame), MeaningOf(bScope, b.frame);
    var ka := InternalFrame(LocationOf(w.tables, w.libs, ma), a.pair, a.flags);
    var kb := InternalFrame(LocationOf(w.tables, w.libs, mb), b.pair, b.flags);
    assert w.tables.frames.OneKeyPerRow();
    if ma.Mapped? && mb.Mapped? && w.libs.usedLibMap[ma.library] == w.libs.usedLibMap[mb.library] {
      assert ma.library == w.libs.usedLibs[w.libs.usedLibMap[ma.library]] == mb.library;
    }
    if ma.Text? && mb.Text? && LocationOf(w.tables, w.libs, ma) == LocationOf(w.tables, w.libs, mb) {
      assert texts.strings[ma.handle] == texts.strings[mb.handle];
      IndexIdentifiesString(texts, ma.handle, mb.handle);
    }
  }

  ghost predicate SameFrames(a: seq<FrameInfo>, aScope: Scope, b: seq<FrameInfo>, bScope: Scope) {
    |a| == |b| && forall k :: 0 <= k < |a| ==> SameFrame(a[k], aScope, b[k], bScope)
  }

  /** Two stack indexes of a thread are equal exactly when the call stacks they were made from are the
      same, however far apart and under whatever mappings they were added. */
  lemma StacksIdentifyCallStacks(w: Work, stack: Option<nat>, a: seq<FrameInfo>, aScope: Scope,
                                 other: Option<nat>, b: seq<FrameInfo>, bScope: Scope, texts: Strings)
    requires w.Coherent(texts) && texts.Coherent() && w.stacks.Holds(stack) && w.stacks.Holds(other)
    requires RepresentsAll(w, w.stacks.FramesOf(stack), a, aScope)
    requires RepresentsAll(w, w.stacks.FramesOf(other), b, bScope)
    ensures stack == other <==> SameFrames(a, aScope, b, bScope)
  {
    var ra, rb := w.stacks.FramesOf(stack), w.stacks.FramesOf(other);
    FramesIdentifyStack(w.stacks, stack, other);
    forall k | 0 <= k < |a| && k < |b|
      ensures ra[k] == rb[k] <==> SameFrame(a[k], aScope, b[k], bScope)
    {
      assert Represents(w, ra[k], a[k], aScope) && Represents(w, rb[k], b[k], bScope);
      RowsIdentifyFrames(w, ra[k], a[k], aScope, rb[k], b[k], bScope, texts);
    }
    if |ra| == |rb| && (forall k :: 0 <= k < |a| ==> SameFrame(a[k], aScope, b[k], bScope)) {
      forall k | 0 <= k < |ra|
        ensures ra[k] == rb[k]
      {
        assert SameFrame(a[k], aScope, b[k], bScope);
      }
      assert ra == rb;
    }
  }

  /** The columns of a row read back a frame: its address and library or its text, its category pair and
      its flags. An address in a library is named after the symbol of that library it belongs to, or
      printed in hex. */
  ghost predicate RowShows(w: Work, texts: Strings, row: nat, info: FrameInfo, scope: Scope)
    requires w.tables.frames.SameLengths() && w.tables.natives.SameLengths()
    requires |w.tables.funcs.names| == |w.tables.funcs.resources| == |w.tables.funcs.flags|
  {
    var t := w.tables;
    && row < |t.frames.funcs| && t.frames.funcs[row] < |t.funcs.names|
    && t.funcs.names[t.frames.funcs[row]] < |t.strings.table.strings|
    && t.frames.categories[row] == info.pair.category
    && (match info.pair.subcategory
        case Some(index) => t.frames.subcategories[row] == Normal(index)
        case None => t.frames.subcategories[row] == Subcategory.Other(info.pair.category))
    && t.funcs.flags[t.frames.funcs[row]] == info.flags
    && var text := t.strings.table.strings[t.funcs.names[t.frames.funcs[row]]];
       match MeaningOf(scope, info.frame)
       case Mapped(relative, library) =>
         && t.frames.addresses[row] == Some(relative)
         && t.LibOf(row).Some? && t.LibOf(row).value < |w.libs.usedLibs| && w.libs.usedLibs[t.LibOf(row).value] == library
         && (match t.frames.nativeSymbols[row]
             case None => ShowsHex(text, relative)
             case Some(n) =>
               && n < |t.natives.names| && t.natives.libs[n] == t.LibOf(row).value && t.natives.addresses[n] <= relative
               && t.natives.names[n] < |t.strings.table.strings| && t.strings.table.strings[t.natives.names[n]] == text)
       case Unmapped(address) =>
         && t.frames.addresses[row] == None && t.LibOf(row) == None && t.frames.nativeSymbols[row] == None
         && ShowsHex(text, address)
       case Text(handle) =>
         && t.frames.addresses[row] == None && t.LibOf(row) == None && t.frames.nativeSymbols[row] == None
         && handle < |texts.strings| && text == texts.strings[handle]
  }

  /** The row that represents a frame shows it, however many strings were added since it was recorded. */
  lemma RepresentingRowShowsFrame(w: Work, texts: Strings, row: nat, info: FrameInfo, scope: Scope)
    requires w.Coherent(texts) && Represents(w, row, info, scope)
    ensures RowShows(w, texts, row, info, scope)
  {
    var key := InternalFrame(LocationOf(w.tables, w.libs, MeaningOf(scope, info.frame)), info.pair, info.flags);
    assert w.tables.KeyOk(key) && w.tables.RowOk(row);
    hide ShowsHex, HexLabel;
    match MeaningOf(scope, info.frame) {
      case Mapped(relative, _) => HexLabelReads(HexLabel(relative), relative);
      case Unmapped(address) => HexLabelReads(HexLabel(address), address);
      case Text(_) =>
    }
  }

  // ----- addresses seen -----

  /** Resolving a frame leaves every address set and every row as it was. */
  lemma ResolveRvas(w: Work, scope: Scope, frame: Frame, lib: nat, a: u32)
    requires w.Coherent(scope.texts) && scope.Valid(w.libs) && Issued(frame, w.libs, scope.texts)
    requires Resolve(w.tables, w.libs, scope, frame).0.Fits()
    ensures var (t, libs, _) := Resolve(w.tables, w.libs, scope, frame);
      && t.frames.SameLengths()
      && (t.Sees(lib, a) <==> w.tables.Sees(lib, a))
      && (a in SeenAt(libs, lib) <==> a in SeenAt(w.libs, lib))
  {
    ResolvePlaces(w, scope, frame);
    SeesStable(w.tables, Resolve(w.tables, w.libs, scope, frame).0, scope.texts, w.libs, lib, a);
  }

  ghost predicate SeenSoFar(w: Work, lib: nat, a: u32)
    requires w.tables.frames.SameLengths()
  {
    w.tables.Sees(lib, a) ==> a in SeenAt(w.libs, lib)
  }

  lemma PushFrameRvas(w: Work, prefix: Option<nat>, scope: Scope, info: FrameInfo, lib: nat, a: u32)
    requires w.Coherent(scope.texts) && scope.Valid(w.libs) && Issued(info.frame, w.libs, scope.texts)
    requires PushFrame(w, prefix, scope, info).0.tables.Fits() && SeenSoFar(w, lib, a)
    ensures var w' := PushFrame(w, prefix, scope, info).0;
      && w'.tables.frames.SameLengths()
      && (w.tables.Sees(lib, a) ==> w'.tables.Sees(lib, a))
      && (a in SeenAt(w'.libs, lib) <==> a in SeenAt(w.libs, lib) || w'.tables.Sees(lib, a))
  {
    var (t, libs, location) := Resolve(w.tables, w.libs, scope, info.frame);
    var key := InternalFrame(location, info.pair, info.flags);
    ResolveReady(w, scope, info.frame);
    ForFrameNoSmaller(t, libs, key);
    ResolvePlaces(w, scope, info.frame);
    ResolveRvas(w, scope, info.frame, lib, a);
    ForFrameRvas(t, libs, scope.texts, key, lib, a);
  }

  /** Pushing a call stack records an address exactly when it adds an unsymbolicated row for it. */
  lemma {:induction false} PushFramesRvas(w: Work, scope: Scope, infos: seq<FrameInfo>, lib: nat, a: u32)
    requires w.Coherent(scope.texts) && scope.Valid(w.libs) && AllIssued(infos, w.libs, scope.texts)
    requires PushFrames(w, scope, infos).0.tables.Fits() && SeenSoFar(w, lib, a)
    ensures var w' := PushFrames(w, scope, infos).0;
      && w'.tables.frames.SameLengths()
      && (w.tables.Sees(lib, a) ==> w'.tables.Sees(lib, a))
      && (a in SeenAt(w'.libs, lib) <==> a in SeenAt(w.libs, lib) || w'.tables.Sees(lib, a))
  {
    hide PushFrame, TablesGrew;
    if infos != [] {
      var before, info := infos[..|infos| - 1], infos[|infos| - 1];
      PushFramesNoSmaller(w, scope, infos);
      PushFramesRoundTrip(w, scope, before);
      PushFramesRvas(w, scope, before, lib, a);
      var (w1, prefix) := PushFrames(w, scope, before);
      PushFrameRvas(w1, prefix, scope, info, lib, a);
    }
  }
}
