/** Markers of a profile read back with the values they were added with, and with the stack set on them
    last, whatever calls follow. */
module MarkerReadBack {
  import opened CallStacks
  import opened FrameTables
  import MarkerRoundTrip
  import opened MarkerTables
  import opened Prelude
  import opened ProfileInvariant
  import opened ProfileModel
  import opened ProfileReadBack
  import opened ProfileRuns
  import opened StringTables
  import opened Threads

  // ----- markers -----

  /** The markers of a thread with the schemas and strings they are read with. */
  ghost function MarkerState(p: ProfileState, t: nat): MarkerRoundTrip.State
    requires t < |p.threads|
  {
    MarkerRoundTrip.State(p.threads[t].markers, p.threads[t].tables.strings, p.schemas, p.strings, [])
  }

  lemma CoherentMarkers(p: ProfileState, t: nat)
    requires Coherent(p) && t < |p.threads|
    ensures MarkerRoundTrip.WellFormed(MarkerState(p, t)) && p.threads[t].tables.strings.Coherent(p.strings)
  {
    assert p.threads[t].Ok(p.libs, p.strings, p.schemas);
    hide Splittable;
  }

  /** The element written for row `row` of a thread's markers. */
  ghost function ElementAt(p: ProfileState, t: nat, row: nat): Element
    requires t < |p.threads| && MarkerRoundTrip.WellFormed(MarkerState(p, t)) && row < |p.threads[t].markers.types|
  {
    MarkerRoundTrip.Data(MarkerState(p, t))[row]
  }

  /** The entry of field k holds the marker's value for that field; a unique string is written as an index
      into the thread's own strings. */
  ghost predicate EntryReads(entry: (string, Value), field: Field, k: nat, marker: Marker, texts: Strings, own: seq<string>) {
    && entry.0 == field.key
    && match field.format
       case UniqueString =>
         && marker.stringFieldValue(k) < |texts.strings|
         && entry.1.StringIndex? && entry.1.index < |own|
         && own[entry.1.index] == texts.strings[marker.stringFieldValue(k)]
       case Url | FilePath | SanitizedString =>
         marker.stringFieldValue(k) < |texts.strings| && entry.1 == Value.Text(texts.strings[marker.stringFieldValue(k)])
       case Duration | Time | Seconds | Milliseconds | Microseconds | Nanoseconds | Bytes | Percentage | Integer | Decimal =>
         entry.1 == Number(marker.numberFieldValue(k))
  }

  /** The element has the marker's type and one entry per field, in order, with the marker's values. */
  ghost predicate ElementReads(e: Element, marker: Marker, p: ProfileState, own: seq<string>) {
    && marker.markerType < |p.schemas|
    && var schema := p.schemas[marker.markerType];
    && e.typeName == schema.typeName && |e.entries| == |schema.fields|
    && forall k :: 0 <= k < |schema.fields| ==> EntryReads(e.entries[k], schema.fields[k], k, marker, p.strings, own)
  }

  lemma ShownElementReads(p: ProfileState, t: nat, e: Element, marker: Marker)
    requires t < |p.threads| && MarkerRoundTrip.WellFormed(MarkerState(p, t))
    requires MarkerRoundTrip.ShowsMarker(e, marker, MarkerState(p, t))
    ensures ElementReads(e, marker, p, p.threads[t].tables.strings.table.strings)
  {
    hide Splittable;
    var fields, strings := p.schemas[marker.markerType].fields, p.threads[t].tables.strings;
    forall k | 0 <= k < |fields|
      ensures EntryReads(e.entries[k], fields[k], k, marker, p.strings, strings.table.strings)
    {
      assert fields[0 + k] == fields[k];
      assert e.entries[k] == (fields[k].key, MarkerRoundTrip.OwnValue(fields[k], k, marker, strings.converted, p.strings));
    }
  }

  /** The columns of row `row` hold the marker's category, name and timing. */
  ghost predicate RowReads(p: ProfileState, t: nat, row: nat, marker: Marker, timing: Timing) {
    && t < |p.threads| && p.threads[t].markers.SameLengths() && row < |p.threads[t].markers.types|
    && var m, own := p.threads[t].markers, p.threads[t].tables.strings.table.strings;
    && m.categories[row] == marker.category && TimingShown(timing, m.starts[row], m.ends[row], m.phases[row])
    && m.names[row] < |own| && marker.name < |p.strings.strings| && own[m.names[row]] == p.strings.strings[marker.name]
  }

  /** Row `row` of a thread's markers, in its columns and as written, shows the marker. */
  ghost predicate MarkerReads(p: ProfileState, t: nat, row: nat, marker: Marker, timing: Timing) {
    && RowReads(p, t, row, marker, timing) && MarkerRoundTrip.WellFormed(MarkerState(p, t))
    && ElementReads(ElementAt(p, t, row), marker, p, p.threads[t].tables.strings.table.strings)
    && ElementAt(p, t, row).stack == p.threads[t].markers.stacks[row]
  }

  /** The row's element shows the marker through the thread's cache of converted strings. */
  ghost predicate ElementShows(p: ProfileState, t: nat, row: nat, marker: Marker) {
    && t < |p.threads| && MarkerRoundTrip.WellFormed(MarkerState(p, t)) && row < |p.threads[t].markers.types|
    && MarkerRoundTrip.ShowsMarker(ElementAt(p, t, row), marker, MarkerState(p, t))
  }

  /** The thread once the marker's name is converted. */
  ghost function Named(p: ProfileState, op: Op): MarkerRoundTrip.State
    requires p.Sound() && Allowed(p, op) && op.AddMarker?
  {
    MarkerState(p, op.thread).(thread := p.threads[op.thread].tables.strings.Convert(op.marker.name, p.strings).0)
  }

  /** The step on the named state that the call makes. */
  ghost function NamedOp(p: ProfileState, op: Op): MarkerRoundTrip.Op
    requires p.Sound() && Allowed(p, op) && op.AddMarker?
  {
    MarkerRoundTrip.AddMarker(p.threads[op.thread].tables.strings.Convert(op.marker.name, p.strings).1, op.marker, op.timing)
  }

  lemma MarkerStepUnfolds(p: ProfileState, op: Op)
    requires p.Sound() && Allowed(p, op) && op.AddMarker?
    ensures var t, p' := op.thread, Step(p, op);
      && t < |p.threads| == |p'.threads| && p'.strings == p.strings && op.marker.name < |p.strings.strings|
      && Named(p, op).markers == p.threads[t].markers
      && MarkerRoundTrip.Allowed(Named(p, op), NamedOp(p, op))
      && MarkerState(p', t).(log := [(op.marker, None)]) == MarkerRoundTrip.Step(Named(p, op), NamedOp(p, op))
  {
    hide ProfileState.Sound;
  }

  lemma MarkerStepFits(p: ProfileState, op: Op)
    requires p.Sound() && Allowed(p, op) && op.AddMarker? && Fits(Step(p, op))
    requires op.thread < |p.threads| == |Step(p, op).threads|
    requires MarkerRoundTrip.Allowed(Named(p, op), NamedOp(p, op))
    requires MarkerState(Step(p, op), op.thread).(log := [(op.marker, None)]) == MarkerRoundTrip.Step(Named(p, op),
      NamedOp(p, op))
    ensures MarkerRoundTrip.Fits(MarkerRoundTrip.Step(Named(p, op), NamedOp(p, op)))
    ensures |Named(p, op).thread.table.strings| <= U32_LIMIT
  {
    hide ProfileState.Sound, Step, Allowed, MarkerRoundTrip.Step, MarkerRoundTrip.Allowed, Named, NamedOp;
    assert Step(p, op).threads[op.thread].tables.Fits();
    MarkerRoundTrip.StepOnlyGrows(Named(p, op), NamedOp(p, op));
  }

  lemma NamedIsWellFormed(p: ProfileState, op: Op)
    requires Coherent(p) && Allowed(p, op) && op.AddMarker?
    requires |Named(p, op).thread.table.strings| <= U32_LIMIT
    ensures MarkerRoundTrip.WellFormed(Named(p, op))
    ensures var (strings, name) := p.threads[op.thread].tables.strings.Convert(op.marker.name, p.strings);
      name < |strings.table.strings| && strings.table.strings[name] == p.strings.strings[op.marker.name]
  {
    CoherentMarkers(p, op.thread);
    hide Coherent, ProfileState.Sound;
    ConvertCoherent(p.threads[op.thread].tables.strings, op.marker.name, p.strings);
    var st, st' := MarkerState(p, op.thread), Named(p, op);
    MarkerRoundTrip.ColumnGrows(st.markers.types, st.markers.stacks, st.markers.strings, st.markers.numbers,
      st.schemas, st.global, |st.thread.table.strings|, st'.schemas, st'.global, |st'.thread.table.strings|);
  }

  /** What the step on the markers stored is what the profile's thread holds. */
  lemma StoredRowReads(p: ProfileState, t: nat, st: MarkerRoundTrip.State, st': MarkerRoundTrip.State,
    mop: MarkerRoundTrip.Op)
    requires mop.AddMarker? && t < |p.threads| && MarkerState(p, t).(log := [(mop.marker, None)]) == st'
    requires MarkerRoundTrip.RowAdded(st.markers, st'.markers, mop) && MarkerRoundTrip.Grew(st, st')
      && MarkerRoundTrip.WellFormed(st')
    requires mop.name < |st.thread.table.strings| && mop.marker.name < |p.strings.strings|
    requires st.thread.table.strings[mop.name] == p.strings.strings[mop.marker.name]
    ensures RowReads(p, t, |st.markers.types|, mop.marker, mop.timing)
  {
    hide Splittable, TimingShown;
  }

  lemma StoredElementShows(p: ProfileState, t: nat, st': MarkerRoundTrip.State, row: nat, marker: Marker)
    requires t < |p.threads| && MarkerState(p, t).(log := [(marker, None)]) == st'
    requires MarkerRoundTrip.WellFormed(st') && row < |MarkerRoundTrip.Data(st')|
    requires MarkerRoundTrip.ShowsMarker(MarkerRoundTrip.Data(st')[row], marker, st')
    ensures ElementShows(p, t, row, marker)
  {
    hide Splittable;
  }

  lemma MarkerStoredAfterStep(p: ProfileState, op: Op)
    requires Coherent(p) && Allowed(p, op) && Fits(Step(p, op)) && op.AddMarker?
    ensures var row := |p.threads[op.thread].markers.types|;
      RowReads(Step(p, op), op.thread, row, op.marker, op.timing) && ElementShows(Step(p, op), op.thread, row, op.marker)
  {
    hide *;
    CoherentIsSound(p);
    MarkerStepUnfolds(p, op);
    MarkerStepFits(p, op);
    NamedIsWellFormed(p, op);
    var st, mop := Named(p, op), NamedOp(p, op);
    NamedOpIs(p, op);
    UsableMarkers(st);
    MarkerRoundTrip.AddedMarkerShows(st, mop);
    MarkerRoundTrip.AddedRow(st, mop);
    StoredRowReads(Step(p, op), op.thread, st, MarkerRoundTrip.Step(st, mop), mop);
    StoredElementShows(Step(p, op), op.thread, MarkerRoundTrip.Step(st, mop), |st.markers.types|, op.marker);
  }

  lemma UsableMarkers(st: MarkerRoundTrip.State)
    requires MarkerRoundTrip.WellFormed(st)
    ensures st.markers.SameLengths()
  {
    hide Splittable;
  }

  lemma NamedOpIs(p: ProfileState, op: Op)
    requires Coherent(p) && p.Sound() && Allowed(p, op) && op.AddMarker?
    ensures var mop, (strings, name) := NamedOp(p, op), p.threads[op.thread].tables.strings.Convert(op.marker.name,
      p.strings);
      mop.AddMarker? && mop.name == name && mop.marker == op.marker && mop.timing == op.timing
        && Named(p, op).thread == strings
  {
    hide ProfileState.Sound, Coherent;
  }

  lemma RowStable(p: ProfileState, p': ProfileState, t: nat, row: nat, marker: Marker, timing: Timing)
    requires RowReads(p, t, row, marker, timing) && Remembers(p, p')
    requires p'.threads[t].markers.SameLengths()
    ensures RowReads(p', t, row, marker, timing)
  {
    assert ThreadRemembers(p.threads[t], p.libs, p'.threads[t], p'.libs);
  }

  lemma ElementStaysShown(p: ProfileState, p': ProfileState, t: nat, row: nat, marker: Marker)
    requires ElementShows(p, t, row, marker) && Remembers(p, p') && MarkerRoundTrip.WellFormed(MarkerState(p', t))
    ensures ElementShows(p', t, row, marker)
  {
    assert ThreadRemembers(p.threads[t], p.libs, p'.threads[t], p'.libs);
    hide Splittable;
    MarkerRoundTrip.ElementStable(MarkerState(p, t), MarkerState(p', t), row, marker);
  }

  lemma ShownMarkerReads(p: ProfileState, t: nat, row: nat, marker: Marker, timing: Timing)
    requires RowReads(p, t, row, marker, timing) && ElementShows(p, t, row, marker)
    ensures MarkerReads(p, t, row, marker, timing)
  {
    var st := MarkerState(p, t);
    ShownElementReads(p, t, ElementAt(p, t, row), marker);
    MarkerRoundTrip.ColumnStack(st.markers.types, st.markers.stacks, st.markers.strings, st.markers.numbers,
                                st.schemas, st.global, |st.thread.table.strings|, row);
  }

  /** A recorded marker reads back with its name, category, timing and field values, whatever calls follow. */
  lemma RecordedMarkerReadsBack(ops: seq<Op>, op: Op, more: seq<Op>, p: ProfileState)
    requires op.AddMarker? && AllowedRun(ops) && p == Run(ops)
    requires AllowedRun(ops + [op] + more) && Fits(Run(ops + [op] + more)) && op.thread < |p.threads|
    ensures MarkerReads(Run(ops + [op] + more), op.thread, |p.threads[op.thread].markers.types|, op.marker, op.timing)
  {
    hide *;
    AroundCall(ops, op, more);
    var t, row := op.thread, |p.threads[op.thread].markers.types|;
    var p1, p2 := Step(p, op), Run(ops + [op] + more);
    MarkerStoredAfterStep(p, op);
    MarkerStaysStored(p1, p2, t, row, op.marker, op.timing);
    ShownMarkerReads(p2, t, row, op.marker, op.timing);
  }

  lemma MarkerStaysStored(p: ProfileState, p': ProfileState, t: nat, row: nat, marker: Marker, timing: Timing)
    requires RowReads(p, t, row, marker, timing) && ElementShows(p, t, row, marker)
    requires Remembers(p, p') && Coherent(p')
    ensures RowReads(p', t, row, marker, timing) && ElementShows(p', t, row, marker)
  {
    assert t < |p'.threads|;
    hide Remembers, Coherent, ElementShows;
    CoherentMarkers(p', t);
    RowStable(p, p', t, row, marker, timing);
    ElementStaysShown(p, p', t, row, marker);
  }

  // ----- marker stacks -----

  /** The call is not one that sets this marker's stack. */
  predicate LeavesMarkerStack(op: Op, t: nat, marker: nat) {
    op.SetMarkerStack? ==> op.thread != t || op.markerIndex != marker
  }

  /** The marker still has the stack it had. */
  ghost predicate SameMarkerStack(p: ProfileState, p': ProfileState, t: nat, marker: nat)
    requires t < |p.threads| && marker < |p.threads[t].markers.stacks|
  {
    && t < |p'.threads| && marker < |p'.threads[t].markers.stacks|
    && p'.threads[t].markers.stacks[marker] == p.threads[t].markers.stacks[marker]
  }

  lemma StackCallKeepsMarkerStack(p: ProfileState, op: Op, t: nat, marker: nat)
    requires p.Sound() && Allowed(p, op) && LeavesMarkerStack(op, t, marker) && (op.AddSample? || op.SetMarkerStack?)
    requires t < |p.threads| && marker < |p.threads[t].markers.stacks|
    ensures SameMarkerStack(p, Step(p, op), t, marker)
  {
    hide ProfileState.Sound, PushStack, AllIssued;
  }

  lemma AllocationKeepsMarkerStack(p: ProfileState, op: Op, t: nat, marker: nat)
    requires p.Sound() && Allowed(p, op) && op.AddAllocationSample?
    requires t < |p.threads| && marker < |p.threads[t].markers.stacks|
    ensures SameMarkerStack(p, Step(p, op), t, marker)
  {
    ScopeForValid(p, op.thread);
    hide ProfileState.Sound, PushStack, AllIssued;
  }

  lemma PlainCallKeepsMarkerStack(p: ProfileState, op: Op, t: nat, marker: nat)
    requires p.Sound() && Allowed(p, op) && !op.AddSample? && !op.SetMarkerStack? && !op.AddAllocationSample?
    requires t < |p.threads| && marker < |p.threads[t].markers.stacks|
    ensures SameMarkerStack(p, Step(p, op), t, marker)
  {
    hide ProfileState.Sound;
  }

  lemma StepKeepsMarkerStack(p: ProfileState, op: Op, t: nat, marker: nat)
    requires p.Sound() && Allowed(p, op) && LeavesMarkerStack(op, t, marker)
    requires t < |p.threads| && marker < |p.threads[t].markers.stacks|
    ensures SameMarkerStack(p, Step(p, op), t, marker)
  {
    hide *;
    if op.AddSample? || op.SetMarkerStack? {
      StackCallKeepsMarkerStack(p, op, t, marker);
    } else if op.AddAllocationSample? {
      AllocationKeepsMarkerStack(p, op, t, marker);
    } else {
      PlainCallKeepsMarkerStack(p, op, t, marker);
    }
  }

  lemma {:induction false} RunKeepsMarkerStack(ops: seq<Op>, more: seq<Op>, t: nat, marker: nat)
    requires AllowedRun(ops) && AllowedRun(ops + more) && forall o :: o in more ==> LeavesMarkerStack(o, t, marker)
    requires t < |Run(ops).threads| && marker < |Run(ops).threads[t].markers.stacks|
    ensures SameMarkerStack(Run(ops), Run(ops + more), t, marker)
    decreases |more|
  {
    hide Step, Run, AllowedRun, Allowed, LeavesMarkerStack, ProfileState.Sound;
    if more == [] {
      assert ops + more == ops;
    } else {
      var before, op := ops + more[..|more| - 1], more[|more| - 1];
      assert before + [op] == ops + more;
      RunUnfolds(before, op);
      RunKeepsMarkerStack(ops, more[..|more| - 1], t, marker);
      StepKeepsMarkerStack(Run(before), op, t, marker);
    }
  }

  /** The stack of a marker stands for these frames, and shows them. */
  ghost predicate MarkerStackReads(p: ProfileState, t: nat, marker: nat, frames: seq<FrameInfo>, scope: Scope) {
    && t < |p.threads| && marker < |p.threads[t].markers.stacks|
    && StackReads(p, t, p.threads[t].markers.stacks[marker], frames, scope)
    && StackShows(p, t, p.threads[t].markers.stacks[marker], frames, scope)
  }

  lemma MarkerStackReadsAfterStep(p: ProfileState, op: Op)
    requires Coherent(p) && Allowed(p, op) && Fits(Step(p, op)) && op.SetMarkerStack?
    ensures var p' := Step(p, op);
      && op.thread < |p'.threads| && op.markerIndex < |p'.threads[op.thread].markers.stacks|
      && StackReads(p', op.thread, p'.threads[op.thread].markers.stacks[op.markerIndex], op.frames, p.ScopeFor(op.thread))
  {
    hide ThreadState.Ok, RvasExact, PushStack, StackReads;
    assert MarkerStackSet(p, op.thread, op.markerIndex, op.frames).threads[op.thread].tables.Fits();
    PushStackRemembers(p, op.thread, op.frames);
    hide Coherent, ProfileState.Sound, Remembers, Tables.Coherent;
    var (p1, stack) := PushStack(p, op.thread, op.frames);
    UpdateKeepsStack(p1, Step(p, op), op.thread, stack, op.frames, p.ScopeFor(op.thread));
  }

  /** The stack set on a marker reads back until another one is set on the same marker. */
  lemma MarkerStackReadsBack(ops: seq<Op>, op: Op, more: seq<Op>, p: ProfileState)
    requires op.SetMarkerStack? && AllowedRun(ops) && p == Run(ops)
    requires AllowedRun(ops + [op] + more) && Fits(Run(ops + [op] + more)) && op.thread < |p.threads|
    requires forall o :: o in more ==> LeavesMarkerStack(o, op.thread, op.markerIndex)
    ensures p.threads[op.thread].process < |p.processes|
    ensures MarkerStackReads(Run(ops + [op] + more), op.thread, op.markerIndex, op.frames, p.ScopeFor(op.thread))
  {
    assert p.threads[op.thread].process < |p.processes|;
    AroundCall(ops, op, more);
    var p1, p2 := Step(p, op), Run(ops + [op] + more);
    assert p1.Sound();
    hide Coherent, ProfileState.Sound, Fits, Allowed, Step, StackReads, StackShows, WorkGrew, Run, AllowedRun,
      LeavesMarkerStack;
    MarkerStackReadsAfterStep(p, op);
    RunKeepsMarkerStack(ops + [op], more, op.thread, op.markerIndex);
    var stack := p1.threads[op.thread].markers.stacks[op.markerIndex];
    hide Remembers;
    StackReadsStable(p1, p2, op.thread, stack, op.frames, p.ScopeFor(op.thread));
    StackReadsShows(p2, op.thread, stack, op.frames, p.ScopeFor(op.thread));
  }
}
