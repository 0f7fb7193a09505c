/** What was put into a marker table comes out of its serializer, over every run of the operations
    that touch the table, the schemas or the strings (markers, marker stacks, schema registration, new
    strings of the profile and of the thread, conversions of labels and marker names). */
module MarkerRoundTrip {
  import opened MarkerTables
  import opened Prelude
  import opened StringTables

  /** What a marker's fields are meant to read as: one entry per field, in field order. */
  ghost function Own(fields: seq<Field>, j: nat, marker: Marker, converted: map<u32, u32>, global: Strings): seq<(string, Value)>
    requires HandlesKnown(fields, j, marker, global) && Converted(fields, j, marker, converted) && j <= |fields|
  {
    seq(|fields| - j, k requires 0 <= k < |fields| - j => (fields[j + k].key, OwnValue(fields[j + k], j + k, marker, converted, global)))
  }

  ghost function OwnValue(field: Field, i: nat, marker: Marker, converted: map<u32, u32>, global: Strings): Value
    requires field.format.Kind() == StringKind ==> marker.stringFieldValue(i) < |global.strings|
    requires NeedsConversion(field) ==> marker.stringFieldValue(i) in converted
  {
    match field.format
    case UniqueString => StringIndex(converted[marker.stringFieldValue(i)])
    case Url | FilePath | SanitizedString => Text(global.strings[marker.stringFieldValue(i)])
    case _ => Number(marker.numberFieldValue(i))
  }

  lemma OwnUnfolds(fields: seq<Field>, j: nat, marker: Marker, converted: map<u32, u32>, global: Strings)
    requires HandlesKnown(fields, j, marker, global) && Converted(fields, j, marker, converted) && j < |fields|
    ensures Own(fields, j, marker, converted, global)
         == [(fields[j].key, OwnValue(fields[j], j, marker, converted, global))] + Own(fields, j + 1, marker, converted, global)
  {
    var own, rest := Own(fields, j, marker, converted, global), Own(fields, j + 1, marker, converted, global);
    assert fields[j + 0] == fields[j];
    forall k | 0 <= k < |rest|
      ensures own[k + 1] == rest[k]
    {
      assert j + (k + 1) == (j + 1) + k;
    }
  }

  lemma {:induction false} OwnValuesReadBack(fields: seq<Field>, j: nat, marker: Marker, thread: ThreadStrings, global: Strings)
    requires thread.Coherent(global) && j <= |fields|
    requires HandlesKnown(fields, j, marker, global) && Converted(fields, j, marker, thread.converted)
    ensures var strings, numbers := StringsOf(fields, j, marker, thread.converted), NumbersOf(fields, j, marker);
      && Readable(fields, j, strings, numbers, |global.strings|, |thread.table.strings|)
      && Entries(fields, j, strings, numbers, global, |thread.table.strings|) == Own(fields, j, marker, thread.converted, global)
    decreases |fields| - j
  {
    if j < |fields| {
      OwnValuesReadBack(fields, j + 1, marker, thread, global);
      OwnUnfolds(fields, j, marker, thread.converted, global);
      var strings, numbers := StringsOf(fields, j, marker, thread.converted), NumbersOf(fields, j, marker);
      hide Own;
      if fields[j].format.Kind() == StringKind {
        assert strings[1..] == StringsOf(fields, j + 1, marker, thread.converted);
      } else {
        assert numbers[1..] == NumbersOf(fields, j + 1, marker);
      }
    }
  }

  lemma {:induction false} ReadableGrows(fields: seq<Field>, j: nat, strings: seq<u32>, numbers: seq<real>,
                                         global: Strings, local: nat, global': Strings, local': nat)
    requires Readable(fields, j, strings, numbers, |global.strings|, local)
    requires global.strings <= global'.strings && local <= local'
    ensures Readable(fields, j, strings, numbers, |global'.strings|, local')
    ensures Entries(fields, j, strings, numbers, global', local') == Entries(fields, j, strings, numbers, global, local)
    decreases |fields| - j
  {
    if j < |fields| {
      if fields[j].format.Kind() == StringKind {
        ReadableGrows(fields, j + 1, strings[1..], numbers, global, local, global', local');
      } else {
        ReadableGrows(fields, j + 1, strings, numbers[1..], global, local, global', local');
      }
    }
  }

  /** Nothing already stored reads differently after more schemas and strings are added. */
  lemma {:induction false} ColumnGrows(types: seq<nat>, stacks: seq<Option<nat>>, strings: seq<u32>, numbers: seq<real>,
                                       schemas: seq<Schema>, global: Strings, local: nat,
                                       schemas': seq<Schema>, global': Strings, local': nat)
    requires Splittable(types, strings, numbers, schemas, |global.strings|, local) && |stacks| == |types|
    requires schemas <= schemas' && global.strings <= global'.strings && local <= local'
    ensures Splittable(types, strings, numbers, schemas', |global'.strings|, local')
    ensures Column(types, stacks, strings, numbers, schemas', global', local')
         == Column(types, stacks, strings, numbers, schemas, global, local)
  {
    if types != [] {
      var s := schemas[types[0]];
      assert schemas'[types[0]] == s;
      ReadableGrows(s.fields, 0, strings[..s.stringCount], numbers[..s.numberCount], global, local, global', local');
      ColumnGrows(types[1..], stacks[1..], strings[s.stringCount..], numbers[s.numberCount..],
                  schemas, global, local, schemas', global', local');
    }
  }

  /** One more marker's values at the end of the vectors are one more element at the end of the column. */
  lemma {:induction false} ColumnAppends(types: seq<nat>, stacks: seq<Option<nat>>, strings: seq<u32>, numbers: seq<real>,
                                         schemas: seq<Schema>, global: Strings, local: nat,
                                         t: nat, stack: Option<nat>, ss: seq<u32>, ns: seq<real>)
    requires Splittable(types, strings, numbers, schemas, |global.strings|, local) && |stacks| == |types|
    requires t < |schemas| && schemas[t].WellCounted()
    requires |ss| == schemas[t].stringCount && |ns| == schemas[t].numberCount
    requires Readable(schemas[t].fields, 0, ss, ns, |global.strings|, local)
    ensures Splittable(types + [t], strings + ss, numbers + ns, schemas, |global.strings|, local)
    ensures Column(types + [t], stacks + [stack], strings + ss, numbers + ns, schemas, global, local)
         == Column(types, stacks, strings, numbers, schemas, global, local)
            + [Element(schemas[t].typeName, stack, Entries(schemas[t].fields, 0, ss, ns, global, local))]
  {
    if types == [] {
      assert strings + ss == ss && numbers + ns == ns && types + [t] == [t] && stacks + [stack] == [stack];
      ColumnOfOne(t, stack, ss, ns, schemas, global, local);
    } else {
      var s := schemas[types[0]];
      ColumnAppends(types[1..], stacks[1..], strings[s.stringCount..], numbers[s.numberCount..],
                    schemas, global, local, t, stack, ss, ns);
      HeadsAndTails(types, stacks, strings, numbers, s, t, stack, ss, ns);
      var c := Column(types + [t], stacks + [stack], strings + ss, numbers + ns, schemas, global, local);
      assert c == [Element(s.typeName, stacks[0], Entries(s.fields, 0, strings[..s.stringCount], numbers[..s.numberCount], global, local))]
                  + Column(types[1..] + [t], stacks[1..] + [stack], strings[s.stringCount..] + ss, numbers[s.numberCount..] + ns,
                           schemas, global, local);
    }
  }

  lemma HeadsAndTails(types: seq<nat>, stacks: seq<Option<nat>>, strings: seq<u32>, numbers: seq<real>, s: Schema,
                      t: nat, stack: Option<nat>, ss: seq<u32>, ns: seq<real>)
    requires types != [] && |stacks| == |types| && s.stringCount <= |strings| && s.numberCount <= |numbers|
    ensures (types + [t])[1..] == types[1..] + [t] && (stacks + [stack])[1..] == stacks[1..] + [stack]
    ensures (types + [t])[0] == types[0] && (stacks + [stack])[0] == stacks[0]
    ensures (strings + ss)[s.stringCount..] == strings[s.stringCount..] + ss
    ensures (numbers + ns)[s.numberCount..] == numbers[s.numberCount..] + ns
    ensures (strings + ss)[..s.stringCount] == strings[..s.stringCount]
    ensures (numbers + ns)[..s.numberCount] == numbers[..s.numberCount]
  {
  }

  lemma ColumnOfOne(t: nat, stack: Option<nat>, ss: seq<u32>, ns: seq<real>, schemas: seq<Schema>, global: Strings, local: nat)
    requires t < |schemas| && schemas[t].WellCounted()
    requires |ss| == schemas[t].stringCount && |ns| == schemas[t].numberCount
    requires Readable(schemas[t].fields, 0, ss, ns, |global.strings|, local)
    ensures Splittable([t], ss, ns, schemas, |global.strings|, local)
    ensures Column([t], [stack], ss, ns, schemas, global, local)
         == [Element(schemas[t].typeName, stack, Entries(schemas[t].fields, 0, ss, ns, global, local))]
  {
    assert ss[..|ss|] == ss && ns[..|ns|] == ns && ss[|ss|..] == [] && ns[|ns|..] == [];
    assert [t][1..] == [] && [stack][1..] == [];
  }

  /** Setting a marker's stack changes that element's stack and nothing else. */
  lemma {:induction false} ColumnSetsStack(types: seq<nat>, stacks: seq<Option<nat>>, strings: seq<u32>, numbers: seq<real>,
                                           schemas: seq<Schema>, global: Strings, local: nat, i: nat, stack: Option<nat>)
    requires Splittable(types, strings, numbers, schemas, |global.strings|, local) && |stacks| == |types| && i < |types|
    ensures var c := Column(types, stacks, strings, numbers, schemas, global, local);
      Column(types, stacks[i := stack], strings, numbers, schemas, global, local) == c[i := c[i].(stack := stack)]
  {
    var s := schemas[types[0]];
    if i > 0 {
      ColumnSetsStack(types[1..], stacks[1..], strings[s.stringCount..], numbers[s.numberCount..],
                      schemas, global, local, i - 1, stack);
      assert stacks[i := stack][1..] == stacks[1..][i - 1 := stack];
    } else {
      assert stacks[0 := stack][1..] == stacks[1..];
    }
  }

  /** An element keeps its type and its entries when the vectors behind it grow. */
  lemma {:induction false} ColumnPrefix(
      types: seq<nat>, stacks: seq<Option<nat>>, strings: seq<u32>, numbers: seq<real>,
      schemas: seq<Schema>, global: Strings, local: nat,
      types': seq<nat>, stacks': seq<Option<nat>>, strings': seq<u32>, numbers': seq<real>,
      schemas': seq<Schema>, global': Strings, local': nat, i: nat)
    requires Splittable(types, strings, numbers, schemas, |global.strings|, local) && |stacks| == |types|
    requires Splittable(types', strings', numbers', schemas', |global'.strings|, local') && |stacks'| == |types'|
    requires types <= types' && strings <= strings' && numbers <= numbers'
    requires schemas <= schemas' && global.strings <= global'.strings && local <= local' && i < |types|
    ensures var e := Column(types, stacks, strings, numbers, schemas, global, local)[i];
      var e' := Column(types', stacks', strings', numbers', schemas', global', local')[i];
      e'.typeName == e.typeName && e'.entries == e.entries
  {
    var s := schemas[types[0]];
    assert types'[0] == types[0] && schemas'[types[0]] == s;
    if i == 0 {
      assert strings'[..s.stringCount] == strings[..s.stringCount] && numbers'[..s.numberCount] == numbers[..s.numberCount];
      ReadableGrows(s.fields, 0, strings[..s.stringCount], numbers[..s.numberCount], global, local, global', local');
    } else {
      ColumnPrefix(types[1..], stacks[1..], strings[s.stringCount..], numbers[s.numberCount..], schemas, global, local,
                   types'[1..], stacks'[1..], strings'[s.stringCount..], numbers'[s.numberCount..], schemas', global', local',
                   i - 1);
    }
  }

  // ----- every run -----

  datatype State = State(markers: Markers, thread: ThreadStrings, schemas: seq<Schema>, global: Strings, log: seq<(Marker, Option<nat>)>)

  datatype Op =
    | RegisterType(typeName: string, fields: seq<Field>)
    | InternGlobal(s: string)
    | InternLocal(s: string)
    | ConvertHandle(global: u32)
    | AddMarker(name: u32, marker: Marker, timing: Timing)
    | SetMarkerStack(handle: nat, stack: Option<nat>)

  const Start := State(NoMarkers, NoThreadStrings, [], NoStrings, [])

  /** Handles were issued before they are used. */
  ghost predicate Allowed(st: State, op: Op) {
    match op
    case AddMarker(_, marker, _) =>
      marker.markerType < |st.schemas| && HandlesKnown(st.schemas[marker.markerType].fields, 0, marker, st.global)
    case SetMarkerStack(handle, _) => handle < |st.log| && handle < |st.markers.stacks|
    case ConvertHandle(g) => g < |st.global.strings|
    case _ => true
  }

  /** The last component is the history: each marker added, with the stack set on it last. */
  ghost function Step(st: State, op: Op): State
    requires Allowed(st, op)
  {
    match op
    case RegisterType(typeName, fields) => st.(schemas := st.schemas + [Register(typeName, fields)])
    case InternGlobal(s) => st.(global := st.global.Intern(s).0)
    case InternLocal(s) => st.(thread := st.thread.Intern(s).0)
    case ConvertHandle(g) => st.(thread := st.thread.Convert(g, st.global).0)
    case AddMarker(name, marker, timing) =>
      var (m, thread, _) := st.markers.Add(name, marker.markerType, st.schemas[marker.markerType].fields, marker, timing, st.thread, st.global);
      st.(markers := m, thread := thread, log := st.log + [(marker, None)])
    case SetMarkerStack(handle, stack) =>
      st.(markers := st.markers.SetStack(handle, stack), log := st.log[handle := (st.log[handle].0, stack)])
  }

  ghost predicate Fits(st: State) {
    |st.thread.table.strings| <= U32_LIMIT && |st.global.strings| <= U32_LIMIT
  }

  /** An element of the marker's type with exactly its own values in field order. */
  ghost predicate ShowsMarker(e: Element, marker: Marker, st: State) {
    && marker.markerType < |st.schemas|
    && var fields := st.schemas[marker.markerType].fields;
    && HandlesKnown(fields, 0, marker, st.global) && Converted(fields, 0, marker, st.thread.converted)
    && e.typeName == st.schemas[marker.markerType].typeName
    && e.entries == Own(fields, 0, marker, st.thread.converted, st.global)
  }

  /** The element the serializer should write for a logged marker. */
  ghost predicate Shows(e: Element, logged: (Marker, Option<nat>), st: State) {
    ShowsMarker(e, logged.0, st) && e.stack == logged.1
  }

  ghost predicate WellFormed(st: State) {
    && st.global.Coherent() && st.thread.Coherent(st.global)
    && (forall i :: 0 <= i < |st.schemas| ==> st.schemas[i].WellCounted())
    && st.markers.SameLengths()
    && Splittable(st.markers.types, st.markers.strings, st.markers.numbers, st.schemas, |st.global.strings|, |st.thread.table.strings|)
  }

  ghost predicate RoundTrips(st: State) {
    && WellFormed(st) && |st.log| == |st.markers.types|
    && var c := Data(st);
       forall i :: 0 <= i < |c| ==> Shows(c[i], st.log[i], st)
  }

  ghost function Data(st: State): (c: seq<Element>)
    requires st.markers.SameLengths()
    requires Splittable(st.markers.types, st.markers.strings, st.markers.numbers, st.schemas, |st.global.strings|, |st.thread.table.strings|)
    ensures |c| == |st.markers.types|
  {
    Column(st.markers.types, st.markers.stacks, st.markers.strings, st.markers.numbers, st.schemas, st.global, |st.thread.table.strings|)
  }

  ghost predicate Grew(st: State, st': State) {
    && st.schemas <= st'.schemas && st.global.strings <= st'.global.strings
    && st.thread.table.strings <= st'.thread.table.strings
    && forall g :: g in st.thread.converted ==> g in st'.thread.converted && st'.thread.converted[g] == st.thread.converted[g]
  }

  lemma ShowsStable(e: Element, marker: Marker, st: State, st': State)
    requires ShowsMarker(e, marker, st) && Grew(st, st')
    ensures ShowsMarker(e, marker, st')
  {
    var fields := st.schemas[marker.markerType].fields;
    assert st'.schemas[marker.markerType] == st.schemas[marker.markerType];
    var own, own' := Own(fields, 0, marker, st.thread.converted, st.global), Own(fields, 0, marker, st'.thread.converted, st'.global);
    forall k | 0 <= k < |fields|
      ensures own'[k] == own[k]
    {
      assert fields[0 + k] == fields[k];
      assert own[k] == (fields[k].key, OwnValue(fields[k], k, marker, st.thread.converted, st.global));
      assert own'[k] == (fields[k].key, OwnValue(fields[k], k, marker, st'.thread.converted, st'.global));
    }
  }

  /** What an element shows stays when markers, schemas and strings are added after it. */
  lemma ElementStable(st: State, st': State, i: nat, marker: Marker)
    requires WellFormed(st) && WellFormed(st') && Grew(st, st') && i < |Data(st)| && ShowsMarker(Data(st)[i], marker, st)
    requires st.markers.types <= st'.markers.types
    requires st.markers.strings <= st'.markers.strings && st.markers.numbers <= st'.markers.numbers
    ensures i < |Data(st')| && ShowsMarker(Data(st')[i], marker, st')
  {
    ColumnPrefix(st.markers.types, st.markers.stacks, st.markers.strings, st.markers.numbers,
                 st.schemas, st.global, |st.thread.table.strings|,
                 st'.markers.types, st'.markers.stacks, st'.markers.strings, st'.markers.numbers,
                 st'.schemas, st'.global, |st'.thread.table.strings|, i);
    hide Column, Splittable;
    ShowsStable(Data(st)[i], marker, st, st');
  }

  /** Element i carries the stack stored for marker i. */
  lemma {:induction false} ColumnStack(types: seq<nat>, stacks: seq<Option<nat>>, strings: seq<u32>, numbers: seq<real>,
                                       schemas: seq<Schema>, global: Strings, local: nat, i: nat)
    requires Splittable(types, strings, numbers, schemas, |global.strings|, local) && |stacks| == |types| && i < |types|
    ensures Column(types, stacks, strings, numbers, schemas, global, local)[i].stack == stacks[i]
  {
    var s := schemas[types[0]];
    if i > 0 {
      ColumnStack(types[1..], stacks[1..], strings[s.stringCount..], numbers[s.numberCount..], schemas, global, local, i - 1);
    }
  }

  lemma GrowthKeepsRoundTrip(st: State, st': State)
    requires RoundTrips(st) && Grew(st, st') && st'.markers == st.markers && st'.log == st.log
    requires st'.global.Coherent() && st'.thread.Coherent(st'.global)
    requires forall i :: 0 <= i < |st'.schemas| ==> st'.schemas[i].WellCounted()
    ensures RoundTrips(st')
  {
    ColumnGrows(st.markers.types, st.markers.stacks, st.markers.strings, st.markers.numbers,
                st.schemas, st.global, |st.thread.table.strings|, st'.schemas, st'.global, |st'.thread.table.strings|);
    forall i | 0 <= i < |Data(st')|
      ensures Shows(Data(st')[i], st'.log[i], st')
    {
      ShowsStable(Data(st)[i], st.log[i].0, st, st');
    }
  }

  /** One row more, whose columns are the marker's. */
  ghost predicate RowAdded(m: Markers, m': Markers, op: Op)
    requires op.AddMarker?
  {
    var row := |m.types|;
    && m'.SameLengths() && |m'.types| == row + 1
    && m'.categories[row] == op.marker.category && m'.names[row] == op.name
    && TimingShown(op.timing, m'.starts[row], m'.ends[row], m'.phases[row])
  }

  lemma AddedRow(st: State, op: Op)
    requires st.markers.SameLengths() && op.AddMarker? && Allowed(st, op)
    ensures RowAdded(st.markers, Step(st, op).markers, op)
  {
    hide Splittable;
  }

  /** An added marker's element is the last one and shows it; the elements before it stay. */
  lemma AddedMarkerShows(st: State, op: Op)
    requires WellFormed(st) && op.AddMarker? && Allowed(st, op) && Fits(Step(st, op))
    ensures var st' := Step(st, op);
      && WellFormed(st') && Grew(st, st') && |Data(st')| == |Data(st)| + 1 && Data(st')[..|Data(st)|] == Data(st)
      && ShowsMarker(Data(st')[|Data(st)|], op.marker, st') && Data(st')[|Data(st)|].stack == None
  {
    var marker := op.marker;
    var schema := st.schemas[marker.markerType];
    var thread' := ConvertFields(schema.fields, 0, marker, st.thread, st.global);
    ConvertFieldsConverts(schema.fields, 0, marker, st.thread, st.global);
    ConvertFieldsCoherent(schema.fields, 0, marker, st.thread, st.global);
    ColumnGrows(st.markers.types, st.markers.stacks, st.markers.strings, st.markers.numbers,
                st.schemas, st.global, |st.thread.table.strings|, st.schemas, st.global, |thread'.table.strings|);
    var ss, ns := StringsOf(schema.fields, 0, marker, thread'.converted), NumbersOf(schema.fields, 0, marker);
    OwnValuesReadBack(schema.fields, 0, marker, thread', st.global);
    ValuesFillSlots(schema.fields, 0, marker, thread'.converted);
    assert schema.fields[0..] == schema.fields;
    ColumnAppends(st.markers.types, st.markers.stacks, st.markers.strings, st.markers.numbers,
                  st.schemas, st.global, |thread'.table.strings|, marker.markerType, None, ss, ns);
    hide Column, Splittable, Own, Entries, Readable;
    var st' := Step(st, op);
    assert Data(st') == Data(st) + [Element(schema.typeName, None, Own(schema.fields, 0, marker, thread'.converted, st.global))];
  }

  lemma AddKeepsRoundTrip(st: State, op: Op)
    requires RoundTrips(st) && op.AddMarker? && Allowed(st, op) && Fits(Step(st, op))
    ensures RoundTrips(Step(st, op)) && Grew(st, Step(st, op))
  {
    AddedMarkerShows(st, op);
    hide Data, ShowsMarker, Splittable;
    var st' := Step(st, op);
    forall i | 0 <= i < |Data(st')|
      ensures Shows(Data(st')[i], st'.log[i], st')
    {
      if i < |Data(st)| {
        assert Data(st')[i] == Data(st')[..|Data(st)|][i] == Data(st)[i];
        ShowsStable(Data(st)[i], st.log[i].0, st, st');
      }
    }
  }

  lemma StepKeepsRoundTrip(st: State, op: Op)
    requires RoundTrips(st) && Allowed(st, op) && Fits(Step(st, op))
    ensures RoundTrips(Step(st, op)) && Grew(st, Step(st, op))
  {
    var st' := Step(st, op);
    match op {
      case RegisterType(typeName, fields) =>
        RegisteredIsWellCounted(typeName, fields);
        GrowthKeepsRoundTrip(st, st');
      case InternGlobal(s) =>
        InternCoherent(st.global, s);
        CoherentAsGlobalGrows(st.thread, st.global, st'.global);
        GrowthKeepsRoundTrip(st, st');
      case InternLocal(s) =>
        ThreadInternCoherent(st.thread, s, st.global);
        GrowthKeepsRoundTrip(st, st');
      case ConvertHandle(g) =>
        ConvertCoherent(st.thread, g, st.global);
        GrowthKeepsRoundTrip(st, st');
      case AddMarker(_, _, _) => AddKeepsRoundTrip(st, op);
      case SetMarkerStack(handle, stack) =>
        ColumnSetsStack(st.markers.types, st.markers.stacks, st.markers.strings, st.markers.numbers,
                        st.schemas, st.global, |st.thread.table.strings|, handle, stack);
        forall i | 0 <= i < |Data(st')|
          ensures Shows(Data(st')[i], st'.log[i], st')
        {
          assert Shows(Data(st)[i], st.log[i], st);
        }
    }
  }

  ghost predicate AllowedRun(ops: seq<Op>)
    decreases |ops|, 0
  {
    ops != [] ==> AllowedRun(ops[..|ops| - 1]) && Allowed(Run(ops[..|ops| - 1]), ops[|ops| - 1])
  }

  ghost function Run(ops: seq<Op>): State
    requires AllowedRun(ops)
    decreases |ops|, 1
  {
    if ops == [] then Start else Step(Run(ops[..|ops| - 1]), ops[|ops| - 1])
  }

  lemma StepOnlyGrows(st: State, op: Op)
    requires Allowed(st, op)
    ensures |st.thread.table.strings| <= |Step(st, op).thread.table.strings|
    ensures |st.global.strings| <= |Step(st, op).global.strings|
  {
    if op.AddMarker? {
      ConvertFieldsConverts(st.schemas[op.marker.markerType].fields, 0, op.marker, st.thread, st.global);
    }
  }

  /** Over every run, the serialized element of marker i has its type's name, the stack last set on
      it, and exactly its own values in field order. */
  lemma {:induction false} EveryRunRoundTrips(ops: seq<Op>)
    requires AllowedRun(ops) && Fits(Run(ops))
    ensures RoundTrips(Run(ops))
  {
    if ops != [] {
      var before := ops[..|ops| - 1];
      StepOnlyGrows(Run(before), ops[|ops| - 1]);
      EveryRunRoundTrips(before);
      StepKeepsRoundTrip(Run(before), ops[|ops| - 1]);
    }
  }
}
