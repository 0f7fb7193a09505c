/** Markers, their schemas, and the flat vectors holding their field values
    (fxprof-processed-profile/src/marker_table.rs, markers.rs). */
module MarkerTables {
  import opened Prelude
  import opened Sorting
  import opened StringTables

  datatype FieldFormat =
    | Url | FilePath | SanitizedString | UniqueString
    | Duration | Time | Seconds | Milliseconds | Microseconds | Nanoseconds
    | Bytes | Percentage | Integer | Decimal
  {
    function Kind(): FieldKind {
      match this
      case Url | FilePath | SanitizedString | UniqueString => StringKind
      case _ => NumberKind
    }
  }

  datatype FieldKind = StringKind | NumberKind

  datatype Field = Field(key: string, format: FieldFormat)

  /** The registered form of a schema, with its field counts. */
  datatype Schema = Schema(typeName: string, fields: seq<Field>, stringCount: nat, numberCount: nat) {
    ghost predicate WellCounted() {
      stringCount == Slots(fields, StringKind) && numberCount == Slots(fields, NumberKind)
    }
  }

  function Register(typeName: string, fields: seq<Field>): Schema {
    Schema(typeName, fields,
           |Filter(fields, (f: Field) => f.format.Kind() == StringKind)|,
           |Filter(fields, (f: Field) => f.format.Kind() == NumberKind)|)
  }

  /** How many of the fields a serializer meets are of one kind. */
  function Slots(fields: seq<Field>, kind: FieldKind): nat {
    if fields == [] then 0 else (if fields[0].format.Kind() == kind then 1 else 0) + Slots(fields[1..], kind)
  }

  lemma {:induction false} FilterCountsSlots(fields: seq<Field>, kind: FieldKind)
    ensures |Filter(fields, (f: Field) => f.format.Kind() == kind)| == Slots(fields, kind)
  {
    if fields != [] {
      FilterCountsSlots(fields[1..], kind);
    }
  }

  lemma RegisteredIsWellCounted(typeName: string, fields: seq<Field>)
    ensures Register(typeName, fields).WellCounted()
    ensures Slots(fields, StringKind) + Slots(fields, NumberKind) == |fields|
  {
    FilterCountsSlots(fields, StringKind);
    FilterCountsSlots(fields, NumberKind);
    SlotsCoverFields(fields);
  }

  lemma {:induction false} SlotsCoverFields(fields: seq<Field>)
    ensures Slots(fields, StringKind) + Slots(fields, NumberKind) == |fields|
  {
    if fields != [] {
      SlotsCoverFields(fields[1..]);
    }
  }

  /** A marker: its registered type, its name and category, and the values it answers per field index. */
  datatype Marker = Marker(
    markerType: nat, name: u32, category: nat, stringFieldValue: nat -> u32, numberFieldValue: nat -> real)

  datatype Timing = Instant(at: u64) | Interval(start: u64, end: u64) | IntervalStart(start: u64) | IntervalEnd(end: u64)

  datatype Phase = PhaseInstant | PhaseInterval | PhaseIntervalStart | PhaseIntervalEnd

  function Split(timing: Timing): (Option<u64>, Option<u64>, Phase) {
    match timing
    case Instant(s) => (Some(s), None, PhaseInstant)
    case Interval(s, e) => (Some(s), Some(e), PhaseInterval)
    case IntervalStart(s) => (Some(s), None, PhaseIntervalStart)
    case IntervalEnd(e) => (None, Some(e), PhaseIntervalEnd)
  }

  /** What the three columns of a marker hold: an instant and an interval's start stand in the start column, an
      interval's end in the end column, and the phase says which of the four it is. */
  ghost predicate TimingShown(timing: Timing, start: Option<u64>, end: Option<u64>, phase: Phase) {
    && (phase == PhaseInstant ==> timing.Instant? && start == Some(timing.at) && end == None)
    && (phase == PhaseInterval ==> timing.Interval? && start == Some(timing.start) && end == Some(timing.end))
    && (phase == PhaseIntervalStart ==> timing.IntervalStart? && start == Some(timing.start) && end == None)
    && (phase == PhaseIntervalEnd ==> timing.IntervalEnd? && start == None && end == Some(timing.end))
  }

  /** The three stored columns are those of the timing, and of no other one. */
  lemma TimingRecoverable(timing: Timing, start: Option<u64>, end: Option<u64>, phase: Phase)
    ensures Split(timing) == (start, end, phase) <==> TimingShown(timing, start, end, phase)
    ensures forall other :: TimingShown(timing, start, end, phase) && TimingShown(other, start, end, phase) ==> other == timing
  {
  }

  /** The contents of a `MarkerTable`. */
  datatype Markers = Markers(
    categories: seq<nat>, names: seq<u32>, starts: seq<Option<u64>>, ends: seq<Option<u64>>,
    phases: seq<Phase>, types: seq<nat>, stacks: seq<Option<nat>>,
    numbers: seq<real>, strings: seq<u32>)
  {
    ghost predicate SameLengths() {
      |categories| == |names| == |starts| == |ends| == |phases| == |types| == |stacks|
    }

    function Add(name: u32, markerType: nat, fields: seq<Field>, marker: Marker, timing: Timing,
                 thread: ThreadStrings, global: Strings): (Markers, ThreadStrings, nat)
      requires HandlesKnown(fields, 0, marker, global)
    {
      var (start, end, phase) := Split(timing);
      var thread' := ConvertFields(fields, 0, marker, thread, global);
      ConvertFieldsConverts(fields, 0, marker, thread, global);
      (Markers(categories + [marker.category], names + [name], starts + [start], ends + [end],
               phases + [phase], types + [markerType], stacks + [None],
               numbers + NumbersOf(fields, 0, marker),
               strings + StringsOf(fields, 0, marker, thread'.converted)),
       thread', |categories|)
    }

    function SetStack(marker: nat, stack: Option<nat>): Markers
      requires marker < |stacks|
    {
      this.(stacks := stacks[marker := stack])
    }
  }

  const NoMarkers := Markers([], [], [], [], [], [], [], [], [])

  // ----- what a marker's fields put into the flat vectors, from field j on -----

  predicate NeedsConversion(field: Field) {
    field.format == UniqueString
  }

  ghost predicate HandlesKnown(fields: seq<Field>, j: nat, marker: Marker, global: Strings) {
    forall i :: j <= i < |fields| && fields[i].format.Kind() == StringKind ==>
      marker.stringFieldValue(i) < |global.strings|
  }

  function ConvertFields(fields: seq<Field>, j: nat, marker: Marker, thread: ThreadStrings, global: Strings): ThreadStrings
    requires HandlesKnown(fields, j, marker, global)
    decreases |fields| - j
  {
    if j >= |fields| then thread
    else
      ConvertFields(fields, j + 1, marker,
                    if NeedsConversion(fields[j]) then thread.Convert(marker.stringFieldValue(j), global).0 else thread, global)
  }

  ghost predicate Converted(fields: seq<Field>, j: nat, marker: Marker, converted: map<u32, u32>) {
    forall i :: j <= i < |fields| && NeedsConversion(fields[i]) ==> marker.stringFieldValue(i) in converted
  }

  lemma {:induction false} ConvertFieldsConverts(fields: seq<Field>, j: nat, marker: Marker, thread: ThreadStrings, global: Strings)
    requires HandlesKnown(fields, j, marker, global)
    ensures var t := ConvertFields(fields, j, marker, thread, global);
      && Converted(fields, j, marker, t.converted)
      && thread.table.strings <= t.table.strings
      && (forall g :: g in thread.converted ==> g in t.converted && t.converted[g] == thread.converted[g])
    decreases |fields| - j
  {
    if j < |fields| {
      var next := if NeedsConversion(fields[j]) then thread.Convert(marker.stringFieldValue(j), global).0 else thread;
      ConvertFieldsConverts(fields, j + 1, marker, next, global);
    }
  }

  lemma {:induction false} ConvertFieldsCoherent(fields: seq<Field>, j: nat, marker: Marker, thread: ThreadStrings, global: Strings)
    requires thread.Coherent(global) && HandlesKnown(fields, j, marker, global)
    requires |ConvertFields(fields, j, marker, thread, global).table.strings| <= U32_LIMIT
    ensures ConvertFields(fields, j, marker, thread, global).Coherent(global)
    decreases |fields| - j
  {
    if j < |fields| {
      var next := if NeedsConversion(fields[j]) then thread.Convert(marker.stringFieldValue(j), global).0 else thread;
      ConvertFieldsConverts(fields, j + 1, marker, next, global);
      if NeedsConversion(fields[j]) {
        ConvertCoherent(thread, marker.stringFieldValue(j), global);
      }
      ConvertFieldsCoherent(fields, j + 1, marker, next, global);
    }
  }

  function StringsOf(fields: seq<Field>, j: nat, marker: Marker, converted: map<u32, u32>): seq<u32>
    requires Converted(fields, j, marker, converted)
    decreases |fields| - j
  {
    if j >= |fields| then []
    else if fields[j].format.Kind() != StringKind then StringsOf(fields, j + 1, marker, converted)
    else
      [if NeedsConversion(fields[j]) then converted[marker.stringFieldValue(j)] else marker.stringFieldValue(j)]
      + StringsOf(fields, j + 1, marker, converted)
  }

  function NumbersOf(fields: seq<Field>, j: nat, marker: Marker): seq<real>
    decreases |fields| - j
  {
    if j >= |fields| then []
    else if fields[j].format.Kind() != NumberKind then NumbersOf(fields, j + 1, marker)
    else [marker.numberFieldValue(j)] + NumbersOf(fields, j + 1, marker)
  }

  lemma {:induction false} ValuesFillSlots(fields: seq<Field>, j: nat, marker: Marker, converted: map<u32, u32>)
    requires j <= |fields| && Converted(fields, j, marker, converted)
    ensures |StringsOf(fields, j, marker, converted)| == Slots(fields[j..], StringKind)
    ensures |NumbersOf(fields, j, marker)| == Slots(fields[j..], NumberKind)
    decreases |fields| - j
  {
    if j < |fields| {
      assert fields[j..][1..] == fields[j + 1..];
      ValuesFillSlots(fields, j + 1, marker, converted);
    }
  }

  // ----- serialization -----

  datatype Value = StringIndex(index: u32) | Text(text: string) | Number(number: real)

  datatype Element = Element(typeName: string, stack: Option<nat>, entries: seq<(string, Value)>)

  /** The entries the serializer writes for the fields from j on, taking values off the two slices. */
  ghost predicate Readable(fields: seq<Field>, j: nat, strings: seq<u32>, numbers: seq<real>, global: nat, local: nat)
    decreases |fields| - j
  {
    if j >= |fields| then true
    else if fields[j].format.Kind() == StringKind then
      && strings != [] && (if NeedsConversion(fields[j]) then strings[0] < local else strings[0] < global)
      && Readable(fields, j + 1, strings[1..], numbers, global, local)
    else numbers != [] && Readable(fields, j + 1, strings, numbers[1..], global, local)
  }

  function Entries(fields: seq<Field>, j: nat, strings: seq<u32>, numbers: seq<real>, global: Strings, ghost local: nat): seq<(string, Value)>
    requires Readable(fields, j, strings, numbers, |global.strings|, local)
    decreases |fields| - j
  {
    if j >= |fields| then []
    else if fields[j].format.Kind() == StringKind then
      [(fields[j].key, if NeedsConversion(fields[j]) then StringIndex(strings[0]) else Text(global.strings[strings[0]]))]
      + Entries(fields, j + 1, strings[1..], numbers, global, local)
    else [(fields[j].key, Number(numbers[0]))] + Entries(fields, j + 1, strings, numbers[1..], global, local)
  }

  /** The successive splits of the two vectors stay in range, every slice is readable, and nothing is left over. */
  ghost predicate Splittable(types: seq<nat>, strings: seq<u32>, numbers: seq<real>, schemas: seq<Schema>, global: nat, local: nat) {
    if types == [] then strings == [] && numbers == []
    else
      && types[0] < |schemas|
      && var s := schemas[types[0]];
      && s.WellCounted() && s.stringCount <= |strings| && s.numberCount <= |numbers|
      && Readable(s.fields, 0, strings[..s.stringCount], numbers[..s.numberCount], global, local)
      && Splittable(types[1..], strings[s.stringCount..], numbers[s.numberCount..], schemas, global, local)
  }

  function Column(types: seq<nat>, stacks: seq<Option<nat>>, strings: seq<u32>, numbers: seq<real>,
                  schemas: seq<Schema>, global: Strings, ghost local: nat): (r: seq<Element>)
    requires Splittable(types, strings, numbers, schemas, |global.strings|, local) && |stacks| == |types|
    ensures |r| == |types|
  {
    if types == [] then []
    else
      var s := schemas[types[0]];
      [Element(s.typeName, stacks[0], Entries(s.fields, 0, strings[..s.stringCount], numbers[..s.numberCount], global, local))]
      + Column(types[1..], stacks[1..], strings[s.stringCount..], numbers[s.numberCount..], schemas, global, local)
  }

  /** The data column's serializer. No split goes out of range, and both remainders end up empty. */
  method SerializeData(m: Markers, schemas: seq<Schema>, global: Strings, ghost local: nat)
    returns (rows: seq<Element>, remainingStrings: seq<u32>, remainingNumbers: seq<real>)
    requires m.SameLengths() && Splittable(m.types, m.strings, m.numbers, schemas, |global.strings|, local)
    ensures rows == Column(m.types, m.stacks, m.strings, m.numbers, schemas, global, local)
    ensures remainingStrings == [] && remainingNumbers == []
  {
    rows, remainingStrings, remainingNumbers := [], m.strings, m.numbers;
    var len := |m.types|;
    for i := 0 to len
      invariant |rows| == i
      invariant Splittable(m.types[i..], remainingStrings, remainingNumbers, schemas, |global.strings|, local)
      invariant rows + Column(m.types[i..], m.stacks[i..], remainingStrings, remainingNumbers, schemas, global, local)
             == Column(m.types, m.stacks, m.strings, m.numbers, schemas, global, local)
    {
      var schema := schemas[m.types[i]];
      assert m.types[i..][1..] == m.types[i + 1..] && m.stacks[i..][1..] == m.stacks[i + 1..];
      var stringFields := remainingStrings[..schema.stringCount];
      remainingStrings := remainingStrings[schema.stringCount..];
      var numberFields := remainingNumbers[..schema.numberCount];
      remainingNumbers := remainingNumbers[schema.numberCount..];
      var entries := SerializeElement(schema.fields, stringFields, numberFields, global, local);
      rows := rows + [Element(schema.typeName, m.stacks[i], entries)];
    }
    assert m.types[len..] == [];
  }

  lemma EntriesUnfold(fields: seq<Field>, j: nat, strings: seq<u32>, numbers: seq<real>, global: Strings, local: nat)
    requires Readable(fields, j, strings, numbers, |global.strings|, local) && j < |fields|
    ensures fields[j].format.Kind() == StringKind ==>
      && strings != [] && Readable(fields, j + 1, strings[1..], numbers, |global.strings|, local)
      && (!NeedsConversion(fields[j]) ==> strings[0] < |global.strings|)
      && Entries(fields, j, strings, numbers, global, local)
         == [(fields[j].key, if NeedsConversion(fields[j]) then StringIndex(strings[0]) else Text(global.strings[strings[0]]))]
            + Entries(fields, j + 1, strings[1..], numbers, global, local)
    ensures fields[j].format.Kind() == NumberKind ==>
      && numbers != [] && Readable(fields, j + 1, strings, numbers[1..], |global.strings|, local)
      && Entries(fields, j, strings, numbers, global, local)
         == [(fields[j].key, Number(numbers[0]))] + Entries(fields, j + 1, strings, numbers[1..], global, local)
  {
  }

  method SerializeElement(fields: seq<Field>, strings: seq<u32>, numbers: seq<real>, global: Strings, ghost local: nat)
    returns (entries: seq<(string, Value)>)
    requires Readable(fields, 0, strings, numbers, |global.strings|, local)
    ensures entries == Entries(fields, 0, strings, numbers, global, local)
  {
    var stringFields, numberFields := strings, numbers;
    entries := [];
    for j := 0 to |fields|
      invariant Readable(fields, j, stringFields, numberFields, |global.strings|, local)
      invariant entries + Entries(fields, j, stringFields, numberFields, global, local)
             == Entries(fields, 0, strings, numbers, global, local)
    {
      hide *;
      EntriesUnfold(fields, j, stringFields, numberFields, global, local);
      var value;
      if fields[j].format.Kind() == StringKind {
        value := if NeedsConversion(fields[j]) then StringIndex(stringFields[0]) else Text(global.strings[stringFields[0]]);
        stringFields := stringFields[1..];
      } else {
        value := Number(numberFields[0]);
        numberFields := numberFields[1..];
      }
      AppendAssociates(entries, (fields[j].key, value), Entries(fields, j + 1, stringFields, numberFields, global, local));
      entries := entries + [(fields[j].key, value)];
    }
  }

  class MarkerTable {
    ghost const owner: nat
    var markerCategories: seq<nat>
    var markerNameStringIndexes: seq<u32>
    var markerStarts: seq<Option<u64>>
    var markerEnds: seq<Option<u64>>
    var markerPhases: seq<Phase>
    var markerTypeHandles: seq<nat>
    var markerStacks: seq<Option<nat>>
    var markerFieldNumberValues: seq<real>
    var markerFieldStringValues: seq<u32>

    constructor (ghost owner: nat)
      ensures this.owner == owner && View() == NoMarkers
    {
      this.owner := owner;
      markerCategories, markerNameStringIndexes, markerStarts, markerEnds := [], [], [], [];
      markerPhases, markerTypeHandles, markerStacks := [], [], [];
      markerFieldNumberValues, markerFieldStringValues := [], [];
    }

    function View(): Markers
      reads this
    {
      Markers(markerCategories, markerNameStringIndexes, markerStarts, markerEnds, markerPhases,
              markerTypeHandles, markerStacks, markerFieldNumberValues, markerFieldStringValues)
    }

    method AddMarker(name: u32, markerType: nat, schema: Schema, marker: Marker, timing: Timing,
                     thread: ThreadStringTable, global: GlobalStringTable)
      returns (handle: nat)
      requires thread.table != global.table
      requires View().SameLengths() && HandlesKnown(schema.fields, 0, marker, global.View())
      modifies this, thread, thread.table
      ensures (View(), thread.View(), handle)
           == old(View().Add(name, markerType, schema.fields, marker, timing, thread.View(), global.View()))
      ensures handle == old(|markerCategories|) && handle < |markerStarts| == |markerEnds| == |markerPhases|
      ensures TimingShown(timing, markerStarts[handle], markerEnds[handle], markerPhases[handle])
    {
      hide ConvertFields, StringsOf, NumbersOf, Converted, HandlesKnown;
      var (start, end, phase) := Split(timing);
      handle := |markerCategories|;
      markerCategories := markerCategories + [marker.category];
      markerNameStringIndexes := markerNameStringIndexes + [name];
      markerStarts := markerStarts + [start];
      markerEnds := markerEnds + [end];
      markerPhases := markerPhases + [phase];
      markerTypeHandles := markerTypeHandles + [markerType];
      markerStacks := markerStacks + [None];
      PushFieldValues(schema.fields, marker, thread, global);
    }

    /** The loop over the schema's fields. */
    method PushFieldValues(fields: seq<Field>, marker: Marker, thread: ThreadStringTable, global: GlobalStringTable)
      requires thread.table != global.table && HandlesKnown(fields, 0, marker, global.View())
      modifies `markerFieldNumberValues, `markerFieldStringValues, thread, thread.table
      ensures thread.View() == old(ConvertFields(fields, 0, marker, thread.View(), global.View()))
      ensures Converted(fields, 0, marker, thread.View().converted)
      ensures markerFieldStringValues == old(markerFieldStringValues) + StringsOf(fields, 0, marker, thread.View().converted)
      ensures markerFieldNumberValues == old(markerFieldNumberValues) + NumbersOf(fields, 0, marker)
    {
      ghost var final := ConvertFields(fields, 0, marker, thread.View(), global.View());
      ConvertFieldsConverts(fields, 0, marker, thread.View(), global.View());
      for j := 0 to |fields|
        invariant global.View() == old(global.View())
        invariant ConvertFields(fields, j, marker, thread.View(), global.View()) == final
        invariant Converted(fields, j, marker, final.converted)
        invariant markerFieldStringValues + StringsOf(fields, j, marker, final.converted)
               == old(markerFieldStringValues) + StringsOf(fields, 0, marker, final.converted)
        invariant markerFieldNumberValues + NumbersOf(fields, j, marker)
               == old(markerFieldNumberValues) + NumbersOf(fields, 0, marker)
      {
        ConvertFieldsConverts(fields, j + 1, marker,
          if NeedsConversion(fields[j]) then thread.View().Convert(marker.stringFieldValue(j), global.View()).0 else thread.View(),
          global.View());
        match fields[j].format.Kind() {
          case StringKind =>
            var globalIndex := marker.stringFieldValue(j);
            var stringIndex := globalIndex;
            if NeedsConversion(fields[j]) {
              stringIndex := thread.IndexForGlobalString(globalIndex, global);
            }
            markerFieldStringValues := markerFieldStringValues + [stringIndex];
          case NumberKind =>
            markerFieldNumberValues := markerFieldNumberValues + [marker.numberFieldValue(j)];
        }
      }
    }

    method SetMarkerStack(marker: nat, stack: Option<nat>)
      requires marker < |markerStacks|
      modifies this
      ensures View() == old(View()).SetStack(marker, stack)
    {
      markerStacks := markerStacks[marker := stack];
    }
  }
}
