/** Properties of an ETW event, cut out of its buffer on demand
    (etw-reader/src/parser.rs, utils.rs, property.rs). */
module EtwParsers {
  import opened Prelude

  datatype InType =
    | Boolean | Int8 | UInt8 | Int16 | UInt16 | Int32 | UInt32 | HexInt32 | Int64 | UInt64 | HexInt64
    | Pointer | Guid | UnicodeString | AnsiString | OtherType

  datatype Desc = Primitive(inType: InType) | Struct
  datatype PropertyLength = LengthIndex(index: nat) | Length(length: nat)
  datatype Property = Property(name: string, desc: Desc, count: nat, length: PropertyLength, flagsEmpty: bool)

  datatype ParserError = UnknownProperty(name: string) | OutOfBufferBounds(size: nat, available: nat)

  /** What a query ends with; an unanswered size query of the operating system is a panic. */
  datatype Outcome = Found(index: nat) | Failed(error: ParserError) | Panic

  datatype PropertyInfo = PropertyInfo(property: Property, offset: nat, buffer: seq<Byte>)

  /** An event: its properties, the answers of the operating system's size query, the pointer width. */
  datatype Event = Event(properties: seq<Property>, tdhSize: map<string, nat>, is32Bit: bool, buffer: seq<Byte>)

  // ----- strings of unknown size -----

  /** `chunks_exact(2).take_while(!= [0, 0]).count() * 2 + 2` */
  function UnicodeSize(v: seq<Byte>): nat {
    if |v| < 2 || (v[0] == 0 && v[1] == 0) then 2 else 2 + UnicodeSize(v[2..])
  }

  /** `take_while(!= 0).count() + 1` */
  function AnsiSize(v: seq<Byte>): nat {
    if v == [] || v[0] == 0 then 1 else 1 + AnsiSize(v[1..])
  }

  ghost predicate NullPairAt(v: seq<Byte>, i: int) {
    0 <= i && i + 1 < |v| && i % 2 == 0 && v[i] == 0 && v[i + 1] == 0
  }

  /** The size ends at the first aligned pair of zeros; without one it is larger than the buffer. */
  lemma {:induction false} UnicodeSizeEndsAtNullPair(v: seq<Byte>)
    ensures UnicodeSize(v) <= |v| <==> exists i :: NullPairAt(v, i)
    ensures UnicodeSize(v) <= |v| ==> NullPairAt(v, UnicodeSize(v) - 2)
    ensures forall i :: 0 <= i < UnicodeSize(v) - 2 ==> !NullPairAt(v, i)
  {
    if |v| >= 2 && !(v[0] == 0 && v[1] == 0) {
      var rest := v[2..];
      UnicodeSizeEndsAtNullPair(rest);
      forall i | i >= 2
        ensures NullPairAt(v, i) <==> NullPairAt(rest, i - 2)
      {
      }
      assert !NullPairAt(v, 0) && !NullPairAt(v, 1);
      if exists i :: NullPairAt(rest, i) {
        var i :| NullPairAt(rest, i);
        assert NullPairAt(v, i + 2);
      }
      if exists i :: NullPairAt(v, i) {
        var i :| NullPairAt(v, i);
        assert NullPairAt(rest, i - 2);
      }
    } else if |v| >= 2 {
      assert NullPairAt(v, 0);
    }
  }

  /** Likewise for the first zero byte. */
  lemma {:induction false} AnsiSizeEndsAtNull(v: seq<Byte>)
    ensures AnsiSize(v) <= |v| <==> 0 in v
    ensures AnsiSize(v) <= |v| ==> v[AnsiSize(v) - 1] == 0
    ensures forall i :: 0 <= i < AnsiSize(v) - 1 && i < |v| ==> v[i] != 0
  {
    if v != [] && v[0] != 0 {
      AnsiSizeEndsAtNull(v[1..]);
      assert v == [v[0]] + v[1..];
    }
  }

  /** Without an end in sight all whole pairs, or all bytes, are counted and the missing end as well. */
  lemma {:induction false} UnterminatedSizes(v: seq<Byte>)
    ensures UnicodeSize(v) > |v| ==> UnicodeSize(v) == |v| / 2 * 2 + 2
    ensures AnsiSize(v) > |v| ==> AnsiSize(v) == |v| + 1
    ensures UnicodeSize(v) % 2 == 0
    decreases |v|
  {
    if |v| >= 2 {
      UnterminatedSizes(v[2..]);
    }
    if |v| >= 1 {
      UnterminatedSizes(v[1..]);
    }
  }

  // ----- the size of one property -----

  function TdhSize(e: Event, name: string): Option<nat> {
    if name in e.tdhSize then Some(e.tdhSize[name]) else None
  }

  function SizeOfType(e: Event, inType: InType, remaining: seq<Byte>): Option<nat> {
    match inType
    case Boolean => Some(4)
    case Int32 => Some(4)
    case UInt32 => Some(4)
    case HexInt32 => Some(4)
    case Int64 => Some(8)
    case UInt64 => Some(8)
    case HexInt64 => Some(8)
    case Int8 => Some(1)
    case UInt8 => Some(1)
    case Int16 => Some(2)
    case UInt16 => Some(2)
    case Pointer => Some(if e.is32Bit then 4 else 8)
    case Guid => Some(16)
    case UnicodeString => Some(UnicodeSize(remaining))
    case AnsiString => Some(AnsiSize(remaining))
    case OtherType => None
  }

  /** `find_property_size`; `None` is the panic of an unanswered size query. */
  function PropertySize(e: Event, property: Property, remaining: seq<Byte>): Option<nat> {
    match property.length
    case LengthIndex(_) => TdhSize(e, property.name)
    case Length(length) =>
      if property.flagsEmpty && length > 0 && property.count == 1 then Some(length)
      else if property.count == 1 && property.desc.Primitive? && property.desc.inType != OtherType then
        SizeOfType(e, property.desc.inType, remaining)
      else TdhSize(e, property.name)
  }

  // ----- the size, said of the property -----

  /** What the operating system answers. */
  ghost predicate Answered(e: Event, property: Property, size: nat) {
    property.name in e.tdhSize && e.tdhSize[property.name] == size
  }

  /** A null-terminated string of pairs: it ends with the first aligned pair of zeros, and is too long for the
      rest when there is none. */
  ghost predicate EndsAtNullPair(rest: seq<Byte>, size: nat) {
    && size >= 2 && (forall i :: 0 <= i < size - 2 ==> !NullPairAt(rest, i))
    && if size <= |rest| then NullPairAt(rest, size - 2) else size == |rest| / 2 * 2 + 2
  }

  ghost predicate EndsAtNull(rest: seq<Byte>, size: nat) {
    && size >= 1 && (forall i :: 0 <= i < size - 1 && i < |rest| ==> rest[i] != 0)
    && if size <= |rest| then rest[size - 1] == 0 else size == |rest| + 1
  }

  /** How many bytes of the rest of the buffer a property takes. */
  ghost predicate Takes(e: Event, property: Property, rest: seq<Byte>, size: nat) {
    match property.length
    case LengthIndex(_) => Answered(e, property, size)
    case Length(length) =>
      if property.count != 1 then Answered(e, property, size)
      else if property.flagsEmpty && length > 0 then size == length
      else
        match property.desc
        case Struct => Answered(e, property, size)
        case Primitive(inType) =>
          match inType
          case Int8 | UInt8 => size == 1
          case Int16 | UInt16 => size == 2
          case Boolean | Int32 | UInt32 | HexInt32 => size == 4
          case Int64 | UInt64 | HexInt64 => size == 8
          case Guid => size == 16
          case Pointer => size == if e.is32Bit then 4 else 8
          case UnicodeString => EndsAtNullPair(rest, size)
          case AnsiString => EndsAtNull(rest, size)
          case OtherType => Answered(e, property, size)
  }

  lemma NullPairSize(rest: seq<Byte>, size: nat)
    ensures UnicodeSize(rest) == size <==> EndsAtNullPair(rest, size)
  {
    UnicodeSizeEndsAtNullPair(rest);
    UnterminatedSizes(rest);
    var n := UnicodeSize(rest);
    if EndsAtNullPair(rest, size) && size <= |rest| {
      assert NullPairAt(rest, size - 2);
      assert n <= |rest| && NullPairAt(rest, n - 2);
    }
    if EndsAtNullPair(rest, size) && n <= |rest| {
      assert NullPairAt(rest, n - 2);
    }
  }

  lemma NullSize(rest: seq<Byte>, size: nat)
    ensures AnsiSize(rest) == size <==> EndsAtNull(rest, size)
  {
    AnsiSizeEndsAtNull(rest);
    UnterminatedSizes(rest);
  }

  lemma PropertyTakesItsSize(e: Event, property: Property, rest: seq<Byte>, size: nat)
    ensures PropertySize(e, property, rest) == Some(size) <==> Takes(e, property, rest, size)
  {
    NullPairSize(rest, size);
    NullSize(rest, size);
    hide EndsAtNullPair, EndsAtNull, UnicodeSize, AnsiSize;
  }

  // ----- one eager parse, from the left -----

  datatype Eager = Eager(infos: seq<PropertyInfo>, rest: seq<Byte>, stop: Outcome)

  /** All properties from the i-th on; `stop` says why the parse ended before the last one. */
  function ParseFrom(e: Event, i: nat, offset: nat, remaining: seq<Byte>): Eager
    requires i <= |e.properties|
    decreases |e.properties| - i
  {
    if i == |e.properties| then Eager([], remaining, Found(i))
    else
      match PropertySize(e, e.properties[i], remaining)
      case None => Eager([], remaining, Panic)
      case Some(size) =>
        if |remaining| < size then Eager([], remaining, Failed(OutOfBufferBounds(size, |remaining|)))
        else
          var tail := ParseFrom(e, i + 1, offset + size, remaining[size..]);
          tail.(infos := [PropertyInfo(e.properties[i], offset, remaining[..size])] + tail.infos)
  }

  function ParseAll(e: Event): Eager {
    ParseFrom(e, 0, 0, e.buffer)
  }

  /** Which property a name means: the last one that has it. */
  function IndexOfName(properties: seq<Property>, name: string, n: nat): (r: Option<nat>)
    requires n <= |properties|
    ensures r.Some? ==> r.value < n && properties[r.value].name == name
    ensures r.Some? ==> forall k :: r.value < k < n ==> properties[k].name != name
    ensures r.None? ==> forall k :: 0 <= k < n ==> properties[k].name != name
  {
    if n == 0 then None
    else if properties[n - 1].name == name then Some(n - 1)
    else IndexOfName(properties, name, n - 1)
  }

  /** What a query is answered if everything was parsed beforehand. */
  function EagerAnswer(e: Event, name: string): Outcome {
    match IndexOfName(e.properties, name, |e.properties|)
    case None => Failed(UnknownProperty(name))
    case Some(i) => if i < |ParseAll(e).infos| then Found(i) else ParseAll(e).stop
  }

  // ----- the lazy parser -----

  datatype State = State(buffer: seq<Byte>, offset: nat, cache: seq<PropertyInfo>)

  function Start(e: Event): State {
    State(e.buffer, 0, [])
  }

  /** The rest of the parse is what an eager parse still has to do. */
  ghost predicate OnTrack(e: Event, s: State) {
    && |s.cache| <= |e.properties|
    && var tail := ParseFrom(e, |s.cache|, s.offset, s.buffer);
       ParseAll(e) == tail.(infos := s.cache + tail.infos)
  }

  /** The loop of `find_property`: the cache is filled up to and including `index`. */
  function FillTo(e: Event, s: State, index: nat): (State, Outcome)
    requires |s.cache| <= |e.properties| && index < |e.properties|
    decreases index - |s.cache|
  {
    var i := |s.cache|;
    if index < i then (s, Found(index))
    else
      match PropertySize(e, e.properties[i], s.buffer)
      case None => (s, Panic)
      case Some(size) =>
        if |s.buffer| < size then (s, Failed(OutOfBufferBounds(size, |s.buffer|)))
        else
          FillTo(e, State(s.buffer[size..], s.offset + size,
                          s.cache + [PropertyInfo(e.properties[i], s.offset, s.buffer[..size])]), index)
  }

  lemma FillToUnfolds(e: Event, s: State, index: nat)
    requires |s.cache| <= |e.properties| && index < |e.properties|
    ensures index < |s.cache| ==> FillTo(e, s, index) == (s, Found(index))
    ensures |s.cache| <= index ==>
      var i := |s.cache|;
      var size := PropertySize(e, e.properties[i], s.buffer);
      && (size.None? ==> FillTo(e, s, index) == (s, Panic))
      && (size.Some? && |s.buffer| < size.value ==> FillTo(e, s, index) == (s, Failed(OutOfBufferBounds(size.value, |s.buffer|))))
      && (size.Some? && size.value <= |s.buffer| ==>
           FillTo(e, s, index)
           == FillTo(e, State(s.buffer[size.value..], s.offset + size.value,
                              s.cache + [PropertyInfo(e.properties[i], s.offset, s.buffer[..size.value])]), index))
  {
    hide PropertySize;
  }

  function LazyFind(e: Event, s: State, name: string): (State, Outcome)
    requires |s.cache| <= |e.properties|
  {
    match IndexOfName(e.properties, name, |e.properties|)
    case None => (s, Failed(UnknownProperty(name)))
    case Some(index) => FillTo(e, s, index)
  }

  lemma OneMoreOnTrack(e: Event, s: State, size: nat)
    requires OnTrack(e, s) && |s.cache| < |e.properties| && size <= |s.buffer|
    requires PropertySize(e, e.properties[|s.cache|], s.buffer) == Some(size)
    ensures OnTrack(e, State(s.buffer[size..], s.offset + size,
                             s.cache + [PropertyInfo(e.properties[|s.cache|], s.offset, s.buffer[..size])]))
  {
    hide PropertySize, ParseAll;
    var info := PropertyInfo(e.properties[|s.cache|], s.offset, s.buffer[..size]);
    var tail := ParseFrom(e, |s.cache| + 1, s.offset + size, s.buffer[size..]);
    assert s.cache + ([info] + tail.infos) == (s.cache + [info]) + tail.infos;
  }

  lemma StopOnTrack(e: Event, s: State, stop: Outcome)
    requires OnTrack(e, s) && |s.cache| < |e.properties|
    requires match PropertySize(e, e.properties[|s.cache|], s.buffer)
             case None => stop == Panic
             case Some(size) => |s.buffer| < size && stop == Failed(OutOfBufferBounds(size, |s.buffer|))
    ensures ParseAll(e) == Eager(s.cache, s.buffer, stop)
  {
    hide PropertySize, ParseAll;
    assert s.cache + [] == s.cache;
  }

  lemma {:induction false} FillStaysOnTrack(e: Event, s: State, index: nat)
    requires OnTrack(e, s) && |s.cache| <= |e.properties| && index < |e.properties|
    ensures var (s', r) := FillTo(e, s, index);
      && OnTrack(e, s') && s.cache <= s'.cache
      && (r.Found? ==> r == Found(index) && index < |s'.cache|)
      && (!r.Found? ==> r == ParseAll(e).stop && s'.cache == ParseAll(e).infos && |s'.cache| <= index)
    decreases index - |s.cache|
  {
    hide *;
    FillToUnfolds(e, s, index);
    var i := |s.cache|;
    if i <= index {
      var size := PropertySize(e, e.properties[i], s.buffer);
      if size.Some? && size.value <= |s.buffer| {
        OneMoreOnTrack(e, s, size.value);
        var info := PropertyInfo(e.properties[i], s.offset, s.buffer[..size.value]);
        FillStaysOnTrack(e, State(s.buffer[size.value..], s.offset + size.value, s.cache + [info]), index);
      } else {
        StopOnTrack(e, s, if size.None? then Panic else Failed(OutOfBufferBounds(size.value, |s.buffer|)));
      }
    }
  }

  // ----- over every run of queries -----

  function Run(e: Event, names: seq<string>): (s: State)
    ensures |s.cache| <= |e.properties|
  {
    if names == [] then Start(e)
    else
      var before := Run(e, names[..|names| - 1]);
      FillKeepsBound(e, before, names[|names| - 1]);
      LazyFind(e, before, names[|names| - 1]).0
  }

  lemma {:induction false} FillKeepsBound(e: Event, s: State, name: string)
    requires |s.cache| <= |e.properties|
    ensures |LazyFind(e, s, name).0.cache| <= |e.properties|
  {
    var index := IndexOfName(e.properties, name, |e.properties|);
    if index.Some? {
      FillBounded(e, s, index.value);
    }
  }

  lemma {:induction false} FillBounded(e: Event, s: State, index: nat)
    requires |s.cache| <= |e.properties| && index < |e.properties|
    ensures |FillTo(e, s, index).0.cache| <= |e.properties|
    decreases index - |s.cache|
  {
    var i := |s.cache|;
    if i <= index {
      var size := PropertySize(e, e.properties[i], s.buffer);
      if size.Some? && size.value <= |s.buffer| {
        FillBounded(e, State(s.buffer[size.value..], s.offset + size.value,
                             s.cache + [PropertyInfo(e.properties[i], s.offset, s.buffer[..size.value])]), index);
      }
    }
  }

  lemma {:induction false} RunsStayOnTrack(e: Event, names: seq<string>)
    ensures OnTrack(e, Run(e, names))
  {
    if names == [] {
      assert [] + ParseAll(e).infos == ParseAll(e).infos;
    } else {
      var before, name := Run(e, names[..|names| - 1]), names[|names| - 1];
      RunsStayOnTrack(e, names[..|names| - 1]);
      var index := IndexOfName(e.properties, name, |e.properties|);
      if index.Some? {
        FillStaysOnTrack(e, before, index.value);
      }
    }
  }

  /** After any queries, failing ones included, a query is answered as if the event had been parsed
      eagerly, and the property found is the eagerly parsed one. */
  lemma QueriesDoNotInterfere(e: Event, names: seq<string>, name: string)
    ensures var (s, r) := LazyFind(e, Run(e, names), name);
      && r == EagerAnswer(e, name)
      && (r.Found? ==> r.index < |s.cache| && r.index < |ParseAll(e).infos| && s.cache[r.index] == ParseAll(e).infos[r.index])
  {
    RunsStayOnTrack(e, names);
    var s0 := Run(e, names);
    var index := IndexOfName(e.properties, name, |e.properties|);
    if index.Some? {
      FillStaysOnTrack(e, s0, index.value);
      var (s, r) := FillTo(e, s0, index.value);
      hide ParseFrom, FillTo, Run;
      assert s.cache <= ParseAll(e).infos;
    }
  }

  function Concat(infos: seq<PropertyInfo>): seq<Byte> {
    if infos == [] then [] else Concat(infos[..|infos| - 1]) + infos[|infos| - 1].buffer
  }

  /** Offsets are the running sums of the sizes. */
  ghost predicate OffsetsAreSums(infos: seq<PropertyInfo>) {
    forall i :: 0 <= i < |infos| ==> infos[i].offset == |Concat(infos[..i])|
  }

  ghost predicate Partition(e: Event, s: State) {
    Concat(s.cache) + s.buffer == e.buffer && s.offset == |Concat(s.cache)| && OffsetsAreSums(s.cache)
  }

  lemma {:induction false} FillPartitions(e: Event, s: State, index: nat)
    requires |s.cache| <= |e.properties| && index < |e.properties| && Partition(e, s)
    ensures Partition(e, FillTo(e, s, index).0)
    decreases index - |s.cache|
  {
    hide Partition, PropertySize;
    var i := |s.cache|;
    if i <= index {
      var size := PropertySize(e, e.properties[i], s.buffer);
      if size.Some? && size.value <= |s.buffer| {
        var info := PropertyInfo(e.properties[i], s.offset, s.buffer[..size.value]);
        OneMoreCut(e, s, info, size.value);
        FillPartitions(e, State(s.buffer[size.value..], s.offset + size.value, s.cache + [info]), index);
      }
    }
  }

  lemma OneMoreCut(e: Event, s: State, info: PropertyInfo, size: nat)
    requires Partition(e, s) && size <= |s.buffer| && info.offset == s.offset && info.buffer == s.buffer[..size]
    ensures Partition(e, State(s.buffer[size..], s.offset + size, s.cache + [info]))
  {
    var cache' := s.cache + [info];
    assert cache'[..|cache'| - 1] == s.cache;
    assert Concat(cache') == Concat(s.cache) + s.buffer[..size];
    assert Concat(s.cache) + s.buffer[..size] + s.buffer[size..] == Concat(s.cache) + s.buffer;
    forall i | 0 <= i < |cache'|
      ensures cache'[i].offset == |Concat(cache'[..i])|
    {
      if i < |s.cache| {
        assert cache'[..i] == s.cache[..i];
      }
    }
  }

  /** After any queries the cached slices and the remaining buffer are the event's buffer, and offsets
      are running sums. */
  lemma {:induction false} RunsPartitionBuffer(e: Event, names: seq<string>)
    ensures Partition(e, Run(e, names))
  {
    if names != [] {
      var before, name := Run(e, names[..|names| - 1]), names[|names| - 1];
      RunsPartitionBuffer(e, names[..|names| - 1]);
      var index := IndexOfName(e.properties, name, |e.properties|);
      if index.Some? {
        FillPartitions(e, before, index.value);
      }
    }
  }

  // ----- where each property is cut -----

  function EndOf(infos: seq<PropertyInfo>): nat {
    if infos == [] then 0 else infos[|infos| - 1].offset + |infos[|infos| - 1].buffer|
  }

  /** The property takes its bytes from this place of the event's buffer. */
  ghost predicate CutAt(e: Event, info: PropertyInfo, property: Property, offset: nat) {
    && info.property == property && info.offset == offset && offset + |info.buffer| <= |e.buffer|
    && info.buffer == e.buffer[offset..offset + |info.buffer|]
    && Takes(e, property, e.buffer[offset..], |info.buffer|)
  }

  /** The properties so far are cut one behind the other, and the rest is what lies behind the last one. */
  ghost predicate CutUp(e: Event, s: State) {
    && |s.cache| <= |e.properties| && s.offset == EndOf(s.cache) <= |e.buffer| && s.buffer == e.buffer[s.offset..]
    && forall i :: 0 <= i < |s.cache| ==> CutAt(e, s.cache[i], e.properties[i], EndOf(s.cache[..i]))
  }

  /** Why the next property could not be cut: nobody knows its size, or it is larger than the rest. */
  ghost predicate StopsFor(e: Event, s: State, r: Outcome) {
    && |s.cache| < |e.properties|
    && var next := e.properties[|s.cache|];
    match r
    case Panic => forall size :: !Takes(e, next, s.buffer, size)
    case Failed(OutOfBufferBounds(size, available)) => Takes(e, next, s.buffer, size) && size > available == |s.buffer|
    case _ => false
  }

  lemma CutUpUnfolds(e: Event, s: State)
    requires CutUp(e, s)
    ensures |s.cache| <= |e.properties| && s.offset == EndOf(s.cache) <= |e.buffer| && s.buffer == e.buffer[s.offset..]
    ensures forall i :: 0 <= i < |s.cache| ==> CutAt(e, s.cache[i], e.properties[i], EndOf(s.cache[..i]))
  {
  }

  lemma NextCut(e: Event, property: Property, offset: nat, rest: seq<Byte>, size: nat)
    requires offset <= |e.buffer| && rest == e.buffer[offset..] && size <= |rest| && Takes(e, property, rest, size)
    ensures CutAt(e, PropertyInfo(property, offset, rest[..size]), property, offset) && rest[size..] == e.buffer[offset + size..]
  {
    hide Takes;
  }

  lemma OneMoreIsCut(e: Event, s: State, size: nat)
    requires CutUp(e, s) && |s.cache| < |e.properties| && size <= |s.buffer|
    requires Takes(e, e.properties[|s.cache|], s.buffer, size)
    ensures CutUp(e, State(s.buffer[size..], s.offset + size,
                           s.cache + [PropertyInfo(e.properties[|s.cache|], s.offset, s.buffer[..size])]))
  {
    hide *;
    CutUpUnfolds(e, s);
    var info := PropertyInfo(e.properties[|s.cache|], s.offset, s.buffer[..size]);
    var cache' := s.cache + [info];
    NextCut(e, info.property, s.offset, s.buffer, size);
    forall i | 0 <= i < |cache'|
      ensures CutAt(e, cache'[i], e.properties[i], EndOf(cache'[..i]))
    {
      if i < |s.cache| {
        assert cache'[..i] == s.cache[..i];
      } else {
        assert cache'[..i] == s.cache;
      }
    }
    EndOfLast(s.cache, info);
    CutUpFolds(e, State(s.buffer[size..], s.offset + size, cache'));
  }

  lemma EndOfLast(infos: seq<PropertyInfo>, info: PropertyInfo)
    ensures EndOf(infos + [info]) == info.offset + |info.buffer|
  {
  }

  lemma CutUpFolds(e: Event, s: State)
    requires |s.cache| <= |e.properties| && s.offset == EndOf(s.cache) <= |e.buffer| && s.buffer == e.buffer[s.offset..]
    requires forall i :: 0 <= i < |s.cache| ==> CutAt(e, s.cache[i], e.properties[i], EndOf(s.cache[..i]))
    ensures CutUp(e, s)
  {
  }

  lemma StopsUnsized(e: Event, s: State)
    requires |s.cache| < |e.properties| && PropertySize(e, e.properties[|s.cache|], s.buffer) == None
    ensures StopsFor(e, s, Panic)
  {
    hide Takes, PropertySize;
    forall n: nat
      ensures !Takes(e, e.properties[|s.cache|], s.buffer, n)
    {
      PropertyTakesItsSize(e, e.properties[|s.cache|], s.buffer, n);
    }
  }

  lemma StopsOversized(e: Event, s: State, size: nat)
    requires |s.cache| < |e.properties| && PropertySize(e, e.properties[|s.cache|], s.buffer) == Some(size) && size > |s.buffer|
    ensures StopsFor(e, s, Failed(OutOfBufferBounds(size, |s.buffer|)))
  {
    hide Takes, PropertySize;
    PropertyTakesItsSize(e, e.properties[|s.cache|], s.buffer, size);
  }

  lemma {:induction false} FillCuts(e: Event, s: State, index: nat)
    requires CutUp(e, s) && |s.cache| <= |e.properties| && index < |e.properties|
    ensures var (s', r) := FillTo(e, s, index);
      && CutUp(e, s') && (if r.Found? then r.index == index < |s'.cache| else |s'.cache| <= index && StopsFor(e, s', r))
    decreases index - |s.cache|
  {
    hide *;
    FillToUnfolds(e, s, index);
    var i := |s.cache|;
    if i <= index {
      var size := PropertySize(e, e.properties[i], s.buffer);
      if size.None? {
        StopsUnsized(e, s);
      } else if size.value > |s.buffer| {
        StopsOversized(e, s, size.value);
      } else {
        PropertyTakesItsSize(e, e.properties[i], s.buffer, size.value);
        OneMoreIsCut(e, s, size.value);
        var info := PropertyInfo(e.properties[i], s.offset, s.buffer[..size.value]);
        FillCuts(e, State(s.buffer[size.value..], s.offset + size.value, s.cache + [info]), index);
      }
    }
  }

  lemma FindCuts(e: Event, s: State, name: string)
    requires CutUp(e, s)
    ensures |s.cache| <= |e.properties|
    ensures var (s', r) := LazyFind(e, s, name);
      && CutUp(e, s')
      && match r
         case Found(i) => i < |s'.cache| <= |e.properties| && CutAt(e, s'.cache[i], e.properties[i], EndOf(s'.cache[..i]))
         case Failed(UnknownProperty(_)) => s' == s && IndexOfName(e.properties, name, |e.properties|) == None
         case _ => StopsFor(e, s', r)
    ensures forall i :: IndexOfName(e.properties, name, |e.properties|) == Some(i) ==>
      var (s', r) := LazyFind(e, s, name);
      (s', r) == FillTo(e, s, i) && if r.Found? then r.index == i else |s'.cache| <= i
  {
    CutUpUnfolds(e, s);
    var index := IndexOfName(e.properties, name, |e.properties|);
    if index.Some? {
      FillCuts(e, s, index.value);
      CutUpUnfolds(e, FillTo(e, s, index.value).0);
    }
    hide CutUp, CutAt, EndOf, FillTo, StopsFor;
  }

  lemma {:induction false} RunsCutUp(e: Event, names: seq<string>)
    ensures CutUp(e, Run(e, names))
  {
    if names == [] {
      assert e.buffer[0..] == e.buffer;
    } else {
      RunsCutUp(e, names[..|names| - 1]);
      FindCuts(e, Run(e, names[..|names| - 1]), names[|names| - 1]);
    }
  }

  /** After any queries, a query finds the last property of the name, cut out where the properties before it
      end and with the size its type, its length and the buffer give it; or it says that there is none of the
      name, or which property up to it cannot be cut and why. */
  lemma QueryCutsProperty(e: Event, names: seq<string>, name: string)
    ensures var (s, r) := LazyFind(e, Run(e, names), name);
      && CutUp(e, s)
      && match r
         case Found(i) =>
           && i < |s.cache| && e.properties[i].name == name && CutAt(e, s.cache[i], e.properties[i], EndOf(s.cache[..i]))
           && forall k :: i < k < |e.properties| ==> e.properties[k].name != name
         case Failed(UnknownProperty(unknown)) => unknown == name && forall p :: p in e.properties ==> p.name != name
         case _ => StopsFor(e, s, r) && exists k :: |s.cache| <= k < |e.properties| && e.properties[k].name == name
  {
    RunsCutUp(e, names);
    FindCuts(e, Run(e, names), name);
    var index := IndexOfName(e.properties, name, |e.properties|);
    hide Run, LazyFind, CutUp, CutAt, StopsFor;
    if index.Some? {
      assert e.properties[index.value].name == name;
    }
  }

  // ----- the objects -----

  class PropertyIter {
    var properties: seq<Property>
    var nameToIndx: map<string, nat>

    /** A later property of the same name replaces the earlier one in the map. */
    constructor (schema: seq<Property>)
      ensures properties == schema
      ensures forall name :: name in nameToIndx <==> IndexOfName(schema, name, |schema|).Some?
      ensures forall name :: name in nameToIndx ==> IndexOfName(schema, name, |schema|) == Some(nameToIndx[name])
    {
      properties, nameToIndx := [], map[];
      new;
      for i := 0 to |schema|
        invariant properties == schema[..i]
        invariant forall name :: name in nameToIndx <==> IndexOfName(schema, name, i).Some?
        invariant forall name :: name in nameToIndx ==> IndexOfName(schema, name, i) == Some(nameToIndx[name])
      {
        var prop := schema[i];
        nameToIndx := nameToIndx[prop.name := i];
        properties := properties + [prop];
      }
    }
  }

  class Parser {
    const event: Event
    const nameToIndx: map<string, nat>
    var buffer: seq<Byte>
    var offset: nat
    var cache: seq<PropertyInfo>

    constructor (event: Event, properties: PropertyIter)
      requires forall name :: name in properties.nameToIndx <==> IndexOfName(event.properties, name, |event.properties|).Some?
      requires forall name :: name in properties.nameToIndx ==>
        IndexOfName(event.properties, name, |event.properties|) == Some(properties.nameToIndx[name])
      ensures this.event == event && Valid() && View() == Start(event)
    {
      this.event, nameToIndx := event, properties.nameToIndx;
      buffer, offset, cache := event.buffer, 0, [];
    }

    function View(): State
      reads this
    {
      State(buffer, offset, cache)
    }

    ghost predicate Valid()
      reads this
    {
      && CutUp(event, View())
      && (forall name :: name in nameToIndx <==> IndexOfName(event.properties, name, |event.properties|).Some?)
      && (forall name :: name in nameToIndx ==>
           IndexOfName(event.properties, name, |event.properties|) == Some(nameToIndx[name]))
    }

    method FindProperty(name: string) returns (r: Outcome)
      requires Valid()
      modifies this
      ensures Valid() && (View(), r) == LazyFind(event, old(View()), name)
      ensures r.Found? ==>
        && r.index < |cache| && event.properties[r.index].name == name
        && CutAt(event, cache[r.index], event.properties[r.index], EndOf(cache[..r.index]))
    {
      hide CutUp, CutAt, EndOf, FillTo, PropertySize, IndexOfName;
      FindCuts(event, View(), name);
      if name !in nameToIndx {
        return Failed(UnknownProperty(name));
      }
      var indx := nameToIndx[name];
      if indx < |cache| {
        FillToUnfolds(event, View(), indx);
        return Found(indx);
      }
      ghost var goal := FillTo(event, View(), indx);
      for i := |cache| to indx + 1
        invariant i == |cache| <= |event.properties|
        invariant FillTo(event, View(), indx) == goal
      {
        FillToUnfolds(event, View(), indx);
        var property := event.properties[i];
        var size := PropertySize(event, property, buffer);
        if size.None? {
          return Panic;
        }
        if |buffer| < size.value {
          return Failed(OutOfBufferBounds(size.value, |buffer|));
        }
        var propertyBuffer, remaining := buffer[..size.value], buffer[size.value..];
        buffer := remaining;
        cache := cache + [PropertyInfo(property, offset, propertyBuffer)];
        offset := offset + size.value;
      }
      FillToUnfolds(event, View(), indx);
      return Found(indx);
    }
  }
}
