/** How a thread merges consecutive idle samples (fxprof-processed-profile/src/thread.rs,
    `add_sample` and `add_sample_same_stack_zero_cpu`). */
module ZeroCpu {
  import opened Prelude
  import opened SampleTables

  /** The sample table with the two fields of `Thread` that decide about merging. */
  datatype Recorder = Recorder(samples: Samples, lastStack: Option<nat>, lastWasZeroCpu: bool) {
    ghost predicate Coherent() {
      && samples.SameLengths()
      && (lastWasZeroCpu ==> samples.weights != [])
      && (samples.weights != [] ==>
           && lastStack == samples.stacks[|samples.stacks| - 1]
           && (lastWasZeroCpu <==> samples.cpuDeltas[|samples.cpuDeltas| - 1] == 0))
      && (samples.weights == [] ==> lastStack == None)
    }

    function Add(s: Sample): Recorder {
      Recorder(samples.Add(s), s.stack, s.cpuDelta == 0)
    }

    function AddSameStackZeroCpu(timestamp: u64, weight: i32): Recorder
      requires samples.SameLengths() && (lastWasZeroCpu ==> samples.weights != [])
    {
      if lastWasZeroCpu then this.(samples := samples.ModifyLast(timestamp, weight))
      else Recorder(samples.Add(Sample(timestamp, lastStack, 0, weight)), lastStack, true)
    }

    function Apply(call: Call): Recorder
      requires samples.SameLengths() && (lastWasZeroCpu ==> samples.weights != [])
    {
      match call
      case Full(s) => Add(s)
      case Same(timestamp, weight) => AddSameStackZeroCpu(timestamp, weight)
    }
  }

  const Idle := Recorder(NoSamples, None, false)

  datatype Call = Full(sample: Sample) | Same(timestamp: u64, weight: i32)

  lemma ApplyCoherent(r: Recorder, call: Call)
    requires r.Coherent()
    ensures r.Apply(call).Coherent()
  {
  }

  function Run(calls: seq<Call>): (r: Recorder)
    ensures r.Coherent()
  {
    if calls == [] then Idle
    else
      ApplyCoherent(Run(calls[..|calls| - 1]), calls[|calls| - 1]);
      Run(calls[..|calls| - 1]).Apply(calls[|calls| - 1])
  }

  // ----- the reference: a log with one row per call -----

  datatype Entry = Entry(sample: Sample, repeats: bool)

  /** What each call means on its own; a repeating call has the stack of the call before it and no CPU time. */
  function Log(calls: seq<Call>): (log: seq<Entry>)
    ensures |log| == |calls|
  {
    if calls == [] then []
    else
      var before := Log(calls[..|calls| - 1]);
      before + [match calls[|calls| - 1]
                case Full(s) => Entry(s, false)
                case Same(timestamp, weight) =>
                  Entry(Sample(timestamp, if before == [] then None else before[|before| - 1].sample.stack, 0, weight), true)]
  }

  function TotalWeight(log: seq<Entry>): int {
    if log == [] then 0 else TotalWeight(log[..|log| - 1]) + log[|log| - 1].sample.weight
  }

  /** A repeating call directly after an entry without CPU time belongs to the group of that entry. */
  predicate Folds(log: seq<Entry>, i: nat)
    requires i < |log|
  {
    i > 0 && log[i].repeats && log[i - 1].sample.cpuDelta == 0
  }

  /** Where the last group of the log begins. */
  function LastHead(log: seq<Entry>): (h: nat)
    requires log != []
    ensures h < |log|
  {
    if Folds(log, |log| - 1) then LastHead(log[..|log| - 1]) else |log| - 1
  }

  /** A group put together: the weights added up in 32 bits, the timestamp of the last call. */
  function Merged(group: seq<Entry>): Sample
    requires group != []
  {
    Sample(group[|group| - 1].sample.timestamp, group[0].sample.stack, group[0].sample.cpuDelta, WrapI32(TotalWeight(group)))
  }

  /** The log with every zero-CPU entry and the repeating calls directly after it put together. */
  function Collapse(log: seq<Entry>): (rows: seq<Sample>)
    ensures log != [] ==> rows != []
    decreases |log|
  {
    if log == [] then [] else Collapse(log[..LastHead(log)]) + [Merged(log[LastHead(log)..])]
  }

  ghost predicate LastIsIdle(log: seq<Entry>) {
    log != [] && log[|log| - 1].sample.cpuDelta == 0
  }

  /** One more call, on the rows: folded into the last row, or a row of its own. */
  function Extend(rows: seq<Sample>, s: Sample, fold: bool): seq<Sample>
    requires fold ==> rows != []
  {
    if fold then
      var last := rows[|rows| - 1];
      rows[..|rows| - 1] + [last.(timestamp := s.timestamp, weight := WrapI32(last.weight + s.weight))]
    else rows + [s]
  }

  lemma MergedOfExtended(group: seq<Entry>, e: Entry)
    requires group != []
    ensures Merged(group + [e]) == Merged(group).(timestamp := e.sample.timestamp, weight := WrapI32(Merged(group).weight + e.sample.weight))
  {
    assert (group + [e])[..|group|] == group;
    WrapOfSum(TotalWeight(group), e.sample.weight);
  }

  lemma MergedOfOne(e: Entry)
    ensures Merged([e]) == e.sample
  {
    assert [e][..0] == [];
    assert TotalWeight([e]) == e.sample.weight;
  }

  lemma LastHeadOfExtended(log: seq<Entry>, e: Entry)
    ensures LastHead(log + [e]) == if e.repeats && LastIsIdle(log) then LastHead(log) else |log|
  {
    assert (log + [e])[..|log|] == log;
  }

  lemma ExtendLast(c: seq<Sample>, last: Sample, s: Sample)
    ensures Extend(c + [last], s, true) == c + [last.(timestamp := s.timestamp, weight := WrapI32(last.weight + s.weight))]
  {
  }

  /** The last group unfolded, with the log given in its two parts. */
  lemma CollapseOfParts(pre: seq<Entry>, group: seq<Entry>)
    requires group != [] && LastHead(pre + group) == |pre|
    ensures Collapse(pre + group) == Collapse(pre) + [Merged(group)]
  {
    assert (pre + group)[..|pre|] == pre;
    assert (pre + group)[|pre|..] == group;
  }

  lemma CollapseFolds(pre: seq<Entry>, group: seq<Entry>, e: Entry)
    requires group != [] && LastHead(pre + group) == |pre|
    requires e.repeats && LastIsIdle(pre + group)
    ensures Collapse(pre + (group + [e])) == Extend(Collapse(pre + group), e.sample, true)
  {
    hide WrapI32;
    assert LastHead(pre + (group + [e])) == |pre| by {
      LastHeadOfExtended(pre + group, e);
      assert pre + (group + [e]) == (pre + group) + [e];
    }
    CollapseOfParts(pre, group);
    CollapseOfParts(pre, group + [e]);
    MergedOfExtended(group, e);
    hide *;
    ExtendLast(Collapse(pre), Merged(group), e.sample);
  }

  lemma CollapseStarts(log: seq<Entry>, e: Entry)
    requires !(e.repeats && LastIsIdle(log))
    ensures Collapse(log + [e]) == Extend(Collapse(log), e.sample, false)
  {
    LastHeadOfExtended(log, e);
    CollapseOfParts(log, [e]);
    MergedOfOne(e);
  }

  /** Extending the log by one call either extends the last group or starts a new one. */
  lemma CollapseOfExtended(log: seq<Entry>, e: Entry)
    ensures Collapse(log + [e]) == Extend(Collapse(log), e.sample, e.repeats && LastIsIdle(log))
  {
    hide Collapse, Merged, Extend;
    if e.repeats && LastIsIdle(log) {
      var pre, group := log[..LastHead(log)], log[LastHead(log)..];
      assert pre + group == log && pre + (group + [e]) == log + [e];
      CollapseFolds(pre, group, e);
    } else {
      CollapseStarts(log, e);
    }
  }

  /** The last log entry and the fields of the thread agree on the stack and on whether CPU was used. */
  lemma {:induction false} FieldsFollowLog(calls: seq<Call>)
    requires calls != []
    ensures var e := Log(calls)[|calls| - 1].sample;
      && Run(calls).lastStack == e.stack && (Run(calls).lastWasZeroCpu <==> e.cpuDelta == 0)
      && Run(calls).samples.weights != []
  {
    if |calls| > 1 {
      FieldsFollowLog(calls[..|calls| - 1]);
    } else {
      assert calls[..0] == [];
    }
  }

  lemma ApplyExtendsRows(r: Recorder, call: Call, s: Sample)
    requires r.Coherent()
    requires match call
             case Full(full) => s == full
             case Same(timestamp, weight) => s == Sample(timestamp, r.lastStack, 0, weight)
    ensures r.lastWasZeroCpu ==> r.samples.Rows() != []
    ensures r.Apply(call).samples.Rows() == Extend(r.samples.Rows(), s, call.Same? && r.lastWasZeroCpu)
  {
    assert r.lastWasZeroCpu ==> |r.samples.Rows()| > 0;
  }

  lemma LogStep(calls: seq<Call>)
    requires calls != []
    ensures var before := calls[..|calls| - 1];
      var e := Log(calls)[|calls| - 1];
      && Log(calls) == Log(before) + [e]
      && (e.repeats <==> calls[|calls| - 1].Same?)
      && (e.repeats ==> e.sample.cpuDelta == 0)
      && Run(calls).samples.Rows() == Extend(Run(before).samples.Rows(), e.sample, e.repeats && Run(before).lastWasZeroCpu)
      && (Run(before).lastWasZeroCpu <==> LastIsIdle(Log(before)))
      && (LastIsIdle(Log(before)) ==> Run(before).samples.Rows() != [] && Run(before).samples.Rows()[|Run(before).samples.Rows()| - 1].stack == Run(before).lastStack)
      && (e.repeats ==> e.sample.stack == Run(before).lastStack)
  {
    var before := calls[..|calls| - 1];
    if before != [] {
      FieldsFollowLog(before);
    }
    ApplyExtendsRows(Run(before), calls[|calls| - 1], Log(calls)[|calls| - 1].sample);
  }

  /** For every call sequence the table is the collapsed log. */
  lemma {:induction false} TableIsCollapsedLog(calls: seq<Call>)
    ensures Run(calls).samples.Rows() == Collapse(Log(calls))
  {
    if calls != [] {
      var before := calls[..|calls| - 1];
      TableIsCollapsedLog(before);
      LogStep(calls);
      CollapseOfExtended(Log(before), Log(calls)[|calls| - 1]);
    }
  }

  // ----- when the sums are exact -----

  /** The true total of each group, in order. */
  function Totals(log: seq<Entry>): (ts: seq<int>)
    ensures |ts| == |Collapse(log)|
    decreases |log|
  {
    if log == [] then [] else Totals(log[..LastHead(log)]) + [TotalWeight(log[LastHead(log)..])]
  }

  ghost predicate GroupsFit(log: seq<Entry>) {
    forall t :: t in Totals(log) ==> FitsI32(t)
  }

  lemma {:induction false} RowsWrapTotals(log: seq<Entry>, i: nat)
    requires i < |Totals(log)|
    ensures Collapse(log)[i].weight == WrapI32(Totals(log)[i])
    decreases |log|
  {
    if i < |Totals(log)| - 1 {
      RowsWrapTotals(log[..LastHead(log)], i);
    }
  }

  /** Every stored weight is the true total of its group exactly when every total fits in 32 bits. */
  lemma WeightsExactIff(calls: seq<Call>)
    ensures Run(calls).samples.weights == Totals(Log(calls)) <==> GroupsFit(Log(calls))
  {
    var log, weights := Log(calls), Run(calls).samples.weights;
    TableIsCollapsedLog(calls);
    hide Run, Log, Collapse, Totals;
    assert |weights| == |Totals(log)|;
    forall i | 0 <= i < |weights|
      ensures weights[i] == Totals(log)[i] <==> FitsI32(Totals(log)[i])
    {
      RowsWrapTotals(log, i);
      WrapOfSum(Totals(log)[i], 0);
      assert weights[i] == Run(calls).samples.Rows()[i].weight;
    }
    if GroupsFit(log) {
      assert forall i :: 0 <= i < |weights| ==> Totals(log)[i] in Totals(log);
    }
  }

  /** The addition a call performs leaves 32 bits; a build with overflow checks stops there. */
  ghost predicate Overflows(r: Recorder, call: Call)
    requires r.Coherent()
  {
    call.Same? && r.lastWasZeroCpu && !FitsI32(r.samples.weights[|r.samples.weights| - 1] + call.weight)
  }

  ghost predicate NoAdditionOverflows(calls: seq<Call>) {
    calls == [] || (NoAdditionOverflows(calls[..|calls| - 1]) && !Overflows(Run(calls[..|calls| - 1]), calls[|calls| - 1]))
  }

  /** At every point of the log the total of the group so far fits in 32 bits. */
  ghost predicate PrefixTotalsFit(log: seq<Entry>) {
    log == [] || (PrefixTotalsFit(log[..|log| - 1]) && FitsI32(TotalWeight(log[LastHead(log)..])))
  }

  /** The last stored weight is the last group's total, as far as 32 bits can tell. */
  lemma LastWeight(calls: seq<Call>)
    requires calls != []
    ensures var weights, log := Run(calls).samples.weights, Log(calls);
      weights != [] && weights[|weights| - 1] == WrapI32(TotalWeight(log[LastHead(log)..]))
  {
    TableIsCollapsedLog(calls);
    var log := Log(calls);
    var rows := Collapse(log);
    assert rows[|rows| - 1] == Merged(log[LastHead(log)..]);
    hide Run, Log, Collapse, LastHead;
    assert Run(calls).samples.Rows()[|rows| - 1] == rows[|rows| - 1];
  }

  /** How the last group grows with one more call. */
  lemma LastTotal(log: seq<Entry>, e: Entry)
    ensures var log' := log + [e];
      TotalWeight(log'[LastHead(log')..])
      == e.sample.weight + if e.repeats && LastIsIdle(log) then TotalWeight(log[LastHead(log)..]) else 0
  {
    LastHeadOfExtended(log, e);
    if e.repeats && LastIsIdle(log) {
      var group := log[LastHead(log)..];
      assert (log + [e])[LastHead(log)..] == group + [e];
      assert (group + [e])[..|group|] == group;
    } else {
      assert (log + [e])[|log|..] == [e];
      MergedOfOne(e);
      assert [e][..0] == [];
    }
  }

  /** No addition overflows exactly when every running total of every group fits. */
  lemma {:induction false} NoOverflowIff(calls: seq<Call>)
    ensures NoAdditionOverflows(calls) <==> PrefixTotalsFit(Log(calls))
  {
    if calls != [] {
      var before, call := calls[..|calls| - 1], calls[|calls| - 1];
      var log, e := Log(before), Log(calls)[|calls| - 1];
      NoOverflowIff(before);
      LogStep(calls);
      LastTotal(log, e);
      assert Log(calls)[..|calls| - 1] == log;
      if call.Same? && Run(before).lastWasZeroCpu && PrefixTotalsFit(log) {
        LastWeight(before);
        WrapOfSum(TotalWeight(log[LastHead(log)..]), 0);
      }
    }
  }

  // ----- conservation -----

  function WeightOn(rows: seq<Sample>, stack: Option<nat>): int {
    if rows == [] then 0
    else WeightOn(rows[..|rows| - 1], stack) + if rows[|rows| - 1].stack == stack then rows[|rows| - 1].weight else 0
  }

  function CpuTime(rows: seq<Sample>): int {
    if rows == [] then 0 else CpuTime(rows[..|rows| - 1]) + rows[|rows| - 1].cpuDelta
  }

  function Plain(log: seq<Entry>): seq<Sample> {
    seq(|log|, i requires 0 <= i < |log| => log[i].sample)
  }

  lemma ExtendConserves(rows: seq<Sample>, s: Sample, fold: bool)
    requires fold ==> rows != [] && rows[|rows| - 1].stack == s.stack && s.cpuDelta == 0
    ensures CpuTime(Extend(rows, s, fold)) == CpuTime(rows) + s.cpuDelta
  {
    var rows' := Extend(rows, s, fold);
    assert rows'[..|rows'| - 1] == if fold then rows[..|rows| - 1] else rows;
  }

  /** The entries of a group are on one stack. */
  ghost predicate GroupsOnOneStack(log: seq<Entry>) {
    forall i :: 0 <= i < |log| && Folds(log, i) ==> log[i].sample.stack == log[i - 1].sample.stack
  }

  lemma {:induction false} LogGroupsOnOneStack(calls: seq<Call>)
    ensures GroupsOnOneStack(Log(calls))
  {
    if calls != [] {
      var before := calls[..|calls| - 1];
      LogGroupsOnOneStack(before);
      var log := Log(calls);
      assert forall i :: 0 <= i < |before| ==> log[i] == Log(before)[i];
      assert forall i :: 0 <= i < |before| ==> (Folds(log, i) <==> Folds(Log(before), i));
    }
  }

  lemma {:induction false} LastGroupOnOneStack(log: seq<Entry>, i: nat)
    requires log != [] && GroupsOnOneStack(log) && LastHead(log) <= i < |log|
    ensures log[i].sample.stack == log[LastHead(log)].sample.stack
  {
    if Folds(log, |log| - 1) {
      var front := log[..|log| - 1];
      assert forall k :: 0 <= k < |front| ==> (Folds(front, k) <==> Folds(log, k));
      if i < |log| - 1 {
        LastGroupOnOneStack(front, i);
      } else {
        LastGroupOnOneStack(front, i - 1);
      }
    }
  }

  lemma {:induction false} WeightOfGroup(pre: seq<Sample>, group: seq<Entry>, on: Option<nat>, stack: Option<nat>)
    requires forall e :: e in group ==> e.sample.stack == on
    ensures WeightOn(pre + Plain(group), stack) == WeightOn(pre, stack) + if on == stack then TotalWeight(group) else 0
  {
    if group == [] {
      assert pre + Plain(group) == pre;
    } else {
      var front, e := group[..|group| - 1], group[|group| - 1];
      WeightOfGroup(pre, front, on, stack);
      var rows := pre + Plain(group);
      assert rows[..|rows| - 1] == pre + Plain(front) && rows[|rows| - 1] == e.sample;
    }
  }

  lemma OneMoreRow(rows: seq<Sample>, s: Sample, stack: Option<nat>)
    ensures WeightOn(rows + [s], stack) == WeightOn(rows, stack) + if s.stack == stack then s.weight else 0
  {
    assert (rows + [s])[..|rows|] == rows;
  }

  /** One group more, on both sides. */
  lemma GroupConserved(log: seq<Entry>, rows: seq<Sample>, h: nat, stack: Option<nat>)
    requires log != [] && h == LastHead(log) && GroupsOnOneStack(log) && FitsI32(TotalWeight(log[h..]))
    requires WeightOn(rows, stack) == WeightOn(Plain(log[..h]), stack)
    ensures WeightOn(rows + [Merged(log[h..])], stack) == WeightOn(Plain(log), stack)
  {
    var pre, group := log[..h], log[h..];
    forall e | e in group
      ensures e.sample.stack == log[h].sample.stack
    {
      var i :| 0 <= i < |group| && group[i] == e;
      LastGroupOnOneStack(log, h + i);
    }
    assert Plain(log) == Plain(pre) + Plain(group);
    WrapOfSum(TotalWeight(group), 0);
    hide WrapI32, WeightOn, TotalWeight, LastHead, Plain, GroupsOnOneStack;
    WeightOfGroup(Plain(pre), group, log[h].sample.stack, stack);
    OneMoreRow(rows, Merged(group), stack);
  }

  lemma GroupsFitInFront(log: seq<Entry>)
    requires log != [] && GroupsFit(log)
    ensures GroupsFit(log[..LastHead(log)]) && FitsI32(TotalWeight(log[LastHead(log)..]))
  {
    var h := LastHead(log);
    assert Totals(log) == Totals(log[..h]) + [TotalWeight(log[h..])];
    assert forall t :: t in Totals(log[..h]) ==> t in Totals(log);
    assert TotalWeight(log[h..]) in Totals(log);
  }

  lemma OneStackInFront(log: seq<Entry>, h: nat)
    requires h <= |log| && GroupsOnOneStack(log)
    ensures GroupsOnOneStack(log[..h])
  {
    assert forall i :: 0 <= i < h ==> (Folds(log[..h], i) <==> Folds(log, i));
  }

  lemma {:induction false} CollapseConserves(log: seq<Entry>, stack: Option<nat>)
    requires GroupsOnOneStack(log) && GroupsFit(log)
    ensures WeightOn(Collapse(log), stack) == WeightOn(Plain(log), stack)
    decreases |log|
  {
    hide Merged, Totals, GroupsFit, GroupsOnOneStack, TotalWeight;
    if log != [] {
      var h := LastHead(log);
      GroupsFitInFront(log);
      OneStackInFront(log, h);
      CollapseConserves(log[..h], stack);
      GroupConserved(log, Collapse(log[..h]), h, stack);
    }
  }

  /** Merging loses no weight on any stack, as long as every group's total fits in 32 bits. */
  lemma WeightConserved(calls: seq<Call>, stack: Option<nat>)
    requires GroupsFit(Log(calls))
    ensures WeightOn(Run(calls).samples.Rows(), stack) == WeightOn(Plain(Log(calls)), stack)
  {
    hide *;
    TableIsCollapsedLog(calls);
    LogGroupsOnOneStack(calls);
    CollapseConserves(Log(calls), stack);
  }

  /** Merging loses no CPU time. */
  lemma {:induction false} CpuConserved(calls: seq<Call>)
    ensures CpuTime(Run(calls).samples.Rows()) == CpuTime(Plain(Log(calls)))
  {
    if calls != [] {
      var before := calls[..|calls| - 1];
      var e := Log(calls)[|calls| - 1];
      CpuConserved(before);
      LogStep(calls);
      hide Run, Log, CpuTime;
      assert Plain(Log(calls)) == Extend(Plain(Log(before)), e.sample, false);
      ExtendConserves(Plain(Log(before)), e.sample, false);
      ExtendConserves(Run(before).samples.Rows(), e.sample, e.repeats && Run(before).lastWasZeroCpu);
    }
  }

  /** One merge can push a weight past the largest 32-bit number: the row then shows the smallest one. */
  lemma MergedWeightWraps()
    ensures Run([Full(Sample(0, None, 0, 0x7FFF_FFFF)), Same(1, 1)]).samples.weights == [-0x8000_0000]
    ensures Totals(Log([Full(Sample(0, None, 0, 0x7FFF_FFFF)), Same(1, 1)])) == [0x8000_0000]
  {
    var a, b := Full(Sample(0, None, 0, 0x7FFF_FFFF)), Same(1, 1);
    assert [a, b][..1] == [a] && [a][..0] == [];
    assert Run([a]) == Idle.Apply(a) && Run([a, b]) == Run([a]).Apply(b);
    assert Run([a, b]).samples.weights == [-0x8000_0000];
    var x, y := Entry(a.sample, false), Entry(Sample(1, None, 0, 1), true);
    assert Log([]) == [] && Log([a]) == [x] && Log([a, b]) == [x, y];
    hide Run, Log;
    assert [x, y][..1] == [x] && [x][..0] == [];
    assert LastHead([x]) == 0 && LastHead([x, y]) == 0;
    assert [x, y][0..] == [x, y] && [x, y][..0] == [];
    assert TotalWeight([x]) == 0x7FFF_FFFF && TotalWeight([x, y]) == 0x8000_0000;
  }

  // ----- time order -----

  function CallTime(call: Call): u64 {
    match call case Full(s) => s.timestamp case Same(timestamp, _) => timestamp
  }

  ghost predicate InStep(r: Recorder, time: u64) {
    && r.samples.sortedByTime && Ascending(r.samples.timestamps) && r.samples.lastTimestamp <= time
    && (forall i :: 0 <= i < |r.samples.timestamps| ==> r.samples.timestamps[i] <= time)
  }

  lemma ApplyStaysInStep(r: Recorder, time: u64, call: Call)
    requires r.Coherent() && InStep(r, time) && time <= CallTime(call)
    ensures InStep(r.Apply(call), CallTime(call))
  {
  }

  /** Calls whose timestamps never go back leave the column ascending and the flag on. */
  lemma {:induction false} ForwardCallsStaySorted(calls: seq<Call>)
    requires forall i, j :: 0 <= i < j < |calls| ==> CallTime(calls[i]) <= CallTime(calls[j])
    ensures InStep(Run(calls), if calls == [] then 0 else CallTime(calls[|calls| - 1]))
    ensures WrittenInOrder(Run(calls).samples)
  {
    if calls != [] {
      var before := calls[..|calls| - 1];
      ForwardCallsStaySorted(before);
      ApplyStaysInStep(Run(before), if before == [] then 0 else CallTime(before[|before| - 1]), calls[|calls| - 1]);
    }
    WrittenInOrderIff(Run(calls).samples);
  }

  /** The times at which the groups begin. */
  function HeadTimes(log: seq<Entry>): seq<u64>
    decreases |log|
  {
    if log == [] then [] else HeadTimes(log[..LastHead(log)]) + [log[LastHead(log)].sample.timestamp]
  }

  /** The times at which the groups end: what the rows show. */
  function LastTimes(log: seq<Entry>): seq<u64>
    decreases |log|
  {
    if log == [] then [] else LastTimes(log[..LastHead(log)]) + [log[|log| - 1].sample.timestamp]
  }

  lemma {:induction false} RowsShowLastTimes(log: seq<Entry>, i: nat)
    requires i < |Collapse(log)|
    ensures |LastTimes(log)| == |Collapse(log)| && Collapse(log)[i].timestamp == LastTimes(log)[i]
    decreases |log|
  {
    var pre := log[..LastHead(log)];
    if i < |Collapse(pre)| {
      RowsShowLastTimes(pre, i);
    } else if pre != [] {
      RowsShowLastTimes(pre, 0);
    }
  }

  lemma HeadTimesOfExtended(log: seq<Entry>, e: Entry)
    ensures HeadTimes(log + [e])
         == if e.repeats && LastIsIdle(log) then HeadTimes(log) else HeadTimes(log) + [e.sample.timestamp]
  {
    LastHeadOfExtended(log, e);
    var h := LastHead(log + [e]);
    assert (log + [e])[..h] == log[..h];
    if !(e.repeats && LastIsIdle(log)) {
      assert log[..|log|] == log;
    }
  }

  lemma AscendingSnoc(ts: seq<u64>, t: u64)
    ensures Ascending(ts + [t]) <==> Ascending(ts) && (ts == [] || ts[|ts| - 1] <= t)
  {
    var all := ts + [t];
    assert forall i :: 0 <= i < |ts| ==> all[i] == ts[i];
    if Ascending(all) {
      assert ts != [] ==> all[|ts| - 1] <= all[|ts|];
    }
  }

  ghost predicate FlagShows(s: Samples, heads: seq<u64>) {
    (s.sortedByTime <==> Ascending(heads)) && s.lastTimestamp == if heads == [] then 0 else heads[|heads| - 1]
  }

  lemma FlagAfter(r: Recorder, call: Call, heads: seq<u64>)
    requires r.Coherent() && FlagShows(r.samples, heads)
    ensures FlagShows(r.Apply(call).samples,
                      if call.Same? && r.lastWasZeroCpu then heads else heads + [CallTime(call)])
  {
    AscendingSnoc(heads, CallTime(call));
    hide Ascending;
  }

  lemma EntryTime(calls: seq<Call>)
    requires calls != []
    ensures Log(calls)[|calls| - 1].sample.timestamp == CallTime(calls[|calls| - 1])
  {
  }

  /** The flag compares the times at which rows were added, merges leave no trace in it. */
  lemma {:induction false} FlagFollowsHeads(calls: seq<Call>)
    ensures FlagShows(Run(calls).samples, HeadTimes(Log(calls)))
  {
    if calls != [] {
      var before, call := calls[..|calls| - 1], calls[|calls| - 1];
      FlagFollowsHeads(before);
      EntryTime(calls);
      LogStep(calls);
      HeadTimesOfExtended(Log(before), Log(calls)[|calls| - 1]);
      hide FlagShows, HeadTimes, Log, LastIsIdle, Recorder.Apply;
      FlagAfter(Run(before), call, HeadTimes(Log(before)));
    }
  }

  /** Over every run the file's timestamps ascend exactly when some row was added earlier than the row
      added before it, or the last times of the groups ascend. */
  lemma WrittenInOrderOverRunsIff(calls: seq<Call>)
    ensures WrittenInOrder(Run(calls).samples) <==>
            !Ascending(HeadTimes(Log(calls))) || Ascending(LastTimes(Log(calls)))
  {
    WrittenInOrderIff(Run(calls).samples);
    FlagFollowsHeads(calls);
    TableIsCollapsedLog(calls);
    var log, ts := Log(calls), Run(calls).samples.timestamps;
    hide Run, Log, Collapse, LastTimes, HeadTimes, WrittenInOrder, Ascending;
    assert |ts| == |Collapse(log)|;
    forall i | 0 <= i < |ts|
      ensures |LastTimes(log)| == |ts| && LastTimes(log)[i] == ts[i]
    {
      RowsShowLastTimes(log, i);
      assert Run(calls).samples.Rows()[i].timestamp == ts[i];
    }
    if ts == [] {
      NoRowsNoTimes(log);
    } else {
      RowsShowLastTimes(log, 0);
    }
    assert ts == LastTimes(log);
  }

  lemma NoRowsNoTimes(log: seq<Entry>)
    requires Collapse(log) == []
    ensures LastTimes(log) == []
  {
  }

  /** A merge leaves the remembered timestamp behind, so a later, earlier-stamped row goes unnoticed
      and the file is written out of order. */
  lemma MergeCanHideDisorder()
    ensures var calls := [Full(Sample(10, None, 0, 1)), Same(20, 1), Full(Sample(15, None, 5, 1))];
      var s := Run(calls).samples;
      s.timestamps == [20, 15] && s.sortedByTime && !WrittenInOrder(s)
  {
    var a, b, c := Full(Sample(10, None, 0, 1)), Same(20, 1), Full(Sample(15, None, 5, 1));
    assert [a, b, c][..2] == [a, b] && [a, b][..1] == [a] && [a][..0] == [];
    assert Run([a]) == Idle.Apply(a);
    assert Run([a, b]) == Run([a]).Apply(b);
    assert Run([a, b, c]) == Run([a, b]).Apply(c);
    var s := Run([a, b, c]).samples;
    assert s.timestamps[0] == 20 && s.timestamps[1] == 15;
    WrittenInOrderIff(s);
  }
}
