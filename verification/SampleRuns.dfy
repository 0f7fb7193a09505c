/** Over runs of profile calls, a thread's samples are what its own sample calls, with the stacks they
    resolved to, make of an empty table. */
module SampleRuns {
  import opened CallStacks
  import opened ProfileModel
  import opened ProfileRuns
  import opened SampleTables
  import ZeroCpu

  /** What a profile call asks of the recorder of thread `t`. */
  ghost function SampleCall(p: ProfileState, op: Op, t: nat): seq<ZeroCpu.Call>
    requires p.Sound() && Allowed(p, op)
  {
    match op
    case AddSample(thread, timestamp, frames, cpuDelta, weight) =>
      if thread == t then [ZeroCpu.Full(Sample(timestamp, PushStack(p, t, frames).1, cpuDelta, weight))] else []
    case AddSampleSameStackZeroCpu(thread, timestamp, weight) =>
      if thread == t then [ZeroCpu.Same(timestamp, weight)] else []
    case _ => []
  }

  ghost function SampleCalls(ops: seq<Op>, t: nat): seq<ZeroCpu.Call>
    requires AllowedRun(ops)
  {
    if ops == [] then []
    else SampleCalls(ops[..|ops| - 1], t) + SampleCall(Run(ops[..|ops| - 1]), ops[|ops| - 1], t)
  }

  ghost function RecorderAt(p: ProfileState, t: nat): ZeroCpu.Recorder {
    if t < |p.threads| then p.threads[t].recorder else ZeroCpu.Idle
  }

  lemma SampleCallsRecorder(p: ProfileState, op: Op, t: nat)
    requires p.Sound() && Allowed(p, op) && RecorderAt(p, t).Coherent() && (op.AddSample? || op.AddSampleSameStackZeroCpu?)
    ensures RecorderAt(Step(p, op), t)
         == (var calls := SampleCall(p, op, t); if calls == [] then RecorderAt(p, t) else RecorderAt(p, t).Apply(calls[0]))
  {
    hide ProfileState.Sound, PushStack, AllIssued;
  }

  lemma AllocationKeepsRecorders(p: ProfileState, op: Op, t: nat)
    requires p.Sound() && Allowed(p, op) && op.AddAllocationSample?
    ensures RecorderAt(Step(p, op), t) == RecorderAt(p, t)
  {
    ScopeForValid(p, op.thread);
    hide ProfileState.Sound, PushStack, AllIssued;
  }

  lemma OtherCallKeepsRecorders(p: ProfileState, op: Op, t: nat)
    requires p.Sound() && Allowed(p, op)
    requires !op.AddSample? && !op.AddSampleSameStackZeroCpu? && !op.AddAllocationSample?
    ensures RecorderAt(Step(p, op), t) == RecorderAt(p, t)
  {
    hide ProfileState.Sound, PushStack, AllIssued;
  }

  lemma StepRecords(p: ProfileState, op: Op, t: nat)
    requires p.Sound() && Allowed(p, op) && RecorderAt(p, t).Coherent()
    ensures |SampleCall(p, op, t)| <= 1
    ensures RecorderAt(Step(p, op), t)
         == (var calls := SampleCall(p, op, t); if calls == [] then RecorderAt(p, t) else RecorderAt(p, t).Apply(calls[0]))
  {
    hide Step, Allowed, ProfileState.Sound, RecorderAt, PushStack, ZeroCpu.Recorder.Apply, ZeroCpu.Recorder.Coherent;
    if op.AddSample? || op.AddSampleSameStackZeroCpu? {
      SampleCallsRecorder(p, op, t);
    } else if op.AddAllocationSample? {
      AllocationKeepsRecorders(p, op, t);
    } else {
      OtherCallKeepsRecorders(p, op, t);
    }
  }

  /** Over every run the recorder of a thread is the one its own sample calls lead to. */
  lemma {:induction false} RecorderIsRun(ops: seq<Op>, t: nat)
    requires AllowedRun(ops)
    ensures RecorderAt(Run(ops), t) == ZeroCpu.Run(SampleCalls(ops, t))
  {
    hide Step, Allowed, ProfileState.Sound, SampleCall, ZeroCpu.Recorder.Apply, ZeroCpu.Recorder.Coherent, ZeroCpu.Recorder.Add;
    if ops == [] {
      NoRecorderYet(t);
    } else {
      var before, op := ops[..|ops| - 1], ops[|ops| - 1];
      RecorderIsRun(before, t);
      StepRecords(Run(before), op, t);
      RunOneMore(SampleCalls(before, t), SampleCall(Run(before), op, t));
    }
  }

  lemma NoRecorderYet(t: nat)
    ensures RecorderAt(EmptyProfile, t) == ZeroCpu.Run([])
  {
  }

  lemma RunOneMore(calls: seq<ZeroCpu.Call>, more: seq<ZeroCpu.Call>)
    requires |more| <= 1
    ensures ZeroCpu.Run(calls + more) == if more == [] then ZeroCpu.Run(calls) else ZeroCpu.Run(calls).Apply(more[0])
  {
    if more == [] {
      assert calls + more == calls;
    } else {
      assert (calls + more)[..|calls + more| - 1] == calls;
    }
  }

  /** The rows of a thread's samples: the log of its own sample calls, idle ones put together. */
  lemma ThreadRowsAreCollapsedLog(ops: seq<Op>, t: nat)
    requires AllowedRun(ops) && t < |Run(ops).threads|
    ensures Run(ops).threads[t].recorder.samples.SameLengths()
    ensures Run(ops).threads[t].recorder.samples.Rows() == ZeroCpu.Collapse(ZeroCpu.Log(SampleCalls(ops, t)))
  {
    RecorderIsRun(ops, t);
    ZeroCpu.TableIsCollapsedLog(SampleCalls(ops, t));
  }
}
