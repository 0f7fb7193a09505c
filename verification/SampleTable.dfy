/** A thread's samples and allocation samples (fxprof-processed-profile/src/sample_table.rs). */
module SampleTables {
  import opened Prelude
  import opened Sorting

  datatype Sample = Sample(timestamp: u64, stack: Option<nat>, cpuDelta: u64, weight: i32)

  /** The contents of a `SampleTable`: parallel columns, the flag deciding the serialized order,
      and the timestamp of the last added row. */
  datatype Samples = Samples(
    weights: seq<i32>, timestamps: seq<u64>, stacks: seq<Option<nat>>, cpuDeltas: seq<u64>,
    sortedByTime: bool, lastTimestamp: u64)
  {
    predicate SameLengths() {
      |weights| == |timestamps| == |stacks| == |cpuDeltas|
    }

    function Add(s: Sample): Samples {
      Samples(weights + [s.weight], timestamps + [s.timestamp], stacks + [s.stack], cpuDeltas + [s.cpuDelta],
              sortedByTime && s.timestamp >= lastTimestamp, s.timestamp)
    }

    /** Keeps `lastTimestamp` as it was; a sum that leaves 32 bits wraps around. */
    function ModifyLast(timestamp: u64, weight: i32): Samples
      requires SameLengths() && weights != []
    {
      var last := |weights| - 1;
      this.(weights := weights[last := WrapI32(weights[last] + weight)], timestamps := timestamps[last := timestamp])
    }

    function Row(i: nat): Sample
      requires SameLengths() && i < |weights|
    {
      Sample(timestamps[i], stacks[i], cpuDeltas[i], weights[i])
    }

    function Rows(): (rows: seq<Sample>)
      requires SameLengths()
      ensures |rows| == |weights|
    {
      seq(|weights|, i requires 0 <= i < |weights| => Row(i))
    }

    /** The order in which the rows are written. */
    function SerializedOrder(): seq<nat>
      requires SameLengths()
    {
      var indexes := Indexes(|timestamps|);
      if sortedByTime then indexes else StableSort(indexes, Earlier(timestamps))
    }
  }

  const NoSamples := Samples([], [], [], [], true, 0)

  function Indexes(n: nat): (r: seq<nat>)
    ensures |r| == n && forall i :: 0 <= i < n ==> r[i] == i
  {
    if n == 0 then [] else Indexes(n - 1) + [n - 1]
  }

  function TimeAt(timestamps: seq<u64>, i: nat): u64 {
    if i < |timestamps| then timestamps[i] else 0
  }

  function Earlier(timestamps: seq<u64>): (nat, nat) -> bool {
    (i: nat, j: nat) => TimeAt(timestamps, i) <= TimeAt(timestamps, j)
  }

  /** The timestamps as written to the file. */
  ghost predicate WrittenInOrder(s: Samples)
    requires s.SameLengths()
  {
    var order := s.SerializedOrder();
    forall i, j :: 0 <= i < j < |order| ==> TimeAt(s.timestamps, order[i]) <= TimeAt(s.timestamps, order[j])
  }

  /** Serialization writes every row exactly once, whatever the flag says. */
  lemma SerializedOrderIsPermutation(s: Samples)
    requires s.SameLengths()
    ensures multiset(s.SerializedOrder()) == multiset(Indexes(|s.timestamps|))
    ensures |s.SerializedOrder()| == |s.timestamps|
    ensures forall k :: k in s.SerializedOrder() ==> k < |s.timestamps|
  {
    SortPermutes(Indexes(|s.timestamps|), Earlier(s.timestamps));
  }

  /** The written timestamps ascend exactly when the flag is off or the column itself ascends. */
  lemma WrittenInOrderIff(s: Samples)
    requires s.SameLengths()
    ensures WrittenInOrder(s) <==> !s.sortedByTime || Ascending(s.timestamps)
  {
    var order := s.SerializedOrder();
    if s.sortedByTime {
      assert |order| == |s.timestamps| && forall i :: 0 <= i < |order| ==> order[i] == i;
      if WrittenInOrder(s) {
        forall i, j | 0 <= i < j < |s.timestamps|
          ensures s.timestamps[i] <= s.timestamps[j]
        {
          assert TimeAt(s.timestamps, order[i]) <= TimeAt(s.timestamps, order[j]);
        }
      }
    } else {
      var le := Earlier(s.timestamps);
      assert TotalPreorder(le);
      SortSorts(Indexes(|s.timestamps|), le);
      forall i, j | 0 <= i < j < |order|
        ensures TimeAt(s.timestamps, order[i]) <= TimeAt(s.timestamps, order[j])
      {
        assert le(order[i], order[j]);
      }
    }
  }

  /** Adding a row keeps the written order right exactly when the row is earlier than the last added
      one (the flag notices) or not earlier than the last stored one. The two differ after a merge. */
  lemma AddKeepsOrderIff(s: Samples, row: Sample)
    requires s.SameLengths() && WrittenInOrder(s)
    ensures WrittenInOrder(s.Add(row)) <==>
            || !s.sortedByTime || row.timestamp < s.lastTimestamp
            || s.timestamps == [] || s.timestamps[|s.timestamps| - 1] <= row.timestamp
  {
    WrittenInOrderIff(s);
    WrittenInOrderIff(s.Add(row));
    var n := |s.timestamps|;
    var ts := s.Add(row).timestamps;
    assert ts[n] == row.timestamp && forall i :: 0 <= i < n ==> ts[i] == s.timestamps[i];
    assert n > 0 ==> ts[n - 1] == s.timestamps[n - 1];
  }

  /** A merge keeps the written order right exactly when it does not move the row before its predecessor. */
  lemma MergeKeepsOrderIff(s: Samples, timestamp: u64, weight: i32)
    requires s.SameLengths() && s.weights != [] && WrittenInOrder(s)
    ensures WrittenInOrder(s.ModifyLast(timestamp, weight)) <==>
            !s.sortedByTime || |s.timestamps| == 1 || s.timestamps[|s.timestamps| - 2] <= timestamp
  {
    WrittenInOrderIff(s);
    WrittenInOrderIff(s.ModifyLast(timestamp, weight));
    var n := |s.timestamps|;
    var ts := s.ModifyLast(timestamp, weight).timestamps;
    assert ts[n - 1] == timestamp && forall i :: 0 <= i < n - 1 ==> ts[i] == s.timestamps[i];
    assert n > 1 ==> ts[n - 2] == s.timestamps[n - 2];
  }

  class SampleTable {
    ghost const owner: nat
    var sampleWeights: seq<i32>
    var sampleTimestamps: seq<u64>
    var sampleStackIndexes: seq<Option<nat>>
    var sampleCpuDeltas: seq<u64>
    var sortedByTime: bool
    var lastSampleTimestamp: u64

    constructor (ghost owner: nat)
      ensures this.owner == owner && View() == NoSamples
    {
      this.owner := owner;
      sampleWeights, sampleTimestamps, sampleStackIndexes, sampleCpuDeltas := [], [], [], [];
      sortedByTime, lastSampleTimestamp := true, 0;
    }

    function View(): Samples
      reads this
    {
      Samples(sampleWeights, sampleTimestamps, sampleStackIndexes, sampleCpuDeltas, sortedByTime, lastSampleTimestamp)
    }

    method AddSample(timestamp: u64, stack: Option<nat>, cpuDelta: u64, weight: i32)
      modifies this
      ensures View() == old(View()).Add(Sample(timestamp, stack, cpuDelta, weight))
    {
      sampleWeights := sampleWeights + [weight];
      sampleTimestamps := sampleTimestamps + [timestamp];
      sampleStackIndexes := sampleStackIndexes + [stack];
      sampleCpuDeltas := sampleCpuDeltas + [cpuDelta];
      if timestamp < lastSampleTimestamp {
        sortedByTime := false;
      }
      lastSampleTimestamp := timestamp;
    }

    /** The merged weight is kept in 32 bits. */
    method ModifyLastSample(timestamp: u64, weight: i32)
      requires View().SameLengths() && sampleWeights != []
      modifies this
      ensures View() == old(View()).ModifyLast(timestamp, weight)
    {
      var last := |sampleWeights| - 1;
      sampleWeights := sampleWeights[last := WrapI32(sampleWeights[last] + weight)];
      sampleTimestamps := sampleTimestamps[last := timestamp];
    }
  }

  /** The contents of a `NativeAllocationsTable`. */
  datatype Allocations = Allocations(
    time: seq<u64>, stacks: seq<Option<nat>>, sizes: seq<i64>, addresses: seq<u64>)
  {
    predicate SameLengths() {
      |time| == |stacks| == |sizes| == |addresses|
    }

    function Add(timestamp: u64, stack: Option<nat>, address: u64, size: i64): Allocations {
      Allocations(time + [timestamp], stacks + [stack], sizes + [size], addresses + [address])
    }
  }

  const NoAllocations := Allocations([], [], [], [])
}
