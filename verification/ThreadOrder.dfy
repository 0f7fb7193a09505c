/** The order in which the threads of a profile are written
    (fxprof-processed-profile/src/profile.rs `sorted_threads`, process.rs and thread.rs `cmp_for_json_order`). */
module ThreadOrder {
  import opened Prelude
  import opened ProfileModel
  import opened SampleTables
  import opened Sorting
  import opened Threads

  // ----- the two comparators -----

  datatype ProcessKey = ProcessKey(startTime: u64, pid: string)

  predicate ProcessKeyLeq(a: ProcessKey, b: ProcessKey) {
    if a.startTime != b.startTime then a.startTime < b.startTime else StringLeq(a.pid, b.pid)
  }

  datatype ThreadKey = ThreadKey(isMain: bool, startTime: u64, name: Option<string>, tid: string)

  predicate NameLeq(a: Option<string>, b: Option<string>) {
    a.None? || (b.Some? && StringLeq(a.value, b.value))
  }

  /** Main threads first, then by start time, name (unnamed first) and thread id. */
  predicate ThreadKeyLeq(a: ThreadKey, b: ThreadKey) {
    if a.isMain != b.isMain then a.isMain
    else if a.startTime != b.startTime then a.startTime < b.startTime
    else if a.name != b.name then NameLeq(a.name, b.name)
    else StringLeq(a.tid, b.tid)
  }

  function KeyOfProcess(processes: seq<ProcessState>, i: nat): ProcessKey {
    if i < |processes| then ProcessKey(processes[i].startTime, processes[i].pid) else ProcessKey(0, "")
  }

  function KeyOfThread(threads: seq<ThreadState>, i: nat): ThreadKey {
    if i < |threads| then ThreadKey(threads[i].isMain, threads[i].startTime, threads[i].name, threads[i].tid)
    else ThreadKey(false, 0, None, "")
  }

  function ProcessOrder(processes: seq<ProcessState>): (nat, nat) -> bool {
    (i: nat, j: nat) => ProcessKeyLeq(KeyOfProcess(processes, i), KeyOfProcess(processes, j))
  }

  function OrderOfThreads(threads: seq<ThreadState>): (nat, nat) -> bool {
    (i: nat, j: nat) => ThreadKeyLeq(KeyOfThread(threads, i), KeyOfThread(threads, j))
  }

  lemma ProcessOrderIsPreorder(processes: seq<ProcessState>)
    ensures TotalPreorder(ProcessOrder(processes))
  {
    var le := ProcessOrder(processes);
    forall i: nat, j: nat
      ensures le(i, j) || le(j, i)
    {
      StringLeqTotal(KeyOfProcess(processes, i).pid, KeyOfProcess(processes, j).pid);
    }
    forall i: nat, j: nat, k: nat | le(i, j) && le(j, k)
      ensures le(i, k)
    {
      var a, b, c := KeyOfProcess(processes, i), KeyOfProcess(processes, j), KeyOfProcess(processes, k);
      if a.startTime == b.startTime == c.startTime {
        StringLeqTransitive(a.pid, b.pid, c.pid);
      }
    }
  }

  lemma ThreadKeysTotal(a: ThreadKey, b: ThreadKey)
    ensures ThreadKeyLeq(a, b) || ThreadKeyLeq(b, a)
  {
    StringLeqTotal(a.tid, b.tid);
    if a.name.Some? && b.name.Some? {
      StringLeqTotal(a.name.value, b.name.value);
    }
  }

  lemma NamesTransitive(a: Option<string>, b: Option<string>, c: Option<string>)
    requires NameLeq(a, b) && NameLeq(b, c)
    ensures NameLeq(a, c)
    ensures a == c ==> a == b
  {
    if a.Some? && b.Some? && c.Some? {
      StringLeqTransitive(a.value, b.value, c.value);
      StringLeqTotal(a.value, b.value);
    }
  }

  lemma ThreadKeysTransitive(a: ThreadKey, b: ThreadKey, c: ThreadKey)
    requires ThreadKeyLeq(a, b) && ThreadKeyLeq(b, c)
    ensures ThreadKeyLeq(a, c)
  {
    if a.isMain == b.isMain == c.isMain && a.startTime == b.startTime == c.startTime {
      if a.name != b.name && b.name != c.name {
        NamesTransitive(a.name, b.name, c.name);
      } else if a.name == b.name == c.name {
        StringLeqTransitive(a.tid, b.tid, c.tid);
      }
    }
  }

  lemma OrderOfThreadsIsPreorder(threads: seq<ThreadState>)
    ensures TotalPreorder(OrderOfThreads(threads))
  {
    var le := OrderOfThreads(threads);
    forall i: nat, j: nat
      ensures le(i, j) || le(j, i)
    {
      ThreadKeysTotal(KeyOfThread(threads, i), KeyOfThread(threads, j));
    }
    forall i: nat, j: nat, k: nat | le(i, j) && le(j, k)
      ensures le(i, k)
    {
      ThreadKeysTransitive(KeyOfThread(threads, i), KeyOfThread(threads, j), KeyOfThread(threads, k));
    }
  }

  // ----- the comparators, said of the fields -----

  /** The process may stand before the other: it started earlier, or at the same time and its id comes first. */
  ghost predicate ProcessBefore(a: ProcessState, b: ProcessState) {
    a.startTime < b.startTime || (a.startTime == b.startTime && LexBefore(a.pid, b.pid))
  }

  /** The thread may stand before the other one of its process: no thread stands before a main thread that is
      not one itself; otherwise start times do not go down; among equal ones unnamed threads come first and names
      do not go down; among equal ones ids do not go down. */
  ghost predicate ThreadBefore(a: ThreadState, b: ThreadState) {
    && (b.isMain ==> a.isMain)
    && (a.isMain == b.isMain ==> a.startTime <= b.startTime)
    && (a.isMain == b.isMain && a.startTime == b.startTime ==>
         && (b.name.None? ==> a.name.None?)
         && (a.name.Some? && b.name.Some? ==> LexBefore(a.name.value, b.name.value))
         && (a.name == b.name ==> LexBefore(a.tid, b.tid)))
  }

  lemma ProcessOrderSays(processes: seq<ProcessState>, i: nat, j: nat)
    requires i < |processes| && j < |processes|
    ensures ProcessOrder(processes)(i, j) <==> ProcessBefore(processes[i], processes[j])
  {
    StringLeqIsLexicographic(processes[i].pid, processes[j].pid);
  }

  lemma OrderOfThreadsSays(threads: seq<ThreadState>, i: nat, j: nat)
    requires i < |threads| && j < |threads|
    ensures OrderOfThreads(threads)(i, j) <==> ThreadBefore(threads[i], threads[j])
  {
    var a, b := threads[i], threads[j];
    StringLeqIsLexicographic(a.tid, b.tid);
    if a.name.Some? && b.name.Some? {
      StringLeqIsLexicographic(a.name.value, b.name.value);
    }
  }

  // ----- blocks -----

  function Block(p: ProfileState, i: nat): seq<nat> {
    if i < |p.processes| then StableSort(p.processes[i].threads, OrderOfThreads(p.threads)) else []
  }

  /** The blocks of the first `k` processes of an order. */
  function Blocks(p: ProfileState, order: seq<nat>, k: nat): seq<nat>
    requires k <= |order|
  {
    if k == 0 then [] else Blocks(p, order, k - 1) + Block(p, order[k - 1])
  }

  lemma {:induction false} IndexesCount(n: nat, x: nat)
    ensures multiset(Indexes(n))[x] == if x < n then 1 else 0
  {
    if n > 0 {
      IndexesCount(n - 1, x);
    }
  }

  lemma PermutationIsDistinct(order: seq<nat>, n: nat)
    requires multiset(order) == multiset(Indexes(n))
    ensures |order| == n && forall i, j :: 0 <= i < j < |order| ==> order[i] != order[j]
    ensures forall i :: 0 <= i < |order| ==> order[i] < n
  {
    assert |order| == |multiset(order)| == n;
    forall i, j | 0 <= i < j < |order|
      ensures order[i] != order[j]
    {
      if order[i] == order[j] {
        assert order == order[..j] + [order[j]] + order[j + 1..];
        assert order[i] in order[..j];
        IndexesCount(n, order[i]);
        assert false;
      }
    }
    forall i | 0 <= i < |order|
      ensures order[i] < n
    {
      assert order[i] in multiset(order);
      IndexesCount(n, order[i]);
    }
  }

  lemma {:induction false} AscendingCount(s: seq<nat>, x: nat)
    requires forall i, j :: 0 <= i < j < |s| ==> s[i] < s[j]
    ensures multiset(s)[x] == if x in s then 1 else 0
  {
    if s != [] {
      var front, last := s[..|s| - 1], s[|s| - 1];
      AscendingCount(front, x);
      assert s == front + [last];
    }
  }

  lemma BlockCount(p: ProfileState, i: nat, t: nat)
    requires p.Linked() && i < |p.processes|
    ensures multiset(Block(p, i))[t] == if t < |p.threads| && p.threads[t].process == i then 1 else 0
  {
    SortPermutes(p.processes[i].threads, OrderOfThreads(p.threads));
    AscendingCount(p.processes[i].threads, t);
  }

  /** Thread `t`, whose process is the j-th of the order, is written once, in the j-th block. */
  lemma {:induction false} BlocksCount(p: ProfileState, order: seq<nat>, t: nat, j: nat, k: nat)
    requires p.Linked() && k <= |order| && forall i :: 0 <= i < |order| ==> order[i] < |p.processes|
    requires t < |p.threads| ==> forall i :: 0 <= i < |order| ==> (order[i] == p.threads[t].process <==> i == j)
    ensures multiset(Blocks(p, order, k))[t] == if t < |p.threads| && j < k then 1 else 0
  {
    hide Block, ProfileState.Linked;
    if k > 0 {
      var before, block := Blocks(p, order, k - 1), Block(p, order[k - 1]);
      BlocksCount(p, order, t, j, k - 1);
      BlockCount(p, order[k - 1], t);
      SumOfCounts(before, block, t);
    }
  }

  lemma SumOfCounts(a: seq<nat>, b: seq<nat>, x: nat)
    ensures multiset(a + b)[x] == multiset(a)[x] + multiset(b)[x]
  {
  }

  lemma BlocksPermute(p: ProfileState, order: seq<nat>)
    requires p.Linked() && multiset(order) == multiset(Indexes(|p.processes|))
    ensures multiset(Blocks(p, order, |order|)) == multiset(Indexes(|p.threads|))
  {
    PermutationIsDistinct(order, |p.processes|);
    forall t: nat
      ensures multiset(Blocks(p, order, |order|))[t] == multiset(Indexes(|p.threads|))[t]
    {
      IndexesCount(|p.threads|, t);
      var j := 0;
      if t < |p.threads| {
        j := PlaceOf(order, |p.processes|, p.threads[t].process);
      }
      BlocksCount(p, order, t, j, |order|);
    }
    SameCounts(Blocks(p, order, |order|), Indexes(|p.threads|));
  }

  lemma SameCounts(a: seq<nat>, b: seq<nat>)
    requires forall x: nat :: multiset(a)[x] == multiset(b)[x]
    ensures multiset(a) == multiset(b)
  {
    assert forall x :: x in multiset(a) <==> x in multiset(b);
  }

  lemma PlaceOf(order: seq<nat>, n: nat, x: nat) returns (j: nat)
    requires multiset(order) == multiset(Indexes(n)) && x < n
    ensures j < |order| && order[j] == x
  {
    IndexesCount(n, x);
    assert x in multiset(order);
    j :| 0 <= j < |order| && order[j] == x;
  }

  lemma BlockIsSorted(p: ProfileState, i: nat)
    requires i < |p.processes|
    ensures |Block(p, i)| == |p.processes[i].threads|
    ensures multiset(Block(p, i)) == multiset(p.processes[i].threads)
    ensures SortedBy(Block(p, i), OrderOfThreads(p.threads))
  {
    SortPermutes(p.processes[i].threads, OrderOfThreads(p.threads));
    OrderOfThreadsIsPreorder(p.threads);
    SortSorts(p.processes[i].threads, OrderOfThreads(p.threads));
  }

  lemma SliceOfFront<T>(a: seq<T>, b: seq<T>, start: nat, n: nat)
    requires start + n <= |a|
    ensures (a + b)[start..start + n] == a[start..start + n]
  {
  }

  lemma SliceOfBack<T>(a: seq<T>, b: seq<T>)
    ensures (a + b)[|a|..|a| + |b|] == b
  {
  }

  /** Where the k-th block stands. */
  lemma {:induction false} BlockStands(p: ProfileState, order: seq<nat>, k: nat, m: nat)
    requires k < m <= |order| && order[k] < |p.processes|
    ensures var start, n := |Blocks(p, order, k)|, |p.processes[order[k]].threads|;
      && start + n <= |Blocks(p, order, m)|
      && Blocks(p, order, m)[start..start + n] == Block(p, order[k])
  {
    hide Block, SortedBy, OrderOfThreads;
    BlockIsSorted(p, order[k]);
    var before, block := Blocks(p, order, m - 1), Block(p, order[m - 1]);
    if k < m - 1 {
      BlockStands(p, order, k, m - 1);
      SliceOfFront(before, block, |Blocks(p, order, k)|, |p.processes[order[k]].threads|);
    } else {
      SliceOfBack(before, block);
    }
  }

  ghost predicate ProcessesInOrder(p: ProfileState, sorted: seq<nat>) {
    forall i, j :: 0 <= i < j < |sorted| && sorted[i] < |p.threads| && sorted[j] < |p.threads| ==>
      ProcessOrder(p.processes)(p.threads[sorted[i]].process, p.threads[sorted[j]].process)
  }

  lemma BlockMembers(p: ProfileState, i: nat, t: nat)
    requires p.Linked() && i < |p.processes| && t in Block(p, i)
    ensures t < |p.threads| && p.threads[t].process == i
  {
    SortPermutes(p.processes[i].threads, OrderOfThreads(p.threads));
  }

  lemma {:induction false} BlocksMembers(p: ProfileState, order: seq<nat>, k: nat, t: nat) returns (j: nat)
    requires p.Linked() && k <= |order| && forall i :: 0 <= i < |order| ==> order[i] < |p.processes|
    requires t in Blocks(p, order, k)
    ensures t < |p.threads| && j < k && p.threads[t].process == order[j]
  {
    hide Block, ProfileState.Linked;
    if t in Block(p, order[k - 1]) {
      BlockMembers(p, order[k - 1], t);
      j := k - 1;
    } else {
      j := BlocksMembers(p, order, k - 1, t);
    }
  }

  lemma {:induction false} BlocksInOrder(p: ProfileState, order: seq<nat>, k: nat)
    requires p.Linked() && k <= |order| && (forall i :: 0 <= i < |order| ==> order[i] < |p.processes|)
    requires SortedBy(order, ProcessOrder(p.processes))
    ensures ProcessesInOrder(p, Blocks(p, order, k))
  {
    hide ProcessesInOrder, ProfileState.Linked, SortedBy, Block, ProcessOrder;
    if k == 0 {
      EmptyInOrder(p);
    } else {
      BlocksInOrder(p, order, k - 1);
      var before, block := Blocks(p, order, k - 1), Block(p, order[k - 1]);
      EarlierProcesses(p, order, k, before);
      OwnProcess(p, order[k - 1]);
      OneMoreInOrder(p, before, block, order[k - 1]);
    }
  }

  lemma EmptyInOrder(p: ProfileState)
    ensures ProcessesInOrder(p, [])
  {
  }

  lemma EarlierProcesses(p: ProfileState, order: seq<nat>, k: nat, before: seq<nat>)
    requires p.Linked() && 0 < k <= |order| && before == Blocks(p, order, k - 1)
      && (forall i :: 0 <= i < |order| ==> order[i] < |p.processes|)
    requires SortedBy(order, ProcessOrder(p.processes))
    ensures forall t: nat :: t in before ==>
      t < |p.threads| && ProcessOrder(p.processes)(p.threads[t].process, order[k - 1])
  {
    hide Block, ProcessOrder;
    forall t: nat | t in before
      ensures t < |p.threads| && ProcessOrder(p.processes)(p.threads[t].process, order[k - 1])
    {
      var j := BlocksMembers(p, order, k - 1, t);
      assert ProcessOrder(p.processes)(order[j], order[k - 1]);
    }
  }

  lemma OwnProcess(p: ProfileState, i: nat)
    requires p.Linked() && i < |p.processes|
    ensures forall t: nat :: t in Block(p, i) ==> t < |p.threads| && p.threads[t].process == i
  {
    forall t: nat | t in Block(p, i)
      ensures t < |p.threads| && p.threads[t].process == i
    {
      BlockMembers(p, i, t);
    }
  }

  lemma OneMoreInOrder(p: ProfileState, before: seq<nat>, block: seq<nat>, process: nat)
    requires ProcessesInOrder(p, before)
    requires forall t: nat :: t in before ==> t < |p.threads| && ProcessOrder(p.processes)(p.threads[t].process, process)
    requires forall t: nat :: t in block ==> t < |p.threads| && p.threads[t].process == process
    ensures ProcessesInOrder(p, before + block)
  {
    ProcessOrderIsPreorder(p.processes);
    var le := ProcessOrder(p.processes);
    assert le(process, process) || le(process, process);
    hide ProcessOrder;
    var all := before + block;
    forall i, j | 0 <= i < j < |all|
      ensures all[i] < |p.threads| && all[j] < |p.threads| && le(p.threads[all[i]].process, p.threads[all[j]].process)
    {
      assert j >= |before| ==> all[j] in block;
      assert i < |before| ==> all[i] in before;
      assert j < |before| ==> all[j] == before[j] && all[i] == before[i] && all[j] in before;
      assert i >= |before| ==> all[i] in block;
    }
  }

  // ----- the result -----

  /** Every thread once; each process's threads are one sorted block starting at the recorded
      position; blocks follow the order of processes. */
  ghost predicate WellOrdered(p: ProfileState, sorted: seq<nat>, first: seq<nat>) {
    && multiset(sorted) == multiset(Indexes(|p.threads|))
    && ProcessesAscend(p, sorted)
    && |first| == |p.processes|
    && forall i :: 0 <= i < |p.processes| ==> BlockAt(p, sorted, i, first[i])
  }

  /** The processes of the a-th and the b-th thread of the list may stand in this order. */
  ghost predicate InProcessOrder(p: ProfileState, sorted: seq<nat>, a: nat, b: nat)
    requires a < |sorted| && b < |sorted|
  {
    && sorted[a] < |p.threads| && sorted[b] < |p.threads|
    && p.threads[sorted[a]].process < |p.processes| && p.threads[sorted[b]].process < |p.processes|
    && ProcessBefore(p.processes[p.threads[sorted[a]].process], p.processes[p.threads[sorted[b]].process])
  }

  ghost predicate ProcessesAscend(p: ProfileState, sorted: seq<nat>) {
    forall a, b :: 0 <= a < b < |sorted| ==> InProcessOrder(p, sorted, a, b)
  }

  /** The a-th and the b-th thread of the list may stand in this order. */
  ghost predicate InThreadOrder(p: ProfileState, sorted: seq<nat>, a: nat, b: nat)
    requires a < |sorted| && b < |sorted|
  {
    && sorted[a] < |p.threads| && sorted[b] < |p.threads|
    && ThreadBefore(p.threads[sorted[a]], p.threads[sorted[b]])
  }

  ghost predicate BlockAt(p: ProfileState, sorted: seq<nat>, i: nat, start: nat)
    requires i < |p.processes|
  {
    var n := |p.processes[i].threads|;
    && start + n <= |sorted|
    && multiset(sorted[start..start + n]) == multiset(p.processes[i].threads)
    && forall a, b :: start <= a < b < start + n ==> InThreadOrder(p, sorted, a, b)
  }

  lemma InOrderAscends(p: ProfileState, sorted: seq<nat>)
    requires p.Linked() && ProcessesInOrder(p, sorted) && forall t :: t in sorted ==> t < |p.threads|
    ensures ProcessesAscend(p, sorted)
  {
    forall a, b | 0 <= a < b < |sorted|
      ensures InProcessOrder(p, sorted, a, b)
    {
      assert sorted[a] in sorted && sorted[b] in sorted;
      ProcessOrderSays(p.processes, p.threads[sorted[a]].process, p.threads[sorted[b]].process);
    }
  }

  lemma SortedBlockStands(p: ProfileState, sorted: seq<nat>, start: nat, block: seq<nat>)
    requires start + |block| <= |sorted| && sorted[start..start + |block|] == block
    requires SortedBy(block, OrderOfThreads(p.threads)) && forall t :: t in block ==> t < |p.threads|
    ensures forall a, b :: start <= a < b < start + |block| ==> InThreadOrder(p, sorted, a, b)
  {
    forall a, b | start <= a < b < start + |block|
      ensures InThreadOrder(p, sorted, a, b)
    {
      assert block[a - start] == sorted[a] && block[b - start] == sorted[b];
      assert block[a - start] in block && block[b - start] in block;
      OrderOfThreadsSays(p.threads, sorted[a], sorted[b]);
    }
  }

  lemma BlocksWellOrdered(p: ProfileState, order: seq<nat>, first: seq<nat>)
    requires p.Linked() && multiset(order) == multiset(Indexes(|p.processes|))
    requires SortedBy(order, ProcessOrder(p.processes))
    requires |first| == |p.processes|
    requires forall k :: 0 <= k < |order| ==> order[k] < |first| && first[order[k]] == |Blocks(p, order, k)|
    ensures WellOrdered(p, Blocks(p, order, |order|), first)
  {
    PermutationIsDistinct(order, |p.processes|);
    BlocksPermute(p, order);
    BlocksInOrder(p, order, |order|);
    hide ProfileState.Linked, ProcessesInOrder, ProcessesAscend, Blocks, BlockAt, SortedBy;
    forall t | t in Blocks(p, order, |order|)
      ensures t < |p.threads|
    {
      var j := BlocksMembers(p, order, |order|, t);
    }
    InOrderAscends(p, Blocks(p, order, |order|));
    forall i | 0 <= i < |p.processes|
      ensures BlockAt(p, Blocks(p, order, |order|), i, first[i])
    {
      var k := PlaceOf(order, |p.processes|, i);
      KthBlock(p, order, k);
    }
  }

  lemma KthBlock(p: ProfileState, order: seq<nat>, k: nat)
    requires p.Linked() && k < |order| && order[k] < |p.processes|
    ensures BlockAt(p, Blocks(p, order, |order|), order[k], |Blocks(p, order, k)|)
  {
    hide *;
    BlockStands(p, order, k, |order|);
    BlockIsSorted(p, order[k]);
    UnfoldBlockAt(p, Blocks(p, order, |order|), order[k], |Blocks(p, order, k)|);
  }

  lemma NoBlocks(p: ProfileState, order: seq<nat>)
    ensures Blocks(p, order, 0) == []
  {
  }

  lemma UnfoldBlocks(p: ProfileState, order: seq<nat>, k: nat)
    requires k < |order| && order[k] < |p.processes|
    ensures Blocks(p, order, k + 1)
         == Blocks(p, order, k) + StableSort(p.processes[order[k]].threads, OrderOfThreads(p.threads))
  {
  }

  lemma ProcessesSorted(p: ProfileState, order: seq<nat>)
    requires order == StableSort(Indexes(|p.processes|), ProcessOrder(p.processes))
    ensures multiset(order) == multiset(Indexes(|p.processes|)) && SortedBy(order, ProcessOrder(p.processes))
  {
    SortPermutes(Indexes(|p.processes|), ProcessOrder(p.processes));
    ProcessOrderIsPreorder(p.processes);
    SortSorts(Indexes(|p.processes|), ProcessOrder(p.processes));
  }

  lemma UnfoldBlockAt(p: ProfileState, sorted: seq<nat>, i: nat, start: nat)
    requires i < |p.processes| && start + |p.processes[i].threads| <= |sorted|
    requires multiset(sorted[start..start + |p.processes[i].threads|]) == multiset(p.processes[i].threads)
    requires SortedBy(sorted[start..start + |p.processes[i].threads|], OrderOfThreads(p.threads)) && p.Linked()
    ensures BlockAt(p, sorted, i, start)
  {
    hide SortedBy, OrderOfThreads;
    var block := sorted[start..start + |p.processes[i].threads|];
    forall t | t in block
      ensures t < |p.threads|
    {
      assert t in multiset(block) && t in multiset(p.processes[i].threads);
    }
    SortedBlockStands(p, sorted, start, block);
  }

  /** `sorted_threads`: the list grows by one process at a time, the new part is sorted by itself. */
  method SortedThreads(p: ProfileState) returns (sorted: seq<nat>, first: seq<nat>)
    requires p.Linked()
    ensures WellOrdered(p, sorted, first)
  {
    hide *;
    sorted := [];
    first := seq(|p.processes|, i => 0);
    var order := StableSort(Indexes(|p.processes|), ProcessOrder(p.processes));
    ProcessesSorted(p, order);
    PermutationIsDistinct(order, |p.processes|);
    NoBlocks(p, order);
    for k := 0 to |order|
      invariant |first| == |p.processes|
      invariant sorted == Blocks(p, order, k)
      invariant forall j :: 0 <= j < k ==> first[order[j]] == |Blocks(p, order, j)|
    {
      UnfoldBlocks(p, order, k);
      var process := order[k];
      first := first[process := |sorted|];
      sorted := sorted + StableSort(p.processes[process].threads, OrderOfThreads(p.threads));
    }
    BlocksWellOrdered(p, order, first);
  }
}
