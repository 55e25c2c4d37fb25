/** 010_thread_sync/04thread_sync_pthread_cond.c: producers push heap nodes on a list under a
    mutex and signal after unlocking; consumers wait, unlink the head, and free it after
    unlocking. Any number of each, where the source starts one of each. */
module CondStack {
  import opened Multisets
  import opened Totals

  /** A node on the heap, and the null address. */
  datatype Cell = Cell(next: nat, num: nat)

  const NULL: nat := 0

  /** A producer between iterations, with a node not yet linked, or between unlock and signal. */
  datatype Producer = Making | Made(node: nat) | Pushed

  /** A consumer about to lock, in the wait, out of it but not yet locked, or with a node to free. */
  datatype Consumer = AtTop | Asleep | Woken | Unlinked(node: nat)

  /** What happened to the list, in order. */
  datatype Op = Push(num: nat) | Pop(num: nat)

  /** The heap, the list's head, and the threads. `chain` records which nodes were linked and not
      yet unlinked, newest first, and `log` what was pushed and popped: both only observe. */
  datatype System = System(
    heap: map<nat, Cell>, head: nat, producers: seq<Producer>, consumers: seq<Consumer>,
    chain: seq<nat>, log: seq<Op>)

  function Start(producers: nat, consumers: nat): System {
    System(map[], NULL, seq(producers, _ => Making), seq(consumers, _ => AtTop), [], [])
  }

  datatype Step =
    | Alloc(i: nat, node: nat, garbage: nat, num: nat)  // malloc, and filling in num
    | Link(i: nat)                                      // the producer's locked block
    | Notify(i: nat, wake: nat)                         // its signal
    | Serve(j: nat)                                     // the consumer's locked block
    | Release(j: nat)                                   // its free
    | Spurious(j: nat)                                  // its wait ends unsignalled

  ghost predicate AnyAsleep(consumers: seq<Consumer>) {
    exists j :: 0 <= j < |consumers| && consumers[j].Asleep?
  }

  ghost predicate SignalOk(consumers: seq<Consumer>, wake: nat) {
    AnyAsleep(consumers) ==> wake < |consumers| && consumers[wake].Asleep?
  }

  function Signal(consumers: seq<Consumer>, wake: nat): seq<Consumer> {
    if wake < |consumers| && consumers[wake].Asleep? then consumers[wake := Woken] else consumers
  }

  /** malloc returns any address not in use; that nothing else dereferences a dead node is proved,
      not assumed. */
  ghost predicate Enabled(s: System, st: Step) {
    match st
    case Alloc(i, node, _, num) =>
      i < |s.producers| && s.producers[i].Making? && node != NULL && node !in s.heap && 1 <= num <= 1000
    case Link(i) => i < |s.producers| && s.producers[i].Made?
    case Notify(i, wake) => i < |s.producers| && s.producers[i].Pushed? && SignalOk(s.consumers, wake)
    case Serve(j) => j < |s.consumers| && (s.consumers[j].AtTop? || s.consumers[j].Woken?)
    case Release(j) => j < |s.consumers| && s.consumers[j].Unlinked?
    case Spurious(j) => j < |s.consumers| && s.consumers[j].Asleep?
  }

  /** The step touches only memory that is allocated. */
  ghost predicate Safe(s: System, st: Step)
    requires Enabled(s, st)
  {
    match st
    case Link(i) => s.producers[i].node in s.heap
    case Serve(j) => s.head != NULL ==> s.head in s.heap
    case Release(j) => s.consumers[j].node in s.heap
    case _ => true
  }

  /** C would go wrong on an unsafe step; this function needs some value there, and the
      theorems show no run gets there. */
  function At(heap: map<nat, Cell>, node: nat): Cell {
    if node in heap then heap[node] else Cell(NULL, 0)
  }

  function Apply(s: System, st: Step): System
    requires Enabled(s, st)
  {
    match st
    case Alloc(i, node, garbage, num) =>
      s.(heap := s.heap[node := Cell(garbage, num)], producers := s.producers[i := Made(node)])
    case Link(i) =>
      var node := s.producers[i].node;
      s.(heap := s.heap[node := At(s.heap, node).(next := s.head)], head := node,
         producers := s.producers[i := Pushed], chain := [node] + s.chain, log := s.log + [Push(At(s.heap, node).num)])
    case Notify(i, wake) =>
      s.(producers := s.producers[i := Making], consumers := Signal(s.consumers, wake))
    case Serve(j) =>
      if s.head == NULL then s.(consumers := s.consumers[j := Asleep])
      else
        s.(head := At(s.heap, s.head).next, consumers := s.consumers[j := Unlinked(s.head)],
           chain := if s.chain == [] then [] else s.chain[1..], log := s.log + [Pop(At(s.heap, s.head).num)])
    case Release(j) =>
      s.(heap := s.heap - {s.consumers[j].node}, consumers := s.consumers[j := AtTop])
    case Spurious(j) => s.(consumers := s.consumers[j := Woken])
  }

  // ---------- The invariant ----------

  /** The list from head runs through exactly `chain`, without repetition, and ends. */
  ghost predicate LinkedOk(heap: map<nat, Cell>, head: nat, chain: seq<nat>)
    decreases |chain|
  {
    if chain == [] then head == NULL
    else
      && head == chain[0] != NULL
      && head in heap && head !in chain[1..]
      && LinkedOk(heap, heap[head].next, chain[1..])
  }

  /** The list does not change when memory changes elsewhere. */
  lemma {:induction false} LinkedFrame(heap: map<nat, Cell>, heap': map<nat, Cell>, head: nat, chain: seq<nat>)
    requires LinkedOk(heap, head, chain)
    requires forall x :: x in chain && x in heap ==> x in heap' && heap'[x] == heap[x]
    ensures LinkedOk(heap', head, chain)
    ensures forall x :: x in chain ==> x in heap && x in heap' && x != NULL
    ensures Nums(heap', chain) == Nums(heap, chain)
    decreases |chain|
  {
    if chain != [] {
      var rest := chain[1..];
      assert forall x :: x in rest ==> x in chain;
      LinkedFrame(heap, heap', heap[head].next, rest);
      assert chain == [head] + rest;
      assert Nums(heap, chain) == [heap[head].num] + Nums(heap, rest);
      assert Nums(heap', chain) == [heap'[head].num] + Nums(heap', rest);
    }
  }

  /** Nodes held by threads are allocated, off the list, and each held by one thread. */
  ghost predicate HeldOk(s: System) {
    && (forall i :: 0 <= i < |s.producers| && s.producers[i].Made? ==>
          s.producers[i].node != NULL && s.producers[i].node in s.heap && s.producers[i].node !in s.chain)
    && (forall j :: 0 <= j < |s.consumers| && s.consumers[j].Unlinked? ==>
          s.consumers[j].node in s.heap && s.consumers[j].node !in s.chain)
    && (forall i, k :: 0 <= i < k < |s.producers| && s.producers[i].Made? && s.producers[k].Made? ==>
          s.producers[i].node != s.producers[k].node)
    && (forall j, k :: 0 <= j < k < |s.consumers| && s.consumers[j].Unlinked? && s.consumers[k].Unlinked? ==>
          s.consumers[j].node != s.consumers[k].node)
    && (forall i, j :: 0 <= i < |s.producers| && 0 <= j < |s.consumers| &&
                       s.producers[i].Made? && s.consumers[j].Unlinked? ==>
          s.producers[i].node != s.consumers[j].node)
  }

  function MadeWeight(p: Producer): nat { if p.Made? then 1 else 0 }

  function PushedWeight(p: Producer): nat { if p.Pushed? then 1 else 0 }

  function WokenWeight(c: Consumer): nat { if c.Woken? then 1 else 0 }

  function UnlinkedWeight(c: Consumer): nat { if c.Unlinked? then 1 else 0 }

  ghost predicate Held(s: System, node: nat) {
    || (exists i :: 0 <= i < |s.producers| && s.producers[i] == Made(node))
    || (exists j :: 0 <= j < |s.consumers| && s.consumers[j] == Unlinked(node))
  }

  /** Nothing is allocated beyond the list and what threads hold: no leak. */
  ghost predicate OwnedOk(s: System) {
    forall node :: node in s.heap ==> node in s.chain || Held(s, node)
  }

  /** The same in numbers. */
  ghost predicate CountOk(s: System) {
    |s.heap| == |s.chain| + Total(s.producers, MadeWeight) + Total(s.consumers, UnlinkedWeight)
  }

  /** While a consumer sleeps, a wakeup is on its way for every listed node: a consumer already
      woken, or a producer still to signal. */
  ghost predicate WakeOk(s: System) {
    AnyAsleep(s.consumers) ==> Total(s.consumers, WokenWeight) + Total(s.producers, PushedWeight) >= |s.chain|
  }

  /** The stack of values left by a log, newest first, if every pop takes the top. */
  function Replay(log: seq<Op>): (r: (bool, seq<nat>)) {
    if log == [] then (true, [])
    else
      var (ok, stack) := Replay(log[..|log| - 1]);
      match log[|log| - 1]
      case Push(num) => (ok, [num] + stack)
      case Pop(num) => if stack == [] then (false, []) else (ok && num == stack[0], stack[1..])
  }

  function Nums(heap: map<nat, Cell>, chain: seq<nat>): seq<nat> {
    seq(|chain|, k requires 0 <= k < |chain| => At(heap, chain[k]).num)
  }

  ghost predicate LogOk(s: System) {
    Replay(s.log) == (true, Nums(s.heap, s.chain))
  }

  ghost predicate Core(s: System) {
    LinkedOk(s.heap, s.head, s.chain) && HeldOk(s) && CountOk(s) && WakeOk(s) && LogOk(s)
  }

  ghost predicate Inv(s: System) {
    Core(s) && OwnedOk(s)
  }

  lemma StartInv(producers: nat, consumers: nat)
    ensures Inv(Start(producers, consumers))
  {
    var s := Start(producers, consumers);
    TotalBounded(s.producers, MadeWeight, 0);
    TotalBounded(s.consumers, UnlinkedWeight, 0);
    assert Nums(s.heap, s.chain) == [];
  }

  lemma ReplaySnoc(log: seq<Op>, op: Op)
    ensures Replay(log + [op]) ==
            var (ok, stack) := Replay(log);
            match op
            case Push(num) => (ok, [num] + stack)
            case Pop(num) => if stack == [] then (false, []) else (ok && num == stack[0], stack[1..])
  {
    assert (log + [op])[..|log|] == log;
  }

  /** Whoever held a node before a step still does, unless it is the step's own thread. */
  lemma HeldAfter(s: System, st: Step, node: nat)
    requires Enabled(s, st) && Held(s, node)
    ensures Held(Apply(s, st), node) || (st.Link? && s.producers[st.i].node == node)
            || (st.Release? && s.consumers[st.j].node == node)
  {
    var r := Apply(s, st);
    if i :| 0 <= i < |s.producers| && s.producers[i] == Made(node) {
      assert r.producers[i] == Made(node) || (st.Link? && st.i == i);
    } else {
      var j :| 0 <= j < |s.consumers| && s.consumers[j] == Unlinked(node);
      assert r.consumers[j] == Unlinked(node) || (st.Release? && st.j == j);
    }
  }

  /** Every allocated node keeps an owner, the list or a thread. */
  lemma OwnedKept(s: System, st: Step)
    requires OwnedOk(s) && LinkedOk(s.heap, s.head, s.chain) && Enabled(s, st)
    ensures OwnedOk(Apply(s, st))
  {
    var r := Apply(s, st);
    forall node | node in r.heap
      ensures node in r.chain || Held(r, node)
    {
      if node in s.heap && node !in s.chain {
        HeldAfter(s, st, node);
      } else if node !in s.heap {
        OwnedNew(s, st, node);
      } else if st.Serve? && s.head == node {
        assert r.consumers[st.j] == Unlinked(node);
      }
    }
  }

  lemma OwnedNew(s: System, st: Step, node: nat)
    requires Enabled(s, st) && node in Apply(s, st).heap && node !in s.heap
    ensures Held(Apply(s, st), node) || node in Apply(s, st).chain
  {
    var r := Apply(s, st);
    if st.Alloc? {
      assert r.producers[st.i] == Made(node);
    }
  }

  lemma AllocKept(s: System, i: nat, node: nat, garbage: nat, num: nat)
    requires Core(s) && Enabled(s, Alloc(i, node, garbage, num))
    ensures Core(Apply(s, Alloc(i, node, garbage, num)))
  {
    var r := Apply(s, Alloc(i, node, garbage, num));
    TotalUpdate(s.producers, i, Made(node), MadeWeight);
    TotalUpdate(s.producers, i, Made(node), PushedWeight);
    LinkedFrame(s.heap, r.heap, s.head, s.chain);
    hide LinkedOk, Replay, Nums, Total;
  }

  lemma LinkKept(s: System, i: nat)
    requires Core(s) && Enabled(s, Link(i))
    ensures Safe(s, Link(i)) && Core(Apply(s, Link(i)))
  {
    var r := Apply(s, Link(i));
    var node := s.producers[i].node;
    LinkList(s, i);
    LinkHeld(s, i);
    TotalUpdate(s.producers, i, Pushed, MadeWeight);
    TotalUpdate(s.producers, i, Pushed, PushedWeight);
    ReplaySnoc(s.log, Push(s.heap[node].num));
    hide LinkedOk, HeldOk, Nums, Total, Replay;
    assert r.heap.Keys == s.heap.Keys;
    assert |r.heap| == |r.heap.Keys| && |s.heap| == |s.heap.Keys|;
  }

  lemma LinkList(s: System, i: nat)
    requires LinkedOk(s.heap, s.head, s.chain) && HeldOk(s) && Enabled(s, Link(i))
    ensures var r := Apply(s, Link(i));
            LinkedOk(r.heap, r.head, r.chain) &&
            Nums(r.heap, r.chain) == [s.heap[s.producers[i].node].num] + Nums(s.heap, s.chain)
  {
    var r := Apply(s, Link(i));
    LinkedFrame(s.heap, r.heap, s.head, s.chain);
    assert r.chain[1..] == s.chain;
    assert Nums(r.heap, r.chain) == [r.heap[r.head].num] + Nums(r.heap, s.chain);
  }

  lemma LinkHeld(s: System, i: nat)
    requires HeldOk(s) && Enabled(s, Link(i))
    ensures HeldOk(Apply(s, Link(i)))
  {
  }

  lemma NotifyKept(s: System, i: nat, wake: nat)
    requires Core(s) && Enabled(s, Notify(i, wake))
    ensures Core(Apply(s, Notify(i, wake)))
  {
    hide LinkedOk, Replay, Nums, Total;
    TotalUpdate(s.producers, i, Making, MadeWeight);
    TotalUpdate(s.producers, i, Making, PushedWeight);
    if wake < |s.consumers| && s.consumers[wake].Asleep? {
      TotalUpdate(s.consumers, wake, Woken, WokenWeight);
      TotalUpdate(s.consumers, wake, Woken, UnlinkedWeight);
    }
  }

  lemma ServeKept(s: System, j: nat)
    requires Core(s) && Enabled(s, Serve(j))
    ensures Safe(s, Serve(j)) && Core(Apply(s, Serve(j)))
  {
    var r := Apply(s, Serve(j));
    ServeHeld(s, j);
    TotalUpdate(s.consumers, j, r.consumers[j], WokenWeight);
    TotalUpdate(s.consumers, j, r.consumers[j], UnlinkedWeight);
    if s.head != NULL {
      ReplaySnoc(s.log, Pop(s.heap[s.head].num));
      assert Nums(s.heap, s.chain)[1..] == Nums(r.heap, r.chain);
    }
    hide HeldOk, Total, Replay, Nums;
  }

  lemma ServeHeld(s: System, j: nat)
    requires Core(s) && Enabled(s, Serve(j))
    ensures HeldOk(Apply(s, Serve(j)))
  {
    hide Replay, Total;
    if s.head != NULL {
      LinkedFrame(s.heap, s.heap, s.head, s.chain);
      assert forall x :: x in s.chain[1..] ==> x in s.chain;
    }
  }

  lemma ReleaseKept(s: System, j: nat)
    requires Core(s) && Enabled(s, Release(j))
    ensures Safe(s, Release(j)) && Core(Apply(s, Release(j)))
  {
    var r := Apply(s, Release(j));
    var node := s.consumers[j].node;
    TotalUpdate(s.consumers, j, AtTop, WokenWeight);
    TotalUpdate(s.consumers, j, AtTop, UnlinkedWeight);
    LinkedFrame(s.heap, r.heap, s.head, s.chain);
    hide LinkedOk, Replay, Nums, Total;
    assert r.heap.Keys == s.heap.Keys - {node};
  }

  lemma SpuriousKept(s: System, j: nat)
    requires Core(s) && Enabled(s, Spurious(j))
    ensures Core(Apply(s, Spurious(j)))
  {
    TotalUpdate(s.consumers, j, Woken, WokenWeight);
    TotalUpdate(s.consumers, j, Woken, UnlinkedWeight);
  }

  lemma InvStep(s: System, st: Step)
    requires Inv(s) && Enabled(s, st)
    ensures Safe(s, st) && Inv(Apply(s, st))
  {
    hide HeldOk, OwnedOk, CountOk, WakeOk, LogOk, LinkedOk, Apply, Enabled;
    OwnedKept(s, st);
    hide Core;
    match st
    case Alloc(i, node, garbage, num) => AllocKept(s, i, node, garbage, num);
    case Link(i) => LinkKept(s, i);
    case Notify(i, wake) => NotifyKept(s, i, wake);
    case Serve(j) => ServeKept(s, j);
    case Release(j) => ReleaseKept(s, j);
    case Spurious(j) => SpuriousKept(s, j);
  }

  // ---------- Runs ----------

  ghost predicate Legal(s: System, steps: seq<Step>)
    decreases |steps|
  {
    steps == [] || (Enabled(s, steps[0]) && Legal(Apply(s, steps[0]), steps[1..]))
  }

  ghost function Run(s: System, steps: seq<Step>): System
    requires Legal(s, steps)
    decreases |steps|
  {
    if steps == [] then s else Run(Apply(s, steps[0]), steps[1..])
  }

  lemma {:induction false} InvRun(s: System, steps: seq<Step>)
    requires Inv(s) && Legal(s, steps)
    ensures Inv(Run(s, steps))
    decreases |steps|
  {
    if steps != [] {
      InvStep(s, steps[0]);
      hide Inv, Apply, Enabled;
      InvRun(Apply(s, steps[0]), steps[1..]);
    }
  }

  ghost predicate Reachable(s: System) {
    exists producers: nat, consumers: nat, steps ::
      Legal(Start(producers, consumers), steps) && Run(Start(producers, consumers), steps) == s
  }

  lemma ReachableInv(s: System)
    requires Reachable(s)
    ensures Inv(s)
  {
    var producers: nat, consumers: nat, steps :|
      Legal(Start(producers, consumers), steps) && Run(Start(producers, consumers), steps) == s;
    StartInv(producers, consumers);
    InvRun(Start(producers, consumers), steps);
  }

  // ---------- Memory ----------

  /** No step of any run touches unallocated memory; a freed node is allocated, off the list and
      in no other thread's hands, so no node is freed twice or while reachable. */
  lemma MemorySafe(s: System, st: Step)
    requires Reachable(s) && Enabled(s, st)
    ensures Safe(s, st)
    ensures st.Release? ==>
              var node := s.consumers[st.j].node;
              && node in s.heap && node !in s.chain && node !in Apply(s, st).heap
              && (forall i :: 0 <= i < |s.producers| && s.producers[i].Made? ==> s.producers[i].node != node)
              && (forall j :: 0 <= j < |s.consumers| && j != st.j && s.consumers[j].Unlinked? ==>
                    s.consumers[j].node != node)
  {
    ReachableInv(s);
    InvStep(s, st);
  }

  /** The list is finite, repeats no node, and holds allocated nodes only; the nodes on it and
      those threads hold are exactly the ones allocated. */
  lemma ListOwnsItsNodes(s: System)
    requires Reachable(s)
    ensures LinkedOk(s.heap, s.head, s.chain)
    ensures forall node :: node in s.heap <==> node in s.chain || Held(s, node)
    ensures |s.heap| == |s.chain| + Total(s.producers, MadeWeight) + Total(s.consumers, UnlinkedWeight)
  {
    ReachableInv(s);
    LinkedFrame(s.heap, s.heap, s.head, s.chain);
  }

  // ---------- Values ----------

  function PushedNums(log: seq<Op>): multiset<nat> {
    if log == [] then multiset{}
    else
      var op := log[|log| - 1];
      PushedNums(log[..|log| - 1]) + (if op.Push? then multiset{op.num} else multiset{})
  }

  function PoppedNums(log: seq<Op>): multiset<nat> {
    if log == [] then multiset{}
    else
      var op := log[|log| - 1];
      PoppedNums(log[..|log| - 1]) + (if op.Pop? then multiset{op.num} else multiset{})
  }

  /** On a log whose pops all take the top, what was pushed is what was popped and what is left. */
  lemma {:induction false} StackConserves(log: seq<Op>)
    requires Replay(log).0
    ensures PushedNums(log) == PoppedNums(log) + multiset(Replay(log).1)
  {
    if log != [] {
      var n := |log| - 1;
      var stack := Replay(log[..n]).1;
      StackConserves(log[..n]);
      if log[n].Pop? {
        assert stack == [stack[0]] + stack[1..];
      }
    }
  }

  /** Every value consumed is the newest one listed, and everything produced is consumed once or
      still listed. */
  lemma ConsumptionIsStack(s: System)
    requires Reachable(s)
    ensures Replay(s.log) == (true, Nums(s.heap, s.chain))
    ensures PushedNums(s.log) == PoppedNums(s.log) + multiset(Nums(s.heap, s.chain))
  {
    ReachableInv(s);
    StackConserves(s.log);
  }

  // ---------- From the producers' hands ----------

  /** The value a producer has filled in and not yet linked. */
  function Filled(heap: map<nat, Cell>): Producer -> multiset<nat> {
    (p: Producer) => if p.Made? then multiset{At(heap, p.node).num} else multiset{}
  }

  function MadeNums(s: System): multiset<nat> {
    Gathered(s.producers, Filled(s.heap))
  }

  /** The values drawn by the producers, as the steps of a run name them. */
  function Drawn(steps: seq<Step>): multiset<nat> {
    if steps == [] then multiset{}
    else (if steps[0].Alloc? then multiset{steps[0].num} else multiset{}) + Drawn(steps[1..])
  }

  lemma PushedSnoc(log: seq<Op>, op: Op)
    ensures PushedNums(log + [op]) == PushedNums(log) + (if op.Push? then multiset{op.num} else multiset{})
  {
    assert (log + [op])[..|log|] == log;
  }

  lemma AllocDraws(s: System, i: nat, node: nat, garbage: nat, num: nat)
    requires Inv(s) && Enabled(s, Alloc(i, node, garbage, num))
    ensures MadeNums(Apply(s, Alloc(i, node, garbage, num))) == MadeNums(s) + multiset{num}
    ensures At(Apply(s, Alloc(i, node, garbage, num)).heap, node) == Cell(garbage, num)
  {
    hide Gathered, LinkedOk, OwnedOk, CountOk, WakeOk, LogOk;
    var r := Apply(s, Alloc(i, node, garbage, num));
    GatheredOther(s.producers, Filled(s.heap), Filled(r.heap));
    GatheredUpdate(s.producers, i, Made(node), Filled(r.heap));
    assert MadeNums(r) + multiset{} == MadeNums(s) + multiset{num};
  }

  lemma LinkPushes(s: System, i: nat)
    requires Inv(s) && Enabled(s, Link(i))
    ensures var r := Apply(s, Link(i));
            PushedNums(r.log) + MadeNums(r) == PushedNums(s.log) + MadeNums(s)
  {
    hide Gathered, PushedNums, LinkedOk, OwnedOk, CountOk, WakeOk, LogOk;
    var r := Apply(s, Link(i));
    var num := At(s.heap, s.producers[i].node).num;
    PushedSnoc(s.log, Push(num));
    GatheredOther(s.producers, Filled(s.heap), Filled(r.heap));
    GatheredUpdate(s.producers, i, Pushed, Filled(r.heap));
    Exchange(PushedNums(s.log), MadeNums(s), PushedNums(r.log), MadeNums(r), multiset{}, multiset{num});
  }

  lemma ReleaseDraws(s: System, j: nat)
    requires Inv(s) && Enabled(s, Release(j))
    ensures MadeNums(Apply(s, Release(j))) == MadeNums(s)
  {
    hide Gathered, LinkedOk, OwnedOk, CountOk, WakeOk, LogOk;
    GatheredOther(s.producers, Filled(s.heap), Filled(Apply(s, Release(j)).heap));
  }

  lemma DrawnStep(s: System, st: Step)
    requires Inv(s) && Enabled(s, st)
    ensures var r := Apply(s, st);
            var before, after := PushedNums(s.log) + MadeNums(s), PushedNums(r.log) + MadeNums(r);
            && (st.Alloc? ==> after == before + multiset{st.num})
            && (!st.Alloc? ==> after == before)
  {
    hide Gathered, PushedNums, Inv;
    match st
    case Alloc(i, node, garbage, num) => AllocDraws(s, i, node, garbage, num);
    case Link(i) => LinkPushes(s, i);
    case Notify(i, wake) => GatheredSame(s.producers, s.producers[i := Making], Filled(s.heap));
    case Serve(j) =>
      if s.head != NULL {
        PushedSnoc(s.log, Pop(At(s.heap, s.head).num));
      }
    case Release(j) => ReleaseDraws(s, j);
    case Spurious(j) =>
  }

  lemma {:induction false} DrawnRun(s: System, steps: seq<Step>)
    requires Inv(s) && Legal(s, steps)
    ensures var t := Run(s, steps);
            PushedNums(t.log) + MadeNums(t) == PushedNums(s.log) + MadeNums(s) + Drawn(steps)
    ensures forall num :: num in Drawn(steps) ==> 1 <= num <= 1000
    decreases |steps|
  {
    if steps != [] {
      var st := steps[0];
      DrawnStep(s, st);
      InvStep(s, st);
      assert st.Alloc? ==> 1 <= st.num <= 1000;
      hide Inv, Apply, Enabled, MadeNums, PushedNums;
      DrawnRun(Apply(s, st), steps[1..]);
    }
  }

  /** In every run the values the producers drew are those pushed and those still in their hands,
      so what is consumed is what was drawn, and nothing but 1 to 1000. */
  lemma ConsumesWhatWasDrawn(producers: nat, consumers: nat, steps: seq<Step>)
    requires Legal(Start(producers, consumers), steps)
    ensures var t := Run(Start(producers, consumers), steps);
            && PushedNums(t.log) + MadeNums(t) == Drawn(steps)
            && PoppedNums(t.log) <= PushedNums(t.log)
            && forall num :: num in PushedNums(t.log) ==> 1 <= num <= 1000
  {
    var s := Start(producers, consumers);
    var t := Run(s, steps);
    StartInv(producers, consumers);
    InvRun(s, steps);
    StackConserves(t.log);
    hide Inv, Gathered, Legal, Run, Replay;
    DrawnRun(s, steps);
    GatheredSame([], s.producers, Filled(s.heap));
    assert PushedNums([]) == multiset{};
    assert PushedNums(t.log) + MadeNums(t) == Drawn(steps);
    forall num | num in PushedNums(t.log)
      ensures 1 <= num <= 1000
    {
      assert num in PushedNums(t.log) + MadeNums(t);
    }
  }

  // ---------- Wakeups ----------

  /** No lost wakeup although the signal comes after unlocking. */
  lemma NoLostWakeup(s: System)
    requires Reachable(s) && AnyAsleep(s.consumers)
    ensures Total(s.consumers, WokenWeight) + Total(s.producers, PushedWeight) >= |s.chain|
  {
    ReachableInv(s);
  }

  /** Steps of producers that have a node and of consumers: no new node, no unsignalled wakeup. */
  predicate Working(st: Step) {
    st.Link? || st.Notify? || st.Serve? || st.Release?
  }

  function ProducerLeft(p: Producer): nat {
    match p case Making => 0 case Made(_) => 6 case Pushed => 2
  }

  function ConsumerLeft(c: Consumer): nat {
    match c case AtTop => 1 case Asleep => 0 case Woken => 1 case Unlinked(_) => 2
  }

  function Left(s: System): nat {
    Total(s.producers, ProducerLeft) + 3 * |s.chain| + Total(s.consumers, ConsumerLeft)
  }

  lemma WorkingFalls(s: System, st: Step)
    requires Inv(s) && Enabled(s, st) && Working(st)
    ensures Left(Apply(s, st)) < Left(s)
  {
    hide HeldOk, LogOk, CountOk, WakeOk;
    var r := Apply(s, st);
    match st
    case Link(i) => TotalUpdate(s.producers, i, r.producers[i], ProducerLeft);
    case Notify(i, wake) =>
      TotalUpdate(s.producers, i, r.producers[i], ProducerLeft);
      if wake < |s.consumers| && s.consumers[wake].Asleep? {
        TotalUpdate(s.consumers, wake, Woken, ConsumerLeft);
      }
    case Serve(j) => TotalUpdate(s.consumers, j, r.consumers[j], ConsumerLeft);
    case Release(j) => TotalUpdate(s.consumers, j, r.consumers[j], ConsumerLeft);
  }

  ghost predicate AtRest(s: System) {
    forall st: Step :: Working(st) ==> !Enabled(s, st)
  }

  ghost function Sleeper(consumers: seq<Consumer>): (j: nat)
    requires AnyAsleep(consumers)
    ensures j < |consumers| && consumers[j].Asleep?
  {
    var j :| 0 <= j < |consumers| && consumers[j].Asleep?;
    j
  }

  lemma RestMeansEmpty(s: System)
    requires Inv(s) && AtRest(s) && |s.consumers| >= 1
    ensures s.chain == [] && s.heap == map[]
    ensures forall j :: 0 <= j < |s.consumers| ==> s.consumers[j].Asleep?
  {
    hide LinkedOk, HeldOk, OwnedOk, LogOk, Total;
    forall j | 0 <= j < |s.consumers|
      ensures s.consumers[j].Asleep?
    {
      assert !Enabled(s, Serve(j)) && !Enabled(s, Release(j));
    }
    assert s.consumers[0].Asleep?;
    var wake := Sleeper(s.consumers);
    forall i | 0 <= i < |s.producers|
      ensures s.producers[i].Making?
    {
      assert !Enabled(s, Link(i)) && !Enabled(s, Notify(i, wake));
    }
    TotalBounded(s.producers, PushedWeight, 0);
    TotalBounded(s.producers, MadeWeight, 0);
    TotalBounded(s.consumers, WokenWeight, 0);
    TotalBounded(s.consumers, UnlinkedWeight, 0);
    assert |s.heap| == 0;
  }

  lemma {:induction false} WorkingRun(s: System, steps: seq<Step>)
    requires Inv(s) && Legal(s, steps) && forall st :: st in steps ==> Working(st)
    ensures Inv(Run(s, steps)) && |steps| + Left(Run(s, steps)) <= Left(s)
    ensures |Run(s, steps).consumers| == |s.consumers|
    decreases |steps|
  {
    hide Inv, Apply, Enabled, Left;
    if steps != [] {
      var st := steps[0];
      assert Working(st);
      WorkingFalls(s, st);
      InvStep(s, st);
      SameConsumers(s, st);
      WorkingRun(Apply(s, st), steps[1..]);
    }
  }

  lemma SameConsumers(s: System, st: Step)
    requires Enabled(s, st)
    ensures |Apply(s, st).consumers| == |s.consumers|
  {
  }

  /** With at least one consumer, once no new node is made all threads come to rest within Left
      steps, and then the list is empty and every node has been freed. */
  lemma Drains(s: System, steps: seq<Step>)
    requires Reachable(s) && |s.consumers| >= 1 && Legal(s, steps)
    requires forall st :: st in steps ==> Working(st)
    ensures |steps| <= Left(s)
    ensures var t := Run(s, steps); AtRest(t) ==> t.chain == [] && t.heap == map[] && t.head == NULL
  {
    ReachableInv(s);
    WorkingRun(s, steps);
    var t := Run(s, steps);
    if AtRest(t) {
      RestMeansEmpty(t);
    }
  }

  // ---------- The list on real nodes ----------

  class Node {
    var next: Node?
    var num: nat
  }

  /** The shared head, and what the two locked blocks do to it. As in the step relation, `nodes`
      and `log` only observe: the values on the list are the stack that the log replays. */
  class MsgList {
    var head: Node?
    ghost var nodes: seq<Node>
    ghost var log: seq<Op>

    ghost function Values(): (r: seq<nat>)
      reads this, nodes
      ensures |r| == |nodes|
    {
      seq(|nodes|, k requires 0 <= k < |nodes| reads this, nodes => nodes[k].num)
    }

    ghost function Item(k: nat): Node?
      reads this
    {
      if k < |nodes| then nodes[k] else null
    }

    ghost predicate Valid()
      reads this, nodes
    {
      && head == Item(0)
      && (forall k :: 0 <= k < |nodes| ==> nodes[k].next == Item(k + 1))
      && (forall k, m :: 0 <= k < m < |nodes| ==> nodes[k] != nodes[m])
      && Replay(log) == (true, Values())
    }

    constructor ()
      ensures Valid() && nodes == [] && log == []
    {
      head, nodes, log := null, [], [];
    }

    method Push(mp: Node)
      requires Valid() && mp !in nodes
      modifies this, mp
      ensures Valid() && nodes == [mp] + old(nodes) && mp.num == old(mp.num)
      ensures log == old(log) + [Op.Push(mp.num)] && Values() == [mp.num] + old(Values())
    {
      ReplaySnoc(log, Op.Push(mp.num));
      mp.next := head;
      head := mp;
      ghost var was := nodes;
      nodes := [mp] + nodes;
      log := log + [Op.Push(mp.num)];
      assert Values() == [mp.num] + old(Values());
      forall k | 0 <= k < |nodes|
        ensures nodes[k].next == Item(k + 1)
      {
        if k > 0 {
          assert nodes[k] == was[k - 1];
        }
      }
    }

    method Pop() returns (mp: Node)
      requires Valid() && head != null
      modifies this
      ensures Valid() && [mp] + nodes == old(nodes) && mp !in nodes
      ensures log == old(log) + [Op.Pop(mp.num)] && [mp.num] + Values() == old(Values())
    {
      mp := head;
      ReplaySnoc(log, Op.Pop(mp.num));
      ghost var was := nodes;
      assert was[0].next == Item(1);
      head := head.next;
      nodes := nodes[1..];
      log := log + [Op.Pop(mp.num)];
      assert Values() == old(Values())[1..];
      forall k | 0 <= k < |nodes|
        ensures nodes[k].next == Item(k + 1)
      {
        assert nodes[k] == was[k + 1];
      }
    }
  }
}
