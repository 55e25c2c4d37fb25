/** 013threadPoll/threadpool.c: what each lock-protected block of the pool does to the shared
    fields, as functions on their values, and a class whose methods do the same in place. */
module PoolSections {
  import opened Remainders
  import opened TaskRing

  const DEFAULT_THREAD_NUM: nat := 10

  /** The pool's fields. Thread ids are positive; 0 is an unused entry of `threads`. */
  datatype Shared = Shared(
    min: nat, max: nat, ring: Ring, alive: int, busy: nat, waitExit: int, shutdown: bool, threads: seq<nat>)

  function Initial(min: nat, max: nat, queueMax: nat): Shared {
    Shared(min, max, Ring(seq(queueMax, _ => Task(NULL, NULL)), 0, 0, 0), min, 0, 0, false,
           seq(max, i => if i < min then i + 1 else 0))
  }

  datatype AddOutcome = QueueFull | Stored(freed: seq<nat>)

  /** threadpool_add from taking the lock to either waiting on queue_not_full or unlocking. */
  function AddSection(sh: Shared, task: Task): (Shared, AddOutcome)
    requires sh.ring.rear < |sh.ring.slots|
  {
    if !sh.shutdown && sh.ring.size == |sh.ring.slots| then (sh, QueueFull)
    else (sh.(ring := Store(sh.ring, task)), Stored(Released(sh.ring)))
  }

  /** threadpool_add does not return after lines 122-123, so an add on a full pool that is being
      shut down breaks the ring. This is one add run in one piece; what several do that overlap,
      the lock being released at line 123, is in LateAdds. */
  lemma AddKeepsRingIff(sh: Shared, task: Task)
    requires Valid(sh.ring)
    ensures Valid(AddSection(sh, task).0.ring) <==> !(sh.shutdown && sh.ring.size == |sh.ring.slots|)
  {
    StoreAppends(sh.ring, task);
  }

  datatype TestOutcome = Waits | Retires | Quits | Proceeds

  /** threadpool_thread from taking the lock to its tests of `shutdown` (lines 159 and 175):
      about to wait on queue_not_empty, exiting, or about to take a task. `resumed` when the lock
      is retaken inside the wait. After Waits and Proceeds the lock is still held. */
  function TestSection(sh: Shared, resumed: bool): (Shared, TestOutcome) {
    var ordered := resumed && sh.waitExit > 0;
    var sh1 := if ordered then sh.(waitExit := sh.waitExit - 1) else sh;
    if ordered && sh1.alive > sh1.min then (sh1.(alive := sh1.alive - 1), Retires)
    else if !sh1.shutdown && sh1.ring.size == 0 then (sh1, Waits)
    else if sh1.shutdown then (sh1, Quits)
    else (sh1, Proceeds)
  }

  /** A thread leaves for want of work only when it comes out of its wait to an outstanding order
      and the alive count is above the minimum; it takes one off both counts. */
  lemma RetiresWhen(sh: Shared, resumed: bool)
    ensures var (after, out) := TestSection(sh, resumed);
            && (out.Retires? <==> resumed && sh.waitExit > 0 && sh.alive > sh.min)
            && (out.Retires? ==> after == sh.(waitExit := sh.waitExit - 1, alive := sh.alive - 1))
            && (!out.Retires? ==> after.alive == sh.alive)
  {
  }

  /** The adjuster's test for too few threads, on its own copies of the two counts. */
  predicate WantsMore(sh: Shared, queueSize: nat, alive: int) {
    queueSize > 3 + alive && alive + 1 < sh.max
  }

  /** The adjuster's test for too many threads. */
  predicate WantsFewer(sh: Shared, busy: nat, alive: int) {
    busy * 2 < alive && alive > sh.min
  }

  predicate FreeEntry(tid: nat, live: set<nat>) {
    tid == 0 || tid !in live
  }

  /** The adjuster's creation loop from entry i, n threads created so far; new ids count up
      from `nextId`; `live` are the ids that answer signal 0. */
  function GrowFrom(sh: Shared, threads: seq<nat>, live: set<nat>, nextId: nat, i: nat, n: nat): (r: (seq<nat>, nat))
    requires |threads| == sh.max
    ensures |r.0| == sh.max
    decreases sh.max - i
  {
    if i < sh.max && n < DEFAULT_THREAD_NUM && sh.alive < sh.max then
      if FreeEntry(threads[i], live) then
        GrowFrom(sh, threads[i := nextId + n], live, nextId, i + 1, n + 1)
      else
        GrowFrom(sh, threads, live, nextId, i + 1, n)
    else
      (threads, n)
  }

  /** No id stands in two entries. */
  ghost predicate DistinctIds(threads: seq<nat>) {
    forall i, j :: 0 <= i < j < |threads| && threads[i] == threads[j] ==> threads[i] == 0
  }

  ghost predicate IdsBelow(threads: seq<nat>, bound: nat) {
    forall j :: 0 <= j < |threads| ==> threads[j] < bound
  }

  /** What the creation loop does: at most ten new ids, each put in an entry that was free;
      every other entry stays. */
  lemma {:induction false} GrowSpec(sh: Shared, threads: seq<nat>, live: set<nat>, nextId: nat, i: nat, n: nat)
    requires i <= |threads| == sh.max && n <= DEFAULT_THREAD_NUM && nextId >= 1
    requires DistinctIds(threads) && IdsBelow(threads, nextId + n)
    ensures var (grown, m) := GrowFrom(sh, threads, live, nextId, i, n);
            && n <= m <= DEFAULT_THREAD_NUM
            && DistinctIds(grown) && IdsBelow(grown, nextId + m)
            && (forall j :: 0 <= j < i ==> grown[j] == threads[j])
            && (forall j :: i <= j < |grown| ==>
                  grown[j] == threads[j] || ((threads[j] == 0 || threads[j] !in live) && nextId + n <= grown[j]))
    decreases sh.max - i
  {
    if i < sh.max && n < DEFAULT_THREAD_NUM && sh.alive < sh.max {
      if FreeEntry(threads[i], live) {
        GrowSpec(sh, threads[i := nextId + n], live, nextId, i + 1, n + 1);
      } else {
        GrowSpec(sh, threads, live, nextId, i + 1, n);
      }
    }
  }

  /** Every new id does stand in an entry, and the loop stops short of ten only when no free
      entry is left. */
  lemma {:induction false} GrowPlaces(
    sh: Shared, threads: seq<nat>, live: set<nat>, nextId: nat, i: nat, n: nat, t: nat, k: nat)
    requires i <= |threads| == sh.max && n <= DEFAULT_THREAD_NUM && nextId >= 1
    requires DistinctIds(threads) && IdsBelow(threads, nextId + n)
    ensures var (grown, m) := GrowFrom(sh, threads, live, nextId, i, n);
            && (nextId + n <= t < nextId + m ==> t in grown)
            && (m < 10 && sh.alive < sh.max && i <= k < |grown| && (threads[k] == 0 || threads[k] !in live) ==>
                  nextId + n <= grown[k])
    decreases sh.max - i
  {
    if i < sh.max && n < DEFAULT_THREAD_NUM && sh.alive < sh.max {
      if FreeEntry(threads[i], live) {
        var threads' := threads[i := nextId + n];
        GrowSpec(sh, threads', live, nextId, i + 1, n + 1);
        GrowPlaces(sh, threads', live, nextId, i + 1, n + 1, t, k);
        assert GrowFrom(sh, threads', live, nextId, i + 1, n + 1).0[i] == nextId + n;
      } else {
        GrowPlaces(sh, threads, live, nextId, i + 1, n, t, k);
      }
    }
  }

  /** The pool object, its fields edited in place under the lock. */
  class ThreadPool {
    var minNum: nat
    var maxNum: nat
    var aliveNum: int
    var busyNum: nat
    var waitExitNum: int
    var queueFront: nat
    var queueRear: nat
    var queueSize: nat
    var shutdown: bool
    var taskQueue: array<Task>
    var threads: array<nat>

    ghost function View(): Shared
      reads this, taskQueue, threads
    {
      Shared(minNum, maxNum, Ring(taskQueue[..], queueFront, queueRear, queueSize),
             aliveNum, busyNum, waitExitNum, shutdown, threads[..])
    }

    /** threadpool_create with both arrays starting zeroed. */
    constructor (min: nat, max: nat, queueMax: nat)
      requires 1 <= queueMax && 1 <= min <= max
      ensures View() == Initial(min, max, queueMax)
      ensures fresh(taskQueue) && fresh(threads)
    {
      minNum, maxNum, aliveNum, busyNum, waitExitNum := min, max, min, 0, 0;
      queueFront, queueRear, queueSize, shutdown := 0, 0, 0, false;
      taskQueue := new Task[queueMax](_ => Task(NULL, NULL));
      threads := new nat[max](_ => 0);
      new;
      for i := 0 to min
        invariant threads.Length == max && fresh(threads) && fresh(taskQueue)
        invariant forall j :: 0 <= j < max ==> threads[j] == if j < i then j + 1 else 0
        invariant View() == Initial(min, max, queueMax).(threads := threads[..])
      {
        threads[i] := i + 1;
      }
    }

    method Add(task: Task) returns (out: AddOutcome)
      requires queueRear < taskQueue.Length
      modifies this, taskQueue
      ensures taskQueue == old(taskQueue) && threads == old(threads)
      ensures (View(), out) == AddSection(old(View()), task)
    {
      if !shutdown && queueSize == taskQueue.Length {
        return QueueFull;
      }
      var freed := [];
      if taskQueue[queueRear].args != NULL {
        freed := [taskQueue[queueRear].args];
        taskQueue[queueRear] := taskQueue[queueRear].(args := NULL);
      }
      ghost var was := old(View()).ring;
      NonNullOne(was.slots[was.rear]);
      taskQueue[queueRear] := task;
      assert taskQueue[..] == was.slots[was.rear := task];
      queueRear := Wrap(queueRear + 1, taskQueue.Length);
      queueSize := queueSize + 1;
      out := Stored(freed);
    }

    method Test(resumed: bool) returns (out: TestOutcome)
      modifies this
      ensures taskQueue == old(taskQueue) && threads == old(threads)
      ensures (View(), out) == TestSection(old(View()), resumed)
    {
      if resumed && waitExitNum > 0 {
        waitExitNum := waitExitNum - 1;
        if aliveNum > minNum {
          aliveNum := aliveNum - 1;
          return Retires;
        }
      }
      if !shutdown && queueSize == 0 {
        return Waits;
      }
      if shutdown {
        return Quits;
      }
      out := Proceeds;
    }

    method TakeTask() returns (task: Task)
      requires queueFront < taskQueue.Length && queueSize > 0
      modifies this
      ensures taskQueue == old(taskQueue) && threads == old(threads)
      ensures View() == old(View()).(ring := Take(old(View()).ring))
      ensures task == old(taskQueue[queueFront])
    {
      task := taskQueue[queueFront];
      queueFront := Wrap(queueFront + 1, taskQueue.Length);
      queueSize := queueSize - 1;
    }

    /** The creation loop: `added` new threads. */
    method Grow(live: set<nat>, nextId: nat) returns (added: nat)
      requires threads.Length == maxNum
      modifies threads
      ensures threads[..] == GrowFrom(old(View()), old(threads[..]), live, nextId, 0, 0).0
      ensures added == GrowFrom(old(View()), old(threads[..]), live, nextId, 0, 0).1
      ensures View() == old(View()).(threads := threads[..])
    {
      added := 0;
      var i := 0;
      while i < maxNum && added < DEFAULT_THREAD_NUM && aliveNum < maxNum
        invariant i <= threads.Length == maxNum
        invariant View() == old(View()).(threads := threads[..])
        invariant GrowFrom(old(View()), threads[..], live, nextId, i, added) ==
                  GrowFrom(old(View()), old(threads[..]), live, nextId, 0, 0)
      {
        if threads[i] == 0 || threads[i] !in live {
          var id: nat := nextId + added;
          ghost var was := threads[..];
          threads[i] := id;
          assert threads[..] == was[i := id];
          added := added + 1;
        }
        i := i + 1;
      }
    }
  }
}
