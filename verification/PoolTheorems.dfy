/** 013threadPoll/threadpool.c: the pool's guarantees, for every state of every run. */
module PoolTheorems {
  import opened Totals
  import opened TaskRing
  import opened PoolSections
  import opened PoolProtocol
  import opened PoolInvariants

  /** A state some run reaches, from some pool and some number of submitting threads. */
  ghost predicate Reachable(s: Pool) {
    exists min: nat, max: nat, queueMax: nat, n: nat, steps ::
      1 <= queueMax && 1 <= min <= max && LeadsTo(Start(min, max, queueMax, n), steps, s)
  }

  ghost predicate LeadsTo(s: Pool, steps: seq<Step>, t: Pool) {
    Shape(s) && Legal(s, steps) && Run(s, steps) == t
  }

  lemma ReachableInv(s: Pool)
    requires Reachable(s)
    ensures Inv(s)
  {
    var min: nat, max: nat, queueMax: nat, n: nat, steps :|
      1 <= queueMax && 1 <= min <= max && LeadsTo(Start(min, max, queueMax, n), steps, s);
    StartInv(min, max, queueMax, n);
    InvRun(Start(min, max, queueMax, n), steps);
  }

  // ---------- Wakeups ----------

  /** No lost wakeup: while a worker sleeps, as many others are on their way, woken or already
      holding the lock to take a task, as tasks are queued. */
  lemma NoLostWakeup(s: Pool)
    requires Reachable(s) && !s.sh.shutdown && AnyAsleep(s.workers)
    ensures Total(s.workers, ComingWeight) >= s.sh.ring.size
  {
    ReachableInv(s);
  }

  /** Work is never queued with every worker asleep, and no submitter sleeps beside a free slot. */
  lemma NobodySleepsOnWork(s: Pool)
    requires Reachable(s) && !s.sh.shutdown
    ensures s.sh.ring.size > 0 ==> exists w :: 0 <= w < |s.workers| && !s.workers[w].Asleep? && !s.workers[w].Exited?
    ensures forall i :: 0 <= i < |s.submitters| && s.submitters[i].AsleepFull? ==> s.sh.ring.size == |s.sh.ring.slots|
  {
    ReachableInv(s);
    if s.sh.ring.size > 0 {
      if AnyAsleep(s.workers) {
        SomePositive(s.workers, ComingWeight);
      } else {
        assert !s.workers[0].Asleep?;
      }
    }
  }

  // ---------- The queue ----------

  /** Tasks are taken in submission order, each exactly once. */
  lemma Fifo(s: Pool)
    requires Reachable(s)
    ensures Valid(s.sh.ring) && s.added == s.taken + Contents(s.sh.ring)
  {
    ReachableInv(s);
    AccountsIsQueue(s.sh.ring, s.added, s.taken, s.freed);
  }

  /** The add numbered k frees the argument of the task numbered k - queue_max_size, and only
      that, and the task has been taken by then. */
  lemma EachAddFreesOneLapBack(s: Pool, i: nat, wake: nat)
    requires Reachable(s) && Enabled(s, Submit(i, wake)) && s.sh.ring.size < |s.sh.ring.slots|
    ensures var k, m := |s.added|, |s.sh.ring.slots|;
            var r := Apply(s, Submit(i, wake));
            && r.added == s.added + [s.submitters[i].task]
            && (k < m ==> r.freed == s.freed)
            && (k >= m ==> k - m < |s.taken| && r.freed == s.freed + NonNull([s.taken[k - m]]))
  {
    ReachableInv(s);
    SlotReuse(s.sh.ring, s.added, s.taken, s.freed);
  }

  /** When callers pass distinct arguments, no argument is freed twice, only arguments of taken
      tasks are freed, and no queued task's argument has been. */
  lemma ArgumentsFreedOnce(s: Pool)
    requires Reachable(s) && DistinctArgs(s.added)
    ensures forall i, j :: 0 <= i < j < |s.freed| ==> s.freed[i] != s.freed[j]
    ensures forall p :: p in s.freed ==> p in NonNull(s.taken)
    ensures forall task :: task in Contents(s.sh.ring) ==> task.args !in s.freed
  {
    ReachableInv(s);
    FreesAreSound(s.sh.ring, s.added, s.taken, s.freed);
  }

  // ---------- The worker population ----------

  /** The pool never shrinks: whatever the adjuster orders, the alive count stays at the minimum
      and no worker leaves before shutdown; the busy count is of all tasks ever started. */
  lemma NeverShrinks(s: Pool)
    requires Reachable(s)
    ensures s.sh.alive == s.sh.min
    ensures !s.sh.shutdown ==> forall w :: 0 <= w < |s.workers| ==> !s.workers[w].Exited?
    ensures s.sh.busy == |s.taken| - Total(s.workers, HoldingWeight)
  {
    ReachableInv(s);
  }

  function Ids(threads: seq<nat>): set<nat> {
    set t | t in threads
  }

  lemma {:induction false} FewIds(threads: seq<nat>)
    ensures |Ids(threads)| <= |threads|
  {
    if threads != [] {
      var n := |threads| - 1;
      FewIds(threads[..n]);
      assert Ids(threads) == Ids(threads[..n]) + {threads[n]};
    }
  }

  lemma SubsetSize(a: set<nat>, b: set<nat>)
    requires a <= b
    ensures |a| <= |b|
  {
    assert b == a + (b - a);
  }

  /** Live workers stand in distinct entries of the table, so there are never more than
      pthread_max_num; outstanding exit orders stay between 0 and 10. */
  lemma PopulationBound(s: Pool)
    requires Reachable(s)
    ensures LiveIds(s.workers) <= Ids(s.sh.threads) && DistinctIds(s.sh.threads)
    ensures |LiveIds(s.workers)| <= s.sh.max
    ensures 0 <= s.sh.waitExit <= DEFAULT_THREAD_NUM
  {
    ReachableInv(s);
    FewLive(s);
  }

  lemma FewLive(s: Pool)
    requires Inv(s)
    ensures LiveIds(s.workers) <= Ids(s.sh.threads) && |LiveIds(s.workers)| <= s.sh.max
  {
    var ids := Ids(s.sh.threads);
    forall t | t in LiveIds(s.workers)
      ensures t in ids
    {
      var w: nat :| w < |s.workers| && !s.workers[w].Exited? && t == w + 1;
      assert w + 1 in s.sh.threads;
    }
    hide Accounts, LifeOk, CountsOk;
    FewIds(s.sh.threads);
    SubsetSize(LiveIds(s.workers), ids);
  }

  /** No step creates more than ten workers, and only the adjuster creates any. */
  lemma GrowthPerPass(s: Pool, st: Step)
    requires Reachable(s) && Enabled(s, st)
    ensures |s.workers| <= |Apply(s, st).workers| <= |s.workers| + DEFAULT_THREAD_NUM
    ensures |Apply(s, st).workers| > |s.workers| ==>
              && st.Adjust? && s.adjuster.Deciding? && s.adjuster.queueSize > 3 + s.sh.min && s.sh.min + 1 < s.sh.max
  {
    ReachableInv(s);
    GrowthStep(s, st);
  }

  lemma GrowthStep(s: Pool, st: Step)
    requires Inv(s) && Enabled(s, st)
    ensures |s.workers| <= |Apply(s, st).workers| <= |s.workers| + DEFAULT_THREAD_NUM
    ensures |Apply(s, st).workers| > |s.workers| ==>
              && st.Adjust? && s.adjuster.Deciding? && s.adjuster.queueSize > 3 + s.sh.min && s.sh.min + 1 < s.sh.max
  {
    hide Accounts, WakeOk, FullOk, LifeOk, GrowFrom, Total;
    if st.Adjust? {
      GrowSpec(s.sh, s.sh.threads, LiveIds(s.workers), |s.workers| + 1, 0, 0);
    }
  }

  // ---------- Exit orders ----------

  /** The adjuster's copy of the alive count is backed by workers, and so is any exit order. */
  ghost predicate OrdersOk(s: Pool) {
    && (s.sh.waitExit > 0 ==> |s.workers| > s.sh.min)
    && match s.adjuster
       case CountingBusy(alive) => alive <= |s.workers|
       case Judging(busy, alive) => alive <= |s.workers| && busy <= s.sh.busy
       case _ => true
  }

  lemma OrdersStep(s: Pool, st: Step)
    requires Inv(s) && OrdersOk(s) && Enabled(s, st)
    ensures OrdersOk(Apply(s, st))
  {
    hide QueueOk, WakeOk, FullOk, LifeOk, TableOk, GrowFrom, Total;
    GrowthStep(s, st);
    if st.Work? {
      NeverRetires(s, s.workers[st.w].Woken?);
    }
    TableWidth(s);
  }

  lemma TableWidth(s: Pool)
    requires Inv(s)
    ensures |s.workers| >= s.sh.min
  {
  }

  lemma {:induction false} OrdersRun(s: Pool, steps: seq<Step>)
    requires Inv(s) && OrdersOk(s) && Legal(s, steps)
    ensures OrdersOk(Run(s, steps))
    decreases |steps|
  {
    assert Shape(s);
    hide Apply, Enabled, Inv, OrdersOk;
    if steps != [] {
      OrdersStep(s, steps[0]);
      InvStep(s, steps[0]);
      OrdersRun(Apply(s, steps[0]), steps[1..]);
    }
  }

  lemma StartOrders(min: nat, max: nat, queueMax: nat, n: nat)
    requires 1 <= queueMax && 1 <= min <= max
    ensures Inv(Start(min, max, queueMax, n)) && OrdersOk(Start(min, max, queueMax, n))
  {
    StartInv(min, max, queueMax, n);
  }

  lemma ReachableOrders(s: Pool)
    requires Reachable(s)
    ensures OrdersOk(s)
  {
    hide Legal, Run, Apply, Enabled, Inv, OrdersOk, Start, Shape;
    var min: nat, max: nat, queueMax: nat, n: nat, steps :|
      1 <= queueMax && 1 <= min <= max && LeadsTo(Start(min, max, queueMax, n), steps, s);
    StartOrders(min, max, queueMax, n);
    OrdersRun(Start(min, max, queueMax, n), steps);
  }

  /** Workers are ordered to exit only once the adjuster has added some, and only by a pass whose
      sample of the tasks ever started, doubled, is below the minimum plus one pass of creations. */
  lemma ExitOrders(s: Pool, st: Step)
    requires Reachable(s) && Enabled(s, st)
    ensures s.sh.waitExit > 0 ==> |s.workers| > s.sh.min
    ensures Apply(s, st).sh.waitExit > s.sh.waitExit ==>
              && s.adjuster.Judging? && s.adjuster.busy <= s.sh.busy
              && s.adjuster.busy * 2 < s.adjuster.alive <= s.sh.min + DEFAULT_THREAD_NUM
  {
    ReachableOrders(s);
    ReachableInv(s);
    if Apply(s, st).sh.waitExit > s.sh.waitExit {
      OrdersRise(s, st);
    }
  }

  lemma OrdersRise(s: Pool, st: Step)
    requires Inv(s) && Enabled(s, st) && Apply(s, st).sh.waitExit > s.sh.waitExit
    ensures s.adjuster.Judging? && s.adjuster.busy * 2 < s.adjuster.alive <= s.sh.min + DEFAULT_THREAD_NUM
  {
    hide Accounts, WakeOk, FullOk, LifeOk, TableOk, GrowFrom, Total;
    if st.Work? {
      NeverRetires(s, s.workers[st.w].Woken?);
    }
  }

  /** Enough tasks have started, and no pass that sampled before they had is still to decide. */
  ghost predicate BeyondOrders(s: Pool) {
    && s.sh.busy * 2 >= s.sh.min + DEFAULT_THREAD_NUM
    && (s.adjuster.Judging? ==> s.adjuster.busy * 2 >= s.sh.min + DEFAULT_THREAD_NUM)
  }

  /** The step at which the adjuster finds too many threads and orders exits. */
  predicate OrdersExits(s: Pool, st: Step) {
    st.Adjust? && s.adjuster.Judging? && WantsFewer(s.sh, s.adjuster.busy, s.adjuster.alive)
  }

  /** No step of the run orders exits. */
  ghost predicate OrdersNone(s: Pool, steps: seq<Step>)
    requires Shape(s) && Legal(s, steps)
    decreases |steps|
  {
    steps == [] || (!OrdersExits(s, steps[0]) && OrdersNone(Apply(s, steps[0]), steps[1..]))
  }

  lemma BeyondStep(s: Pool, st: Step)
    requires Inv(s) && BeyondOrders(s) && Enabled(s, st)
    ensures BeyondOrders(Apply(s, st)) && !OrdersExits(s, st) && Apply(s, st).sh.waitExit <= s.sh.waitExit
  {
    if Apply(s, st).sh.waitExit > s.sh.waitExit {
      OrdersRise(s, st);
    }
    hide QueueOk, HolderOk, WakeOk, FullOk, LifeOk, TableOk, GrowFrom, Total;
    if st.Work? {
      NeverRetires(s, s.workers[st.w].Woken?);
    }
  }

  lemma {:induction false} BeyondRun(s: Pool, steps: seq<Step>)
    requires Inv(s) && BeyondOrders(s) && Legal(s, steps)
    ensures OrdersNone(s, steps) && Run(s, steps).sh.waitExit <= s.sh.waitExit
    decreases |steps|
  {
    assert Shape(s);
    hide Apply, Enabled, Inv, BeyondOrders, OrdersExits;
    if steps != [] {
      BeyondStep(s, steps[0]);
      InvStep(s, steps[0]);
      BeyondRun(Apply(s, steps[0]), steps[1..]);
    }
  }

  /** A pool that has started at least half the minimum plus five tasks never orders another
      worker to exit, save by a pass that had sampled before. */
  lemma NoMoreOrders(s: Pool, steps: seq<Step>)
    requires Reachable(s) && BeyondOrders(s) && Legal(s, steps)
    ensures OrdersNone(s, steps) && Run(s, steps).sh.waitExit <= s.sh.waitExit
  {
    ReachableInv(s);
    BeyondRun(s, steps);
  }
}
