/** 013threadPoll/threadpool.c, lines 254-270: threadpool_destroy joins only the first
    pthread_min_num entries of the thread table. When is that every worker? */
module PoolDestroy {
  import opened TaskRing
  import opened PoolSections
  import opened PoolProtocol
  import opened PoolInvariants
  import opened PoolTheorems
  import opened PoolSchedules
  import opened PoolShutdown

  ghost predicate AllExited(s: Pool) {
    forall w :: 0 <= w < |s.workers| ==> s.workers[w].Exited?
  }

  /** In every run, with any number of submitters, the pool is freed only after every worker left. */
  ghost predicate FreeIsSafe(min: nat, max: nat, queueMax: nat) {
    forall n: nat, steps, t ::
      LeadsTo(Start(min, max, queueMax, n), steps, t) && t.destroyer.Freed? ==> AllExited(t)
  }

  // ---------- Sufficient: the adjuster never finds a queue long enough ----------

  predicate NeverGrows(s: Pool) {
    |s.sh.ring.slots| <= s.sh.min + 3 || s.sh.max <= s.sh.min + 1
  }

  lemma SizesFixed(s: Pool, st: Step)
    requires Shape(s) && Enabled(s, st)
    ensures var r := Apply(s, st);
            r.sh.min == s.sh.min && r.sh.max == s.sh.max && |r.sh.ring.slots| == |s.sh.ring.slots|
  {
  }

  lemma NoGrowth(s: Pool, st: Step)
    requires Inv(s) && NeverGrows(s) && Enabled(s, st)
    ensures |Apply(s, st).workers| == |s.workers|
  {
    hide Accounts, TableOk, LifeOk, GrowFrom;
  }

  lemma {:induction false} NoGrowthRun(s: Pool, steps: seq<Step>)
    requires Inv(s) && NeverGrows(s) && Legal(s, steps)
    ensures |Run(s, steps).workers| == |s.workers| && Run(s, steps).sh.min == s.sh.min
    decreases |steps|
  {
    if steps != [] {
      SizesFixed(s, steps[0]);
      NoGrowth(s, steps[0]);
      InvStep(s, steps[0]);
      hide Apply, Enabled, Inv;
      NoGrowthRun(Apply(s, steps[0]), steps[1..]);
    }
  }

  /** On a run in which the adjuster created nobody, the pool is freed only after all workers left. */
  lemma FreedAfterAll(s: Pool)
    requires Reachable(s) && s.destroyer.Freed? && |s.workers| == s.sh.min
    ensures AllExited(s)
  {
    ReachableInv(s);
    AllLeft(s);
  }

  lemma AllLeft(s: Pool)
    requires Inv(s) && s.destroyer.Freed? && |s.workers| == s.sh.min
    ensures AllExited(s)
  {
    forall w | 0 <= w < |s.workers|
      ensures s.workers[w].Exited?
    {
      assert s.sh.threads[w] == w + 1;
    }
  }

  // ---------- Necessary: otherwise a run frees the pool under a live worker ----------

  ghost predicate AllAtTop(workers: seq<Worker>) {
    forall w :: 0 <= w < |workers| ==> workers[w] == AtTop
  }

  lemma AdjustThen(s: Pool, t: Pool)
    requires Leads(s, t) && Shape(t) && AllAtTop(t.workers) && t.adjuster != Gone && !t.destroyer.Freed?
    ensures Leads(s, AdjustStep(t, 0)) && Shape(AdjustStep(t, 0))
  {
    assert !AnyAsleep(t.workers);
    Then(s, t, Adjust(0));
  }

  lemma AsCreated(threads: seq<nat>, min: nat)
    requires forall i :: 0 <= i < |threads| ==> threads[i] == if i < min then i + 1 else 0
    ensures DistinctIds(threads) && IdsBelow(threads, min + 1 + 0)
  {
  }

  lemma BelowAt(threads: seq<nat>, bound: nat, i: nat)
    requires IdsBelow(threads, bound) && i < |threads|
    ensures threads[i] < bound
  {
  }

  /** The adjuster's pass over a full queue creates a worker. */
  lemma GrowsOne(s: Pool, t: Pool) returns (u: Pool)
    requires Leads(s, t) && Shape(t) && AllAtTop(t.workers) && t.destroyer.NotCalled?
    requires t.adjuster == Checking && !t.sh.shutdown
    requires t.sh.alive == t.sh.min == |t.workers| && t.sh.min + 1 < t.sh.max && t.sh.ring.size == t.sh.min + 4
    requires forall i :: 0 <= i < t.sh.max ==> t.sh.threads[i] == if i < t.sh.min then i + 1 else 0
    ensures Leads(s, u) && Shape(u) && AllAtTop(u.workers) && |u.workers| > t.sh.min
    ensures u == t.(sh := t.sh.(threads := u.sh.threads), workers := u.workers, adjuster := u.adjuster)
    ensures u.adjuster == CountingBusy(t.sh.min + |u.workers| - |t.workers|)
    ensures forall i :: 0 <= i < t.sh.min ==> u.sh.threads[i] == i + 1
  {
    hide GrowFrom, Enabled, DistinctIds, IdsBelow, Leads;
    AdjustThen(s, t);
    var t1 := t.(adjuster := Sampling);
    AdjustThen(s, t1);
    var t2 := t.(adjuster := Deciding(t.sh.min + 4, t.sh.min));
    AdjustThen(s, t2);
    u := GrowStep(t2, t.sh.min);
    var live := LiveIds(t2.workers);
    var nextId := t.sh.min + 1;
    AsCreated(t2.sh.threads, t.sh.min);
    GrowSpec(t2.sh, t2.sh.threads, live, nextId, 0, 0);
    GrowPlaces(t2.sh, t2.sh.threads, live, nextId, 0, 0, 0, t.sh.min);
    var (grown, m) := GrowFrom(t2.sh, t2.sh.threads, live, nextId, 0, 0);
    BelowAt(grown, nextId + m, t.sh.min);
    forall i: nat | i < t.sh.min
      ensures u.sh.threads[i] == i + 1
    {
      assert !t2.workers[i].Exited?;
      assert t2.sh.threads[i] in live;
    }
  }

  /** Once shutdown is set, an adjuster past its decision leaves without touching any worker. */
  lemma {:induction false} AdjusterLeaves(s: Pool, t: Pool) returns (u: Pool)
    requires Leads(s, t) && Shape(t) && AllAtTop(t.workers) && t.sh.shutdown && t.destroyer.JoiningAdjuster?
    requires !t.adjuster.Sampling? && !t.adjuster.Deciding?
    ensures Leads(s, u) && Shape(u)
    ensures u == t.(sh := t.sh.(waitExit := u.sh.waitExit), adjuster := Gone)
    decreases AdjusterLeft(t.adjuster)
  {
    if t.adjuster.Gone? {
      return t;
    }
    AdjustThen(s, t);
    u := AdjusterLeaves(s, AdjustStep(t, 0));
  }

  /** The first `min` workers take the lock, see shutdown and leave; the others have not run yet. */
  lemma {:induction false} FirstLeave(s: Pool, t: Pool, k: nat) returns (u: Pool)
    requires Leads(s, t) && Shape(t) && t.sh.shutdown && !t.destroyer.Freed?
    requires k <= t.sh.min < |t.workers|
    requires forall w :: 0 <= w < |t.workers| ==> t.workers[w] == if w < k then Exited else AtTop
    ensures Leads(s, u) && Shape(u) && u == t.(workers := u.workers) && |u.workers| == |t.workers|
    ensures forall w :: 0 <= w < |u.workers| ==> u.workers[w] == if w < t.sh.min then Exited else AtTop
    decreases t.sh.min - k
  {
    if k == t.sh.min {
      return t;
    }
    Then(s, t, Work(k));
    u := FirstLeave(s, t.(workers := t.workers[k := Exited]), k + 1);
  }

  lemma {:induction false} JoinFirst(s: Pool, t: Pool) returns (u: Pool)
    requires Leads(s, t) && Shape(t) && t.destroyer.JoiningWorkers? && t.destroyer.i <= t.sh.min <= t.sh.max
    requires forall i :: 0 <= i < t.sh.min ==> ExitedEntry(t.sh.threads, t.workers, i)
    ensures Leads(s, u) && u == t.(destroyer := Freed)
    decreases t.sh.min - t.destroyer.i
  {
    if t.destroyer.i == t.sh.min {
      Then(s, t, Free);
      return t.(destroyer := Freed);
    }
    Then(s, t, JoinWorker);
    u := JoinFirst(s, t.(destroyer := JoiningWorkers(t.destroyer.i + 1)));
  }

  /** threadpool_destroy as far as its joins of the workers, none of which has run. */
  lemma UpToJoins(s: Pool, t: Pool) returns (u: Pool)
    requires Leads(s, t) && Shape(t) && AllAtTop(t.workers) && t.submitters == [Idle]
    requires t.destroyer.NotCalled? && t.adjuster.CountingBusy?
    ensures Leads(s, u) && Shape(u) && u.sh.shutdown && u.destroyer == JoiningWorkers(0)
    ensures u.workers == t.workers && u.sh == t.sh.(shutdown := true, waitExit := u.sh.waitExit)
  {
    hide Leads;
    Then(s, t, SetShutdown);
    u := AdjusterLeaves(s, t.(sh := t.sh.(shutdown := true), destroyer := JoiningAdjuster));
    Then(s, u, JoinAdjuster);
    u := u.(destroyer := Broadcasting);
    Then(s, u, Broadcast);
    assert WakeAll(u.workers) == u.workers;
    u := u.(destroyer := JoiningWorkers(0));
  }

  /** From a grown pool whose workers have not run: destroy frees it under the extra ones. */
  lemma DestroyUnderLive(s: Pool, t: Pool) returns (u: Pool)
    requires Leads(s, t) && Shape(t) && AllAtTop(t.workers) && t.submitters == [Idle]
    requires t.destroyer.NotCalled? && t.adjuster.CountingBusy?
    requires t.sh.min < |t.workers| && t.sh.min <= t.sh.max
    requires forall i :: 0 <= i < t.sh.min ==> t.sh.threads[i] == i + 1
    ensures Leads(s, u) && u.destroyer.Freed? && !AllExited(u)
  {
    hide Leads;
    u := UpToJoins(s, t);
    u := FirstLeave(s, u, 0);
    u := JoinFirst(s, u);
    assert u.workers[t.sh.min] == AtTop;
  }

  /** A run of any pool whose queue and maximum leave the adjuster room. */
  lemma FreeUnderLive(min: nat, max: nat, queueMax: nat) returns (u: Pool)
    requires 1 <= min && min + 1 < max && min + 3 < queueMax
    ensures Leads(Start(min, max, queueMax, 1), u) && u.destroyer.Freed? && !AllExited(u)
  {
    var s := Start(min, max, queueMax, 1);
    LeadsNowhere(s);
    var t := Fill(s, s, min + 4);
    assert AllAtTop(t.workers);
    var v := GrowsOne(s, t);
    u := DestroyUnderLive(s, v);
  }

  /** threadpool_destroy frees the pool only after every worker has left, in all runs, exactly
      when the queue is too short or the maximum too close to the minimum for the adjuster
      ever to add a worker. */
  lemma FreeIsSafeIff(min: nat, max: nat, queueMax: nat)
    requires 1 <= queueMax && 1 <= min <= max
    ensures FreeIsSafe(min, max, queueMax) <==> queueMax <= min + 3 || max <= min + 1
  {
    if queueMax <= min + 3 || max <= min + 1 {
      forall n: nat, steps, t | LeadsTo(Start(min, max, queueMax, n), steps, t) && t.destroyer.Freed?
        ensures AllExited(t)
      {
        SafeRun(min, max, queueMax, n, steps);
      }
    } else {
      var u := FreeUnderLive(min, max, queueMax);
      var steps :| LeadsTo(Start(min, max, queueMax, 1), steps, u);
    }
  }

  lemma SafeRun(min: nat, max: nat, queueMax: nat, n: nat, steps: seq<Step>)
    requires 1 <= queueMax && 1 <= min <= max && (queueMax <= min + 3 || max <= min + 1)
    requires Legal(Start(min, max, queueMax, n), steps)
    requires Run(Start(min, max, queueMax, n), steps).destroyer.Freed?
    ensures AllExited(Run(Start(min, max, queueMax, n), steps))
  {
    var s := Start(min, max, queueMax, n);
    StartInv(min, max, queueMax, n);
    NoGrowthRun(s, steps);
    InvRun(s, steps);
    AllLeft(Run(s, steps));
  }
}
