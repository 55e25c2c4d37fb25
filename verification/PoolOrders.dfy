/** 013threadPoll/threadpool.c, lines 218-247: what the adjuster's pass does about too few and too
    many threads, and which pools ever order a thread to exit. */
module PoolOrders {
  import opened TaskRing
  import opened PoolSections
  import opened PoolProtocol
  import opened PoolInvariants
  import opened PoolTheorems
  import opened PoolTasks
  import opened PoolSchedules
  import opened PoolDestroy

  /** After its decision the adjuster's copy of the alive count is the minimum and one for each
      worker it has created, while the pool's own count stays. */
  lemma CopyCountsCreated(s: Pool, wake: nat)
    requires Reachable(s) && Enabled(s, Adjust(wake)) && s.adjuster.Deciding?
    ensures var r := Apply(s, Adjust(wake));
            && r.adjuster == CountingBusy(s.sh.min + |r.workers| - |s.workers|)
            && r.sh.alive == s.sh.min
  {
    ReachableInv(s);
    hide QueueOk, HolderOk, WakeOk, FullOk, LifeOk, TableOk, GrowFrom;
  }

  /** What the adjuster samples: the tasks added and not taken, the unchanging alive count, and
      the tasks ever started. */
  lemma Samples(s: Pool, wake: nat)
    requires Reachable(s) && Enabled(s, Adjust(wake))
    ensures s.adjuster.Sampling? ==>
              var r := Apply(s, Adjust(wake));
              && r == s.(adjuster := r.adjuster) && r.adjuster.Deciding?
              && r.adjuster.queueSize + |s.taken| == |s.added| && r.adjuster.alive == s.sh.min
    ensures s.adjuster.CountingBusy? ==>
              Apply(s, Adjust(wake)) == s.(adjuster := Judging(|s.started|, s.adjuster.alive))
  {
    ReachableInv(s);
    EachTaskRunOnce(s);
    hide HolderOk, WakeOk, FullOk, LifeOk, TableOk;
  }

  /** An exit order is used up by each worker that comes out of its wait, and by nothing else; and
      only judging too many threads gives new ones. */
  lemma OrdersLedger(s: Pool, st: Step)
    requires Reachable(s) && Enabled(s, st)
    ensures var orders, after := s.sh.waitExit, Apply(s, st).sh.waitExit;
            if st.Work? && s.workers[st.w].Woken? && orders > 0 then after == orders - 1
            else if OrdersExits(s, st) then after == 10
            else after == orders
  {
    ReachableInv(s);
    hide QueueOk, HolderOk, WakeOk, FullOk, LifeOk, TableOk, GrowFrom;
    if st.Work? {
      NeverRetires(s, s.workers[st.w].Woken?);
    }
  }

  /** Judging too many threads by its two samples orders ten exits, and nothing else does. */
  lemma OrdersWhen(s: Pool, wake: nat)
    requires Shape(s) && Enabled(s, Adjust(wake)) && s.adjuster.Judging?
    ensures var r := Apply(s, Adjust(wake));
            var busy, alive := s.adjuster.busy, s.adjuster.alive;
            && (busy * 2 < alive && alive > s.sh.min ==>
                  r == s.(sh := s.sh.(waitExit := 10), adjuster := Signalling(0)))
            && (!(busy * 2 < alive && alive > s.sh.min) ==> r == s.(adjuster := Resting))
  {
  }

  /** Each of the signals that follow wakes one sleeping worker, if there is any. */
  lemma SendsSignal(s: Pool, wake: nat)
    requires Shape(s) && Enabled(s, Adjust(wake)) && s.adjuster.Signalling?
    ensures var r := Apply(s, Adjust(wake));
            && r.sh == s.sh
            && (AnyAsleep(s.workers) ==>
                  wake < |s.workers| && s.workers[wake].Asleep? && r.workers == s.workers[wake := Woken])
            && (!AnyAsleep(s.workers) ==> r.workers == s.workers)
  {
  }

  /** The adjuster's own steps in a run. */
  function Moves(steps: seq<Step>): nat {
    if steps == [] then 0 else (if steps[0].Adjust? then 1 else 0) + Moves(steps[1..])
  }

  lemma SignalsStep(s: Pool, st: Step, k: nat)
    requires Shape(s) && Enabled(s, st) && k < 10 && s.adjuster == Signalling(k)
    ensures Apply(s, st).adjuster ==
            if !st.Adjust? then Signalling(k) else if k < 9 then Signalling(k + 1) else Resting
  {
    hide GrowFrom;
  }

  lemma {:induction false} StillSignalling(s: Pool, steps: seq<Step>, k: nat)
    requires Shape(s) && Legal(s, steps) && k + Moves(steps) < 10 && s.adjuster == Signalling(k)
    ensures Run(s, steps).adjuster == Signalling(k + Moves(steps))
    decreases |steps|
  {
    hide Apply, Enabled;
    if steps != [] {
      SignalsStep(s, steps[0], k);
      StillSignalling(Apply(s, steps[0]), steps[1..], k + if steps[0].Adjust? then 1 else 0);
    }
  }

  /** Whatever else happens meanwhile, the adjuster rests after its tenth signal and not before. */
  lemma TenSignals(s: Pool, steps: seq<Step>, wake: nat)
    requires Shape(s) && Legal(s, steps) && s.adjuster == Signalling(0) && Moves(steps) <= 9
    requires Enabled(Run(s, steps), Adjust(wake))
    ensures Run(s, steps).adjuster.Signalling?
    ensures Apply(Run(s, steps), Adjust(wake)).adjuster.Resting? <==> Moves(steps) == 9
  {
    hide Apply, Enabled;
    StillSignalling(s, steps, 0);
    SignalsStep(Run(s, steps), Adjust(wake), Moves(steps));
  }

  // ---------- Which pools ever order an exit ----------

  /** Some run, with some number of submitters, orders exits. */
  ghost predicate CanOrder(min: nat, max: nat, queueMax: nat) {
    exists n: nat, steps, t :: LeadsTo(Start(min, max, queueMax, n), steps, t) && t.sh.waitExit == 10
  }

  /** A pass over a full queue before any task has started creates workers and orders exits. */
  lemma OrdersSome(min: nat, max: nat, queueMax: nat) returns (u: Pool)
    requires 1 <= min && min + 1 < max && min + 3 < queueMax
    ensures Leads(Start(min, max, queueMax, 1), u) && u.sh.waitExit == 10
  {
    hide Leads, Reachable, GrowFrom;
    var s := Start(min, max, queueMax, 1);
    LeadsNowhere(s);
    var t := Fill(s, s, min + 4);
    assert AllAtTop(t.workers);
    var v := GrowsOne(s, t);
    AdjustThen(s, v);
    var w := AdjustStep(v, 0);
    AdjustThen(s, w);
    u := AdjustStep(w, 0);
  }

  lemma NeverOrders(min: nat, max: nat, queueMax: nat, n: nat, steps: seq<Step>)
    requires 1 <= queueMax && 1 <= min <= max && (queueMax <= min + 3 || max <= min + 1)
    requires Legal(Start(min, max, queueMax, n), steps)
    ensures Run(Start(min, max, queueMax, n), steps).sh.waitExit == 0
  {
    var s := Start(min, max, queueMax, n);
    var t := Run(s, steps);
    StartInv(min, max, queueMax, n);
    NoGrowthRun(s, steps);
    InvRun(s, steps);
    assert LeadsTo(s, steps, t) && Reachable(t);
    ReachableOrders(t);
    hide QueueOk, HolderOk, WakeOk, FullOk, LifeOk, TableOk;
  }

  /** Exits are ordered in some run exactly of the pools whose adjuster can ever create a worker. */
  lemma CanOrderIff(min: nat, max: nat, queueMax: nat)
    requires 1 <= queueMax && 1 <= min <= max
    ensures CanOrder(min, max, queueMax) <==> queueMax > min + 3 && max > min + 1
  {
    if queueMax > min + 3 && max > min + 1 {
      var u := OrdersSome(min, max, queueMax);
      var steps :| LeadsTo(Start(min, max, queueMax, 1), steps, u);
    } else if CanOrder(min, max, queueMax) {
      var n: nat, steps, t :| LeadsTo(Start(min, max, queueMax, n), steps, t) && t.sh.waitExit == 10;
      NeverOrders(min, max, queueMax, n, steps);
      assert false;
    }
  }
}
