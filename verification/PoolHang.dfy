/** 013threadPoll/threadpool.c, lines 254-270: the calls of threadpool_destroy that can block for
    ever, because a worker starts waiting after the only broadcast it would get. */
module PoolHang {
  import opened Totals
  import opened TaskRing
  import opened PoolSections
  import opened PoolProtocol
  import opened PoolInvariants
  import opened PoolTheorems
  import opened PoolSchedules
  import opened PoolShutdown

  /** Some run that starts by setting `shutdown` now stops short of freeing the pool. */
  ghost predicate CanHang(s: Pool)
    requires Shape(s) && Enabled(s, SetShutdown)
  {
    exists t :: Leads(Apply(s, SetShutdown), t) && HaltedUnfreed(t)
  }

  ghost predicate HaltedUnfreed(t: Pool) {
    Shape(t) && Halted(t) && !t.destroyer.Freed?
  }

  /** The adjuster can come to its test of `shutdown` without taking the pool's lock. */
  predicate LeavesUnlocked(s: Pool) {
    match s.adjuster
    case Sampling => false
    case Deciding(queueSize, alive) => !WantsMore(s.sh, queueSize, alive)
    case CountingBusy(alive) => alive <= s.sh.min || 2 * |s.taken| >= alive
    case Judging(busy, alive) => !WantsFewer(s.sh, busy, alive)
    case _ => true
  }

  ghost predicate SettlingAt(s: Pool, w: nat) {
    w < |s.workers| && s.workers[w].Settling?
  }

  // ---------- Necessary ----------

  /** A worker that is between test and wait after a step was so before, and meanwhile nobody
      else had the lock. */
  lemma LateBack(s: Pool, st: Step, w: nat)
    requires Inv(s) && s.sh.shutdown && Enabled(s, st) && SettlingAt(Apply(s, st), w)
    ensures SettlingAt(s, w)
    ensures var r := Apply(s, st);
            r.sh.shutdown && r.sh.threads == s.sh.threads && r.sh.min == s.sh.min
            && (LeavesUnlocked(r) ==> LeavesUnlocked(s))
  {
    hide Accounts, TableOk, WakeOk, FullOk, Total;
    if st.Work? {
      ShutdownWork(s, st.w);
    } else if st.Adjust? {
      AdjustBack(s, st.wake, w);
    }
  }

  lemma AdjustBack(s: Pool, wake: nat, w: nat)
    requires Inv(s) && s.sh.shutdown && Enabled(s, Adjust(wake)) && SettlingAt(AdjustStep(s, wake), w)
    ensures SettlingAt(s, w)
    ensures var r := AdjustStep(s, wake);
            r.sh.shutdown && r.sh.threads == s.sh.threads && r.sh.min == s.sh.min
            && (LeavesUnlocked(r) ==> LeavesUnlocked(s))
  {
    hide Accounts, TableOk, WakeOk, FullOk, GrowFrom;
  }

  lemma {:induction false} LateBackRun(s: Pool, steps: seq<Step>, w: nat)
    requires Inv(s) && s.sh.shutdown && Legal(s, steps) && SettlingAt(Run(s, steps), w)
    ensures SettlingAt(s, w)
    ensures var t := Run(s, steps);
            Inv(t) && t.sh.threads == s.sh.threads && t.sh.min == s.sh.min && (LeavesUnlocked(t) ==> LeavesUnlocked(s))
    decreases |steps|
  {
    assert Shape(s);
    hide Apply, Enabled, Inv, SettlingAt, LeavesUnlocked;
    if steps != [] {
      var next := Apply(s, steps[0]);
      InvStep(s, steps[0]);
      ShutdownStep(s, steps[0]);
      LateBackRun(next, steps[1..], w);
      LateBack(s, steps[0], w);
    }
  }

  lemma BroadcastStep(s: Pool, st: Step)
    requires Inv(s) && s.sh.shutdown && !PastBroadcast(s) && Enabled(s, st) && PastBroadcast(Apply(s, st))
    ensures st == Broadcast
  {
  }

  /** A run past the broadcast made it at some step k. */
  lemma {:induction false} PassesBroadcast(s: Pool, steps: seq<Step>) returns (k: nat)
    requires Inv(s) && s.sh.shutdown && !PastBroadcast(s) && Legal(s, steps) && PastBroadcast(Run(s, steps))
    ensures k < |steps| && steps[k] == Broadcast && Legal(s, steps[..k])
    ensures var b := Run(s, steps[..k]);
            Enabled(b, Broadcast) && LeadsTo(Apply(b, Broadcast), steps[k + 1..], Run(s, steps))
    decreases |steps|
  {
    assert Shape(s);
    hide Apply, Enabled, Inv, PastBroadcast;
    var st := steps[0];
    InvStep(s, st);
    ShutdownStep(s, st);
    var next := Apply(s, st);
    if PastBroadcast(next) {
      BroadcastStep(s, st);
      k := 0;
      assert steps[..0] == [];
    } else {
      var j := PassesBroadcast(next, steps[1..]);
      k := j + 1;
      assert steps[..k][0] == st && steps[..k][1..] == steps[1..][..j];
      assert steps[1..][j + 1..] == steps[k + 1..];
    }
  }

  /** Before shutdown nobody has been joined yet. */
  lemma ShutNow(s: Pool)
    requires Inv(s) && Enabled(s, SetShutdown)
    ensures var r := Apply(s, SetShutdown);
            && Inv(r) && r.sh.shutdown && !PastBroadcast(r) && r.destroyer.JoiningAdjuster?
            && r.workers == s.workers && r.sh.threads == s.sh.threads && r.sh.min == s.sh.min && r.taken == s.taken
            && (LeavesUnlocked(r) <==> LeavesUnlocked(s))
  {
    DestroyKept(s, SetShutdown);
  }

  lemma GoneAtBroadcast(s: Pool)
    requires Inv(s) && Enabled(s, Broadcast)
    ensures LeavesUnlocked(s)
  {
  }

  lemma StoppedPast(s: Pool)
    requires s.destroyer.Freed? || JoinsSleeper(s)
    ensures PastBroadcast(s)
  {
  }

  /** A whole destroy that can go no further broadcast once, and it freed the pool if and only if
      every worker it was to join that was late for that broadcast woke up unsignalled. Those
      workers made their test before shutdown was set. */
  lemma DestroyEndsIff(s: Pool, steps: seq<Step>) returns (k: nat)
    requires Reachable(s) && Enabled(s, SetShutdown)
    requires Legal(Apply(s, SetShutdown), steps) && Halted(Run(Apply(s, SetShutdown), steps))
    ensures k < |steps| && steps[k] == Broadcast && Legal(Apply(s, SetShutdown), steps[..k])
    ensures var b := Run(Apply(s, SetShutdown), steps[..k]);
            && (Run(Apply(s, SetShutdown), steps).destroyer.Freed? <==>
                  forall w :: Late(b, w) ==> SpuriousEmpty(w) in steps[k + 1..])
            && (forall w :: Late(b, w) ==> Late(s, w) && LeavesUnlocked(s))
  {
    hide Inv, Apply, Enabled, Legal, Run, Halted, PastBroadcast, JoinsSleeper, LeavesUnlocked;
    ReachableInv(s);
    ShutNow(s);
    var r := Apply(s, SetShutdown);
    ReachableStep(s, SetShutdown);
    ShutdownStops(r, steps);
    StoppedPast(Run(r, steps));
    k := PassesBroadcast(r, steps);
    var b := Run(r, steps[..k]);
    assert LeadsTo(r, steps[..k], b);
    assert Leads(r, b);
    ReachableThen(r, b);
    FreedIff(b, steps[k + 1..]);
    ReachableInv(b);
    GoneAtBroadcast(b);
    forall w | Late(b, w)
      ensures Late(s, w) && LeavesUnlocked(s)
    {
      LateBackRun(r, steps[..k], w);
    }
  }

  // ---------- Sufficient ----------

  /** The adjuster on its way out, worker w still short of its wait. */
  ghost predicate Leaving(s: Pool, w: nat) {
    s.sh.shutdown && s.destroyer.JoiningAdjuster? && Late(s, w) && LeavesUnlocked(s)
  }

  /** A step towards the adjuster's end that needs no lock. */
  lemma UnlockedStep(s: Pool, w: nat) returns (st: Step)
    requires Inv(s) && Leaving(s, w) && !s.adjuster.Gone?
    ensures Enabled(s, st) && Leaving(Apply(s, st), w)
  {
    if s.adjuster.CountingBusy? && s.adjuster.alive > s.sh.min && s.sh.busy * 2 < s.adjuster.alive {
      var v := SomeHolding(s);
      st := Commence(v);
      UnlockedCommence(s, w, v);
    } else {
      var wake: nat := if AnyAsleep(s.workers) then Sleeper(s.workers) else 0;
      st := Adjust(wake);
      UnlockedAdjust(s, w, wake);
    }
  }

  lemma SomeHolding(s: Pool) returns (v: nat)
    requires Inv(s) && s.sh.busy < |s.taken|
    ensures v < |s.workers| && s.workers[v].Holding?
  {
    SomePositive(s.workers, HoldingWeight);
    v :| v < |s.workers| && HoldingWeight(s.workers[v]) > 0;
  }

  lemma UnlockedCommence(s: Pool, w: nat, v: nat)
    requires Shape(s) && Leaving(s, w) && v < |s.workers| && s.workers[v].Holding?
    ensures Enabled(s, Commence(v)) && Leaving(Apply(s, Commence(v)), w)
  {
  }

  lemma UnlockedAdjust(s: Pool, w: nat, wake: nat)
    requires Inv(s) && Leaving(s, w) && !s.adjuster.Gone? && SignalOk(s.workers, wake)
    requires s.adjuster.CountingBusy? ==> s.adjuster.alive <= s.sh.min || s.sh.busy * 2 >= s.adjuster.alive
    ensures Enabled(s, Adjust(wake)) && Leaving(AdjustStep(s, wake), w)
  {
    hide Accounts, TableOk, WakeOk, FullOk, Total;
  }

  lemma {:induction false} AdjusterGoes(s: Pool, t: Pool, w: nat) returns (u: Pool)
    requires Leads(s, t) && Inv(t) && Leaving(t, w)
    ensures Leads(s, u) && Inv(u) && Leaving(u, w) && u.adjuster.Gone?
    decreases ShutdownMeasure(t)
  {
    if t.adjuster.Gone? {
      return t;
    }
    var st := UnlockedStep(t, w);
    ShutdownStep(t, st);
    InvStep(t, st);
    Then(s, t, st);
    hide Inv, Leads, Enabled, Apply, ShutdownMeasure;
    u := AdjusterGoes(s, Apply(t, st), w);
  }

  /** Any run can be continued, without unsignalled wakeups, until nobody can move. */
  lemma {:induction false} ToHalt(s: Pool) returns (steps: seq<Step>)
    requires Inv(s) && s.sh.shutdown
    ensures Legal(s, steps) && Halted(Run(s, steps)) && forall st :: st in steps ==> !Unsignalled(st)
    decreases ShutdownMeasure(s)
  {
    if Halted(s) {
      return [];
    }
    var st :| !Unsignalled(st) && Enabled(s, st);
    ShutdownStep(s, st);
    InvStep(s, st);
    hide Inv, Enabled, Apply, ShutdownMeasure, Halted;
    var rest := ToHalt(Apply(s, st));
    steps := [st] + rest;
    assert steps[1..] == rest;
  }

  lemma JoinsNext(s: Pool, w: nat)
    requires Inv(s) && Leaving(s, w) && s.adjuster.Gone?
    ensures Enabled(s, JoinAdjuster)
    ensures var b := Apply(s, JoinAdjuster);
            Inv(b) && b.sh.shutdown && Enabled(b, Broadcast) && Late(b, w)
  {
    DestroyKept(s, JoinAdjuster);
    hide Inv;
  }

  lemma Hangs(s: Pool, w: nat)
    requires Reachable(s) && Enabled(s, SetShutdown) && Late(s, w) && LeavesUnlocked(s)
    ensures CanHang(s)
  {
    ReachableInv(s);
    ShutNow(s);
    hide Inv, Apply, Enabled, Legal, Run, Halted, LeavesUnlocked, Leads, Reachable;
    var r := Apply(s, SetShutdown);
    ReachableStep(s, SetShutdown);
    LeadsNowhere(r);
    assert Leaving(r, w);
    var u := AdjusterGoes(r, r, w);
    JoinsNext(u, w);
    Then(r, u, JoinAdjuster);
    var b := Apply(u, JoinAdjuster);
    ReachableThen(r, b);
    Then(r, b, Broadcast);
    InvStep(b, Broadcast);
    ShutdownStep(b, Broadcast);
    var c := Apply(b, Broadcast);
    var steps := ToHalt(c);
    FreedIff(b, steps);
    var t := Run(c, steps);
    LeadsBy(c, steps);
    LeadsOn(r, c, t);
    assert SpuriousEmpty(w) !in steps;
    assert HaltedUnfreed(t);
  }

  lemma LeadsBy(s: Pool, steps: seq<Step>)
    requires Shape(s) && Legal(s, steps)
    ensures Leads(s, Run(s, steps))
  {
    assert LeadsTo(s, steps, Run(s, steps));
  }

  // ---------- The results ----------

  /** A threadpool_destroy that sets `shutdown` now can block for ever if and only if one of the
      workers it is to join is between its test of `shutdown` and its wait, and the adjuster can
      leave before that worker lets go of the lock. */
  lemma CanHangIff(s: Pool)
    requires Reachable(s) && Enabled(s, SetShutdown)
    ensures CanHang(s) <==> (exists w :: Late(s, w)) && LeavesUnlocked(s)
  {
    if CanHang(s) {
      var r := Apply(s, SetShutdown);
      var t :| Leads(r, t) && HaltedUnfreed(t);
      var steps :| LeadsTo(r, steps, t);
      var k := DestroyEndsIff(s, steps);
    }
    if (exists w :: Late(s, w)) && LeavesUnlocked(s) {
      var w :| Late(s, w);
      Hangs(s, w);
    }
  }

  /** Every pool, of any size and with any number of submitters, can hang when destroyed. */
  lemma EveryPoolCanHang(min: nat, max: nat, queueMax: nat, n: nat) returns (s: Pool)
    requires 1 <= queueMax && 1 <= min <= max
    ensures Leads(Start(min, max, queueMax, n), s) && Enabled(s, SetShutdown) && CanHang(s)
  {
    var s0 := Start(min, max, queueMax, n);
    LeadsNowhere(s0);
    assert LeadsTo(s0, [], s0) && Reachable(s0);
    Then(s0, s0, Work(0));
    s := Apply(s0, Work(0));
    ReachableThen(s0, s);
    assert s.sh.threads[0] == 1 && s.workers[0].Settling?;
    assert Late(s, 0);
    CanHangIff(s);
  }

  /** What has hung can still end, but only by an unsignalled wakeup. */
  lemma {:induction false} WakesUpAtLast(s: Pool) returns (t: Pool)
    requires Inv(s) && s.sh.shutdown
    ensures Leads(s, t) && t.destroyer.Freed?
    decreases ShutdownMeasure(s)
  {
    if s.destroyer.Freed? {
      LeadsNowhere(s);
      return s;
    }
    var st: Step;
    if JoinsSleeper(s) {
      st := SpuriousEmpty(s.sh.threads[s.destroyer.i] - 1);
    } else {
      st := SomebodyMoves(s);
    }
    ShutdownStep(s, st);
    InvStep(s, st);
    hide Inv, Enabled, Apply, ShutdownMeasure;
    var r := Apply(s, st);
    t := WakesUpAtLast(r);
    LeadsNowhere(s);
    Then(s, s, st);
    LeadsOn(s, r, t);
  }

  /** Were `shutdown` set under the lock, every run would go on to free the pool, taking no
      further task. */
  lemma LockedShutdownEnds(s: Pool, steps: seq<Step>)
    requires Reachable(s) && Enabled(s, SetShutdown) && LockFree(s.workers)
    requires Legal(Apply(s, SetShutdown), steps)
    ensures |steps| <= 4 * |s.workers| + s.sh.min + 30
    ensures var t := Run(Apply(s, SetShutdown), steps);
            t.taken == s.taken && (Halted(t) ==> t.destroyer.Freed?)
  {
    ReachableInv(s);
    assert Shape(s);
    hide Inv, Apply, Enabled, Legal, Run, Halted, LeavesUnlocked;
    hide Leads, Reachable, ShutdownMeasure, LockFree, Late, Total;
    LockedTakes(s, steps);
    NobodyLate(s);
    CanHangIff(s);
    LeadsBy(Apply(s, SetShutdown), steps);
    assert !HaltedUnfreed(Run(Apply(s, SetShutdown), steps));
  }

  lemma LockedTakes(s: Pool, steps: seq<Step>)
    requires Reachable(s) && Enabled(s, SetShutdown) && LockFree(s.workers)
    requires Legal(Apply(s, SetShutdown), steps)
    ensures |steps| <= 4 * |s.workers| + s.sh.min + 30 && Run(Apply(s, SetShutdown), steps).taken == s.taken
  {
    ReachableInv(s);
    ShutNow(s);
    hide Inv, Apply, Enabled, Legal, Run, Halted, LeavesUnlocked, Reachable, ShutdownMeasure, Total;
    NoPickers(s.workers);
    ReachableStep(s, SetShutdown);
    ShutdownStops(Apply(s, SetShutdown), steps);
  }

  lemma NoPickers(workers: seq<Worker>)
    requires LockFree(workers)
    ensures Total(workers, PickingWeight) == 0
  {
    TotalBounded(workers, PickingWeight, 0);
  }

  lemma NobodyLate(s: Pool)
    requires LockFree(s.workers)
    ensures !exists w :: Late(s, w)
  {
  }
}
