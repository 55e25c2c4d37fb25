/** 013threadPoll/threadpool.c, lines 254-270: how threadpool_destroy ends. `shutdown` is written
    and the broadcast made without the lock, so a worker that tested `shutdown` before can start
    waiting after. */
module PoolShutdown {
  import opened Totals
  import opened TaskRing
  import opened PoolSections
  import opened PoolProtocol
  import opened PoolInvariants
  import opened PoolTheorems

  // ---------- Every step brings the end nearer ----------

  function WorkerLeft(w: Worker): nat {
    match w
    case AtTop => 1
    case Woken => 1
    case Asleep => 2
    case Settling => 3
    case Running(_) => 2
    case Holding(_) => 3
    case Picking => 4
    case Exited => 0
  }

  /** A pass still to decide may create ten workers. */
  function AdjusterLeft(a: Adjuster): nat {
    match a
    case Gone => 0
    case Checking => 1
    case Resting => 2
    case Signalling(sent) => if sent < DEFAULT_THREAD_NUM then DEFAULT_THREAD_NUM + 3 - sent else 3
    case Judging(_, _) => 14
    case CountingBusy(_) => 15
    case Deciding(_, _) => 26
    case Sampling => 27
  }

  function DestroyerLeft(d: Destroyer, min: nat): nat {
    match d
    case NotCalled => min + 4
    case JoiningAdjuster => min + 3
    case Broadcasting => min + 2
    case JoiningWorkers(i) => if i <= min then min - i + 1 else 1
    case Freed => 0
  }

  function ShutdownMeasure(s: Pool): nat {
    Total(s.workers, WorkerLeft) + AdjusterLeft(s.adjuster) + DestroyerLeft(s.destroyer, s.sh.min)
  }

  /** Workers that hold the lock to take a task. */
  function Pickers(s: Pool): nat {
    Total(s.workers, PickingWeight)
  }

  lemma SignalLeft(workers: seq<Worker>, wake: nat)
    ensures Total(Signal(workers, wake), WorkerLeft) <= Total(workers, WorkerLeft)
    ensures Total(Signal(workers, wake), PickingWeight) == Total(workers, PickingWeight)
  {
    if wake < |workers| && workers[wake].Asleep? {
      TotalUpdate(workers, wake, Woken, WorkerLeft);
      TotalUpdate(workers, wake, Woken, PickingWeight);
    }
  }

  lemma GrowLeft(s: Pool, alive: int)
    requires Inv(s)
    ensures Total(GrowStep(s, alive).workers, WorkerLeft) <= Total(s.workers, WorkerLeft) + DEFAULT_THREAD_NUM
    ensures Pickers(GrowStep(s, alive)) == Pickers(s)
  {
    assert Shape(s);
    hide Inv, GrowFrom, Total;
    GrowFew(s);
    var n := GrowFrom(s.sh, s.sh.threads, LiveIds(s.workers), |s.workers| + 1, 0, 0).1;
    var extra: seq<Worker> := seq(n, _ => AtTop);
    TotalAppend(s.workers, extra, WorkerLeft);
    TotalAppend(s.workers, extra, PickingWeight);
    TotalBounded(extra, WorkerLeft, 1);
    TotalBounded(extra, PickingWeight, 0);
  }

  lemma AdjustShuts(s: Pool, wake: nat)
    requires Inv(s) && s.sh.shutdown && Enabled(s, Adjust(wake))
    ensures ShutdownMeasure(AdjustStep(s, wake)) < ShutdownMeasure(s)
    ensures Pickers(AdjustStep(s, wake)) == Pickers(s)
  {
    hide Accounts, TableOk, WakeOk, FullOk, LifeOk, CountsOk, HolderOk, Signal, Total, GrowFrom;
    SignalLeft(s.workers, wake);
    if s.adjuster.Deciding? {
      GrowLeft(s, s.adjuster.alive);
    }
  }

  lemma WakeAllLeft(workers: seq<Worker>)
    ensures Total(WakeAll(workers), WorkerLeft) <= Total(workers, WorkerLeft)
    ensures Total(WakeAll(workers), PickingWeight) == Total(workers, PickingWeight)
  {
    TotalPointwise(WakeAll(workers), workers, WorkerLeft);
    TotalPointwise(WakeAll(workers), workers, PickingWeight);
    TotalPointwise(workers, WakeAll(workers), PickingWeight);
  }

  /** A step that moves one worker on. */
  lemma WorkerShuts(s: Pool, r: Pool, w: nat, next: Worker)
    requires w < |s.workers| && r.workers == s.workers[w := next] && WorkerLeft(next) < WorkerLeft(s.workers[w])
    requires r.adjuster == s.adjuster && r.destroyer == s.destroyer && r.sh.min == s.sh.min
    ensures ShutdownMeasure(r) < ShutdownMeasure(s)
    ensures Pickers(r) == Pickers(s) - PickingWeight(s.workers[w]) + PickingWeight(next)
  {
    hide Total;
    TotalUpdate(s.workers, w, next, WorkerLeft);
    TotalUpdate(s.workers, w, next, PickingWeight);
  }

  /** The broadcast wakes every sleeper and moves nobody else. */
  lemma BroadcastWakes(s: Pool, w: nat)
    requires Shape(s) && Enabled(s, Broadcast) && w < |s.workers|
    ensures var r := Apply(s, Broadcast);
            && r.sh == s.sh && |r.workers| == |s.workers|
            && r.workers[w] == if s.workers[w].Asleep? then Woken else s.workers[w]
  {
  }

  /** Once shutdown is set every step, an unsignalled wakeup too, brings the end nearer; a task is
      taken only by a worker that was already about to. */
  lemma ShutdownStep(s: Pool, st: Step)
    requires Inv(s) && s.sh.shutdown && Enabled(s, st)
    ensures var r := Apply(s, st);
            && ShutdownMeasure(r) < ShutdownMeasure(s)
            && r.sh.shutdown && r.added == s.added && s.taken <= r.taken
            && |r.taken| + Pickers(r) == |s.taken| + Pickers(s)
  {
    hide Accounts, TableOk, CountsOk, WakeOk, FullOk, HolderOk, Total, ShutdownMeasure, Pickers;
    var r := Apply(s, st);
    match st
    case Work(w) =>
      ShutdownWork(s, w);
      WorkerShuts(s, r, w, Exited);
    case Settle(w) => WorkerShuts(s, r, w, Asleep);
    case Pick(w) => WorkerShuts(s, r, w, r.workers[w]);
    case Commence(w) => WorkerShuts(s, r, w, r.workers[w]);
    case Finish(w) => WorkerShuts(s, r, w, AtTop);
    case SpuriousEmpty(w) => WorkerShuts(s, r, w, Woken);
    case Adjust(wake) => ShutdownAdjust(s, wake);
    case _ => ShutdownDestroy(s, st);
  }

  lemma ShutdownWork(s: Pool, w: nat)
    requires Inv(s) && s.sh.shutdown && Enabled(s, Work(w))
    ensures WorkStep(s, w) == s.(sh := s.sh.(waitExit := WorkStep(s, w).sh.waitExit), workers := s.workers[w := Exited])
  {
    NeverRetires(s, s.workers[w].Woken?);
    hide Accounts, TableOk, LifeOk, Total;
  }

  lemma ShutdownAdjust(s: Pool, wake: nat)
    requires Inv(s) && s.sh.shutdown && Enabled(s, Adjust(wake))
    ensures var r := AdjustStep(s, wake);
            && ShutdownMeasure(r) < ShutdownMeasure(s) && Pickers(r) == Pickers(s)
            && r.sh.shutdown && r.added == s.added && r.taken == s.taken
  {
    AdjustShuts(s, wake);
    hide Inv, Total, GrowFrom, ShutdownMeasure, Pickers;
  }

  lemma ShutdownDestroy(s: Pool, st: Step)
    requires Inv(s) && s.sh.shutdown && Enabled(s, st)
    requires !st.Work? && !st.Settle? && !st.Pick? && !st.Commence? && !st.Finish? && !st.SpuriousEmpty? && !st.Adjust?
    ensures var r := Apply(s, st);
            && ShutdownMeasure(r) < ShutdownMeasure(s) && Pickers(r) == Pickers(s)
            && r.sh.shutdown && r.added == s.added && r.taken == s.taken
  {
    hide Accounts, TableOk, CountsOk, WakeOk, FullOk, HolderOk, Total;
    WakeAllLeft(s.workers);
  }

  lemma {:induction false} ShutdownRun(s: Pool, steps: seq<Step>)
    requires Inv(s) && s.sh.shutdown && Legal(s, steps)
    ensures var t := Run(s, steps);
            && Inv(t) && t.sh.shutdown && s.taken <= t.taken && |t.taken| + Pickers(t) == |s.taken| + Pickers(s)
            && |steps| + ShutdownMeasure(t) <= ShutdownMeasure(s)
    decreases |steps|
  {
    assert Shape(s);
    hide Apply, Enabled, Inv, ShutdownMeasure, Pickers;
    if steps != [] {
      ShutdownStep(s, steps[0]);
      InvStep(s, steps[0]);
      ShutdownRun(Apply(s, steps[0]), steps[1..]);
    }
  }

  // ---------- Where a destroy can stop ----------

  predicate Unsignalled(st: Step) {
    st.SpuriousEmpty? || st.SpuriousFull?
  }

  /** No thread can move, unless a wait ends by itself. */
  ghost predicate Halted(s: Pool)
    requires Shape(s)
  {
    forall st: Step :: !Unsignalled(st) ==> !Enabled(s, st)
  }

  /** threadpool_destroy is joining a worker that sleeps, with nobody left to signal it. */
  ghost predicate JoinsSleeper(s: Pool) {
    && s.destroyer.JoiningWorkers? && s.destroyer.i < s.sh.min && s.destroyer.i < |s.sh.threads|
    && 1 <= s.sh.threads[s.destroyer.i] <= |s.workers| && s.workers[s.sh.threads[s.destroyer.i] - 1].Asleep?
  }

  ghost function Sleeper(workers: seq<Worker>): (w: nat)
    requires AnyAsleep(workers)
    ensures w < |workers| && workers[w].Asleep?
  {
    var w :| 0 <= w < |workers| && workers[w].Asleep?;
    w
  }

  /** The thread holding the lock can always give it up. */
  lemma HolderMoves(s: Pool) returns (st: Step)
    requires Inv(s) && !LockFree(s.workers) && s.destroyer != Freed
    ensures Enabled(s, st) && !Unsignalled(st)
  {
    var w: nat :| w < |s.workers| && Locks(s.workers[w]);
    st := if s.workers[w].Settling? then Settle(w) else Pick(w);
  }

  /** As long as the pool is not freed, some thread can move, unless a sleeper is being joined. */
  lemma SomebodyMoves(s: Pool) returns (st: Step)
    requires Inv(s) && s.sh.shutdown && !s.destroyer.Freed? && !JoinsSleeper(s)
    ensures Enabled(s, st) && !Unsignalled(st)
  {
    if !LockFree(s.workers) {
      st := HolderMoves(s);
      return;
    }
    if s.destroyer.JoiningAdjuster? {
      var wake: nat := if AnyAsleep(s.workers) then Sleeper(s.workers) else 0;
      return if s.adjuster.Gone? then JoinAdjuster else Adjust(wake);
    }
    if s.destroyer.Broadcasting? {
      return Broadcast;
    }
    var i := s.destroyer.i;
    if i >= s.sh.min {
      return Free;
    }
    var w: nat := s.sh.threads[i] - 1;
    var worker := s.workers[w];
    st := if worker.Exited? then JoinWorker else if worker.Holding? then Commence(w)
          else if worker.Running? then Finish(w) else Work(w);
  }

  lemma PickersFew(s: Pool)
    requires Inv(s)
    ensures Pickers(s) <= 1
  {
    FewPickers(s.workers);
  }

  lemma {:induction false} FewPickers(workers: seq<Worker>)
    requires forall v, w :: 0 <= v < w < |workers| && Locks(workers[v]) ==> !Locks(workers[w])
    ensures Total(workers, PickingWeight) <= 1
  {
    if workers != [] {
      var n := |workers| - 1;
      FewPickers(workers[..n]);
      if workers[n].Picking? {
        forall v | 0 <= v < n
          ensures PickingWeight(workers[..n][v]) <= 0
        {
          assert Locks(workers[v]) ==> !Locks(workers[n]);
        }
        TotalBounded(workers[..n], PickingWeight, 0);
      }
    }
  }

  /** Once shutdown is set, at most ShutdownMeasure steps follow; they take a task only if a worker
      was already about to, and then one; and a run that cannot be continued has reached
      threadpool_free or is joining a sleeper. */
  lemma ShutdownStops(s: Pool, steps: seq<Step>)
    requires Reachable(s) && s.sh.shutdown && Legal(s, steps)
    ensures |steps| <= ShutdownMeasure(s) <= 4 * |s.workers| + s.sh.min + 30
    ensures var t := Run(s, steps);
            && s.taken <= t.taken && |t.taken| + Pickers(t) == |s.taken| + Pickers(s) <= |s.taken| + 1
            && (Halted(t) ==> t.destroyer.Freed? || JoinsSleeper(t))
  {
    ReachableInv(s);
    hide Inv, Legal, Run, Halted, Reachable, JoinsSleeper;
    ShutdownRun(s, steps);
    TotalBounded(s.workers, WorkerLeft, 4);
    PickersFew(s);
    var t := Run(s, steps);
    if Halted(t) {
      HaltedWhere(t);
    }
  }

  lemma HaltedWhere(s: Pool)
    requires Inv(s) && s.sh.shutdown && Halted(s)
    ensures s.destroyer.Freed? || JoinsSleeper(s)
  {
    if !s.destroyer.Freed? && !JoinsSleeper(s) {
      var st := SomebodyMoves(s);
    }
  }

  // ---------- The wakeup a broadcast misses ----------

  /** Worker w is one threadpool_destroy joins. */
  ghost predicate Joined(s: Pool, w: nat) {
    exists i :: 0 <= i < s.sh.min && i < |s.sh.threads| && s.sh.threads[i] == w + 1
  }

  /** Worker w, one of those to be joined, has made its test at line 159 and not yet its wait. */
  ghost predicate Late(s: Pool, w: nat) {
    w < |s.workers| && s.workers[w].Settling? && Joined(s, w)
  }

  /** Waiting, or about to, without having looked at `shutdown` again. */
  ghost predicate Restless(s: Pool, w: nat) {
    w < |s.workers| && (s.workers[w].Settling? || s.workers[w].Asleep?)
  }

  predicate PastBroadcast(s: Pool) {
    s.destroyer.JoiningWorkers? || s.destroyer.Freed?
  }

  /** After the broadcast only an unsignalled wakeup ends a wait, and none begins anew. */
  lemma RestlessStep(s: Pool, st: Step, w: nat)
    requires Inv(s) && PastBroadcast(s) && Enabled(s, st)
    ensures var r := Apply(s, st);
            && PastBroadcast(r) && r.sh.threads == s.sh.threads && r.sh.min == s.sh.min
            && (Restless(r, w) <==> Restless(s, w) && st != SpuriousEmpty(w))
  {
    hide Accounts, TableOk, CountsOk, WakeOk, FullOk, Total;
    if st.Work? {
      ShutdownWork(s, st.w);
    }
  }

  lemma {:induction false} RestlessRun(s: Pool, steps: seq<Step>, w: nat)
    requires Inv(s) && PastBroadcast(s) && Legal(s, steps)
    ensures var t := Run(s, steps);
            && Inv(t) && PastBroadcast(t) && t.sh.threads == s.sh.threads && t.sh.min == s.sh.min
            && (Restless(t, w) <==> Restless(s, w) && SpuriousEmpty(w) !in steps)
    decreases |steps|
  {
    assert Shape(s);
    hide Apply, Enabled, Inv, Restless, PastBroadcast;
    if steps != [] {
      RestlessStep(s, steps[0], w);
      InvStep(s, steps[0]);
      RestlessRun(Apply(s, steps[0]), steps[1..], w);
    }
  }

  lemma AfterBroadcast(s: Pool, w: nat)
    requires Inv(s) && Enabled(s, Broadcast)
    ensures var r := Apply(s, Broadcast);
            && Inv(r) && PastBroadcast(r) && r.sh.threads == s.sh.threads && r.sh.min == s.sh.min
            && (Restless(r, w) <==> w < |s.workers| && s.workers[w].Settling?)
  {
    BroadcastKept(s);
  }

  lemma FreedMeansExited(s: Pool, w: nat)
    requires Inv(s) && s.destroyer.Freed? && Joined(s, w)
    ensures w < |s.workers| && s.workers[w].Exited?
  {
    hide Accounts, TableOk, CountsOk, WakeOk, FullOk, HolderOk, Total;
    var i :| 0 <= i < s.sh.min && i < |s.sh.threads| && s.sh.threads[i] == w + 1;
    assert s.workers[s.sh.threads[i] - 1].Exited?;
  }

  lemma UnfreedJoins(s: Pool) returns (w: nat)
    requires Inv(s) && s.sh.shutdown && Halted(s) && !s.destroyer.Freed?
    ensures Joined(s, w) && Restless(s, w)
  {
    HaltedWhere(s);
    w := s.sh.threads[s.destroyer.i] - 1;
  }

  lemma PastIsShut(s: Pool)
    requires Inv(s) && PastBroadcast(s)
    ensures s.sh.shutdown
  {
  }

  /** From the broadcast on: a run that cannot be continued has freed the pool if and only if
      every worker to be joined that was late for the broadcast has woken up unsignalled. */
  lemma FreedIff(s: Pool, steps: seq<Step>)
    requires Reachable(s) && Enabled(s, Broadcast)
    requires Legal(Apply(s, Broadcast), steps) && Halted(Run(Apply(s, Broadcast), steps))
    ensures Run(Apply(s, Broadcast), steps).destroyer.Freed? <==> forall w :: Late(s, w) ==> SpuriousEmpty(w) in steps
  {
    hide Inv, Apply, Enabled, Legal, Run, Halted, PastBroadcast;
    ReachableInv(s);
    var r := Apply(s, Broadcast);
    var t := Run(r, steps);
    AfterBroadcast(s, 0);
    RestlessRun(r, steps, 0);
    PastIsShut(t);
    if t.destroyer.Freed? {
      forall w | Late(s, w)
        ensures SpuriousEmpty(w) in steps
      {
        AfterBroadcast(s, w);
        RestlessRun(r, steps, w);
        FreedMeansExited(t, w);
      }
    } else {
      var w := UnfreedJoins(t);
      AfterBroadcast(s, w);
      RestlessRun(r, steps, w);
      assert Late(s, w);
    }
  }
}
