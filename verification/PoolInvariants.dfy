/** 013threadPoll/threadpool.c: what every step of the pool keeps, and what therefore holds in
    every state any run reaches, for any number of submitters, tasks and adjuster passes. */
module PoolInvariants {
  import opened Totals
  import opened TaskRing
  import opened PoolSections
  import opened PoolProtocol

  /** The ring holds exactly the tasks added and not yet taken. */
  ghost predicate QueueOk(s: Pool) {
    Accounts(s.sh.ring, s.added, s.taken, s.freed)
  }

  /** pthread_alive_num never moves from the minimum; the adjuster's copy counts at most one
      pass of creations; pthread_busy_num counts every task ever started. */
  ghost predicate CountsOk(s: Pool) {
    && 1 <= s.sh.min <= s.sh.max
    && s.sh.alive == s.sh.min
    && 0 <= s.sh.waitExit <= DEFAULT_THREAD_NUM
    && s.sh.busy + Total(s.workers, HoldingWeight) == |s.taken|
    && LocalsOk(s.sh, s.adjuster)
  }

  ghost predicate LocalsOk(sh: Shared, adjuster: Adjuster) {
    match adjuster
    case Deciding(queueSize, alive) => alive == sh.min && queueSize <= |sh.ring.slots|
    case CountingBusy(alive) => sh.min <= alive <= sh.min + DEFAULT_THREAD_NUM
    case Judging(_, alive) => sh.min <= alive <= sh.min + DEFAULT_THREAD_NUM
    case _ => true
  }

  /** One worker at most is inside its locked block; what it saw of the queue still holds. */
  ghost predicate HolderOk(s: Pool) {
    && (forall v, w :: 0 <= v < w < |s.workers| && Locks(s.workers[v]) ==> !Locks(s.workers[w]))
    && (forall w :: 0 <= w < |s.workers| && s.workers[w].Settling? ==> s.sh.ring.size == 0)
    && (forall w :: 0 <= w < |s.workers| && s.workers[w].Picking? ==> s.sh.ring.size > 0)
  }

  /** While any worker sleeps, enough others are on their way for every queued task. */
  ghost predicate WakeOk(s: Pool) {
    !s.sh.shutdown && AnyAsleep(s.workers) ==> Total(s.workers, ComingWeight) >= s.sh.ring.size
  }

  /** A submitter sleeps only while the queue is full. */
  ghost predicate FullOk(s: Pool) {
    forall i :: 0 <= i < |s.submitters| && s.submitters[i].AsleepFull? ==> s.sh.ring.size == |s.sh.ring.slots|
  }

  /** Each thread id stands in one entry of the table, live threads all do, and the table is as
      created as long as the adjuster has added nobody. */
  ghost predicate TableOk(min: nat, threads: seq<nat>, workers: seq<Worker>) {
    && DistinctIds(threads)
    && IdsBelow(threads, |workers| + 1)
    && (forall w :: 0 <= w < |workers| && !workers[w].Exited? ==> w + 1 in threads)
    && min <= |threads|
    && (forall i :: 0 <= i < min ==> threads[i] != 0)
    && |workers| >= min
    && (|workers| == min ==> forall i :: 0 <= i < |threads| ==> threads[i] == if i < min then i + 1 else 0)
  }

  /** How far shutting down has come. */
  ghost predicate LifeOk(s: Pool) {
    && (s.sh.shutdown <==> s.destroyer != NotCalled)
    && (s.destroyer.NotCalled? ==>
          s.adjuster != Gone && forall w :: 0 <= w < |s.workers| ==> s.workers[w] != Exited)
    && (s.sh.shutdown ==> AllIdle(s.submitters))
    && (s.destroyer.Broadcasting? || s.destroyer.JoiningWorkers? || s.destroyer.Freed? ==> s.adjuster.Gone?)
    && (s.destroyer.JoiningWorkers? ==>
          s.destroyer.i <= s.sh.min && ExitedUpTo(s.sh.threads, s.workers, s.destroyer.i))
    && (s.destroyer.Freed? ==> ExitedUpTo(s.sh.threads, s.workers, s.sh.min))
  }

  /** The threads in the first n entries of the table have exited. */
  ghost predicate ExitedUpTo(threads: seq<nat>, workers: seq<Worker>, n: nat) {
    forall i :: 0 <= i < n && i < |threads| ==> 1 <= threads[i] <= |workers| && workers[threads[i] - 1].Exited?
  }

  ghost predicate Inv(s: Pool) {
    && Shape(s) && QueueOk(s) && CountsOk(s) && HolderOk(s) && WakeOk(s) && FullOk(s)
    && TableOk(s.sh.min, s.sh.threads, s.workers) && LifeOk(s)
  }

  lemma StartInv(min: nat, max: nat, queueMax: nat, n: nat)
    requires 1 <= queueMax && 1 <= min <= max
    ensures Inv(Start(min, max, queueMax, n))
  {
    var s := Start(min, max, queueMax, n);
    AccountsStart(s.sh.ring);
    hide Accounts;
    TotalBounded(s.workers, HoldingWeight, 0);
    StartTable(min, max, queueMax, n);
    hide TableOk;
  }

  lemma StartTable(min: nat, max: nat, queueMax: nat, n: nat)
    requires 1 <= queueMax && 1 <= min <= max
    ensures var s := Start(min, max, queueMax, n); TableOk(min, s.sh.threads, s.workers)
  {
    var s := Start(min, max, queueMax, n);
    forall w | 0 <= w < |s.workers| && !s.workers[w].Exited?
      ensures w + 1 in s.sh.threads
    {
      assert s.sh.threads[w] == w + 1;
    }
  }

  // ---------- Preservation, one step at a time ----------

  lemma SignalTotal(workers: seq<Worker>, wake: nat)
    ensures Total(Signal(workers, wake), HoldingWeight) == Total(workers, HoldingWeight)
    ensures Total(Signal(workers, wake), ComingWeight) >= Total(workers, ComingWeight)
    ensures SignalOk(workers, wake) && AnyAsleep(workers) ==>
              Total(Signal(workers, wake), ComingWeight) == Total(workers, ComingWeight) + 1
    ensures AnyAsleep(Signal(workers, wake)) ==> AnyAsleep(workers)
  {
    if wake < |workers| && workers[wake].Asleep? {
      TotalUpdate(workers, wake, Woken, HoldingWeight);
      TotalUpdate(workers, wake, Woken, ComingWeight);
    }
  }

  lemma GrowTotal(workers: seq<Worker>, n: nat)
    ensures var grown := workers + seq(n, _ => AtTop);
            && Total(grown, HoldingWeight) == Total(workers, HoldingWeight)
            && Total(grown, ComingWeight) == Total(workers, ComingWeight)
            && (AnyAsleep(grown) ==> AnyAsleep(workers))
  {
    var extra: seq<Worker> := seq(n, _ => AtTop);
    TotalAppend(workers, extra, HoldingWeight);
    TotalAppend(workers, extra, ComingWeight);
    TotalBounded(extra, HoldingWeight, 0);
    TotalBounded(extra, ComingWeight, 0);
  }

  lemma WakeAllTotal(workers: seq<Worker>)
    ensures Total(WakeAll(workers), HoldingWeight) == Total(workers, HoldingWeight)
    ensures !AnyAsleep(WakeAll(workers))
  {
    TotalPointwise(WakeAll(workers), workers, HoldingWeight);
    TotalPointwise(workers, WakeAll(workers), HoldingWeight);
  }

  /** The pool after the adjuster's creation loop. */
  lemma GrowKept(s: Pool, alive: int)
    requires Inv(s) && s.adjuster.Deciding? && alive == s.sh.min
    ensures Inv(GrowStep(s, alive))
  {
    GrowCounts(s, alive);
    GrowLife(s, alive);
    var (threads, n) := GrowFrom(s.sh, s.sh.threads, LiveIds(s.workers), |s.workers| + 1, 0, 0);
    GrowTable(s, threads, n);
    hide Accounts, TableOk, LifeOk, CountsOk, WakeOk, GrowFrom;
  }

  lemma GrowCounts(s: Pool, alive: int)
    requires Inv(s) && s.adjuster.Deciding? && alive == s.sh.min
    ensures CountsOk(GrowStep(s, alive)) && WakeOk(GrowStep(s, alive))
  {
    hide QueueOk, HolderOk, FullOk, TableOk, LifeOk, GrowFrom, Total;
    GrowFew(s);
    GrowTotal(s.workers, GrowFrom(s.sh, s.sh.threads, LiveIds(s.workers), |s.workers| + 1, 0, 0).1);
  }

  lemma GrowFew(s: Pool)
    requires Inv(s)
    ensures GrowFrom(s.sh, s.sh.threads, LiveIds(s.workers), |s.workers| + 1, 0, 0).1 <= DEFAULT_THREAD_NUM
  {
    hide QueueOk, HolderOk, FullOk, LifeOk, CountsOk, WakeOk;
    GrowSpec(s.sh, s.sh.threads, LiveIds(s.workers), |s.workers| + 1, 0, 0);
  }

  lemma GrowLife(s: Pool, alive: int)
    requires Inv(s) && s.adjuster.Deciding?
    ensures LifeOk(GrowStep(s, alive))
  {
    hide Accounts, TableOk, GrowFrom;
  }

  lemma GrowEntry(s: Pool, threads: seq<nat>, n: nat, w: nat)
    requires Shape(s) && TableOk(s.sh.min, s.sh.threads, s.workers)
    requires (threads, n) == GrowFrom(s.sh, s.sh.threads, LiveIds(s.workers), |s.workers| + 1, 0, 0)
    requires w < |s.workers| + n && (w < |s.workers| ==> !s.workers[w].Exited?)
    ensures w + 1 in threads
  {
    var live := LiveIds(s.workers);
    if w < |s.workers| {
      GrowSpec(s.sh, s.sh.threads, live, |s.workers| + 1, 0, 0);
      hide DistinctIds, IdsBelow;
      assert w + 1 in live;
      var i :| 0 <= i < |s.sh.threads| && s.sh.threads[i] == w + 1;
      assert threads[i] == w + 1;
    } else {
      GrowPlaces(s.sh, s.sh.threads, live, |s.workers| + 1, 0, 0, w + 1, 0);
    }
  }

  lemma GrowTable(s: Pool, threads: seq<nat>, n: nat)
    requires Shape(s) && TableOk(s.sh.min, s.sh.threads, s.workers)
    requires (threads, n) == GrowFrom(s.sh, s.sh.threads, LiveIds(s.workers), |s.workers| + 1, 0, 0)
    ensures TableOk(s.sh.min, threads, s.workers + seq(n, _ => AtTop))
  {
    GrowSpec(s.sh, s.sh.threads, LiveIds(s.workers), |s.workers| + 1, 0, 0);
    hide DistinctIds, IdsBelow, GrowFrom;
    var grown := s.workers + seq(n, _ => AtTop);
    forall w: nat | w < |grown| && !grown[w].Exited?
      ensures w + 1 in threads
    {
      GrowEntry(s, threads, n, w);
    }
    forall i | 0 <= i < s.sh.min && i < |threads|
      ensures threads[i] != 0
    {
      assert s.sh.threads[i] != 0;
    }
    if n == 0 {
      assert threads == s.sh.threads;
    }
  }

  /** A worker never leaves before shutdown: the exit of lines 166-171 needs pthread_alive_num
      above the minimum. It only uses up an exit order when it comes out of its wait. */
  lemma NeverRetires(s: Pool, resumed: bool)
    requires Shape(s) && CountsOk(s)
    ensures var (sh, out) := TestSection(s.sh, resumed);
            && out != Retires && (out == Quits <==> s.sh.shutdown)
            && (out == Waits <==> !s.sh.shutdown && s.sh.ring.size == 0)
            && sh == s.sh.(waitExit := if resumed && s.sh.waitExit > 0 then s.sh.waitExit - 1 else s.sh.waitExit)
            && 0 <= sh.waitExit <= s.sh.waitExit
  {
  }

  lemma WorkKept(s: Pool, w: nat)
    requires Inv(s) && Enabled(s, Work(w))
    ensures var r := WorkStep(s, w);
            QueueOk(r) && CountsOk(r) && HolderOk(r) && WakeOk(r) && FullOk(r)
  {
    hide Accounts, TableOk, LifeOk;
    NeverRetires(s, s.workers[w].Woken?);
    var (_, out) := TestSection(s.sh, s.workers[w].Woken?);
    TotalUpdate(s.workers, w, AfterTest(out), HoldingWeight);
    TotalUpdate(s.workers, w, AfterTest(out), ComingWeight);
  }

  lemma WorkKeptTable(s: Pool, w: nat)
    requires Inv(s) && Enabled(s, Work(w))
    ensures TableOk(s.sh.min, s.sh.threads, WorkStep(s, w).workers)
  {
    hide Accounts, LifeOk, FullOk, WakeOk, DistinctIds, IdsBelow;
    NeverRetires(s, s.workers[w].Woken?);
  }

  lemma WorkKeptLife(s: Pool, w: nat)
    requires Inv(s) && Enabled(s, Work(w))
    ensures LifeOk(WorkStep(s, w))
  {
    hide Accounts, TableOk, FullOk, WakeOk;
    NeverRetires(s, s.workers[w].Woken?);
  }

  /** Starting to wait: the queue is still as empty as it was at the test. */
  lemma SettleKept(s: Pool, w: nat)
    requires Inv(s) && Enabled(s, Settle(w))
    ensures Inv(Apply(s, Settle(w)))
  {
    hide Accounts, DistinctIds, IdsBelow, Total;
    TotalUpdate(s.workers, w, Asleep, HoldingWeight);
    TotalUpdate(s.workers, w, Asleep, ComingWeight);
  }

  lemma PickKept(s: Pool, w: nat)
    requires Inv(s) && Enabled(s, Pick(w))
    ensures var r := PickStep(s, w);
            QueueOk(r) && CountsOk(r) && HolderOk(r) && WakeOk(r) && FullOk(r)
  {
    TakeAccounts(s.sh.ring, s.added, s.taken, s.freed);
    hide Accounts, TableOk, LifeOk;
    var task := s.sh.ring.slots[s.sh.ring.front];
    TotalUpdate(s.workers, w, Holding(task), HoldingWeight);
    TotalUpdate(s.workers, w, Holding(task), ComingWeight);
  }

  lemma PickKeptTable(s: Pool, w: nat)
    requires Inv(s) && Enabled(s, Pick(w))
    ensures TableOk(s.sh.min, s.sh.threads, PickStep(s, w).workers) && LifeOk(PickStep(s, w))
  {
    hide Accounts, FullOk, WakeOk, DistinctIds, IdsBelow;
  }

  lemma SignalKept(s: Pool, wake: nat)
    requires Inv(s) && SignalOk(s.workers, wake)
    ensures Inv(s.(workers := Signal(s.workers, wake)))
  {
    hide Accounts, DistinctIds, IdsBelow, Total;
    SignalTotal(s.workers, wake);
  }

  lemma SignalFree(workers: seq<Worker>, wake: nat)
    requires LockFree(workers)
    ensures LockFree(Signal(workers, wake))
  {
  }

  lemma AccountsSize(s: Pool)
    requires QueueOk(s)
    ensures s.sh.ring.size <= |s.sh.ring.slots|
  {
  }

  lemma SubmitKept(s: Pool, i: nat, wake: nat)
    requires Inv(s) && Enabled(s, Submit(i, wake))
    ensures Inv(SubmitStep(s, i, wake))
  {
    hide Accounts, TableOk, Signal, Total;
    AccountsSize(s);
    if s.sh.ring.size < |s.sh.ring.slots| {
      StoreAccounts(s.sh.ring, s.added, s.taken, s.freed, s.submitters[i].task);
      SignalKept(s, wake);
      SignalTotal(s.workers, wake);
      SignalFree(s.workers, wake);
    }
  }

  /** A step that only moves the adjuster. */
  lemma AdjusterMoved(s: Pool, adjuster: Adjuster)
    requires Inv(s) && LocalsOk(s.sh, adjuster) && s.adjuster != Gone && (adjuster.Gone? ==> s.sh.shutdown)
    ensures Inv(s.(adjuster := adjuster))
  {
    hide Accounts, TableOk;
  }

  lemma AdjustKept(s: Pool, wake: nat)
    requires Inv(s) && Enabled(s, Adjust(wake))
    ensures Inv(AdjustStep(s, wake))
  {
    assert s.sh.ring.size <= |s.sh.ring.slots|;
    hide Accounts, TableOk, LifeOk, WakeOk, FullOk, GrowStep, Signal;
    match s.adjuster
    case Deciding(queueSize, alive) =>
      if WantsMore(s.sh, queueSize, alive) {
        GrowKept(s, alive);
      } else {
        AdjusterMoved(s, CountingBusy(alive));
      }
    case Signalling(sent) =>
      SignalKept(s, wake);
      AdjusterMoved(s.(workers := Signal(s.workers, wake)), AdjustStep(s, wake).adjuster);
    case Judging(busy, alive) =>
      var ordered := s.(sh := s.sh.(waitExit := DEFAULT_THREAD_NUM));
      OrderKept(s);
      AdjusterMoved(s, Resting);
      AdjusterMoved(ordered, Signalling(0));
    case Checking => AdjusterMoved(s, AdjustStep(s, wake).adjuster);
    case Sampling => AdjusterMoved(s, AdjustStep(s, wake).adjuster);
    case CountingBusy(alive) => AdjusterMoved(s, AdjustStep(s, wake).adjuster);
    case Resting => AdjusterMoved(s, Checking);
    case Gone =>
  }

  lemma OrderKept(s: Pool)
    requires Inv(s)
    ensures Inv(s.(sh := s.sh.(waitExit := DEFAULT_THREAD_NUM)))
  {
    hide Accounts, TableOk;
  }

  /** A step that only moves worker w between phases other than sleep and exit. */
  lemma PhaseKept(s: Pool, w: nat, next: Worker)
    requires Inv(s) && w < |s.workers| && (s.workers[w].Holding? || s.workers[w].Running? || s.workers[w].Asleep?)
    requires next.AtTop? || next.Running? || next.Woken?
    ensures var r := s.(workers := s.workers[w := next]);
            && QueueOk(r) && HolderOk(r) && WakeOk(r) && FullOk(r)
            && TableOk(r.sh.min, r.sh.threads, r.workers) && LifeOk(r)
            && Total(r.workers, HoldingWeight) == Total(s.workers, HoldingWeight) - HoldingWeight(s.workers[w])
  {
    hide Accounts, DistinctIds, IdsBelow;
    TotalUpdate(s.workers, w, next, HoldingWeight);
    TotalUpdate(s.workers, w, next, ComingWeight);
  }

  lemma BroadcastKept(s: Pool)
    requires Inv(s) && Enabled(s, Broadcast)
    ensures Inv(Apply(s, Broadcast))
  {
    hide Accounts, DistinctIds, IdsBelow;
    WakeAllTotal(s.workers);
  }

  lemma DestroyKept(s: Pool, st: Step)
    requires Inv(s) && Enabled(s, st)
    requires st.SetShutdown? || st.JoinAdjuster? || st.JoinWorker? || st.Free?
    ensures Inv(Apply(s, st))
  {
    hide Accounts, DistinctIds, IdsBelow;
  }

  lemma BusyKept(s: Pool, w: nat)
    requires Inv(s) && Enabled(s, Commence(w))
    ensures Inv(Apply(s, Commence(w)))
  {
    PhaseKept(s, w, Running(s.workers[w].task));
    hide Accounts, DistinctIds, IdsBelow, Total;
  }

  lemma SubmitterKept(s: Pool, st: Step)
    requires Inv(s) && Enabled(s, st)
    requires st.Begin? || st.SpuriousFull?
    ensures Inv(Apply(s, st))
  {
    hide Accounts, DistinctIds, IdsBelow;
  }

  lemma InvStep(s: Pool, st: Step)
    requires Inv(s) && Enabled(s, st)
    ensures Inv(Apply(s, st))
  {
    hide QueueOk, CountsOk, HolderOk, WakeOk, FullOk, TableOk, LifeOk;
    match st
    case Begin(_, _) => SubmitterKept(s, st);
    case Submit(i, wake) => SubmitKept(s, i, wake);
    case SpuriousFull(_) => SubmitterKept(s, st);
    case Work(w) =>
      WorkKept(s, w);
      WorkKeptTable(s, w);
      WorkKeptLife(s, w);
    case Settle(w) => SettleKept(s, w);
    case Pick(w) =>
      PickKept(s, w);
      PickKeptTable(s, w);
    case Commence(w) => BusyKept(s, w);
    case Finish(w) => IdleKept(s, w, AtTop);
    case SpuriousEmpty(w) => IdleKept(s, w, Woken);
    case Adjust(wake) => AdjustKept(s, wake);
    case Broadcast => BroadcastKept(s);
    case _ => DestroyKept(s, st);
  }

  lemma IdleKept(s: Pool, w: nat, next: Worker)
    requires Inv(s) && w < |s.workers|
    requires (s.workers[w].Running? && next.AtTop?) || (s.workers[w].Asleep? && next.Woken?)
    ensures Inv(s.(workers := s.workers[w := next]))
  {
    PhaseKept(s, w, next);
  }

  lemma {:induction false} InvRun(s: Pool, steps: seq<Step>)
    requires Inv(s) && Legal(s, steps)
    ensures Inv(Run(s, steps))
    decreases |steps|
  {
    hide Apply, Enabled;
    if steps != [] {
      InvStep(s, steps[0]);
      InvRun(Apply(s, steps[0]), steps[1..]);
    }
  }
}
