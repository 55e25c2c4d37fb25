/** 013threadPoll/threadpool.c: work gets done. Steps are counted by a measure that every step
    of a submitter or worker lowers, so no run of theirs can go on without finishing. */
module PoolProgress {
  import opened Totals
  import opened TaskRing
  import opened PoolSections
  import opened PoolProtocol
  import opened PoolInvariants
  import opened PoolTheorems
  import opened PoolSchedules
  import opened PoolTasks
  import opened Multisets

  /** The steps of submitters inside threadpool_add and of workers: no new calls, no adjuster,
      no unsignalled wakeup, no shutdown. */
  predicate Working(st: Step) {
    st.Submit? || st.Work? || st.Settle? || st.Pick? || st.Commence? || st.Finish?
  }

  function Pending(u: Submitter): nat { if u.Idle? then 0 else 1 }

  function SubmitterEffort(u: Submitter): nat { if u.Wanting? || u.WokenFull? then 1 else 0 }

  function WorkerEffort(w: Worker): nat {
    match w
    case AtTop => 2
    case Woken => 2
    case Settling => 1
    case Picking => 1
    case Running(_) => 3
    case Holding(_) => 4
    case _ => 0
  }

  function Effort(s: Pool): nat {
    Total(s.workers, WorkerEffort) + Total(s.submitters, SubmitterEffort)
  }

  function EffortCap(s: Pool): nat {
    4 * s.sh.max + |s.submitters|
  }

  function Demand(s: Pool): nat {
    2 * Total(s.submitters, Pending) + s.sh.ring.size
  }

  function DrainMeasure(s: Pool): nat {
    Demand(s) * (EffortCap(s) + 1) + Effort(s)
  }

  lemma EffortBounded(s: Pool)
    requires |s.workers| <= s.sh.max
    ensures Effort(s) <= EffortCap(s)
  {
    TotalBounded(s.workers, WorkerEffort, 4);
    TotalBounded(s.submitters, SubmitterEffort, 1);
  }

  /** Less demand, or as much demand and less effort. */
  lemma MeasureFalls(s: Pool, r: Pool)
    requires EffortCap(r) == EffortCap(s) && |r.workers| <= r.sh.max
    requires Demand(r) < Demand(s) || (Demand(r) == Demand(s) && Effort(r) < Effort(s))
    ensures DrainMeasure(r) < DrainMeasure(s)
  {
    if Demand(r) < Demand(s) {
      EffortBounded(r);
      var c := EffortCap(s) + 1;
      Remainders.Monotone(Demand(r), Demand(s), c);
    }
  }

  lemma {:induction false} LiveCount(workers: seq<Worker>)
    requires forall w :: 0 <= w < |workers| ==> !workers[w].Exited?
    ensures |LiveIds(workers)| == |workers|
  {
    if workers != [] {
      var n := |workers| - 1;
      LiveCount(workers[..n]);
      forall t
        ensures t in LiveIds(workers) <==> t in LiveIds(workers[..n]) || t == n + 1
      {
        if t in LiveIds(workers[..n]) {
          var w: nat :| w < n && t == w + 1;
          assert !workers[w].Exited?;
        }
        if t == n + 1 {
          assert !workers[n].Exited?;
        }
        if t in LiveIds(workers) && t != n + 1 {
          var w: nat :| w < |workers| && t == w + 1;
          assert !workers[..n][w].Exited?;
        }
      }
      assert LiveIds(workers) == LiveIds(workers[..n]) + {n + 1};
    }
  }

  /** Nobody leaves before shutdown, so every worker there ever was is one of at most max. */
  lemma FewWorkers(s: Pool)
    requires Inv(s) && !s.sh.shutdown
    ensures |s.workers| <= s.sh.max
  {
    FewLive(s);
    LiveCount(s.workers);
  }

  lemma WakeFullPending(submitters: seq<Submitter>)
    ensures Total(WakeFull(submitters), Pending) <= Total(submitters, Pending)
  {
    TotalPointwise(WakeFull(submitters), submitters, Pending);
  }

  lemma WorkDrains(s: Pool, w: nat)
    requires Inv(s) && !s.sh.shutdown && Enabled(s, Work(w))
    ensures DrainMeasure(WorkStep(s, w)) < DrainMeasure(s)
  {
    FewWorkers(s);
    NeverRetires(s, s.workers[w].Woken?);
    PhaseDrains(s, WorkStep(s, w), w, AfterTest(TestSection(s.sh, s.workers[w].Woken?).1));
  }

  lemma PickDrains(s: Pool, w: nat)
    requires Inv(s) && !s.sh.shutdown && Enabled(s, Pick(w))
    ensures DrainMeasure(PickStep(s, w)) < DrainMeasure(s)
  {
    hide Accounts, TableOk, LifeOk, FullOk, WakeOk, Total;
    FewWorkers(s);
    WakeFullPending(s.submitters);
    MeasureFalls(s, PickStep(s, w));
  }

  lemma SubmitDrains(s: Pool, i: nat, wake: nat)
    requires Inv(s) && !s.sh.shutdown && Enabled(s, Submit(i, wake))
    ensures DrainMeasure(SubmitStep(s, i, wake)) < DrainMeasure(s)
  {
    var r := SubmitStep(s, i, wake);
    FewWorkers(s);
    TotalUpdate(s.submitters, i, r.submitters[i], Pending);
    TotalUpdate(s.submitters, i, r.submitters[i], SubmitterEffort);
    hide Accounts, TableOk, LifeOk, FullOk, WakeOk, Total;
    MeasureFalls(s, r);
  }

  lemma WorkingDrains(s: Pool, st: Step)
    requires Inv(s) && !s.sh.shutdown && Enabled(s, st) && Working(st)
    ensures DrainMeasure(Apply(s, st)) < DrainMeasure(s) && !Apply(s, st).sh.shutdown
  {
    hide QueueOk, CountsOk, WakeOk, FullOk, TableOk, LifeOk, HolderOk, DrainMeasure, WorkStep, PickStep, SubmitStep;
    FewWorkers(s);
    match st
    case Submit(i, wake) =>
      SubmitDrains(s, i, wake);
      SubmitKeepsOpen(s, i, wake);
    case Work(w) =>
      WorkDrains(s, w);
      WorkKeepsOpen(s, w);
    case Settle(w) => PhaseDrains(s, Apply(s, st), w, Asleep);
    case Pick(w) =>
      PickDrains(s, w);
      PickKeepsOpen(s, w);
    case Commence(w) => PhaseDrains(s, Apply(s, st), w, Running(s.workers[w].task));
    case Finish(w) => PhaseDrains(s, Apply(s, st), w, AtTop);
  }

  lemma WorkKeepsOpen(s: Pool, w: nat)
    requires Shape(s) && w < |s.workers|
    ensures WorkStep(s, w).sh.shutdown == s.sh.shutdown
  {
  }

  lemma PickKeepsOpen(s: Pool, w: nat)
    requires Shape(s) && w < |s.workers| && s.sh.ring.size > 0
    ensures PickStep(s, w).sh.shutdown == s.sh.shutdown
  {
  }

  lemma SubmitKeepsOpen(s: Pool, i: nat, wake: nat)
    requires Shape(s) && i < |s.submitters| && !s.submitters[i].Idle?
    ensures SubmitStep(s, i, wake).sh.shutdown == s.sh.shutdown
  {
  }

  lemma PhaseDrains(s: Pool, r: Pool, w: nat, next: Worker)
    requires w < |s.workers| <= s.sh.max == r.sh.max && WorkerEffort(next) < WorkerEffort(s.workers[w])
    requires r.workers == s.workers[w := next] && r.submitters == s.submitters && r.sh.ring == s.sh.ring
    ensures DrainMeasure(r) < DrainMeasure(s)
  {
    hide DrainMeasure, Total;
    TotalUpdate(s.workers, w, next, WorkerEffort);
    MeasureFalls(s, r);
  }

  /** No submitter or worker can move, unless a wait ends by itself. */
  ghost predicate AtRest(s: Pool)
    requires Shape(s)
  {
    forall st: Step :: Working(st) ==> !Enabled(s, st)
  }

  /** At rest means done: nothing queued, nobody waiting to submit, every worker asleep. */
  lemma RestMeansDone(s: Pool)
    requires Inv(s) && !s.sh.shutdown && AtRest(s)
    ensures s.sh.ring.size == 0 && AllIdle(s.submitters)
    ensures forall w :: 0 <= w < |s.workers| ==> s.workers[w].Asleep?
  {
    forall w | 0 <= w < |s.workers|
      ensures !Locks(s.workers[w])
    {
      assert !Enabled(s, Settle(w)) && !Enabled(s, Pick(w));
    }
    forall w | 0 <= w < |s.workers|
      ensures s.workers[w].Asleep?
    {
      assert !Enabled(s, Work(w)) && !Enabled(s, Commence(w)) && !Enabled(s, Finish(w));
    }
    assert s.workers[0].Asleep?;
    if s.sh.ring.size > 0 {
      SomePositive(s.workers, ComingWeight);
    }
    forall i | 0 <= i < |s.submitters|
      ensures s.submitters[i].Idle?
    {
      assert !Enabled(s, Submit(i, 0));
    }
  }

  lemma {:induction false} DrainRun(s: Pool, steps: seq<Step>)
    requires Inv(s) && !s.sh.shutdown && Legal(s, steps)
    requires forall st :: st in steps ==> Working(st)
    ensures Inv(Run(s, steps)) && !Run(s, steps).sh.shutdown
    ensures |steps| + DrainMeasure(Run(s, steps)) <= DrainMeasure(s)
    ensures s.added <= Run(s, steps).added
    decreases |steps|
  {
    if steps != [] {
      var st := steps[0];
      assert Working(st);
      AddedGrows(s, st);
      WorkingDrains(s, st);
      InvStep(s, st);
      hide Apply, Enabled, DrainMeasure, Inv;
      DrainRun(Apply(s, st), steps[1..]);
    }
  }

  lemma AddedGrows(s: Pool, st: Step)
    requires Shape(s) && Enabled(s, st)
    ensures s.added <= Apply(s, st).added
  {
  }

  lemma {:induction false} NoneBegun(steps: seq<Step>)
    requires forall st :: st in steps ==> Working(st)
    ensures Begun(steps) == multiset{}
  {
    if steps != [] {
      assert Working(steps[0]);
      NoneBegun(steps[1..]);
    }
  }

  /** Nobody is adding any more: all that was brought has been added. */
  lemma AllAdded(s: Pool, steps: seq<Step>)
    requires Shape(s) && Legal(s, steps) && Begun(steps) == multiset{} && AllIdle(Run(s, steps).submitters)
    ensures multiset(Run(s, steps).added) == multiset(s.added) + Brought(s.submitters)
  {
    hide Legal, Run, Brought;
    NothingLostRun(s, steps);
    BroughtNone(Run(s, steps).submitters);
    var t := Run(s, steps);
    assert multiset{} + multiset(t.added) == multiset(t.added);
    assert Brought(s.submitters) + multiset(s.added) + multiset{} == multiset(s.added) + Brought(s.submitters);
  }

  /** No worker holds a task: all that was taken has been run. */
  lemma AllRun(s: Pool, steps: seq<Step>)
    requires Reachable(s) && Shape(s) && Legal(s, steps)
    requires forall w :: 0 <= w < |Run(s, steps).workers| ==> Run(s, steps).workers[w].Asleep?
    ensures multiset(Run(s, steps).started) == multiset(Run(s, steps).taken)
  {
    hide Reachable, Held, Legal, Run;
    var t := Run(s, steps);
    assert LeadsTo(s, steps, t);
    assert Leads(s, t);
    ReachableThen(s, t);
    EachTaskRunOnce(t);
    HeldNone(t.workers);
  }

  lemma HeldNone(workers: seq<Worker>)
    requires forall w :: 0 <= w < |workers| ==> workers[w].Asleep?
    ensures Held(workers) == multiset{}
  {
    GatheredSame([], workers, HeldBy);
  }

  /** Left to themselves, submitters and workers stop within DrainMeasure steps, and when they
      stop exactly the tasks anyone was adding have been added, and every task added has been
      taken and run, each once. */
  lemma Drains(s: Pool, steps: seq<Step>)
    requires Reachable(s) && !s.sh.shutdown && Legal(s, steps)
    requires forall st :: st in steps ==> Working(st)
    ensures |steps| <= DrainMeasure(s)
    ensures var t := Run(s, steps);
            AtRest(t) ==>
              && t.taken == t.added && s.added <= t.added
              && multiset(t.added) == multiset(s.added) + Brought(s.submitters)
              && multiset(t.started) == multiset(t.added)
              && AllIdle(t.submitters) && forall w :: 0 <= w < |t.workers| ==> t.workers[w].Asleep?
  {
    ReachableInv(s);
    DrainRun(s, steps);
    var t := Run(s, steps);
    if AtRest(t) {
      RestMeansDone(t);
      NoneBegun(steps);
      AllAdded(s, steps);
      AllRun(s, steps);
    }
  }

  // ---------- In any run before shutdown ----------

  /** What a step of anybody else can add: a call of threadpool_add, or ten new workers. */
  function Rise(s: Pool): nat {
    2 * (EffortCap(s) + 1) + 2 * DEFAULT_THREAD_NUM
  }

  function CountWorking(steps: seq<Step>): nat {
    if steps == [] then 0 else (if Working(steps[0]) then 1 else 0) + CountWorking(steps[1..])
  }

  function CountOthers(steps: seq<Step>): nat {
    if steps == [] then 0 else (if Working(steps[0]) then 0 else 1) + CountOthers(steps[1..])
  }

  lemma SignalEffort(workers: seq<Worker>, wake: nat)
    ensures Total(Signal(workers, wake), WorkerEffort) <= Total(workers, WorkerEffort) + 2
  {
    if wake < |workers| && workers[wake].Asleep? {
      TotalUpdate(workers, wake, Woken, WorkerEffort);
    }
  }

  lemma GrowEffort(s: Pool, alive: int)
    requires Inv(s)
    ensures Total(GrowStep(s, alive).workers, WorkerEffort) <= Total(s.workers, WorkerEffort) + 2 * DEFAULT_THREAD_NUM
  {
    assert Shape(s);
    hide Inv, GrowFrom, Total;
    GrowFew(s);
    var n := GrowFrom(s.sh, s.sh.threads, LiveIds(s.workers), |s.workers| + 1, 0, 0).1;
    var extra: seq<Worker> := seq(n, _ => AtTop);
    TotalAppend(s.workers, extra, WorkerEffort);
    TotalBounded(extra, WorkerEffort, 2);
  }

  lemma AdjustRises(s: Pool, wake: nat)
    requires Inv(s) && Enabled(s, Adjust(wake))
    ensures var r := AdjustStep(s, wake);
            && DrainMeasure(r) <= DrainMeasure(s) + 2 * DEFAULT_THREAD_NUM
            && EffortCap(r) == EffortCap(s) && r.sh.shutdown == s.sh.shutdown
  {
    hide QueueOk, CountsOk, HolderOk, WakeOk, FullOk, TableOk, LifeOk, Total, Signal, GrowFrom;
    SignalEffort(s.workers, wake);
    if s.adjuster.Deciding? {
      GrowEffort(s, s.adjuster.alive);
    }
  }

  lemma BeginRises(s: Pool, i: nat, task: Task)
    requires Inv(s) && Enabled(s, Begin(i, task))
    ensures DrainMeasure(Apply(s, Begin(i, task))) <= DrainMeasure(s) + Rise(s)
  {
    hide Inv, Total;
    TotalUpdate(s.submitters, i, Wanting(task), Pending);
    TotalUpdate(s.submitters, i, Wanting(task), SubmitterEffort);
    var c := EffortCap(s) + 1;
    assert (Demand(s) + 2) * c == Demand(s) * c + 2 * c;
  }

  /** Any step that is not theirs and not the start of shutting down. */
  lemma OthersRise(s: Pool, st: Step)
    requires Inv(s) && !s.sh.shutdown && Enabled(s, st) && !Working(st) && !st.SetShutdown?
    ensures DrainMeasure(Apply(s, st)) <= DrainMeasure(s) + Rise(s) && EffortCap(Apply(s, st)) == EffortCap(s)
  {
    hide QueueOk, CountsOk, HolderOk, WakeOk, FullOk, TableOk, Total, AdjustStep;
    match st
    case Begin(i, task) => BeginRises(s, i, task);
    case SpuriousFull(i) =>
      TotalUpdate(s.submitters, i, WokenFull(s.submitters[i].task), Pending);
      TotalUpdate(s.submitters, i, WokenFull(s.submitters[i].task), SubmitterEffort);
    case SpuriousEmpty(w) => TotalUpdate(s.workers, w, Woken, WorkerEffort);
    case Adjust(wake) => AdjustRises(s, wake);
    case _ =>
  }

  lemma StaysShutStep(s: Pool, st: Step)
    requires Shape(s) && s.sh.shutdown && Enabled(s, st)
    ensures Apply(s, st).sh.shutdown
  {
  }

  lemma {:induction false} StaysShut(s: Pool, steps: seq<Step>)
    requires Shape(s) && s.sh.shutdown && Legal(s, steps)
    ensures Run(s, steps).sh.shutdown
    decreases |steps|
  {
    hide Apply, Enabled;
    if steps != [] {
      StaysShutStep(s, steps[0]);
      StaysShut(Apply(s, steps[0]), steps[1..]);
    }
  }

  lemma WorkingCap(s: Pool, st: Step)
    requires Shape(s) && Enabled(s, st) && Working(st)
    ensures EffortCap(Apply(s, st)) == EffortCap(s)
  {
  }

  /** Steps left to submitters and workers, with n steps of others to come. */
  function Allowance(s: Pool, n: nat): nat {
    DrainMeasure(s) + Rise(s) * n
  }

  lemma AllowanceFalls(s: Pool, st: Step, n: nat)
    requires Inv(s) && !s.sh.shutdown && Enabled(s, st) && !st.SetShutdown?
    ensures Working(st) ==> Allowance(Apply(s, st), n) + 1 <= Allowance(s, n)
    ensures !Working(st) ==> Allowance(Apply(s, st), n) <= Allowance(s, n + 1)
  {
    assert Shape(s);
    hide Inv, Enabled, Apply, DrainMeasure, Working, EffortCap, Allowance;
    var r := Apply(s, st);
    if Working(st) {
      WorkingDrains(s, st);
      WorkingCap(s, st);
      AllowanceSame(s, r, n);
    } else {
      OthersRise(s, st);
      AllowanceSame(s, r, n);
      AllowanceNext(s, n);
    }
  }

  lemma AllowanceSame(s: Pool, r: Pool, n: nat)
    requires EffortCap(r) == EffortCap(s)
    ensures Allowance(r, n) - DrainMeasure(r) == Allowance(s, n) - DrainMeasure(s)
  {
    hide EffortCap, DrainMeasure;
  }

  lemma AllowanceNext(s: Pool, n: nat)
    ensures Allowance(s, n + 1) == Allowance(s, n) + Rise(s)
  {
    hide Rise, DrainMeasure;
  }

  lemma NotYetShut(s: Pool, st: Step, rest: seq<Step>)
    requires Shape(s) && Enabled(s, st) && Legal(Apply(s, st), rest) && !Run(Apply(s, st), rest).sh.shutdown
    ensures !s.sh.shutdown && !st.SetShutdown?
  {
    if Apply(s, st).sh.shutdown {
      StaysShut(Apply(s, st), rest);
      assert false;
    }
    if s.sh.shutdown {
      StaysShutStep(s, st);
      assert false;
    }
  }

  /** A run during which nobody starts shutting down. */
  ghost predicate StaysOpen(s: Pool, steps: seq<Step>)
    requires Shape(s)
    decreases |steps|
  {
    && !s.sh.shutdown
    && (steps == [] ||
        (Enabled(s, steps[0]) && !steps[0].SetShutdown? && StaysOpen(Apply(s, steps[0]), steps[1..])))
  }

  lemma {:induction false} OpenRun(s: Pool, steps: seq<Step>)
    requires Shape(s) && Legal(s, steps) && !Run(s, steps).sh.shutdown
    ensures StaysOpen(s, steps)
    decreases |steps|
  {
    hide Apply, Enabled;
    if steps != [] {
      NotYetShut(s, steps[0], steps[1..]);
      OpenRun(Apply(s, steps[0]), steps[1..]);
    }
  }

  lemma {:induction false} WorkRun(s: Pool, steps: seq<Step>)
    requires Inv(s) && Shape(s) && StaysOpen(s, steps)
    ensures CountWorking(steps) <= Allowance(s, CountOthers(steps))
    decreases |steps|
  {
    hide Apply, Enabled, Inv, Working, Allowance, Shape;
    if steps != [] {
      InvStep(s, steps[0]);
      WorkRun(Apply(s, steps[0]), steps[1..]);
      AllowanceFalls(s, steps[0], CountOthers(steps[1..]));
    }
  }

  /** In every run before shutdown submitters and workers take boundedly many steps for each step
      of anybody else: a new call, a move of the adjuster, an unsignalled wakeup. */
  lemma WorkIsBounded(s: Pool, steps: seq<Step>)
    requires Reachable(s) && Legal(s, steps) && !Run(s, steps).sh.shutdown
    ensures CountWorking(steps) <= DrainMeasure(s) + Rise(s) * CountOthers(steps)
  {
    ReachableInv(s);
    OpenRun(s, steps);
    WorkRun(s, steps);
  }
}
