/** 013threadPoll/threadpool.c: what becomes of each task, from the call that brings it to the
    worker that runs it. */
module PoolTasks {
  import opened Multisets
  import opened Remainders
  import opened TaskRing
  import opened PoolSections
  import opened PoolProtocol
  import opened PoolInvariants
  import opened PoolTheorems

  // ---------- From the callers into the queue ----------

  function Carried(u: Submitter): multiset<Task> {
    if u.Idle? then multiset{} else multiset{u.task}
  }

  /** The tasks of the callers that are inside threadpool_add. */
  function Brought(submitters: seq<Submitter>): multiset<Task> {
    Gathered(submitters, Carried)
  }

  lemma BroughtNone(submitters: seq<Submitter>)
    requires AllIdle(submitters)
    ensures Brought(submitters) == multiset{}
  {
    GatheredSame([], submitters, Carried);
  }

  /** A call that returns has added its own task, and until then it keeps it. */
  lemma ReturnsOnceAdded(s: Pool, st: Step, i: nat)
    requires Shape(s) && Enabled(s, st) && i < |s.submitters| && !s.submitters[i].Idle?
    ensures |Apply(s, st).submitters| == |s.submitters|
    ensures var r := Apply(s, st);
            var task := s.submitters[i].task;
            if r.submitters[i].Idle? then r.added == s.added + [task]
            else r.submitters[i].task == task
  {
    hide GrowFrom;
  }

  /** No task is lost, doubled or made up on its way into the queue: the tasks being brought and
      those added grow by exactly the task each new call brings. */
  lemma NothingLost(s: Pool, st: Step)
    requires Shape(s) && Enabled(s, st)
    ensures var r := Apply(s, st);
            var before, after := Brought(s.submitters) + multiset(s.added), Brought(r.submitters) + multiset(r.added);
            && (st.Begin? ==> after == before + multiset{st.task})
            && (!st.Begin? ==> after == before)
  {
    hide Gathered;
    match st
    case Begin(i, task) => BeginBrings(s, i, task);
    case Submit(i, wake) => SubmitLosesNothing(s, i, wake);
    case SpuriousFull(i) =>
      GatheredSame(s.submitters, s.submitters[i := WokenFull(s.submitters[i].task)], Carried);
    case Pick(_) => GatheredSame(s.submitters, WakeFull(s.submitters), Carried);
    case _ => NoCaller(s, st);
  }

  lemma BeginBrings(s: Pool, i: nat, task: Task)
    requires Shape(s) && Enabled(s, Begin(i, task))
    ensures Brought(s.submitters[i := Wanting(task)]) == Brought(s.submitters) + multiset{task}
  {
    hide Gathered;
    GatheredUpdate(s.submitters, i, Wanting(task), Carried);
    assert Brought(s.submitters[i := Wanting(task)]) + multiset{} == Brought(s.submitters) + multiset{task};
  }

  lemma SubmitLosesNothing(s: Pool, i: nat, wake: nat)
    requires Shape(s) && Enabled(s, Submit(i, wake))
    ensures var r := SubmitStep(s, i, wake);
            Brought(r.submitters) + multiset(r.added) == Brought(s.submitters) + multiset(s.added)
  {
    hide Gathered, Signal;
    var r := SubmitStep(s, i, wake);
    GatheredUpdate(s.submitters, i, r.submitters[i], Carried);
    Exchange(Brought(s.submitters), multiset(s.added), Brought(r.submitters), multiset(r.added),
             Carried(s.submitters[i]), Carried(r.submitters[i]));
  }

  lemma NoCaller(s: Pool, st: Step)
    requires Shape(s) && Enabled(s, st) && !st.Begin? && !st.Submit? && !st.SpuriousFull? && !st.Pick?
    ensures Apply(s, st).submitters == s.submitters && Apply(s, st).added == s.added
  {
    hide GrowFrom;
  }

  /** A caller whose wait ends unsignalled tests again, and with the queue still full is back where
      it was. */
  lemma TestsAgain(s: Pool, i: nat, wake: nat)
    requires Reachable(s) && !s.sh.shutdown && i < |s.submitters| && s.submitters[i].AsleepFull?
    requires LockFree(s.workers) && SignalOk(s.workers, wake)
    ensures Shape(s) && Enabled(s, SpuriousFull(i))
    ensures var woken := Apply(s, SpuriousFull(i));
            Enabled(woken, Submit(i, wake)) && Apply(woken, Submit(i, wake)) == s
  {
    ReachableInv(s);
    hide QueueOk, CountsOk, HolderOk, WakeOk, TableOk;
  }

  /** The tasks that calls begin in a run. */
  function Begun(steps: seq<Step>): multiset<Task> {
    if steps == [] then multiset{}
    else (if steps[0].Begin? then multiset{steps[0].task} else multiset{}) + Begun(steps[1..])
  }

  /** Over whole runs: what was brought is added or still being brought. */
  lemma {:induction false} NothingLostRun(s: Pool, steps: seq<Step>)
    requires Shape(s) && Legal(s, steps)
    ensures var t := Run(s, steps);
            Brought(t.submitters) + multiset(t.added) == Brought(s.submitters) + multiset(s.added) + Begun(steps)
    decreases |steps|
  {
    hide Apply, Enabled, Brought;
    if steps == [] {
      assert Begun(steps) == multiset{};
    } else {
      NothingLost(s, steps[0]);
      NothingLostRun(Apply(s, steps[0]), steps[1..]);
    }
  }

  // ---------- From the queue to the workers ----------

  /** A worker takes the oldest task added and not yet taken, and that is the one it holds. */
  lemma TakesNext(s: Pool, w: nat)
    requires Reachable(s) && Enabled(s, Pick(w))
    ensures |s.taken| < |s.added|
    ensures var next := s.added[|s.taken|];
            var r := Apply(s, Pick(w));
            r.workers[w] == Holding(next) && r.taken == s.taken + [next]
  {
    Fifo(s);
    var ring := s.sh.ring;
    hide Wrap;
    Small(ring.front, |ring.slots|);
    assert Contents(ring)[0] == ring.slots[ring.front];
  }

  /** What a worker holds it keeps until it runs it; what it runs it held; and it runs it until the
      task returns. */
  lemma RunsWhatItHolds(s: Pool, st: Step, w: nat, x: Task)
    requires Shape(s) && Enabled(s, st) && w < |s.workers|
    ensures w < |Apply(s, st).workers|
    ensures var before, after := s.workers[w], Apply(s, st).workers[w];
            && (before == Holding(x) ==>
                  after == before || (after == Running(x) && Apply(s, st).started == s.started + [x]))
            && (before == Running(x) ==> after == before || (st == Finish(w) && after == AtTop))
            && (after == Running(x) && before != after ==> before == Holding(x))
            && (after == Holding(x) && before != after ==> st == Pick(w))
  {
    hide GrowFrom;
  }

  function HeldBy(w: Worker): multiset<Task> {
    if w.Holding? then multiset{w.task} else multiset{}
  }

  /** The tasks taken and not yet started. */
  function Held(workers: seq<Worker>): multiset<Task> {
    Gathered(workers, HeldBy)
  }

  /** Every task taken is started once or still held. */
  ghost predicate StartedOk(s: Pool) {
    && multiset(s.started) + Held(s.workers) == multiset(s.taken)
    && s.sh.busy == |s.started|
  }

  lemma StartedStep(s: Pool, st: Step)
    requires Shape(s) && StartedOk(s) && Enabled(s, st)
    ensures StartedOk(Apply(s, st))
  {
    hide Gathered;
    match st
    case Work(w) => WorkHolds(s, w);
    case Settle(w) => GatheredSame(s.workers, s.workers[w := Asleep], HeldBy);
    case Pick(w) => PickHolds(s, w);
    case Commence(w) => CommenceHolds(s, w);
    case Finish(w) => GatheredSame(s.workers, s.workers[w := AtTop], HeldBy);
    case SpuriousEmpty(w) => GatheredSame(s.workers, s.workers[w := Woken], HeldBy);
    case _ => NoWorker(s, st);
  }

  lemma WorkHolds(s: Pool, w: nat)
    requires Shape(s) && Enabled(s, Work(w))
    ensures var r := WorkStep(s, w);
            && Held(r.workers) == Held(s.workers)
            && r.taken == s.taken && r.started == s.started && r.sh.busy == s.sh.busy
  {
    hide Gathered;
    GatheredSame(s.workers, WorkStep(s, w).workers, HeldBy);
  }

  lemma PickHolds(s: Pool, w: nat)
    requires Shape(s) && StartedOk(s) && Enabled(s, Pick(w))
    ensures StartedOk(PickStep(s, w))
  {
    hide Gathered, WakeFull;
    var r := PickStep(s, w);
    GatheredUpdate(s.workers, w, r.workers[w], HeldBy);
    var task := r.workers[w].task;
    assert Held(r.workers) + multiset{} == Held(s.workers) + multiset{task};
    assert Held(r.workers) == Held(s.workers) + multiset{task};
    assert multiset(r.taken) == multiset(s.taken) + multiset{task};
  }

  lemma CommenceHolds(s: Pool, w: nat)
    requires Shape(s) && StartedOk(s) && Enabled(s, Commence(w))
    ensures StartedOk(Apply(s, Commence(w)))
  {
    hide Gathered;
    var r := Apply(s, Commence(w));
    GatheredUpdate(s.workers, w, r.workers[w], HeldBy);
    Exchange(multiset(s.started), Held(s.workers), multiset(r.started), Held(r.workers),
             multiset{}, HeldBy(s.workers[w]));
  }

  lemma AdjustHolds(s: Pool, wake: nat)
    requires Shape(s) && Enabled(s, Adjust(wake))
    ensures var r := AdjustStep(s, wake);
            && Held(r.workers) == Held(s.workers)
            && r.taken == s.taken && r.started == s.started && r.sh.busy == s.sh.busy
  {
    hide Gathered, GrowFrom, Signal;
    SignalHolds(s.workers, wake);
    if s.adjuster.Deciding? {
      GatheredSame(s.workers, GrowStep(s, s.adjuster.alive).workers, HeldBy);
    }
  }

  lemma SignalHolds(workers: seq<Worker>, wake: nat)
    ensures Held(Signal(workers, wake)) == Held(workers)
  {
    hide Gathered;
    GatheredSame(workers, Signal(workers, wake), HeldBy);
  }

  /** Steps in which no worker moves of itself. */
  lemma NoWorker(s: Pool, st: Step)
    requires Shape(s) && Enabled(s, st) && !st.Work? && !st.Settle? && !st.Pick? && !st.Commence?
    requires !st.Finish? && !st.SpuriousEmpty?
    ensures var r := Apply(s, st);
            && Held(r.workers) == Held(s.workers)
            && r.taken == s.taken && r.started == s.started && r.sh.busy == s.sh.busy
  {
    hide Gathered, Signal, AdjustStep;
    match st
    case Adjust(wake) => AdjustHolds(s, wake);
    case Submit(_, wake) => SignalHolds(s.workers, wake);
    case Broadcast => GatheredSame(s.workers, WakeAll(s.workers), HeldBy);
    case _ =>
  }

  lemma {:induction false} StartedRun(s: Pool, steps: seq<Step>)
    requires Shape(s) && StartedOk(s) && Legal(s, steps)
    ensures StartedOk(Run(s, steps))
    decreases |steps|
  {
    hide Apply, Enabled, StartedOk;
    if steps != [] {
      StartedStep(s, steps[0]);
      StartedRun(Apply(s, steps[0]), steps[1..]);
    }
  }

  /** In every run each task taken is started exactly once, or is still in a worker's hands; the
      busy count is of those started. */
  lemma EachTaskRunOnce(s: Pool)
    requires Reachable(s)
    ensures multiset(s.started) + Held(s.workers) == multiset(s.taken)
    ensures s.sh.busy == |s.started|
  {
    hide Legal, Run, StartedOk;
    var min: nat, max: nat, queueMax: nat, n: nat, steps :|
      1 <= queueMax && 1 <= min <= max && LeadsTo(Start(min, max, queueMax, n), steps, s);
    StartStarted(min, max, queueMax, n);
    StartedRun(Start(min, max, queueMax, n), steps);
    StartedParts(s);
  }

  lemma StartedParts(s: Pool)
    requires StartedOk(s)
    ensures multiset(s.started) + Held(s.workers) == multiset(s.taken) && s.sh.busy == |s.started|
  {
  }

  lemma StartStarted(min: nat, max: nat, queueMax: nat, n: nat)
    requires 1 <= queueMax && 1 <= min <= max
    ensures StartedOk(Start(min, max, queueMax, n))
  {
    GatheredSame([], Start(min, max, queueMax, n).workers, HeldBy);
  }
}
