/** 013threadPoll/threadpool.c: the pool's threads as a step relation. The shared fields change
    only under the pool's lock, except that threadpool_destroy sets `shutdown` and broadcasts
    without it. A worker's locked block is therefore two steps, its tests and what they lead to,
    with the lock held in between; every other locked block is one step. */
module PoolProtocol {
  import opened Totals
  import opened TaskRing
  import opened PoolSections

  /** A worker: about to lock; holding the lock between its test at line 159 and its wait at 161;
      waiting on queue_not_empty; out of that wait but not yet holding the lock again; holding the
      lock between its test at 175 and taking a task; between taking it and counting itself busy;
      in the task; or gone. */
  datatype Worker =
    | AtTop | Settling | Asleep | Woken | Picking | Holding(task: Task) | Running(task: Task) | Exited

  /** A caller of threadpool_add, with the task it brings. */
  datatype Submitter = Idle | Wanting(task: Task) | AsleepFull(task: Task) | WokenFull(task: Task)

  /** The adjuster, with its local copies of the counts. */
  datatype Adjuster =
    | Checking | Sampling | Deciding(queueSize: nat, alive: int) | CountingBusy(alive: int)
    | Judging(busy: nat, alive: int) | Signalling(sent: nat) | Resting | Gone

  /** The caller of threadpool_destroy. */
  datatype Destroyer = NotCalled | JoiningAdjuster | Broadcasting | JoiningWorkers(i: nat) | Freed

  /** The shared fields, every thread, and the tasks added, taken and started and the arguments
      freed so far. Worker k has thread id k + 1. */
  datatype Pool = Pool(
    sh: Shared, workers: seq<Worker>, submitters: seq<Submitter>, adjuster: Adjuster, destroyer: Destroyer,
    added: seq<Task>, taken: seq<Task>, started: seq<Task>, freed: seq<nat>)

  /** Indices stay inside the arrays. */
  ghost predicate Shape(s: Pool) {
    && s.sh.ring.front < |s.sh.ring.slots|
    && s.sh.ring.rear < |s.sh.ring.slots|
    && |s.sh.threads| == s.sh.max
  }

  /** The pool threadpool_create returns, with n threads that may submit. */
  function Start(min: nat, max: nat, queueMax: nat, n: nat): Pool {
    Pool(Initial(min, max, queueMax), seq(min, _ => AtTop), seq(n, _ => Idle), Checking, NotCalled, [], [], [], [])
  }

  /** One step; `wake` names the sleeper a signal wakes. */
  datatype Step =
    | Begin(i: nat, task: Task)        // a caller enters threadpool_add
    | Submit(i: nat, wake: nat)        // its locked block
    | SpuriousFull(i: nat)             // its wait ends unsignalled
    | Work(w: nat)                     // a worker takes the lock and makes its tests
    | Settle(w: nat)                   // it starts to wait, giving up the lock
    | Pick(w: nat)                     // it takes a task and unlocks
    | Commence(w: nat)                 // it counts itself busy
    | Finish(w: nat)                   // the task returns
    | SpuriousEmpty(w: nat)            // its wait ends unsignalled
    | Adjust(wake: nat)                // the adjuster's next block
    | SetShutdown                      // threadpool_destroy, and its steps below
    | JoinAdjuster
    | Broadcast
    | JoinWorker
    | Free

  ghost predicate AnyAsleep(workers: seq<Worker>) {
    exists w :: 0 <= w < |workers| && workers[w].Asleep?
  }

  predicate Locks(w: Worker) {
    w.Settling? || w.Picking?
  }

  /** No worker is inside its locked block. */
  ghost predicate LockFree(workers: seq<Worker>) {
    forall w :: 0 <= w < |workers| ==> !Locks(workers[w])
  }

  /** The adjuster's next block is one that takes the pool's lock. */
  predicate NeedsLock(sh: Shared, adjuster: Adjuster) {
    match adjuster
    case Sampling => true
    case Deciding(queueSize, alive) => WantsMore(sh, queueSize, alive)
    case Judging(busy, alive) => WantsFewer(sh, busy, alive)
    case _ => false
  }

  /** A signal must wake a sleeper when there is one. */
  ghost predicate SignalOk(workers: seq<Worker>, wake: nat) {
    AnyAsleep(workers) ==> wake < |workers| && workers[wake].Asleep?
  }

  function Signal(workers: seq<Worker>, wake: nat): seq<Worker> {
    if wake < |workers| && workers[wake].Asleep? then workers[wake := Woken] else workers
  }

  function WakeAll(workers: seq<Worker>): seq<Worker> {
    seq(|workers|, w requires 0 <= w < |workers| => if workers[w].Asleep? then Woken else workers[w])
  }

  function WakeFull(submitters: seq<Submitter>): seq<Submitter> {
    seq(|submitters|, i requires 0 <= i < |submitters| =>
      if submitters[i].AsleepFull? then WokenFull(submitters[i].task) else submitters[i])
  }

  function LiveIds(workers: seq<Worker>): set<nat> {
    set w | 0 <= w < |workers| && !workers[w].Exited? :: w + 1
  }

  ghost predicate AllIdle(submitters: seq<Submitter>) {
    forall i :: 0 <= i < |submitters| ==> submitters[i].Idle?
  }

  /** The thread in entry i of the table has exited. */
  predicate ExitedEntry(threads: seq<nat>, workers: seq<Worker>, i: nat)
    requires i < |threads|
  {
    1 <= threads[i] <= |workers| && workers[threads[i] - 1].Exited?
  }

  /** After threadpool_free nothing more is modelled, and no threadpool_add overlaps or follows
      the start of threadpool_destroy. That a picking worker finds a task is an invariant. */
  ghost predicate Enabled(s: Pool, st: Step)
    requires Shape(s)
  {
    && s.destroyer != Freed
    && match st
       case Begin(i, _) => i < |s.submitters| && s.submitters[i].Idle? && s.destroyer.NotCalled?
       case Submit(i, wake) =>
         && i < |s.submitters|
         && (s.submitters[i].Wanting? || s.submitters[i].WokenFull?)
         && LockFree(s.workers) && SignalOk(s.workers, wake)
       case SpuriousFull(i) => i < |s.submitters| && s.submitters[i].AsleepFull?
       case Work(w) => w < |s.workers| && (s.workers[w].AtTop? || s.workers[w].Woken?) && LockFree(s.workers)
       case Settle(w) => w < |s.workers| && s.workers[w].Settling?
       case Pick(w) => w < |s.workers| && s.workers[w].Picking? && s.sh.ring.size > 0
       case Commence(w) => w < |s.workers| && s.workers[w].Holding?
       case Finish(w) => w < |s.workers| && s.workers[w].Running?
       case SpuriousEmpty(w) => w < |s.workers| && s.workers[w].Asleep?
       case Adjust(wake) =>
         s.adjuster != Gone && SignalOk(s.workers, wake) && (NeedsLock(s.sh, s.adjuster) ==> LockFree(s.workers))
       case SetShutdown => s.destroyer.NotCalled? && AllIdle(s.submitters)
       case JoinAdjuster => s.destroyer.JoiningAdjuster? && s.adjuster.Gone?
       case Broadcast => s.destroyer.Broadcasting?
       case JoinWorker =>
         && s.destroyer.JoiningWorkers? && s.destroyer.i < s.sh.min && s.destroyer.i < |s.sh.threads|
         && ExitedEntry(s.sh.threads, s.workers, s.destroyer.i)
       case Free => s.destroyer.JoiningWorkers? && s.destroyer.i >= s.sh.min
  }

  function SubmitStep(s: Pool, i: nat, wake: nat): (r: Pool)
    requires Shape(s) && i < |s.submitters| && !s.submitters[i].Idle?
    ensures Shape(r)
  {
    var task := s.submitters[i].task;
    var (sh, out) := AddSection(s.sh, task);
    match out
    case QueueFull => s.(submitters := s.submitters[i := AsleepFull(task)])
    case Stored(freed) =>
      s.(sh := sh, submitters := s.submitters[i := Idle], workers := Signal(s.workers, wake),
         added := s.added + [task], freed := s.freed + freed)
  }

  function AfterTest(out: TestOutcome): Worker {
    match out
    case Waits => Settling
    case Proceeds => Picking
    case Retires => Exited
    case Quits => Exited
  }

  function WorkStep(s: Pool, w: nat): (r: Pool)
    requires Shape(s) && w < |s.workers|
    ensures Shape(r)
  {
    var (sh, out) := TestSection(s.sh, s.workers[w].Woken?);
    s.(sh := sh, workers := s.workers[w := AfterTest(out)])
  }

  function PickStep(s: Pool, w: nat): (r: Pool)
    requires Shape(s) && w < |s.workers| && s.sh.ring.size > 0
    ensures Shape(r)
  {
    var task := s.sh.ring.slots[s.sh.ring.front];
    s.(sh := s.sh.(ring := Take(s.sh.ring)), workers := s.workers[w := Holding(task)],
       submitters := WakeFull(s.submitters), taken := s.taken + [task])
  }

  function GrowStep(s: Pool, alive: int): (r: Pool)
    requires Shape(s)
    ensures Shape(r)
  {
    var (threads, n) := GrowFrom(s.sh, s.sh.threads, LiveIds(s.workers), |s.workers| + 1, 0, 0);
    s.(sh := s.sh.(threads := threads), workers := s.workers + seq(n, _ => AtTop), adjuster := CountingBusy(alive + n))
  }

  function AdjustStep(s: Pool, wake: nat): (r: Pool)
    requires Shape(s)
    ensures Shape(r)
  {
    match s.adjuster
    case Checking => s.(adjuster := if s.sh.shutdown then Gone else Sampling)
    case Sampling => s.(adjuster := Deciding(s.sh.ring.size, s.sh.alive))
    case Deciding(queueSize, alive) =>
      if WantsMore(s.sh, queueSize, alive) then GrowStep(s, alive) else s.(adjuster := CountingBusy(alive))
    case CountingBusy(alive) => s.(adjuster := Judging(s.sh.busy, alive))
    case Judging(busy, alive) =>
      if WantsFewer(s.sh, busy, alive) then
        s.(sh := s.sh.(waitExit := DEFAULT_THREAD_NUM), adjuster := Signalling(0))
      else s.(adjuster := Resting)
    case Signalling(sent) =>
      s.(workers := Signal(s.workers, wake),
         adjuster := if sent + 1 < DEFAULT_THREAD_NUM then Signalling(sent + 1) else Resting)
    case Resting => s.(adjuster := Checking)
    case Gone => s
  }

  function Apply(s: Pool, st: Step): (r: Pool)
    requires Shape(s) && Enabled(s, st)
    ensures Shape(r)
  {
    match st
    case Begin(i, task) => s.(submitters := s.submitters[i := Wanting(task)])
    case Submit(i, wake) => SubmitStep(s, i, wake)
    case SpuriousFull(i) => s.(submitters := s.submitters[i := WokenFull(s.submitters[i].task)])
    case Work(w) => WorkStep(s, w)
    case Settle(w) => s.(workers := s.workers[w := Asleep])
    case Pick(w) => PickStep(s, w)
    case Commence(w) =>
      s.(sh := s.sh.(busy := s.sh.busy + 1), workers := s.workers[w := Running(s.workers[w].task)],
         started := s.started + [s.workers[w].task])
    case Finish(w) => s.(workers := s.workers[w := AtTop])
    case SpuriousEmpty(w) => s.(workers := s.workers[w := Woken])
    case Adjust(wake) => AdjustStep(s, wake)
    case SetShutdown => s.(sh := s.sh.(shutdown := true), destroyer := JoiningAdjuster)
    case JoinAdjuster => s.(destroyer := Broadcasting)
    case Broadcast => s.(workers := WakeAll(s.workers), destroyer := JoiningWorkers(0))
    case JoinWorker => s.(destroyer := JoiningWorkers(s.destroyer.i + 1))
    case Free => s.(destroyer := Freed)
  }

  // ---------- Runs ----------

  ghost predicate Legal(s: Pool, steps: seq<Step>)
    requires Shape(s)
    decreases |steps|
  {
    steps == [] || (Enabled(s, steps[0]) && Legal(Apply(s, steps[0]), steps[1..]))
  }

  ghost function Run(s: Pool, steps: seq<Step>): (r: Pool)
    requires Shape(s) && Legal(s, steps)
    ensures Shape(r)
    decreases |steps|
  {
    if steps == [] then s else Run(Apply(s, steps[0]), steps[1..])
  }

  lemma {:induction false} RunConcat(s: Pool, x: seq<Step>, y: seq<Step>)
    requires Shape(s) && Legal(s, x) && Legal(Run(s, x), y)
    ensures Legal(s, x + y) && Run(s, x + y) == Run(Run(s, x), y)
    decreases |x|
  {
    hide Apply, Enabled;
    var xy := x + y;
    if x == [] {
      assert xy == y;
    } else {
      var next := Apply(s, x[0]);
      RunConcat(next, x[1..], y);
      assert xy[0] == x[0] && xy[1..] == x[1..] + y;
      assert Legal(next, xy[1..]);
    }
  }

  // ---------- Weights ----------

  /** On the way to a task: woken, or holding the lock to take one. */
  function ComingWeight(w: Worker): nat { if w.Woken? || w.Picking? then 1 else 0 }

  function PickingWeight(w: Worker): nat { if w.Picking? then 1 else 0 }

  function HoldingWeight(w: Worker): nat { if w.Holding? then 1 else 0 }
}
