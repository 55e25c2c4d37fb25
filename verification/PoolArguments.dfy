/** 013threadPoll/threadpool.c, lines 127-130 and 200: an argument is freed one lap after its task
    was added, whether or not that task has finished. */
module PoolArguments {
  import opened TaskRing
  import opened PoolSections
  import opened PoolProtocol
  import opened PoolInvariants
  import opened PoolTheorems
  import opened PoolSchedules

  ghost predicate FreedWhileRunning(s: Pool) {
    exists w :: 0 <= w < |s.workers| && s.workers[w].Running? && s.workers[w].task.args in s.freed
  }

  /** Some run with distinct arguments frees the argument of a task that is still running. */
  ghost predicate CanFreeWhileRunning(min: nat, max: nat, queueMax: nat) {
    exists s :: Leads(Start(min, max, queueMax, 1), s) && DistinctArgs(s.added) && FreedWhileRunning(s)
  }

  /** A worker of a new pool has taken the first task, with argument 1, and is running it. */
  lemma FirstRuns(min: nat, max: nat, queueMax: nat) returns (t: Pool)
    requires 1 <= queueMax && 1 <= min <= max
    ensures Leads(Start(min, max, queueMax, 1), t) && Shape(t) && Quiet(t.workers) && t.submitters == [Idle]
    ensures t.destroyer.NotCalled? && !t.sh.shutdown && t.sh.ring.size == 0 && |t.sh.ring.slots| == queueMax
    ensures t.added == [Task(0, 1)] && |t.workers| >= 1 && t.workers[0] == Running(Task(0, 1))
  {
    hide Leads;
    var s := Start(min, max, queueMax, 1);
    var task := Task(0, 1);
    LeadsNowhere(s);
    Then(s, s, Begin(0, task));
    var t1 := Apply(s, Begin(0, task));
    Then(s, t1, Submit(0, 0));
    var t2 := Apply(t1, Submit(0, 0));
    Then(s, t2, Work(0));
    var t3 := Apply(t2, Work(0));
    Then(s, t3, Pick(0));
    var t4 := Apply(t3, Pick(0));
    Then(s, t4, Commence(0));
    t := Apply(t4, Commence(0));
  }

  /** It can happen to every pool, whatever its sizes. */
  lemma ArgumentFreedWhileRunning(min: nat, max: nat, queueMax: nat)
    requires 1 <= queueMax && 1 <= min <= max
    ensures CanFreeWhileRunning(min, max, queueMax)
  {
    var s := Start(min, max, queueMax, 1);
    var t := FirstRuns(min, max, queueMax);
    var u := Fill(s, t, queueMax);
    assert LeadsTo(s, [], s) && Reachable(s);
    ReachableThen(s, u);
    OneLap(u, queueMax);
    assert u.workers[0].task.args in u.freed;
  }

  lemma OneLap(u: Pool, m: nat)
    requires Reachable(u) && m == |u.sh.ring.slots|
    requires u.added == [Task(0, 1)] + seq(m, _ => NOTHING)
    ensures u.freed == [1] && DistinctArgs(u.added)
  {
    ReachableInv(u);
    assert Older(u.added, m) == [Task(0, 1)];
    NonNullOne(Task(0, 1));
  }
}
