/** 013threadPoll/threadpool.c: building runs of the pool a step at a time, to show what can happen. */
module PoolSchedules {
  import opened TaskRing
  import opened PoolSections
  import opened PoolProtocol
  import opened PoolTheorems

  ghost predicate Leads(s: Pool, t: Pool) {
    exists steps :: LeadsTo(s, steps, t)
  }

  lemma LeadsNowhere(s: Pool)
    requires Shape(s)
    ensures Leads(s, s)
  {
    assert LeadsTo(s, [], s);
  }

  lemma OneStep(s: Pool, st: Step)
    requires Shape(s) && Enabled(s, st)
    ensures LeadsTo(s, [st], Apply(s, st))
  {
    hide Apply, Enabled;
    assert [st][1..] == [];
    assert Legal(Apply(s, st), []);
    assert Legal(s, [st]) && Run(s, [st]) == Apply(s, st);
  }

  lemma Then(s: Pool, t: Pool, st: Step)
    requires Leads(s, t) && Shape(t) && Enabled(t, st)
    ensures Leads(s, Apply(t, st)) && Shape(Apply(t, st))
  {
    OneStep(t, st);
    var steps :| LeadsTo(s, steps, t);
    RunConcat(s, steps, [st]);
    assert LeadsTo(s, steps + [st], Apply(t, st));
  }

  /** Whatever a reachable state leads to is reachable. */
  lemma ReachableThen(s: Pool, t: Pool)
    requires Reachable(s) && Leads(s, t)
    ensures Reachable(t)
  {
    hide Legal, Run, Start, Shape;
    var min: nat, max: nat, queueMax: nat, n: nat, steps :|
      1 <= queueMax && 1 <= min <= max && LeadsTo(Start(min, max, queueMax, n), steps, s);
    var more :| LeadsTo(s, more, t);
    RunConcat(Start(min, max, queueMax, n), steps, more);
    assert LeadsTo(Start(min, max, queueMax, n), steps + more, t);
  }

  lemma ReachableStep(s: Pool, st: Step)
    requires Reachable(s) && Shape(s) && Enabled(s, st)
    ensures Reachable(Apply(s, st))
  {
    hide Apply, Enabled, Legal, Run, Reachable;
    OneStep(s, st);
    assert Leads(s, Apply(s, st));
    ReachableThen(s, Apply(s, st));
  }

  lemma LeadsOn(s: Pool, t: Pool, u: Pool)
    requires Leads(s, t) && Leads(t, u)
    ensures Leads(s, u)
  {
    var steps :| LeadsTo(s, steps, t);
    var more :| LeadsTo(t, more, u);
    RunConcat(s, steps, more);
    assert LeadsTo(s, steps + more, u);
  }

  /** No worker waits and none holds the lock. */
  ghost predicate Quiet(workers: seq<Worker>) {
    !AnyAsleep(workers) && LockFree(workers)
  }

  const NOTHING := Task(0, NULL)

  /** One submitter adds k tasks without arguments while no worker moves. */
  lemma {:induction false} Fill(s: Pool, t: Pool, k: nat) returns (u: Pool)
    requires Leads(s, t) && Shape(t) && Quiet(t.workers) && t.submitters == [Idle]
    requires t.destroyer.NotCalled? && !t.sh.shutdown && t.sh.ring.size + k <= |t.sh.ring.slots|
    ensures Leads(s, u) && Shape(u)
    ensures u == t.(sh := t.sh.(ring := u.sh.ring), added := t.added + seq(k, _ => NOTHING), freed := u.freed)
    ensures u.sh.ring.size == t.sh.ring.size + k && |u.sh.ring.slots| == |t.sh.ring.slots|
    decreases k
  {
    if k == 0 {
      assert seq(0, _ => NOTHING) == [];
      return t;
    }
    Then(s, t, Begin(0, NOTHING));
    var t1 := t.(submitters := [Wanting(NOTHING)]);
    assert t1 == Apply(t, Begin(0, NOTHING));
    Then(s, t1, Submit(0, 0));
    var t2 := Apply(t1, Submit(0, 0));
    assert t2.submitters == [Idle];
    u := Fill(s, t2, k - 1);
    assert t.added + seq(k, _ => NOTHING) == t2.added + seq(k - 1, _ => NOTHING);
  }
}
