/** 013threadPoll/threadpool.c, lines 122-136: a threadpool_add that finds the pool shut down
    unlocks and goes on, so several such calls edit the queue at the same time. Each of lines 127,
    128, 129 and 132-133 is one access to the slot queue_rear then gives; queue_rear and queue_size
    are loaded and stored apart. Nobody else touches the queue here. */
module LateAdds {
  import opened Remainders
  import opened Totals
  import opened TaskRing

  /** A call past line 123: to test the rear slot; to free its argument; to clear it; to fill the
      slot; to load queue_rear; to store it; to load queue_size; to store it; or past line 136. */
  datatype Adder =
    | Testing | Freeing | Clearing | Filling | Rear | Moving(rear: nat) | Size | Counting(size: nat) | Done

  /** The ring, the calls, and the arguments they have freed. */
  datatype System = System(ring: Ring, adders: seq<Adder>, freed: seq<nat>)

  function Start(r: Ring, n: nat): System {
    System(r, seq(n, _ => Testing), [])
  }

  predicate Enabled(s: System, i: nat) {
    s.ring.rear < |s.ring.slots| && i < |s.adders| && !s.adders[i].Done?
  }

  function Put(ring: Ring, task: Task): Ring
    requires ring.rear < |ring.slots|
  {
    ring.(slots := ring.slots[ring.rear := task])
  }

  /** The next access of call i, which brings tasks[i]. */
  function Apply(s: System, tasks: seq<Task>, i: nat): (r: System)
    requires Enabled(s, i) && |tasks| == |s.adders|
    ensures |r.adders| == |s.adders| && |r.ring.slots| == |s.ring.slots| && r.ring.rear < |r.ring.slots|
  {
    var ring := s.ring;
    var slot := ring.slots[ring.rear];
    match s.adders[i]
    case Testing => s.(adders := s.adders[i := if slot.args != NULL then Freeing else Filling])
    case Freeing => s.(adders := s.adders[i := Clearing], freed := s.freed + Released(ring))
    case Clearing => s.(ring := Put(ring, slot.(args := NULL)), adders := s.adders[i := Filling])
    case Filling => s.(ring := Put(ring, tasks[i]), adders := s.adders[i := Rear])
    case Rear => s.(adders := s.adders[i := Moving(ring.rear)])
    case Moving(x) => s.(ring := ring.(rear := Wrap(x + 1, |ring.slots|)), adders := s.adders[i := Size])
    case Size => s.(adders := s.adders[i := Counting(ring.size)])
    case Counting(x) => s.(ring := ring.(size := x + 1), adders := s.adders[i := Done])
  }

  /** The calls take turns as `schedule` says, and come to t. */
  ghost predicate Goes(s: System, tasks: seq<Task>, schedule: seq<nat>, t: System)
    requires |tasks| == |s.adders|
    decreases |schedule|
  {
    if schedule == [] then s == t
    else Enabled(s, schedule[0]) && Goes(Apply(s, tasks, schedule[0]), tasks, schedule[1..], t)
  }

  ghost predicate CanReach(s: System, tasks: seq<Task>, t: System)
    requires |tasks| == |s.adders|
  {
    exists schedule :: Goes(s, tasks, schedule, t)
  }

  ghost predicate AllDone(s: System) {
    forall i :: 0 <= i < |s.adders| ==> s.adders[i].Done?
  }

  ghost predicate CanFinish(s: System, tasks: seq<Task>, t: System)
    requires |tasks| == |s.adders|
  {
    CanReach(s, tasks, t) && AllDone(t)
  }

  lemma ReachNone(s: System, tasks: seq<Task>)
    requires |tasks| == |s.adders|
    ensures CanReach(s, tasks, s)
  {
    assert Goes(s, tasks, [], s);
  }

  lemma {:induction false} GoesThen(s: System, tasks: seq<Task>, schedule: seq<nat>, t: System, i: nat)
    requires |tasks| == |s.adders| && Goes(s, tasks, schedule, t) && Enabled(t, i)
    ensures |t.adders| == |tasks| && Goes(s, tasks, schedule + [i], Apply(t, tasks, i))
    decreases |schedule|
  {
    hide Apply, Enabled;
    if schedule == [] {
      assert schedule + [i] == [i];
      assert [i][1..] == [];
      assert Goes(Apply(t, tasks, i), tasks, [], Apply(t, tasks, i));
    } else {
      GoesThen(Apply(s, tasks, schedule[0]), tasks, schedule[1..], t, i);
      assert (schedule + [i])[1..] == schedule[1..] + [i];
    }
  }

  lemma Then(s: System, tasks: seq<Task>, t: System, i: nat)
    requires |tasks| == |s.adders| && CanReach(s, tasks, t) && Enabled(t, i)
    ensures |t.adders| == |tasks| && CanReach(s, tasks, Apply(t, tasks, i))
  {
    hide Apply, Enabled;
    var schedule :| Goes(s, tasks, schedule, t);
    GoesThen(s, tasks, schedule, t, i);
  }

  // ---------- One call ----------

  ghost predicate Solo(r: Ring, task: Task, s: System) {
    && r.rear < |r.slots| && |s.adders| == 1
    && var filled := Put(r, task);
       match s.adders[0]
       case Testing => s.ring == r && s.freed == []
       case Freeing => s.ring == r && s.freed == [] && r.slots[r.rear].args != NULL
       case Clearing => s.ring == r && s.freed == Released(r)
       case Filling =>
         s.ring.rear == r.rear && |s.ring.slots| == |r.slots| && Put(s.ring, task) == filled && s.freed == Released(r)
       case Rear => s.ring == filled && s.freed == Released(r)
       case Moving(x) => s.ring == filled && x == r.rear && s.freed == Released(r)
       case Size => s.ring == filled.(rear := Wrap(r.rear + 1, |r.slots|)) && s.freed == Released(r)
       case Counting(x) =>
         s.ring == filled.(rear := Wrap(r.rear + 1, |r.slots|)) && x == r.size && s.freed == Released(r)
       case Done => s.ring == Store(r, task) && s.freed == Released(r)
  }

  lemma SoloStep(r: Ring, task: Task, s: System, i: nat)
    requires Solo(r, task, s) && Enabled(s, i)
    ensures Solo(r, task, Apply(s, [task], i))
  {
    hide Wrap;
    NonNullOne(r.slots[r.rear]);
  }

  /** One call alone does what a store under the lock does, and frees what that frees. */
  lemma {:induction false} SoloStores(r: Ring, task: Task, s: System, schedule: seq<nat>, t: System)
    requires Solo(r, task, s) && Goes(s, [task], schedule, t) && AllDone(t)
    ensures t.ring == Store(r, task) && t.freed == Released(r)
    decreases |schedule|
  {
    if schedule != [] {
      SoloStep(r, task, s, schedule[0]);
      hide Solo, Apply, Enabled;
      SoloStores(r, task, Apply(s, [task], schedule[0]), schedule[1..], t);
    }
  }

  /** Call i, not begun, runs until the slot is filled, before any other moves. */
  lemma ToRear(s0: System, tasks: seq<Task>, s: System, i: nat)
    requires |tasks| == |s0.adders| == |s.adders| && CanReach(s0, tasks, s) && Enabled(s, i) && s.adders[i] == Testing
    ensures CanReach(s0, tasks, System(Put(s.ring, tasks[i]), s.adders[i := Rear], s.freed + Released(s.ring)))
  {
    hide CanReach, Wrap;
    NonNullOne(s.ring.slots[s.ring.rear]);
    Then(s0, tasks, s, i);
    var t := Apply(s, tasks, i);
    if s.ring.slots[s.ring.rear].args != NULL {
      Then(s0, tasks, t, i);
      var t2 := Apply(t, tasks, i);
      Then(s0, tasks, t2, i);
      t := Apply(t2, tasks, i);
    }
    Then(s0, tasks, t, i);
    assert Put(t.ring, tasks[i]) == Put(s.ring, tasks[i]);
    assert t.adders[i := Rear] == s.adders[i := Rear];
    assert t.freed == s.freed + Released(s.ring);
  }

  function AfterSolo(s: System, tasks: seq<Task>, i: nat): System
    requires Enabled(s, i) && i < |tasks|
  {
    System(Store(s.ring, tasks[i]), s.adders[i := Done], s.freed + Released(s.ring))
  }

  lemma SoloCall(s0: System, tasks: seq<Task>, s: System, i: nat)
    requires |tasks| == |s0.adders| == |s.adders| && CanReach(s0, tasks, s) && Enabled(s, i) && s.adders[i] == Testing
    ensures CanReach(s0, tasks, AfterSolo(s, tasks, i))
  {
    ToRear(s0, tasks, s, i);
    hide CanReach, Wrap, Released;
    var t := System(Put(s.ring, tasks[i]), s.adders[i := Rear], s.freed + Released(s.ring));
    Then(s0, tasks, t, i);
    var t2 := Apply(t, tasks, i);
    Then(s0, tasks, t2, i);
    var t3 := Apply(t2, tasks, i);
    Then(s0, tasks, t3, i);
    var t4 := Apply(t3, tasks, i);
    Then(s0, tasks, t4, i);
    assert Apply(t4, tasks, i) == AfterSolo(s, tasks, i);
  }

  /** The first k calls are done, the others have not begun. */
  ghost predicate DoneBelow(s: System, k: nat) {
    forall i :: 0 <= i < |s.adders| ==> s.adders[i] == if i < k then Done else Testing
  }

  /** The slots that indices from a up to b come to are the same. */
  ghost predicate SameSlots(x: seq<Task>, y: seq<Task>, a: nat, b: nat)
    requires |x| == |y| >= 1
  {
    forall k: nat :: a <= k < b ==> x[Wrap(k, |x|)] == y[Wrap(k, |x|)]
  }

  /** Calls j to k - 1 run one after the other; slots they do not come to stay as they were. */
  lemma {:induction false} SoloTo(s0: System, tasks: seq<Task>, s: System, j: nat, k: nat) returns (t: System)
    requires |tasks| == |s0.adders| == |s.adders| && CanReach(s0, tasks, s) && j <= k <= |tasks|
    requires s.ring.rear < |s.ring.slots| && DoneBelow(s, j)
    ensures CanReach(s0, tasks, t) && |t.adders| == |tasks| && DoneBelow(t, k)
    ensures t.ring.size == s.ring.size + k - j && t.ring.front == s.ring.front && |t.ring.slots| == |s.ring.slots|
    ensures t.ring.rear == Wrap(s.ring.rear + (k - j), |s.ring.slots|)
    ensures SameSlots(t.ring.slots, s.ring.slots, s.ring.rear + (k - j), s.ring.rear + |s.ring.slots|)
    decreases k
  {
    hide CanReach, Wrap;
    var m := |s.ring.slots|;
    if j == k {
      Small(s.ring.rear, m);
      return s;
    }
    var u := SoloTo(s0, tasks, s, j, k - 1);
    assert u.adders[k - 1] == Testing;
    SoloCall(s0, tasks, u, k - 1);
    t := AfterSolo(u, tasks, k - 1);
    var d := k - 1 - j;
    Next(s.ring.rear + d, m);
    forall y: nat | s.ring.rear + d + 1 <= y < s.ring.rear + m
      ensures t.ring.slots[Wrap(y, m)] == s.ring.slots[Wrap(y, m)]
    {
      Apart(s.ring.rear + d, y, m);
    }
  }

  /** Once a call has cleared the slot, until one fills it, a test finds nothing there, and a free
      that was still to come frees nothing. */
  lemma AfterClear(s: System, tasks: seq<Task>, i: nat, j: nat)
    requires |tasks| == |s.adders| && Enabled(s, i) && Enabled(s, j) && i != j && s.adders[i].Clearing?
    ensures var r := Apply(s, tasks, i);
            && Enabled(r, j) && r.adders[j] == s.adders[j]
            && (s.adders[j].Testing? ==> Apply(r, tasks, j).adders[j].Filling?)
            && (s.adders[j].Freeing? ==> Apply(r, tasks, j).freed == s.freed)
  {
    hide Wrap;
    var r := Apply(s, tasks, i);
    NonNullOne(r.ring.slots[r.ring.rear]);
  }

  // ---------- Two calls at once: the ring ----------

  /** Both load queue_rear before either stores it: the index moves once, the count twice. */
  lemma OverlapTwo(r: Ring, tasks: seq<Task>) returns (t: System)
    requires r.rear < |r.slots| && |tasks| >= 2
    ensures CanReach(Start(r, |tasks|), tasks, t) && |t.adders| == |tasks| && DoneBelow(t, 2)
    ensures t.ring.size == r.size + 2 && t.ring.front == r.front && |t.ring.slots| == |r.slots|
    ensures t.ring.rear == Wrap(r.rear + 1, |r.slots|)
  {
    hide CanReach, Wrap, Released;
    var s := Start(r, |tasks|);
    ReachNone(s, tasks);
    ToRear(s, tasks, s, 0);
    var s1 := System(Put(r, tasks[0]), s.adders[0 := Rear], [] + Released(r));
    Then(s, tasks, s1, 0);
    var s2 := Apply(s1, tasks, 0);
    ToRear(s, tasks, s2, 1);
    var s3 := System(Put(s2.ring, tasks[1]), s2.adders[1 := Rear], s2.freed + Released(s2.ring));
    Then(s, tasks, s3, 1);
    var s4 := Apply(s3, tasks, 1);
    Then(s, tasks, s4, 0);
    var s5 := Apply(s4, tasks, 0);
    Then(s, tasks, s5, 1);
    var s6 := Apply(s5, tasks, 1);
    t := CountBoth(s, tasks, s6);
  }

  lemma CountBoth(s0: System, tasks: seq<Task>, s: System) returns (t: System)
    requires |tasks| == |s0.adders| == |s.adders| >= 2 && CanReach(s0, tasks, s) && s.ring.rear < |s.ring.slots|
    requires s.adders[0] == Size && s.adders[1] == Size
    ensures CanReach(s0, tasks, t)
    ensures t == s.(ring := s.ring.(size := s.ring.size + 2), adders := s.adders[0 := Done][1 := Done])
  {
    hide CanReach, Wrap, Released;
    Then(s0, tasks, s, 0);
    var s1 := Apply(s, tasks, 0);
    Then(s0, tasks, s1, 0);
    var s2 := Apply(s1, tasks, 0);
    Then(s0, tasks, s2, 1);
    var s3 := Apply(s2, tasks, 1);
    Then(s0, tasks, s3, 1);
    t := Apply(s3, tasks, 1);
  }

  /** Both may load queue_size before either stores it, and then one task is not counted. */
  lemma CountLost(r: Ring, tasks: seq<Task>) returns (t: System)
    requires r.rear < |r.slots| && |tasks| >= 2
    ensures CanFinish(Start(r, |tasks|), tasks, t) && t.ring.size == r.size + |tasks| - 1
  {
    hide CanReach, Wrap, Released;
    var s0 := Start(r, |tasks|);
    ReachNone(s0, tasks);
    var s := ToSize(s0, tasks, s0, 0);
    s := ToSize(s0, tasks, s, 1);
    Then(s0, tasks, s, 0);
    var s1 := Apply(s, tasks, 0);
    Then(s0, tasks, s1, 1);
    var s2 := Apply(s1, tasks, 1);
    Then(s0, tasks, s2, 0);
    var s3 := Apply(s2, tasks, 0);
    Then(s0, tasks, s3, 1);
    var s4 := Apply(s3, tasks, 1);
    t := SoloTo(s0, tasks, s4, 2, |tasks|);
  }

  /** Call i, not begun, runs until it has moved queue_rear, before any other moves. */
  lemma ToSize(s0: System, tasks: seq<Task>, s: System, i: nat) returns (t: System)
    requires |tasks| == |s0.adders| == |s.adders| && CanReach(s0, tasks, s) && Enabled(s, i) && s.adders[i] == Testing
    ensures CanReach(s0, tasks, t) && t.adders == s.adders[i := Size]
    ensures t.ring.size == s.ring.size && t.ring.rear < |t.ring.slots|
  {
    hide CanReach, Wrap, Released;
    ToRear(s0, tasks, s, i);
    var s1 := System(Put(s.ring, tasks[i]), s.adders[i := Rear], s.freed + Released(s.ring));
    Then(s0, tasks, s1, i);
    var s2 := Apply(s1, tasks, i);
    Then(s0, tasks, s2, i);
    t := Apply(s2, tasks, i);
  }

  /** Overlapping breaks the ring, whether or not it has room for all the calls. */
  lemma OverlapBreaks(r: Ring, tasks: seq<Task>) returns (t: System)
    requires Valid(r) && |tasks| >= 2
    ensures CanFinish(Start(r, |tasks|), tasks, t) && !Valid(t.ring)
  {
    hide CanReach;
    var u := OverlapTwo(r, tasks);
    t := SoloTo(Start(r, |tasks|), tasks, u, 2, |tasks|);
    OffByOne(r, t.ring, |tasks|);
  }

  lemma OffByOne(r: Ring, after: Ring, n: nat)
    requires Valid(r) && n >= 2 && after.size == r.size + n && after.front == r.front && |after.slots| == |r.slots|
    requires after.rear == Wrap(Wrap(r.rear + 1, |r.slots|) + (n - 2), |r.slots|)
    ensures !Valid(after)
  {
    hide Wrap;
    var m := |r.slots|;
    Walk(r.rear + 1, n - 2, m);
    Walk(r.front + r.size, n - 1, m);
    if r.size + n <= m {
      Apart(r.front + r.size + n - 1, r.front + r.size + n, m);
    }
  }

  /** Whatever turns the calls take, the ring is well formed once they are all done. */
  ghost predicate KeepsRing(r: Ring, tasks: seq<Task>) {
    forall t :: CanFinish(Start(r, |tasks|), tasks, t) ==> Valid(t.ring)
  }

  /** Calls that go on past line 123 keep the ring well formed in every interleaving if and only
      if there is none, or one and the queue has room. */
  lemma LateAddsKeepRingIff(r: Ring, tasks: seq<Task>)
    requires Valid(r)
    ensures KeepsRing(r, tasks) <==> |tasks| == 0 || (|tasks| == 1 && r.size < |r.slots|)
  {
    if |tasks| >= 2 {
      var t := OverlapBreaks(r, tasks);
    } else if |tasks| == 1 {
      OneKeeps(r, tasks[0]);
      assert tasks == [tasks[0]];
    } else {
      forall t | CanFinish(Start(r, 0), tasks, t)
        ensures Valid(t.ring)
      {
        var schedule :| Goes(Start(r, 0), tasks, schedule, t);
      }
    }
  }

  lemma OneKeeps(r: Ring, task: Task)
    requires Valid(r)
    ensures KeepsRing(r, [task]) <==> r.size < |r.slots|
  {
    StoreAppends(r, task);
    hide Wrap;
    var s := Start(r, 1);
    forall t | CanFinish(s, [task], t)
      ensures t.ring == Store(r, task)
    {
      var schedule :| Goes(s, [task], schedule, t);
      SoloStores(r, task, s, schedule, t);
    }
    ReachNone(s, [task]);
    var t := SoloTo(s, [task], s, 0, 1);
    assert CanFinish(s, [task], t);
  }
}
