/** 013threadPoll/threadpool.c, lines 122-130: threadpool_add calls that go on unlocked during a
    shutdown can free one argument twice. Which ones, and when? */
module LateFrees {
  import opened Remainders
  import opened Totals
  import opened TaskRing
  import opened LateAdds

  ghost predicate FreedTwice(freed: seq<nat>) {
    exists i, j :: 0 <= i < j < |freed| && freed[i] == freed[j]
  }

  /** In some interleaving an argument is freed twice. */
  ghost predicate CanFreeTwice(r: Ring, tasks: seq<Task>) {
    exists t :: CanFinish(Start(r, |tasks|), tasks, t) && FreedTwice(t.freed)
  }

  /** The slot that index k comes to holds an argument. */
  predicate HasArgument(r: Ring, k: nat)
    requires |r.slots| >= 1
  {
    r.slots[Wrap(k, |r.slots|)].args != NULL
  }

  /** Two calls can come to the same argument: one left in a slot that calls before them lead to,
      or one that another call has just stored. */
  ghost predicate TwoMeet(r: Ring, tasks: seq<Task>)
    requires |r.slots| >= 1
  {
    && |tasks| >= 2
    && (|| (exists k: nat :: r.rear <= k <= r.rear + |tasks| - 2 && HasArgument(r, k))
        || (|tasks| >= 3 && exists i :: 0 <= i < |tasks| && tasks[i].args != NULL))
  }

  // ---------- When they can ----------

  function Left(a: Adder): nat {
    match a
    case Testing => 8
    case Freeing => 7
    case Clearing => 6
    case Filling => 5
    case Rear => 4
    case Moving(_) => 3
    case Size => 2
    case Counting(_) => 1
    case Done => 0
  }

  /** From any state the calls can come to their end. */
  lemma {:induction false} FinishAll(s0: System, tasks: seq<Task>, s: System) returns (t: System)
    requires |tasks| == |s0.adders| == |s.adders| && CanReach(s0, tasks, s) && s.ring.rear < |s.ring.slots|
    ensures CanFinish(s0, tasks, t) && s.freed <= t.freed
    decreases Total(s.adders, Left)
  {
    hide CanReach, Wrap, Total, Released;
    if AllDone(s) {
      return s;
    }
    var i: nat :| i < |s.adders| && !s.adders[i].Done?;
    Then(s0, tasks, s, i);
    var u := Apply(s, tasks, i);
    TotalUpdate(s.adders, i, u.adders[i], Left);
    t := FinishAll(s0, tasks, u);
  }

  /** Two calls find the same argument in the rear slot and both free it. */
  lemma BothFree(s0: System, tasks: seq<Task>, s: System, b: nat, c: nat)
    requires |tasks| == |s0.adders| == |s.adders| && CanReach(s0, tasks, s) && s.ring.rear < |s.ring.slots|
    requires b < |tasks| && c < |tasks| && b != c && s.adders[b] == Testing && s.adders[c] == Testing
    requires s.ring.slots[s.ring.rear].args != NULL
    ensures exists t :: CanFinish(s0, tasks, t) && FreedTwice(t.freed)
  {
    hide CanReach, Wrap;
    var p := s.ring.slots[s.ring.rear].args;
    NonNullOne(s.ring.slots[s.ring.rear]);
    Then(s0, tasks, s, b);
    var s1 := Apply(s, tasks, b);
    Then(s0, tasks, s1, c);
    var s2 := Apply(s1, tasks, c);
    Then(s0, tasks, s2, b);
    var s3 := Apply(s2, tasks, b);
    Then(s0, tasks, s3, c);
    var s4 := Apply(s3, tasks, c);
    assert s4.freed == s.freed + [p] + [p];
    var t := FinishAll(s0, tasks, s4);
    var n := |s.freed|;
    assert t.freed[n] == s4.freed[n] == p && t.freed[n + 1] == s4.freed[n + 1] == p;
  }

  /** An index a whole lap or more ahead comes to the slot of one less than a lap ahead. */
  lemma {:induction false} WithinLap(r: Ring, k: nat) returns (x: nat)
    requires |r.slots| >= 1 && r.rear <= k && HasArgument(r, k)
    ensures r.rear <= x <= k && x < r.rear + |r.slots| && HasArgument(r, x)
    decreases k
  {
    hide Wrap;
    if k < r.rear + |r.slots| {
      return k;
    }
    AddModulus(k - |r.slots|, |r.slots|);
    x := WithinLap(r, k - |r.slots|);
  }

  lemma LeftInSlot(r: Ring, tasks: seq<Task>, k: nat)
    requires r.rear < |r.slots| && |tasks| >= 2
    requires r.rear <= k <= r.rear + |tasks| - 2 && HasArgument(r, k)
    ensures CanFreeTwice(r, tasks)
  {
    hide CanReach, Wrap;
    var x := WithinLap(r, k);
    var j := x - r.rear;
    var s0 := Start(r, |tasks|);
    ReachNone(s0, tasks);
    var s := SoloTo(s0, tasks, s0, 0, j);
    assert s.ring.slots[Wrap(x, |r.slots|)] == r.slots[Wrap(x, |r.slots|)];
    BothFree(s0, tasks, s, j, j + 1);
  }

  lemma JustStored(r: Ring, tasks: seq<Task>, i: nat)
    requires r.rear < |r.slots| && |tasks| >= 3 && i < |tasks| && tasks[i].args != NULL
    ensures CanFreeTwice(r, tasks)
  {
    hide CanReach, Wrap, Released;
    var s0 := Start(r, |tasks|);
    ReachNone(s0, tasks);
    ToRear(s0, tasks, s0, i);
    var s := System(Put(r, tasks[i]), s0.adders[i := Rear], s0.freed + Released(r));
    BothFree(s0, tasks, s, if i == 0 then 1 else 0, if i <= 1 then 2 else 1);
  }

  // ---------- When they cannot ----------

  function Before(a: Adder): nat { if a.Testing? || a.Freeing? then 1 else 0 }

  function Moved(a: Adder): nat { if a.Size? || a.Counting? || a.Done? then 1 else 0 }

  /** Nothing more than one free, made or to come. */
  ghost predicate AtMostOne(s: System) {
    Total(s.adders, Before) + |s.freed| <= 1
  }

  lemma AtMostOneStep(s: System, tasks: seq<Task>, i: nat)
    requires AtMostOne(s) && Enabled(s, i) && |tasks| == |s.adders|
    ensures AtMostOne(Apply(s, tasks, i))
  {
    hide Wrap, Total;
    TotalUpdate(s.adders, i, Apply(s, tasks, i).adders[i], Before);
    NonNullOne(s.ring.slots[s.ring.rear]);
  }

  /** Two calls on an empty slot: until one has filled it, neither finds anything there. */
  ghost predicate TwoEarly(s: System) {
    && |s.adders| == 2 && s.freed == []
    && s.ring.rear < |s.ring.slots| && s.ring.slots[s.ring.rear].args == NULL
    && forall i :: 0 <= i < 2 ==> s.adders[i].Testing? || s.adders[i].Filling?
  }

  lemma TwoStep(s: System, tasks: seq<Task>, i: nat)
    requires TwoEarly(s) && Enabled(s, i) && |tasks| == 2
    ensures TwoEarly(Apply(s, tasks, i)) || AtMostOne(Apply(s, tasks, i))
  {
    var r := Apply(s, tasks, i);
    if s.adders[i].Filling? {
      TotalTwo(r.adders);
    }
  }

  lemma TotalTwo(adders: seq<Adder>)
    requires |adders| == 2
    ensures Total(adders, Before) == Before(adders[0]) + Before(adders[1])
  {
    var one := [adders[0]];
    assert adders[..1] == one && one[..0] == [];
    assert Total(one, Before) == Total([], Before) + Before(one[0]);
  }

  /** Only NULL is brought, and the slots that indices from `from` up to `to` come to hold NULL: no
      call finds anything until queue_rear has gone past them. */
  ghost predicate NullEarly(s: System, from: nat, to: nat) {
    && s.freed == [] && s.ring.rear < |s.ring.slots|
    && (forall k: nat :: from <= k < to ==> !HasArgument(s.ring, k))
    && ComesTo(s.ring.rear, from, from + Total(s.adders, Moved), |s.ring.slots|)
    && (forall i :: 0 <= i < |s.adders| && s.adders[i].Moving? ==>
          ComesTo(s.adders[i].rear, from, from + Total(s.adders, Moved), |s.ring.slots|))
    && (forall i :: 0 <= i < |s.adders| ==> !s.adders[i].Freeing? && !s.adders[i].Clearing?)
  }

  /** x is the slot of an index from a to b. */
  ghost predicate ComesTo(x: nat, a: nat, b: nat, m: nat)
    requires m >= 1
  {
    exists k: nat :: a <= k <= b && x == Wrap(k, m)
  }

  lemma ComesToMore(x: nat, a: nat, b: nat, c: nat, m: nat)
    requires m >= 1 && ComesTo(x, a, b, m) && b <= c
    ensures ComesTo(x, a, c, m)
  {
  }

  lemma ComesToNext(x: nat, a: nat, b: nat, m: nat)
    requires m >= 1 && ComesTo(x, a, b, m)
    ensures ComesTo(Wrap(x + 1, m), a, b + 1, m)
  {
    hide Wrap;
    var k: nat :| a <= k <= b && x == Wrap(k, m);
    Next(k, m);
  }

  /** A call is not both before its free and past moving queue_rear. */
  lemma {:induction false} NotBoth(adders: seq<Adder>)
    ensures Total(adders, Before) + Total(adders, Moved) <= |adders|
  {
    if adders != [] {
      NotBoth(adders[..|adders| - 1]);
    }
  }

  /** A call that finds an argument: all the others have moved queue_rear by then. */
  lemma FindsOne(s: System, tasks: seq<Task>, i: nat, from: nat)
    requires |tasks| == |s.adders| >= 1 && NullEarly(s, from, from + |tasks| - 1) && Enabled(s, i)
    requires s.adders[i].Testing? && s.ring.slots[s.ring.rear].args != NULL
    ensures AtMostOne(Apply(s, tasks, i))
  {
    var r := Apply(s, tasks, i);
    TotalUpdate(s.adders, i, r.adders[i], Before);
    NotBoth(s.adders);
    hide Total, Wrap;
    var k: nat :| from <= k <= from + Total(s.adders, Moved) && s.ring.rear == Wrap(k, |s.ring.slots|);
    assert HasArgument(s.ring, k);
  }

  lemma MovesOn(s: System, tasks: seq<Task>, i: nat, from: nat, to: nat)
    requires |tasks| == |s.adders| && NullEarly(s, from, to) && Enabled(s, i) && s.adders[i].Moving?
    ensures NullEarly(Apply(s, tasks, i), from, to)
  {
    var m, x := |s.ring.slots|, s.adders[i].rear;
    var b := from + Total(s.adders, Moved);
    var r := Apply(s, tasks, i);
    TotalUpdate(s.adders, i, Size, Moved);
    hide Total, Wrap;
    ComesToNext(x, from, b, m);
    hide ComesTo;
    SameArguments(s.ring, r.ring, from, to);
    forall j | 0 <= j < |r.adders| && r.adders[j].Moving?
      ensures ComesTo(r.adders[j].rear, from, b + 1, m)
    {
      ComesToMore(s.adders[j].rear, from, b, b + 1, m);
    }
  }

  lemma SameArguments(a: Ring, b: Ring, from: nat, to: nat)
    requires |a.slots| == |b.slots| >= 1
    requires forall x :: 0 <= x < |a.slots| && a.slots[x].args == NULL ==> b.slots[x].args == NULL
    requires forall k: nat :: from <= k < to ==> !HasArgument(a, k)
    ensures forall k: nat :: from <= k < to ==> !HasArgument(b, k)
  {
    hide Wrap;
    forall k: nat | from <= k < to
      ensures !HasArgument(b, k)
    {
      assert !HasArgument(a, k);
    }
  }

  lemma StaysPut(s: System, tasks: seq<Task>, i: nat, from: nat, to: nat)
    requires |tasks| == |s.adders| && NullEarly(s, from, to) && Enabled(s, i) && !s.adders[i].Moving?
    requires tasks[i].args == NULL && (s.adders[i].Testing? ==> s.ring.slots[s.ring.rear].args == NULL)
    ensures NullEarly(Apply(s, tasks, i), from, to)
  {
    var r := Apply(s, tasks, i);
    TotalUpdate(s.adders, i, r.adders[i], Moved);
    hide Total, Wrap, ComesTo;
    SameArguments(s.ring, r.ring, from, to);
  }

  lemma NullStep(s: System, tasks: seq<Task>, i: nat, from: nat)
    requires |tasks| == |s.adders| >= 1 && (forall j :: 0 <= j < |tasks| ==> tasks[j].args == NULL)
    requires NullEarly(s, from, from + |tasks| - 1) && Enabled(s, i)
    ensures NullEarly(Apply(s, tasks, i), from, from + |tasks| - 1) || AtMostOne(Apply(s, tasks, i))
  {
    var to := from + |tasks| - 1;
    if s.adders[i].Moving? {
      MovesOn(s, tasks, i, from, to);
    } else if s.adders[i].Testing? && s.ring.slots[s.ring.rear].args != NULL {
      FindsOne(s, tasks, i, from);
    } else {
      StaysPut(s, tasks, i, from, to);
    }
  }

  lemma {:induction false} AtMostOneRun(s: System, tasks: seq<Task>, schedule: seq<nat>, t: System)
    requires AtMostOne(s) && |tasks| == |s.adders| && Goes(s, tasks, schedule, t)
    ensures AtMostOne(t)
    decreases |schedule|
  {
    hide Apply, Enabled, AtMostOne;
    if schedule != [] {
      AtMostOneStep(s, tasks, schedule[0]);
      AtMostOneRun(Apply(s, tasks, schedule[0]), tasks, schedule[1..], t);
    }
  }

  lemma {:induction false} TwoRun(s: System, tasks: seq<Task>, schedule: seq<nat>, t: System)
    requires TwoEarly(s) && |tasks| == 2 && Goes(s, tasks, schedule, t)
    ensures |t.freed| <= 1
    decreases |schedule|
  {
    if schedule != [] {
      TwoStep(s, tasks, schedule[0]);
      var r := Apply(s, tasks, schedule[0]);
      hide Apply, Enabled;
      if TwoEarly(r) {
        TwoRun(r, tasks, schedule[1..], t);
      } else {
        AtMostOneRun(r, tasks, schedule[1..], t);
      }
    }
  }

  lemma {:induction false} NullRun(s: System, tasks: seq<Task>, schedule: seq<nat>, t: System, from: nat)
    requires |tasks| == |s.adders| >= 1 && (forall j :: 0 <= j < |tasks| ==> tasks[j].args == NULL)
    requires NullEarly(s, from, from + |tasks| - 1) && Goes(s, tasks, schedule, t)
    ensures |t.freed| <= 1
    decreases |schedule|
  {
    if schedule != [] {
      NullStep(s, tasks, schedule[0], from);
      var r := Apply(s, tasks, schedule[0]);
      hide Apply, Enabled;
      if NullEarly(r, from, from + |tasks| - 1) {
        NullRun(r, tasks, schedule[1..], t, from);
      } else {
        AtMostOneRun(r, tasks, schedule[1..], t);
      }
    }
  }

  lemma FewFrees(r: Ring, tasks: seq<Task>, schedule: seq<nat>, t: System)
    requires r.rear < |r.slots| && !TwoMeet(r, tasks) && Goes(Start(r, |tasks|), tasks, schedule, t)
    ensures |t.freed| <= 1
  {
    hide Wrap;
    var s := Start(r, |tasks|);
    Small(r.rear, |r.slots|);
    if |tasks| <= 1 {
      TotalBounded(s.adders, Before, 1);
      AtMostOneRun(s, tasks, schedule, t);
    } else if |tasks| == 2 {
      assert !HasArgument(r, r.rear);
      TwoRun(s, tasks, schedule, t);
    } else {
      assert ComesTo(r.rear, r.rear, r.rear + Total(s.adders, Moved), |r.slots|);
      NullRun(s, tasks, schedule, t, r.rear);
    }
  }

  // ---------- The result ----------

  /** Calls that go on past line 123 can free an argument twice exactly when two of them can come
      to the same one; otherwise all of them together free at most one. */
  lemma FreesTwiceIff(r: Ring, tasks: seq<Task>)
    requires r.rear < |r.slots|
    ensures CanFreeTwice(r, tasks) <==> TwoMeet(r, tasks)
  {
    if TwoMeet(r, tasks) {
      if k: nat :| r.rear <= k <= r.rear + |tasks| - 2 && HasArgument(r, k) {
        LeftInSlot(r, tasks, k);
      } else {
        var i: nat :| i < |tasks| && tasks[i].args != NULL;
        JustStored(r, tasks, i);
      }
    } else if CanFreeTwice(r, tasks) {
      var t :| CanFinish(Start(r, |tasks|), tasks, t) && FreedTwice(t.freed);
      var schedule :| Goes(Start(r, |tasks|), tasks, schedule, t);
      FewFrees(r, tasks, schedule, t);
      assert false;
    }
  }
}
