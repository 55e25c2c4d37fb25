/** 007singnal/08sigsuspend.c, lines 21-30: what becomes of mysleep's alarm when something else ends
    the suspension. It can fire before line 27 cancels it; the action line 29 puts back then meets
    it inside line 30, or mysleep returns with it pending. */
module LingeringAlarm {
  import opened RaceFreeSleep

  /** The signals that arrive from elsewhere are among `others`. */
  predicate Within(others: set<nat>, steps: seq<Step>) {
    forall st :: st in steps && st.Raise? ==> st.sig in others
  }

  /** Reaching a state while only `others` arrive. */
  ghost predicate WithinTo(nSecs: nat, others: set<nat>, s: Process, t: Process) {
    exists steps :: Within(others, steps) && Leads(nSecs, s, steps, t)
  }

  /** Line 29 has put the old action back, and SIGALRM is pending. */
  predicate Lingering(t: Process) {
    t.pc == Reinstalled && SIGALRM in t.pending
  }

  ghost predicate CanLinger(nSecs: nat, others: set<nat>, s0: Process) {
    exists t :: WithinTo(nSecs, others, s0, t) && Lingering(t)
  }

  predicate AlarmLeft(t: Process) {
    t.pc == Returned && SIGALRM in t.pending
  }

  /** mysleep can return with SIGALRM pending, for the caller to meet later. */
  ghost predicate CanLeaveAlarm(nSecs: nat, others: set<nat>, s0: Process) {
    exists t :: WithinTo(nSecs, others, s0, t) && AlarmLeft(t)
  }

  /** Inside line 30, SIGALRM about to be met by the old action. */
  predicate Meeting(t: Process) {
    t.pc == Unblocking && Enabled(t, Deliver(SIGALRM))
  }

  /** mysleep can be killed by SIGALRM inside line 30. */
  ghost predicate CanDie(nSecs: nat, others: set<nat>, s0: Process) {
    exists t :: WithinTo(nSecs, others, s0, t) && Meeting(t) && Apply(nSecs, t, Deliver(SIGALRM)).pc == Killed
  }

  /** An alarm is armed, or SIGALRM pending, from before the call. */
  predicate Earlier(s0: Process) {
    s0.timer > 0 || SIGALRM in s0.pending
  }

  /** A handled signal other than SIGALRM that the caller does not block. */
  predicate Unblocked(s0: Process, sig: nat) {
    sig != SIGALRM && sig !in s0.mask
  }

  /** The pending signals of that kind. */
  function Others(s0: Process, s: Process): set<nat> {
    set sig | sig in s.pending && Unblocked(s0, sig)
  }

  ghost predicate Arrives(others: set<nat>, s0: Process) {
    exists sig: nat :: sig in others && Unblocked(s0, sig)
  }

  /** At least n such signals can be delivered in the course of the call. */
  ghost predicate Supply(others: set<nat>, s0: Process, n: nat) {
    Arrives(others, s0) || |Others(s0, s0)| >= n
  }

  /** The suspension may end before mysleep's own alarm: by an earlier alarm, or by another signal,
      of those pending at the call by the second, since line 21 waits for the first. */
  ghost predicate MayEndEarly(others: set<nat>, s0: Process) {
    Earlier(s0) || Supply(others, s0, 2)
  }

  // ---------- When it cannot happen ----------

  /** A step takes at most its own signal from the others, and none arrives. */
  lemma OthersStep(nSecs: nat, others: set<nat>, s0: Process, s: Process, st: Step)
    requires Enabled(s, st) && (st.Raise? ==> st.sig in others) && !Arrives(others, s0)
    ensures Others(s0, Apply(nSecs, s, st)) == Others(s0, s) - (if st.Deliver? then {st.sig} else {})
  {
    if st.Raise? {
      assert !Unblocked(s0, st.sig);
    }
  }

  /** With u other signals still pending of k at the call, what must have been delivered for
      SIGALRM to be where it is: one in line 21, one to end the suspension unless an earlier alarm
      may have, and one in line 30 for it to return past an unblocked SIGALRM. */
  ghost predicate Spent(s0: Process, s: Process, u: nat, k: nat) {
    var early := if Earlier(s0) then 1 else 2;
    match s.pc
    case Entry => u <= k && (!Earlier(s0) ==> s.timer == 0 && SIGALRM !in s.pending)
    case Installed => u <= k && (!Earlier(s0) ==> s.timer == 0 && SIGALRM !in s.pending)
    case Blocking =>
      && u <= k && (s.caught ==> u + 1 <= k)
      && (!Earlier(s0) ==> s.timer == 0 && SIGALRM !in s.pending)
    case Blocked => Once(u, k) && (!Earlier(s0) ==> s.timer == 0 && SIGALRM !in s.pending)
    case Armed => Once(u, k) && (!Earlier(s0) && s.timer > 0 ==> SIGALRM !in s.pending)
    case Suspended =>
      && Once(u, k)
      && (!Earlier(s0) && s.timer > 0 ==> SIGALRM !in s.pending)
      && (!Earlier(s0) && s.caught && (s.timer > 0 || SIGALRM in s.pending) ==> u + 2 <= k)
    case Resumed => Once(u, k) && (!Earlier(s0) && (s.timer > 0 || SIGALRM in s.pending) ==> u + 2 <= k)
    case Disarmed => Once(u, k) && (!Earlier(s0) && SIGALRM in s.pending ==> u + 2 <= k)
    case Reinstalled => Once(u, k) && (!Earlier(s0) && SIGALRM in s.pending ==> u + 2 <= k)
    case Unblocking =>
      && Once(u, k)
      && (!Earlier(s0) && SIGALRM in s.pending ==> u + 2 <= k)
      && (s.caught && SIGALRM in s.pending ==> u + early + 1 <= k || SIGALRM in s0.mask)
    case Returned =>
      && (!Earlier(s0) && SIGALRM in s.pending ==> u + 2 <= k)
      && (SIGALRM in s.pending ==> u + early + 1 <= k || SIGALRM in s0.mask)
    case Killed => true
  }

  /** If any was pending at the call, one has been delivered. */
  predicate Once(u: nat, k: nat) {
    u == 0 || u + 1 <= k
  }

  lemma SpentCall(nSecs: nat, s0: Process, s: Process, u: nat, k: nat)
    requires Inv(nSecs, s0, s) && Spent(s0, s, u, k) && Enabled(s, Call)
    requires s.pc == Blocking && !s.caught ==> u == 0
    ensures Spent(s0, CallStep(nSecs, s), u, k)
  {
  }

  lemma SpentTick(nSecs: nat, s0: Process, s: Process, u: nat, k: nat)
    requires Inv(nSecs, s0, s) && Spent(s0, s, u, k)
    ensures Spent(s0, TickStep(s), u, k)
  {
  }

  lemma SpentAlarm(nSecs: nat, s0: Process, s: Process, u: nat, k: nat)
    requires Inv(nSecs, s0, s) && Spent(s0, s, u, k) && Enabled(s, Deliver(SIGALRM))
    ensures Spent(s0, DeliverStep(s, SIGALRM), u, k)
  {
  }

  lemma SpentOther(nSecs: nat, s0: Process, s: Process, sig: nat, u: nat, k: nat)
    requires Inv(nSecs, s0, s) && Spent(s0, s, u, k) && Enabled(s, Deliver(sig)) && sig != SIGALRM && u >= 1
    ensures Spent(s0, DeliverStep(s, sig), u - 1, k)
  {
  }

  /** Nothing deliverable inside line 21 means none of the others is pending. */
  lemma NoneLeft(nSecs: nat, s0: Process, s: Process)
    requires Inv(nSecs, s0, s) && s.pc == Blocking && MayReturn(s) && !s.caught
    ensures Others(s0, s) == {}
  {
  }

  lemma OthersOne(nSecs: nat, s0: Process, s: Process, sig: nat)
    requires Inv(nSecs, s0, s) && Enabled(s, Deliver(sig)) && sig != SIGALRM
    ensures sig in Others(s0, s)
  {
  }

  lemma SpentStep(nSecs: nat, others: set<nat>, s0: Process, s: Process, st: Step, k: nat)
    requires Inv(nSecs, s0, s) && Spent(s0, s, |Others(s0, s)|, k)
    requires Enabled(s, st) && (st.Raise? ==> st.sig in others) && !Arrives(others, s0)
    ensures Spent(s0, Apply(nSecs, s, st), |Others(s0, Apply(nSecs, s, st))|, k)
  {
    hide Inv, Spent, Others, MayReturn;
    var u := |Others(s0, s)|;
    OthersStep(nSecs, others, s0, s, st);
    match st
    case Call =>
      if s.pc == Blocking && !s.caught {
        NoneLeft(nSecs, s0, s);
      }
      SpentCall(nSecs, s0, s, u, k);
    case Tick => SpentTick(nSecs, s0, s, u, k);
    case Raise(sig) => SpentRaise(s0, s, sig, u, k);
    case Deliver(sig) =>
      if sig == SIGALRM {
        AlarmNotOther(s0, s);
        SpentAlarm(nSecs, s0, s, u, k);
      } else {
        OthersOne(nSecs, s0, s, sig);
        SpentOther(nSecs, s0, s, sig, u, k);
      }
  }

  lemma SpentRaise(s0: Process, s: Process, sig: nat, u: nat, k: nat)
    requires Spent(s0, s, u, k) && sig != SIGALRM
    ensures Spent(s0, s.(pending := s.pending + {sig}), u, k)
  {
  }

  lemma AlarmNotOther(s0: Process, s: Process)
    ensures SIGALRM !in Others(s0, s)
  {
  }

  lemma {:induction false} SpentRun(nSecs: nat, others: set<nat>, s0: Process, s: Process, steps: seq<Step>, k: nat)
    requires Inv(nSecs, s0, s) && Spent(s0, s, |Others(s0, s)|, k)
    requires Legal(nSecs, s, steps) && Within(others, steps) && !Arrives(others, s0)
    ensures var t := Run(nSecs, s, steps); Inv(nSecs, s0, t) && Spent(s0, t, |Others(s0, t)|, k)
    decreases |steps|
  {
    hide Inv, Spent, Others, Apply, Enabled, Arrives;
    if steps != [] {
      assert steps[0] in steps;
      SpentStep(nSecs, others, s0, s, steps[0], k);
      InvStep(nSecs, s0, s, steps[0]);
      SpentRun(nSecs, others, s0, Apply(nSecs, s, steps[0]), steps[1..], k);
    }
  }

  /** Whatever is reached has its price paid, unless other signals keep arriving. */
  lemma SpentReached(nSecs: nat, others: set<nat>, s0: Process, t: Process)
    requires s0 == Start(s0.mask, s0.pending, s0.action, s0.timer) && WithinTo(nSecs, others, s0, t)
    ensures Inv(nSecs, s0, t)
    ensures !Arrives(others, s0) ==> Spent(s0, t, |Others(s0, t)|, |Others(s0, s0)|)
  {
    var steps :| Within(others, steps) && Leads(nSecs, s0, steps, t);
    InvRun(nSecs, s0, s0, steps);
    if !Arrives(others, s0) {
      SpentRun(nSecs, others, s0, s0, steps, |Others(s0, s0)|);
    }
  }

  // ---------- When it can happen ----------

  lemma WithinThen(nSecs: nat, others: set<nat>, s: Process, t: Process, st: Step)
    requires WithinTo(nSecs, others, s, t) && Enabled(t, st) && (st.Raise? ==> st.sig in others)
    ensures WithinTo(nSecs, others, s, Apply(nSecs, t, st))
  {
    hide Apply, Enabled;
    var steps :| Within(others, steps) && Leads(nSecs, s, steps, t);
    LeadsThen(nSecs, s, steps, t, st);
    assert Within(others, steps + [st]);
  }

  /** Letting an armed timer run out. */
  lemma {:induction false} RunOut(nSecs: nat, others: set<nat>, s: Process, t: Process) returns (u: Process)
    requires WithinTo(nSecs, others, s, t) && t.timer > 0 && t.pc != Killed && t.action == DoSig
    ensures WithinTo(nSecs, others, s, u)
    ensures u == t.(timer := 0, clock := t.clock + t.timer, pending := t.pending + {SIGALRM})
    decreases t.timer
  {
    WithinThen(nSecs, others, s, t, Tick);
    u := TickStep(t);
    if t.timer > 1 {
      u := RunOut(nSecs, others, s, u);
    }
  }

  lemma OneFewer(s0: Process, s: Process, t: Process, sig: nat)
    requires t.pending == s.pending - {sig} || t.pending == s.pending - {sig} + {SIGALRM}
    ensures |Others(s0, t)| + 1 >= |Others(s0, s)|
  {
    assert Others(s0, t) == Others(s0, s) - {sig};
  }

  lemma SameOthers(s0: Process, s: Process, t: Process)
    requires t.pending == s.pending || t.pending == s.pending + {SIGALRM}
    ensures Others(s0, t) == Others(s0, s)
  {
  }

  lemma NothingOwed(s0: Process, s: Process)
    requires Others(s0, s) == {} && (SIGALRM in s.pending ==> SIGALRM in s.mask)
    requires s.mask == s0.mask || s.mask == s0.mask + {SIGALRM}
    ensures forall sig :: sig in s.pending ==> sig in s.mask
  {
    forall sig | sig in s.pending
      ensures sig in s.mask
    {
      assert sig !in Others(s0, s);
    }
  }

  /** Lines 19 and 21, with as few deliveries as can be. */
  lemma ReachBlocked(nSecs: nat, others: set<nat>, s0: Process) returns (s: Process)
    requires s0 == Start(s0.mask, s0.pending, s0.action, s0.timer)
    ensures WithinTo(nSecs, others, s0, s)
    ensures s.pc == Blocked && s.action == DoSig && s.oldMask == s0.mask && s.oldAction == s0.action
    ensures s.timer == s0.timer && (SIGALRM in s.pending <==> SIGALRM in s0.pending)
    ensures |Others(s0, s)| + 1 >= |Others(s0, s0)|
  {
    hide WithinTo;
    LeadsNone(nSecs, s0);
    WithinNone(nSecs, others, s0);
    WithinThen(nSecs, others, s0, s0, Call);
    var s1 := CallStep(nSecs, s0);
    WithinThen(nSecs, others, s0, s1, Call);
    s := CallStep(nSecs, s1);
    if sig: nat :| sig in Others(s0, s) {
      WithinThen(nSecs, others, s0, s, Deliver(sig));
      s := DeliverStep(s, sig);
      OneFewer(s0, s0, s, sig);
    } else {
      NothingOwed(s0, s);
    }
    WithinThen(nSecs, others, s0, s, Call);
    s := CallStep(nSecs, s);
  }

  lemma WithinNone(nSecs: nat, others: set<nat>, s: Process)
    ensures WithinTo(nSecs, others, s, s)
  {
    LeadsNone(nSecs, s);
    assert Within(others, []);
  }

  /** A signal to end the suspension with. */
  lemma FindSignal(nSecs: nat, others: set<nat>, s0: Process, s: Process) returns (t: Process, sig: nat)
    requires WithinTo(nSecs, others, s0, s) && s.pc == Blocked && s.action == DoSig && s.oldMask == s0.mask
    requires s.timer == s0.timer && (SIGALRM in s.pending <==> SIGALRM in s0.pending)
    requires |Others(s0, s)| + 1 >= |Others(s0, s0)| && MayEndEarly(others, s0)
    ensures WithinTo(nSecs, others, s0, t) && t == s.(timer := t.timer, clock := t.clock, pending := t.pending)
    ensures sig in t.pending && (sig == SIGALRM || Unblocked(s0, sig)) && (sig == SIGALRM <==> Earlier(s0))
    ensures |Others(s0, t)| >= |Others(s0, s)|
  {
    t, sig := s, SIGALRM;
    if s0.timer > 0 {
      t := RunOut(nSecs, others, s0, s);
      SameOthers(s0, s, t);
    } else if SIGALRM !in s0.pending {
      if Arrives(others, s0) {
        var other: nat :| other in others && Unblocked(s0, other);
        sig := other;
        if sig !in s.pending {
          WithinThen(nSecs, others, s0, s, Raise(sig));
          t := Apply(nSecs, s, Raise(sig));
          assert Others(s0, t) == Others(s0, s) + {sig};
        }
      } else {
        sig := Some(Others(s0, s));
      }
    }
  }

  ghost function Some(x: set<nat>): (sig: nat)
    requires |x| > 0
    ensures sig in x
  {
    var sig :| sig in x;
    sig
  }

  /** That signal ends the suspension; mysleep's own alarm then fires before it is cancelled. */
  lemma Linger(nSecs: nat, others: set<nat>, s0: Process, s3: Process, sig: nat) returns (t: Process)
    requires nSecs >= 1 && WithinTo(nSecs, others, s0, s3) && s3.pc == Blocked && s3.action == DoSig
    requires sig in s3.pending && (sig == SIGALRM || sig !in s3.oldMask) && s3.oldAction != Ignore
    ensures WithinTo(nSecs, others, s0, t) && Lingering(t)
    ensures t.pending == s3.pending - {sig} + {SIGALRM} && t.oldMask == s3.oldMask && t.action == s3.oldAction
  {
    hide WithinTo;
    WithinThen(nSecs, others, s0, s3, Call);
    var s4 := CallStep(nSecs, s3);
    WithinThen(nSecs, others, s0, s4, Call);
    var s5 := CallStep(nSecs, s4);
    WithinThen(nSecs, others, s0, s5, Deliver(sig));
    var s6 := DeliverStep(s5, sig);
    WithinThen(nSecs, others, s0, s6, Call);
    var s7 := CallStep(nSecs, s6);
    var s8 := RunOut(nSecs, others, s0, s7);
    WithinThen(nSecs, others, s0, s8, Call);
    var s9 := CallStep(nSecs, s8);
    WithinThen(nSecs, others, s0, s9, Call);
    t := CallStep(nSecs, s9);
  }

  lemma Lingers(nSecs: nat, others: set<nat>, s0: Process) returns (t: Process)
    requires s0 == Start(s0.mask, s0.pending, s0.action, s0.timer)
    requires nSecs >= 1 && s0.action != Ignore && MayEndEarly(others, s0)
    ensures WithinTo(nSecs, others, s0, t) && Lingering(t) && t.oldMask == s0.mask && t.action == s0.action
    ensures |Others(s0, t)| + (if Earlier(s0) then 1 else 2) >= |Others(s0, s0)|
  {
    hide WithinTo, Others, MayEndEarly;
    var s := ReachBlocked(nSecs, others, s0);
    var s3, sig := FindSignal(nSecs, others, s0, s);
    t := Linger(nSecs, others, s0, s3, sig);
    if sig == SIGALRM {
      assert t.pending == s3.pending;
      SameOthers(s0, s3, t);
    } else {
      OneFewer(s0, s3, t, sig);
    }
  }

  /** Line 30 with the alarm pending: it returns past it when something else is delivered there,
      or when the caller blocks SIGALRM. */
  lemma ReturnsPast(nSecs: nat, others: set<nat>, s0: Process, t: Process) returns (u: Process)
    requires WithinTo(nSecs, others, s0, t) && Lingering(t) && t.oldMask == s0.mask
    requires SIGALRM in s0.mask || Arrives(others, s0) || |Others(s0, t)| > 0
    ensures WithinTo(nSecs, others, s0, u) && AlarmLeft(u)
  {
    hide WithinTo;
    WithinThen(nSecs, others, s0, t, Call);
    u := CallStep(nSecs, t);
    if Others(s0, u) == {} && Arrives(others, s0) {
      var other: nat :| other in others && Unblocked(s0, other);
      WithinThen(nSecs, others, s0, u, Raise(other));
      u := Apply(nSecs, u, Raise(other));
      assert other in Others(s0, u);
    }
    if |Others(s0, u)| > 0 {
      var sig := Some(Others(s0, u));
      WithinThen(nSecs, others, s0, u, Deliver(sig));
      u := DeliverStep(u, sig);
    } else {
      NothingOwed(s0, u);
    }
    WithinThen(nSecs, others, s0, u, Call);
    u := CallStep(nSecs, u);
  }

  // ---------- The results, for a nonzero sleep ----------

  /** SIGALRM can still be pending when the old action is back exactly when that is not to ignore
      it and something may end the suspension early. */
  lemma LingersIff(nSecs: nat, others: set<nat>, mask: set<nat>, pending: set<nat>, action: Action, timer: nat)
    requires nSecs >= 1
    ensures var s0 := Start(mask, pending, action, timer);
            CanLinger(nSecs, others, s0) <==> action != Ignore && MayEndEarly(others, s0)
  {
    var s0 := Start(mask, pending, action, timer);
    if action != Ignore && MayEndEarly(others, s0) {
      var t := Lingers(nSecs, others, s0);
    }
    if CanLinger(nSecs, others, s0) {
      var t :| WithinTo(nSecs, others, s0, t) && Lingering(t);
      SpentReached(nSecs, others, s0, t);
    }
  }

  /** It is then met inside line 30 unless the caller blocks it, and kills the process there
      exactly when the old action is to terminate it. */
  lemma DiesIff(nSecs: nat, others: set<nat>, mask: set<nat>, pending: set<nat>, action: Action, timer: nat)
    requires nSecs >= 1
    ensures var s0 := Start(mask, pending, action, timer);
            CanDie(nSecs, others, s0) <==> action == Terminate && SIGALRM !in mask && MayEndEarly(others, s0)
  {
    var s0 := Start(mask, pending, action, timer);
    if action == Terminate && SIGALRM !in mask && MayEndEarly(others, s0) {
      var t := Lingers(nSecs, others, s0);
      WithinThen(nSecs, others, s0, t, Call);
      assert Meeting(CallStep(nSecs, t));
    }
    if CanDie(nSecs, others, s0) {
      var t :| WithinTo(nSecs, others, s0, t) && Meeting(t) && Apply(nSecs, t, Deliver(SIGALRM)).pc == Killed;
      SpentReached(nSecs, others, s0, t);
    }
  }

  /** mysleep can return with SIGALRM pending exactly when it can linger and, if the caller does
      not block it, one more signal can be delivered in its place inside line 30. */
  lemma LeavesAlarmIff(nSecs: nat, others: set<nat>, mask: set<nat>, pending: set<nat>, action: Action, timer: nat)
    requires nSecs >= 1
    ensures var s0 := Start(mask, pending, action, timer);
            CanLeaveAlarm(nSecs, others, s0) <==>
            && action != Ignore && MayEndEarly(others, s0)
            && (SIGALRM in mask || Supply(others, s0, if Earlier(s0) then 2 else 3))
  {
    var s0 := Start(mask, pending, action, timer);
    if action != Ignore && MayEndEarly(others, s0) &&
       (SIGALRM in mask || Supply(others, s0, if Earlier(s0) then 2 else 3))
    {
      var t := Lingers(nSecs, others, s0);
      var u := ReturnsPast(nSecs, others, s0, t);
    }
    if CanLeaveAlarm(nSecs, others, s0) {
      var t :| WithinTo(nSecs, others, s0, t) && AlarmLeft(t);
      SpentReached(nSecs, others, s0, t);
    }
  }

  /** Over all runs, with any signals about, only ignoring SIGALRM rules it out. */
  lemma LeavesAlarmUnlessIgnored(nSecs: nat, mask: set<nat>, pending: set<nat>, action: Action, timer: nat)
    requires nSecs >= 1
    ensures (exists others :: CanLeaveAlarm(nSecs, others, Start(mask, pending, action, timer))) <==> action != Ignore
  {
    var s0 := Start(mask, pending, action, timer);
    var sig := Above(mask + {SIGALRM});
    assert Unblocked(s0, sig);
    assert Arrives({sig}, s0);
    LeavesAlarmIff(nSecs, {sig}, mask, pending, action, timer);
    if action == Ignore {
      forall others
        ensures !CanLeaveAlarm(nSecs, others, s0)
      {
        LeavesAlarmIff(nSecs, others, mask, pending, action, timer);
      }
    }
  }

  /** A signal outside a finite set. */
  lemma {:induction false} Above(mask: set<nat>) returns (sig: nat)
    ensures forall x :: x in mask ==> x < sig
  {
    if mask == {} {
      return 0;
    }
    var x :| x in mask;
    var rest := mask - {x};
    var above := Above(rest);
    sig := if above <= x then x + 1 else above;
    forall y | y in mask
      ensures y < sig
    {
      assert y == x || y in rest;
    }
  }
}
