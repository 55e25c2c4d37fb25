/** 007singnal/08sigsuspend.c: mysleep, one system call at a time, interleaved in any order with
    clock ticks, other signals arriving, and deliveries. The calls follow POSIX.1-2017 (System
    Interfaces, alarm, sigaction, sigprocmask and sigsuspend). */
module RaceFreeSleep {

  const SIGALRM: nat := 14

  /** What SIGALRM does: terminate the process, nothing, mysleep's do_sig, or another handler. */
  datatype Action = Terminate | Ignore | DoSig | Handler(id: nat)

  /** Where mysleep stands, named after the call it has completed. Suspended is inside sigsuspend;
      Blocking and Unblocking are inside the sigprocmask of lines 21 and 30, the mask already set. */
  datatype Pc =
    | Entry | Installed | Blocking | Blocked | Armed | Suspended | Resumed | Disarmed | Reinstalled
    | Unblocking | Returned | Killed

  /** The process, the clock, mysleep's local variables, when the alarm was set and cancelled, and
      whether a handler has run in the present sigprocmask or sigsuspend. A timer of 0 is not armed. */
  datatype Process = Process(
    pc: Pc, mask: set<nat>, pending: set<nat>, action: Action, timer: nat, clock: nat,
    oldAction: Action, oldMask: set<nat>, unslept: nat, setAt: nat, cancelledAt: nat, caught: bool)

  function Start(mask: set<nat>, pending: set<nat>, action: Action, timer: nat): Process {
    Process(Entry, mask, pending, action, timer, 0, action, mask, 0, 0, 0, false)
  }

  /** mysleep's next call; a second passing; another signal, which has a handler, arriving; a
      pending signal that is not blocked being delivered. */
  datatype Step = Call | Tick | Raise(sig: nat) | Deliver(sig: nat)

  /** The present call may return. sigsuspend does after a handler has run; sigprocmask not before
      at least one signal is delivered, if any is pending that the new mask does not block. */
  predicate MayReturn(s: Process) {
    match s.pc
    case Returned => false
    case Suspended => s.caught
    case Blocking => s.caught || forall sig :: sig in s.pending ==> sig in s.mask
    case Unblocking => s.caught || forall sig :: sig in s.pending ==> sig in s.mask
    case _ => true
  }

  predicate Enabled(s: Process, st: Step) {
    s.pc != Killed &&
    match st
    case Call => MayReturn(s)
    case Tick => true
    case Raise(sig) => sig != SIGALRM
    case Deliver(sig) => sig in s.pending && sig !in s.mask
  }

  /** Setting a signal's action to ignore also discards a pending one. */
  function CallStep(nSecs: nat, s: Process): Process {
    match s.pc
    case Entry => s.(pc := Installed, oldAction := s.action, action := DoSig)
    case Installed => s.(pc := Blocking, oldMask := s.mask, mask := s.mask + {SIGALRM}, caught := false)
    case Blocking => s.(pc := Blocked)
    case Blocked => s.(pc := Armed, timer := nSecs, setAt := s.clock)
    case Armed => s.(pc := Suspended, mask := s.oldMask - {SIGALRM}, caught := false)
    case Suspended => s.(pc := Resumed, mask := s.oldMask + {SIGALRM})
    case Resumed => s.(pc := Disarmed, unslept := s.timer, timer := 0, cancelledAt := s.clock)
    case Disarmed =>
      s.(pc := Reinstalled, action := s.oldAction,
         pending := if s.oldAction == Ignore then s.pending - {SIGALRM} else s.pending)
    case Reinstalled => s.(pc := Unblocking, mask := s.oldMask, caught := false)
    case Unblocking => s.(pc := Returned)
    case _ => s
  }

  /** A second passes; an expiring alarm is discarded when ignored and not blocked. */
  function TickStep(s: Process): Process {
    var fires := s.timer == 1 && !(s.action == Ignore && SIGALRM !in s.mask);
    s.(clock := s.clock + 1, timer := if s.timer > 0 then s.timer - 1 else 0,
       pending := if fires then s.pending + {SIGALRM} else s.pending)
  }

  function DeliverStep(s: Process, sig: nat): Process {
    var taken := s.(pending := s.pending - {sig});
    if sig == SIGALRM && s.action == Terminate then taken.(pc := Killed)
    else if sig == SIGALRM && s.action == Ignore then taken
    else taken.(caught := true)
  }

  function Apply(nSecs: nat, s: Process, st: Step): Process {
    match st
    case Call => CallStep(nSecs, s)
    case Tick => TickStep(s)
    case Raise(sig) => s.(pending := s.pending + {sig})
    case Deliver(sig) => DeliverStep(s, sig)
  }

  predicate Legal(nSecs: nat, s: Process, steps: seq<Step>)
    decreases |steps|
  {
    steps == [] || (Enabled(s, steps[0]) && Legal(nSecs, Apply(nSecs, s, steps[0]), steps[1..]))
  }

  function Run(nSecs: nat, s: Process, steps: seq<Step>): Process
    decreases |steps|
  {
    if steps == [] then s else Run(nSecs, Apply(nSecs, s, steps[0]), steps[1..])
  }

  ghost predicate Leads(nSecs: nat, s: Process, steps: seq<Step>, t: Process) {
    Legal(nSecs, s, steps) && Run(nSecs, s, steps) == t
  }

  lemma LeadsNone(nSecs: nat, s: Process)
    ensures Leads(nSecs, s, [], s)
  {
  }

  lemma {:induction false} LeadsThen(nSecs: nat, s: Process, steps: seq<Step>, t: Process, st: Step)
    requires Leads(nSecs, s, steps, t) && Enabled(t, st)
    ensures Leads(nSecs, s, steps + [st], Apply(nSecs, t, st))
    decreases |steps|
  {
    hide Apply, Enabled;
    if steps == [] {
      assert steps + [st] == [st];
      assert [st][1..] == [];
      LeadsNone(nSecs, Apply(nSecs, s, st));
    } else {
      LeadsThen(nSecs, Apply(nSecs, s, steps[0]), steps[1..], t, st);
      assert (steps + [st])[1..] == steps[1..] + [st];
    }
  }

  // ---------- The invariant ----------

  function Elapsed(s: Process): int {
    s.clock - s.setAt
  }

  /** With the alarm set and not yet cancelled: it runs exactly, and once it has fired its signal
      is still pending or a handler has run. */
  ghost predicate Counting(nSecs: nat, s: Process) {
    && s.setAt <= s.clock
    && (s.timer > 0 ==> s.timer + Elapsed(s) == nSecs)
    && (s.timer == 0 ==> Elapsed(s) >= nSecs)
    && (s.timer == 0 && nSecs >= 1 && s.pc != Resumed ==> SIGALRM in s.pending || (s.pc == Suspended && s.caught))
  }

  ghost predicate Inv(nSecs: nat, s0: Process, s: Process) {
    match s.pc
    case Entry => s.mask == s0.mask && s.action == s0.action
    case Installed => s.mask == s0.mask && s.oldAction == s0.action && s.action == DoSig
    case Blocking => s.mask == s0.mask + {SIGALRM} && Saved(s0, s)
    case Blocked => s.mask == s0.mask + {SIGALRM} && Saved(s0, s)
    case Armed => s.mask == s0.mask + {SIGALRM} && Saved(s0, s) && Counting(nSecs, s)
    case Suspended => s.mask == s0.mask - {SIGALRM} && Saved(s0, s) && Counting(nSecs, s)
    case Resumed => s.mask == s0.mask + {SIGALRM} && Saved(s0, s) && Counting(nSecs, s)
    case Disarmed => s.mask == s0.mask + {SIGALRM} && Saved(s0, s) && Settled(nSecs, s)
    case Reinstalled =>
      && s.mask == s0.mask + {SIGALRM} && s.oldMask == s0.mask && s.action == s0.action
      && Settled(nSecs, s) && Discarded(s)
    case Unblocking => s.mask == s0.mask && s.action == s0.action && Settled(nSecs, s) && Discarded(s)
    case Returned => s.mask == s0.mask && s.action == s0.action && Settled(nSecs, s) && Discarded(s)
    case Killed => s0.action == Terminate
  }

  ghost predicate Saved(s0: Process, s: Process) {
    s.oldMask == s0.mask && s.oldAction == s0.action && s.action == DoSig
  }

  predicate Discarded(s: Process) {
    s.action == Ignore ==> SIGALRM !in s.pending
  }

  /** The value mysleep returns: what is left of nSecs at the moment the alarm is cancelled. */
  ghost predicate Settled(nSecs: nat, s: Process) {
    && s.timer == 0 && s.setAt <= s.cancelledAt <= s.clock
    && s.unslept == (if s.cancelledAt - s.setAt < nSecs then nSecs - (s.cancelledAt - s.setAt) else 0)
  }

  lemma InvCall(nSecs: nat, s0: Process, s: Process)
    requires Inv(nSecs, s0, s) && Enabled(s, Call)
    ensures Inv(nSecs, s0, CallStep(nSecs, s))
  {
  }

  lemma InvTick(nSecs: nat, s0: Process, s: Process)
    requires Inv(nSecs, s0, s)
    ensures Inv(nSecs, s0, TickStep(s))
  {
  }

  lemma InvSignal(nSecs: nat, s0: Process, s: Process, st: Step)
    requires Inv(nSecs, s0, s) && Enabled(s, st) && (st.Raise? || st.Deliver?)
    ensures Inv(nSecs, s0, Apply(nSecs, s, st))
  {
  }

  lemma InvStep(nSecs: nat, s0: Process, s: Process, st: Step)
    requires Inv(nSecs, s0, s) && Enabled(s, st)
    ensures Inv(nSecs, s0, Apply(nSecs, s, st))
  {
    hide Inv;
    match st
    case Call => InvCall(nSecs, s0, s);
    case Tick => InvTick(nSecs, s0, s);
    case Raise(_) => InvSignal(nSecs, s0, s, st);
    case Deliver(_) => InvSignal(nSecs, s0, s, st);
  }

  lemma {:induction false} InvRun(nSecs: nat, s0: Process, s: Process, steps: seq<Step>)
    requires Inv(nSecs, s0, s) && Legal(nSecs, s, steps)
    ensures Inv(nSecs, s0, Run(nSecs, s, steps))
    decreases |steps|
  {
    hide Inv, Apply, Enabled;
    if steps != [] {
      InvStep(nSecs, s0, s, steps[0]);
      InvRun(nSecs, s0, Apply(nSecs, s, steps[0]), steps[1..]);
    }
  }

  /** An alarm that expires is pending from then on, unless it is ignored at once, which takes both
      the action to ignore it and a mask that does not block it. */
  lemma Expires(s: Process)
    requires s.timer >= 1
    ensures var r := TickStep(s);
            && r.timer == s.timer - 1 && r.clock == s.clock + 1
            && (s.timer > 1 ==> r.pending == s.pending)
            && (s.timer == 1 && (s.action != Ignore || SIGALRM in s.mask) ==> r.pending == s.pending + {SIGALRM})
            && (s.timer == 1 && s.action == Ignore && SIGALRM !in s.mask ==> r.pending == s.pending)
  {
  }

  // ---------- What mysleep guarantees ----------

  /** Nothing but an unrelated signal could wake it: inside sigsuspend, no alarm armed, none
      pending, no handler run. */
  predicate Stranded(s: Process) {
    s.pc == Suspended && !s.caught && s.timer == 0 && SIGALRM !in s.pending
  }

  /** From any starting mask, action, pending signals and earlier alarm. */
  ghost predicate CanStrand(nSecs: nat) {
    exists mask, pending, action, timer: nat, steps, t ::
      Leads(nSecs, Start(mask, pending, action, timer), steps, t) && Stranded(t)
  }

  /** A suspended mysleep always has its wakeup coming: the signal is pending and can be delivered,
      or the timer runs and fires within what is left of nSecs. */
  lemma WakeupIsComing(nSecs: nat, mask: set<nat>, pending: set<nat>, action: Action, timer: nat,
      steps: seq<Step>, t: Process)
    requires nSecs >= 1 && Leads(nSecs, Start(mask, pending, action, timer), steps, t)
    requires t.pc == Suspended && !t.caught
    ensures (SIGALRM in t.pending && Enabled(t, Deliver(SIGALRM)) && Apply(nSecs, t, Deliver(SIGALRM)).caught) ||
            (t.timer > 0 && t.timer + Elapsed(t) == nSecs)
  {
    InvRun(nSecs, Start(mask, pending, action, timer), Start(mask, pending, action, timer), steps);
  }

  /** The race a plain alarm-and-pause has is absent exactly for a nonzero sleep. */
  lemma StrandsIff(nSecs: nat)
    ensures CanStrand(nSecs) <==> nSecs == 0
  {
    if nSecs == 0 {
      var s0 := Start({}, {}, Terminate, 0);
      var s1 := CallStep(0, s0);
      var s2 := CallStep(0, s1);
      var s3 := CallStep(0, s2);
      var s4 := CallStep(0, s3);
      var s5 := CallStep(0, s4);
      LeadsNone(0, s0);
      LeadsThen(0, s0, [], s0, Call);
      LeadsThen(0, s0, [] + [Call], s1, Call);
      LeadsThen(0, s0, [] + [Call] + [Call], s2, Call);
      LeadsThen(0, s0, [] + [Call] + [Call] + [Call], s3, Call);
      LeadsThen(0, s0, [] + [Call] + [Call] + [Call] + [Call], s4, Call);
      assert Stranded(s5);
    } else if CanStrand(nSecs) {
      var mask, pending, action, timer: nat, steps, t :|
        Leads(nSecs, Start(mask, pending, action, timer), steps, t) && Stranded(t);
      WakeupIsComing(nSecs, mask, pending, action, timer, steps, t);
      InvRun(nSecs, Start(mask, pending, action, timer), Start(mask, pending, action, timer), steps);
      assert false;
    }
  }

  /** The returned value is exactly what was left of nSecs when the alarm was cancelled, so the
      time spent and the returned value together are never less than nSecs; the signal mask and
      the action of SIGALRM are as before the call, and no alarm is left armed. */
  lemma SleepAccounts(nSecs: nat, mask: set<nat>, pending: set<nat>, action: Action, timer: nat,
      steps: seq<Step>, t: Process)
    requires Leads(nSecs, Start(mask, pending, action, timer), steps, t) && t.pc == Returned
    ensures var slept := t.cancelledAt - t.setAt;
            slept + t.unslept == if slept < nSecs then nSecs else slept
    ensures t.clock - t.setAt + t.unslept >= nSecs
    ensures t.mask == mask && t.action == action && t.timer == 0
  {
    InvRun(nSecs, Start(mask, pending, action, timer), Start(mask, pending, action, timer), steps);
  }

  // ---------- The same calls on a process updated in place ----------

  class Sleeper {
    const nSecs: nat
    var pc: Pc
    var mask: set<nat>
    var pending: set<nat>
    var action: Action
    var timer: nat
    var clock: nat
    var oldAction: Action
    var oldMask: set<nat>
    var unslept: nat
    var caught: bool
    ghost var setAt: nat
    ghost var cancelledAt: nat

    ghost function View(): Process
      reads this
    {
      Process(pc, mask, pending, action, timer, clock, oldAction, oldMask, unslept, setAt, cancelledAt, caught)
    }

    constructor (nSecs: nat, mask: set<nat>, pending: set<nat>, action: Action, timer: nat)
      ensures View() == Start(mask, pending, action, timer) && this.nSecs == nSecs
    {
      this.nSecs := nSecs;
      pc, this.mask, this.pending, this.action, this.timer, clock := Entry, mask, pending, action, timer, 0;
      oldAction, oldMask, unslept, setAt, cancelledAt, caught := action, mask, 0, 0, 0, false;
    }

    /** alarm(2): rearm or cancel, and report what was left. */
    method Alarm(seconds: nat) returns (left: nat)
      modifies `timer
      ensures left == old(timer) && timer == seconds
    {
      left := timer;
      timer := seconds;
    }

    /** mysleep's next call, lines 14 to 30. */
    method Call()
      requires Enabled(View(), Step.Call)
      modifies this
      ensures View() == CallStep(nSecs, old(View()))
    {
      match pc
      case Entry =>
        oldAction := action;
        action := DoSig;
        pc := Installed;
      case Installed =>
        oldMask := mask;
        mask := mask + {SIGALRM};
        caught := false;
        pc := Blocking;
      case Blocking =>
        pc := Blocked;
      case Blocked =>
        var _ := Alarm(nSecs);
        setAt := clock;
        pc := Armed;
      case Armed =>
        mask := oldMask - {SIGALRM};
        caught := false;
        pc := Suspended;
      case Suspended =>
        mask := oldMask + {SIGALRM};
        pc := Resumed;
      case Resumed =>
        unslept := Alarm(0);
        cancelledAt := clock;
        pc := Disarmed;
      case Disarmed =>
        action := oldAction;
        if action == Ignore {
          pending := pending - {SIGALRM};
        }
        pc := Reinstalled;
      case Reinstalled =>
        mask := oldMask;
        caught := false;
        pc := Unblocking;
      case Unblocking =>
        pc := Returned;
      case Returned =>
      case Killed =>
    }
  }
}
