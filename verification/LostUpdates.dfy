/** 010_thread_sync/01thread_no_sync.c: two threads add 1 to a global n times each,
    loading and storing it without a lock. Each load and each store is one atomic step
    and the scheduler may interleave them in any order. */
module LostUpdates {

  /** Where a thread stands in its loop body: about to load, or holding the value it loaded. */
  datatype Pc = AtLoad | AtStore(val: nat)

  datatype Thread = Thread(i: nat, pc: Pc)

  datatype Race = Race(ncount: nat, first: Thread, second: Thread)

  datatype Who = First | Second

  const START := Race(0, Thread(0, AtLoad), Thread(0, AtLoad))

  function Get(s: Race, who: Who): Thread {
    if who == First then s.first else s.second
  }

  function Put(s: Race, who: Who, t: Thread): Race {
    if who == First then s.(first := t) else s.(second := t)
  }

  predicate CanStep(n: nat, s: Race, who: Who) {
    Get(s, who).i < n
  }

  function Step(s: Race, who: Who): Race {
    var t := Get(s, who);
    match t.pc
    case AtLoad => Put(s, who, t.(pc := AtStore(s.ncount)))
    case AtStore(v) => Put(s, who, Thread(t.i + 1, AtLoad)).(ncount := v + 1)
  }

  function Run(s: Race, schedule: seq<Who>): Race {
    if schedule == [] then s
    else Step(Run(s, schedule[..|schedule| - 1]), schedule[|schedule| - 1])
  }

  /** Every scheduled thread still has an iteration to run. */
  predicate Legal(n: nat, s: Race, schedule: seq<Who>) {
    schedule == [] ||
    (var k := |schedule| - 1;
     Legal(n, s, schedule[..k]) && CanStep(n, Run(s, schedule[..k]), schedule[k]))
  }

  predicate Complete(n: nat, s: Race) {
    s.first == Thread(n, AtLoad) && s.second == Thread(n, AtLoad)
  }

  ghost predicate Outcome(n: nat, v: nat) {
    exists schedule ::
      Legal(n, START, schedule) && Complete(n, Run(START, schedule)) && Run(START, schedule).ncount == v
  }

  // ---------- The bounds, as an invariant of every interleaving ----------

  /** What a loaded value can be: no more than the stores so far, and not the initial 0
      once its own thread has stored. */
  ghost predicate LoadedOk(n: nat, s: Race, t: Thread) {
    t.i <= n &&
    match t.pc
    case AtLoad => true
    case AtStore(v) => t.i < n && v <= s.first.i + s.second.i && (t.i >= 1 ==> v >= 1)
  }

  ghost predicate Inv(n: nat, s: Race) {
    && s.ncount <= s.first.i + s.second.i
    && LoadedOk(n, s, s.first)
    && LoadedOk(n, s, s.second)
    && (s.first.i >= 1 || s.second.i >= 1 ==> s.ncount >= 1)
    && (s.first.i >= 2 && s.second.i >= 2 ==> s.ncount >= 2)
  }

  lemma {:induction false} InvAlways(n: nat, schedule: seq<Who>)
    requires Legal(n, START, schedule)
    ensures Inv(n, Run(START, schedule))
  {
    if schedule != [] {
      InvAlways(n, schedule[..|schedule| - 1]);
    }
  }

  // ---------- Schedules that reach every value in between ----------

  lemma {:induction false} RunConcat(n: nat, s: Race, x: seq<Who>, y: seq<Who>)
    requires Legal(n, s, x) && Legal(n, Run(s, x), y)
    ensures Legal(n, s, x + y) && Run(s, x + y) == Run(Run(s, x), y)
  {
    if y == [] {
      assert x + y == x;
    } else {
      var k := |y| - 1;
      RunConcat(n, s, x, y[..k]);
      assert (x + y)[..|x| + k] == x + y[..k];
      assert (x + y)[|x| + k] == y[k];
    }
  }

  /** k uninterrupted iterations of one thread. */
  function Solo(who: Who, k: nat): seq<Who> {
    if k == 0 then [] else Solo(who, k - 1) + [who, who]
  }

  lemma {:induction false} RunSolo(n: nat, s: Race, who: Who, k: nat)
    requires Get(s, who).pc == AtLoad && Get(s, who).i + k <= n
    ensures Legal(n, s, Solo(who, k))
    ensures Run(s, Solo(who, k)) == Put(s, who, Thread(Get(s, who).i + k, AtLoad)).(ncount := s.ncount + k)
  {
    if k > 0 {
      RunSolo(n, s, who, k - 1);
      var mid := Run(s, Solo(who, k - 1));
      RunOne(n, mid, who);
      assert Run(mid, [who]).ncount == mid.ncount;
      RunOne(n, Run(mid, [who]), who);
      RunConcat(n, mid, [who], [who]);
      assert [who] + [who] == [who, who];
      RunConcat(n, s, Solo(who, k - 1), [who, who]);
    }
  }

  lemma RunOne(n: nat, s: Race, who: Who)
    requires CanStep(n, s, who)
    ensures Legal(n, s, [who]) && Run(s, [who]) == Step(s, who)
  {
    assert [who][..0] == [];
    assert Run(s, []) == s;
    assert Legal(n, s, []);
  }

  ghost predicate Reaches(n: nat, schedule: seq<Who>, s: Race) {
    Legal(n, START, schedule) && Run(START, schedule) == s
  }

  lemma ThenOne(n: nat, x: seq<Who>, s: Race, who: Who)
    requires Reaches(n, x, s) && CanStep(n, s, who)
    ensures Reaches(n, x + [who], Step(s, who))
  {
    RunOne(n, s, who);
    RunConcat(n, START, x, [who]);
  }

  lemma ThenSolo(n: nat, x: seq<Who>, s: Race, who: Who, k: nat)
    requires Reaches(n, x, s) && Get(s, who).pc == AtLoad && Get(s, who).i + k <= n
    ensures Reaches(n, x + Solo(who, k), Put(s, who, Thread(Get(s, who).i + k, AtLoad)).(ncount := s.ncount + k))
  {
    RunSolo(n, s, who, k);
    RunConcat(n, START, x, Solo(who, k));
  }

  /** After p and q undisturbed iterations, each thread's last but one store is lost:
      First loads, Second runs all its iterations but one, First stores, Second loads,
      First runs to its end, Second stores. */
  function Lossy(n: nat, p: nat, q: nat): seq<Who>
    requires p < n && q < n
  {
    SecondAhead(n, p, q) + [First] + [Second] + Solo(First, n - 1 - p) + [Second]
  }

  function SecondAhead(n: nat, p: nat, q: nat): seq<Who>
    requires p < n && q < n
  {
    Solo(First, p) + Solo(Second, q) + [First] + Solo(Second, n - 1 - q)
  }

  lemma RunSecondAhead(n: nat, p: nat, q: nat)
    requires p < n && q < n
    ensures Reaches(n, SecondAhead(n, p, q), Race(p + n - 1, Thread(p, AtStore(p + q)), Thread(n - 1, AtLoad)))
  {
    var x1 := Solo(First, p);
    RunSolo(n, START, First, p);
    var x2 := x1 + Solo(Second, q);
    ThenSolo(n, x1, Race(p, Thread(p, AtLoad), Thread(0, AtLoad)), Second, q);
    ThenOne(n, x2, Race(p + q, Thread(p, AtLoad), Thread(q, AtLoad)), First);
    ThenSolo(n, x2 + [First], Race(p + q, Thread(p, AtStore(p + q)), Thread(q, AtLoad)), Second, n - 1 - q);
  }

  lemma RunLossy(n: nat, p: nat, q: nat)
    requires p < n && q < n
    ensures Reaches(n, Lossy(n, p, q), Race(p + q + 2, Thread(n, AtLoad), Thread(n, AtLoad)))
  {
    RunSecondAhead(n, p, q);
    var x4 := SecondAhead(n, p, q);
    var s4 := Race(p + n - 1, Thread(p, AtStore(p + q)), Thread(n - 1, AtLoad));
    ThenOne(n, x4, s4, First);
    var s5 := Race(p + q + 1, Thread(p + 1, AtLoad), Thread(n - 1, AtLoad));
    ThenOne(n, x4 + [First], s5, Second);
    var s6 := Race(p + q + 1, Thread(p + 1, AtLoad), Thread(n - 1, AtStore(p + q + 1)));
    ThenSolo(n, x4 + [First] + [Second], s6, First, n - 1 - p);
    var s7 := Race(n + q, Thread(n, AtLoad), Thread(n - 1, AtStore(p + q + 1)));
    ThenOne(n, x4 + [First] + [Second] + Solo(First, n - 1 - p), s7, Second);
  }

  /** The exact set of final values, for every iteration count. */
  lemma ExactOutcomes(n: nat, v: nat)
    ensures Outcome(n, v) <==> (if n >= 2 then 2 else n) <= v <= 2 * n
  {
    if Outcome(n, v) {
      var schedule :|
        Legal(n, START, schedule) && Complete(n, Run(START, schedule)) && Run(START, schedule).ncount == v;
      InvAlways(n, schedule);
    }
    if n == 0 && v == 0 {
      assert Legal(n, START, []) && Complete(n, Run(START, []));
    }
    if n == 1 && v == 1 {
      OneLost();
    }
    if n >= 1 && 2 <= v <= 2 * n {
      var p := if v - 2 < n then v - 2 else n - 1;
      RunLossy(n, p, v - 2 - p);
      assert Outcome(n, v);
    }
  }

  /** With one iteration each, both threads can load the initial 0. */
  lemma OneLost()
    ensures Outcome(1, 1)
  {
    ThenOne(1, [], START, First);
    var s1 := Step(START, First);
    ThenOne(1, [] + [First], s1, Second);
    var s2 := Step(s1, Second);
    ThenOne(1, [] + [First] + [Second], s2, First);
    var s3 := Step(s2, First);
    ThenOne(1, [] + [First] + [Second] + [First], s3, Second);
  }

  // ---------- The loop of the thread function, and the two loops on shared memory ----------

  /** The thread function run with nobody else on the global adds exactly n. */
  method ThreadFunc(start: nat, n: nat) returns (ncount: nat)
    ensures ncount == start + n
    ensures ncount == Run(START.(ncount := start), Solo(First, n)).ncount
  {
    ncount := start;
    for i := 0 to n
      invariant ncount == start + i
    {
      var val := ncount;
      ncount := val + 1;
    }
    RunSolo(n, START.(ncount := start), First, n);
  }

  /** Both loops on one global, stepped by any legal schedule. */
  method Interleave(n: nat, schedule: seq<Who>) returns (ncount: nat)
    requires Legal(n, START, schedule)
    ensures ncount == Run(START, schedule).ncount
    ensures Complete(n, Run(START, schedule)) && n >= 2 ==> 2 <= ncount <= 2 * n
  {
    ncount := 0;
    var i: seq<nat> := [0, 0];
    var val: seq<nat> := [0, 0];
    var storing := [false, false];
    for k := 0 to |schedule|
      invariant |i| == |val| == |storing| == 2
      invariant Run(START, schedule[..k]) == Race(ncount,
                  Thread(i[0], if storing[0] then AtStore(val[0]) else AtLoad),
                  Thread(i[1], if storing[1] then AtStore(val[1]) else AtLoad))
    {
      assert schedule[..k + 1][..k] == schedule[..k];
      var t := if schedule[k] == First then 0 else 1;
      if storing[t] {
        ncount := val[t] + 1;
        i := i[t := i[t] + 1];
      } else {
        val := val[t := ncount];
      }
      storing := storing[t := !storing[t]];
    }
    assert schedule[..|schedule|] == schedule;
    InvAlways(n, schedule);
  }
}
