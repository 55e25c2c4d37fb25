/** 010_thread_sync/05thread_sync_sem_t.c: one producer and one consumer share a ring of n slots
    with no mutex, only two counting semaphores. Every statement that touches shared memory or
    a semaphore is one atomic step, and the two threads' steps interleave freely. */
module SemaphoreRing {
  import opened Remainders

  datatype ProducerPc = PWaiting | PWriting | PPosting | PAdvancing

  datatype ConsumerPc = CWaiting | CReading | CClearing | CPosting | CAdvancing

  /** The ring, the two semaphores, each thread's private index and position, and all the
      values produced and consumed so far. */
  datatype Buffer = Buffer(
    queue: seq<nat>, blank: nat, product: nat, p: nat, c: nat, producer: ProducerPc, consumer: ConsumerPc,
    produced: seq<nat>, consumed: seq<nat>)

  function Start(n: nat): Buffer {
    Buffer(seq(n, _ => 0), n, 0, 0, 0, PWaiting, CWaiting, [], [])
  }

  datatype Step = PWait | PWrite(value: nat) | PPost | PAdvance | CWait | CRead | CClear | CPost | CAdvance

  /** Values are 1 to 1000; a wait is possible only on a positive semaphore. */
  predicate Enabled(s: Buffer, st: Step) {
    match st
    case PWait => s.producer.PWaiting? && s.blank > 0
    case PWrite(value) => s.producer.PWriting? && 1 <= value <= 1000
    case PPost => s.producer.PPosting?
    case PAdvance => s.producer.PAdvancing?
    case CWait => s.consumer.CWaiting? && s.product > 0
    case CRead => s.consumer.CReading?
    case CClear => s.consumer.CClearing?
    case CPost => s.consumer.CPosting?
    case CAdvance => s.consumer.CAdvancing?
  }

  predicate Shape(s: Buffer) {
    s.p < |s.queue| && s.c < |s.queue|
  }

  function Apply(s: Buffer, st: Step): (r: Buffer)
    requires Shape(s) && Enabled(s, st)
    ensures Shape(r)
  {
    match st
    case PWait => s.(blank := s.blank - 1, producer := PWriting)
    case PWrite(value) => s.(queue := s.queue[s.p := value], producer := PPosting, produced := s.produced + [value])
    case PPost => s.(product := s.product + 1, producer := PAdvancing)
    case PAdvance => s.(p := Wrap(s.p + 1, |s.queue|), producer := PWaiting)
    case CWait => s.(product := s.product - 1, consumer := CReading)
    case CRead => s.(consumed := s.consumed + [s.queue[s.c]], consumer := CClearing)
    case CClear => s.(queue := s.queue[s.c := 0], consumer := CPosting)
    case CPost => s.(blank := s.blank + 1, consumer := CAdvancing)
    case CAdvance => s.(c := Wrap(s.c + 1, |s.queue|), consumer := CWaiting)
  }

  /** A thread is in its section between its wait and its post. */
  predicate ProducerIn(s: Buffer) {
    s.producer.PWriting? || s.producer.PPosting?
  }

  predicate ConsumerIn(s: Buffer) {
    s.consumer.CReading? || s.consumer.CClearing? || s.consumer.CPosting?
  }

  function One(b: bool): nat { if b then 1 else 0 }

  // ---------- The invariant ----------

  /** The semaphores count items against slots, net of what each thread is in the middle of. */
  ghost predicate PermitsOk(s: Buffer) {
    && s.product + |s.consumed| + One(s.producer.PPosting?) + One(s.consumer.CReading?) == |s.produced|
    && s.blank + |s.produced| + One(s.producer.PWriting?) + One(s.consumer.CClearing? || s.consumer.CPosting?) ==
       |s.queue| + |s.consumed|
  }

  /** Each private index is at the item its thread is on. */
  ghost predicate IndicesOk(s: Buffer)
    requires |s.queue| >= 1
  {
    && |s.produced| >= One(s.producer.PPosting? || s.producer.PAdvancing?)
    && s.p == Wrap(|s.produced| - One(s.producer.PPosting? || s.producer.PAdvancing?), |s.queue|)
    && |s.consumed| >= One(s.consumer.CClearing? || s.consumer.CPosting? || s.consumer.CAdvancing?)
    && s.c == Wrap(
         |s.consumed| - One(s.consumer.CClearing? || s.consumer.CPosting? || s.consumer.CAdvancing?), |s.queue|)
  }

  /** Slots hold exactly the items not yet consumed; all others are cleared. */
  ghost predicate SlotsOk(s: Buffer)
    requires |s.queue| >= 1
  {
    var n := |s.queue|;
    && (forall k: nat :: |s.consumed| <= k < |s.produced| ==> s.queue[Wrap(k, n)] == s.produced[k])
    && (forall k: nat :: |s.produced| <= k && k + One(s.consumer.CClearing?) < n + |s.consumed| ==>
          s.queue[Wrap(k, n)] == 0)
  }

  ghost predicate HistoryOk(s: Buffer) {
    && s.consumed <= s.produced
    && forall k :: 0 <= k < |s.produced| ==> 1 <= s.produced[k] <= 1000
  }

  ghost predicate Inv(s: Buffer) {
    |s.queue| >= 1 && PermitsOk(s) && IndicesOk(s) && SlotsOk(s) && HistoryOk(s)
  }

  lemma StartInv(n: nat)
    requires n >= 1
    ensures Inv(Start(n))
  {
    Small(0, n);
  }

  lemma IndicesKept(s: Buffer, st: Step)
    requires Inv(s) && Enabled(s, st)
    ensures IndicesOk(Apply(s, st)) && PermitsOk(Apply(s, st))
  {
    hide Wrap, SlotsOk, HistoryOk;
    match st
    case PAdvance => Next(|s.produced| - 1, |s.queue|);
    case CAdvance => Next(|s.consumed| - 1, |s.queue|);
    case _ =>
  }

  lemma WriteKeepsSlots(s: Buffer, value: nat)
    requires Inv(s) && Enabled(s, PWrite(value))
    ensures SlotsOk(Apply(s, PWrite(value))) && s.queue[s.p] == 0
  {
    hide Wrap, HistoryOk;
    var n, a, b := |s.queue|, |s.produced|, |s.consumed|;
    var r := Apply(s, PWrite(value));
    forall k: nat | b <= k < a + 1
      ensures r.queue[Wrap(k, n)] == r.produced[k]
    {
      if k < a {
        Apart(k, a, n);
      }
    }
    forall k: nat | a + 1 <= k && k + One(s.consumer.CClearing?) < n + b
      ensures r.queue[Wrap(k, n)] == 0
    {
      Apart(a, k, n);
    }
  }

  lemma ClearKeepsSlots(s: Buffer)
    requires Inv(s) && Enabled(s, CClear)
    ensures SlotsOk(Apply(s, CClear))
  {
    hide Wrap, HistoryOk;
    var n, a, b := |s.queue|, |s.produced|, |s.consumed|;
    var r := Apply(s, CClear);
    forall k: nat | b <= k < a
      ensures r.queue[Wrap(k, n)] == r.produced[k]
    {
      Apart(b - 1, k, n);
    }
    forall k: nat | a <= k < n + b
      ensures r.queue[Wrap(k, n)] == 0
    {
      if k == n + b - 1 {
        AddModulus(b - 1, n);
      }
    }
  }

  lemma InvStep(s: Buffer, st: Step)
    requires Inv(s) && Enabled(s, st)
    ensures Inv(Apply(s, st))
  {
    IndicesKept(s, st);
    hide Wrap;
    match st
    case PWrite(value) => WriteKeepsSlots(s, value);
    case CClear => ClearKeepsSlots(s);
    case CRead => assert s.queue[Wrap(|s.consumed|, |s.queue|)] == s.produced[|s.consumed|];
    case _ =>
  }

  // ---------- Runs ----------

  ghost predicate Legal(s: Buffer, steps: seq<Step>)
    requires Shape(s)
    decreases |steps|
  {
    steps == [] || (Enabled(s, steps[0]) && Legal(Apply(s, steps[0]), steps[1..]))
  }

  ghost function Run(s: Buffer, steps: seq<Step>): (r: Buffer)
    requires Shape(s) && Legal(s, steps)
    ensures Shape(r) && |r.queue| == |s.queue|
    decreases |steps|
  {
    if steps == [] then s else Run(Apply(s, steps[0]), steps[1..])
  }

  lemma {:induction false} InvRun(s: Buffer, steps: seq<Step>)
    requires Shape(s) && Inv(s) && Legal(s, steps)
    ensures Inv(Run(s, steps))
    decreases |steps|
  {
    if steps != [] {
      InvStep(s, steps[0]);
      hide Inv;
      InvRun(Apply(s, steps[0]), steps[1..]);
    }
  }

  ghost predicate Reachable(n: nat, s: Buffer) {
    n >= 1 && exists steps :: Legal(Start(n), steps) && Run(Start(n), steps) == s
  }

  lemma ReachableInv(n: nat, s: Buffer)
    requires Reachable(n, s)
    ensures Inv(s) && Shape(s) && |s.queue| == n
  {
    var steps :| Legal(Start(n), steps) && Run(Start(n), steps) == s;
    StartInv(n);
    InvRun(Start(n), steps);
  }

  // ---------- What the two semaphores guarantee ----------

  /** The consumer sees exactly the produced values in order, at most n behind, never a cleared 0;
      and whatever it is about to read is the next one. */
  lemma Fifo(n: nat, s: Buffer)
    requires Reachable(n, s)
    ensures s.consumed <= s.produced && |s.produced| <= |s.consumed| + n
    ensures forall v :: v in s.consumed ==> 1 <= v <= 1000
    ensures s.consumer.CReading? ==> |s.consumed| < |s.produced| && s.queue[s.c] == s.produced[|s.consumed|]
  {
    ReachableInv(n, s);
  }

  /** Permits are conserved. */
  lemma PermitBalance(n: nat, s: Buffer)
    requires Reachable(n, s)
    ensures s.blank + s.product + One(ProducerIn(s)) + One(ConsumerIn(s)) == n
  {
    ReachableInv(n, s);
  }

  /** The two threads are never both blocked: one of them always has a next statement. */
  lemma NeverDeadlocked(n: nat, s: Buffer)
    requires Reachable(n, s)
    ensures exists st :: Enabled(s, st)
  {
    PermitBalance(n, s);
    var st := match s.producer
              case PWriting => PWrite(1)
              case PPosting => PPost
              case PAdvancing => PAdvance
              case PWaiting =>
                if s.blank > 0 then PWait
                else match s.consumer
                     case CWaiting => CWait
                     case CReading => CRead
                     case CClearing => CClear
                     case CPosting => CPost
                     case CAdvancing => CAdvance;
    assert Enabled(s, st);
  }

  /** With both threads in their sections they are on different slots. */
  lemma SlotExclusion(n: nat, s: Buffer)
    requires Reachable(n, s) && ProducerIn(s) && ConsumerIn(s)
    ensures s.p != s.c
  {
    ReachableInv(n, s);
    hide Wrap;
    Apart(|s.consumed| - One(!s.consumer.CReading?), |s.produced| - One(s.producer.PPosting?), n);
  }

  /** The producer only ever writes over a cleared slot. */
  lemma NeverOverwrites(n: nat, s: Buffer)
    requires Reachable(n, s) && s.producer.PWriting?
    ensures s.queue[s.p] == 0
  {
    ReachableInv(n, s);
    WriteKeepsSlots(s, 1);
  }

  /** The values a run's write statements draw, in order. */
  function Written(steps: seq<Step>): seq<nat> {
    if steps == [] then []
    else (if steps[0].PWrite? then [steps[0].value] else []) + Written(steps[1..])
  }

  lemma {:induction false} WrittenRun(s: Buffer, steps: seq<Step>)
    requires Shape(s) && Legal(s, steps)
    ensures Run(s, steps).produced == s.produced + Written(steps)
    decreases |steps|
  {
    if steps != [] {
      var r := Apply(s, steps[0]);
      assert r.produced == s.produced + (if steps[0].PWrite? then [steps[0].value] else []);
      hide Apply, Enabled;
      WrittenRun(r, steps[1..]);
    }
  }

  /** What is produced is what was drawn, and so the consumer sees exactly that, in order. */
  lemma ConsumesWhatWasWritten(n: nat, steps: seq<Step>)
    requires n >= 1 && Legal(Start(n), steps)
    ensures Run(Start(n), steps).produced == Written(steps)
    ensures Run(Start(n), steps).consumed <= Written(steps)
  {
    WrittenRun(Start(n), steps);
    Fifo(n, Run(Start(n), steps));
  }

  // ---------- The same steps on the array ----------

  class SharedBuffer {
    const queue: array<nat>
    var blank: nat
    var product: nat
    var p: nat
    var c: nat
    var producer: ProducerPc
    var consumer: ConsumerPc
    ghost var produced: seq<nat>
    ghost var consumed: seq<nat>

    ghost function View(): Buffer
      reads this, queue
    {
      Buffer(queue[..], blank, product, p, c, producer, consumer, produced, consumed)
    }

    constructor (n: nat)
      requires n >= 1
      ensures View() == Start(n) && fresh(queue)
    {
      queue := new nat[n](_ => 0);
      blank, product, p, c := n, 0, 0, 0;
      producer, consumer, produced, consumed := PWaiting, CWaiting, [], [];
    }

    /** The next statement of the producer's loop; `value` is what it would produce. */
    method Produce(value: nat)
      requires Shape(View()) && 1 <= value <= 1000 && (producer.PWaiting? ==> blank > 0)
      modifies this, queue
      ensures View() == Apply(old(View()), match old(producer)
                                           case PWaiting => PWait
                                           case PWriting => PWrite(value)
                                           case PPosting => PPost
                                           case PAdvancing => PAdvance)
    {
      match producer
      case PWaiting =>
        blank := blank - 1;
        producer := PWriting;
      case PWriting =>
        queue[p] := value;
        produced := produced + [value];
        producer := PPosting;
      case PPosting =>
        product := product + 1;
        producer := PAdvancing;
      case PAdvancing =>
        p := Wrap(p + 1, queue.Length);
        producer := PWaiting;
    }

    /** The next statement of the consumer's loop, and the value it prints if that is the read. */
    method Consume() returns (printed: nat)
      requires Shape(View()) && (consumer.CWaiting? ==> product > 0)
      modifies this, queue
      ensures View() == Apply(old(View()), match old(consumer)
                                           case CWaiting => CWait
                                           case CReading => CRead
                                           case CClearing => CClear
                                           case CPosting => CPost
                                           case CAdvancing => CAdvance)
      ensures old(consumer).CReading? ==> consumed == old(consumed) + [printed]
    {
      printed := 0;
      match consumer
      case CWaiting =>
        product := product - 1;
        consumer := CReading;
      case CReading =>
        printed := queue[c];
        consumed := consumed + [printed];
        consumer := CClearing;
      case CClearing =>
        queue[c] := 0;
        consumer := CPosting;
      case CPosting =>
        blank := blank + 1;
        consumer := CAdvancing;
      case CAdvancing =>
        c := Wrap(c + 1, queue.Length);
        consumer := CWaiting;
    }
  }
}
