/** 013threadPoll/threadpool.c: the circular task queue inside the pool, as it is edited
    under the pool's lock by threadpool_add (lines 127-136) and the workers (lines 182-186). */
module TaskRing {
  import opened Remainders

  /** A callback and its argument, both as addresses; argument 0 is NULL. */
  datatype Task = Task(callback: nat, args: nat)

  const NULL: nat := 0

  datatype Ring = Ring(slots: seq<Task>, front: nat, rear: nat, size: nat)

  ghost predicate Valid(r: Ring) {
    && r.front < |r.slots|
    && r.size <= |r.slots|
    && r.rear == Wrap(r.front + r.size, |r.slots|)
  }

  /** The queued tasks, oldest first. */
  function Contents(r: Ring): seq<Task>
    requires |r.slots| >= 1
  {
    seq(r.size, k requires 0 <= k < r.size => r.slots[Wrap(r.front + k, |r.slots|)])
  }

  /** Put a task in the rear slot; the code does not test for room here. */
  function Store(r: Ring, task: Task): Ring
    requires r.rear < |r.slots|
  {
    Ring(r.slots[r.rear := task], r.front, Wrap(r.rear + 1, |r.slots|), r.size + 1)
  }

  /** The argument the next store frees: the one a finished task left in the rear slot. */
  function Released(r: Ring): seq<nat>
    requires r.rear < |r.slots|
  {
    NonNull([r.slots[r.rear]])
  }

  function Take(r: Ring): Ring
    requires r.size > 0 && r.front < |r.slots|
  {
    r.(front := Wrap(r.front + 1, |r.slots|), size := r.size - 1)
  }

  /** The arguments of tasks that free would be called on. */
  function NonNull(tasks: seq<Task>): seq<nat> {
    if tasks == [] then []
    else
      var last := tasks[|tasks| - 1].args;
      NonNull(tasks[..|tasks| - 1]) + (if last == NULL then [] else [last])
  }

  lemma NonNullOne(task: Task)
    ensures NonNull([task]) == if task.args == NULL then [] else [task.args]
  {
    var one := [task];
    assert one[..|one| - 1] == [];
  }

  // ---------- The ring as a queue ----------

  /** Storing appends to the queue, and keeps the ring well formed exactly when there is room. */
  lemma StoreAppends(r: Ring, task: Task)
    requires Valid(r)
    ensures Valid(Store(r, task)) <==> r.size < |r.slots|
    ensures r.size < |r.slots| ==> Contents(Store(r, task)) == Contents(r) + [task]
  {
    hide Wrap;
    var m := |r.slots|;
    Next(r.front + r.size, m);
    if r.size < m {
      var after := Store(r, task);
      forall k | 0 <= k < r.size
        ensures Contents(after)[k] == Contents(r)[k]
      {
        Apart(r.front + k, r.front + r.size, m);
      }
    }
  }

  /** threadpool_add does not return after lines 122-123, so on a full pool being shut down it
      reaches the store: the oldest task is overwritten unrun and the size passes the capacity. */
  lemma StoreWhenFull(r: Ring, task: Task)
    requires Valid(r) && r.size == |r.slots|
    ensures Released(r) == NonNull([Contents(r)[0]])
    ensures Store(r, task).slots[r.front] == task && Store(r, task).size == |r.slots| + 1
  {
    hide Wrap;
    AddModulus(r.front, |r.slots|);
    Small(r.front, |r.slots|);
  }

  lemma TakeRemoves(r: Ring)
    requires Valid(r) && r.size > 0
    ensures Valid(Take(r))
    ensures Contents(r) == [r.slots[r.front]] + Contents(Take(r))
  {
    hide Wrap;
    var m := |r.slots|;
    Small(r.front, m);
    Walk(r.front + 1, r.size - 1, m);
    forall k | 0 <= k < r.size - 1
      ensures Contents(Take(r))[k] == Contents(r)[k + 1]
    {
      Walk(r.front + 1, k, m);
    }
  }

  // ---------- The ring against the whole history of a pool ----------

  /** The ring after `added` were stored and the first |taken| of them taken, `freed` being the
      arguments freed on the way: slot k mod m still holds the k-th task for the last m tasks. */
  ghost predicate Accounts(r: Ring, added: seq<Task>, taken: seq<Task>, freed: seq<nat>) {
    var m := |r.slots|;
    && m >= 1
    && |added| == |taken| + r.size
    && r.size <= m
    && taken == added[..|taken|]
    && r.front == Wrap(|taken|, m)
    && r.rear == Wrap(|added|, m)
    && (forall k :: 0 <= k < |added| && |added| - m <= k ==> r.slots[Wrap(k, m)] == added[k])
    && (forall j :: |added| <= j < m ==> r.slots[j].args == NULL)
    && freed == NonNull(Older(added, m))
  }

  /** All but the last m tasks. */
  function Older(added: seq<Task>, m: nat): seq<Task> {
    if |added| <= m then [] else added[..|added| - m]
  }

  lemma AccountsStart(r: Ring)
    requires |r.slots| >= 1 && r.front == r.rear == r.size == 0
    requires forall j :: 0 <= j < |r.slots| ==> r.slots[j].args == NULL
    ensures Accounts(r, [], [], [])
  {
  }

  lemma StoreKeepsRecent(r: Ring, added: seq<Task>, taken: seq<Task>, freed: seq<nat>, task: Task)
    requires Accounts(r, added, taken, freed) && r.size < |r.slots|
    ensures var after := Store(r, task);
            forall k :: 0 <= k < |added| + 1 && |added| + 1 - |r.slots| <= k ==>
              after.slots[Wrap(k, |r.slots|)] == (added + [task])[k]
  {
    hide Wrap;
    var m := |r.slots|;
    var n := |added|;
    forall k | 0 <= k < n + 1 && n + 1 - m <= k
      ensures Store(r, task).slots[Wrap(k, m)] == (added + [task])[k]
    {
      if k < n {
        Apart(k, n, m);
        assert r.slots[Wrap(k, m)] == added[k];
      }
    }
  }

  /** The rear slot: still cleared on the first lap, afterwards the task of a lap ago. */
  lemma RearSlot(r: Ring, added: seq<Task>, taken: seq<Task>, freed: seq<nat>)
    requires Accounts(r, added, taken, freed) && r.size < |r.slots|
    ensures |added| < |r.slots| ==> r.slots[r.rear].args == NULL
    ensures |added| >= |r.slots| ==> r.slots[r.rear] == added[|added| - |r.slots|]
  {
    hide Wrap;
    var m := |r.slots|;
    if |added| < m {
      Small(|added|, m);
    } else {
      var k := |added| - m;
      AddModulus(k, m);
      assert r.slots[Wrap(k, m)] == added[k];
    }
  }

  lemma NonNullSnoc(tasks: seq<Task>, task: Task)
    ensures NonNull(tasks + [task]) == NonNull(tasks) + NonNull([task])
  {
    assert (tasks + [task])[..|tasks|] == tasks;
    assert [task][..0] == [];
  }

  lemma StoreFrees(r: Ring, added: seq<Task>, taken: seq<Task>, freed: seq<nat>, task: Task)
    requires Accounts(r, added, taken, freed) && r.size < |r.slots|
    ensures freed + Released(r) == NonNull(Older(added + [task], |r.slots|))
  {
    hide Wrap;
    var m := |r.slots|;
    RearSlot(r, added, taken, freed);
    var older := Older(added, m);
    NonNullSnoc(older, r.slots[r.rear]);
    if |added| < m {
      NonNullSnoc([], r.slots[r.rear]);
    } else {
      assert Older(added + [task], m) == older + [r.slots[r.rear]];
    }
  }

  lemma StoreAccounts(r: Ring, added: seq<Task>, taken: seq<Task>, freed: seq<nat>, task: Task)
    requires Accounts(r, added, taken, freed) && r.size < |r.slots|
    ensures Accounts(Store(r, task), added + [task], taken, freed + Released(r))
  {
    hide Wrap, NonNull, Older, Released;
    Next(|added|, |r.slots|);
    StoreKeepsRecent(r, added, taken, freed, task);
    StoreFrees(r, added, taken, freed, task);
    if |added| < |r.slots| {
      Small(|added|, |r.slots|);
    }
  }

  lemma TakeAccounts(r: Ring, added: seq<Task>, taken: seq<Task>, freed: seq<nat>)
    requires Accounts(r, added, taken, freed) && r.size > 0
    ensures Accounts(Take(r), added, taken + [r.slots[r.front]], freed)
  {
    hide Wrap;
    Next(|taken|, |r.slots|);
  }

  /** Tasks leave in submission order, each once: what was added is what was taken
      followed by what is stored. */
  lemma AccountsIsQueue(r: Ring, added: seq<Task>, taken: seq<Task>, freed: seq<nat>)
    requires Accounts(r, added, taken, freed)
    ensures Valid(r) && added == taken + Contents(r)
  {
    hide Wrap;
    var m := |r.slots|;
    Walk(|taken|, r.size, m);
    forall k | 0 <= k < r.size
      ensures Contents(r)[k] == added[|taken| + k]
    {
      Walk(|taken|, k, m);
      assert r.slots[Wrap(|taken| + k, m)] == added[|taken| + k];
    }
  }

  /** The k-th add frees exactly the argument of the (k - m)-th, whose task was taken before. */
  lemma SlotReuse(r: Ring, added: seq<Task>, taken: seq<Task>, freed: seq<nat>)
    requires Accounts(r, added, taken, freed) && r.size < |r.slots|
    ensures |added| < |r.slots| ==> Released(r) == []
    ensures |added| >= |r.slots| ==>
              |added| - |r.slots| < |taken| && Released(r) == NonNull([taken[|added| - |r.slots|]])
  {
    hide Wrap;
    RearSlot(r, added, taken, freed);
    NonNullSnoc([], r.slots[r.rear]);
  }

  // ---------- What the freed pointers are, when callers pass distinct ones ----------

  ghost predicate DistinctArgs(tasks: seq<Task>) {
    forall i, j :: 0 <= i < j < |tasks| && tasks[i].args == tasks[j].args ==> tasks[i].args == NULL
  }

  lemma {:induction false} NonNullOrigin(tasks: seq<Task>, p: nat)
    requires p in NonNull(tasks)
    ensures p != NULL && exists i :: 0 <= i < |tasks| && tasks[i].args == p
  {
    var n := |tasks| - 1;
    if p in NonNull(tasks[..n]) {
      NonNullOrigin(tasks[..n], p);
      var i :| 0 <= i < n && tasks[..n][i].args == p;
      assert tasks[i].args == p;
    } else {
      assert tasks[n].args == p;
    }
  }

  lemma {:induction false} NonNullDistinct(tasks: seq<Task>)
    requires DistinctArgs(tasks)
    ensures forall i, j :: 0 <= i < j < |NonNull(tasks)| ==> NonNull(tasks)[i] != NonNull(tasks)[j]
  {
    if tasks != [] {
      var n := |tasks| - 1;
      NonNullDistinct(tasks[..n]);
      var last := tasks[n].args;
      if last != NULL && last in NonNull(tasks[..n]) {
        NonNullOrigin(tasks[..n], last);
        assert false;
      }
    }
  }

  /** With distinct arguments nothing is freed twice, nothing queued has been freed, and
      everything freed belongs to a task that was taken. */
  lemma FreesAreSound(r: Ring, added: seq<Task>, taken: seq<Task>, freed: seq<nat>)
    requires Accounts(r, added, taken, freed) && DistinctArgs(added)
    ensures forall i, j :: 0 <= i < j < |freed| ==> freed[i] != freed[j]
    ensures forall p :: p in freed ==> p in NonNull(taken)
    ensures forall task :: task in Contents(r) ==> task.args !in freed
  {
    hide Wrap;
    var m := |r.slots|;
    var older := Older(added, m);
    assert |older| <= |taken|;
    NonNullDistinct(older);
    forall p | p in freed
      ensures p in NonNull(taken)
    {
      NonNullOrigin(older, p);
      var i :| 0 <= i < |older| && older[i].args == p;
      NonNullHas(taken, i);
    }
    AccountsIsQueue(r, added, taken, freed);
    forall task | task in Contents(r)
      ensures task.args !in freed
    {
      if task.args in freed {
        var k :| 0 <= k < |Contents(r)| && Contents(r)[k] == task;
        assert added[|taken| + k] == task;
        NonNullOrigin(older, task.args);
        assert false;
      }
    }
  }

  lemma {:induction false} NonNullHas(tasks: seq<Task>, i: nat)
    requires i < |tasks| && tasks[i].args != NULL
    ensures tasks[i].args in NonNull(tasks)
  {
    var n := |tasks| - 1;
    if i < n {
      NonNullHas(tasks[..n], i);
    }
  }
}
