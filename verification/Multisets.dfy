/** Small facts about multisets, and the multiset a sequence of threads carries. */
module Multisets {

  /** One sum gains d for c, the other c for d. */
  lemma Exchange<T>(x: multiset<T>, y: multiset<T>, x': multiset<T>, y': multiset<T>, c: multiset<T>, d: multiset<T>)
    requires x' + c == x + d && y' + d == y + c
    ensures x' + y' == x + y
  {
    forall o: T
      ensures (x' + y')[o] == (x + y)[o]
    {
      assert (x' + c)[o] == (x + d)[o];
      assert (y' + d)[o] == (y + c)[o];
    }
  }

  lemma AddBoth<T>(a: multiset<T>, b: multiset<T>, c: multiset<T>, d: multiset<T>, e: multiset<T>)
    requires a + c == b + d
    ensures (a + e) + c == (b + e) + d
  {
    forall o: T
      ensures ((a + e) + c)[o] == ((b + e) + d)[o]
    {
      assert (a + c)[o] == (b + d)[o];
    }
  }

  /** All that the entries of a sequence carry. */
  function Gathered<S, T>(s: seq<S>, carried: S -> multiset<T>): multiset<T> {
    if s == [] then multiset{} else Gathered(s[..|s| - 1], carried) + carried(s[|s| - 1])
  }

  lemma {:induction false} GatheredUpdate<S, T>(s: seq<S>, i: nat, v: S, carried: S -> multiset<T>)
    requires i < |s|
    ensures Gathered(s[i := v], carried) + carried(s[i]) == Gathered(s, carried) + carried(v)
  {
    var n := |s| - 1;
    if i == n {
      assert s[i := v][..n] == s[..n];
    } else {
      GatheredUpdate(s[..n], i, v, carried);
      var rest := s[..n][i := v];
      assert s[i := v][..n] == rest;
      AddBoth(Gathered(rest, carried), Gathered(s[..n], carried), carried(s[i]), carried(v), carried(s[n]));
    }
  }

  /** Entries may change, and others be added, as long as what they carry does not. */
  lemma {:induction false} GatheredSame<S, T>(a: seq<S>, b: seq<S>, carried: S -> multiset<T>)
    requires |a| <= |b|
    requires forall i :: 0 <= i < |b| ==> carried(b[i]) == if i < |a| then carried(a[i]) else multiset{}
    ensures Gathered(a, carried) == Gathered(b, carried)
  {
    if |b| > |a| {
      GatheredSame(a, b[..|b| - 1], carried);
    } else if a != [] {
      GatheredSame(a[..|a| - 1], b[..|b| - 1], carried);
    }
  }

  lemma {:induction false} GatheredOther<S, T>(s: seq<S>, f: S -> multiset<T>, g: S -> multiset<T>)
    requires forall i :: 0 <= i < |s| ==> f(s[i]) == g(s[i])
    ensures Gathered(s, f) == Gathered(s, g)
  {
    if s != [] {
      GatheredOther(s[..|s| - 1], f, g);
    }
  }
}
