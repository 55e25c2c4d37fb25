/** Sums of a weight over a sequence: how the models count threads in a phase
    and measure how much work a state still has to do. */
module Totals {

  function Total<T>(s: seq<T>, w: T -> nat): nat {
    if s == [] then 0 else Total(s[..|s| - 1], w) + w(s[|s| - 1])
  }

  /** Changing one entry moves the sum by exactly that entry's change. */
  lemma {:induction false} TotalUpdate<T>(s: seq<T>, i: nat, v: T, w: T -> nat)
    requires i < |s|
    ensures Total(s[i := v], w) == Total(s, w) - w(s[i]) + w(v)
  {
    var n := |s| - 1;
    if i == n {
      assert s[i := v][..n] == s[..n];
    } else {
      TotalUpdate(s[..n], i, v, w);
      assert s[i := v][..n] == s[..n][i := v];
    }
  }

  lemma {:induction false} TotalAppend<T>(s: seq<T>, t: seq<T>, w: T -> nat)
    ensures Total(s + t, w) == Total(s, w) + Total(t, w)
  {
    if t == [] {
      assert s + t == s;
    } else {
      var n := |t| - 1;
      assert (s + t)[..|s| + n] == s + t[..n];
      TotalAppend(s, t[..n], w);
    }
  }

  /** A sum of entries that weigh at most c each. */
  lemma {:induction false} TotalBounded<T>(s: seq<T>, w: T -> nat, c: nat)
    requires forall i :: 0 <= i < |s| ==> w(s[i]) <= c
    ensures Total(s, w) <= c * |s|
  {
    if s != [] {
      TotalBounded(s[..|s| - 1], w, c);
    }
  }

  /** Lowering entries pointwise lowers the sum. */
  lemma {:induction false} TotalPointwise<T>(s: seq<T>, t: seq<T>, w: T -> nat)
    requires |s| == |t|
    requires forall i :: 0 <= i < |s| ==> w(s[i]) <= w(t[i])
    ensures Total(s, w) <= Total(t, w)
  {
    if s != [] {
      TotalPointwise(s[..|s| - 1], t[..|t| - 1], w);
    }
  }

  /** A positive sum has a positive entry. */
  lemma {:induction false} SomePositive<T>(s: seq<T>, w: T -> nat)
    requires Total(s, w) > 0
    ensures exists k :: 0 <= k < |s| && w(s[k]) > 0
  {
    var n := |s| - 1;
    if w(s[n]) == 0 {
      SomePositive(s[..n], w);
      var k :| 0 <= k < n && w(s[..n][k]) > 0;
      assert w(s[k]) > 0;
    }
  }
}
