/**
 How instructions are paid for by calls.  Each thread has a rank, the number of instructions to its answer if nobody else
 runs, and a debt, the number of times it may still change memory so that others must start over; and memory may be in
 need of a few more changes itself.  An instruction brings its thread nearer to its answer, or pays off some debt.
 */
module LockFreedom {

  function Sum(s: seq<nat>): nat {
    if s == [] then 0 else Sum(s[..|s| - 1]) + s[|s| - 1]
  }

  lemma {:induction false} SumUpdate(s: seq<nat>, i: nat, v: nat)
    requires i < |s|
    ensures Sum(s[i := v]) + s[i] == Sum(s) + v
  {
    var n := |s| - 1;
    if i == n {
      assert s[i := v][..n] == s[..n];
    } else {
      assert s[i := v][..n] == s[..n][i := v];
      SumUpdate(s[..n], i, v);
    }
  }

  lemma {:induction false} SumFew(s: seq<nat>, most: nat)
    requires forall i :: 0 <= i < |s| ==> s[i] <= most
    ensures Sum(s) <= most * |s|
  {
    if s != [] {
      SumFew(s[..|s| - 1], most);
      assert most * |s| == most * (|s| - 1) + most;
    }
  }

  lemma {:induction false} SumLess(s: seq<nat>, s': seq<nat>)
    requires |s| == |s'| && forall i :: 0 <= i < |s| ==> s'[i] <= s[i]
    ensures Sum(s') <= Sum(s)
  {
    if s != [] { SumLess(s[..|s| - 1], s'[..|s| - 1]); }
  }

  lemma {:induction false} SumZero(s: seq<nat>)
    requires forall i :: 0 <= i < |s| ==> s[i] == 0
    ensures Sum(s) == 0
  {
    if s != [] { SumZero(s[..|s| - 1]); }
  }

  /** A change of memory can set n threads back by `most` each. */
  function Price(n: nat, most: nat): nat { most * n + 1 }

  function Potential(ranks: seq<nat>, debts: seq<nat>, lag: nat, most: nat): nat {
    Sum(ranks) + Price(|ranks|, most) * (Sum(debts) + lag)
  }

  lemma Times(c: nat, a: nat, b: nat)
    requires a <= b
    ensures c * a <= c * b
    ensures a < b ==> c * a + c <= c * b
  {
    var d: nat := b - a;
    assert c * b == c * a + c * d;
    if d > 0 { assert c * d == c * (d - 1) + c; }
  }

  /** An instruction that changes memory, and one that does not concern the other threads. */
  lemma ChangeSpends(ranks: seq<nat>, debts: seq<nat>, lag: nat, ranks': seq<nat>, debts': seq<nat>, lag': nat, most: nat, t: nat)
    requires t < |ranks| == |debts| == |ranks'| && forall u :: 0 <= u < |ranks'| ==> ranks'[u] <= most
    requires |debts'| == |debts| && debts' == debts[t := debts'[t]] && debts'[t] + lag' < debts[t] + lag
    ensures Potential(ranks', debts', lag', most) < Potential(ranks, debts, lag, most)
  {
    SumUpdate(debts, t, debts'[t]);
    SumFew(ranks', most);
    Times(Price(|ranks|, most), Sum(debts') + lag', Sum(debts) + lag);
  }

  lemma StepSpends(ranks: seq<nat>, debts: seq<nat>, lag: nat, ranks': seq<nat>, debts': seq<nat>, lag': nat, most: nat, t: nat)
    requires t < |ranks| == |debts| == |ranks'| && ranks'[t] < ranks[t]
    requires forall u :: 0 <= u < |ranks| && u != t ==> ranks'[u] <= ranks[u]
    requires |debts'| == |debts| && debts' == debts[t := debts'[t]] && debts'[t] + lag' <= debts[t] + lag
    ensures Potential(ranks', debts', lag', most) < Potential(ranks, debts, lag, most)
  {
    SumUpdate(debts, t, debts'[t]);
    SumUpdate(ranks, t, ranks'[t]);
    SumLess(ranks[t := ranks'[t]], ranks');
    Times(Price(|ranks|, most), Sum(debts') + lag', Sum(debts) + lag);
  }

  /** A call costs its rank, and the price of its debt. */
  lemma CallBuys(ranks: seq<nat>, debts: seq<nat>, lag: nat, ranks': seq<nat>, debts': seq<nat>, most: nat, t: nat)
    requires t < |ranks| == |debts| == |ranks'| && forall u :: 0 <= u < |ranks| && u != t ==> ranks'[u] <= ranks[u]
    requires |debts'| == |debts| && debts' == debts[t := debts'[t]] && debts[t] == ranks[t] == 0
    ensures Potential(ranks', debts', lag, most) <= Potential(ranks, debts, lag, most) + ranks'[t] + Price(|ranks|, most) * debts'[t]
  {
    SumUpdate(debts, t, debts'[t]);
    SumUpdate(ranks, t, ranks'[t]);
    SumLess(ranks[t := ranks'[t]], ranks');
    Distribute(Price(|ranks|, most), Sum(debts) + lag, debts'[t]);
  }

  lemma Distribute(c: nat, a: nat, b: nat)
    ensures c * (a + b) == c * a + c * b
  {
  }
}
