/**
 What holds of the deque in every run.
 */
module DequeResults {
  import opened Linearizability
  import opened DequeSpecs
  import opened Sequences
  import opened Deque
  import opened DequeProof

  /** In every interleaving the calls behave as if each took effect at once on a plain sequence. */
  lemma DequeIsLinearizable(n: nat, sched: seq<Action>)
    ensures Linearizable(DequeSpec, [], Exec(Init(n), sched).trace)
  {
    RunKeeps(n, sched);
    EffectsLinearize(DequeSpec, [], Exec(Init(n), sched).trace);
  }

  /** The coherence the source states for its list holds in every reachable state, and none of its
      assertions fails. */
  lemma DequeIsCoherent(n: nat, sched: seq<Action>)
    ensures var s := Exec(Init(n), sched);
      && Coherent(s.mem) && AnchorOk(s.mem.anchor, s.mem.q) && Distinct(s.mem.q)
      && forall t :: 0 <= t < |s.threads| ==> !(s.threads[t].Busy? && s.threads[t].pc.Crash?)
  {
    RunKeeps(n, sched);
  }

  /** The history variable q says nothing that the anchor and the links do not: two memories with the
      same anchor and links hold the same nodes in the same order. */
  lemma NodesDetermined(m1: Mem, m2: Mem)
    requires MemInv(m1) && MemInv(m2)
    requires m1.anchor == m2.anchor && m1.left == m2.left && m1.right == m2.right
    ensures m1.q == m2.q
  {
    assert m1.q != [] ==> m1.q[0] in m1.q;
    assert m2.q != [] ==> m2.q[0] in m2.q;
    assert m1.q == [] <==> m2.q == [];
    if m1.q != [] {
      var n1, n2 := |m1.q|, |m2.q|;
      if m1.anchor.st.LPush? {
        WalkRight(m1, m2, (if n1 <= n2 then n1 else n2) - 1);
        assert n1 == n2;
        forall k | 0 <= k < n1 ensures m1.q[k] == m2.q[k] { WalkRight(m1, m2, k); }
      } else {
        WalkLeft(m1, m2, if n1 <= n2 then 0 else n1 - n2);
        assert n1 == n2;
        forall k | 0 <= k < n1 ensures m1.q[k] == m2.q[k] { WalkLeft(m1, m2, k); }
      }
    }
  }

  lemma {:induction false} WalkRight(m1: Mem, m2: Mem, k: nat)
    requires AnchorOk(m1.anchor, m1.q) && AnchorOk(m2.anchor, m2.q) && Coherent(m1) && Coherent(m2)
    requires k < |m1.q| && k < |m2.q|
    requires m1.anchor == m2.anchor && m1.right == m2.right && !m1.anchor.st.RPush?
    ensures m1.q[k] == m2.q[k]
  {
    if k > 0 { WalkRight(m1, m2, k - 1); }
  }

  lemma {:induction false} WalkLeft(m1: Mem, m2: Mem, k: nat)
    requires AnchorOk(m1.anchor, m1.q) && AnchorOk(m2.anchor, m2.q) && Coherent(m1) && Coherent(m2)
    requires k < |m1.q| && 0 <= k + |m2.q| - |m1.q|
    requires m1.anchor == m2.anchor && m1.left == m2.left && !m1.anchor.st.LPush?
    ensures m1.q[k] == m2.q[k + |m2.q| - |m1.q|]
    decreases |m1.q| - k
  {
    if k + 1 < |m1.q| { WalkLeft(m1, m2, k + 1); }
  }

  // ---------------------------------------------------------------- helpers and retries, in every run

  /** A helper that stalls before its compare-and-swap on a neighbour link cannot land it late: whenever the swap would
      succeed, the anchor is still the unstable one that the helper copied, and the link is that of the second node. */
  lemma LateFixesAreHarmless(n: nat, sched: seq<Action>, t: nat)
    requires var s := Exec(Init(n), sched);
      && t < |s.threads| && s.threads[t].Busy? && s.threads[t].pc.StFix?
      && Outward(s.mem, PushSide(s.threads[t].a.st), s.threads[t].prev) == s.threads[t].nbr
    ensures var s := Exec(Init(n), sched); var th := s.threads[t];
      s.mem.anchor == th.a && |s.mem.q| >= 2 && th.prev == Inner(s.mem.q, PushSide(th.a.st))
  {
    RunKeeps(n, sched);
    LateFix(Exec(Init(n), sched).mem, Exec(Init(n), sched).threads[t]);
  }

  lemma LateFix(m: Mem, th: Local)
    requires MemInv(m) && ThreadInv(m, th) && th.Busy? && th.pc.StFix? && Outward(m, PushSide(th.a.st), th.prev) == th.nbr
    ensures m.anchor == th.a && |m.q| >= 2 && th.prev == Inner(m.q, PushSide(th.a.st))
  {
    StalledHelperIsHarmless(m, th);
  }

  /** A pop whose compare-and-swap would succeed installs the node next to the one it removes. */
  lemma PopsInstallTheSecond(n: nat, sched: seq<Action>, t: nat)
    requires var s := Exec(Init(n), sched);
      t < |s.threads| && s.threads[t].Busy? && s.threads[t].pc.CasPop? && s.mem.anchor == s.threads[t].a
    ensures var s := Exec(Init(n), sched); var th := s.threads[t];
      |s.mem.q| >= 2 && th.prev == Inner(s.mem.q, th.op.d) && s.mem.anchor.st.Stable?
  {
    RunKeeps(n, sched);
    PopInstallsTheSecond(Exec(Init(n), sched).mem, Exec(Init(n), sched).threads[t]);
  }

  lemma PopInstallsTheSecond(m: Mem, th: Local)
    requires MemInv(m) && ThreadInv(m, th) && th.Busy? && th.pc.CasPop? && m.anchor == th.a
    ensures |m.q| >= 2 && th.prev == Inner(m.q, th.op.d) && m.anchor.st.Stable?
  {
    SameAnchorSameNodes(m, th.a, th.snap);
    assert m.anchor.l in m.q && m.anchor.r in m.q;
  }

  lemma ApplyKeepsSnap(s: State, act: Action, a: Anchor, q: seq<Ptr>)
    requires Inv(s) && SnapOk(s.mem, a, q)
    ensures SnapOk(Apply(s, act).mem, a, q)
  {
    var t := act.t;
    if t < |s.threads| && act.Invoke? && s.threads[t].Idle? && act.op.Push? {
      FreshNodeRely(s.mem, act.op.v);
      SnapStable(s.mem, Enter(s.mem, act.op).0, |s.mem.data|, a, q);
    }
    if t < |s.threads| && act.Continue? && s.threads[t].Busy? {
      StepKeeps(s.mem, s.threads[t], t);
      SnapStable(s.mem, Step(s.mem, s.threads[t], t).0, OwnNode(s.threads[t]), a, q);
    }
  }

  lemma {:induction false} RunKeepsSnap(n: nat, sched: seq<Action>, more: seq<Action>, a: Anchor, q: seq<Ptr>)
    requires SnapOk(Exec(Init(n), sched).mem, a, q)
    ensures SnapOk(Exec(Init(n), sched + more).mem, a, q)
  {
    if more == [] {
      assert sched + more == sched;
    } else {
      var before := more[..|more| - 1];
      RunKeepsSnap(n, sched, before, a, q);
      assert (sched + more)[..|sched + more| - 1] == sched + before;
      RunKeeps(n, sched + before);
      ApplyKeepsSnap(Exec(Init(n), sched + before), more[|more| - 1], a, q);
    }
  }

  /** There is no ABA: if the anchor has the same value at two times of a run, the deque holds the same nodes in the
      same order at both. */
  lemma {:induction false} AnchorTellsNodes(n: nat, sched: seq<Action>, more: seq<Action>)
    requires Exec(Init(n), sched).mem.anchor == Exec(Init(n), sched + more).mem.anchor
    ensures Exec(Init(n), sched).mem.q == Exec(Init(n), sched + more).mem.q
  {
    var m, m' := Exec(Init(n), sched).mem, Exec(Init(n), sched + more).mem;
    RunKeeps(n, sched);
    RunKeeps(n, sched + more);
    if m.q != [] {
      SnapNow(m);
      RunKeepsSnap(n, sched, more, m.anchor, m.q);
      SameAnchorSameNodes(m', m.anchor, m.q);
    } else {
      FirstIsNotNull(m');
    }
  }

  lemma FirstIsNotNull(m: Mem)
    requires MemInv(m)
    ensures m.q != [] ==> m.anchor.l != NULL
  {
    if m.q != [] { assert m.q[0] in m.q; }
  }
}
